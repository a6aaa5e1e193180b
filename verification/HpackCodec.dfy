/** The encoder and decoder objects of HPACK, each with its own table changed in place. */
module HpackCodec {
  import opened Wrappers
  import opened Octets
  import opened StaticTable
  import opened HpackTable
  import opened Hpack

  class Encoder {
    const c: Coding
    const table: DynamicTable
    var pendingSize: Option<nat>

    ghost predicate Valid()
      reads this, table
    {
      table.Valid() && Usable(c)
    }

    ghost function State(): EncoderState
      reads this, table
    {
      EncoderState(table.Value(), pendingSize)
    }

    constructor (c: Coding, maxSize: nat)
      requires Usable(c)
      ensures Valid() && fresh(table) && this.c == c && State() == EncoderState(Table([], maxSize), None)
    {
      this.c := c;
      table := new DynamicTable(maxSize);
      pendingSize := None;
    }

    /** Queues a size update for the next block. */
    method SetMaxSize(value: nat)
      requires Valid()
      modifies this
      ensures Valid() && State() == old(State()).(pending := Some(value))
    {
      pendingSize := Some(value);
    }

    method EncodeOneField(f: Field, huffman: bool) returns (out: Bytes)
      requires Valid()
      modifies table
      ensures Valid() && (out, table.Value()) == EncodeField(c, old(table.Value()), f, huffman)
    {
      var fixedExact := StaticExact(c, f);
      if fixedExact.Some? {
        return Indexed(fixedExact.value);
      }
      var found := table.FindField(f);
      if found.Exact? {
        return Indexed(found.position + StaticSize(c));
      }
      var nameIndex := StaticByName(c, f.name);
      if nameIndex.None? && found.NameOnly? {
        nameIndex := Some(found.position + StaticSize(c));
      }
      assert nameIndex == NameIndex(c, table.Value(), f);
      if NeverIndex(f.name) {
        return Literal(c, nameIndex, f, huffman, NeverIndexed);
      }
      var kept := table.Add(f);
      return Literal(c, nameIndex, f, huffman, WithIndexing);
    }

    method Encode(headers: seq<Field>, huffman: bool) returns (out: Bytes)
      requires Valid()
      modifies this, table
      ensures Valid() && (out, State()) == EncodeBlock(c, old(State()), headers, huffman)
    {
      out := [];
      if pendingSize.Some? {
        table.SetMaxSize(pendingSize.value);
        out := out + SizeUpdate(pendingSize.value);
        assert out == SizeUpdate(pendingSize.value);
        pendingSize := None;
      }
      ghost var head, start := out, table.Value();
      ghost var lowered := LowerNames(headers);
      assert lowered[0..] == lowered;
      for i := 0 to |headers|
        invariant Valid() && pendingSize.None?
        invariant out + EncodeFields(c, table.Value(), lowered[i..], huffman).0 == head + EncodeFields(c, start, lowered, huffman).0
        invariant EncodeFields(c, table.Value(), lowered[i..], huffman).1 == EncodeFields(c, start, lowered, huffman).1
      {
        ghost var before := table.Value();
        ghost var sent := out;
        FirstOfFields(c, before, lowered, i, huffman);
        var field := EncodeOneField(LowerName(headers[i]), huffman);
        out := out + field;
        assert sent + (field + EncodeFields(c, table.Value(), lowered[i + 1..], huffman).0) ==
               out + EncodeFields(c, table.Value(), lowered[i + 1..], huffman).0;
      }
      assert lowered[|headers|..] == [] && out + [] == out;
    }
  }

  lemma {:induction false} FirstOfFields(c: Coding, t: Table, headers: seq<Field>, i: nat, huffman: bool)
    requires Usable(c) && i < |headers|
    ensures var (first, t1) := EncodeField(c, t, headers[i], huffman);
            var (rest, t2) := EncodeFields(c, t1, headers[i + 1..], huffman);
            EncodeFields(c, t, headers[i..], huffman) == (first + rest, t2)
  {
    assert headers[i..][1..] == headers[i + 1..];
  }

  class Decoder {
    const c: Coding
    const table: DynamicTable
    /** The ceiling the peer may raise the table to. */
    var maxAllowedSize: nat

    ghost predicate Valid()
      reads this, table
    {
      table.Valid() && Usable(c)
    }

    constructor (c: Coding, maxSize: nat)
      requires Usable(c)
      ensures Valid() && fresh(table) && this.c == c && maxAllowedSize == maxSize
      ensures table.Value() == Table([], maxSize)
    {
      this.c := c;
      table := new DynamicTable(maxSize);
      maxAllowedSize := maxSize;
    }

    method LookupField(index: nat) returns (r: Result<Field, HpackError>)
      requires Valid()
      ensures r == Lookup(c, table.Value(), index)
    {
      if index == 0 {
        return Err(IndexZero);
      }
      if index <= StaticSize(c) {
        return Ok(c.fixed[index]);
      }
      var entry := table.Get(index - StaticSize(c));
      return if entry.Some? then Ok(entry.value) else Err(IndexOutOfRange);
    }

    method ReadLiteral(data: Bytes, offset: nat, prefixBits: nat) returns (r: Result<(Field, nat), HpackError>)
      requires Valid() && 1 <= prefixBits <= 8
      ensures r == DecodeLiteral(c, table.Value(), data, offset, prefixBits)
    {
      var head := ReadInteger(data, offset, prefixBits);
      if head.Err? {
        return Err(head.error);
      }
      var (index, next) := head.value;
      var name: Bytes;
      if index != 0 {
        var entry := LookupField(index);
        if entry.Err? {
          return Err(entry.error);
        }
        name := entry.value.name;
      } else {
        var text := ReadString(c, data, next);
        if text.Err? {
          return Err(text.error);
        }
        name, next := text.value.0, text.value.1;
      }
      var value := ReadString(c, data, next);
      if value.Err? {
        return Err(value.error);
      }
      return Ok((Field(name, value.value.0), value.value.1));
    }

    /** Decodes a block to its end, even past the list limit, so that the table stays in step. */
    method Decode(data: Bytes, limit: Option<nat>) returns (outcome: Outcome)
      requires Valid()
      modifies table
      ensures Valid() && outcome == DecodeBlock(c, old(table.Value()), maxAllowedSize, data, limit)
      ensures table.Value() == outcome.table
    {
      var offset := 0;
      var headers: seq<Field> := [];
      var sawField, listSize: nat := false, 0;
      while offset < |data|
        invariant Valid()
        invariant offset <= |data|
        invariant DecodeFrom(c, DecodeState(table.Value(), sawField, headers, listSize), maxAllowedSize, limit, data, offset) ==
                  DecodeBlock(c, old(table.Value()), maxAllowedSize, data, limit)
        decreases |data| - offset
      {
        ghost var s := DecodeState(table.Value(), sawField, headers, listSize);
        var byte := data[offset];
        var field: Field;
        if byte >= 0x80 {
          var r := ReadInteger(data, offset, 7);
          if r.Err? {
            return Failed(r.error, Table(table.entries, table.maxSize));
          }
          var entry := LookupField(r.value.0);
          if entry.Err? {
            return Failed(entry.error, Table(table.entries, table.maxSize));
          }
          field, offset := entry.value, r.value.1;
        } else if 0x20 <= byte < 0x40 {
          var r := ReadInteger(data, offset, 5);
          if r.Err? {
            return Failed(r.error, Table(table.entries, table.maxSize));
          }
          if r.value.0 > maxAllowedSize {
            return Failed(SizeOverCeiling, Table(table.entries, table.maxSize));
          }
          if sawField {
            return Failed(LateSizeUpdate, Table(table.entries, table.maxSize));
          }
          table.SetMaxSize(r.value.0);
          offset := r.value.1;
          continue;
        } else {
          var r := ReadLiteral(data, offset, if byte >= 0x40 then 6 else 4);
          if r.Err? {
            return Failed(r.error, Table(table.entries, table.maxSize));
          }
          field, offset := r.value.0, r.value.1;
          if byte >= 0x40 {
            var kept := table.Add(field);
          }
        }
        sawField := true;
        if limit.None? {
          headers := headers + [field];
        } else {
          listSize := listSize + EntrySize(field);
          if listSize <= limit.value {
            headers := headers + [field];
          }
        }
        assert DecodeState(table.Value(), sawField, headers, listSize) == s.(table := table.Value()).Keep(field, limit);
      }
      if limit.Some? && listSize > limit.value {
        return ListTooLarge(listSize, Table(table.entries, table.maxSize));
      }
      return Fields(headers, Table(table.entries, table.maxSize));
    }
  }
}
