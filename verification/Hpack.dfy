/**
 * Header blocks of HPACK as functions of the table states of the two peers: section 6 of
 * RFC 7541. The encoder and the decoder never exchange their tables; the theorems say that
 * the tables stay equal over every run.
 */
module Hpack {
  import opened Wrappers
  import opened Octets
  import opened HpackInteger
  import opened StringLiteral
  import opened HpackTable
  import opened StaticTable

  // Encoding.

  /** Index 0 of the static table is unused. */
  function StaticSize(c: Coding): nat
    requires Usable(c)
  {
    |c.fixed| - 1
  }

  function StaticExact(c: Coding, f: Field): Option<nat> {
    StaticExactFrom(c.fixed, f, 1)
  }

  function StaticByName(c: Coding, name: Bytes): Option<nat> {
    StaticByNameFrom(c.fixed, name, 1)
  }

  function Indexed(index: nat): Bytes {
    TagsFit();
    Tagged(EncodeInteger(index, 7), 0x80)
  }

  lemma {:induction false} TagsFit()
    ensures Pow2(4) == 16 && Pow2(5) == 32 && Pow2(6) == 64 && Pow2(7) == 128
  {
    Pow2Values();
  }

  datatype Representation = WithIndexing | NeverIndexed

  function PrefixOf(r: Representation): nat {
    if r.WithIndexing? then 6 else 4
  }

  function PatternOf(r: Representation): nat {
    if r.WithIndexing? then 0x40 else 0x10
  }

  /** Index 0 announces that the name follows as a string. */
  function LiteralHead(nameIndex: Option<nat>, r: Representation): (head: Bytes)
    ensures |head| > 0
    ensures PatternOf(r) <= head[0] < 2 * PatternOf(r) || (r.NeverIndexed? && 0x10 <= head[0] < 0x20)
  {
    TagsFit();
    Tagged(EncodeInteger(match nameIndex case None => 0 case Some(i) => i, PrefixOf(r)), PatternOf(r))
  }

  function LiteralName(c: Coding, nameIndex: Option<nat>, f: Field, huffman: bool): Bytes
    requires Usable(c)
  {
    if nameIndex.None? then HpackString(c.z, f.name, huffman) else []
  }

  /** `_literal`. */
  function Literal(c: Coding, nameIndex: Option<nat>, f: Field, huffman: bool, r: Representation): Bytes
    requires Usable(c)
  {
    LiteralHead(nameIndex, r) + LiteralName(c, nameIndex, f, huffman) + HpackString(c.z, f.value, huffman)
  }

  /** The index of the name a literal refers to, if either table holds it. */
  function NameIndex(c: Coding, t: Table, f: Field): Option<nat>
    requires Usable(c)
  {
    match StaticByName(c, f.name)
    case Some(i) => Some(i)
    case None =>
      match Find(t.entries, f)
      case NameOnly(p) => Some(p + StaticSize(c))
      case Exact(p) => Some(p + StaticSize(c))
      case NoMatch => None
  }

  /** `_encode_field`: the octets of one field and the table behind it. */
  function EncodeField(c: Coding, t: Table, f: Field, huffman: bool): (Bytes, Table)
    requires Usable(c)
  {
    if StaticExact(c, f).Some? then (Indexed(StaticExact(c, f).value), t)
    else if Find(t.entries, f).Exact? then (Indexed(Find(t.entries, f).position + StaticSize(c)), t)
    else if NeverIndex(f.name) then (Literal(c, NameIndex(c, t, f), f, huffman, NeverIndexed), t)
    else (Literal(c, NameIndex(c, t, f), f, huffman, WithIndexing), t.Add(f))
  }

  function LowerName(f: Field): Field {
    Field(Lower(f.name), f.value)
  }

  function LowerNames(headers: seq<Field>): (r: seq<Field>)
    ensures |r| == |headers|
  {
    seq(|headers|, i requires 0 <= i < |headers| => LowerName(headers[i]))
  }

  /** The fields of a block one after the other; `headers` has lower-case names already. */
  function EncodeFields(c: Coding, t: Table, headers: seq<Field>, huffman: bool): (Bytes, Table)
    requires Usable(c)
    decreases |headers|
  {
    if |headers| == 0 then ([], t)
    else
      var (first, t1) := EncodeField(c, t, headers[0], huffman);
      var (rest, t2) := EncodeFields(c, t1, headers[1..], huffman);
      (first + rest, t2)
  }

  datatype EncoderState = EncoderState(table: Table, pending: Option<nat>)

  function SizeUpdate(size: nat): Bytes {
    TagsFit();
    Tagged(EncodeInteger(size, 5), 0x20)
  }

  /** The table once a queued size update has been applied. */
  function Resized(e: EncoderState): Table {
    match e.pending case None => e.table case Some(size) => e.table.Resize(size)
  }

  function EncodeBlock(c: Coding, e: EncoderState, headers: seq<Field>, huffman: bool): (Bytes, EncoderState)
    requires Usable(c)
  {
    var head := match e.pending case None => [] case Some(size) => SizeUpdate(size);
    var (body, t) := EncodeFields(c, Resized(e), LowerNames(headers), huffman);
    (head + body, EncoderState(t, None))
  }

  // Decoding.

  datatype HpackError =
    | BadInteger(integer: IntegerError)
    | BadString(string: StringError)
    | IndexZero
    | IndexOutOfRange
    | SizeOverCeiling
    | LateSizeUpdate

  function Lookup(c: Coding, t: Table, index: nat): Result<Field, HpackError>
    requires Usable(c)
  {
    if index == 0 then Err(IndexZero)
    else if index <= StaticSize(c) then Ok(c.fixed[index])
    else if index - StaticSize(c) <= |t.entries| then Ok(t.entries[index - StaticSize(c) - 1])
    else Err(IndexOutOfRange)
  }

  function ReadInteger(data: Bytes, offset: nat, prefixBits: nat): (r: Result<(nat, nat), HpackError>)
    requires 1 <= prefixBits <= 8
    ensures r.Ok? ==> offset < r.value.1 <= |data|
  {
    match DecodeInteger(data, offset, prefixBits)
    case Err(e) => Err(BadInteger(e))
    case Ok(v) => Ok(v)
  }

  function ReadString(c: Coding, data: Bytes, offset: nat): (r: Result<(Bytes, nat), HpackError>)
    requires Usable(c)
    ensures r.Ok? ==> offset < r.value.1 <= |data|
  {
    match DecodeString(c.z, data, offset, 7)
    case Err(e) => Err(BadString(e))
    case Ok(v) => Ok(v)
  }

  /** The name of a literal: a table reference, or a string behind index 0. */
  function ReadName(c: Coding, t: Table, data: Bytes, offset: nat, prefixBits: nat): (r: Result<(Bytes, nat), HpackError>)
    requires Usable(c) && 1 <= prefixBits <= 8
    ensures r.Ok? ==> offset < r.value.1 <= |data|
  {
    var (index, next) :- ReadInteger(data, offset, prefixBits);
    if index == 0 then ReadString(c, data, next)
    else
      var f :- Lookup(c, t, index);
      Ok((f.name, next))
  }

  function DecodeLiteral(c: Coding, t: Table, data: Bytes, offset: nat, prefixBits: nat): (r: Result<(Field, nat), HpackError>)
    requires Usable(c) && 1 <= prefixBits <= 8
    ensures r.Ok? ==> offset < r.value.1 <= |data|
  {
    var (name, next) :- ReadName(c, t, data, offset, prefixBits);
    var (value, end) :- ReadString(c, data, next);
    Ok((Field(name, value), end))
  }

  /** What the decoder carries through a block. */
  datatype DecodeState = DecodeState(table: Table, saw: bool, headers: seq<Field>, listSize: nat) {
    /** Past the limit fields are counted, not kept. */
    function Keep(f: Field, limit: Option<nat>): DecodeState {
      match limit
      case None => DecodeState(table, true, headers + [f], listSize)
      case Some(max) =>
        var size := listSize + EntrySize(f);
        DecodeState(table, true, if size <= max then headers + [f] else headers, size)
    }
  }

  datatype Outcome =
    | Fields(headers: seq<Field>, table: Table)
    | ListTooLarge(size: nat, table: Table)
    | Failed(error: HpackError, table: Table)

  datatype Step = Go(state: DecodeState, next: nat) | Stop(error: HpackError)

  function DecodeIndexed(c: Coding, s: DecodeState, limit: Option<nat>, data: Bytes, offset: nat): (step: Step)
    requires Usable(c)
    ensures step.Go? ==> offset < step.next <= |data|
  {
    match ReadInteger(data, offset, 7)
    case Err(e) => Stop(e)
    case Ok((index, next)) =>
      match Lookup(c, s.table, index)
      case Err(e) => Stop(e)
      case Ok(f) => Go(s.Keep(f, limit), next)
  }

  function DecodeSizeUpdate(s: DecodeState, ceiling: nat, data: Bytes, offset: nat): (step: Step)
    ensures step.Go? ==> offset < step.next <= |data|
  {
    match ReadInteger(data, offset, 5)
    case Err(e) => Stop(e)
    case Ok((size, next)) =>
      if size > ceiling then Stop(SizeOverCeiling)
      else if s.saw then Stop(LateSizeUpdate)
      else Go(s.(table := s.table.Resize(size)), next)
  }

  /** One representation, told apart by the leading bits of its first octet. */
  function DecodeOne(c: Coding, s: DecodeState, ceiling: nat, limit: Option<nat>, data: Bytes, offset: nat): (step: Step)
    requires Usable(c) && offset < |data|
    ensures step.Go? ==> offset < step.next <= |data|
  {
    var byte := data[offset];
    if byte >= 0x80 then DecodeIndexed(c, s, limit, data, offset)
    else if byte >= 0x40 then
      match DecodeLiteral(c, s.table, data, offset, 6)
      case Err(e) => Stop(e)
      case Ok((f, next)) => Go(s.(table := s.table.Add(f)).Keep(f, limit), next)
    else if byte >= 0x20 then DecodeSizeUpdate(s, ceiling, data, offset)
    else
      match DecodeLiteral(c, s.table, data, offset, 4)
      case Err(e) => Stop(e)
      case Ok((f, next)) => Go(s.Keep(f, limit), next)
  }

  function FinishBlock(s: DecodeState, limit: Option<nat>): Outcome {
    match limit
    case None => Fields(s.headers, s.table)
    case Some(max) => if s.listSize > max then ListTooLarge(s.listSize, s.table) else Fields(s.headers, s.table)
  }

  function DecodeFrom(c: Coding, s: DecodeState, ceiling: nat, limit: Option<nat>, data: Bytes, offset: nat): Outcome
    requires Usable(c)
    decreases |data| - offset
  {
    if offset >= |data| then FinishBlock(s, limit)
    else
      match DecodeOne(c, s, ceiling, limit, data, offset)
      case Stop(e) => Failed(e, s.table)
      case Go(s', next) => DecodeFrom(c, s', ceiling, limit, data, next)
  }

  function DecodeBlock(c: Coding, t: Table, ceiling: nat, block: Bytes, limit: Option<nat>): Outcome
    requires Usable(c)
  {
    DecodeFrom(c, DecodeState(t, false, [], 0), ceiling, limit, block, 0)
  }

  // A list limit only hides fields.

  function ListSize(headers: seq<Field>): nat {
    SizeOf(headers)
  }

  /** The outcome under a limit, told from the outcome without one. */
  function Limited(unlimited: Outcome, max: nat): Outcome {
    match unlimited
    case Failed(_, _) => unlimited
    case ListTooLarge(_, _) => unlimited
    case Fields(headers, t) => if ListSize(headers) > max then ListTooLarge(ListSize(headers), t) else unlimited
  }

  /** `limited` is `free` with the fields past the limit only counted. */
  ghost predicate Shadows(free: DecodeState, limited: DecodeState, max: nat) {
    && limited.table == free.table && limited.saw == free.saw
    && limited.listSize == ListSize(free.headers)
    && (limited.listSize <= max ==> limited.headers == free.headers)
  }

  lemma {:induction false} KeepShadows(free: DecodeState, limited: DecodeState, f: Field, max: nat)
    requires Shadows(free, limited, max)
    ensures Shadows(free.Keep(f, None), limited.Keep(f, Some(max)), max)
  {
    assert (free.headers + [f])[..|free.headers|] == free.headers;
    SizeOfUnfolds(free.headers + [f]);
  }

  lemma {:induction false} LimitFrom(c: Coding, free: DecodeState, limited: DecodeState, ceiling: nat, max: nat,
                                     data: Bytes, offset: nat)
    requires Usable(c) && Shadows(free, limited, max)
    ensures DecodeFrom(c, limited, ceiling, Some(max), data, offset) ==
            Limited(DecodeFrom(c, free, ceiling, None, data, offset), max)
    decreases |data| - offset
  {
    if offset < |data| {
      LimitOne(c, free, limited, ceiling, max, data, offset);
      var a := DecodeOne(c, free, ceiling, None, data, offset);
      if a.Go? {
        var b := DecodeOne(c, limited, ceiling, Some(max), data, offset);
        LimitFrom(c, a.state, b.state, ceiling, max, data, a.next);
      }
    }
  }

  lemma {:induction false} LimitOne(c: Coding, free: DecodeState, limited: DecodeState, ceiling: nat, max: nat, data: Bytes, offset: nat)
    requires Usable(c) && Shadows(free, limited, max) && offset < |data|
    ensures var a := DecodeOne(c, free, ceiling, None, data, offset);
            var b := DecodeOne(c, limited, ceiling, Some(max), data, offset);
            match a
            case Stop(e) => b == a
            case Go(s, next) => b.Go? && b.next == next && Shadows(s, b.state, max)
  {
    forall f: Field, t: Table
      ensures Shadows(free.(table := t).Keep(f, None), limited.(table := t).Keep(f, Some(max)), max)
    {
      KeepShadows(free.(table := t), limited.(table := t), f, max);
    }
    assert free.(table := free.table) == free && limited.(table := limited.table) == limited;
  }

  /**
   * On every block, valid or not, a limited decode reads to the end and leaves the table an
   * unlimited one leaves; it reports the size exactly when the list is over the limit.
   */
  lemma {:induction false} LimitOnlyHidesFields(c: Coding, t: Table, ceiling: nat, block: Bytes, max: nat)
    requires Usable(c)
    ensures DecodeBlock(c, t, ceiling, block, Some(max)) ==
            Limited(DecodeBlock(c, t, ceiling, block, None), max)
  {
    var start := DecodeState(t, false, [], 0);
    LimitFrom(c, start, start, ceiling, max, block, 0);
  }
}
