/**
 * HPACK lockstep: over every run of size updates and header blocks the decoder returns the
 * encoder's fields and both dynamic tables are equal after every block.
 */
module HpackLockstep {
  import opened Wrappers
  import opened Octets
  import opened HpackInteger
  import opened StringLiteral
  import opened HpackTable
  import opened StaticTable
  import opened Hpack

  /** The largest table size these theorems speak about; a size update carries it. */
  const MAX_TABLE_SIZE: nat := 0x4_0000_0000

  /** The integer coding can carry the lengths of both strings. */
  predicate Representable(c: Coding, f: Field, huffman: bool) {
    |Payload(c.z, f.name, huffman)| < LENGTH_CEILING && |Payload(c.z, f.value, huffman)| < LENGTH_CEILING
  }

  predicate Sane(t: Table) {
    t.Within() && t.maxSize <= MAX_TABLE_SIZE
  }

  lemma {:induction false} IndexesAreSmall(c: Coding, t: Table)
    requires Usable(c) && Sane(t)
    ensures |t.entries| + StaticSize(c) < 0x8_0000_0000
  {
    SizeCountsEntries(t.entries);
  }

  lemma {:induction false} PatternsFit()
    ensures LowBits(0x80, 7) == 0 && LowBits(0x40, 6) == 0 && LowBits(0x20, 5) == 0 && LowBits(0x10, 4) == 0
  {
    assert LowBits(0x10, 2) == 0 by { ZeroBits(2); }
    assert LowBits(4, 2) == 0 && LowBits(0x10, 4) == 0;
    assert LowBits(0x20, 5) == 0;
    assert LowBits(0x40, 6) == 0;
    assert LowBits(0x80, 7) == 0;
  }

  // One representation at a time.

  lemma {:induction false} IndexedIsRead(c: Coding, s: DecodeState, ceiling: nat, limit: Option<nat>, data: Bytes, offset: nat,
                      index: nat, f: Field)
    requires Usable(c) && At(data, offset, Indexed(index))
    requires index < 0x8_0000_0000 && Lookup(c, s.table, index) == Ok(f)
    ensures offset < |data|
    ensures DecodeOne(c, s, ceiling, limit, data, offset) == Go(s.Keep(f, limit), offset + |Indexed(index)|)
  {
    PatternsFit();
    TagsFit();
    AtHead(data, offset, Indexed(index));
    IntegerRoundTrip(data, offset, index, 7, 0x80);
  }

  lemma {:induction false} SizeUpdateIsRead(c: Coding, s: DecodeState, ceiling: nat, limit: Option<nat>, data: Bytes, offset: nat, size: nat)
    requires Usable(c) && At(data, offset, SizeUpdate(size))
    requires size <= ceiling && size <= MAX_TABLE_SIZE && !s.saw
    ensures offset < |data|
    ensures DecodeOne(c, s, ceiling, limit, data, offset) ==
            Go(s.(table := s.table.Resize(size)), offset + |SizeUpdate(size)|)
  {
    PatternsFit();
    TagsFit();
    AtHead(data, offset, SizeUpdate(size));
    IntegerRoundTrip(data, offset, size, 5, 0x20);
  }

  /** A name index a literal may carry: it leads to an entry with the name. */
  predicate Names(c: Coding, t: Table, nameIndex: Option<nat>, f: Field)
    requires Usable(c)
  {
    nameIndex.Some? ==>
      0 < nameIndex.value < 0x8_0000_0000 &&
      Lookup(c, t, nameIndex.value).Ok? && Lookup(c, t, nameIndex.value).value.name == f.name
  }

  lemma {:induction false} HeadIsRead(data: Bytes, offset: nat, nameIndex: Option<nat>, r: Representation)
    requires At(data, offset, LiteralHead(nameIndex, r))
    requires nameIndex.Some? ==> nameIndex.value < 0x8_0000_0000
    ensures ReadInteger(data, offset, PrefixOf(r)) ==
            Ok((match nameIndex case None => 0 case Some(i) => i, offset + |LiteralHead(nameIndex, r)|))
  {
    PatternsFit();
    TagsFit();
    IntegerRoundTrip(data, offset, match nameIndex case None => 0 case Some(i) => i, PrefixOf(r), PatternOf(r));
  }

  lemma {:induction false} NameIsRead(c: Coding, t: Table, data: Bytes, offset: nat, nameIndex: Option<nat>, f: Field, huffman: bool,
                   r: Representation, next: nat)
    requires ValidCoding(c) && Names(c, t, nameIndex, f) && Representable(c, f, huffman)
    requires ReadInteger(data, offset, PrefixOf(r)) == Ok((match nameIndex case None => 0 case Some(i) => i, next))
    requires At(data, next, LiteralName(c, nameIndex, f, huffman))
    ensures ReadName(c, t, data, offset, PrefixOf(r)) == Ok((f.name, next + |LiteralName(c, nameIndex, f, huffman)|))
  {
    if nameIndex.None? {
      HpackStringRoundTrip(c.z, data, next, f.name, huffman);
    }
  }

  lemma {:induction false} LiteralPieces(c: Coding, data: Bytes, offset: nat, nameIndex: Option<nat>, f: Field, huffman: bool,
                      r: Representation)
    returns (name: nat, value: nat)
    requires Usable(c) && At(data, offset, Literal(c, nameIndex, f, huffman, r))
    ensures name == offset + |LiteralHead(nameIndex, r)| && value == name + |LiteralName(c, nameIndex, f, huffman)|
    ensures value + |HpackString(c.z, f.value, huffman)| == offset + |Literal(c, nameIndex, f, huffman, r)|
    ensures At(data, offset, LiteralHead(nameIndex, r)) && At(data, name, LiteralName(c, nameIndex, f, huffman))
    ensures At(data, value, HpackString(c.z, f.value, huffman))
  {
    var head, middle := LiteralHead(nameIndex, r), LiteralName(c, nameIndex, f, huffman);
    name, value := offset + |head|, offset + |head| + |middle|;
    AtSplit(data, offset, head + middle, HpackString(c.z, f.value, huffman));
    AtSplit(data, offset, head, middle);
  }

  lemma {:induction false} LiteralFromParts(c: Coding, t: Table, data: Bytes, offset: nat, prefixBits: nat, f: Field, value: nat, end: nat)
    requires Usable(c) && 1 <= prefixBits <= 8
    requires ReadName(c, t, data, offset, prefixBits) == Ok((f.name, value))
    requires ReadString(c, data, value) == Ok((f.value, end))
    ensures DecodeLiteral(c, t, data, offset, prefixBits) == Ok((f, end))
  {
  }

  lemma {:induction false} LiteralIsRead(c: Coding, t: Table, data: Bytes, offset: nat, nameIndex: Option<nat>, f: Field, huffman: bool,
                      r: Representation)
    requires ValidCoding(c) && Names(c, t, nameIndex, f) && Representable(c, f, huffman)
    requires At(data, offset, Literal(c, nameIndex, f, huffman, r))
    ensures At(data, offset, LiteralHead(nameIndex, r))
    ensures DecodeLiteral(c, t, data, offset, PrefixOf(r)) ==
            Ok((f, offset + |Literal(c, nameIndex, f, huffman, r)|))
  {
    var name, value := LiteralPieces(c, data, offset, nameIndex, f, huffman, r);
    HeadIsRead(data, offset, nameIndex, r);
    NameIsRead(c, t, data, offset, nameIndex, f, huffman, r, name);
    ValueIsRead(c, data, value, f, huffman);
    LiteralFromParts(c, t, data, offset, PrefixOf(r), f, value, offset + |Literal(c, nameIndex, f, huffman, r)|);
  }

  lemma {:induction false} ValueIsRead(c: Coding, data: Bytes, offset: nat, f: Field, huffman: bool)
    requires ValidCoding(c) && Representable(c, f, huffman) && At(data, offset, HpackString(c.z, f.value, huffman))
    ensures ReadString(c, data, offset) == Ok((f.value, offset + |HpackString(c.z, f.value, huffman)|))
  {
    HpackStringRoundTrip(c.z, data, offset, f.value, huffman);
  }

  lemma {:induction false} LiteralStep(c: Coding, s: DecodeState, ceiling: nat, limit: Option<nat>, data: Bytes, offset: nat,
                    nameIndex: Option<nat>, f: Field, huffman: bool, r: Representation)
    requires ValidCoding(c) && Names(c, s.table, nameIndex, f) && Representable(c, f, huffman)
    requires At(data, offset, Literal(c, nameIndex, f, huffman, r))
    ensures offset < |data|
    ensures var t := if r.WithIndexing? then s.table.Add(f) else s.table;
            DecodeOne(c, s, ceiling, limit, data, offset) ==
            Go(s.(table := t).Keep(f, limit), offset + |Literal(c, nameIndex, f, huffman, r)|)
  {
    LiteralIsRead(c, s.table, data, offset, nameIndex, f, huffman, r);
    AtHead(data, offset, LiteralHead(nameIndex, r));
    assert s.(table := s.table) == s;
  }

  lemma {:induction false} NameIndexNames(c: Coding, t: Table, f: Field)
    requires Usable(c) && Sane(t)
    ensures Names(c, t, NameIndex(c, t, f), f)
  {
    IndexesAreSmall(c, t);
  }

  /** The decoder takes `bytes` at `offset` for `f` and goes on with the table `t`. */
  ghost predicate TakenFor(c: Coding, s: DecodeState, ceiling: nat, limit: Option<nat>, data: Bytes, offset: nat,
                           f: Field, bytes: Bytes, t: Table)
    requires Usable(c)
  {
    offset < |data| && Sane(t) &&
    DecodeOne(c, s, ceiling, limit, data, offset) == Go(s.(table := t).Keep(f, limit), offset + |bytes|)
  }

  lemma {:induction false} IndexedField(c: Coding, s: DecodeState, ceiling: nat, limit: Option<nat>, data: Bytes, offset: nat,
                     f: Field, index: nat)
    requires Usable(c) && Sane(s.table) && At(data, offset, Indexed(index))
    requires index < 0x8_0000_0000 && Lookup(c, s.table, index) == Ok(f)
    ensures TakenFor(c, s, ceiling, limit, data, offset, f, Indexed(index), s.table)
  {
    IndexedIsRead(c, s, ceiling, limit, data, offset, index, f);
    assert s.(table := s.table) == s;
  }

  lemma {:induction false} LiteralField(c: Coding, s: DecodeState, ceiling: nat, limit: Option<nat>, data: Bytes, offset: nat,
                     f: Field, huffman: bool, r: Representation)
    requires ValidCoding(c) && Sane(s.table) && Representable(c, f, huffman)
    requires At(data, offset, Literal(c, NameIndex(c, s.table, f), f, huffman, r))
    ensures TakenFor(c, s, ceiling, limit, data, offset, f, Literal(c, NameIndex(c, s.table, f), f, huffman, r),
                     if r.WithIndexing? then s.table.Add(f) else s.table)
  {
    NameIndexNames(c, s.table, f);
    LiteralStep(c, s, ceiling, limit, data, offset, NameIndex(c, s.table, f), f, huffman, r);
  }

  lemma {:induction false} FieldIsRead(c: Coding, s: DecodeState, ceiling: nat, limit: Option<nat>, data: Bytes, offset: nat,
                    f: Field, huffman: bool)
    requires ValidCoding(c) && Sane(s.table) && Representable(c, f, huffman)
    requires At(data, offset, EncodeField(c, s.table, f, huffman).0)
    ensures TakenFor(c, s, ceiling, limit, data, offset, f,
                     EncodeField(c, s.table, f, huffman).0, EncodeField(c, s.table, f, huffman).1)
  {
    IndexesAreSmall(c, s.table);
    if StaticExact(c, f).Some? {
      IndexedField(c, s, ceiling, limit, data, offset, f, StaticExact(c, f).value);
    } else if Find(s.table.entries, f).Exact? {
      IndexedField(c, s, ceiling, limit, data, offset, f, Find(s.table.entries, f).position + StaticSize(c));
    } else if NeverIndex(f.name) {
      LiteralField(c, s, ceiling, limit, data, offset, f, huffman, NeverIndexed);
    } else {
      LiteralField(c, s, ceiling, limit, data, offset, f, huffman, WithIndexing);
    }
  }

  // Blocks.

  /** The decoder's state once `headers` have been kept one after the other. */
  function KeepAll(s: DecodeState, headers: seq<Field>, limit: Option<nat>): DecodeState
    decreases |headers|
  {
    if |headers| == 0 then s else KeepAll(s.Keep(headers[0], limit), headers[1..], limit)
  }

  lemma {:induction false} DecodeFromStep(c: Coding, s: DecodeState, ceiling: nat, limit: Option<nat>, data: Bytes, offset: nat,
                       f: Field, bytes: Bytes, t: Table)
    requires Usable(c) && TakenFor(c, s, ceiling, limit, data, offset, f, bytes, t)
    ensures offset + |bytes| <= |data|
    ensures DecodeFrom(c, s, ceiling, limit, data, offset) ==
            DecodeFrom(c, s.(table := t).Keep(f, limit), ceiling, limit, data, offset + |bytes|)
  {
  }

  lemma {:induction false} FirstFieldStands(c: Coding, t: Table, data: Bytes, offset: nat, headers: seq<Field>, huffman: bool)
    requires Usable(c) && |headers| > 0
    requires At(data, offset, EncodeFields(c, t, headers, huffman).0)
    ensures var (first, t1) := EncodeField(c, t, headers[0], huffman);
            var (rest, t2) := EncodeFields(c, t1, headers[1..], huffman);
            EncodeFields(c, t, headers, huffman).1 == t2 &&
            |EncodeFields(c, t, headers, huffman).0| == |first| + |rest| &&
            At(data, offset, first) && At(data, offset + |first|, rest) && offset + |first| <= |data|
  {
    var (first, t1) := EncodeField(c, t, headers[0], huffman);
    AtSplit(data, offset, first, EncodeFields(c, t1, headers[1..], huffman).0);
  }

  /** The outcome of a block: all fields kept, and the table that goes with them. */
  function Whole(s: DecodeState, headers: seq<Field>, limit: Option<nat>, t: Table): Outcome {
    FinishBlock(KeepAll(s, headers, limit).(table := t), limit)
  }

  lemma {:induction false} WholeStep(s: DecodeState, headers: seq<Field>, limit: Option<nat>, t1: Table, t2: Table)
    requires |headers| > 0
    ensures Whole(s.(table := t1).Keep(headers[0], limit), headers[1..], limit, t2) == Whole(s, headers, limit, t2)
  {
    var kept := s.Keep(headers[0], limit);
    assert s.(table := t1).Keep(headers[0], limit) == kept.(table := t1);
    TableAside(kept, headers[1..], limit, t1);
  }

  ghost predicate AllRepresentable(c: Coding, headers: seq<Field>, huffman: bool) {
    forall i :: 0 <= i < |headers| ==> Representable(c, headers[i], huffman)
  }

  lemma {:induction false} FieldsAreRead(c: Coding, s: DecodeState, ceiling: nat, limit: Option<nat>, data: Bytes,
                                         offset: nat, headers: seq<Field>, huffman: bool)
    requires ValidCoding(c) && Sane(s.table) && AllRepresentable(c, headers, huffman)
    requires At(data, offset, EncodeFields(c, s.table, headers, huffman).0)
    requires offset + |EncodeFields(c, s.table, headers, huffman).0| == |data|
    ensures Sane(EncodeFields(c, s.table, headers, huffman).1)
    ensures DecodeFrom(c, s, ceiling, limit, data, offset) ==
            Whole(s, headers, limit, EncodeFields(c, s.table, headers, huffman).1)
    decreases |headers|
  {
    if |headers| == 0 {
      assert KeepAll(s, headers, limit).(table := s.table) == s;
    } else {
      FirstFieldStands(c, s.table, data, offset, headers, huffman);
      var (first, t1) := EncodeField(c, s.table, headers[0], huffman);
      FieldIsRead(c, s, ceiling, limit, data, offset, headers[0], huffman);
      DecodeFromStep(c, s, ceiling, limit, data, offset, headers[0], first, t1);
      FieldsAreRead(c, s.(table := t1).Keep(headers[0], limit), ceiling, limit, data, offset + |first|,
                    headers[1..], huffman);
      WholeStep(s, headers, limit, t1, EncodeFields(c, s.table, headers, huffman).1);
    }
  }

  lemma {:induction false} TableAside(s: DecodeState, headers: seq<Field>, limit: Option<nat>, t: Table)
    ensures KeepAll(s.(table := t), headers, limit) == KeepAll(s, headers, limit).(table := t)
    decreases |headers|
  {
    if |headers| > 0 {
      assert s.(table := t).Keep(headers[0], limit) == s.Keep(headers[0], limit).(table := t);
      TableAside(s.Keep(headers[0], limit), headers[1..], limit, t);
    }
  }

  lemma {:induction false} KeepAllUnlimited(s: DecodeState, headers: seq<Field>)
    ensures KeepAll(s, headers, None).headers == s.headers + headers
    decreases |headers|
  {
    if |headers| > 0 {
      KeepAllUnlimited(s.Keep(headers[0], None), headers[1..]);
      assert s.headers + headers == (s.headers + [headers[0]]) + headers[1..];
    }
  }

  /** The events of a run, as the program's callers cause them. */
  datatype Event =
    | QueueSize(size: nat)
    | SendBlock(headers: seq<Field>, huffman: bool, limit: Option<nat>)

  ghost predicate Acceptable(c: Coding, ceiling: nat, event: Event)
    requires Usable(c)
  {
    match event
    case QueueSize(size) => size <= ceiling && size <= MAX_TABLE_SIZE
    case SendBlock(headers, huffman, _) => AllRepresentable(c, LowerNames(headers), huffman)
  }

  /** What the decoder has to answer to a block. */
  function Expected(headers: seq<Field>, limit: Option<nat>, t: Table): Outcome {
    match limit
    case None => Fields(LowerNames(headers), t)
    case Some(max) => Limited(Fields(LowerNames(headers), t), max)
  }

  lemma {:induction false} BlockRoundTrip(c: Coding, e: EncoderState, ceiling: nat, headers: seq<Field>, huffman: bool, limit: Option<nat>)
    requires ValidCoding(c) && Sane(e.table)
    requires e.pending.Some? ==> e.pending.value <= ceiling && e.pending.value <= MAX_TABLE_SIZE
    requires Acceptable(c, ceiling, SendBlock(headers, huffman, limit))
    ensures var (block, e') := EncodeBlock(c, e, headers, huffman);
            Sane(e'.table) &&
            DecodeBlock(c, e.table, ceiling, block, limit) == Expected(headers, limit, e'.table)
  {
    var (block, e') := EncodeBlock(c, e, headers, huffman);
    UnlimitedRoundTrip(c, e, ceiling, headers, huffman);
    if limit.Some? {
      LimitOnlyHidesFields(c, e.table, ceiling, block, limit.value);
    }
  }

  lemma {:induction false} UnlimitedRoundTrip(c: Coding, e: EncoderState, ceiling: nat, headers: seq<Field>, huffman: bool)
    requires ValidCoding(c) && Sane(e.table)
    requires e.pending.Some? ==> e.pending.value <= ceiling && e.pending.value <= MAX_TABLE_SIZE
    requires AllRepresentable(c, LowerNames(headers), huffman)
    ensures var (block, e') := EncodeBlock(c, e, headers, huffman);
            Sane(e'.table) &&
            DecodeBlock(c, e.table, ceiling, block, None) == Fields(LowerNames(headers), e'.table)
  {
    var block := EncodeBlock(c, e, headers, huffman).0;
    var start := HeadOfBlockIsRead(c, e, ceiling, headers, huffman);
    FieldsAreRead(c, DecodeState(Resized(e), false, [], 0), ceiling, None, block, start, LowerNames(headers), huffman);
    KeepAllUnlimited(DecodeState(Resized(e), false, [], 0), LowerNames(headers));
  }

  /** A queued size update is read first and resizes the decoder's table. */
  lemma {:induction false} HeadOfBlockIsRead(c: Coding, e: EncoderState, ceiling: nat, headers: seq<Field>, huffman: bool)
    returns (start: nat)
    requires Usable(c)
    requires e.pending.Some? ==> e.pending.value <= ceiling && e.pending.value <= MAX_TABLE_SIZE
    ensures var block := EncodeBlock(c, e, headers, huffman).0;
            var body := EncodeFields(c, Resized(e), LowerNames(headers), huffman).0;
            At(block, start, body) && start + |body| == |block| &&
            DecodeBlock(c, e.table, ceiling, block, None) ==
            DecodeFrom(c, DecodeState(Resized(e), false, [], 0), ceiling, None, block, start)
  {
    var block := EncodeBlock(c, e, headers, huffman).0;
    var body := EncodeFields(c, Resized(e), LowerNames(headers), huffman).0;
    AtStart(block);
    if e.pending.None? {
      start := 0;
      assert block == body;
    } else {
      var head := SizeUpdate(e.pending.value);
      start := |head|;
      assert block == head + body;
      AtSplit(block, 0, head, body);
      SizeUpdateIsRead(c, DecodeState(e.table, false, [], 0), ceiling, None, block, 0, e.pending.value);
    }
  }

  // Runs.

  /** What a run leaves: both ends, and the decoder's answer to every block. */
  datatype World = World(encoder: EncoderState, decoder: Table, answers: seq<Outcome>)

  function TableOf(o: Outcome): Table {
    o.table
  }

  function HpackStep(c: Coding, ceiling: nat, w: World, event: Event): World
    requires Usable(c)
  {
    match event
    case QueueSize(size) => w.(encoder := w.encoder.(pending := Some(size)))
    case SendBlock(headers, huffman, limit) =>
      var (block, e) := EncodeBlock(c, w.encoder, headers, huffman);
      var answer := DecodeBlock(c, w.decoder, ceiling, block, limit);
      World(e, TableOf(answer), w.answers + [answer])
  }

  function HpackRun(c: Coding, ceiling: nat, w: World, events: seq<Event>): World
    requires Usable(c)
    decreases |events|
  {
    if |events| == 0 then w else HpackRun(c, ceiling, HpackStep(c, ceiling, w, events[0]), events[1..])
  }

  /** The answers a run must give: the lower-cased fields of every block, in order. */
  ghost predicate Answers(events: seq<Event>, answers: seq<Outcome>)
    decreases |events|
  {
    if |events| == 0 then answers == []
    else
      match events[0]
      case QueueSize(_) => Answers(events[1..], answers)
      case SendBlock(headers, _, limit) =>
        |answers| > 0 && answers[0] == Expected(headers, limit, answers[0].table) && Answers(events[1..], answers[1..])
  }

  ghost predicate InStep(w: World, ceiling: nat) {
    && w.decoder == w.encoder.table && Sane(w.decoder)
    && (w.encoder.pending.Some? ==> w.encoder.pending.value <= ceiling && w.encoder.pending.value <= MAX_TABLE_SIZE)
  }

  /** Lockstep over whole runs. */
  lemma {:induction false} Lockstep(c: Coding, ceiling: nat, w: World, events: seq<Event>)
    requires ValidCoding(c) && InStep(w, ceiling)
    requires forall i :: 0 <= i < |events| ==> Acceptable(c, ceiling, events[i])
    ensures var w' := HpackRun(c, ceiling, w, events);
            InStep(w', ceiling) && w.answers <= w'.answers &&
            Answers(events, w'.answers[|w.answers|..])
    decreases |events|
  {
    if |events| > 0 {
      var w1 := HpackStep(c, ceiling, w, events[0]);
      var rest := events[1..];
      if events[0].SendBlock? {
        BlockRoundTrip(c, w.encoder, ceiling, events[0].headers, events[0].huffman, events[0].limit);
      }
      Lockstep(c, ceiling, w1, rest);
      var answers := HpackRun(c, ceiling, w1, rest).answers;
      if events[0].SendBlock? {
        assert answers[|w.answers|] == w1.answers[|w.answers|];
        assert answers[|w.answers|..][1..] == answers[|w1.answers|..];
      }
    }
  }
}
