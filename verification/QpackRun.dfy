/**
 * Runs of a QPACK encoder and a decoder: the encoder stream keeps the decoder's table in step,
 * and every section read in step is answered as QpackRoundTrip says.
 */
module QpackRun {
  import opened Wrappers
  import opened Octets
  import opened StringLiteral
  import opened HpackTable
  import opened StaticTable
  import opened QpackTable
  import opened Qpack
  import opened QpackRoundTrip
  import Hpack

  /** What the encoder puts on its stream: within the integer coding, names from the table or lowered. */
  predicate Sendable(c: Coding, ins: Instruction) {
    match ins
    case SetCapacity(n) => n < BOUND
    case InsertStatic(i, value) => i < |c.fixed| && Carried(c, value, true)
    case InsertLiteral(name, value) => Carried(c, name, true) && Carried(c, value, true)
  }

  ghost predicate AllSendable(c: Coding, all: seq<Instruction>) {
    forall i :: 0 <= i < |all| ==> Sendable(c, all[i])
  }

  function InsertCount(ins: Instruction): nat {
    if ins.SetCapacity? then 0 else 1
  }

  function InsertCounts(all: seq<Instruction>): nat
    decreases |all|
  {
    if |all| == 0 then 0 else InsertCount(all[0]) + InsertCounts(all[1..])
  }

  lemma {:induction false} CapacityIsRead(c: Coding, t: Numbered, data: Bytes, offset: nat, n: nat)
    requires t.Sound() && n < BOUND && At(data, offset, Spelled(c, SetCapacity(n)))
    ensures offset < |data|
    ensures ReadInstruction(c, t, data, offset) == Go(t.Resize(n), 0, offset + |Spelled(c, SetCapacity(n))|)
  {
    PatternsFit();
    SpelledUnfolds(c, SetCapacity(n));
    HeadIsRead(data, offset, n, 5, 0x20);
    ReadInstructionUnfolds(c, t, data, offset);
  }

  /** An index with the static bit, then the value. */
  lemma {:induction false} InsertHeadIsRead(c: Coding, data: Bytes, offset: nat, index: nat, value: Bytes)
    requires ValidCoding(c) && StringPattern(0, 7) && 0xC0 + Pow2(6) <= 256 && index < BOUND && Carried(c, value, true)
    requires At(data, offset, Head(index, 6, 0xC0) + EncodeString(c.z, value, 7, 0, true))
    ensures var next := offset + |Head(index, 6, 0xC0)|;
            offset < |data| && data[offset] >= 0xC0 &&
            ReadInteger(data, offset, 6) == Ok((index, next)) &&
            ReadString(c, data, next, 7) == Ok((value, next + |EncodeString(c.z, value, 7, 0, true)|))
  {
    AtSplit(data, offset, Head(index, 6, 0xC0), EncodeString(c.z, value, 7, 0, true));
    IndexHeadIsRead(data, offset, index, 0xC0);
    StringIsRead(c, data, offset + |Head(index, 6, 0xC0)|, value, 7, 0, true);
  }

  lemma {:induction false} NameReferenceIsRead(c: Coding, t: Numbered, data: Bytes, offset: nat, index: nat, value: Bytes)
    requires ValidCoding(c) && t.Sound() && index < |c.fixed| && Carried(c, value, true)
    requires At(data, offset, Spelled(c, InsertStatic(index, value)))
    ensures offset < |data|
    ensures ReadInstruction(c, t, data, offset) ==
            Go(t.Add(Field(c.fixed[index].name, value)), 1, offset + |Spelled(c, InsertStatic(index, value))|)
  {
    PatternsFit();
    SpelledUnfolds(c, InsertStatic(index, value));
    InsertHeadIsRead(c, data, offset, index, value);
    ReadInstructionUnfolds(c, t, data, offset);
  }

  lemma {:induction false} LiteralInsertIsRead(c: Coding, t: Numbered, data: Bytes, offset: nat, name: Bytes, value: Bytes)
    requires ValidCoding(c) && t.Sound() && Carried(c, name, true) && Carried(c, value, true)
    requires At(data, offset, Spelled(c, InsertLiteral(name, value)))
    ensures offset < |data|
    ensures ReadInstruction(c, t, data, offset) ==
            Go(t.Add(Field(Lower(name), value)), 1, offset + |Spelled(c, InsertLiteral(name, value))|)
  {
    PatternsFit();
    SpelledUnfolds(c, InsertLiteral(name, value));
    TwoStringsAreRead(c, data, offset, name, value, 5, 0x40, true);
    ReadInstructionUnfolds(c, t, data, offset);
  }

  lemma {:induction false} InstructionIsRead(c: Coding, t: Numbered, data: Bytes, offset: nat, ins: Instruction)
    requires ValidCoding(c) && t.Sound() && Sendable(c, ins) && At(data, offset, Spelled(c, ins))
    ensures offset < |data|
    ensures ReadInstruction(c, t, data, offset) == Go(Apply(c, t, ins), InsertCount(ins), offset + |Spelled(c, ins)|)
  {
    match ins
    case SetCapacity(n) => CapacityIsRead(c, t, data, offset, n);
    case InsertStatic(i, value) => NameReferenceIsRead(c, t, data, offset, i, value);
    case InsertLiteral(name, value) => LiteralInsertIsRead(c, t, data, offset, name, value);
  }

  lemma {:induction false} FirstInstructionStands(c: Coding, data: Bytes, offset: nat, all: seq<Instruction>)
    requires |all| > 0 && At(data, offset, StreamBytes(c, all))
    ensures var first, rest := Spelled(c, all[0]), StreamBytes(c, all[1..]);
            At(data, offset, first) && At(data, offset + |first|, rest) && |StreamBytes(c, all)| == |first| + |rest|
  {
    AtSplit(data, offset, Spelled(c, all[0]), StreamBytes(c, all[1..]));
  }

  /** The first instruction of a stream is applied, and reading goes on behind it. */
  lemma {:induction false} FirstInstructionIsRead(c: Coding, t: Numbered, data: Bytes, offset: nat, all: seq<Instruction>, applied: nat)
    requires ValidCoding(c) && t.Sound() && |all| > 0 && Sendable(c, all[0]) && At(data, offset, StreamBytes(c, all))
    ensures ReadStream(c, t, data, offset, applied) ==
            ReadStream(c, Apply(c, t, all[0]), data, offset + |Spelled(c, all[0])|, applied + InsertCount(all[0]))
  {
    FirstInstructionStands(c, data, offset, all);
    InstructionIsRead(c, t, data, offset, all[0]);
    ReadStreamUnfolds(c, t, data, offset, applied);
  }

  lemma {:induction false} RestIsSendable(c: Coding, all: seq<Instruction>)
    requires |all| > 0 && AllSendable(c, all)
    ensures Sendable(c, all[0]) && AllSendable(c, all[1..])
  {
  }

  /** A decoder that reads the stream of an encoder ends with the table its instructions make. */
  lemma {:induction false} StreamIsRead(c: Coding, t: Numbered, data: Bytes, offset: nat, all: seq<Instruction>, applied: nat)
    requires ValidCoding(c) && t.Sound() && AllSendable(c, all)
    requires At(data, offset, StreamBytes(c, all)) && offset + |StreamBytes(c, all)| == |data|
    ensures ReadStream(c, t, data, offset, applied) == Replayed(ApplyAll(c, t, all), applied + InsertCounts(all))
    decreases |all|
  {
    if |all| == 0 {
      ReadStreamUnfolds(c, t, data, offset, applied);
    } else {
      RestIsSendable(c, all);
      FirstInstructionStands(c, data, offset, all);
      FirstInstructionIsRead(c, t, data, offset, all, applied);
      StreamIsRead(c, Apply(c, t, all[0]), data, offset + |Spelled(c, all[0])|, all[1..], applied + InsertCount(all[0]));
    }
  }

  lemma {:induction false} ApplySnoc(c: Coding, t: Numbered, all: seq<Instruction>, ins: Instruction)
    requires t.Sound()
    ensures ApplyAll(c, t, all + [ins]) == Apply(c, ApplyAll(c, t, all), ins)
    decreases |all|
  {
    if |all| == 0 {
      assert all + [ins] == [ins] && [ins][1..] == [];
    } else {
      ApplySnoc(c, Apply(c, t, all[0]), all[1..], ins);
      assert (all + [ins])[1..] == all[1..] + [ins];
    }
  }

  // The encoder's instructions rebuild its table.

  /** Reading what is pending turns `d` into the encoder's table. */
  ghost predicate InStep(c: Coding, d: Numbered, e: EncoderState) {
    && d.Sound() && Ready(e) && e.table.capacity < BOUND && AllSendable(c, e.pending)
    && ApplyAll(c, d, e.pending) == e.table
  }

  lemma {:induction false} PlanOneInStep(c: Coding, d: Numbered, e: EncoderState, f: Field)
    requires Usable(c) && InStep(c, d, e) && Lowered(f) && Carried(c, f.name, true) && Carried(c, f.value, true)
    ensures InStep(c, d, PlanOne(c, e, f).1)
  {
    PlanOneStands(c, e, f);
    ApplySnoc(c, d, e.pending, InsertionOf(c, f));
  }

  lemma {:induction false} PlanAllInStep(c: Coding, d: Numbered, e: EncoderState, fields: seq<Field>)
    requires Usable(c) && InStep(c, d, e) && AllLowered(fields) && AllCarried(c, fields, true)
    ensures InStep(c, d, PlanAll(c, e, fields).1)
    decreases |fields|
  {
    if |fields| > 0 {
      assert Lowered(fields[0]);
      PlanOneInStep(c, d, e, fields[0]);
      PlanAllInStep(c, d, PlanOne(c, e, fields[0]).1, fields[1..]);
    }
  }

  // Runs.

  /** `Skip` encodes a section the decoder never sees; `Exchange` one it reads after the stream. */
  datatype Event =
    | Capacity(size: nat)
    | Skip(headers: seq<Field>, huffman: bool)
    | Exchange(headers: seq<Field>, huffman: bool)

  datatype World = World(encoder: EncoderState, decoder: Numbered, answers: seq<Result<seq<Field>, QpackError>>)

  function Resized(e: EncoderState, size: nat): EncoderState
    requires e.table.Sound()
  {
    EncoderState(e.table.Resize(size), e.pending + [SetCapacity(size)])
  }

  predicate Sound(w: World) {
    w.encoder.table.Sound() && w.decoder.Sound()
  }

  function Next(c: Coding, w: World, event: Event): (w': World)
    requires Sound(w)
    ensures Sound(w')
  {
    match event
    case Capacity(size) => w.(encoder := Resized(w.encoder, size))
    case Skip(headers, huffman) => w.(encoder := EncodeSection(c, w.encoder, headers, huffman).1)
    case Exchange(headers, huffman) =>
      var (section, e) := EncodeSection(c, w.encoder, headers, huffman);
      var decoder := ReadStream(c, w.decoder, StreamBytes(c, e.pending), 0, 0).table;
      World(EncoderState(e.table, []), decoder, w.answers + [DecodeSection(c, Some(decoder), section)])
  }

  ghost predicate Acceptable(c: Coding, w: World, event: Event)
    requires w.encoder.table.Sound()
  {
    match event
    case Capacity(size) => size < BOUND
    case Skip(headers, huffman) => Fits(c, w.encoder, headers, huffman)
    case Exchange(headers, huffman) => Fits(c, w.encoder, headers, huffman)
  }

  /** The strings of the headers and the numbers of the table are within the integer coding. */
  ghost predicate Fits(c: Coding, e: EncoderState, headers: seq<Field>, huffman: bool)
    requires e.table.Sound()
  {
    var fields := Hpack.LowerNames(headers);
    AllCarried(c, fields, huffman) && AllCarried(c, fields, true) && PlanAll(c, e, fields).1.table.count < BOUND
  }

  /** Section 4.5.1: what may go wrong with a section although the tables are in step. */
  ghost predicate ComesBack(c: Coding, e: EncoderState, headers: seq<Field>)
    requires e.table.Sound()
  {
    var (lines, e') := PlanAll(c, e, Hpack.LowerNames(headers));
    var required := Required(lines);
    required == 0 || (AllHeld(e'.table, lines) && (required == e'.table.count || !SignMisread(WireCount(e'.table, required))))
  }

  lemma {:induction false} ResizeInStep(c: Coding, d: Numbered, e: EncoderState, size: nat)
    requires InStep(c, d, e) && size < BOUND
    ensures InStep(c, d, Resized(e, size))
  {
    ApplySnoc(c, d, e.pending, SetCapacity(size));
    ResizeNumbers(e.table, size);
    var t, t' := e.table, e.table.Resize(size);
    forall a, b | t'.Holds(a) && t'.Holds(b) && t'.Get(a) == t'.Get(b)
      ensures a == b
    {
      assert t.Holds(a) && t.Holds(b) && t.Get(a) == t.Get(b);
    }
  }

  /**
   * After every event reading the stream gives the decoder the encoder's table, and an exchanged
   * section gives back its lower-cased fields exactly when it comes back at all.
   */
  lemma {:induction false} NextInStep(c: Coding, w: World, event: Event)
    requires ValidCoding(c) && InStep(c, w.decoder, w.encoder) && Acceptable(c, w, event)
    ensures var w' := Next(c, w, event);
            InStep(c, w'.decoder, w'.encoder) &&
            (event.Exchange? ==>
               w'.decoder == w'.encoder.table && |w'.answers| == |w.answers| + 1 && w'.answers[..|w.answers|] == w.answers &&
               (w'.answers[|w.answers|] == Ok(Hpack.LowerNames(event.headers)) <==> ComesBack(c, w.encoder, event.headers)))
  {
    match event
    case Capacity(size) => ResizeInStep(c, w.decoder, w.encoder, size);
    case Skip(headers, _) =>
      LoweredNames(headers);
      PlanAllInStep(c, w.decoder, w.encoder, Hpack.LowerNames(headers));
    case Exchange(headers, huffman) => ExchangeInStep(c, w, headers, huffman);
  }

  lemma {:induction false} ExchangeInStep(c: Coding, w: World, headers: seq<Field>, huffman: bool)
    requires ValidCoding(c) && InStep(c, w.decoder, w.encoder) && Fits(c, w.encoder, headers, huffman)
    ensures var w', e := Next(c, w, Exchange(headers, huffman)), EncodeSection(c, w.encoder, headers, huffman).1;
            InStep(c, w'.decoder, w'.encoder) && w'.encoder == EncoderState(e.table, []) && w'.decoder == e.table &&
            |w'.answers| == |w.answers| + 1 && w'.answers[..|w.answers|] == w.answers &&
            (w'.answers[|w.answers|] == Ok(Hpack.LowerNames(headers)) <==> ComesBack(c, w.encoder, headers))
  {
    var fields := Hpack.LowerNames(headers);
    var e := PlanAll(c, w.encoder, fields).1;
    LoweredNames(headers);
    PlanAllInStep(c, w.decoder, w.encoder, fields);
    AtStart(StreamBytes(c, e.pending));
    StreamIsRead(c, w.decoder, StreamBytes(c, e.pending), 0, e.pending, 0);
    SectionComesBackExactly(c, w.encoder, headers, huffman);
  }

  function Run(c: Coding, w: World, events: seq<Event>): (w': World)
    requires Sound(w)
    ensures Sound(w')
    decreases |events|
  {
    if |events| == 0 then w else Run(c, Next(c, w, events[0]), events[1..])
  }

  ghost predicate RunsWithin(c: Coding, w: World, events: seq<Event>)
    requires Sound(w)
    decreases |events|
  {
    |events| > 0 ==> Acceptable(c, w, events[0]) && RunsWithin(c, Next(c, w, events[0]), events[1..])
  }

  /** The answers a run must give, one for each exchange, in order. */
  ghost predicate Answered(c: Coding, w: World, events: seq<Event>, answers: seq<Result<seq<Field>, QpackError>>)
    requires Sound(w)
    decreases |events|
  {
    if |events| == 0 then answers == []
    else
      var w' := Next(c, w, events[0]);
      if events[0].Exchange? then
        |answers| > 0 &&
        (answers[0] == Ok(Hpack.LowerNames(events[0].headers)) <==> ComesBack(c, w.encoder, events[0].headers)) &&
        Answered(c, w', events[1..], answers[1..])
      else Answered(c, w', events[1..], answers)
  }

  /** QPACK over whole runs. */
  lemma {:induction false} RunInStep(c: Coding, w: World, events: seq<Event>)
    requires ValidCoding(c) && InStep(c, w.decoder, w.encoder) && RunsWithin(c, w, events)
    ensures var w' := Run(c, w, events);
            InStep(c, w'.decoder, w'.encoder) && w.answers <= w'.answers &&
            Answered(c, w, events, w'.answers[|w.answers|..])
    decreases |events|
  {
    if |events| > 0 {
      var w1 := Next(c, w, events[0]);
      NextInStep(c, w, events[0]);
      RunInStep(c, w1, events[1..]);
      var answers := Run(c, w1, events[1..]).answers;
      if events[0].Exchange? {
        assert answers[|w.answers|] == w1.answers[|w.answers|];
        assert answers[|w.answers|..][1..] == answers[|w1.answers|..];
      }
    }
  }

  /** A new encoder has told its peer its capacity, or nothing at all. */
  function NewEncoder(capacity: nat): EncoderState {
    EncoderState(Numbered([], capacity, 0), if capacity > 0 then [SetCapacity(capacity)] else [])
  }

  lemma {:induction false} NewPeersAreInStep(c: Coding, capacity: nat)
    requires capacity < BOUND
    ensures InStep(c, Numbered([], 0, 0), NewEncoder(capacity))
  {
    SizeOfUnfolds([]);
    var d, e := Numbered([], 0, 0), NewEncoder(capacity);
    FitFrontUnfolds([], capacity);
    if capacity > 0 {
      ApplySnoc(c, d, [], SetCapacity(capacity));
      assert [] + [SetCapacity(capacity)] == e.pending;
    }
    assert ApplyAll(c, d, e.pending) == e.table;
  }
}
