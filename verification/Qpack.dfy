/**
 * QPACK, RFC 9204: table updates travel on a stream of their own, field sections refer to the
 * table by number, and each section says how many insertions it needs.
 */
module Qpack {
  import opened Wrappers
  import opened Octets
  import opened HpackInteger
  import opened StringLiteral
  import opened HpackTable
  import opened StaticTable
  import opened QpackTable
  import Hpack

  datatype QpackError =
    | BadInteger(integer: IntegerError)
    | BadString(string: StringError)
    | StaticIndexOutOfRange
    | NoLongerHeld
    | NoTable
    | NoCapacity
    | CountOutOfRange
    | RequiresEntries
    | PostBaseIndexing
    | UnknownPattern

  lemma {:induction false} PatternsFit()
    ensures StringPattern(0, 7) && StringPattern(0x40, 5) && StringPattern(0x20, 3) && StringPattern(0x30, 3)
    ensures LowBits(0x20, 5) == 0 && LowBits(0xC0, 6) == 0 && LowBits(0x80, 6) == 0 && LowBits(0x50, 4) == 0
    ensures LowBits(0, 5) == 0 && LowBits(0, 8) == 0 && LowBits(0, 7) == 0
    ensures Pow2(3) == 8 && Pow2(4) == 16 && Pow2(5) == 32 && Pow2(6) == 64 && Pow2(7) == 128 && Pow2(8) == 256
  {
    Pow2Values();
    ZeroBits(5);
    ZeroBits(7);
    ZeroBits(8);
    assert LowBits(0x40, 5) == 0 && Shr(0x40, 5) == 2;
    assert LowBits(0x20, 3) == 0 && Shr(0x20, 3) == 4;
    assert LowBits(0x30, 3) == 0 && Shr(0x30, 3) == 6;
    assert LowBits(0x20, 5) == 0;
    assert LowBits(0xC0, 6) == 0 && LowBits(0x80, 6) == 0;
    assert LowBits(0x50, 4) == 0;
  }

  function Head(index: nat, prefixBits: nat, pattern: nat): Bytes
    requires 1 <= prefixBits <= 8 && pattern + Pow2(prefixBits) <= 256
  {
    Tagged(EncodeInteger(index, prefixBits), pattern)
  }

  // The encoder stream, section 4.3. As with Octets.At, the folds keep the writers and readers
  // of instructions and field lines out of sight until they are asked for.

  datatype Instruction =
    | SetCapacity(capacity: nat)
    | InsertStatic(index: nat, value: Bytes)
    | InsertLiteral(name: Bytes, value: Bytes)

  function Spelled(c: Coding, ins: Instruction, folds: nat := 2): (r: Bytes)
    ensures |r| > 0
    decreases ins, folds
  {
    if folds > 0 then Spelled(c, ins, folds - 1) else SpelledOut(c, ins)
  }

  lemma {:induction false} SpelledUnfolds(c: Coding, ins: Instruction)
    ensures Spelled(c, ins) == SpelledOut(c, ins)
  {
    assert Spelled(c, ins, 1) == Spelled(c, ins, 0);
  }

  function SpelledOut(c: Coding, ins: Instruction): (r: Bytes)
    ensures |r| > 0
  {
    PatternsFit();
    match ins
    case SetCapacity(n) => Head(n, 5, 0x20)
    case InsertStatic(index, value) => Head(index, 6, 0xC0) + EncodeString(c.z, value, 7, 0, true)
    case InsertLiteral(name, value) => EncodeString(c.z, name, 5, 0x40, true) + EncodeString(c.z, value, 7, 0, true)
  }

  function StreamBytes(c: Coding, all: seq<Instruction>): Bytes
    decreases |all|
  {
    if |all| == 0 then [] else Spelled(c, all[0]) + StreamBytes(c, all[1..])
  }

  /** The effect of an instruction on the table of the peer. */
  function Apply(c: Coding, t: Numbered, ins: Instruction): (t': Numbered)
    requires t.Sound()
    ensures t'.Sound()
  {
    match ins
    case SetCapacity(n) => t.Resize(n)
    case InsertStatic(index, value) => if index < |c.fixed| then t.Add(Field(c.fixed[index].name, value)) else t
    case InsertLiteral(name, value) => t.Add(Field(Lower(name), value))
  }

  function ApplyAll(c: Coding, t: Numbered, all: seq<Instruction>): (t': Numbered)
    requires t.Sound()
    ensures t'.Sound()
    decreases |all|
  {
    if |all| == 0 then t else ApplyAll(c, Apply(c, t, all[0]), all[1..])
  }

  /** A table that reads its peer's instructions, and how many insertions it has read. */
  datatype Replay = Replayed(table: Numbered, applied: nat) | Broken(error: QpackError, table: Numbered)

  datatype StreamStep = Go(table: Numbered, inserted: nat, next: nat) | Stop(error: QpackError)

  function ReadInteger(data: Bytes, offset: nat, prefixBits: nat): (r: Result<(nat, nat), QpackError>)
    requires 1 <= prefixBits <= 8
    ensures r.Ok? ==> offset < r.value.1 <= |data|
  {
    match DecodeInteger(data, offset, prefixBits)
    case Err(e) => Err(BadInteger(e))
    case Ok(v) => Ok(v)
  }

  function ReadString(c: Coding, data: Bytes, offset: nat, prefixBits: nat): (r: Result<(Bytes, nat), QpackError>)
    requires 1 <= prefixBits <= 7
    ensures r.Ok? ==> offset < r.value.1 <= |data|
  {
    match DecodeString(c.z, data, offset, prefixBits)
    case Err(e) => Err(BadString(e))
    case Ok(v) => Ok(v)
  }

  function StaticEntry(c: Coding, index: nat): Result<Field, QpackError> {
    if index < |c.fixed| then Ok(c.fixed[index]) else Err(StaticIndexOutOfRange)
  }

  function TableEntry(t: Option<Numbered>, absolute: int): Result<Field, QpackError>
    requires t.Some? ==> t.value.Sound()
  {
    match t
    case None => Err(NoTable)
    case Some(table) =>
      match table.Get(absolute)
      case None => Err(NoLongerHeld)
      case Some(f) => Ok(f)
  }

  /** A name by index, then a value: the index counts from the first insertion ever made. */
  function ReadInsertByName(c: Coding, t: Numbered, data: Bytes, offset: nat, fixed: bool): (r: Result<(Field, nat), QpackError>)
    requires t.Sound()
    ensures r.Ok? ==> offset < r.value.1 <= |data|
  {
    var (index, next) :- ReadInteger(data, offset, 6);
    var (value, end) :- ReadString(c, data, next, 7);
    var named :- if fixed then StaticEntry(c, index) else TableEntry(Some(t), index);
    Ok((Field(named.name, value), end))
  }

  function ReadInsertByLiteral(c: Coding, data: Bytes, offset: nat): (r: Result<(Field, nat), QpackError>)
    ensures r.Ok? ==> offset < r.value.1 <= |data|
  {
    var (name, next) :- ReadString(c, data, offset, 5);
    var (value, end) :- ReadString(c, data, next, 7);
    Ok((Field(Lower(name), value), end))
  }

  function ReadDuplicate(t: Numbered, data: Bytes, offset: nat): (r: Result<(Field, nat), QpackError>)
    requires t.Sound()
    ensures r.Ok? ==> offset < r.value.1 <= |data|
  {
    var (relative, next) :- ReadInteger(data, offset, 5);
    var f :- TableEntry(Some(t), t.count - 1 - relative);
    Ok((f, next))
  }

  function Inserted(t: Numbered, r: Result<(Field, nat), QpackError>): (step: StreamStep)
    requires t.Sound()
    ensures step.Go? ==> r.Ok? && step.next == r.value.1 && step.table.Sound()
  {
    match r
    case Err(e) => Stop(e)
    case Ok((f, next)) => Go(t.Add(f), 1, next)
  }

  function ReadInstruction(c: Coding, t: Numbered, data: Bytes, offset: nat, folds: nat := 2): (step: StreamStep)
    requires t.Sound() && offset < |data|
    ensures step.Go? ==> offset < step.next <= |data| && step.table.Sound()
    decreases data, folds
  {
    if folds > 0 then ReadInstruction(c, t, data, offset, folds - 1) else InstructionAt(c, t, data, offset)
  }

  lemma {:induction false} ReadInstructionUnfolds(c: Coding, t: Numbered, data: Bytes, offset: nat)
    requires t.Sound() && offset < |data|
    ensures ReadInstruction(c, t, data, offset) == InstructionAt(c, t, data, offset)
  {
    assert ReadInstruction(c, t, data, offset, 1) == ReadInstruction(c, t, data, offset, 0);
  }

  function InstructionAt(c: Coding, t: Numbered, data: Bytes, offset: nat): (step: StreamStep)
    requires t.Sound() && offset < |data|
    ensures step.Go? ==> offset < step.next <= |data| && step.table.Sound()
  {
    var byte := data[offset];
    if 0x20 <= byte < 0x40 then
      match ReadInteger(data, offset, 5)
      case Err(e) => Stop(e)
      case Ok((n, next)) => Go(t.Resize(n), 0, next)
    else if byte >= 0x80 then Inserted(t, ReadInsertByName(c, t, data, offset, byte >= 0xC0))
    else if byte >= 0x40 then Inserted(t, ReadInsertByLiteral(c, data, offset))
    else Inserted(t, ReadDuplicate(t, data, offset))
  }

  /** `decode_encoder_stream`. */
  function ReadStream(c: Coding, t: Numbered, data: Bytes, offset: nat, applied: nat, folds: nat := 2): (r: Replay)
    requires t.Sound()
    ensures r.table.Sound()
    decreases |data| - offset, folds
  {
    if folds > 0 then ReadStream(c, t, data, offset, applied, folds - 1)
    else if offset >= |data| then Replayed(t, applied)
    else
      match ReadInstruction(c, t, data, offset)
      case Stop(e) => Broken(e, t)
      case Go(t', n, next) => ReadStream(c, t', data, next, applied + n)
  }

  lemma {:induction false} ReadStreamUnfolds(c: Coding, t: Numbered, data: Bytes, offset: nat, applied: nat)
    requires t.Sound()
    ensures ReadStream(c, t, data, offset, applied) ==
            if offset >= |data| then Replayed(t, applied)
            else
              match ReadInstruction(c, t, data, offset)
              case Stop(e) => Broken(e, t)
              case Go(t', n, next) => ReadStream(c, t', data, next, applied + n)
  {
    assert ReadStream(c, t, data, offset, applied, 1) == ReadStream(c, t, data, offset, applied, 0);
  }

  // Field sections, section 4.5.

  datatype Line =
    | StaticLine(index: nat)
    | DynamicLine(absolute: nat)
    | StaticName(nameIndex: nat, namedValue: Bytes)
    /** `never`: no intermediary may put the field in a table either. */
    | LiteralLine(name: Bytes, value: Bytes, never: bool)

  /** The encoder's table and the instructions its peer has not been sent. */
  datatype EncoderState = EncoderState(table: Numbered, pending: seq<Instruction>)

  function InsertionOf(c: Coding, f: Field): Instruction {
    match StaticByNameFrom(c.fixed, f.name, 0)
    case Some(i) => InsertStatic(i, f.value)
    case None => InsertLiteral(f.name, f.value)
  }

  /** A field that no table helps with. */
  function PlainLine(c: Coding, f: Field): Line {
    match StaticByNameFrom(c.fixed, f.name, 0)
    case Some(i) => StaticName(i, f.value)
    case None => LiteralLine(f.name, f.value, NeverIndex(f.name))
  }

  predicate WorthInserting(t: Numbered, f: Field) {
    t.capacity > 0 && !NeverIndex(f.name) && t.Fits(f)
  }

  /** The first pass: what stands for a field, and the table and instructions behind it. */
  function PlanOne(c: Coding, e: EncoderState, f: Field): (r: (Line, EncoderState))
    requires e.table.Sound()
    ensures r.1.table.Sound()
  {
    match StaticExactFrom(c.fixed, f, 0)
    case Some(i) => (StaticLine(i), e)
    case None =>
      match FindNewest(e.table.entries, f)
      case Exact(p) => (DynamicLine(e.table.Dropped() + p), e)
      case _ =>
        if WorthInserting(e.table, f)
        then (DynamicLine(e.table.count), EncoderState(e.table.Add(f), e.pending + [InsertionOf(c, f)]))
        else (PlainLine(c, f), e)
  }

  function PlanAll(c: Coding, e: EncoderState, fields: seq<Field>): (r: (seq<Line>, EncoderState))
    requires e.table.Sound()
    ensures r.1.table.Sound()
    decreases |fields|
  {
    if |fields| == 0 then ([], e)
    else
      var (line, e1) := PlanOne(c, e, fields[0]);
      var (rest, e2) := PlanAll(c, e1, fields[1..]);
      ([line] + rest, e2)
  }

  /** One more than the highest number referred to. */
  function Required(lines: seq<Line>): nat
    decreases |lines|
  {
    if |lines| == 0 then 0
    else
      var rest := Required(lines[1..]);
      if lines[0].DynamicLine? && lines[0].absolute + 1 > rest then lines[0].absolute + 1 else rest
  }

  /** The second pass; `base` is above every number referred to. */
  function EmitLine(c: Coding, line: Line, base: nat, huffman: bool, folds: nat := 2): (r: Bytes)
    ensures |r| > 0
    decreases line, folds
  {
    if folds > 0 then EmitLine(c, line, base, huffman, folds - 1) else Emitted(c, line, base, huffman)
  }

  lemma {:induction false} EmitLineUnfolds(c: Coding, line: Line, base: nat, huffman: bool)
    ensures EmitLine(c, line, base, huffman) == Emitted(c, line, base, huffman)
  {
    assert EmitLine(c, line, base, huffman, 1) == EmitLine(c, line, base, huffman, 0);
  }

  function Emitted(c: Coding, line: Line, base: nat, huffman: bool): (r: Bytes)
    ensures |r| > 0
  {
    PatternsFit();
    match line
    case StaticLine(i) => Head(i, 6, 0xC0)
    case DynamicLine(a) => Head(if a < base then base - a - 1 else 0, 6, 0x80)
    case StaticName(i, value) => Head(i, 4, 0x50) + EncodeString(c.z, value, 7, 0, huffman)
    case LiteralLine(name, value, never) =>
      EncodeString(c.z, name, 3, if never then 0x30 else 0x20, huffman) + EncodeString(c.z, value, 7, 0, huffman)
  }

  function EmitAll(c: Coding, lines: seq<Line>, base: nat, huffman: bool): Bytes
    decreases |lines|
  {
    if |lines| == 0 then [] else EmitLine(c, lines[0], base, huffman) + EmitAll(c, lines[1..], base, huffman)
  }

  function MaxEntries(capacity: nat): nat {
    capacity / ENTRY_OVERHEAD
  }

  function EncodeCount(count: nat, maxEntries: nat): nat {
    if count == 0 || maxEntries == 0 then 0 else count % (2 * maxEntries) + 1
  }

  /** The count may come out negative: the code does not refuse that. */
  function DecodeCount(encoded: nat, maxEntries: nat, total: nat): Result<int, QpackError> {
    if encoded == 0 then Ok(0)
    else if maxEntries == 0 then Err(NoCapacity)
    else if encoded > 2 * maxEntries then Err(CountOutOfRange)
    else
      var top := total + maxEntries;
      var wrapped := top - top % (2 * maxEntries) + encoded - 1;
      Ok(if wrapped > top then wrapped - 2 * maxEntries else wrapped)
  }

  function SectionPrefix(required: nat, base: nat, maxEntries: nat): Bytes {
    EncodeInteger(if required > 0 then EncodeCount(required, maxEntries) else 0, 8) +
    EncodeInteger(if 0 < required <= base then base - required else 0, 7)
  }

  function EncodeSection(c: Coding, e: EncoderState, headers: seq<Field>, huffman: bool): (r: (Bytes, EncoderState))
    requires e.table.Sound()
    ensures r.1.table.Sound()
  {
    var (lines, e') := PlanAll(c, e, Hpack.LowerNames(headers));
    var base := e'.table.count;
    (SectionPrefix(Required(lines), base, MaxEntries(e'.table.capacity)) + EmitAll(c, lines, base, huffman), e')
  }

  /** A field as the coder without a dynamic table writes it, which marks no literal. */
  function StaticLineOf(c: Coding, f: Field): Line {
    match StaticExactFrom(c.fixed, f, 0)
    case Some(i) => StaticLine(i)
    case None => if PlainLine(c, f).LiteralLine? then LiteralLine(f.name, f.value, false) else PlainLine(c, f)
  }

  function StaticLines(c: Coding, fields: seq<Field>): (lines: seq<Line>)
    ensures |lines| == |fields|
  {
    seq(|fields|, i requires 0 <= i < |fields| => StaticLineOf(c, fields[i]))
  }

  /** `encode_field_section`. */
  function EncodeStaticSection(c: Coding, headers: seq<Field>, huffman: bool): Bytes {
    EncodeInteger(0, 8) + EncodeInteger(0, 7) + EmitAll(c, StaticLines(c, Hpack.LowerNames(headers)), 0, huffman)
  }

  /** The sign is taken from the octet before the Delta Base, the last one of the insert count. */
  function ReadPrefix(data: Bytes): (r: Result<(nat, nat, bool, nat), QpackError>)
    ensures r.Ok? ==> r.value.3 <= |data|
  {
    var (required, next) :- ReadInteger(data, 0, 8);
    var (delta, body) :- ReadInteger(data, next, 7);
    Ok((required, delta, data[next - 1] >= 0x80, body))
  }

  function ReadLine(c: Coding, t: Option<Numbered>, base: int, data: Bytes, offset: nat, folds: nat := 2): (r: Result<(Field, nat), QpackError>)
    requires offset < |data| && (t.Some? ==> t.value.Sound())
    ensures r.Ok? ==> offset < r.value.1 <= |data|
    decreases data, folds
  {
    if folds > 0 then ReadLine(c, t, base, data, offset, folds - 1) else LineAt(c, t, base, data, offset)
  }

  lemma {:induction false} ReadLineUnfolds(c: Coding, t: Option<Numbered>, base: int, data: Bytes, offset: nat)
    requires offset < |data| && (t.Some? ==> t.value.Sound())
    ensures ReadLine(c, t, base, data, offset) == LineAt(c, t, base, data, offset)
  {
    assert ReadLine(c, t, base, data, offset, 1) == ReadLine(c, t, base, data, offset, 0);
  }

  function LineAt(c: Coding, t: Option<Numbered>, base: int, data: Bytes, offset: nat): (r: Result<(Field, nat), QpackError>)
    requires offset < |data| && (t.Some? ==> t.value.Sound())
    ensures r.Ok? ==> offset < r.value.1 <= |data|
  {
    var byte := data[offset];
    if byte >= 0x80 then
      var (index, next) :- ReadInteger(data, offset, 6);
      var f :- if byte >= 0xC0 then StaticEntry(c, index) else TableEntry(t, base - index - 1);
      Ok((f, next))
    else if byte >= 0x40 then
      var (index, next) :- ReadInteger(data, offset, 4);
      var named :- if byte % 0x20 >= 0x10 then StaticEntry(c, index) else TableEntry(t, base - index - 1);
      var (value, end) :- ReadString(c, data, next, 7);
      Ok((Field(named.name, value), end))
    else if byte >= 0x20 then
      var (name, next) :- ReadString(c, data, offset, 3);
      var (value, end) :- ReadString(c, data, next, 7);
      Ok((Field(Lower(name), value), end))
    else Err(if byte >= 0x10 then PostBaseIndexing else UnknownPattern)
  }

  function ReadLines(c: Coding, t: Option<Numbered>, base: int, data: Bytes, offset: nat, headers: seq<Field>,
                     folds: nat := 2): Result<seq<Field>, QpackError>
    requires t.Some? ==> t.value.Sound()
    decreases |data| - offset, folds
  {
    if folds > 0 then ReadLines(c, t, base, data, offset, headers, folds - 1)
    else if offset >= |data| then Ok(headers)
    else
      match ReadLine(c, t, base, data, offset)
      case Err(e) => Err(e)
      case Ok((f, next)) => ReadLines(c, t, base, data, next, headers + [f])
  }

  lemma {:induction false} ReadLinesUnfolds(c: Coding, t: Option<Numbered>, base: int, data: Bytes, offset: nat, headers: seq<Field>)
    requires t.Some? ==> t.value.Sound()
    ensures ReadLines(c, t, base, data, offset, headers) ==
            if offset >= |data| then Ok(headers)
            else
              var line := ReadLine(c, t, base, data, offset);
              if line.Err? then Err(line.error) else ReadLines(c, t, base, data, line.value.1, headers + [line.value.0])
  {
    assert ReadLines(c, t, base, data, offset, headers, 1) == ReadLines(c, t, base, data, offset, headers, 0);
  }

  function BaseOf(required: int, delta: nat, sign: bool): int {
    if sign then required - delta else required + delta
  }

  function DecodeSection(c: Coding, t: Option<Numbered>, data: Bytes): Result<seq<Field>, QpackError>
    requires t.Some? ==> t.value.Sound()
  {
    var (encoded, delta, sign, body) :- ReadPrefix(data);
    var maxEntries := if t.Some? then MaxEntries(t.value.capacity) else 0;
    var total := if t.Some? then t.value.count else 0;
    var required :- DecodeCount(encoded, maxEntries, total);
    if required != 0 && (t.None? || required > total) then Err(RequiresEntries)
    else ReadLines(c, t, BaseOf(required, delta, sign), data, body, [])
  }
}
