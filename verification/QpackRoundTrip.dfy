/**
 * What a QPACK decoder makes of an encoder's output: the table it rebuilds from the encoder
 * stream, and exactly which field sections come back.
 */
module QpackRoundTrip {
  import opened Wrappers
  import opened Octets
  import opened HpackInteger
  import opened StringLiteral
  import opened HpackTable
  import opened StaticTable
  import opened QpackTable
  import opened Qpack
  import Hpack

  /** The least ceiling of the prefixed integers used here is above this. */
  const BOUND: nat := 0x8_0000_0000

  // The insert count, section 4.5.1.1.

  lemma {:induction false} MultipleIsFar(span: nat, d: nat)
    requires d > 0
    ensures span * d >= span
  {
    if d > 1 {
      MultipleIsFar(span, d - 1);
      assert span * d == span * (d - 1) + span;
    }
  }

  ghost predicate IsMultiple(x: int, span: nat) {
    exists k: int :: TimesIs(x, span, k)
  }

  predicate TimesIs(x: int, span: nat, k: int) {
    x == span * k
  }

  lemma {:induction false} RoundedDown(x: nat, span: nat)
    requires span > 0
    ensures IsMultiple(x - x % span, span) && IsMultiple(x - x % span - span, span)
  {
    var k := x / span;
    assert x == span * k + x % span;
    assert span * (k - 1) == span * k - span;
    assert TimesIs(x - x % span, span, k) && TimesIs(x - x % span - span, span, k - 1);
  }

  lemma {:induction false} SameInWindow(x: int, y: int, span: nat)
    requires IsMultiple(x, span) && IsMultiple(y, span) && x - y < span && y - x < span
    ensures x == y
  {
    var i :| TimesIs(x, span, i);
    var j :| TimesIs(y, span, j);
    if i > j {
      MultipleIsFar(span, i - j);
    }
    if j > i {
      MultipleIsFar(span, j - i);
    }
  }

  /** What the wrapped count stands for: the number of its residue among the last 2 * maxEntries. */
  lemma {:induction false} CountIsResidue(count: nat, maxEntries: nat, total: nat)
    requires count > 0 && maxEntries > 0
    ensures var r := DecodeCount(EncodeCount(count, maxEntries), maxEntries, total);
            r.Ok? && total - maxEntries < r.value <= total + maxEntries &&
            (r.value == count <==> total - maxEntries < count <= total + maxEntries)
  {
    var span, top := 2 * maxEntries, total + maxEntries;
    var r := DecodeCount(EncodeCount(count, maxEntries), maxEntries, total);
    assert r.value == top - top % span + count % span || r.value == top - top % span + count % span - span;
    RoundedDown(top, span);
    RoundedDown(count, span);
    if total - maxEntries < count <= total + maxEntries {
      SameInWindow(r.value - count % span, count - count % span, span);
    }
  }

  // One field line.

  predicate Carried(c: Coding, raw: Bytes, huffman: bool) {
    |Payload(c.z, raw, huffman)| < BOUND
  }

  /** The integers and strings of the line are within what the integer coding carries. */
  predicate LineFits(c: Coding, line: Line, base: nat, huffman: bool) {
    match line
    case StaticLine(i) => i < |c.fixed|
    case DynamicLine(a) => a < base && base - a <= BOUND
    case StaticName(i, value) => i < |c.fixed| && Carried(c, value, huffman)
    case LiteralLine(name, value, _) => Carried(c, name, huffman) && Carried(c, value, huffman)
  }

  /** What a line stands for when numbers are read `shift` too high. */
  function Meaning(c: Coding, t: Option<Numbered>, shift: int, line: Line): Result<Field, QpackError>
    requires t.Some? ==> t.value.Sound()
  {
    match line
    case StaticLine(i) => StaticEntry(c, i)
    case DynamicLine(a) => TableEntry(t, a + shift)
    case StaticName(i, value) => (match StaticEntry(c, i) case Err(e) => Err(e) case Ok(f) => Ok(Field(f.name, value)))
    case LiteralLine(name, value, _) => Ok(Field(Lower(name), value))
  }

  lemma {:induction false} HeadIsRead(data: Bytes, offset: nat, index: nat, prefixBits: nat, pattern: nat)
    requires 1 <= prefixBits <= 8 && pattern + Pow2(prefixBits) <= 256 && LowBits(pattern, prefixBits) == 0
    requires At(data, offset, Head(index, prefixBits, pattern)) && index < BOUND
    ensures offset < |data| && pattern <= data[offset] < pattern + Pow2(prefixBits)
    ensures ReadInteger(data, offset, prefixBits) == Ok((index, offset + |Head(index, prefixBits, pattern)|))
  {
    AtHead(data, offset, Head(index, prefixBits, pattern));
    IntegerRoundTrip(data, offset, index, prefixBits, pattern);
  }

  lemma {:induction false} StringIsRead(c: Coding, data: Bytes, offset: nat, raw: Bytes, prefixBits: nat, pattern: nat, huffman: bool)
    requires ValidCoding(c) && StringPattern(pattern, prefixBits) && Carried(c, raw, huffman)
    requires At(data, offset, EncodeString(c.z, raw, prefixBits, pattern, huffman))
    ensures ReadString(c, data, offset, prefixBits) == Ok((raw, offset + |EncodeString(c.z, raw, prefixBits, pattern, huffman)|))
  {
    StringRoundTrip(c.z, data, offset, raw, prefixBits, pattern, huffman);
  }

  /** The first octet of a string shows its pattern and no more than the Huffman bit above the prefix. */
  lemma {:induction false} StringShowsPattern(c: Coding, data: Bytes, offset: nat, raw: Bytes, prefixBits: nat, pattern: nat, huffman: bool)
    requires StringPattern(pattern, prefixBits) && At(data, offset, EncodeString(c.z, raw, prefixBits, pattern, huffman))
    ensures offset < |data| && pattern <= data[offset] < pattern + 2 * Pow2(prefixBits)
  {
    EncodeStringUnfolds(c.z, raw, prefixBits, pattern, huffman);
    AtHead(data, offset, EncodeString(c.z, raw, prefixBits, pattern, huffman));
  }

  /** The line is read for what it means, up to its end. */
  ghost predicate LineIsRead(c: Coding, t: Option<Numbered>, base': int, data: Bytes, offset: nat, line: Line, base: nat, huffman: bool)
    requires t.Some? ==> t.value.Sound()
  {
    offset < |data| &&
    ReadLine(c, t, base', data, offset) ==
      match Meaning(c, t, base' - base, line)
      case Err(e) => Err(e)
      case Ok(f) => Ok((f, offset + |EmitLine(c, line, base, huffman)|))
  }

  lemma {:induction false} IndexHeadIsRead(data: Bytes, offset: nat, index: nat, pattern: nat)
    requires (pattern == 0xC0 || pattern == 0x80) && pattern + Pow2(6) <= 256 && index < BOUND
    requires At(data, offset, Head(index, 6, pattern))
    ensures offset < |data| && pattern <= data[offset] < pattern + 64
    ensures ReadInteger(data, offset, 6) == Ok((index, offset + |Head(index, 6, pattern)|))
  {
    PatternsFit();
    HeadIsRead(data, offset, index, 6, pattern);
  }

  lemma {:induction false} IndexedLine(c: Coding, t: Option<Numbered>, base': int, data: Bytes, offset: nat, line: Line, base: nat, huffman: bool)
    requires ValidCoding(c) && (t.Some? ==> t.value.Sound()) && LineFits(c, line, base, huffman)
    requires line.StaticLine? || line.DynamicLine?
    requires At(data, offset, EmitLine(c, line, base, huffman))
    ensures LineIsRead(c, t, base', data, offset, line, base, huffman)
  {
    EmitLineUnfolds(c, line, base, huffman);
    Pow2Values();
    match line {
      case StaticLine(i) => IndexHeadIsRead(data, offset, i, 0xC0);
      case DynamicLine(a) => IndexHeadIsRead(data, offset, base - a - 1, 0x80);
    }
    ReadLineUnfolds(c, t, base', data, offset);
  }

  lemma {:induction false} NameHeadIsRead(c: Coding, data: Bytes, offset: nat, index: nat, value: Bytes, huffman: bool)
    requires ValidCoding(c) && StringPattern(0, 7) && 0x50 + Pow2(4) <= 256 && index < BOUND && Carried(c, value, huffman)
    requires At(data, offset, Head(index, 4, 0x50) + EncodeString(c.z, value, 7, 0, huffman))
    ensures var next := offset + |Head(index, 4, 0x50)|;
            offset < |data| && 0x50 <= data[offset] < 0x60 &&
            ReadInteger(data, offset, 4) == Ok((index, next)) &&
            ReadString(c, data, next, 7) == Ok((value, next + |EncodeString(c.z, value, 7, 0, huffman)|))
  {
    PatternsFit();
    var head := Head(index, 4, 0x50);
    AtSplit(data, offset, head, EncodeString(c.z, value, 7, 0, huffman));
    HeadIsRead(data, offset, index, 4, 0x50);
    StringIsRead(c, data, offset + |head|, value, 7, 0, huffman);
  }

  lemma {:induction false} NamedFromParts(c: Coding, t: Option<Numbered>, base': int, data: Bytes, offset: nat, index: nat, next: nat, value: Bytes, end: nat)
    requires (t.Some? ==> t.value.Sound()) && offset < |data| && 0x50 <= data[offset] < 0x60 && index < |c.fixed|
    requires ReadInteger(data, offset, 4) == Ok((index, next)) && ReadString(c, data, next, 7) == Ok((value, end))
    ensures ReadLine(c, t, base', data, offset) == Ok((Field(c.fixed[index].name, value), end))
  {
    ReadLineUnfolds(c, t, base', data, offset);
  }

  lemma {:induction false} NamedLine(c: Coding, t: Option<Numbered>, base': int, data: Bytes, offset: nat, line: Line, base: nat, huffman: bool)
    requires ValidCoding(c) && (t.Some? ==> t.value.Sound()) && LineFits(c, line, base, huffman)
    requires line.StaticName?
    requires At(data, offset, EmitLine(c, line, base, huffman))
    ensures LineIsRead(c, t, base', data, offset, line, base, huffman)
  {
    EmitLineUnfolds(c, line, base, huffman);
    PatternsFit();
    NameHeadIsRead(c, data, offset, line.nameIndex, line.namedValue, huffman);
    var next := offset + |Head(line.nameIndex, 4, 0x50)|;
    NamedFromParts(c, t, base', data, offset, line.nameIndex, next, line.namedValue,
                   next + |EncodeString(c.z, line.namedValue, 7, 0, huffman)|);
  }

  /** Name and value of a literal, each a string. */
  lemma {:induction false} TwoStringsAreRead(c: Coding, data: Bytes, offset: nat, name: Bytes, value: Bytes, prefixBits: nat, pattern: nat, huffman: bool)
    requires ValidCoding(c) && StringPattern(0, 7) && StringPattern(pattern, prefixBits)
    requires Carried(c, name, huffman) && Carried(c, value, huffman)
    requires At(data, offset, EncodeString(c.z, name, prefixBits, pattern, huffman) + EncodeString(c.z, value, 7, 0, huffman))
    ensures var next := offset + |EncodeString(c.z, name, prefixBits, pattern, huffman)|;
            offset < |data| && pattern <= data[offset] < pattern + 2 * Pow2(prefixBits) &&
            ReadString(c, data, offset, prefixBits) == Ok((name, next)) &&
            ReadString(c, data, next, 7) == Ok((value, next + |EncodeString(c.z, value, 7, 0, huffman)|))
  {
    var first := EncodeString(c.z, name, prefixBits, pattern, huffman);
    AtSplit(data, offset, first, EncodeString(c.z, value, 7, 0, huffman));
    StringShowsPattern(c, data, offset, name, prefixBits, pattern, huffman);
    StringIsRead(c, data, offset, name, prefixBits, pattern, huffman);
    StringIsRead(c, data, offset + |first|, value, 7, 0, huffman);
  }

  lemma {:induction false} LiteralFromParts(c: Coding, t: Option<Numbered>, base': int, data: Bytes, offset: nat, name: Bytes, next: nat, value: Bytes, end: nat)
    requires (t.Some? ==> t.value.Sound()) && offset < |data| && 0x20 <= data[offset] < 0x40
    requires ReadString(c, data, offset, 3) == Ok((name, next)) && ReadString(c, data, next, 7) == Ok((value, end))
    ensures ReadLine(c, t, base', data, offset) == Ok((Field(Lower(name), value), end))
  {
    ReadLineUnfolds(c, t, base', data, offset);
  }

  lemma {:induction false} LiteralLineIsRead(c: Coding, t: Option<Numbered>, base': int, data: Bytes, offset: nat, line: Line, base: nat, huffman: bool)
    requires ValidCoding(c) && (t.Some? ==> t.value.Sound()) && LineFits(c, line, base, huffman)
    requires line.LiteralLine?
    requires At(data, offset, EmitLine(c, line, base, huffman))
    ensures LineIsRead(c, t, base', data, offset, line, base, huffman)
  {
    EmitLineUnfolds(c, line, base, huffman);
    PatternsFit();
    var pattern := if line.never then 0x30 else 0x20;
    TwoStringsAreRead(c, data, offset, line.name, line.value, 3, pattern, huffman);
    var next := offset + |EncodeString(c.z, line.name, 3, pattern, huffman)|;
    LiteralFromParts(c, t, base', data, offset, line.name, next, line.value,
                     next + |EncodeString(c.z, line.value, 7, 0, huffman)|);
  }

  lemma {:induction false} EveryLineIsRead(c: Coding, t: Option<Numbered>, base': int, data: Bytes, offset: nat, line: Line, base: nat, huffman: bool)
    requires ValidCoding(c) && (t.Some? ==> t.value.Sound()) && LineFits(c, line, base, huffman)
    requires At(data, offset, EmitLine(c, line, base, huffman))
    ensures LineIsRead(c, t, base', data, offset, line, base, huffman)
  {
    match line
    case StaticName(_, _) => NamedLine(c, t, base', data, offset, line, base, huffman);
    case LiteralLine(_, _, _) => LiteralLineIsRead(c, t, base', data, offset, line, base, huffman);
    case _ => IndexedLine(c, t, base', data, offset, line, base, huffman);
  }

  // All lines of a section.

  function Meanings(c: Coding, t: Option<Numbered>, shift: int, lines: seq<Line>): Result<seq<Field>, QpackError>
    requires t.Some? ==> t.value.Sound()
    decreases |lines|
  {
    if |lines| == 0 then Ok([])
    else
      match Meaning(c, t, shift, lines[0])
      case Err(e) => Err(e)
      case Ok(f) =>
        match Meanings(c, t, shift, lines[1..])
        case Err(e) => Err(e)
        case Ok(rest) => Ok([f] + rest)
  }

  ghost predicate AllFit(c: Coding, lines: seq<Line>, base: nat, huffman: bool) {
    forall i :: 0 <= i < |lines| ==> LineFits(c, lines[i], base, huffman)
  }

  /** What the whole body gives when it starts after some headers. */
  function Behind(headers: seq<Field>, rest: Result<seq<Field>, QpackError>): Result<seq<Field>, QpackError> {
    match rest
    case Err(e) => Err(e)
    case Ok(fields) => Ok(headers + fields)
  }

  lemma {:induction false} LinesAreRead(c: Coding, t: Option<Numbered>, base': int, data: Bytes, offset: nat, lines: seq<Line>, base: nat,
                                        huffman: bool, headers: seq<Field>)
    requires ValidCoding(c) && (t.Some? ==> t.value.Sound()) && AllFit(c, lines, base, huffman)
    requires At(data, offset, EmitAll(c, lines, base, huffman)) && offset + |EmitAll(c, lines, base, huffman)| == |data|
    ensures ReadLines(c, t, base', data, offset, headers) == Behind(headers, Meanings(c, t, base' - base, lines))
    decreases |lines|
  {
    ReadLinesUnfolds(c, t, base', data, offset, headers);
    if |lines| == 0 {
      assert headers + [] == headers;
    } else {
      var line := lines[0];
      var first := EmitLine(c, line, base, huffman);
      AtSplit(data, offset, first, EmitAll(c, lines[1..], base, huffman));
      EveryLineIsRead(c, t, base', data, offset, line, base, huffman);
      var meant := Meaning(c, t, base' - base, line);
      if meant.Ok? {
        LinesAreRead(c, t, base', data, offset + |first|, lines[1..], base, huffman, headers + [meant.value]);
        BehindOne(headers, meant.value, Meanings(c, t, base' - base, lines[1..]));
      }
    }
  }

  lemma {:induction false} BehindOne(headers: seq<Field>, f: Field, rest: Result<seq<Field>, QpackError>)
    ensures Behind(headers + [f], rest) == Behind(headers, Behind([f], rest))
  {
    if rest.Ok? {
      assert headers + [f] + rest.value == headers + ([f] + rest.value);
    }
  }

  // The first pass.

  ghost predicate Distinct(t: Numbered)
    requires t.Sound()
  {
    forall a, b :: t.Holds(a) && t.Holds(b) && t.Get(a) == t.Get(b) ==> a == b
  }

  /** `t'` comes from `t` by insertions and evictions. */
  ghost predicate Later(t: Numbered, t': Numbered) {
    && t.Sound() && t'.Sound() && t.count <= t'.count && t.Dropped() <= t'.Dropped()
    && forall a: int :: t'.Holds(a) && a < t.count ==> t.Holds(a) && t'.Get(a) == t.Get(a)
  }

  lemma {:induction false} LaterIsTransitive(t: Numbered, u: Numbered, v: Numbered)
    requires Later(t, u) && Later(u, v)
    ensures Later(t, v)
  {
  }

  lemma {:induction false} InsertKeepsDistinct(t: Numbered, f: Field)
    requires t.Sound() && Distinct(t) && t.Fits(f) && f !in t.entries
    ensures Distinct(t.Add(f)) && Later(t, t.Add(f)) && t.Add(f).Get(t.count) == Some(f)
  {
    AddNumbers(t, f);
    var t' := t.Add(f);
    forall a: int | t'.Holds(a) && a != t.count
      ensures t.Holds(a) && t'.Get(a) == t.Get(a) && t'.Get(a) != Some(f)
    {
      assert t.entries[a - t.Dropped()] in t.entries;
    }
  }

  /** What a line may stand for in the table `t`: its field, or a number no longer held. */
  ghost predicate StandsFor(c: Coding, t: Numbered, line: Line, f: Field)
    requires t.Sound()
  {
    if line.DynamicLine? then line.absolute < t.count && (t.Holds(line.absolute) ==> t.Get(line.absolute) == Some(f))
    else Meaning(c, None, 0, line) == Ok(f)
  }

  /** In `t`, `f` is found at `a` or not below the number `from`. */
  ghost predicate OnlyAt(t: Numbered, f: Field, a: nat, from: nat)
    requires t.Sound()
  {
    forall x: int :: t.Holds(x) && t.Get(x) == Some(f) ==> x == a || x >= from
  }

  ghost predicate Ready(e: EncoderState) {
    e.table.Sound() && Distinct(e.table)
  }

  predicate Lowered(f: Field) {
    Lower(f.name) == f.name
  }

  /** One field: the line stands for it, and a number it refers to is the only one holding it. */
  lemma {:induction false} PlanOneStands(c: Coding, e: EncoderState, f: Field)
    requires Usable(c) && Ready(e) && Lowered(f)
    ensures var (line, e') := PlanOne(c, e, f);
            Ready(e') && Later(e.table, e'.table) && e'.table.capacity == e.table.capacity &&
            StandsFor(c, e'.table, line, f) &&
            (line.DynamicLine? ==> e'.table.Holds(line.absolute) && OnlyAt(e'.table, f, line.absolute, e'.table.count)) &&
            (e'.table.count == e.table.count || (line.DynamicLine? && e'.table.count == line.absolute + 1)) &&
            (line.DynamicLine? ==> e.table.capacity >= ENTRY_OVERHEAD)
  {
    var (line, e') := PlanOne(c, e, f);
    if StaticExactFrom(c.fixed, f, 0).None? {
      var m := FindNewest(e.table.entries, f);
      if !m.Exact? && WorthInserting(e.table, f) {
        NoMatchMeansAbsent(e.table.entries, f, m);
        InsertKeepsDistinct(e.table, f);
      } else {
        SizeCountsEntries(e.table.entries);
      }
    }
  }

  lemma {:induction false} NoMatchMeansAbsent(entries: seq<Field>, f: Field, m: Match)
    requires IsNewestMatch(entries, f, m) && !m.Exact?
    ensures f !in entries
  {
  }

  lemma {:induction false} RequiredCovers(lines: seq<Line>)
    ensures forall i :: 0 <= i < |lines| && lines[i].DynamicLine? ==> lines[i].absolute < Required(lines)
    ensures Required(lines) > 0 ==> exists i :: 0 <= i < |lines| && lines[i] == DynamicLine(Required(lines) - 1)
    decreases |lines|
  {
    if |lines| > 0 {
      RequiredCovers(lines[1..]);
      var rest := Required(lines[1..]);
      if Required(lines) == rest && rest > 0 {
        var i :| 0 <= i < |lines[1..]| && lines[1..][i] == DynamicLine(rest - 1);
        assert lines[i + 1] == DynamicLine(rest - 1);
      }
    }
  }

  /** Besides `a`, only numbers above it and below `bound` may hold `f`. */
  ghost predicate UniqueUpTo(t: Numbered, f: Field, a: nat, bound: nat)
    requires t.Sound()
  {
    forall x: int :: t.Holds(x) && t.Get(x) == Some(f) ==> x == a || a < x < bound
  }

  ghost predicate LineStands(c: Coding, t: Numbered, line: Line, f: Field, bound: nat)
    requires t.Sound()
  {
    StandsFor(c, t, line, f) && (line.DynamicLine? ==> UniqueUpTo(t, f, line.absolute, bound))
  }

  ghost predicate LinesStand(c: Coding, t: Numbered, lines: seq<Line>, fields: seq<Field>, bound: nat)
    requires t.Sound()
  {
    |lines| == |fields| && forall i :: 0 <= i < |lines| ==> LineStands(c, t, lines[i], fields[i], bound)
  }

  lemma {:induction false} StandsLater(c: Coding, t: Numbered, t': Numbered, line: Line, f: Field, bound: nat)
    requires Later(t, t') && StandsFor(c, t, line, f)
    requires line.DynamicLine? ==> OnlyAt(t, f, line.absolute, t.count)
    requires t'.count == t.count || t'.count <= bound
    ensures LineStands(c, t', line, f, bound)
  {
  }

  ghost predicate AllLowered(fields: seq<Field>) {
    forall i :: 0 <= i < |fields| ==> Lowered(fields[i])
  }

  /**
   * The whole first pass: in the table it ends with, every line stands for its field or has lost
   * it, and a field found elsewhere than at its number is found at a later one referred to.
   */
  lemma {:induction false} PlanAllStands(c: Coding, e: EncoderState, fields: seq<Field>)
    requires Usable(c) && Ready(e) && AllLowered(fields)
    ensures var (lines, e') := PlanAll(c, e, fields);
            Ready(e') && Later(e.table, e'.table) && e'.table.capacity == e.table.capacity &&
            LinesStand(c, e'.table, lines, fields, Required(lines)) &&
            (e'.table.count == e.table.count || e'.table.count <= Required(lines)) &&
            (Required(lines) > 0 ==> e.table.capacity >= ENTRY_OVERHEAD)
    decreases |fields|
  {
    if |fields| > 0 {
      var (line, e1) := PlanOne(c, e, fields[0]);
      var (rest, e') := PlanAll(c, e1, fields[1..]);
      PlanOneStands(c, e, fields[0]);
      PlanAllStands(c, e1, fields[1..]);
      LaterIsTransitive(e.table, e1.table, e'.table);
      PlannedFirst(line, rest);
      StandsLater(c, e1.table, e'.table, line, fields[0], Required([line] + rest));
      LinesStandBehind(c, e'.table, line, rest, fields, Required([line] + rest));
    }
  }

  lemma {:induction false} PlannedFirst(line: Line, rest: seq<Line>)
    ensures Required([line] + rest) ==
            if line.DynamicLine? && line.absolute + 1 > Required(rest) then line.absolute + 1 else Required(rest)
  {
    assert ([line] + rest)[1..] == rest;
  }

  lemma {:induction false} LinesStandBehind(c: Coding, t: Numbered, line: Line, rest: seq<Line>, fields: seq<Field>, bound: nat)
    requires t.Sound() && |fields| > 0 && LinesStand(c, t, rest, fields[1..], Required(rest))
    requires LineStands(c, t, line, fields[0], bound) && Required(rest) <= bound
    ensures LinesStand(c, t, [line] + rest, fields, bound)
  {
    var lines := [line] + rest;
    forall i | 0 <= i < |lines|
      ensures LineStands(c, t, lines[i], fields[i], bound)
    {
      if i > 0 {
        assert LineStands(c, t, rest[i - 1], fields[1..][i - 1], Required(rest));
      }
    }
  }

  // What comes back.

  ghost predicate AllHeld(t: Numbered, lines: seq<Line>)
    requires t.Sound()
  {
    forall i :: 0 <= i < |lines| && lines[i].DynamicLine? ==> t.Holds(lines[i].absolute)
  }

  lemma {:induction false} MeaningsAre(c: Coding, t: Numbered, shift: int, lines: seq<Line>, fields: seq<Field>)
    requires t.Sound() && |lines| == |fields|
    ensures Meanings(c, Some(t), shift, lines) == Ok(fields) <==>
            forall i :: 0 <= i < |lines| ==> Meaning(c, Some(t), shift, lines[i]) == Ok(fields[i])
    decreases |lines|
  {
    if |lines| > 0 {
      MeaningsAre(c, t, shift, lines[1..], fields[1..]);
      assert fields == [fields[0]] + fields[1..];
      if Meanings(c, Some(t), shift, lines[1..]) == Ok(fields[1..]) && Meaning(c, Some(t), shift, lines[0]) == Ok(fields[0]) {
        forall i | 0 <= i < |lines|
          ensures Meaning(c, Some(t), shift, lines[i]) == Ok(fields[i])
        {
          if i > 0 {
            assert lines[i] == lines[1..][i - 1] && fields[i] == fields[1..][i - 1];
          }
        }
      }
      if forall i :: 0 <= i < |lines| ==> Meaning(c, Some(t), shift, lines[i]) == Ok(fields[i]) {
        forall i | 0 <= i < |lines[1..]|
          ensures Meaning(c, Some(t), shift, lines[1..][i]) == Ok(fields[1..][i])
        {
          assert Meaning(c, Some(t), shift, lines[i + 1]) == Ok(fields[i + 1]);
        }
      }
    }
  }

  /** In the table the first pass ends with, lines are read right exactly unshifted and unevicted. */
  lemma {:induction false} MeaningsExactly(c: Coding, t: Numbered, shift: int, lines: seq<Line>, fields: seq<Field>)
    requires t.Sound() && LinesStand(c, t, lines, fields, Required(lines))
    ensures Meanings(c, Some(t), shift, lines) == Ok(fields) <==>
            Required(lines) == 0 || (shift == 0 && AllHeld(t, lines))
  {
    MeaningsAre(c, t, shift, lines, fields);
    RequiredCovers(lines);
    forall i | 0 <= i < |lines|
      ensures LineStands(c, t, lines[i], fields[i], Required(lines))
    {
    }
    if Meanings(c, Some(t), shift, lines) == Ok(fields) && Required(lines) > 0 {
      var i :| 0 <= i < |lines| && lines[i] == DynamicLine(Required(lines) - 1);
      assert Meaning(c, Some(t), shift, lines[i]) == Ok(fields[i]);
      assert LineStands(c, t, lines[i], fields[i], Required(lines));
      assert shift == 0;
      forall j | 0 <= j < |lines| && lines[j].DynamicLine?
        ensures t.Holds(lines[j].absolute)
      {
        assert Meaning(c, Some(t), shift, lines[j]) == Ok(fields[j]);
      }
    }
  }

  ghost predicate AllCarried(c: Coding, fields: seq<Field>, huffman: bool) {
    forall i :: 0 <= i < |fields| ==> Carried(c, fields[i].name, huffman) && Carried(c, fields[i].value, huffman)
  }

  lemma {:induction false} PlannedLinesFit(c: Coding, e: EncoderState, fields: seq<Field>, base: nat, huffman: bool)
    requires Usable(c) && Ready(e) && AllLowered(fields) && AllCarried(c, fields, huffman)
    requires PlanAll(c, e, fields).1.table.count <= base <= BOUND
    ensures AllFit(c, PlanAll(c, e, fields).0, base, huffman)
    decreases |fields|
  {
    if |fields| > 0 {
      var (line, e1) := PlanOne(c, e, fields[0]);
      var (rest, e') := PlanAll(c, e1, fields[1..]);
      PlanOneStands(c, e, fields[0]);
      PlanAllStands(c, e1, fields[1..]);
      PlannedLinesFit(c, e1, fields[1..], base, huffman);
      PlannedLineFits(c, e, fields[0], base, huffman);
      var lines := [line] + rest;
      forall i | 0 <= i < |lines|
        ensures LineFits(c, lines[i], base, huffman)
      {
        assert i > 0 ==> lines[i] == rest[i - 1];
      }
    }
  }

  lemma {:induction false} PlannedLineFits(c: Coding, e: EncoderState, f: Field, base: nat, huffman: bool)
    requires Usable(c) && Ready(e) && Lowered(f) && Carried(c, f.name, huffman) && Carried(c, f.value, huffman)
    requires PlanOne(c, e, f).1.table.count <= base <= BOUND
    ensures LineFits(c, PlanOne(c, e, f).0, base, huffman)
  {
    PlanOneStands(c, e, f);
  }

  // The prefix.

  lemma {:induction false} TailEndsLow(v: nat)
    ensures EncodeTail(v)[|EncodeTail(v)| - 1] < 128
  {
    if v >= 128 {
      TailEndsLow(v / 128);
    }
  }

  lemma {:induction false} PlainIntegerIsRead(data: Bytes, offset: nat, v: nat, prefixBits: nat)
    requires 7 <= prefixBits <= 8 && v < BOUND && At(data, offset, EncodeInteger(v, prefixBits))
    ensures ReadInteger(data, offset, prefixBits) == Ok((v, offset + |EncodeInteger(v, prefixBits)|))
  {
    PatternsFit();
    var encoded := EncodeInteger(v, prefixBits);
    assert Tagged(encoded, 0) == encoded;
    IntegerRoundTrip(data, offset, v, prefixBits, 0);
  }

  /** The octet taken for the sign is the last of the insert count, which is high for 128 to 254. */
  lemma {:induction false} SignOctet(data: Bytes, v: nat)
    requires At(data, 0, EncodeInteger(v, 8))
    ensures |EncodeInteger(v, 8)| <= |data| && (data[|EncodeInteger(v, 8)| - 1] >= 0x80 <==> 128 <= v <= 254)
  {
    Pow2Values();
    IntegerUnfolds(v, data, 0, 8);
    var encoded := EncodeInteger(v, 8);
    AtIsSlice(data, 0, encoded);
    assert data[|encoded| - 1] == data[0..|encoded|][|encoded| - 1];
    if v >= 255 {
      TailEndsLow(v - 255);
    }
  }

  predicate SignMisread(encoded: nat) {
    128 <= encoded <= 254
  }

  lemma {:induction false} PrefixIsRead(data: Bytes, encoded: nat, delta: nat)
    requires encoded < BOUND && delta < BOUND && At(data, 0, EncodeInteger(encoded, 8) + EncodeInteger(delta, 7))
    ensures ReadPrefix(data) ==
            Ok((encoded, delta, SignMisread(encoded), |EncodeInteger(encoded, 8)| + |EncodeInteger(delta, 7)|))
  {
    AtSplit(data, 0, EncodeInteger(encoded, 8), EncodeInteger(delta, 7));
    PlainIntegerIsRead(data, 0, encoded, 8);
    PlainIntegerIsRead(data, |EncodeInteger(encoded, 8)|, delta, 7);
    SignOctet(data, encoded);
  }

  // Whole sections.

  /** What the decoder makes of the prefix, and of the lines with the base it takes from it. */
  function Outcome(c: Coding, t: Option<Numbered>, lines: seq<Line>, base: nat, encoded: nat, delta: nat): Result<seq<Field>, QpackError>
    requires t.Some? ==> t.value.Sound()
  {
    var maxEntries := if t.Some? then MaxEntries(t.value.capacity) else 0;
    var total := if t.Some? then t.value.count else 0;
    match DecodeCount(encoded, maxEntries, total)
    case Err(e) => Err(e)
    case Ok(required) =>
      if required != 0 && (t.None? || required > total) then Err(RequiresEntries)
      else Meanings(c, t, BaseOf(required, delta, SignMisread(encoded)) - base, lines)
  }

  lemma {:induction false} BodyIsRead(c: Coding, t: Option<Numbered>, lines: seq<Line>, base: nat, huffman: bool, data: Bytes, start: nat, base': int)
    requires ValidCoding(c) && (t.Some? ==> t.value.Sound()) && AllFit(c, lines, base, huffman)
    requires At(data, start, EmitAll(c, lines, base, huffman)) && start + |EmitAll(c, lines, base, huffman)| == |data|
    ensures ReadLines(c, t, base', data, start, []) == Meanings(c, t, base' - base, lines)
  {
    LinesAreRead(c, t, base', data, start, lines, base, huffman, []);
    var m := Meanings(c, t, base' - base, lines);
    assert m.Ok? ==> [] + m.value == m.value;
  }

  lemma {:induction false} OutcomeOfParts(c: Coding, t: Option<Numbered>, lines: seq<Line>, base: nat, encoded: nat, delta: nat, data: Bytes, start: nat)
    requires t.Some? ==> t.value.Sound()
    requires ReadPrefix(data) == Ok((encoded, delta, SignMisread(encoded), start))
    requires forall base': int :: ReadLines(c, t, base', data, start, []) == Meanings(c, t, base' - base, lines)
    ensures DecodeSection(c, t, data) == Outcome(c, t, lines, base, encoded, delta)
  {
  }

  lemma {:induction false} SectionIsRead(c: Coding, t: Option<Numbered>, lines: seq<Line>, base: nat, encoded: nat, delta: nat, huffman: bool, data: Bytes)
    requires ValidCoding(c) && (t.Some? ==> t.value.Sound()) && AllFit(c, lines, base, huffman)
    requires encoded < BOUND && delta < BOUND
    requires data == EncodeInteger(encoded, 8) + EncodeInteger(delta, 7) + EmitAll(c, lines, base, huffman)
    ensures DecodeSection(c, t, data) == Outcome(c, t, lines, base, encoded, delta)
  {
    var start := |EncodeInteger(encoded, 8)| + |EncodeInteger(delta, 7)|;
    AtStart(data);
    AtSplit(data, 0, EncodeInteger(encoded, 8) + EncodeInteger(delta, 7), EmitAll(c, lines, base, huffman));
    PrefixIsRead(data, encoded, delta);
    forall base': int
      ensures ReadLines(c, t, base', data, start, []) == Meanings(c, t, base' - base, lines)
    {
      BodyIsRead(c, t, lines, base, huffman, data, start, base');
    }
    OutcomeOfParts(c, t, lines, base, encoded, delta, data, start);
  }

  /** The strings and numbers a section would need are within what the integer coding carries. */
  ghost predicate Encodable(c: Coding, e: EncoderState, fields: seq<Field>, huffman: bool) {
    && ValidCoding(c) && Ready(e) && AllLowered(fields) && AllCarried(c, fields, huffman)
    && e.table.capacity < BOUND && PlanAll(c, e, fields).1.table.count < BOUND
  }

  /** The number of a field section's Required Insert Count on the wire. */
  function WireCount(t: Numbered, required: nat): nat {
    EncodeCount(required, MaxEntries(t.capacity))
  }

  function Delta(required: nat, base: nat): nat {
    if 0 < required <= base then base - required else 0
  }

  lemma {:induction false} WireCountIsSmall(t: Numbered, required: nat)
    requires t.capacity < BOUND
    ensures WireCount(t, required) < BOUND
  {
  }

  lemma {:induction false} EncodedSection(c: Coding, e: EncoderState, headers: seq<Field>, huffman: bool, t: Option<Numbered>)
    requires Encodable(c, e, Hpack.LowerNames(headers), huffman) && (t.Some? ==> t.value.Sound())
    ensures var (lines, e') := PlanAll(c, e, Hpack.LowerNames(headers));
            var (data, e'') := EncodeSection(c, e, headers, huffman);
            var required, base := Required(lines), e'.table.count;
            e'' == e' && required <= base &&
            DecodeSection(c, t, data) == Outcome(c, t, lines, base, WireCount(e'.table, required), Delta(required, base))
  {
    var fields := Hpack.LowerNames(headers);
    var (lines, e') := PlanAll(c, e, fields);
    var (data, _) := EncodeSection(c, e, headers, huffman);
    var required, base := Required(lines), e'.table.count;
    PlanAllStands(c, e, fields);
    RequiredIsBelow(c, e'.table, lines, fields);
    PlannedLinesFit(c, e, fields, base, huffman);
    WireCountIsSmall(e'.table, required);
    SectionIsRead(c, t, lines, base, WireCount(e'.table, required), Delta(required, base), huffman, data);
  }

  lemma {:induction false} RequiredIsBelow(c: Coding, t: Numbered, lines: seq<Line>, fields: seq<Field>)
    requires t.Sound() && LinesStand(c, t, lines, fields, Required(lines))
    ensures Required(lines) <= t.count
  {
    RequiredCovers(lines);
    if Required(lines) > 0 {
      var i :| 0 <= i < |lines| && lines[i] == DynamicLine(Required(lines) - 1);
      assert LineStands(c, t, lines[i], fields[i], Required(lines));
    }
  }

  lemma {:induction false} LoweredNames(headers: seq<Field>)
    ensures AllLowered(Hpack.LowerNames(headers))
  {
    forall i | 0 <= i < |headers|
      ensures Lowered(Hpack.LowerNames(headers)[i])
    {
      LowerIdempotent(headers[i].name);
    }
  }

  /** The held entries number at most capacity / 32, so a held number is within the window of the wrapped count. */
  lemma {:induction false} HeldCountIsRecovered(t: Numbered, required: nat)
    requires t.Sound() && t.capacity >= ENTRY_OVERHEAD && required > 0 && t.Holds(required - 1)
    ensures DecodeCount(WireCount(t, required), MaxEntries(t.capacity), t.count) == Ok(required)
  {
    SizeCountsEntries(t.entries);
    CountIsResidue(required, MaxEntries(t.capacity), t.count);
  }

  /**
   * Exactly when a section comes back, with the decoder's table the one the encoder ended with:
   * it refers to no entry, or every entry it refers to is still held, and the sign is not
   * misread or the base is the required count anyway.
   */
  lemma {:induction false} SectionComesBackExactly(c: Coding, e: EncoderState, headers: seq<Field>, huffman: bool)
    requires Encodable(c, e, Hpack.LowerNames(headers), huffman)
    ensures var fields := Hpack.LowerNames(headers);
            var (lines, e') := PlanAll(c, e, fields);
            var required := Required(lines);
            DecodeSection(c, Some(e'.table), EncodeSection(c, e, headers, huffman).0) == Ok(fields) <==>
            required == 0 ||
            (AllHeld(e'.table, lines) && (required == e'.table.count || !SignMisread(WireCount(e'.table, required))))
  {
    var fields := Hpack.LowerNames(headers);
    var (lines, e') := PlanAll(c, e, fields);
    EncodedSection(c, e, headers, huffman, Some(e'.table));
    PlanAllStands(c, e, fields);
    OutcomeExactly(c, e'.table, lines, fields);
  }

  lemma {:induction false} OutcomeExactly(c: Coding, t: Numbered, lines: seq<Line>, fields: seq<Field>)
    requires t.Sound() && LinesStand(c, t, lines, fields, Required(lines)) && Required(lines) <= t.count
    requires Required(lines) > 0 ==> t.capacity >= ENTRY_OVERHEAD
    ensures var required, base := Required(lines), t.count;
            Outcome(c, Some(t), lines, base, WireCount(t, required), Delta(required, base)) == Ok(fields) <==>
            required == 0 || (AllHeld(t, lines) && (required == base || !SignMisread(WireCount(t, required))))
  {
    var required, base := Required(lines), t.count;
    var encoded, delta := WireCount(t, required), Delta(required, base);
    forall shift: int
      ensures Meanings(c, Some(t), shift, lines) == Ok(fields) <==> required == 0 || (shift == 0 && AllHeld(t, lines))
    {
      MeaningsExactly(c, t, shift, lines, fields);
    }
    RequiredCovers(lines);
    if required > 0 && AllHeld(t, lines) {
      var i :| 0 <= i < |lines| && lines[i] == DynamicLine(required - 1);
      assert t.Holds(lines[i].absolute);
      HeldCountIsRecovered(t, required);
    }
  }

  /** Below a capacity of 2048 the sign is never misread. */
  lemma {:induction false} SmallTablesKeepTheSign(t: Numbered, required: nat)
    requires t.capacity < 2048
    ensures !SignMisread(WireCount(t, required))
  {
  }

  /** The lines come back from a later table that holds what they refer to, unless the sign is misread. */
  lemma {:induction false} OutcomeLater(c: Coding, t: Numbered, t': Numbered, lines: seq<Line>, fields: seq<Field>)
    requires Later(t, t') && t'.capacity == t.capacity && LinesStand(c, t, lines, fields, Required(lines)) && AllHeld(t', lines)
    requires Required(lines) > 0 ==> t.capacity >= ENTRY_OVERHEAD
    requires Required(lines) <= t.count
    requires Required(lines) == t.count || !SignMisread(WireCount(t, Required(lines)))
    ensures Outcome(c, Some(t'), lines, t.count, WireCount(t, Required(lines)), Delta(Required(lines), t.count)) == Ok(fields)
  {
    var required := Required(lines);
    RequiredCovers(lines);
    if required > 0 {
      var i :| 0 <= i < |lines| && lines[i] == DynamicLine(required - 1);
      assert t'.Holds(lines[i].absolute);
      HeldCountIsRecovered(t', required);
    }
    var base' := BaseOf(required, Delta(required, t.count), SignMisread(WireCount(t, required)));
    LinesMeanLater(c, t, t', lines, fields, base' - t.count);
  }

  /** A section may also be read by a decoder whose table has gone on, as long as it holds what the section refers to. */
  lemma {:induction false} SectionComesBackLater(c: Coding, e: EncoderState, headers: seq<Field>, huffman: bool, t: Numbered)
    requires Encodable(c, e, Hpack.LowerNames(headers), huffman)
    requires var (lines, e') := PlanAll(c, e, Hpack.LowerNames(headers));
             Later(e'.table, t) && t.capacity == e'.table.capacity && AllHeld(t, lines) &&
             (Required(lines) == e'.table.count || !SignMisread(WireCount(e'.table, Required(lines))))
    ensures DecodeSection(c, Some(t), EncodeSection(c, e, headers, huffman).0) == Ok(Hpack.LowerNames(headers))
  {
    var fields := Hpack.LowerNames(headers);
    var (lines, e') := PlanAll(c, e, fields);
    EncodedSection(c, e, headers, huffman, Some(t));
    PlanAllStands(c, e, fields);
    OutcomeLater(c, e'.table, t, lines, fields);
  }

  lemma {:induction false} LinesMeanLater(c: Coding, t: Numbered, t': Numbered, lines: seq<Line>, fields: seq<Field>, shift: int)
    requires Later(t, t') && LinesStand(c, t, lines, fields, Required(lines)) && AllHeld(t', lines)
    requires Required(lines) > 0 ==> shift == 0
    ensures Meanings(c, Some(t'), shift, lines) == Ok(fields)
  {
    RequiredCovers(lines);
    forall i | 0 <= i < |lines|
      ensures Meaning(c, Some(t'), shift, lines[i]) == Ok(fields[i])
    {
      assert LineStands(c, t, lines[i], fields[i], Required(lines));
    }
    MeaningsAre(c, t', shift, lines, fields);
  }

  // The two ways to fail do occur.

  lemma {:induction false} PlanOfNew(c: Coding, e: EncoderState, f: Field)
    requires Ready(e) && StaticExactFrom(c.fixed, f, 0).None? && WorthInserting(e.table, f) && f !in e.table.entries
    ensures PlanOne(c, e, f) == (DynamicLine(e.table.count), EncoderState(e.table.Add(f), e.pending + [InsertionOf(c, f)]))
  {
  }

  lemma {:induction false} PlanOfTwo(c: Coding, e: EncoderState, f: Field, g: Field)
    requires e.table.Sound()
    ensures var (first, e1) := PlanOne(c, e, f);
            var (second, e2) := PlanOne(c, e1, g);
            PlanAll(c, e, [f, g]) == ([first, second], e2)
  {
    var (first, e1) := PlanOne(c, e, f);
    var (second, e2) := PlanOne(c, e1, g);
    assert [f, g][1..] == [g] && [g][1..] == [];
    assert PlanAll(c, e2, []) == ([], e2);
    assert PlanAll(c, e1, [g]) == ([second] + [], e2);
    assert [first] + ([second] + []) == [first, second];
  }

  /** A new encoder with room for one entry or none. */
  const SMALL := EncoderState(Numbered([], 63, 0), [SetCapacity(63)])

  /** A new field that fills the table on its own. */
  lemma {:induction false} InsertedAlone(c: Coding, e: EncoderState, f: Field)
    requires Ready(e) && e.table.capacity == 63 && StaticExactFrom(c.fixed, f, 0).None? && WorthInserting(e.table, f)
    requires f !in e.table.entries
    ensures var (line, e') := PlanOne(c, e, f);
            line == DynamicLine(e.table.count) && Ready(e') && e'.table.entries == [f] &&
            e'.table.count == e.table.count + 1 && e'.table.capacity == 63
  {
    PlanOfNew(c, e, f);
    InsertKeepsDistinct(e.table, f);
    var t := e.table.Add(f);
    SizeCountsEntries(t.entries);
    assert t.Get(e.table.count) == Some(f);
  }

  lemma {:induction false} SecondEvictsFirst(c: Coding, f: Field, g: Field)
    requires StaticExactFrom(c.fixed, f, 0).None? && StaticExactFrom(c.fixed, g, 0).None? && f != g && Ready(SMALL)
    requires WorthInserting(SMALL.table, f) && WorthInserting(SMALL.table, g)
    ensures var (lines, e') := PlanAll(c, SMALL, [f, g]);
            lines == [DynamicLine(0), DynamicLine(1)] && !e'.table.Holds(0)
  {
    InsertedAlone(c, SMALL, f);
    InsertedAlone(c, PlanOne(c, SMALL, f).1, g);
    PlanOfTwo(c, SMALL, f, g);
  }

  /**
   * With room for one entry, the second of two new fields evicts the first, to which the same
   * section refers: the section does not come back, although the decoder has read everything.
   */
  lemma {:induction false} SectionMayEvictItsOwnEntry(c: Coding, f: Field, g: Field, huffman: bool)
    requires Encodable(c, SMALL, Hpack.LowerNames([f, g]), huffman) && Hpack.LowerNames([f, g]) == [f, g] && f != g
    requires StaticExactFrom(c.fixed, f, 0).None? && StaticExactFrom(c.fixed, g, 0).None?
    requires WorthInserting(SMALL.table, f) && WorthInserting(SMALL.table, g)
    ensures DecodeSection(c, Some(PlanAll(c, SMALL, [f, g]).1.table), EncodeSection(c, SMALL, [f, g], huffman).0) != Ok([f, g])
  {
    SectionComesBackExactly(c, SMALL, [f, g], huffman);
    SecondEvictsFirst(c, f, g);
    var (lines, e') := PlanAll(c, SMALL, [f, g]);
    RequiredCovers(lines);
    assert lines[0] == DynamicLine(0) && !e'.table.Holds(lines[0].absolute);
  }

  lemma {:induction false} PlanOfHeld(c: Coding, e: EncoderState, f: Field, a: nat)
    requires Ready(e) && StaticExactFrom(c.fixed, f, 0).None? && e.table.Holds(a) && e.table.Get(a) == Some(f)
    ensures PlanAll(c, e, [f]) == ([DynamicLine(a)], e) && Required([DynamicLine(a)]) == a + 1
  {
    var m := FindNewest(e.table.entries, f);
    assert f in e.table.entries;
    assert e.table.Get(e.table.Dropped() + m.position) == Some(f);
    assert [f][1..] == [] && PlanAll(c, e, []) == ([], e);
    PlannedFirst(DynamicLine(a), []);
    assert [DynamicLine(a)] + [] == [DynamicLine(a)];
  }

  lemma {:induction false} Count127(t: Numbered)
    requires t.capacity == 4096
    ensures WireCount(t, 127) == 128 && SignMisread(128)
  {
  }

  /**
   * With 128 insertions behind a table of 4096 octets, a section that refers to the last but one
   * says count 127 as 128, whose octet is taken for the sign: it does not come back.
   */
  lemma {:induction false} SectionMayLoseItsSign(c: Coding, e: EncoderState, f: Field, huffman: bool)
    requires Encodable(c, e, Hpack.LowerNames([f]), huffman) && Hpack.LowerNames([f]) == [f]
    requires StaticExactFrom(c.fixed, f, 0).None?
    requires e.table.capacity == 4096 && e.table.count == 128 && e.table.Holds(126) && e.table.Get(126) == Some(f)
    ensures DecodeSection(c, Some(e.table), EncodeSection(c, e, [f], huffman).0) != Ok([f])
  {
    PlanOfHeld(c, e, f, 126);
    Count127(e.table);
    SectionComesBackExactly(c, e, [f], huffman);
  }

  // The section coder without a dynamic table.

  lemma {:induction false} StaticLinesMean(c: Coding, t: Option<Numbered>, fields: seq<Field>, shift: int)
    requires AllLowered(fields) && (t.Some? ==> t.value.Sound())
    ensures Meanings(c, t, shift, StaticLines(c, fields)) == Ok(fields)
    decreases |fields|
  {
    if |fields| > 0 {
      StaticLinesMean(c, t, fields[1..], shift);
      assert StaticLines(c, fields)[1..] == StaticLines(c, fields[1..]);
      assert Lowered(fields[0]);
      assert [fields[0]] + fields[1..] == fields;
    }
  }

  /** Sections made without a dynamic table come back for every list of fields, whatever table the decoder has, or none. */
  lemma {:induction false} StaticSectionComesBack(c: Coding, t: Option<Numbered>, headers: seq<Field>, huffman: bool)
    requires ValidCoding(c) && (t.Some? ==> t.value.Sound()) && AllCarried(c, Hpack.LowerNames(headers), huffman)
    ensures DecodeSection(c, t, EncodeStaticSection(c, headers, huffman)) == Ok(Hpack.LowerNames(headers))
  {
    var fields := Hpack.LowerNames(headers);
    var lines := StaticLines(c, fields);
    LoweredNames(headers);
    StaticLinesMean(c, t, fields, 0);
    SectionIsRead(c, t, lines, 0, 0, 0, huffman, EncodeStaticSection(c, headers, huffman));
  }
}
