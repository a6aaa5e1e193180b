/** The two ways in which a QPACK section fails to come back do occur, with new peers and the standard tables. */
module QpackMishaps {
  import opened Wrappers
  import opened Octets
  import opened HpackTable
  import opened StaticTable
  import opened QpackTable
  import opened Qpack
  import opened QpackRoundTrip
  import opened QpackRun
  import opened QpackStatic
  import Hpack

  /** The field "x" with one octet for its value: in no static entry, and lower-case. */
  function Small(value: Octet): Field {
    Field(Ascii("x"), [value])
  }

  /** A coding that has none of these fields. */
  ghost predicate Leaves(c: Coding) {
    ValidCoding(c) && forall value: Octet :: StaticExactFrom(c.fixed, Small(value), 0).None?
  }

  lemma {:induction false} QpackLeaves()
    ensures Leaves(QpackCoding())
  {
    QpackCodingIsValid();
    forall value: Octet
      ensures StaticExactFrom(QpackCoding().fixed, Small(value), 0).None?
    {
      ShortNamesAreNew(Small(value));
    }
  }

  lemma {:induction false} SmallIsPlain(value: Octet)
    ensures Hpack.LowerName(Small(value)) == Small(value) && Lowered(Small(value)) && !NeverIndex(Small(value).name)
    ensures EntrySize(Small(value)) == 34
  {
    ShortNamesAreIndexed(Small(value).name);
    assert Lower(Small(value).name) == Small(value).name;
  }

  lemma {:induction false} SmallIsCarried(c: Coding, values: seq<Octet>, fields: seq<Field>)
    requires |fields| == |values| && forall i :: 0 <= i < |fields| ==> fields[i] == Small(values[i])
    ensures AllCarried(c, fields, false) && AllCarried(c, fields, true) && Hpack.LowerNames(fields) == fields
  {
    forall i | 0 <= i < |fields|
      ensures Hpack.LowerName(fields[i]) == fields[i]
    {
      SmallIsPlain(values[i]);
    }
  }

  function NewWorld(capacity: nat): World {
    World(NewEncoder(capacity), Numbered([], 0, 0), [])
  }

  /** What an exchange of fields in lower case comes to. */
  ghost predicate Exchanged(c: Coding, w: World, fields: seq<Field>, lines: seq<Line>, t: Numbered, w': World)
    requires t.Sound()
  {
    InStep(c, w'.decoder, w'.encoder) && w'.encoder.table == w'.decoder == t &&
    |w'.answers| == |w.answers| + 1 && w'.answers[..|w.answers|] == w.answers &&
    (w'.answers[|w.answers|] == Ok(fields) <==>
       Required(lines) == 0 || (AllHeld(t, lines) && (Required(lines) == t.count || !SignMisread(WireCount(t, Required(lines))))))
  }

  lemma {:induction false} ExchangeIs(c: Coding, w: World, fields: seq<Field>, lines: seq<Line>, e: EncoderState)
    requires ValidCoding(c) && Sound(w) && InStep(c, w.decoder, w.encoder) && Hpack.LowerNames(fields) == fields
    requires PlanAll(c, w.encoder, fields) == (lines, e) && e.table.count < BOUND
    requires AllCarried(c, fields, false) && AllCarried(c, fields, true)
    ensures e.table.Sound() && Exchanged(c, w, fields, lines, e.table, Next(c, w, Exchange(fields, false)))
  {
    ExchangeInStep(c, w, fields, false);
  }

  // A section that evicts its own entry.

  lemma {:induction false} OwnEntryLost(c: Coding, capacity: nat, f: Field, g: Field)
    requires ValidCoding(c) && capacity == 63 && f != g && Hpack.LowerNames([f, g]) == [f, g]
    requires StaticExactFrom(c.fixed, f, 0).None? && StaticExactFrom(c.fixed, g, 0).None?
    requires WorthInserting(SMALL.table, f) && WorthInserting(SMALL.table, g)
    requires AllCarried(c, [f, g], false) && AllCarried(c, [f, g], true)
    ensures Sound(NewWorld(capacity))
    ensures var w := Next(c, NewWorld(capacity), Exchange([f, g], false));
            w.decoder == w.encoder.table && |w.answers| == 1 && w.answers[0] != Ok([f, g])
  {
    SizeOfUnfolds([]);
    NewPeersAreInStep(c, capacity);
    var lines, e := OwnEntryEvicted(c, f, g);
    ExchangeIs(c, NewWorld(capacity), [f, g], lines, e);
  }

  lemma {:induction false} OwnEntryEvicted(c: Coding, f: Field, g: Field) returns (lines: seq<Line>, e: EncoderState)
    requires StaticExactFrom(c.fixed, f, 0).None? && StaticExactFrom(c.fixed, g, 0).None? && f != g && Ready(SMALL)
    requires WorthInserting(SMALL.table, f) && WorthInserting(SMALL.table, g)
    ensures PlanAll(c, SMALL, [f, g]) == (lines, e) && e.table.Sound() && e.table.count <= 2
    ensures Required(lines) > 0 && !AllHeld(e.table, lines)
  {
    lines, e := PlanAll(c, SMALL, [f, g]).0, PlanAll(c, SMALL, [f, g]).1;
    SecondEvictsFirst(c, f, g);
    TwoInsertions(c, f, g);
    RequiredCovers(lines);
    assert lines[0] == DynamicLine(0) && !e.table.Holds(lines[0].absolute);
  }

  lemma {:induction false} TwoInsertions(c: Coding, f: Field, g: Field)
    requires Ready(SMALL)
    ensures PlanAll(c, SMALL, [f, g]).1.table.count <= 2
  {
    PlanOfTwo(c, SMALL, f, g);
    OneInsertion(c, SMALL, f);
    OneInsertion(c, PlanOne(c, SMALL, f).1, g);
  }

  lemma {:induction false} OneInsertion(c: Coding, e: EncoderState, f: Field)
    requires e.table.Sound()
    ensures PlanOne(c, e, f).1.table.count <= e.table.count + 1
  {
  }

  // A section whose sign is misread.

  /** After `n` insertions the table holds the latest two at least, each under its number. */
  ghost predicate Filled(t: Numbered, n: nat) {
    n <= 256 && t.Sound() && t.capacity == 4096 && t.count == n &&
    (n > 0 ==> t.Holds(n - 1)) && (n > 1 ==> t.Holds(n - 2)) && Orderly(t)
  }

  ghost predicate Orderly(t: Numbered) {
    t.Sound() && t.count <= 256 && forall a: nat :: t.Holds(a) ==> t.Get(a) == Some(Small(a))
  }

  lemma {:induction false} FillOne(t: Numbered, n: nat)
    requires Filled(t, n) && n < 256
    ensures t.Fits(Small(n)) && Small(n) !in t.entries && Filled(t.Add(Small(n)), n + 1)
  {
    var f, t' := Small(n), t.Add(Small(n));
    SmallIsPlain(n);
    NotYetIn(t, n);
    StaysOrderly(t);
    KeepsTwo(t, f);
  }

  lemma {:induction false} StaysOrderly(t: Numbered)
    requires Orderly(t) && t.count < 256 && t.Fits(Small(t.count))
    ensures Orderly(t.Add(Small(t.count))) && t.Add(Small(t.count)).count == t.count + 1
  {
    var t' := t.Add(Small(t.count));
    AddNumbers(t, Small(t.count));
    forall a: nat | t'.Holds(a)
      ensures t'.Get(a) == Some(Small(a))
    {
      assert a != t.count ==> t.Holds(a) && t'.Get(a) == t.Get(a);
    }
  }

  lemma {:induction false} NotYetIn(t: Numbered, n: nat)
    requires Filled(t, n) && n < 256
    ensures Small(n) !in t.entries
  {
    forall i | 0 <= i < |t.entries|
      ensures t.entries[i] != Small(n)
    {
      var a := t.Dropped() + i;
      assert t.Holds(a) && t.Get(a) == Some(t.entries[i]);
      assert Small(a).value[0] != Small(n).value[0];
    }
  }

  lemma {:induction false} KeepsTwo(t: Numbered, f: Field)
    requires t.Sound() && t.capacity == 4096 && EntrySize(f) == 34
    requires t.count > 0 ==> t.Holds(t.count - 1) && EntrySize(t.Get(t.count - 1).value) == 34
    ensures t.Add(f).Holds(t.count) && (t.count > 0 ==> t.Add(f).Holds(t.count - 1))
  {
    var all := t.entries + [f];
    var k := if t.count > 0 then |all| - 2 else |all| - 1;
    if t.count > 0 {
      assert all[k..] == [t.entries[|t.entries| - 1]] + [f];
      SizeOfCons(t.entries[|t.entries| - 1], [f]);
    } else {
      assert all[k..] == [f];
    }
    SizeOfUnfolds([]);
    SizeOfCons(f, []);
    assert [f] + [] == [f];
    FitFrontKeepsNewest(all, 4096, k);
  }

  function Singles(from: nat, n: nat): seq<Event>
    requires from <= n <= 256
    decreases n - from
  {
    if from == n then [] else [Exchange([Small(from)], false)] + Singles(from + 1, n)
  }

  lemma {:induction false} OneSingle(c: Coding, w: World, n: nat)
    requires Leaves(c) && n < 256 && InStep(c, w.decoder, w.encoder) && Filled(w.encoder.table, n) && Sound(w)
    ensures var w' := Next(c, w, Exchange([Small(n)], false));
            InStep(c, w'.decoder, w'.encoder) && Filled(w'.encoder.table, n + 1) && w'.answers == w.answers + [Ok([Small(n)])]
  {
    SmallIsPlain(n);
    SmallIsCarried(c, [n], [Small(n)]);
    FillOne(w.encoder.table, n);
    NewFieldComesBack(c, w, Small(n));
  }

  /** A section of one new field refers to the last entry alone, so that its sign does not matter. */
  lemma {:induction false} NewFieldComesBack(c: Coding, w: World, f: Field)
    requires ValidCoding(c) && InStep(c, w.decoder, w.encoder) && Sound(w) && w.encoder.table.count < 256
    requires Hpack.LowerName(f) == f && AllCarried(c, [f], false) && AllCarried(c, [f], true)
    requires StaticExactFrom(c.fixed, f, 0).None? && WorthInserting(w.encoder.table, f) && f !in w.encoder.table.entries
    ensures var w' := Next(c, w, Exchange([f], false));
            InStep(c, w'.decoder, w'.encoder) && w'.encoder.table == w.encoder.table.Add(f) && w'.answers == w.answers + [Ok([f])]
  {
    var n := w.encoder.table.count;
    assert Hpack.LowerNames([f]) == [f];
    var e := PlanOfOne(c, w.encoder, f);
    InsertKeepsDistinct(w.encoder.table, f);
    ExchangeIs(c, w, [f], [DynamicLine(n)], e);
    var answers := Next(c, w, Exchange([f], false)).answers;
    assert answers == answers[..|w.answers|] + [answers[|w.answers|]];
  }

  lemma {:induction false} PlanOfOne(c: Coding, e: EncoderState, f: Field) returns (e': EncoderState)
    requires Ready(e) && StaticExactFrom(c.fixed, f, 0).None? && WorthInserting(e.table, f) && f !in e.table.entries
    ensures PlanAll(c, e, [f]) == ([DynamicLine(e.table.count)], e') && e'.table == e.table.Add(f)
    ensures Required([DynamicLine(e.table.count)]) == e.table.count + 1
  {
    PlannedFirst(DynamicLine(e.table.count), []);
    PlanOfNew(c, e, f);
    e' := PlanOne(c, e, f).1;
    assert [f][1..] == [] && PlanAll(c, e', []) == ([], e');
    assert [DynamicLine(e.table.count)] + [] == [DynamicLine(e.table.count)];
  }

  lemma {:induction false} ManySingles(c: Coding, w: World, from: nat, n: nat)
    requires Leaves(c) && from <= n <= 256 && InStep(c, w.decoder, w.encoder) && Filled(w.encoder.table, from) && Sound(w)
    requires |w.answers| == from && forall i :: 0 <= i < from ==> w.answers[i] == Ok([Small(i)])
    ensures var w' := Run(c, w, Singles(from, n));
            InStep(c, w'.decoder, w'.encoder) && Filled(w'.encoder.table, n) &&
            |w'.answers| == n && forall i :: 0 <= i < n ==> w'.answers[i] == Ok([Small(i)])
    decreases n - from
  {
    if from < n {
      OneSingle(c, w, from);
      ManySingles(c, Next(c, w, Exchange([Small(from)], false)), from + 1, n);
      assert Singles(from, n)[1..] == Singles(from + 1, n);
    }
  }

  lemma {:induction false} LastButOneLost(c: Coding, capacity: nat, n: nat)
    requires Leaves(c) && capacity == 4096 && n == 128
    ensures Sound(NewWorld(capacity))
    ensures var w := Run(c, NewWorld(capacity), Singles(0, n));
            var w' := Next(c, w, Exchange([Small(n - 2)], false));
            |w'.answers| == n + 1 && (forall i :: 0 <= i < n ==> w'.answers[i] == Ok([Small(i)])) &&
            w'.decoder == w'.encoder.table && w'.answers[n] != Ok([Small(n - 2)])
  {
    SizeOfUnfolds([]);
    NewPeersAreInStep(c, capacity);
    ManySingles(c, NewWorld(capacity), 0, n);
    RepeatIsLost(c, Run(c, NewWorld(capacity), Singles(0, n)), n);
  }

  lemma {:induction false} RepeatIsLost(c: Coding, w: World, n: nat)
    requires Leaves(c) && n == 128 && InStep(c, w.decoder, w.encoder) && Filled(w.encoder.table, n) && Sound(w)
    requires |w.answers| == n
    ensures var w' := Next(c, w, Exchange([Small(n - 2)], false));
            |w'.answers| == n + 1 && w'.answers[..n] == w.answers && w'.decoder == w'.encoder.table && w'.answers[n] != Ok([Small(n - 2)])
  {
    var f := Small(n - 2);
    SmallIsCarried(c, [n - 2], [f]);
    PlanOfHeld(c, w.encoder, f, n - 2);
    Count127(w.encoder.table);
    ExchangeIs(c, w, [f], [DynamicLine(n - 2)], w.encoder);
  }

  /**
   * With the standard tables and room for one entry, a section of two new fields is lost; with
   * 4096 octets, 128 requests come back and the next, for the last but one field, does not.
   */
  lemma {:induction false} SectionsAreLost(small: nat, large: nat, n: nat)
    requires small == 63 && large == 4096 && n == 128
    ensures Sound(NewWorld(small)) && Sound(NewWorld(large))
    ensures var w := Next(QpackCoding(), NewWorld(small), Exchange([Small(0), Small(1)], false));
            w.decoder == w.encoder.table && |w.answers| == 1 && w.answers[0] != Ok([Small(0), Small(1)])
    ensures var w := Next(QpackCoding(), Run(QpackCoding(), NewWorld(large), Singles(0, n)), Exchange([Small(n - 2)], false));
            w.decoder == w.encoder.table && |w.answers| == n + 1 &&
            (forall i :: 0 <= i < n ==> w.answers[i] == Ok([Small(i)])) && w.answers[n] != Ok([Small(n - 2)])
  {
    QpackLeaves();
    SmallIsPlain(0);
    SmallIsPlain(1);
    SmallIsCarried(QpackCoding(), [0, 1], [Small(0), Small(1)]);
    assert Small(0).value[0] != Small(1).value[0];
    OwnEntryLost(QpackCoding(), small, Small(0), Small(1));
    LastButOneLost(QpackCoding(), large, n);
  }
}
