/** When a header block leaves the table as it was. */
module HpackTurnover {
  import opened Wrappers
  import opened Octets
  import opened HpackTable
  import opened StaticTable
  import opened Hpack
  import HpackStatic

  // Eviction of concatenations.

  lemma {:induction false} SizeOfAppend(a: seq<Field>, b: seq<Field>)
    ensures SizeOf(a + b) == SizeOf(a) + SizeOf(b)
    decreases |b|
  {
    SizeOfUnfolds(b);
    if |b| == 0 {
      assert a + b == a;
    } else {
      SizeOfAppend(a, b[..|b| - 1]);
      SizeOfUnfolds(a + b);
      assert (a + b)[..|a + b| - 1] == a + b[..|b| - 1];
    }
  }

  lemma {:induction false} FitOfPrefix(entries: seq<Field>, n: nat, maxSize: nat)
    requires |Fit(entries, maxSize)| <= n <= |entries|
    ensures Fit(entries[..n], maxSize) == Fit(entries, maxSize)
  {
    var fit, some := Fit(entries, maxSize), Fit(entries[..n], maxSize);
    FitKeepsLongestPrefix(entries, maxSize);
    FitKeepsLongestPrefix(entries[..n], maxSize);
    assert entries[..n][..|fit|] == entries[..|fit|] == fit;
    assert entries[..n][..|some|] == entries[..|some|] == some;
  }

  lemma {:induction false} FitOfFit(a: seq<Field>, b: seq<Field>, maxSize: nat)
    ensures Fit(a + Fit(b, maxSize), maxSize) == Fit(a + b, maxSize)
  {
    var all, kept := a + b, Fit(b, maxSize);
    var fit := Fit(all, maxSize);
    FitKeepsLongestPrefix(all, maxSize);
    FitKeepsLongestPrefix(b, maxSize);
    if |fit| > |a| + |kept| {
      var j := |fit| - |a|;
      assert fit == all[..|fit|] == a + b[..j];
      SizeOfAppend(a, b[..j]);
    }
    FitOfPrefix(all, |a| + |kept|, maxSize);
    assert all[..|a| + |kept|] == a + kept;
  }

  lemma {:induction false} AddIsFit(t: Table, f: Field)
    ensures t.Add(f).entries == Fit([f] + t.entries, t.maxSize)
  {
    var entries := [f] + t.entries;
    FitKeepsLongestPrefix(entries, t.maxSize);
    var fit := Fit(entries, t.maxSize);
    if |fit| > 0 {
      assert fit[..1] == [f];
      SizeOfLonger(fit, 1);
      OneEntry(f);
    }
  }

  // What a block inserts.

  /** The encoder inserts the field into the table. */
  predicate Inserts(c: Coding, t: Table, f: Field) {
    StaticExact(c, f).None? && f !in t.entries && !NeverIndex(f.name)
  }

  lemma {:induction false} TableAfterField(c: Coding, t: Table, f: Field, huffman: bool)
    requires Usable(c)
    ensures EncodeField(c, t, f, huffman).1 == if Inserts(c, t, f) then t.Add(f) else t
  {
    assert IsFirstMatch(t.entries, f, Find(t.entries, f));
  }

  /** The fields of a block that are inserted, the newest first. */
  function Inserted(c: Coding, t: Table, fields: seq<Field>): seq<Field>
    decreases |fields|
  {
    if |fields| == 0 then []
    else if Inserts(c, t, fields[0]) then Inserted(c, t.Add(fields[0]), fields[1..]) + [fields[0]]
    else Inserted(c, t, fields[1..])
  }

  /** The table behind a block is what eviction leaves of the inserted fields in front of the old ones. */
  lemma {:induction false} TableBehindFields(c: Coding, t: Table, fields: seq<Field>, huffman: bool)
    requires Usable(c) && t.Within()
    ensures EncodeFields(c, t, fields, huffman).1 == Table(Fit(Inserted(c, t, fields) + t.entries, t.maxSize), t.maxSize)
    decreases |fields|
  {
    if |fields| == 0 {
      assert [] + t.entries == t.entries;
    } else {
      var f, t1 := fields[0], EncodeField(c, t, fields[0], huffman).1;
      TableAfterField(c, t, f, huffman);
      TableBehindFields(c, t1, fields[1..], huffman);
      if Inserts(c, t, f) {
        var later := Inserted(c, t1, fields[1..]);
        AddIsFit(t, f);
        FitOfFit(later, [f] + t.entries, t.maxSize);
        assert later + ([f] + t.entries) == (later + [f]) + t.entries;
      }
    }
  }

  lemma {:induction false} FirstInsertedIsNew(c: Coding, t: Table, fields: seq<Field>)
    requires Inserted(c, t, fields) != []
    ensures var all := Inserted(c, t, fields); all[|all| - 1] !in t.entries
    decreases |fields|
  {
    if !Inserts(c, t, fields[0]) {
      FirstInsertedIsNew(c, t, fields[1..]);
    }
  }

  /** Nothing is inserted exactly when no field on its own would be, by the table as it is. */
  lemma {:induction false} NothingInserted(c: Coding, t: Table, fields: seq<Field>)
    ensures Inserted(c, t, fields) == [] <==> forall i :: 0 <= i < |fields| ==> !Inserts(c, t, fields[i])
    decreases |fields|
  {
    if |fields| > 0 && !Inserts(c, t, fields[0]) {
      NothingInserted(c, t, fields[1..]);
      assert forall i :: 0 < i < |fields| ==> fields[i] == fields[1..][i - 1];
      assert forall i :: 0 <= i < |fields| - 1 ==> fields[1..][i] == fields[i + 1];
    }
  }

  lemma {:induction false} InsertedAreSome(c: Coding, t: Table, fields: seq<Field>)
    ensures SizeOf(Inserted(c, t, fields)) <= SizeOf(fields)
    decreases |fields|
  {
    if |fields| > 0 {
      var f, rest := fields[0], fields[1..];
      SizeOfCons(f, rest);
      assert fields == [f] + rest;
      if Inserts(c, t, f) {
        InsertedAreSome(c, t.Add(f), rest);
        SizeOfAppend(Inserted(c, t.Add(f), rest), [f]);
        SizeOfCons(f, []);
        assert [f] + [] == [f];
        SizeOfUnfolds([]);
      } else {
        InsertedAreSome(c, t, rest);
      }
    }
  }

  // When the table stays.

  /** Nothing is inserted, or what is inserted drives everything out and spells the old table again. */
  predicate Restores(c: Coding, t: Table, fields: seq<Field>) {
    var inserted := Inserted(c, t, fields);
    inserted == [] || (SizeOf(inserted) > t.maxSize && Fit(inserted, t.maxSize) == t.entries)
  }

  lemma {:induction false} FieldsKeepTableExactly(c: Coding, t: Table, fields: seq<Field>, huffman: bool)
    requires Usable(c) && t.Within()
    ensures EncodeFields(c, t, fields, huffman).1 == t <==> Restores(c, t, fields)
  {
    var inserted := Inserted(c, t, fields);
    var all := inserted + t.entries;
    TableBehindFields(c, t, fields, huffman);
    FitKeepsLongestPrefix(all, t.maxSize);
    assert all[..|inserted|] == inserted;
    if inserted == [] {
      assert all == t.entries;
    } else if SizeOf(inserted) <= t.maxSize {
      FirstInsertedIsNew(c, t, fields);
      var fit := Fit(all, t.maxSize);
      assert |fit| >= |inserted| && fit[|inserted| - 1] == inserted[|inserted| - 1];
    } else {
      InsertedFillTable(t, inserted);
    }
  }

  lemma {:induction false} InsertedFillTable(t: Table, inserted: seq<Field>)
    requires SizeOf(inserted) > t.maxSize
    ensures Fit(inserted + t.entries, t.maxSize) == Fit(inserted, t.maxSize)
  {
    var all := inserted + t.entries;
    var fit := Fit(all, t.maxSize);
    FitKeepsLongestPrefix(all, t.maxSize);
    if |fit| > |inserted| {
      assert fit[..|inserted|] == inserted;
      SizeOfLonger(fit, |inserted|);
    }
    FitOfPrefix(all, |inserted|, t.maxSize);
    assert all[..|inserted|] == inserted;
  }

  /** No size update is queued, or one that changes nothing. */
  predicate SizeStands(e: EncoderState) {
    e.pending == None || e.pending == Some(e.table.maxSize)
  }

  /** A block leaves the table as it was exactly when no new size is queued and its fields restore it. */
  lemma {:induction false} BlockKeepsTableExactly(c: Coding, e: EncoderState, headers: seq<Field>, huffman: bool)
    requires Usable(c) && e.table.Within()
    ensures EncodeBlock(c, e, headers, huffman).1.table == e.table <==> SizeStands(e) && Restores(c, e.table, LowerNames(headers))
  {
    var t := Resized(e);
    TableBehindFields(c, t, LowerNames(headers), huffman);
    FieldsKeepTableExactly(c, t, LowerNames(headers), huffman);
  }

  /** When all the fields would fit the table together, it is exactly when none of them is new. */
  lemma {:induction false} SmallBlockKeepsTableExactly(c: Coding, e: EncoderState, headers: seq<Field>, huffman: bool)
    requires Usable(c) && e.table.Within() && SizeOf(LowerNames(headers)) <= e.table.maxSize
    ensures EncodeBlock(c, e, headers, huffman).1.table == e.table <==>
            SizeStands(e) && forall i :: 0 <= i < |headers| ==> !Inserts(c, e.table, LowerNames(headers)[i])
  {
    BlockKeepsTableExactly(c, e, headers, huffman);
    NothingInserted(c, e.table, LowerNames(headers));
    InsertedAreSome(c, e.table, LowerNames(headers));
  }

  /** A field that is known, never indexed, or too large for a table that is empty anyway. */
  predicate Quiet(c: Coding, t: Table, f: Field) {
    !Inserts(c, t, f) || (t.entries == [] && EntrySize(f) > t.maxSize)
  }

  /** Quiet fields leave any table as it was. */
  lemma {:induction false} QuietFieldsKeepTable(c: Coding, t: Table, fields: seq<Field>, huffman: bool)
    requires Usable(c) && forall i :: 0 <= i < |fields| ==> Quiet(c, t, fields[i])
    ensures EncodeFields(c, t, fields, huffman).1 == t
    decreases |fields|
  {
    if |fields| > 0 {
      assert Quiet(c, t, fields[0]);
      TableAfterField(c, t, fields[0], huffman);
      QuietFieldsKeepTable(c, t, fields[1..], huffman);
    }
  }

  /**
   * Fields need not be quiet: with room for one entry, which is `a`, sending `b` and `a` inserts
   * both and ends with `a` alone again.
   */
  lemma {:induction false} TurnoverRestores(c: Coding, a: Field, b: Field, huffman: bool)
    requires Usable(c) && a != b && EntrySize(a) == EntrySize(b)
    requires StaticExact(c, a).None? && StaticExact(c, b).None? && !NeverIndex(a.name) && !NeverIndex(b.name)
    ensures var t := Table([a], EntrySize(a));
            !Quiet(c, t, b) && Inserted(c, t, [b, a]) == [a, b] && EncodeFields(c, t, [b, a], huffman).1 == t
  {
    var t, u := Table([a], EntrySize(a)), Table([b], EntrySize(a));
    OneEntry(a);
    OneEntry(b);
    NextEntryEvicts(a, b);
    NextEntryEvicts(b, a);
    assert t.Add(b) == u && u.Add(a) == t;
    assert [b, a][1..] == [a] && [a][1..] == [];
    assert Inserted(c, u, [a]) == [a] by {
      assert Inserted(c, t, []) == [];
    }
    FieldsKeepTableExactly(c, t, [b, a], huffman);
    SizeOfCons(a, [b]);
    assert [a] + [b] == [a, b];
  }

  /** So it is with the standard coding and fields named "x" and "y". */
  lemma {:induction false} KnownFieldsAreNotNeeded(huffman: bool)
    ensures var c, t := HpackStatic.HpackCoding(), Table([Field(Ascii("x"), [])], 33);
            !Quiet(c, t, Field(Ascii("y"), [])) &&
            EncodeFields(c, t, [Field(Ascii("y"), []), Field(Ascii("x"), [])], huffman).1 == t
  {
    var a, b := Field(Ascii("x"), []), Field(Ascii("y"), []);
    assert a.name[0] != b.name[0];
    HpackStatic.ShortNamesAreNew(a);
    HpackStatic.ShortNamesAreNew(b);
    ShortNamesAreIndexed(a.name);
    ShortNamesAreIndexed(b.name);
    TurnoverRestores(HpackStatic.HpackCoding(), a, b, huffman);
  }

  lemma {:induction false} OneEntry(a: Field)
    ensures SizeOf([a]) == EntrySize(a)
  {
    SizeOfCons(a, []);
    SizeOfUnfolds([]);
    assert [a] + [] == [a];
  }

  lemma {:induction false} NextEntryEvicts(a: Field, b: Field)
    requires EntrySize(a) == EntrySize(b)
    ensures Fit([b] + [a], EntrySize(a)) == [b] == Fit([b, a], EntrySize(a))
  {
    OneEntry(a);
    OneEntry(b);
    SizeOfCons(b, [a]);
    assert ([b] + [a])[..1] == [b] && [b] + [a] == [b, a];
  }
}
