/** Header fields and the dynamic table of HPACK: sections 2.3.2 and 4 of RFC 7541. */
module HpackTable {
  import opened Wrappers
  import opened Octets

  datatype Field = Field(name: Bytes, value: Bytes)

  const ENTRY_OVERHEAD := 32

  function EntrySize(f: Field): nat {
    |f.name| + |f.value| + ENTRY_OVERHEAD
  }

  /** As with Octets.At, the folds keep the recursion out of sight until it is asked for. */
  function SizeOf(entries: seq<Field>, folds: nat := 2): nat
    decreases |entries|, folds
  {
    if folds > 0 then SizeOf(entries, folds - 1)
    else if |entries| == 0 then 0
    else SizeOf(entries[..|entries| - 1]) + EntrySize(entries[|entries| - 1])
  }

  lemma {:induction false} SizeOfUnfolds(entries: seq<Field>)
    ensures SizeOf(entries) ==
            if |entries| == 0 then 0 else SizeOf(entries[..|entries| - 1]) + EntrySize(entries[|entries| - 1])
  {
    assert SizeOf(entries, 1) == SizeOf(entries, 0);
  }

  /** What eviction from the end leaves of `entries`, newest first. */
  function Fit(entries: seq<Field>, maxSize: nat): (kept: seq<Field>)
    ensures SizeOf(kept) <= maxSize
  {
    SizeOfUnfolds(entries);
    if SizeOf(entries) <= maxSize then entries else Fit(entries[..|entries| - 1], maxSize)
  }

  lemma {:induction false} SizeOfCons(f: Field, entries: seq<Field>)
    ensures SizeOf([f] + entries) == EntrySize(f) + SizeOf(entries)
  {
    SizeOfUnfolds(entries);
    SizeOfUnfolds([f] + entries);
    if |entries| == 0 {
      SizeOfUnfolds([]);
      assert ([f] + entries)[..0] == [];
    } else {
      SizeOfCons(f, entries[..|entries| - 1]);
      assert ([f] + entries)[..|entries|] == [f] + entries[..|entries| - 1];
    }
  }

  lemma {:induction false} SizeCountsEntries(entries: seq<Field>)
    ensures ENTRY_OVERHEAD * |entries| <= SizeOf(entries)
  {
    SizeOfUnfolds(entries);
    if |entries| > 0 {
      SizeCountsEntries(entries[..|entries| - 1]);
    }
  }

  lemma {:induction false} SizeOfLonger(entries: seq<Field>, k: nat)
    requires k <= |entries|
    ensures SizeOf(entries[..k]) <= SizeOf(entries)
  {
    SizeOfUnfolds(entries);
    if k < |entries| {
      SizeOfLonger(entries[..|entries| - 1], k);
      assert entries[..|entries| - 1][..k] == entries[..k];
    } else {
      assert entries[..k] == entries;
    }
  }

  /** Eviction keeps the longest run of newest entries that fits. */
  lemma {:induction false} FitKeepsLongestPrefix(entries: seq<Field>, maxSize: nat)
    ensures Fit(entries, maxSize) <= entries
    ensures forall k :: |Fit(entries, maxSize)| < k <= |entries| ==> SizeOf(entries[..k]) > maxSize
  {
    SizeOfUnfolds(entries);
    if SizeOf(entries) > maxSize {
      var shorter := entries[..|entries| - 1];
      FitKeepsLongestPrefix(shorter, maxSize);
      assert entries[..|entries|] == entries;
      assert forall k :: 0 <= k <= |shorter| ==> shorter[..k] == entries[..k];
    }
  }

  /** The state of a table as a value. */
  datatype Table = Table(entries: seq<Field>, maxSize: nat) {
    predicate Within() {
      SizeOf(entries) <= maxSize
    }

    function Resize(size: nat): (t: Table)
      ensures t.Within()
    {
      Table(Fit(entries, size), size)
    }

    /** Section 4.4: an oversized insert empties the table instead. */
    function Add(f: Field): (t: Table)
      ensures t.Within() && t.maxSize == maxSize
    {
      if EntrySize(f) > maxSize then Table([], maxSize) else Table(Fit([f] + entries, maxSize), maxSize)
    }
  }

  /** An insert that is not oversized is never evicted by itself. */
  lemma {:induction false} AddKeepsNewEntry(t: Table, f: Field)
    requires EntrySize(f) <= t.maxSize
    ensures var after := t.Add(f).entries;
            |after| > 0 && after[0] == f && after[1..] <= t.entries
  {
    var entries := [f] + t.entries;
    FitKeepsLongestPrefix(entries, t.maxSize);
    SizeOfCons(f, []);
    assert entries[..1] == [f] + [];
    var after := t.Add(f).entries;
    assert |after| >= 1;
    assert after[1..] == entries[1..|after|] && entries[1..] == t.entries;
  }

  datatype Match = Exact(position: nat) | NameOnly(position: nat) | NoMatch

  /** One-based position of the first exact match, or else of the first entry with the name. */
  ghost predicate IsFirstMatch(entries: seq<Field>, f: Field, m: Match) {
    match m
    case Exact(p) => 1 <= p <= |entries| && entries[p - 1] == f && forall q :: 0 <= q < p - 1 ==> entries[q] != f
    case NameOnly(p) =>
      1 <= p <= |entries| && entries[p - 1].name == f.name && f !in entries &&
      forall q :: 0 <= q < p - 1 ==> entries[q].name != f.name
    case NoMatch => forall q :: 0 <= q < |entries| ==> entries[q].name != f.name
  }

  function Find(entries: seq<Field>, f: Field): (m: Match)
    ensures IsFirstMatch(entries, f, m)
  {
    FindFrom(entries, f, 0, NoMatch)
  }

  function FindFrom(entries: seq<Field>, f: Field, from: nat, named: Match): (m: Match)
    requires from <= |entries| && f !in entries[..from] && !named.Exact?
    requires named.NameOnly? ==> IsFirstMatch(entries[..from], f, named)
    requires named.NoMatch? ==> forall q :: 0 <= q < from ==> entries[q].name != f.name
    ensures IsFirstMatch(entries, f, m)
    decreases |entries| - from
  {
    if from == |entries| then
      assert entries[..from] == entries;
      named
    else if entries[from] == f then Exact(from + 1)
    else
      assert entries[..from + 1] == entries[..from] + [entries[from]];
      if named.NoMatch? && entries[from].name == f.name then FindFrom(entries, f, from + 1, NameOnly(from + 1))
      else FindFrom(entries, f, from + 1, named)
  }

  lemma {:induction false} MatchIsUnique(entries: seq<Field>, f: Field, m: Match, n: Match)
    requires IsFirstMatch(entries, f, m) && IsFirstMatch(entries, f, n)
    ensures m == n
  {
    if m.Exact? && n.Exact? {
      assert entries[m.position - 1] == entries[n.position - 1] == f;
    }
    if m.Exact? {
      assert entries[m.position - 1] in entries;
    }
    if n.Exact? {
      assert entries[n.position - 1] in entries;
    }
  }

  /** The table of one peer, changed in place. */
  class DynamicTable {
    var entries: seq<Field>
    var size: nat
    var maxSize: nat

    ghost predicate Valid()
      reads this
    {
      size == SizeOf(entries)
    }

    ghost function Value(): Table
      reads this
    {
      Table(entries, maxSize)
    }

    constructor (maxSize: nat)
      ensures Valid() && Value() == Table([], maxSize)
    {
      this.entries, this.size, this.maxSize := [], 0, maxSize;
    }

    method Evict()
      requires Valid()
      modifies this`entries, this`size
      ensures Valid() && entries == Fit(old(entries), maxSize)
    {
      while size > maxSize && |entries| > 0
        invariant Valid() && Fit(entries, maxSize) == Fit(old(entries), maxSize)
        decreases |entries|
      {
        SizeOfUnfolds(entries);
        var last := entries[|entries| - 1];
        entries := entries[..|entries| - 1];
        size := size - EntrySize(last);
      }
      SizeOfUnfolds(entries);
    }

    method SetMaxSize(value: nat)
      requires Valid()
      modifies this
      ensures Valid() && Value() == old(Value()).Resize(value)
    {
      maxSize := value;
      Evict();
    }

    method Add(f: Field) returns (kept: bool)
      requires Valid()
      modifies this
      ensures Valid() && Value() == old(Value()).Add(f)
      ensures kept <==> EntrySize(f) <= maxSize
      ensures kept ==> |entries| > 0 && entries[0] == f
    {
      var cost := EntrySize(f);
      if cost > maxSize {
        entries, size := [], 0;
        return false;
      }
      AddKeepsNewEntry(Value(), f);
      SizeOfCons(f, entries);
      entries := [f] + entries;
      size := size + cost;
      Evict();
      return true;
    }

    /** One-based index into the dynamic half. */
    method Get(index: nat) returns (r: Option<Field>)
      ensures r == if 1 <= index <= |entries| then Some(entries[index - 1]) else None
    {
      if !(1 <= index <= |entries|) {
        return None;
      }
      return Some(entries[index - 1]);
    }

    method FindField(f: Field) returns (m: Match)
      ensures IsFirstMatch(entries, f, m) && m == Find(entries, f)
    {
      m := NoMatch;
      for position := 0 to |entries|
        invariant !m.Exact? && f !in entries[..position]
        invariant m.NameOnly? ==> IsFirstMatch(entries[..position], f, m)
        invariant m.NoMatch? ==> forall q :: 0 <= q < position ==> entries[q].name != f.name
      {
        var entry := entries[position];
        assert entries[..position + 1] == entries[..position] + [entry];
        if entry.name == f.name {
          if entry.value == f.value {
            m := Exact(position + 1);
            MatchIsUnique(entries, f, m, Find(entries, f));
            return;
          }
          if m.NoMatch? {
            m := NameOnly(position + 1);
          }
        }
      }
      assert entries[..|entries|] == entries;
      MatchIsUnique(entries, f, m, Find(entries, f));
    }
  }
}
