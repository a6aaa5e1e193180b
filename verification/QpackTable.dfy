/**
 * The dynamic table of QPACK: insertions are numbered for good, and eviction takes the oldest.
 * Section 3.2 of RFC 9204.
 */
module QpackTable {
  import opened Wrappers
  import opened HpackTable

  /**
   * What eviction from the front leaves of `entries`, oldest first. As with Octets.At, the
   * folds keep the recursion out of sight until it is asked for.
   */
  function FitFront(entries: seq<Field>, capacity: nat, folds: nat := 2): (kept: seq<Field>)
    ensures SizeOf(kept) <= capacity && |kept| <= |entries| && kept == entries[|entries| - |kept|..]
    decreases |entries|, folds
  {
    SizeOfUnfolds(entries);
    if folds > 0 then FitFront(entries, capacity, folds - 1)
    else if SizeOf(entries) <= capacity then entries else FitFront(entries[1..], capacity)
  }

  lemma {:induction false} FitFrontUnfolds(entries: seq<Field>, capacity: nat)
    ensures FitFront(entries, capacity) ==
            if |entries| == 0 || SizeOf(entries) <= capacity then entries else FitFront(entries[1..], capacity)
  {
    SizeOfUnfolds(entries);
    assert FitFront(entries, capacity, 1) == FitFront(entries, capacity, 0);
  }

  datatype Numbered = Numbered(entries: seq<Field>, capacity: nat, count: nat) {
    predicate Sound() {
      |entries| <= count && SizeOf(entries) <= capacity
    }

    /** The first number still held. */
    function Dropped(): nat
      requires Sound()
    {
      count - |entries|
    }

    predicate Holds(absolute: int)
      requires Sound()
    {
      Dropped() <= absolute < count
    }

    function Get(absolute: int): Option<Field>
      requires Sound()
    {
      if Holds(absolute) then Some(entries[absolute - Dropped()]) else None
    }

    function Resize(size: nat): (t: Numbered)
      requires Sound()
      ensures t.Sound() && t.capacity == size && t.count == count
    {
      Numbered(FitFront(entries, size), size, count)
    }

    predicate Fits(f: Field) {
      EntrySize(f) <= capacity
    }

    /** An oversized insert is left out and takes no number. */
    function Add(f: Field): (t: Numbered)
      requires Sound()
      ensures t.Sound() && t.capacity == capacity
    {
      if Fits(f) then Numbered(FitFront(entries + [f], capacity), capacity, count + 1) else this
    }
  }

  lemma {:induction false} SizeOfFront(entries: seq<Field>)
    requires |entries| > 0
    ensures SizeOf(entries) == EntrySize(entries[0]) + SizeOf(entries[1..])
  {
    SizeOfCons(entries[0], entries[1..]);
    assert [entries[0]] + entries[1..] == entries;
  }

  lemma {:induction false} SizeOfSnoc(entries: seq<Field>, f: Field)
    ensures SizeOf(entries + [f]) == SizeOf(entries) + EntrySize(f)
  {
    assert (entries + [f])[..|entries|] == entries;
    SizeOfUnfolds(entries + [f]);
  }

  /** Eviction keeps every newest run that fits. */
  lemma {:induction false} FitFrontKeepsNewest(entries: seq<Field>, capacity: nat, k: nat)
    requires k <= |entries| && SizeOf(entries[k..]) <= capacity
    ensures |entries| - |FitFront(entries, capacity)| <= k
    decreases |entries|
  {
    FitFrontUnfolds(entries, capacity);
    SizeOfUnfolds(entries);
    if SizeOf(entries) > capacity {
      assert k > 0 by {
        assert entries[0..] == entries;
      }
      assert entries[1..][k - 1..] == entries[k..];
      FitFrontKeepsNewest(entries[1..], capacity, k - 1);
    }
  }

  /**
   * An insert gets the next number, keeps every other number with its entry until eviction
   * takes it, and is never evicted by itself.
   */
  lemma {:induction false} AddNumbers(t: Numbered, f: Field)
    requires t.Sound() && t.Fits(f)
    ensures var t' := t.Add(f);
            t'.count == t.count + 1 && t'.Get(t.count) == Some(f) && t.Dropped() <= t'.Dropped() &&
            forall a: int :: t'.Holds(a) && a != t.count ==> t.Holds(a) && t'.Get(a) == t.Get(a)
  {
    FitFrontKeepsLast(t.entries, f, t.capacity);
  }

  lemma {:induction false} FitFrontKeepsLast(entries: seq<Field>, f: Field, capacity: nat)
    requires EntrySize(f) <= capacity
    ensures var kept := FitFront(entries + [f], capacity);
            |kept| > 0 && kept == entries[|entries| + 1 - |kept|..] + [f]
  {
    var all := entries + [f];
    SizeOfSnoc([], f);
    assert all[|entries|..] == [] + [f];
    FitFrontKeepsNewest(all, capacity, |entries|);
  }

  lemma {:induction false} ResizeNumbers(t: Numbered, size: nat)
    requires t.Sound()
    ensures var t' := t.Resize(size);
            t.Dropped() <= t'.Dropped() && forall a: int :: t'.Holds(a) ==> t.Holds(a) && t'.Get(a) == t.Get(a)
  {
  }

  /** The number of the newest exact match, or else of the newest entry with the name. */
  ghost predicate IsNewestMatch(entries: seq<Field>, f: Field, m: Match) {
    match m
    case Exact(p) => p < |entries| && entries[p] == f && forall q :: p < q < |entries| ==> entries[q] != f
    case NameOnly(p) =>
      p < |entries| && entries[p].name == f.name && f !in entries &&
      forall q :: p < q < |entries| ==> entries[q].name != f.name
    case NoMatch => forall q :: 0 <= q < |entries| ==> entries[q].name != f.name
  }

  lemma {:induction false} NewestMatchIsUnique(entries: seq<Field>, f: Field, m: Match, n: Match)
    requires IsNewestMatch(entries, f, m) && IsNewestMatch(entries, f, n)
    ensures m == n
  {
    if m.Exact? && n.Exact? {
      assert entries[m.position] == entries[n.position] == f;
    }
  }

  function FindBefore(entries: seq<Field>, f: Field, before: nat, named: Match): (m: Match)
    requires before <= |entries| && f !in entries[before..] && !named.Exact?
    requires named.NameOnly? ==> before <= named.position < |entries| && entries[named.position].name == f.name
                                 && forall q :: named.position < q < |entries| ==> entries[q].name != f.name
    requires named.NoMatch? ==> forall q :: before <= q < |entries| ==> entries[q].name != f.name
    ensures IsNewestMatch(entries, f, m)
    decreases before
  {
    if before == 0 then
      assert entries[0..] == entries;
      named
    else
      assert entries[before - 1..] == [entries[before - 1]] + entries[before..];
      if entries[before - 1] == f then
        assert forall q :: before <= q < |entries| ==> entries[q] in entries[before..];
        Exact(before - 1)
      else if named.NoMatch? && entries[before - 1].name == f.name then FindBefore(entries, f, before - 1, NameOnly(before - 1))
      else FindBefore(entries, f, before - 1, named)
  }

  /** Position of the match among the entries held. */
  function FindNewest(entries: seq<Field>, f: Field): (m: Match)
    ensures IsNewestMatch(entries, f, m)
  {
    FindBefore(entries, f, |entries|, NoMatch)
  }

  // The object.

  class NumberedTable {
    var entries: seq<Field>
    var size: nat
    var capacity: nat
    var insertCount: nat

    ghost predicate Valid()
      reads this
    {
      size == SizeOf(entries) && Value().Sound()
    }

    function Value(): Numbered
      reads this
    {
      Numbered(entries, capacity, insertCount)
    }

    constructor (capacity: nat)
      ensures Valid() && Value() == Numbered([], capacity, 0)
    {
      entries, size, this.capacity, insertCount := [], 0, capacity, 0;
    }

    method Evict()
      requires size == SizeOf(entries)
      modifies this`entries, this`size
      ensures size == SizeOf(entries) && entries == FitFront(old(entries), capacity)
    {
      while size > capacity && |entries| > 0
        invariant size == SizeOf(entries) && FitFront(entries, capacity) == FitFront(old(entries), capacity)
        decreases |entries|
      {
        FitFrontUnfolds(entries, capacity);
        SizeOfFront(entries);
        size := size - EntrySize(entries[0]);
        entries := entries[1..];
      }
      FitFrontUnfolds(entries, capacity);
    }

    method SetCapacity(value: nat)
      requires Valid()
      modifies this
      ensures Valid() && Value() == old(Value()).Resize(value)
    {
      capacity := value;
      Evict();
    }

    method Append(f: Field)
      requires size == SizeOf(entries)
      modifies this`entries, this`size, this`insertCount
      ensures size == SizeOf(entries) && entries == old(entries) + [f] && insertCount == old(insertCount) + 1
    {
      SizeOfSnoc(entries, f);
      entries := entries + [f];
      size := size + EntrySize(f);
      insertCount := insertCount + 1;
    }

    /** The number of the new entry, or nothing when it does not fit. */
    method Add(f: Field) returns (r: Option<nat>)
      requires Valid()
      modifies this
      ensures Valid() && Value() == old(Value()).Add(f)
      ensures r == if old(Value()).Fits(f) then Some(old(insertCount)) else None
    {
      if EntrySize(f) > capacity {
        return None;
      }
      Append(f);
      Evict();
      return Some(insertCount - 1);
    }

    method Get(absolute: int) returns (r: Option<Field>)
      requires Valid()
      ensures r == Value().Get(absolute)
    {
      var position := absolute - (insertCount - |entries|);
      if !(0 <= position < |entries|) {
        return None;
      }
      return Some(entries[position]);
    }

    /** The position found, newest first. */
    method Find(f: Field) returns (m: Match)
      ensures IsNewestMatch(entries, f, m) && m == FindNewest(entries, f)
    {
      m := NoMatch;
      var position: nat := |entries|;
      while position > 0
        invariant position <= |entries| && !m.Exact? && f !in entries[position..]
        invariant m.NameOnly? ==> position <= m.position < |entries| && entries[m.position].name == f.name
                                  && forall q :: m.position < q < |entries| ==> entries[q].name != f.name
        invariant m.NoMatch? ==> forall q :: position <= q < |entries| ==> entries[q].name != f.name
      {
        position := position - 1;
        assert entries[position..] == [entries[position]] + entries[position + 1..];
        if entries[position].name == f.name {
          if entries[position].value == f.value {
            m := Exact(position);
            assert forall q :: position < q < |entries| ==> entries[q] in entries[position + 1..];
            NewestMatchIsUnique(entries, f, m, FindNewest(entries, f));
            return;
          }
          if m.NoMatch? {
            m := NameOnly(position);
          }
        }
      }
      assert entries[0..] == entries;
      NewestMatchIsUnique(entries, f, m, FindNewest(entries, f));
    }
  }
}
