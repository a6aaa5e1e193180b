/** ACK ranges: a set of packet numbers as runs from the largest down. Section 19.3.1 of RFC 9000. */
module QuicAck {
  import opened Wrappers
  import opened SortedSets

  /** `first` numbers lie contiguous below the largest; each later pair is a gap and a run, both one short. */
  datatype Ranges = Ranges(largest: nat, first: nat, more: seq<(nat, nat)>)

  predicate Between(low: int, n: int, high: int) {
    low <= n <= high
  }

  function Span(low: int, high: int): set<int> {
    set n | low <= n <= high && Between(low, n, high)
  }

  // Reading.

  function ExpandFrom(smallest: int, more: seq<(nat, nat)>): set<int>
    decreases |more|
  {
    if |more| == 0 then {}
    else
      var (gap, length) := more[0];
      var largest := smallest - gap - 2;
      if largest < 0 then {}
      else Span(if largest - length < 0 then 0 else largest - length, largest) + ExpandFrom(largest - length, more[1..])
  }

  /** `acknowledged_numbers`. */
  function Expand(r: Ranges): set<int> {
    Span(r.largest - r.first, r.largest) + ExpandFrom(r.largest - r.first, r.more)
  }

  /** Where the last run ends. */
  function Bottom(smallest: int, more: seq<(nat, nat)>): int
    decreases |more|
  {
    if |more| == 0 then smallest else Bottom(smallest - more[0].0 - 2 - more[0].1, more[1..])
  }

  lemma {:induction false} BottomFalls(smallest: int, more: seq<(nat, nat)>)
    ensures Bottom(smallest, more) <= smallest
    decreases |more|
  {
    if |more| > 0 {
      BottomFalls(smallest - more[0].0 - 2 - more[0].1, more[1..]);
    }
  }

  /** One more run at the end adds its numbers, when it stays above zero. */
  lemma {:induction false} ExpandSnoc(smallest: int, more: seq<(nat, nat)>, gap: nat, length: nat)
    requires Bottom(smallest, more) - gap - 2 - length >= 0
    ensures var high := Bottom(smallest, more) - gap - 2;
            ExpandFrom(smallest, more + [(gap, length)]) == ExpandFrom(smallest, more) + Span(high - length, high) &&
            Bottom(smallest, more + [(gap, length)]) == high - length
    decreases |more|
  {
    var all := more + [(gap, length)];
    if |more| == 0 {
      assert all == [(gap, length)] && all[1..] == [];
    } else {
      var next := smallest - more[0].0 - 2 - more[0].1;
      assert all[1..] == more[1..] + [(gap, length)];
      BottomFalls(next, more[1..]);
      ExpandSnoc(next, more[1..], gap, length);
    }
  }

  method AcknowledgedNumbers(r: Ranges) returns (numbers: set<int>)
    ensures numbers == Expand(r)
  {
    var smallest := r.largest - r.first;
    numbers := Span(smallest, r.largest);
    for i := 0 to |r.more|
      invariant numbers + ExpandFrom(smallest, r.more[i..]) == Expand(r)
    {
      var (gap, length) := r.more[i];
      assert r.more[i..][0] == r.more[i] && r.more[i..][1..] == r.more[i + 1..];
      var largest := smallest - gap - 2;
      if largest < 0 {
        return;
      }
      ghost var rest := ExpandFrom(largest - length, r.more[i + 1..]);
      var run := Span(if largest - length < 0 then 0 else largest - length, largest);
      assert (numbers + run) + rest == numbers + (run + rest);
      smallest := largest - length;
      numbers := numbers + run;
    }
    assert r.more[|r.more|..] == [];
  }

  // Writing.

  ghost predicate Decreasing(d: seq<nat>) {
    forall i, j :: 0 <= i < j < |d| ==> d[i] > d[j]
  }

  function Ints(numbers: seq<int>): set<int> {
    set n | n in numbers
  }

  method SortDown(s: set<nat>) returns (d: seq<nat>)
    ensures Decreasing(d) && |d| == |s| && forall n :: n in d <==> n in s
  {
    var up := Sort(s);
    AscendingIncreases(s);
    d := [];
    for i := 0 to |up|
      invariant |d| == i && forall j :: 0 <= j < i ==> d[j] == up[i - 1 - j]
      invariant forall n :: n in d <==> n in up[..i]
    {
      assert up[..i + 1] == up[..i] + [up[i]];
      d := [up[i]] + d;
    }
    assert up[..|up|] == up;
  }

  /** From `from` on, `index` is the end of a run of consecutive numbers. */
  ghost predicate RunsTo(d: seq<nat>, from: nat, index: nat) {
    from <= index < |d| && forall k :: from <= k <= index ==> d[k] == d[from] - (k - from)
  }

  method EndOfRun(d: seq<nat>, from: nat) returns (index: nat, run: nat)
    requires from < |d|
    ensures RunsTo(d, from, index) && run == index - from
    ensures index + 1 < |d| ==> d[index + 1] + 1 != d[index]
  {
    index, run := from, 0;
    while index + 1 < |d| && d[index + 1] + 1 == d[index]
      invariant RunsTo(d, from, index) && run == index - from
      decreases |d| - index
    {
      index := index + 1;
      run := run + 1;
    }
  }

  lemma {:induction false} RunIsSpan(d: seq<nat>, from: nat, index: nat)
    requires RunsTo(d, from, index)
    ensures Ints(d[..index + 1]) == Ints(d[..from]) + Span(d[index], d[from])
  {
    forall n | n in Ints(d[..index + 1])
      ensures n in Ints(d[..from]) + Span(d[index], d[from])
    {
      var k :| 0 <= k < |d[..index + 1]| && d[..index + 1][k] == n;
      if k < from {
        assert d[..from][k] == n;
      }
    }
    forall n | n in Span(d[index], d[from])
      ensures n in Ints(d[..index + 1])
    {
      assert d[..index + 1][from + (d[from] - n)] == n;
    }
    forall n | n in Ints(d[..from])
      ensures n in Ints(d[..index + 1])
    {
      var k :| 0 <= k < |d[..from]| && d[..from][k] == n;
      assert d[..index + 1][k] == n;
    }
  }

  /** What has been written covers the numbers up to `index` and ends there. */
  function LowEnd(r: Ranges): int {
    Bottom(r.largest - r.first, r.more)
  }

  ghost predicate Covers(d: seq<nat>, index: nat, r: Ranges) {
    index < |d| && Expand(r) == Ints(d[..index + 1]) && LowEnd(r) == d[index]
  }

  lemma {:induction false} OneMoreRun(r: Ranges, gap: nat, length: nat)
    requires LowEnd(r) - gap - 2 - length >= 0
    ensures var r', high := r.(more := r.more + [(gap, length)]), LowEnd(r) - gap - 2;
            Expand(r') == Expand(r) + Span(high - length, high) && LowEnd(r') == high - length
  {
    ExpandSnoc(r.largest - r.first, r.more, gap, length);
  }

  lemma {:induction false} CoversMore(d: seq<nat>, from: nat, index: nat, r: Ranges, gap: nat, length: nat)
    requires 0 < from && Covers(d, from - 1, r) && RunsTo(d, from, index)
    requires gap + 2 + d[from] == d[from - 1] && from + length == index
    ensures Covers(d, index, r.(more := r.more + [(gap, length)]))
  {
    RunIsSpan(d, from, index);
    OneMoreRun(r, gap, length);
  }

  /**
   * `ack_ranges`: what it writes, read back, is exactly the set it was given; its gaps are
   * never negative.
   */
  method AckRanges(numbers: set<nat>) returns (r: Option<Ranges>)
    ensures r.None? <==> numbers == {}
    ensures r.Some? ==> forall n: int :: n in Expand(r.value) <==> n >= 0 && n in numbers
    ensures r.Some? ==> r.value.largest in numbers && r.value.first <= r.value.largest && LowEnd(r.value) in numbers
  {
    var d := SortDown(numbers);
    if |d| == 0 {
      return None;
    }
    assert d[0] in d;
    var index, run := EndOfRun(d, 0);
    var written := Ranges(d[0], run, []);
    RunIsSpan(d, 0, index);
    assert Ints(d[..0]) == {};
    while index + 1 < |d|
      invariant Covers(d, index, written) && written.largest == d[0] && written.first == run <= d[0]
      invariant index + 1 < |d| ==> d[index + 1] + 1 != d[index]
      decreases |d| - index
    {
      var from := index + 1;
      assert d[index] > d[from];
      var gap: nat := d[index] - d[from] - 2;
      var length: nat;
      index, length := EndOfRun(d, from);
      CoversMore(d, from, index, written, gap, length);
      written := written.(more := written.more + [(gap, length)]);
    }
    assert d[..|d|] == d;
    return Some(written);
  }
}
