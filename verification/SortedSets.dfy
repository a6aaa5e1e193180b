/** Finite sets of numbers in ascending order. */
module SortedSets {

  ghost predicate IsLeast(s: set<nat>, k: nat) {
    k in s && forall j :: j in s ==> k <= j
  }

  lemma {:induction false} LeastExists(s: set<nat>)
    requires s != {}
    ensures exists k :: IsLeast(s, k)
    decreases |s|
  {
    var j :| j in s;
    if s == {j} {
      assert IsLeast(s, j);
    } else {
      LeastExists(s - {j});
      var k :| IsLeast(s - {j}, k);
      assert forall i :: i in s ==> i == j || i in s - {j};
      assert IsLeast(s, if k < j then k else j);
    }
  }

  ghost function Least(s: set<nat>): (k: nat)
    requires s != {}
    ensures IsLeast(s, k)
  {
    LeastExists(s);
    var k :| IsLeast(s, k);
    k
  }

  /** As with Octets.At, the folds keep the recursion out of sight until it is asked for. */
  ghost function Ascending(s: set<nat>, folds: nat := 2): (r: seq<nat>)
    ensures |r| == |s| && forall k :: k in r <==> k in s
    decreases |s|, folds
  {
    if folds > 0 then Ascending(s, folds - 1)
    else if s == {} then [] else [Least(s)] + Ascending(s - {Least(s)})
  }

  lemma {:induction false} AscendingUnfolds(s: set<nat>)
    ensures Ascending(s) == if s == {} then [] else [Least(s)] + Ascending(s - {Least(s)})
  {
    assert Ascending(s, 1) == Ascending(s, 0);
  }

  ghost predicate Increasing(r: seq<nat>) {
    forall i, j :: 0 <= i < j < |r| ==> r[i] < r[j]
  }

  lemma {:induction false} AscendingIncreases(s: set<nat>)
    ensures Increasing(Ascending(s))
    decreases |s|
  {
    AscendingUnfolds(s);
    if s != {} {
      var rest := s - {Least(s)};
      AscendingIncreases(rest);
      LeastInFront(Least(s), Ascending(rest));
    }
  }

  lemma {:induction false} LeastInFront(k: nat, r: seq<nat>)
    requires Increasing(r) && forall j :: j in r ==> k < j
    ensures Increasing([k] + r)
  {
    assert forall j :: 0 <= j < |r| ==> r[j] in r;
  }

  /** There is only one increasing order of the same numbers. */
  lemma {:induction false} IncreasingIsUnique(a: seq<nat>, b: seq<nat>)
    requires Increasing(a) && Increasing(b) && forall k :: k in a <==> k in b
    ensures a == b
    decreases |a|
  {
    assert |b| > 0 ==> b[0] in a;
    if |a| > 0 {
      assert a[0] in b && b[0] in a;
      var i :| 0 <= i < |b| && b[i] == a[0];
      var j :| 0 <= j < |a| && a[j] == b[0];
      assert a[0] == b[0];
      forall k | k in a[1..]
        ensures k in b[1..]
      {
        var m :| 0 <= m < |a[1..]| && a[1..][m] == k;
        assert a[m + 1] == k && k in a;
      }
      forall k | k in b[1..]
        ensures k in a[1..]
      {
        var m :| 0 <= m < |b[1..]| && b[1..][m] == k;
        assert b[m + 1] == k && k in b;
      }
      IncreasingIsUnique(a[1..], b[1..]);
      assert a == [a[0]] + a[1..] && b == [b[0]] + b[1..];
    }
  }

  method Sort(s: set<nat>) returns (r: seq<nat>)
    ensures r == Ascending(s)
  {
    r := [];
    var left := s;
    while left != {}
      invariant r + Ascending(left) == Ascending(s)
      decreases |left|
    {
      AscendingUnfolds(left);
      var least := FindLeast(left);
      assert r + ([least] + Ascending(left - {least})) == (r + [least]) + Ascending(left - {least});
      r := r + [least];
      left := left - {least};
    }
    AscendingUnfolds({});
    assert r + [] == r;
  }

  method FindLeast(s: set<nat>) returns (least: nat)
    requires s != {}
    ensures least == Least(s)
  {
    least :| least in s;
    var others := s - {least};
    while others != {}
      invariant least in s && others <= s
      invariant forall k :: k in s && k !in others ==> least <= k
      decreases |others|
    {
      var k :| k in others;
      if k < least {
        least := k;
      }
      others := others - {k};
    }
  }
}
