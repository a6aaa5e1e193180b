/**
 * Smooth weighted round robin over a fixed set of targets: every pick raises each score by its
 * target's weight and charges the whole weight to the one picked.
 */
module WeightedRoundRobin {

  /** A configured weight counts as at least one. */
  function Effective(weight: int): nat {
    if weight < 1 then 1 else weight
  }

  function Weights(configured: seq<int>): (w: seq<int>)
    ensures |w| == |configured| && forall i :: 0 <= i < |w| ==> w[i] >= 1
  {
    seq(|configured|, i requires 0 <= i < |configured| => Effective(configured[i]))
  }

  function Sum(s: seq<int>): int
    decreases |s|
  {
    if |s| == 0 then 0 else Sum(s[..|s| - 1]) + s[|s| - 1]
  }

  function Raised(scores: seq<int>, w: seq<int>): (r: seq<int>)
    requires |scores| == |w|
    ensures |r| == |w|
  {
    seq(|w|, i requires 0 <= i < |w| => scores[i] + w[i])
  }

  /** The first of the highest. */
  ghost predicate IsBest(s: seq<int>, b: nat) {
    b < |s| && (forall i :: 0 <= i < |s| ==> s[i] <= s[b]) && (forall i :: 0 <= i < b ==> s[i] < s[b])
  }

  function Best(s: seq<int>): (b: nat)
    requires |s| > 0
    ensures IsBest(s, b)
    decreases |s|
  {
    if |s| == 1 then 0
    else
      var front := s[..|s| - 1];
      var b := Best(front);
      assert front[b] == s[b] && forall i :: 0 <= i < |front| ==> front[i] == s[i];
      if s[|s| - 1] > s[b] then |s| - 1 else b
  }

  /** Which target is picked, and the scores behind it. */
  function Pick(scores: seq<int>, w: seq<int>): (r: (nat, seq<int>))
    requires |scores| == |w| > 0
    ensures r.0 < |w| && |r.1| == |w|
  {
    var raised := Raised(scores, w);
    var b := Best(raised);
    (b, raised[b := raised[b] - Sum(w)])
  }

  // Sums.

  lemma {:induction false} SumUpdate(s: seq<int>, b: nat, v: int)
    requires b < |s|
    ensures Sum(s[b := v]) == Sum(s) - s[b] + v
    decreases |s|
  {
    if b == |s| - 1 {
      assert s[b := v][..b] == s[..b];
    } else {
      SumUpdate(s[..|s| - 1], b, v);
      assert s[b := v][..|s| - 1] == s[..|s| - 1][b := v];
    }
  }

  lemma {:induction false} SumRaised(scores: seq<int>, w: seq<int>)
    requires |scores| == |w|
    ensures Sum(Raised(scores, w)) == Sum(scores) + Sum(w)
    decreases |w|
  {
    if |w| > 0 {
      var n := |w| - 1;
      SumRaised(scores[..n], w[..n]);
      assert Raised(scores, w)[..n] == Raised(scores[..n], w[..n]);
    }
  }

  /** Somebody is at least average: a positive sum has a positive highest. */
  lemma {:induction false} PositiveBest(s: seq<int>, high: int)
    requires (forall i :: 0 <= i < |s| ==> s[i] <= high) && high <= 0
    ensures Sum(s) <= 0
    decreases |s|
  {
    if |s| > 0 {
      PositiveBest(s[..|s| - 1], high);
    }
  }

  lemma {:induction false} SumOfWeights(w: seq<int>)
    requires forall i :: 0 <= i < |w| ==> w[i] >= 1
    ensures Sum(w) >= |w|
    decreases |w|
  {
    if |w| > 0 {
      SumOfWeights(w[..|w| - 1]);
    }
  }

  lemma {:induction false} SumOfProducts(s: seq<int>, a: seq<int>, k: int)
    requires |s| == |a| && forall i :: 0 <= i < |s| ==> s[i] == k * a[i]
    ensures Sum(s) == k * Sum(a)
    decreases |s|
  {
    if |s| > 0 {
      SumOfProducts(s[..|s| - 1], a[..|s| - 1], k);
    }
  }

  // Runs.

  function Zeros(n: nat): (z: seq<int>)
    ensures |z| == n
  {
    seq(n, _ => 0)
  }

  /** The scores after `t` picks, and how often each target was picked. */
  datatype State = State(scores: seq<int>, counts: seq<int>)

  function Advance(w: seq<int>, s: State): (s': State)
    requires |w| > 0 && |s.scores| == |w| && |s.counts| == |w|
    ensures |s'.scores| == |w| && |s'.counts| == |w|
  {
    var (b, scores) := Pick(s.scores, w);
    State(scores, s.counts[b := s.counts[b] + 1])
  }

  /** As with Octets.At, the folds keep the recursion out of sight until it is asked for. */
  function After(w: seq<int>, t: nat, folds: nat := 2): (s: State)
    requires |w| > 0
    ensures |s.scores| == |w| && |s.counts| == |w|
    decreases t, |w|, folds
  {
    if folds > 0 then After(w, t, folds - 1)
    else if t == 0 then State(Zeros(|w|), Zeros(|w|)) else Advance(w, After(w, t - 1))
  }

  lemma {:induction false} AfterUnfolds(w: seq<int>, t: nat)
    requires |w| > 0
    ensures After(w, t) == if t == 0 then State(Zeros(|w|), Zeros(|w|)) else Advance(w, After(w, t - 1))
  {
    assert After(w, t, 1) == After(w, t, 0);
  }

  /** What every pick keeps. */
  ghost predicate Inv(w: seq<int>, t: nat, s: State) {
    && |s.scores| == |w| && |s.counts| == |w|
    && Sum(s.scores) == 0 && Sum(s.counts) == t
    && (forall i :: 0 <= i < |w| ==> s.scores[i] > -Sum(w) && s.scores[i] == t * w[i] - Sum(w) * s.counts[i] && s.counts[i] >= 0)
  }

  lemma {:induction false} SumOfZeros(n: nat)
    ensures Sum(Zeros(n)) == 0
  {
    if n > 0 {
      SumOfZeros(n - 1);
      assert Zeros(n)[..n - 1] == Zeros(n - 1);
    }
  }

  lemma {:induction false} PickKeeps(w: seq<int>, t: nat, s: State)
    requires |w| > 0 && (forall i :: 0 <= i < |w| ==> w[i] >= 1) && Inv(w, t, s)
    ensures Inv(w, t + 1, Advance(w, s))
  {
    var raised, total := Raised(s.scores, w), Sum(w);
    var b := Best(raised);
    SumRaised(s.scores, w);
    SumOfWeights(w);
    SumUpdate(raised, b, raised[b] - total);
    SumUpdate(s.counts, b, s.counts[b] + 1);
    if raised[b] <= 0 {
      PositiveBest(raised, raised[b]);
    }
    var (picked, scores) := Pick(s.scores, w);
    var counts := s.counts[b := s.counts[b] + 1];
    forall i | 0 <= i < |w|
      ensures scores[i] > -total && scores[i] == (t + 1) * w[i] - total * counts[i] && counts[i] >= 0
    {
      OneMore(t, w[i], total, s.counts[i]);
    }
  }

  lemma {:induction false} OneMore(t: nat, weight: int, total: int, count: int)
    ensures (t + 1) * weight == t * weight + weight && total * (count + 1) == total * count + total
  {
  }

  lemma {:induction false} AfterKeeps(w: seq<int>, t: nat)
    requires |w| > 0 && forall i :: 0 <= i < |w| ==> w[i] >= 1
    ensures Inv(w, t, After(w, t))
  {
    AfterUnfolds(w, t);
    if t == 0 {
      SumOfZeros(|w|);
      SumOfWeights(w);
    } else {
      AfterKeeps(w, t - 1);
      PickKeeps(w, t - 1, After(w, t - 1));
    }
  }

  /**
   * The scores always cancel out and none falls to minus the total weight; so after `t` picks a
   * target has been picked less than one time more than its share.
   */
  lemma {:induction false} SharesAreKept(w: seq<int>, t: nat, i: nat)
    requires (forall i :: 0 <= i < |w| ==> w[i] >= 1) && i < |w|
    ensures var s := After(w, t);
            Sum(s.scores) == 0 && s.scores[i] > -Sum(w) && Sum(w) * s.counts[i] < t * w[i] + Sum(w)
  {
    AfterKeeps(w, t);
  }

  lemma {:induction false} NoMoreThan(count: int, weight: int, total: int)
    requires total > 0 && total * count < total * weight + total
    ensures count <= weight
  {
    if count > weight {
      Distributes(total, weight, count - weight);
      AtLeastOnce(total, count - weight);
    }
  }

  lemma {:induction false} Distributes(total: int, a: int, b: int)
    ensures total * (a + b) == total * a + total * b
  {
  }

  lemma {:induction false} AtLeastOnce(total: nat, k: nat)
    requires k > 0
    ensures total * k >= total
  {
  }

  /** Counts that are no larger one by one and equal in sum are equal. */
  lemma {:induction false} EqualInSum(a: seq<int>, b: seq<int>)
    requires |a| == |b| && (forall i :: 0 <= i < |a| ==> a[i] <= b[i]) && Sum(a) >= Sum(b)
    ensures a == b
    decreases |a|
  {
    if |a| > 0 {
      var n := |a| - 1;
      NotLargerInSum(a[..n], b[..n]);
      EqualInSum(a[..n], b[..n]);
      assert a == a[..n] + [a[n]] && b == b[..n] + [b[n]];
    }
  }

  lemma {:induction false} NotLargerInSum(a: seq<int>, b: seq<int>)
    requires |a| == |b| && forall i :: 0 <= i < |a| ==> a[i] <= b[i]
    ensures Sum(a) <= Sum(b)
    decreases |a|
  {
    if |a| > 0 {
      NotLargerInSum(a[..|a| - 1], b[..|b| - 1]);
    }
  }

  /** As many picks as the total weight pick each target exactly as often as its weight says, and end where they began. */
  lemma {:induction false} OneRoundIsExact(w: seq<int>)
    requires |w| > 0 && forall i :: 0 <= i < |w| ==> w[i] >= 1
    ensures Sum(w) >= 0 && After(w, Sum(w)) == State(Zeros(|w|), w)
  {
    SumOfWeights(w);
    var total: nat := Sum(w);
    var s := After(w, total);
    AfterKeeps(w, total);
    forall i | 0 <= i < |w|
      ensures s.counts[i] <= w[i]
    {
      NoMoreThan(s.counts[i], w[i], total);
    }
    EqualInSum(s.counts, w);
  }

  /** From then on the picks repeat: after any number of rounds and `t` more picks the scores are those after `t`. */
  lemma {:induction false} RoundsRepeat(w: seq<int>, t: nat)
    requires |w| > 0 && forall i :: 0 <= i < |w| ==> w[i] >= 1
    ensures Sum(w) >= 0 && After(w, Sum(w) + t).scores == After(w, t).scores
    ensures forall i :: 0 <= i < |w| ==> After(w, Sum(w) + t).counts[i] == w[i] + After(w, t).counts[i]
  {
    SumOfWeights(w);
    AfterUnfolds(w, t);
    AfterUnfolds(w, Sum(w) + t);
    if t == 0 {
      OneRoundIsExact(w);
    } else {
      RoundsRepeat(w, t - 1);
    }
  }

  // The object.

  function Score(state: map<nat, int>, i: nat): int {
    if i in state then state[i] else 0
  }

  function Scores(state: map<nat, int>, n: nat): (s: seq<int>)
    ensures |s| == n
  {
    seq(n, i requires 0 <= i < n => Score(state, i))
  }

  class ProxyRule {
    /** Scores by target; a target without one counts as zero. */
    var weightedState: map<nat, int>

    constructor ()
      ensures forall n: nat :: Scores(weightedState, n) == Zeros(n)
    {
      weightedState := map[];
    }

    method WeightedPick(configured: seq<int>) returns (best: nat)
      requires |configured| > 0
      modifies this
      ensures best < |configured|
      ensures (best, Scores(weightedState, |configured|)) == Pick(old(Scores(weightedState, |configured|)), Weights(configured))
    {
      ghost var w, before := Weights(configured), Scores(weightedState, |configured|);
      ghost var raised := Raised(before, w);
      var total, bestScore := 0, 0;
      best := 0;
      for i := 0 to |configured|
        invariant total == Sum(w[..i]) && RaisedUpTo(weightedState, before, raised, i)
        invariant i > 0 ==> IsBest(raised[..i], best) && bestScore == raised[best]
      {
        SumOfNext(w, i);
        RaisedNext(weightedState, before, w, i);
        BestSoFar(raised, i, best);
        var weight := Effective(configured[i]);
        total := total + weight;
        var current := Score(weightedState, i) + weight;
        weightedState := weightedState[i := current];
        if i == 0 || current > bestScore {
          best, bestScore := i, current;
        }
      }
      assert w[..|w|] == w && raised[..|w|] == raised;
      BestIsUnique(raised, best, Best(raised));
      ChargedLast(weightedState, before, raised, best, bestScore - total);
      weightedState := weightedState[best := bestScore - total];
    }
  }

  /** The scores raised so far, and those still to be raised. */
  ghost predicate RaisedUpTo(state: map<nat, int>, before: seq<int>, raised: seq<int>, i: nat) {
    |before| == |raised| && forall j :: 0 <= j < |before| ==> Score(state, j) == if j < i then raised[j] else before[j]
  }

  lemma {:induction false} SumOfNext(w: seq<int>, i: nat)
    requires i < |w|
    ensures Sum(w[..i + 1]) == Sum(w[..i]) + w[i]
  {
    assert w[..i + 1][..i] == w[..i];
  }

  lemma {:induction false} RaisedNext(state: map<nat, int>, before: seq<int>, w: seq<int>, i: nat)
    requires i < |w| == |before| && RaisedUpTo(state, before, Raised(before, w), i)
    ensures Score(state, i) + w[i] == Raised(before, w)[i]
    ensures RaisedUpTo(state[i := Raised(before, w)[i]], before, Raised(before, w), i + 1)
  {
  }

  lemma {:induction false} ChargedLast(state: map<nat, int>, before: seq<int>, raised: seq<int>, best: nat, score: int)
    requires best < |raised| && RaisedUpTo(state, before, raised, |raised|)
    ensures Scores(state[best := score], |raised|) == raised[best := score]
  {
  }

  lemma {:induction false} BestSoFar(s: seq<int>, i: nat, best: nat)
    requires i < |s| && (i > 0 ==> IsBest(s[..i], best))
    ensures IsBest(s[..i + 1], if i == 0 || s[i] > s[best] then i else best)
  {
  }

  lemma {:induction false} BestIsUnique(s: seq<int>, a: nat, b: nat)
    requires IsBest(s, a) && IsBest(s, b)
    ensures a == b
  {
    assert s[a] <= s[b] && s[b] <= s[a];
  }
}
