/** Sums over the values of a finite map. */
module MapSum {

  ghost function Pick(m: map<nat, nat>): (k: nat)
    requires |m| > 0
    ensures k in m
  {
    var k :| k in m;
    k
  }

  /** As with Octets.At, the folds keep the recursion out of sight until it is asked for. */
  ghost function SumOf(m: map<nat, nat>, folds: nat := 2): nat
    decreases |m|, folds
  {
    if folds > 0 then SumOf(m, folds - 1)
    else if |m| == 0 then 0
    else m[Pick(m)] + SumOf(m - {Pick(m)})
  }

  lemma {:induction false} SumUnfolds(m: map<nat, nat>)
    ensures SumOf(m) == if |m| == 0 then 0 else m[Pick(m)] + SumOf(m - {Pick(m)})
  {
    assert SumOf(m, 1) == SumOf(m, 0);
  }

  lemma {:induction false} SumWithout(m: map<nat, nat>, k: nat)
    requires k in m
    ensures SumOf(m) == m[k] + SumOf(m - {k})
    decreases |m|
  {
    SumUnfolds(m);
    var j := Pick(m);
    if j != k {
      SumWithout(m - {j}, k);
      SumWithout(m - {k}, j);
      assert (m - {j}) - {k} == (m - {k}) - {j};
    }
  }

  lemma {:induction false} SumWith(m: map<nat, nat>, k: nat, v: nat)
    ensures SumOf(m[k := v]) == SumOf(m) + v - (if k in m then m[k] else 0)
  {
    SumWithout(m[k := v], k);
    if k in m {
      SumWithout(m, k);
      assert m[k := v] - {k} == m - {k};
    } else {
      assert m[k := v] - {k} == m;
    }
  }

  function Value(m: map<nat, nat>, k: nat): nat {
    if k in m then m[k] else 0
  }

  lemma {:induction false} SumSplit(m: map<nat, nat>, k: nat)
    ensures SumOf(m) == Value(m, k) + SumOf(m - {k})
  {
    if k in m {
      SumWithout(m, k);
    } else {
      assert m - {k} == m;
    }
  }

  /** Sums add up when the values do. */
  lemma {:induction false} SumAdds(a: map<nat, nat>, b: map<nat, nat>, c: map<nat, nat>)
    requires forall k :: Value(c, k) == Value(a, k) + Value(b, k)
    ensures SumOf(c) == SumOf(a) + SumOf(b)
    decreases |a| + |b| + |c|
  {
    if k :| k in a || k in b || k in c {
      SumSplit(a, k);
      SumSplit(b, k);
      SumSplit(c, k);
      forall j
        ensures Value(c - {k}, j) == Value(a - {k}, j) + Value(b - {k}, j)
      {
        assert Value(c, j) == Value(a, j) + Value(b, j);
      }
      FewerKeys(a, k);
      FewerKeys(b, k);
      FewerKeys(c, k);
      SumAdds(a - {k}, b - {k}, c - {k});
    } else {
      SumUnfolds(a);
      SumUnfolds(b);
      SumUnfolds(c);
      assert a == map[] && b == map[] && c == map[];
    }
  }

  lemma {:induction false} FewerKeys(m: map<nat, nat>, k: nat)
    ensures |m - {k}| == if k in m then |m| - 1 else |m|
  {
    assert (m - {k}).Keys == m.Keys - {k};
  }

  lemma {:induction false} SumIsMonotone(a: map<nat, nat>, b: map<nat, nat>)
    requires forall k :: Value(a, k) <= Value(b, k)
    ensures SumOf(a) <= SumOf(b)
  {
    var rest := map k | k in b :: b[k] - Value(a, k);
    forall k
      ensures Value(b, k) == Value(a, k) + Value(rest, k)
    {
      assert Value(a, k) <= Value(b, k);
    }
    SumAdds(a, rest, b);
  }

  lemma {:induction false} SumOfNothing()
    ensures SumOf(map[]) == 0
  {
    SumUnfolds(map[]);
  }
}
