/**
 * Two laws of the limiter: no window of the configured length holds more allowed requests of a
 * client than configured, and sweeping rarely decides as sweeping always would.
 */
module RateLimiterLaws {
  import opened RateLimiter

  // Trimming.

  lemma {:induction false} TrimTwice(rows: seq<int>, a: int, b: int)
    requires a <= b
    ensures Trim(Trim(rows, a), b) == Trim(rows, b)
    decreases |rows|
  {
    TrimUnfolds(rows, a);
    TrimUnfolds(rows, b);
    if |rows| > 0 && rows[0] <= a {
      TrimTwice(rows[1..], a, b);
    }
  }

  lemma {:induction false} TrimSnoc(rows: seq<int>, now: int, threshold: int)
    requires now > threshold
    ensures Trim(rows + [now], threshold) == Trim(rows, threshold) + [now]
    decreases |rows|
  {
    TrimUnfolds(rows, threshold);
    TrimUnfolds(rows + [now], threshold);
    if |rows| == 0 {
      assert rows + [now] == [now];
    } else if rows[0] <= threshold {
      TrimSnoc(rows[1..], now, threshold);
      assert (rows + [now])[1..] == rows[1..] + [now];
    } else {
      assert (rows + [now])[0] == rows[0];
    }
  }

  /** What is kept is the end of the row, at the same places counted from its end. */
  lemma {:induction false} TrimIsSuffix(rows: seq<int>, threshold: int, i: nat)
    requires i < |Trim(rows, threshold)|
    ensures Trim(rows, threshold)[i] == rows[|rows| - |Trim(rows, threshold)| + i]
    decreases |rows|
  {
    TrimUnfolds(rows, threshold);
    if |rows| > 0 && rows[0] <= threshold {
      TrimIsSuffix(rows[1..], threshold, i);
    }
  }

  // Sweeping rarely and always.

  /** The events of a client that still count are the same, and the second store knows no client the first does not. */
  ghost predicate SameStore(s: Store, e: Store, threshold: int) {
    e.rows.Keys <= s.rows.Keys && forall ip :: Trim(RowsOf(s, ip), threshold) == Trim(RowsOf(e, ip), threshold)
  }

  ghost predicate SameBlocks(b: Blocks, e: Blocks, now: int) {
    e.rows.Keys <= b.rows.Keys && forall ip :: Active(b, ip, now) == Active(e, ip, now)
  }

  ghost predicate Same(c: Config, p: Policy, e: Policy, now: int) {
    && SameStore(p.requests, e.requests, now - c.window)
    && SameStore(p.violations, e.violations, now - c.violationWindow)
    && SameStore(p.suspicious, e.suspicious, now - c.suspiciousWindow)
    && SameBlocks(p.blocks, e.blocks, now)
  }

  predicate RoomyStore(s: Store, cap: nat) {
    |s.rows| < cap
  }

  /** No tracking cap is reached. */
  predicate Roomy(c: Config, p: Policy) {
    RoomyStore(p.requests, c.maxClients) && RoomyStore(p.violations, c.maxClients) && RoomyStore(p.suspicious, c.maxClients) &&
    |p.blocks.rows| < c.maxBlocks
  }

  lemma {:induction false} NoLarger<T>(a: map<nat, T>, b: map<nat, T>)
    requires a.Keys <= b.Keys
    ensures |a| <= |b|
  {
    SubsetIsNoLarger(a.Keys, b.Keys);
    assert |a.Keys| == |a| && |b.Keys| == |b|;
  }

  lemma {:induction false} SubsetIsNoLarger(a: set<nat>, b: set<nat>)
    requires a <= b
    ensures |a| <= |b|
    decreases |a|
  {
    if a != {} {
      var x :| x in a;
      SubsetIsNoLarger(a - {x}, b - {x});
    }
  }

  lemma {:induction false} SameStoreLater(s: Store, e: Store, a: int, b: int)
    requires SameStore(s, e, a) && a <= b
    ensures SameStore(s, e, b)
  {
    forall ip
      ensures Trim(RowsOf(s, ip), b) == Trim(RowsOf(e, ip), b)
    {
      TrimTwice(RowsOf(s, ip), a, b);
      TrimTwice(RowsOf(e, ip), a, b);
    }
  }

  lemma {:induction false} SameLater(c: Config, p: Policy, e: Policy, now: int, later: int)
    requires Same(c, p, e, now) && now <= later
    ensures Same(c, p, e, later)
  {
    SameStoreLater(p.requests, e.requests, now - c.window, later - c.window);
    SameStoreLater(p.violations, e.violations, now - c.violationWindow, later - c.violationWindow);
    SameStoreLater(p.suspicious, e.suspicious, now - c.suspiciousWindow, later - c.suspiciousWindow);
    forall ip
      ensures Active(p.blocks, ip, later) == Active(e.blocks, ip, later)
    {
      assert Active(p.blocks, ip, now) == Active(e.blocks, ip, now);
    }
  }

  /** Events that can be pushed at all lie within the window. */
  ghost predicate NothingLate(s: Store, now: int) {
    forall ip, i :: ip in s.rows && 0 <= i < |s.rows[ip]| ==> s.rows[ip][i] <= now
  }

  lemma {:induction false} TrimAll(rows: seq<int>, threshold: int)
    requires forall i :: 0 <= i < |rows| ==> rows[i] <= threshold
    ensures Trim(rows, threshold) == []
    decreases |rows|
  {
    TrimUnfolds(rows, threshold);
    if |rows| > 0 {
      TrimAll(rows[1..], threshold);
    }
  }

  /** A client's row after pruning. */
  lemma {:induction false} PrunedRow(s: Store, now: int, window: int, ip: nat)
    ensures RowsOf(Pruned(s, now, window), ip) == if window <= 0 then [] else Trim(RowsOf(s, ip), now - window)
  {
    TrimUnfolds([], now - window);
  }

  /** Pruning keeps what still counts of every client. */
  lemma {:induction false} PrunedKeeps(s: Store, now: int, window: int, ip: nat)
    requires NothingLate(s, now) && window >= 0
    ensures Trim(RowsOf(Pruned(s, now, window), ip), now - window) == Trim(RowsOf(s, ip), now - window)
  {
    PrunedRow(s, now, window, ip);
    if window > 0 {
      TrimTwice(RowsOf(s, ip), now - window, now - window);
    } else {
      TrimUnfolds([], now);
      TrimAll(RowsOf(s, ip), now);
      assert now - window == now;
    }
  }

  lemma {:induction false} PrunedSame(s: Store, e: Store, now: int, window: int)
    requires SameStore(s, e, now - window) && NothingLate(s, now) && NothingLate(e, now) && window >= 0
    ensures SameStore(s, Pruned(e, now, window), now - window)
    ensures SameStore(Pruned(s, now, window), Pruned(e, now, window), now - window)
  {
    forall ip
      ensures Trim(RowsOf(s, ip), now - window) == Trim(RowsOf(Pruned(e, now, window), ip), now - window)
      ensures Trim(RowsOf(Pruned(s, now, window), ip), now - window) == Trim(RowsOf(Pruned(e, now, window), ip), now - window)
      ensures ip in Pruned(e, now, window).rows ==> ip in Pruned(s, now, window).rows && ip in s.rows
    {
      PrunedKeeps(s, now, window, ip);
      PrunedKeeps(e, now, window, ip);
      assert Trim(RowsOf(s, ip), now - window) == Trim(RowsOf(e, ip), now - window);
    }
  }

  lemma {:induction false} ExpiredSame(b: Blocks, e: Blocks, now: int)
    requires SameBlocks(b, e, now)
    ensures SameBlocks(b, Expired(e, now), now) && SameBlocks(Expired(b, now), Expired(e, now), now)
  {
    forall ip
      ensures Active(Expired(e, now), ip, now) == Active(e, ip, now) && Active(Expired(b, now), ip, now) == Active(b, ip, now)
      ensures ip in Expired(e, now).rows ==> ip in Expired(b, now).rows && ip in b.rows
    {
      assert Active(b, ip, now) == Active(e, ip, now);
    }
  }

  ghost predicate Timely(p: Policy, now: int) {
    NothingLate(p.requests, now) && NothingLate(p.violations, now) && NothingLate(p.suspicious, now)
  }

  lemma {:induction false} SweptSame(c: Config, p: Policy, e: Policy, now: int)
    requires ValidConfig(c) && Same(c, p, e, now) && Timely(p, now) && Timely(e, now)
    ensures Same(c, Swept(c, p, now, false), Swept(c, e, now, true), now)
  {
    PrunedSame(p.requests, e.requests, now, c.window);
    PrunedSame(p.violations, e.violations, now, c.violationWindow);
    PrunedSame(p.suspicious, e.suspicious, now, c.suspiciousWindow);
    ExpiredSame(p.blocks, e.blocks, now);
  }

  lemma {:induction false} SweptIsTimely(c: Config, p: Policy, now: int, eager: bool)
    requires Timely(p, now)
    ensures Timely(Swept(c, p, now, eager), now)
  {
    PrunedIsTimely(p.requests, now, c.window);
    PrunedIsTimely(p.violations, now, c.violationWindow);
    PrunedIsTimely(p.suspicious, now, c.suspiciousWindow);
  }

  lemma {:induction false} PrunedIsTimely(s: Store, now: int, window: int)
    requires NothingLate(s, now)
    ensures NothingLate(Pruned(s, now, window), now)
  {
    var t := Pruned(s, now, window);
    forall ip, i | ip in t.rows && 0 <= i < |t.rows[ip]|
      ensures t.rows[ip][i] <= now
    {
      TrimIsSuffix(s.rows[ip], now - window, i);
    }
  }

  /** With room in both stores a push counts the same and keeps them the same. */
  lemma {:induction false} PushSame(s: Store, e: Store, ip: nat, now: int, window: int, cap: nat)
    requires SameStore(s, e, now - window) && RoomyStore(s, cap) && window > 0
    ensures var s', e' := Push(s, ip, now, window, cap), Push(e, ip, now, window, cap);
            SameStore(s', e', now - window) && RowsOf(s', ip) == RowsOf(e', ip)
  {
    NoLarger(e.rows, s.rows);
    var s', e' := Push(s, ip, now, window, cap), Push(e, ip, now, window, cap);
    TrimSnoc(RowsOf(s, ip), now, now - window);
    TrimSnoc(RowsOf(e, ip), now, now - window);
    assert Trim(RowsOf(s, ip), now - window) == Trim(RowsOf(e, ip), now - window);
    forall k
      ensures Trim(RowsOf(s', k), now - window) == Trim(RowsOf(e', k), now - window)
    {
      if k != ip {
        assert Trim(RowsOf(s, k), now - window) == Trim(RowsOf(e, k), now - window);
      }
    }
  }

  lemma {:induction false} DroppedSame(s: Store, e: Store, ip: nat, threshold: int)
    requires SameStore(s, e, threshold)
    ensures SameStore(Dropped(s, ip), Dropped(e, ip), threshold)
  {
    forall k
      ensures Trim(RowsOf(Dropped(s, ip), k), threshold) == Trim(RowsOf(Dropped(e, ip), k), threshold)
    {
      assert Trim(RowsOf(s, k), threshold) == Trim(RowsOf(e, k), threshold);
    }
  }

  lemma {:induction false} WithBlockSame(b: Blocks, e: Blocks, ip: nat, reason: Reason, now: int, c: Config)
    requires SameBlocks(b, e, now) && |b.rows| < c.maxBlocks && c.blockTime >= SECOND
    ensures SameBlocks(WithBlock(b, ip, reason, now, c), WithBlock(e, ip, reason, now, c), now)
  {
    NoLarger(e.rows, b.rows);
    var b', e' := WithBlock(b, ip, reason, now, c), WithBlock(e, ip, reason, now, c);
    assert Active(b, ip, now) == Active(e, ip, now);
    forall k
      ensures Active(b', k, now) == Active(e', k, now)
    {
      assert Active(b, k, now) == Active(e, k, now);
    }
  }

  lemma {:induction false} WithViolationSame(c: Config, p: Policy, e: Policy, ip: nat, now: int)
    requires ValidConfig(c) && Same(c, p, e, now) && RoomyStore(p.violations, c.maxClients)
    requires |p.blocks.rows| < c.maxBlocks || (ip in p.blocks.rows && ip in e.blocks.rows)
    ensures Same(c, WithViolation(c, p, ip, now), WithViolation(c, e, ip, now), now)
  {
    if c.violationLimit > 0 && c.violationWindow > 0 {
      var s', e' := Push(p.violations, ip, now, c.violationWindow, c.maxClients), Push(e.violations, ip, now, c.violationWindow, c.maxClients);
      PushSame(p.violations, e.violations, ip, now, c.violationWindow, c.maxClients);
      DroppedSame(s', e', ip, now - c.violationWindow);
      WithBlockSameOrHeld(p.blocks, e.blocks, ip, Violations, now, c);
    }
  }

  lemma {:induction false} WithBlockSameOrHeld(b: Blocks, e: Blocks, ip: nat, reason: Reason, now: int, c: Config)
    requires SameBlocks(b, e, now) && c.blockTime >= SECOND
    requires |b.rows| < c.maxBlocks || (ip in b.rows && ip in e.rows)
    ensures SameBlocks(WithBlock(b, ip, reason, now, c), WithBlock(e, ip, reason, now, c), now)
  {
    if |b.rows| < c.maxBlocks {
      WithBlockSame(b, e, ip, reason, now, c);
    } else {
      var b', e' := WithBlock(b, ip, reason, now, c), WithBlock(e, ip, reason, now, c);
      assert Active(b, ip, now) == Active(e, ip, now);
      forall k
        ensures Active(b', k, now) == Active(e', k, now)
      {
        assert Active(b, k, now) == Active(e, k, now);
      }
    }
  }

  lemma {:induction false} SettledSame(b: Blocks, e: Blocks, ip: nat, now: int)
    requires SameBlocks(b, e, now)
    ensures SameBlocks(Settled(b, ip, now), Settled(e, ip, now), now) && |Settled(b, ip, now).rows| <= |b.rows|
  {
    var b', e' := Settled(b, ip, now), Settled(e, ip, now);
    NoLarger(b'.rows, b.rows);
    assert Active(b, ip, now) == Active(e, ip, now);
    forall k
      ensures Active(b', k, now) == Active(e', k, now)
    {
      assert Active(b, k, now) == Active(e, k, now);
    }
  }

  /** The same decision for the same reason, and policies that stay the same. */
  ghost predicate SameAnswer(c: Config, a: (Decision, Policy), b: (Decision, Policy), now: int) {
    a.0 == b.0 && Same(c, a.1, b.1, now)
  }

  lemma {:induction false} ByLimitsSame(c: Config, p: Policy, e: Policy, r: Request, now: int)
    requires ValidConfig(c) && Same(c, p, e, now) && Roomy(c, p)
    ensures SameAnswer(c, ByLimits(c, p, r, now), ByLimits(c, e, r, now), now)
  {
    if !Limits(c, r) {
      WithViolationSame(c, p, e, r.ip, now);
    } else {
      PushSame(p.requests, e.requests, r.ip, now, c.window, c.maxClients);
      var p' := p.(requests := Push(p.requests, r.ip, now, c.window, c.maxClients));
      var e' := e.(requests := Push(e.requests, r.ip, now, c.window, c.maxClients));
      assert Same(c, p', e', now);
      if |RowsOf(p'.requests, r.ip)| > c.limit {
        WithBlockSame(p'.blocks, e'.blocks, r.ip, RateLimit, now, c);
        var p'', e'' := p'.(blocks := WithBlock(p'.blocks, r.ip, RateLimit, now, c)), e'.(blocks := WithBlock(e'.blocks, r.ip, RateLimit, now, c));
        WithViolationSame(c, p'', e'', r.ip, now);
      } else {
        WithViolationSame(c, p', e', r.ip, now);
      }
    }
  }

  lemma {:induction false} JudgeSame(c: Config, p: Policy, e: Policy, r: Request, now: int)
    requires ValidConfig(c) && Same(c, p, e, now) && Roomy(c, p)
    ensures SameAnswer(c, Judge(c, p, r, now), Judge(c, e, r, now), now)
  {
    SettledSame(p.blocks, e.blocks, r.ip, now);
    var p1 := if r.ip != UNRESOLVED then p.(blocks := Settled(p.blocks, r.ip, now)) else p;
    var e1 := if r.ip != UNRESOLVED then e.(blocks := Settled(e.blocks, r.ip, now)) else e;
    assert Active(p.blocks, r.ip, now) == Active(e.blocks, r.ip, now);
    assert Same(c, p1, e1, now) && Roomy(c, p1);
    WithViolationSame(c, p1, e1, r.ip, now);
    ByLimitsSame(c, p1, e1, r, now);
  }

  lemma {:induction false} CleanedIsRoomy(c: Config, p: Policy, now: int)
    requires ValidConfig(c) && Roomy(c, p)
    ensures Roomy(c, Swept(c, p, now, false))
  {
    NoLarger(Pruned(p.requests, now, c.window).rows, p.requests.rows);
    NoLarger(Pruned(p.violations, now, c.violationWindow).rows, p.violations.rows);
    NoLarger(Pruned(p.suspicious, now, c.suspiciousWindow).rows, p.suspicious.rows);
    NoLarger(Expired(p.blocks, now).rows, p.blocks.rows);
  }

  // Runs.

  datatype Event = Ask(request: Request, elapsed: nat) | Seen(ip: nat, elapsed: nat)

  /** A policy, the time, and what was decided so far. */
  datatype World = World(policy: Policy, clock: int, decisions: seq<Decision>)

  function Next(c: Config, w: World, event: Event, eager: bool): World {
    var now := w.clock + event.elapsed;
    match event
    case Ask(r, _) =>
      var (d, p) := Evaluate(c, w.policy, r, now, eager);
      World(p, now, w.decisions + [d])
    case Seen(ip, _) => World(Observe(c, w.policy, ip, now, eager), now, w.decisions)
  }

  function Run(c: Config, start: int, events: seq<Event>, eager: bool): World
    decreases |events|
  {
    if |events| == 0 then World(NEW_POLICY, start, [])
    else Next(c, Run(c, start, events[..|events| - 1], eager), events[|events| - 1], eager)
  }

  lemma {:induction false} EvaluateSame(c: Config, p: Policy, e: Policy, r: Request, now: int)
    requires ValidConfig(c) && Same(c, p, e, now) && Roomy(c, p) && Timely(p, now) && Timely(e, now)
    ensures SameAnswer(c, Evaluate(c, p, r, now, false), Evaluate(c, e, r, now, true), now)
  {
    StepsUnfold(c, p, r, r.ip, now, false);
    StepsUnfold(c, e, r, r.ip, now, true);
    SweptSame(c, p, e, now);
    CleanedIsRoomy(c, p, now);
    JudgeSame(c, Swept(c, p, now, false), Swept(c, e, now, true), r, now);
  }

  lemma {:induction false} NotedSame(c: Config, p: Policy, e: Policy, ip: nat, now: int)
    requires ValidConfig(c) && Same(c, p, e, now) && Roomy(c, p) && c.suspiciousWindow > 0
    ensures Same(c, Noted(c, p, ip, now), Noted(c, e, ip, now), now)
  {
    PushSame(p.suspicious, e.suspicious, ip, now, c.suspiciousWindow, c.maxClients);
    var s', e' := Push(p.suspicious, ip, now, c.suspiciousWindow, c.maxClients), Push(e.suspicious, ip, now, c.suspiciousWindow, c.maxClients);
    DroppedSame(s', e', ip, now - c.suspiciousWindow);
    WithBlockSame(p.blocks, e.blocks, ip, Suspicious, now, c);
  }

  lemma {:induction false} ObserveSame(c: Config, p: Policy, e: Policy, ip: nat, now: int)
    requires ValidConfig(c) && Same(c, p, e, now) && Roomy(c, p) && Timely(p, now) && Timely(e, now)
    ensures Same(c, Observe(c, p, ip, now, false), Observe(c, e, ip, now, true), now)
  {
    var r := Request(ip, false, false, true);
    StepsUnfold(c, p, r, ip, now, false);
    StepsUnfold(c, e, r, ip, now, true);
    SweptSame(c, p, e, now);
    CleanedIsRoomy(c, p, now);
    if c.suspiciousLimit > 0 && c.suspiciousWindow > 0 {
      NotedSame(c, Swept(c, p, now, false), Swept(c, e, now, true), ip, now);
    }
  }

  // Nothing is noted before its time, in either policy.

  lemma {:induction false} EvictedIsPart(s: Store, cap: nat, now: int)
    requires NothingLate(s, now)
    ensures NothingLate(Evicted(s, cap), now)
    decreases |s.order|
  {
    if |s.rows| >= cap && |s.order| > 0 {
      EvictedIsPart(Store(s.rows - {s.order[0]}, s.order[1..]), cap, now);
    }
  }

  lemma {:induction false} AnyPushIsTimely(s: Store, ip: nat, now: int, window: int, cap: nat)
    requires NothingLate(s, now)
    ensures NothingLate(Push(s, ip, now, window, cap), now)
  {
    EvictedIsPart(s, cap, now);
    var all := RowsOf(s, ip) + [now];
    var t := Push(s, ip, now, window, cap);
    forall k, i | k in t.rows && 0 <= i < |t.rows[k]|
      ensures t.rows[k][i] <= now
    {
      if k == ip {
        TrimIsSuffix(all, now - window, i);
      }
    }
  }

  lemma {:induction false} EvaluateIsTimely(c: Config, p: Policy, r: Request, now: int, eager: bool)
    requires Timely(p, now)
    ensures Timely(Evaluate(c, p, r, now, eager).1, now)
  {
    StepsUnfold(c, p, r, r.ip, now, eager);
    SweptIsTimely(c, p, now, eager);
    var p1 := Swept(c, p, now, eager);
    AnyPushIsTimely(p1.requests, r.ip, now, c.window, c.maxClients);
    AnyPushIsTimely(p1.violations, r.ip, now, c.violationWindow, c.maxClients);
  }

  lemma {:induction false} ObserveIsTimely(c: Config, p: Policy, ip: nat, now: int, eager: bool)
    requires Timely(p, now)
    ensures Timely(Observe(c, p, ip, now, eager), now)
  {
    StepsUnfold(c, p, Request(ip, false, false, true), ip, now, eager);
    SweptIsTimely(c, p, now, eager);
    AnyPushIsTimely(Swept(c, p, now, eager).suspicious, ip, now, c.suspiciousWindow, c.maxClients);
  }

  lemma {:induction false} LaterIsTimely(p: Policy, now: int, later: int)
    requires Timely(p, now) && now <= later
    ensures Timely(p, later)
  {
  }

  lemma {:induction false} NextIsTimely(c: Config, w: World, event: Event, eager: bool)
    requires Timely(w.policy, w.clock)
    ensures Timely(Next(c, w, event, eager).policy, Next(c, w, event, eager).clock)
  {
    LaterIsTimely(w.policy, w.clock, w.clock + event.elapsed);
    match event
    case Ask(r, _) => EvaluateIsTimely(c, w.policy, r, w.clock + event.elapsed, eager);
    case Seen(ip, _) => ObserveIsTimely(c, w.policy, ip, w.clock + event.elapsed, eager);
  }

  lemma {:induction false} RunIsTimely(c: Config, start: int, events: seq<Event>, eager: bool)
    ensures Timely(Run(c, start, events, eager).policy, Run(c, start, events, eager).clock)
    decreases |events|
  {
    if |events| > 0 {
      RunIsTimely(c, start, events[..|events| - 1], eager);
      NextIsTimely(c, Run(c, start, events[..|events| - 1], eager), events[|events| - 1], eager);
    }
  }

  /** No cap is reached anywhere in the run of the rarely sweeping policy. */
  ghost predicate AlwaysRoomy(c: Config, start: int, events: seq<Event>) {
    forall i :: 0 <= i < |events| ==> Roomy(c, Run(c, start, events[..i], false).policy)
  }

  /**
   * Of requests in the order of their times, sweeping at most once an interval decides each as
   * sweeping at every one would, while no tracking cap is reached.
   */
  lemma {:induction false} ThrottlingDecidesTheSame(c: Config, start: int, events: seq<Event>)
    requires ValidConfig(c) && AlwaysRoomy(c, start, events)
    ensures Run(c, start, events, false).decisions == Run(c, start, events, true).decisions
    ensures Run(c, start, events, false).clock == Run(c, start, events, true).clock
    ensures Same(c, Run(c, start, events, false).policy, Run(c, start, events, true).policy, Run(c, start, events, true).clock)
    decreases |events|
  {
    if |events| > 0 {
      var front, event := events[..|events| - 1], events[|events| - 1];
      forall i | 0 <= i < |front|
        ensures Roomy(c, Run(c, start, front[..i], false).policy)
      {
        assert front[..i] == events[..i];
      }
      ThrottlingDecidesTheSame(c, start, front);
      RunIsTimely(c, start, front, false);
      RunIsTimely(c, start, front, true);
      NextSame(c, Run(c, start, front, false), Run(c, start, front, true), event);
    }
  }

  lemma {:induction false} NextSame(c: Config, w: World, v: World, event: Event)
    requires ValidConfig(c) && Roomy(c, w.policy) && w.clock == v.clock && w.decisions == v.decisions
    requires Same(c, w.policy, v.policy, w.clock) && Timely(w.policy, w.clock) && Timely(v.policy, v.clock)
    ensures var w', v' := Next(c, w, event, false), Next(c, v, event, true);
            w'.decisions == v'.decisions && w'.clock == v'.clock && Same(c, w'.policy, v'.policy, w'.clock)
  {
    var now := w.clock + event.elapsed;
    SameLater(c, w.policy, v.policy, w.clock, now);
    LaterIsTimely(w.policy, w.clock, now);
    LaterIsTimely(v.policy, v.clock, now);
    match event
    case Ask(r, _) => EvaluateSame(c, w.policy, v.policy, r, now);
    case Seen(ip, _) => ObserveSame(c, w.policy, v.policy, ip, now);
  }

  // The rate of one client.

  /** The requests of one client that were counted, and which of them were allowed; whether its row was ever evicted. */
  datatype History = History(times: seq<int>, allowed: seq<bool>, evicted: bool)

  /** The request reaches the rate limit. */
  predicate Counted(c: Config, p: Policy, r: Request, now: int) {
    Limits(c, r) && Active(p.blocks, r.ip, now).None? && !r.blacklisted
  }

  function Recorded(c: Config, w: World, h: History, event: Event, ip: nat, eager: bool): History {
    var w' := Next(c, w, event, eager);
    var swept := Swept(c, w.policy, w'.clock, eager);
    var h' := h.(evicted := h.evicted || (ip in swept.requests.rows && ip !in w'.policy.requests.rows));
    if event.Ask? && event.request.ip == ip && Counted(c, swept, event.request, w'.clock)
    then h'.(times := h.times + [w'.clock], allowed := h.allowed + [Evaluate(c, w.policy, event.request, w'.clock, eager).0 == Allowed])
    else h'
  }

  function HistoryOf(c: Config, start: int, events: seq<Event>, ip: nat, eager: bool): History
    decreases |events|
  {
    if |events| == 0 then History([], [], false)
    else
      var front := events[..|events| - 1];
      Recorded(c, Run(c, start, front, eager), HistoryOf(c, start, front, ip, eager), events[|events| - 1], ip, eager)
  }

  ghost predicate Increasing(times: seq<int>, clock: int) {
    (forall i, j :: 0 <= i < j < |times| ==> times[i] <= times[j]) && forall i :: 0 <= i < |times| ==> times[i] <= clock
  }

  /** When a request was allowed, no more than the limit had been counted in the window behind it. */
  ghost predicate WithinLimit(c: Config, h: History, k: nat)
    requires k < |h.times| == |h.allowed|
  {
    h.allowed[k] ==> |Trim(h.times[..k + 1], h.times[k] - c.window)| <= c.limit
  }

  ghost predicate HistoryInv(c: Config, p: Policy, clock: int, h: History, ip: nat) {
    && |h.times| == |h.allowed| && Increasing(h.times, clock)
    && (!h.evicted ==>
          Trim(RowsOf(p.requests, ip), clock - c.window) == Trim(h.times, clock - c.window) &&
          forall k :: 0 <= k < |h.times| ==> WithinLimit(c, h, k))
  }

  /** A row is only touched by its own client's pushes, unless eviction takes it. */
  lemma {:induction false} OtherRowStays(s: Store, ip: nat, other: nat, now: int, window: int, cap: nat)
    requires other != ip
    ensures var t := Push(s, ip, now, window, cap);
            (other in t.rows ==> other in s.rows && t.rows[other] == s.rows[other]) && (other !in s.rows ==> other !in t.rows)
  {
    EvictedKeepsRows(s, cap, other);
  }

  lemma {:induction false} EvictedKeepsRows(s: Store, cap: nat, ip: nat)
    ensures var t := Evicted(s, cap); ip in t.rows ==> ip in s.rows && t.rows[ip] == s.rows[ip]
    decreases |s.order|
  {
    if |s.rows| >= cap && |s.order| > 0 {
      EvictedKeepsRows(Store(s.rows - {s.order[0]}, s.order[1..]), cap, ip);
    }
  }

  /** What a step does to the request rows and what it decides, for a client that is counted or not. */
  lemma {:induction false} JudgeRequests(c: Config, p: Policy, r: Request, now: int)
    ensures var (d, p') := Judge(c, p, r, now);
            if Counted(c, p, r, now)
            then p'.requests == Push(p.requests, r.ip, now, c.window, c.maxClients) &&
                 (d == Allowed ==> |RowsOf(p'.requests, r.ip)| <= c.limit)
            else p'.requests == p.requests
  {
  }

  lemma {:induction false} PushedRow(s: Store, ip: nat, now: int, window: int, cap: nat)
    ensures RowsOf(Push(s, ip, now, window, cap), ip) == Trim(RowsOf(s, ip) + [now], now - window)
    ensures ip in Push(s, ip, now, window, cap).rows
  {
  }

  lemma {:induction false} SweptRow(c: Config, p: Policy, now: int, ip: nat, eager: bool)
    requires ValidConfig(c) && Timely(p, now)
    ensures Trim(RowsOf(Swept(c, p, now, eager).requests, ip), now - c.window) == Trim(RowsOf(p.requests, ip), now - c.window)
  {
    PrunedKeeps(p.requests, now, c.window, ip);
  }

  lemma {:induction false} NotCountedKeeps(c: Config, s: Store, t: Store, clock: int, h: History, h': History, ip: nat)
    requires |h.times| == |h.allowed| && Increasing(h.times, clock)
    requires h' == h.(evicted := h.evicted || (ip in s.rows && ip !in t.rows))
    requires ip in t.rows ==> ip in s.rows && t.rows[ip] == s.rows[ip]
    requires !h.evicted ==> Trim(RowsOf(s, ip), clock - c.window) == Trim(h.times, clock - c.window) &&
                            forall k :: 0 <= k < |h.times| ==> WithinLimit(c, h, k)
    ensures !h'.evicted ==> Trim(RowsOf(t, ip), clock - c.window) == Trim(h'.times, clock - c.window) &&
                            forall k :: 0 <= k < |h'.times| ==> WithinLimit(c, h', k)
  {
    if !h'.evicted {
      forall k | 0 <= k < |h'.times|
        ensures WithinLimit(c, h', k)
      {
        assert WithinLimit(c, h, k);
      }
    }
  }

  lemma {:induction false} CountedKeeps(c: Config, s: Store, t: Store, now: int, h: History, allowed: bool, ip: nat)
    requires |h.times| == |h.allowed| && Increasing(h.times, now) && c.window > 0
    requires RowsOf(t, ip) == Trim(RowsOf(s, ip) + [now], now - c.window)
    requires allowed ==> |RowsOf(t, ip)| <= c.limit
    requires Trim(RowsOf(s, ip), now - c.window) == Trim(h.times, now - c.window)
    requires forall k :: 0 <= k < |h.times| ==> WithinLimit(c, h, k)
    ensures var h' := h.(times := h.times + [now], allowed := h.allowed + [allowed]);
            Trim(RowsOf(t, ip), now - c.window) == Trim(h'.times, now - c.window) && Increasing(h'.times, now) &&
            forall k :: 0 <= k < |h'.times| ==> WithinLimit(c, h', k)
  {
    var h' := h.(times := h.times + [now], allowed := h.allowed + [allowed]);
    TrimSnoc(RowsOf(s, ip), now, now - c.window);
    TrimSnoc(h.times, now, now - c.window);
    TrimTwice(RowsOf(s, ip) + [now], now - c.window, now - c.window);
    forall k | 0 <= k < |h'.times|
      ensures WithinLimit(c, h', k)
    {
      if k < |h.times| {
        assert WithinLimit(c, h, k);
        assert h'.times[..k + 1] == h.times[..k + 1];
      } else {
        assert h'.times[..k + 1] == h'.times;
      }
    }
  }

  /** Up to the sweep of a step the row and the history agree. */
  lemma {:induction false} BeforeStep(c: Config, w: World, h: History, now: int, ip: nat, eager: bool)
    requires ValidConfig(c) && HistoryInv(c, w.policy, w.clock, h, ip) && Timely(w.policy, w.clock) && w.clock <= now
    ensures Increasing(h.times, now)
    ensures !h.evicted ==>
              Trim(RowsOf(Swept(c, w.policy, now, eager).requests, ip), now - c.window) == Trim(h.times, now - c.window) &&
              forall k :: 0 <= k < |h.times| ==> WithinLimit(c, h, k)
  {
    LaterIsTimely(w.policy, w.clock, now);
    SweptRow(c, w.policy, now, ip, eager);
    TrimTwice(RowsOf(w.policy.requests, ip), w.clock - c.window, now - c.window);
    TrimTwice(h.times, w.clock - c.window, now - c.window);
  }

  lemma {:induction false} AskedKeeps(c: Config, w: World, h: History, r: Request, elapsed: nat, ip: nat, eager: bool)
    requires ValidConfig(c) && c.limit > 0 && c.window > 0
    requires HistoryInv(c, w.policy, w.clock, h, ip) && Timely(w.policy, w.clock)
    ensures var w' := Next(c, w, Ask(r, elapsed), eager);
            HistoryInv(c, w'.policy, w'.clock, Recorded(c, w, h, Ask(r, elapsed), ip, eager), ip)
  {
    var now := w.clock + elapsed;
    var swept := Swept(c, w.policy, now, eager);
    BeforeStep(c, w, h, now, ip, eager);
    StepsUnfold(c, w.policy, r, r.ip, now, eager);
    JudgeRequests(c, swept, r, now);
    var t := Judge(c, swept, r, now).1.requests;
    var h1 := h.(evicted := h.evicted || (ip in swept.requests.rows && ip !in t.rows));
    if Counted(c, swept, r, now) && r.ip == ip {
      PushedRow(swept.requests, ip, now, c.window, c.maxClients);
      if !h.evicted {
        CountedKeeps(c, swept.requests, t, now, h1, Judge(c, swept, r, now).0 == Allowed, ip);
      }
    } else {
      if Counted(c, swept, r, now) {
        OtherRowStays(swept.requests, r.ip, ip, now, c.window, c.maxClients);
      }
      NotCountedKeeps(c, swept.requests, t, now, h, h1, ip);
    }
  }

  lemma {:induction false} SeenKeeps(c: Config, w: World, h: History, seen: nat, elapsed: nat, ip: nat, eager: bool)
    requires ValidConfig(c) && HistoryInv(c, w.policy, w.clock, h, ip) && Timely(w.policy, w.clock)
    ensures var w' := Next(c, w, Seen(seen, elapsed), eager);
            HistoryInv(c, w'.policy, w'.clock, Recorded(c, w, h, Seen(seen, elapsed), ip, eager), ip)
  {
    var now := w.clock + elapsed;
    var swept := Swept(c, w.policy, now, eager);
    BeforeStep(c, w, h, now, ip, eager);
    StepsUnfold(c, w.policy, Request(seen, false, false, true), seen, now, eager);
    assert Observe(c, w.policy, seen, now, eager).requests == swept.requests;
    NotCountedKeeps(c, swept.requests, swept.requests, now, h, Recorded(c, w, h, Seen(seen, elapsed), ip, eager), ip);
  }

  lemma {:induction false} RunRecords(c: Config, start: int, events: seq<Event>, ip: nat, eager: bool)
    requires ValidConfig(c) && c.limit > 0 && c.window > 0
    ensures var w := Run(c, start, events, eager); HistoryInv(c, w.policy, w.clock, HistoryOf(c, start, events, ip, eager), ip)
    decreases |events|
  {
    if |events| > 0 {
      var front, event := events[..|events| - 1], events[|events| - 1];
      var w, h := Run(c, start, front, eager), HistoryOf(c, start, front, ip, eager);
      RunRecords(c, start, front, ip, eager);
      RunIsTimely(c, start, front, eager);
      match event
      case Ask(r, elapsed) => AskedKeeps(c, w, h, r, elapsed, ip, eager);
      case Seen(seen, elapsed) => SeenKeeps(c, w, h, seen, elapsed, ip, eager);
    }
  }

  // Counting.

  /** How many of the first `n` requests were allowed at a time in (low, high]. */
  function AllowedIn(h: History, low: int, high: int, n: nat): nat
    requires n <= |h.times| == |h.allowed|
    decreases n
  {
    if n == 0 then 0
    else AllowedIn(h, low, high, n - 1) + (if h.allowed[n - 1] && low < h.times[n - 1] <= high then 1 else 0)
  }

  function CountAbove(times: seq<int>, low: int): nat
    decreases |times|
  {
    if |times| == 0 then 0 else CountAbove(times[..|times| - 1], low) + (if times[|times| - 1] > low then 1 else 0)
  }

  lemma {:induction false} AllowedAreAbove(h: History, low: int, high: int, below: int, n: nat)
    requires n <= |h.times| == |h.allowed| && below <= low
    ensures AllowedIn(h, low, high, n) <= CountAbove(h.times[..n], below)
    decreases n
  {
    if n > 0 {
      AllowedAreAbove(h, low, high, below, n - 1);
      assert h.times[..n][..n - 1] == h.times[..n - 1];
    }
  }

  /** Of times in order, trimming keeps exactly those above the threshold. */
  lemma {:induction false} TrimCounts(times: seq<int>, threshold: int)
    requires forall i, j :: 0 <= i < j < |times| ==> times[i] <= times[j]
    ensures |Trim(times, threshold)| == CountAbove(times, threshold)
    decreases |times|
  {
    TrimUnfolds(times, threshold);
    if |times| > 0 {
      if times[0] <= threshold {
        TrimCounts(times[1..], threshold);
        CountFirst(times, threshold);
      } else {
        AllAbove(times, threshold);
      }
    }
  }

  lemma {:induction false} CountFirst(times: seq<int>, threshold: int)
    requires |times| > 0
    ensures CountAbove(times, threshold) == CountAbove(times[1..], threshold) + (if times[0] > threshold then 1 else 0)
    decreases |times|
  {
    if |times| > 1 {
      CountFirst(times[..|times| - 1], threshold);
      assert times[1..][..|times| - 2] == times[..|times| - 1][1..];
    } else {
      assert times[..0] == [] && times[1..] == [];
    }
  }

  lemma {:induction false} AllAbove(times: seq<int>, threshold: int)
    requires forall i :: 0 <= i < |times| ==> times[i] > threshold
    ensures CountAbove(times, threshold) == |times|
    decreases |times|
  {
    if |times| > 0 {
      AllAbove(times[..|times| - 1], threshold);
    }
  }

  lemma {:induction false} AllowedWithinLimit(c: Config, h: History, clock: int, high: int, n: nat)
    requires n <= |h.times| == |h.allowed| && Increasing(h.times, clock) && forall k :: 0 <= k < |h.times| ==> WithinLimit(c, h, k)
    ensures AllowedIn(h, high - c.window, high, n) <= c.limit
    decreases n
  {
    if n > 0 {
      if h.allowed[n - 1] && high - c.window < h.times[n - 1] <= high {
        assert WithinLimit(c, h, n - 1);
        AllowedAreAbove(h, high - c.window, high, h.times[n - 1] - c.window, n);
        TrimCounts(h.times[..n], h.times[n - 1] - c.window);
      } else {
        AllowedWithinLimit(c, h, clock, high, n - 1);
      }
    }
  }

  /**
   * However a run goes in which requests are judged in the order of their times, and however
   * often it sweeps: no window of the configured length holds more allowed requests of a client,
   * of those the limits apply to, than the configured number, unless its row was evicted for
   * want of room. RateLimiterDisorder drops the order, RateLimiterRoom says when none is evicted.
   */
  lemma {:induction false} RateIsKept(c: Config, start: int, events: seq<Event>, ip: nat, eager: bool, high: int)
    requires ValidConfig(c) && c.limit > 0 && c.window > 0
    ensures var h := HistoryOf(c, start, events, ip, eager);
            |h.times| == |h.allowed| && (!h.evicted ==> AllowedIn(h, high - c.window, high, |h.times|) <= c.limit)
  {
    RunRecords(c, start, events, ip, eager);
    var w, h := Run(c, start, events, eager), HistoryOf(c, start, events, ip, eager);
    if !h.evicted {
      AllowedWithinLimit(c, h, w.clock, high, |h.times|);
    }
  }
}
