/**
 * The limiter when requests are judged out of the order of their times: each takes the time
 * before it waits for the lock.
 */
module RateLimiterDisorder {
  import opened RateLimiter
  import opened RateLimiterLaws

  datatype Moment = AskedAt(request: Request, now: int) | SeenAt(ip: nat, now: int)

  function Met(c: Config, p: Policy, m: Moment, eager: bool): Policy {
    match m
    case AskedAt(r, now) => Evaluate(c, p, r, now, eager).1
    case SeenAt(ip, now) => Observe(c, p, ip, now, eager)
  }

  function Play(c: Config, moments: seq<Moment>, eager: bool): Policy
    decreases |moments|
  {
    if |moments| == 0 then NEW_POLICY
    else Met(c, Play(c, moments[..|moments| - 1], eager), moments[|moments| - 1], eager)
  }

  function Told(c: Config, p: Policy, h: History, m: Moment, ip: nat, eager: bool): History {
    var swept, p' := Swept(c, p, m.now, eager), Met(c, p, m, eager);
    var h' := h.(evicted := h.evicted || (ip in swept.requests.rows && ip !in p'.requests.rows));
    if m.AskedAt? && m.request.ip == ip && Counted(c, swept, m.request, m.now)
    then h'.(times := h.times + [m.now], allowed := h.allowed + [Evaluate(c, p, m.request, m.now, eager).0 == Allowed])
    else h'
  }

  function StoryOf(c: Config, moments: seq<Moment>, ip: nat, eager: bool): History
    decreases |moments|
  {
    if |moments| == 0 then History([], [], false)
    else
      var front := moments[..|moments| - 1];
      Told(c, Play(c, front, eager), StoryOf(c, front, ip, eager), moments[|moments| - 1], ip, eager)
  }

  /** No moment comes more than `late` after its time, as told by the others. */
  ghost predicate LateBy(moments: seq<Moment>, late: nat) {
    forall i, j :: 0 <= i < j < |moments| ==> moments[i].now <= moments[j].now + late
  }

  // Counting what is above a threshold.

  lemma {:induction false} TrimKeepsCount(rows: seq<int>, threshold: int, low: int)
    requires threshold <= low
    ensures CountAbove(Trim(rows, threshold), low) == CountAbove(rows, low)
    decreases |rows|
  {
    TrimUnfolds(rows, threshold);
    if |rows| > 0 && rows[0] <= threshold {
      TrimKeepsCount(rows[1..], threshold, low);
      CountFirst(rows, low);
    }
  }

  lemma {:induction false} CountSnoc(times: seq<int>, time: int, low: int)
    ensures CountAbove(times + [time], low) == CountAbove(times, low) + (if time > low then 1 else 0)
  {
    assert (times + [time])[..|times|] == times;
  }

  lemma {:induction false} CountAtMost(times: seq<int>, low: int)
    ensures CountAbove(times, low) <= |times|
    decreases |times|
  {
    if |times| > 0 {
      CountAtMost(times[..|times| - 1], low);
    }
  }

  lemma {:induction false} SweptKeepsCount(c: Config, p: Policy, now: int, ip: nat, eager: bool, low: int)
    requires ValidConfig(c) && c.window > 0 && now - c.window <= low
    ensures CountAbove(RowsOf(Swept(c, p, now, eager).requests, ip), low) == CountAbove(RowsOf(p.requests, ip), low)
  {
    PrunedRow(p.requests, now, c.window, ip);
    TrimKeepsCount(RowsOf(p.requests, ip), now - c.window, low);
  }

  // What a run keeps.

  /** No trimming so far can have taken a time above `low`. */
  ghost predicate Clears(c: Config, moments: seq<Moment>, low: int) {
    forall i :: 0 <= i < |moments| ==> moments[i].now - c.window <= low
  }

  /** When a request was allowed, no more than the limit had been counted since a window, less the lateness, before it. */
  ghost predicate WithinLimitLate(c: Config, h: History, late: nat, k: nat)
    requires k < |h.times| == |h.allowed|
  {
    h.allowed[k] ==> CountAbove(h.times[..k + 1], h.times[k] + late - c.window) <= c.limit
  }

  ghost predicate StoryInv(c: Config, moments: seq<Moment>, p: Policy, h: History, ip: nat, late: nat) {
    |h.times| == |h.allowed| &&
    (!h.evicted ==>
       (forall low :: Clears(c, moments, low) ==> CountAbove(RowsOf(p.requests, ip), low) == CountAbove(h.times, low)) &&
       forall k :: 0 <= k < |h.times| ==> WithinLimitLate(c, h, late, k))
  }

  /** A moment at which the client is not counted. */
  lemma {:induction false} UncountedKeeps(c: Config, moments: seq<Moment>, m: Moment, s: Store, t: Store, h: History, h': History, ip: nat, late: nat)
    requires |h.times| == |h.allowed| && h' == h.(evicted := h.evicted || (ip in s.rows && ip !in t.rows))
    requires ip in t.rows ==> ip in s.rows && t.rows[ip] == s.rows[ip]
    requires !h.evicted ==>
               (forall low :: Clears(c, moments + [m], low) ==> CountAbove(RowsOf(s, ip), low) == CountAbove(h.times, low)) &&
               forall k :: 0 <= k < |h.times| ==> WithinLimitLate(c, h, late, k)
    ensures !h'.evicted ==>
              (forall low :: Clears(c, moments + [m], low) ==> CountAbove(RowsOf(t, ip), low) == CountAbove(h'.times, low)) &&
              forall k :: 0 <= k < |h'.times| ==> WithinLimitLate(c, h', late, k)
  {
    if !h'.evicted {
      assert RowsOf(t, ip) == RowsOf(s, ip);
      forall k | 0 <= k < |h'.times|
        ensures WithinLimitLate(c, h', late, k)
      {
        assert WithinLimitLate(c, h, late, k);
      }
    }
  }

  /** A moment at which the client is counted, and perhaps allowed. */
  lemma {:induction false} CountedKeepsLate(c: Config, moments: seq<Moment>, m: Moment, s: Store, t: Store, h: History, allowed: bool, ip: nat, late: nat)
    requires |h.times| == |h.allowed| && c.window > 0 && LateBy(moments + [m], late)
    requires RowsOf(t, ip) == Trim(RowsOf(s, ip) + [m.now], m.now - c.window)
    requires allowed ==> |RowsOf(t, ip)| <= c.limit
    requires forall low :: Clears(c, moments + [m], low) ==> CountAbove(RowsOf(s, ip), low) == CountAbove(h.times, low)
    requires forall k :: 0 <= k < |h.times| ==> WithinLimitLate(c, h, late, k)
    ensures var h' := h.(times := h.times + [m.now], allowed := h.allowed + [allowed]);
            (forall low :: Clears(c, moments + [m], low) ==> CountAbove(RowsOf(t, ip), low) == CountAbove(h'.times, low)) &&
            forall k :: 0 <= k < |h'.times| ==> WithinLimitLate(c, h', late, k)
  {
    var all, h' := moments + [m], h.(times := h.times + [m.now], allowed := h.allowed + [allowed]);
    assert all[|moments|] == m;
    forall low | Clears(c, all, low)
      ensures CountAbove(RowsOf(t, ip), low) == CountAbove(h'.times, low)
    {
      assert all[|moments|].now - c.window <= low;
      TrimKeepsCount(RowsOf(s, ip) + [m.now], m.now - c.window, low);
      CountSnoc(RowsOf(s, ip), m.now, low);
      CountSnoc(h.times, m.now, low);
    }
    forall k | 0 <= k < |h'.times|
      ensures WithinLimitLate(c, h', late, k)
    {
      if k < |h.times| {
        assert WithinLimitLate(c, h, late, k);
        assert h'.times[..k + 1] == h.times[..k + 1];
      } else {
        assert h'.times[..k + 1] == h'.times;
        LatenessClears(c, moments, m, late);
        CountAtMost(RowsOf(t, ip), m.now + late - c.window);
      }
    }
  }

  lemma {:induction false} LatenessClears(c: Config, moments: seq<Moment>, m: Moment, late: nat)
    requires LateBy(moments + [m], late)
    ensures Clears(c, moments + [m], m.now + late - c.window)
  {
    var all := moments + [m];
    forall i | 0 <= i < |all|
      ensures all[i].now <= m.now + late
    {
      assert i < |moments| ==> all[i].now <= all[|moments|].now + late;
    }
  }

  lemma {:induction false} SweptAgrees(c: Config, moments: seq<Moment>, m: Moment, p: Policy, h: History, ip: nat, eager: bool, late: nat)
    requires ValidConfig(c) && c.window > 0 && StoryInv(c, moments, p, h, ip, late) && !h.evicted
    ensures forall low :: Clears(c, moments + [m], low) ==>
              CountAbove(RowsOf(Swept(c, p, m.now, eager).requests, ip), low) == CountAbove(h.times, low)
  {
    var all := moments + [m];
    forall low | Clears(c, all, low)
      ensures CountAbove(RowsOf(Swept(c, p, m.now, eager).requests, ip), low) == CountAbove(h.times, low)
    {
      assert all[|moments|].now - c.window <= low;
      assert forall i :: 0 <= i < |moments| ==> all[i] == moments[i];
      assert Clears(c, moments, low);
      SweptKeepsCount(c, p, m.now, ip, eager, low);
    }
  }

  lemma {:induction false} AskedKeepsStory(c: Config, moments: seq<Moment>, r: Request, now: int, p: Policy, h: History, ip: nat, eager: bool, late: nat)
    requires ValidConfig(c) && c.limit > 0 && c.window > 0 && StoryInv(c, moments, p, h, ip, late)
    requires LateBy(moments + [AskedAt(r, now)], late)
    ensures var m := AskedAt(r, now);
            StoryInv(c, moments + [m], Met(c, p, m, eager), Told(c, p, h, m, ip, eager), ip, late)
  {
    var m := AskedAt(r, now);
    var swept := Swept(c, p, now, eager);
    StepsUnfold(c, p, r, r.ip, now, eager);
    JudgeRequests(c, swept, r, now);
    var t := Judge(c, swept, r, now).1.requests;
    if !h.evicted {
      SweptAgrees(c, moments, m, p, h, ip, eager, late);
    }
    if Counted(c, swept, r, now) && r.ip == ip {
      PushedRow(swept.requests, ip, now, c.window, c.maxClients);
      if !h.evicted {
        CountedKeepsLate(c, moments, m, swept.requests, t, h, Judge(c, swept, r, now).0 == Allowed, ip, late);
      }
    } else {
      if Counted(c, swept, r, now) {
        OtherRowStays(swept.requests, r.ip, ip, now, c.window, c.maxClients);
      }
      UncountedKeeps(c, moments, m, swept.requests, t, h, Told(c, p, h, m, ip, eager), ip, late);
    }
  }

  lemma {:induction false} SeenKeepsStory(c: Config, moments: seq<Moment>, seen: nat, now: int, p: Policy, h: History, ip: nat, eager: bool, late: nat)
    requires ValidConfig(c) && c.window > 0 && StoryInv(c, moments, p, h, ip, late)
    ensures var m := SeenAt(seen, now);
            StoryInv(c, moments + [m], Met(c, p, m, eager), Told(c, p, h, m, ip, eager), ip, late)
  {
    var m := SeenAt(seen, now);
    var swept := Swept(c, p, now, eager);
    StepsUnfold(c, p, Request(seen, false, false, true), seen, now, eager);
    assert Met(c, p, m, eager).requests == swept.requests;
    if !h.evicted {
      SweptAgrees(c, moments, m, p, h, ip, eager, late);
    }
    UncountedKeeps(c, moments, m, swept.requests, swept.requests, h, Told(c, p, h, m, ip, eager), ip, late);
  }

  lemma {:induction false} PlayTells(c: Config, moments: seq<Moment>, ip: nat, eager: bool, late: nat)
    requires ValidConfig(c) && c.limit > 0 && c.window > 0 && LateBy(moments, late)
    ensures StoryInv(c, moments, Play(c, moments, eager), StoryOf(c, moments, ip, eager), ip, late)
    decreases |moments|
  {
    if |moments| > 0 {
      var front, m := moments[..|moments| - 1], moments[|moments| - 1];
      PlayTells(c, front, ip, eager, late);
      assert front + [m] == moments;
      var p, h := Play(c, front, eager), StoryOf(c, front, ip, eager);
      match m
      case AskedAt(r, now) => AskedKeepsStory(c, front, r, now, p, h, ip, eager, late);
      case SeenAt(seen, now) => SeenKeepsStory(c, front, seen, now, p, h, ip, eager, late);
    }
  }

  lemma {:induction false} AllowedWithinLimitLate(c: Config, h: History, late: nat, high: int, n: nat)
    requires n <= |h.times| == |h.allowed| && forall k :: 0 <= k < |h.times| ==> WithinLimitLate(c, h, late, k)
    ensures AllowedIn(h, high + late - c.window, high, n) <= c.limit
    decreases n
  {
    if n > 0 {
      if h.allowed[n - 1] && high + late - c.window < h.times[n - 1] <= high {
        assert WithinLimitLate(c, h, late, n - 1);
        AllowedAreAbove(h, high + late - c.window, high, h.times[n - 1] + late - c.window, n);
      } else {
        AllowedWithinLimitLate(c, h, late, high, n - 1);
      }
    }
  }

  /**
   * When no request is judged more than `late` out of the order of the times: no window shorter
   * by that holds more allowed requests of a client than configured, unless its row was evicted.
   */
  lemma {:induction false} LateRateIsKept(c: Config, moments: seq<Moment>, ip: nat, eager: bool, late: nat, high: int)
    requires ValidConfig(c) && c.limit > 0 && c.window > 0 && LateBy(moments, late)
    ensures var h := StoryOf(c, moments, ip, eager);
            |h.times| == |h.allowed| && (!h.evicted ==> AllowedIn(h, high + late - c.window, high, |h.times|) <= c.limit)
  {
    PlayTells(c, moments, ip, eager, late);
    var h := StoryOf(c, moments, ip, eager);
    if !h.evicted {
      AllowedWithinLimitLate(c, h, late, high, |h.times|);
    }
  }

  // The shorter window is the best that holds.

  /** Nothing is blocked, and the client's row is this. */
  ghost predicate Calm(p: Policy, ip: nat, row: seq<int>) {
    p.blocks.rows == map[] && RowsOf(p.requests, ip) == row
  }

  lemma {:induction false} CalmRequest(c: Config, p: Policy, r: Request, now: int, eager: bool, row: seq<int>)
    requires ValidConfig(c) && c.limit > 0 && c.window > 0 && Calm(p, r.ip, row)
    requires !r.bypasses && !r.blacklisted && r.ruleAllows && r.ip != UNRESOLVED
    requires |Trim(row, now - c.window)| < c.limit
    ensures var (d, p') := Evaluate(c, p, r, now, eager);
            d == Allowed && Calm(p', r.ip, Trim(row, now - c.window) + [now]) && r.ip in p'.requests.rows &&
            Counted(c, Swept(c, p, now, eager), r, now)
  {
    var swept := Swept(c, p, now, eager);
    var before := RowsOf(swept.requests, r.ip);
    StepsUnfold(c, p, r, r.ip, now, eager);
    PrunedRow(p.requests, now, c.window, r.ip);
    TrimTwice(row, now - c.window, now - c.window);
    assert Trim(before, now - c.window) == Trim(row, now - c.window);
    TrimSnoc(before, now, now - c.window);
    assert swept.blocks.rows == map[];
    PushedRow(swept.requests, r.ip, now, c.window, c.maxClients);
  }

  /** The moment is noted as allowed. */
  lemma {:induction false} CalmMoment(c: Config, moments: seq<Moment>, r: Request, now: int, eager: bool, row: seq<int>, h: History)
    requires ValidConfig(c) && c.limit > 0 && c.window > 0 && Calm(Play(c, moments, eager), r.ip, row)
    requires !r.bypasses && !r.blacklisted && r.ruleAllows && r.ip != UNRESOLVED
    requires |Trim(row, now - c.window)| < c.limit && StoryOf(c, moments, r.ip, eager) == h && !h.evicted
    ensures var all := moments + [AskedAt(r, now)];
            Calm(Play(c, all, eager), r.ip, Trim(row, now - c.window) + [now]) &&
            StoryOf(c, all, r.ip, eager) == History(h.times + [now], h.allowed + [true], false)
  {
    var all := moments + [AskedAt(r, now)];
    assert all[..|moments|] == moments && all[|moments|] == AskedAt(r, now);
    CalmRequest(c, Play(c, moments, eager), r, now, eager, row);
  }

  function Copies<T>(x: T, n: nat): (r: seq<T>)
    ensures |r| == n && forall i :: 0 <= i < n ==> r[i] == x
    decreases n
  {
    if n == 0 then [] else Copies(x, n - 1) + [x]
  }

  lemma {:induction false} TrimNone(rows: seq<int>, threshold: int)
    requires forall i :: 0 <= i < |rows| ==> rows[i] > threshold
    ensures Trim(rows, threshold) == rows
  {
    TrimUnfolds(rows, threshold);
  }

  /** As many requests as the limit, one a window later, and one that took its time `late` before that one but is judged after it. */
  function Overtaken(c: Config, ip: nat, time: int, late: nat): seq<Moment> {
    var r := Request(ip, false, false, true);
    Copies(AskedAt(r, time - c.window), c.limit) + [AskedAt(r, time)] + [AskedAt(r, time - late)]
  }

  /** As many requests at once as the limit are all allowed. */
  lemma {:induction false} AllAtOnceAllowed(c: Config, ip: nat, first: int, n: nat, eager: bool)
    requires ValidConfig(c) && 0 < c.limit && n <= c.limit && c.window > 0 && ip != UNRESOLVED
    ensures var moments := Copies(AskedAt(Request(ip, false, false, true), first), n);
            Calm(Play(c, moments, eager), ip, Copies(first, n)) &&
            StoryOf(c, moments, ip, eager) == History(Copies(first, n), Copies(true, n), false)
    decreases n
  {
    if n > 0 {
      var r := Request(ip, false, false, true);
      AllAtOnceAllowed(c, ip, first, n - 1, eager);
      TrimNone(Copies(first, n - 1), first - c.window);
      CalmMoment(c, Copies(AskedAt(r, first), n - 1), r, first, eager, Copies(first, n - 1),
                 History(Copies(first, n - 1), Copies(true, n - 1), false));
    }
  }

  lemma {:induction false} AllAreAllowed(c: Config, ip: nat, time: int, late: nat, eager: bool)
    requires ValidConfig(c) && c.limit >= 2 && 0 < late <= c.window && ip != UNRESOLVED
    ensures StoryOf(c, Overtaken(c, ip, time, late), ip, eager) ==
            History(Copies(time - c.window, c.limit) + [time] + [time - late], Copies(true, c.limit) + [true] + [true], false)
  {
    var r := Request(ip, false, false, true);
    var moments := ManyAtOnce(c, ip, time - c.window, eager);
    var all := moments + [AskedAt(r, time)] + [AskedAt(r, time - late)];
    assert Overtaken(c, ip, time, late) == all;
    LastTwoAllowed(c, moments, all, ip, time, late, eager);
  }

  lemma {:induction false} ManyAtOnce(c: Config, ip: nat, first: int, eager: bool) returns (moments: seq<Moment>)
    requires ValidConfig(c) && 0 < c.limit && c.window > 0 && ip != UNRESOLVED
    ensures moments == Copies(AskedAt(Request(ip, false, false, true), first), c.limit)
    ensures Calm(Play(c, moments, eager), ip, Copies(first, c.limit))
    ensures StoryOf(c, moments, ip, eager) == History(Copies(first, c.limit), Copies(true, c.limit), false)
  {
    AllAtOnceAllowed(c, ip, first, c.limit, eager);
    moments := Copies(AskedAt(Request(ip, false, false, true), first), c.limit);
  }

  lemma {:induction false} LastTwoAllowed(c: Config, moments: seq<Moment>, all: seq<Moment>, ip: nat, time: int, late: nat, eager: bool)
    requires var r := Request(ip, false, false, true); all == moments + [AskedAt(r, time)] + [AskedAt(r, time - late)]
    requires ValidConfig(c) && c.limit >= 2 && 0 < late <= c.window && ip != UNRESOLVED
    requires Calm(Play(c, moments, eager), ip, Copies(time - c.window, c.limit))
    requires StoryOf(c, moments, ip, eager) == History(Copies(time - c.window, c.limit), Copies(true, c.limit), false)
    ensures StoryOf(c, all, ip, eager) ==
            History(Copies(time - c.window, c.limit) + [time] + [time - late], Copies(true, c.limit) + [true] + [true], false)
  {
    var r, row := Request(ip, false, false, true), Copies(time - c.window, c.limit);
    var h := History(row, Copies(true, c.limit), false);
    TrimAll(row, time - c.window);
    TrimNone([time], time - late - c.window);
    CalmMoment(c, moments, r, time, eager, row, h);
    assert [] + [time] == [time];
    CalmMoment(c, moments + [AskedAt(r, time)], r, time - late, eager, [time], History(h.times + [time], h.allowed + [true], false));
  }

  /** The requests at once all count in a window that reaches behind them. */
  lemma {:induction false} AllInWindow(h: History, first: int, low: int, high: int, n: nat)
    requires n <= |h.times| == |h.allowed| && low < first <= high
    requires forall i :: 0 <= i < n ==> h.times[i] == first && h.allowed[i]
    ensures AllowedIn(h, low, high, n) == n
    decreases n
  {
    if n > 0 {
      AllInWindow(h, first, low, high, n - 1);
    }
  }

  /**
   * However little late a request is judged, every window longer than the shortened one can hold
   * more than the limit, whatever the limit from two on.
   */
  lemma {:induction false} LateRateIsTight(c: Config, ip: nat, time: int, late: nat, eager: bool, length: int)
    requires ValidConfig(c) && c.limit >= 2 && 0 < late <= c.window && ip != UNRESOLVED && length > c.window - late
    ensures var moments := Overtaken(c, ip, time, late);
            var h := StoryOf(c, moments, ip, eager);
            LateBy(moments, late) && !h.evicted && |h.times| == |h.allowed| &&
            AllowedIn(h, time - late - length, time - late, |h.times|) > c.limit
  {
    AllAreAllowed(c, ip, time, late, eager);
    var h := StoryOf(c, Overtaken(c, ip, time, late), ip, eager);
    var low, high, n := time - late - length, time - late, c.limit;
    AllInWindow(h, time - c.window, low, high, n);
    assert h.times[n + 1] == time - late && h.allowed[n + 1];
    assert AllowedIn(h, low, high, n + 1) >= AllowedIn(h, low, high, n);
    assert AllowedIn(h, low, high, n + 2) == 1 + AllowedIn(h, low, high, n + 1);
  }
}
