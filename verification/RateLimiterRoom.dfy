/** When no client's events are forgotten for want of room: a condition on the requests alone. */
module RateLimiterRoom {
  import opened RateLimiter
  import opened RateLimiterLaws

  function Clock(start: int, events: seq<Event>): int
    decreases |events|
  {
    if |events| == 0 then start else Clock(start, events[..|events| - 1]) + events[|events| - 1].elapsed
  }

  lemma {:induction false} ClockIs(c: Config, start: int, events: seq<Event>, eager: bool)
    ensures Run(c, start, events, eager).clock == Clock(start, events) >= start
    decreases |events|
  {
    if |events| > 0 {
      ClockIs(c, start, events[..|events| - 1], eager);
    }
  }

  /** The clients that asked later than `after`. */
  function Recent(start: int, events: seq<Event>, after: int): set<nat>
    decreases |events|
  {
    if |events| == 0 then {}
    else
      var front, last := events[..|events| - 1], events[|events| - 1];
      if last.Ask? && Clock(start, events) > after then Recent(start, front, after) + {last.request.ip} else Recent(start, front, after)
  }

  /** The clients that have asked within a window and a sweep interval. */
  function Around(c: Config, start: int, events: seq<Event>): set<nat> {
    Recent(start, events, Clock(start, events) - c.window - SWEEP_INTERVAL)
  }

  /** At every event no more clients than are tracked have asked within a window and a sweep interval. */
  ghost predicate FewClients(c: Config, start: int, events: seq<Event>) {
    forall i :: 0 < i <= |events| ==>
      |Around(c, start, events[..i])| <= c.maxClients
  }

  /** The client asked at this time. */
  ghost predicate AskedAt(start: int, events: seq<Event>, ip: nat, time: int) {
    forall after :: after < time ==> ip in Recent(start, events, after)
  }

  lemma {:induction false} AskedBefore(start: int, events: seq<Event>, event: Event, ip: nat, time: int)
    requires AskedAt(start, events, ip, time)
    ensures AskedAt(start, events + [event], ip, time)
  {
    assert (events + [event])[..|events|] == events;
  }

  lemma {:induction false} AskedNow(start: int, events: seq<Event>, event: Event)
    requires event.Ask?
    ensures AskedAt(start, events + [event], event.request.ip, Clock(start, events + [event]))
  {
  }

  /** Each row holds times of requests of its client, one at least since a window before the last sweep. */
  ghost predicate RowInv(c: Config, start: int, events: seq<Event>, p: Policy, ip: nat)
    requires ip in p.requests.rows
  {
    var row := p.requests.rows[ip];
    (forall j :: 0 <= j < |row| ==> AskedAt(start, events, ip, row[j])) &&
    exists j :: 0 <= j < |row| && row[j] > p.nextSweep - SWEEP_INTERVAL - c.window
  }

  ghost predicate RoomInv(c: Config, start: int, events: seq<Event>, p: Policy) {
    p.nextSweep <= Clock(start, events) + SWEEP_INTERVAL && forall ip :: ip in p.requests.rows ==> RowInv(c, start, events, p, ip)
  }

  lemma {:induction false} TrimHead(rows: seq<int>, threshold: int)
    ensures |Trim(rows, threshold)| > 0 ==> Trim(rows, threshold)[0] > threshold
    decreases |rows|
  {
    TrimUnfolds(rows, threshold);
    if |rows| > 0 && rows[0] <= threshold {
      TrimHead(rows[1..], threshold);
    }
  }

  /** A sweep keeps the invariant, and afterwards the next one is due later. */
  lemma {:induction false} SweptKeepsRoom(c: Config, start: int, events: seq<Event>, event: Event, p: Policy, eager: bool)
    requires ValidConfig(c) && c.window > 0 && RoomInv(c, start, events, p)
    ensures var all := events + [event];
            var s := Swept(c, p, Clock(start, all), eager);
            RoomInv(c, start, all, s) && s.nextSweep > Clock(start, all)
  {
    var all := events + [event];
    assert all[..|events|] == events;
    var now := Clock(start, all);
    var s := Swept(c, p, now, eager);
    forall ip | ip in s.requests.rows
      ensures RowInv(c, start, all, s, ip)
    {
      SweptKeepsRow(c, start, events, event, p, eager, ip);
    }
  }

  lemma {:induction false} SweptKeepsRow(c: Config, start: int, events: seq<Event>, event: Event, p: Policy, eager: bool, ip: nat)
    requires ValidConfig(c) && c.window > 0 && ip in p.requests.rows && RowInv(c, start, events, p, ip)
    requires ip in Swept(c, p, Clock(start, events + [event]), eager).requests.rows
    ensures RowInv(c, start, events + [event], Swept(c, p, Clock(start, events + [event]), eager), ip)
  {
    var now := Clock(start, events + [event]);
    var s := Swept(c, p, now, eager);
    var before, after := p.requests.rows[ip], s.requests.rows[ip];
    if eager || now >= p.nextSweep {
      TrimHead(before, now - c.window);
      assert after == Trim(before, now - c.window) && after[0] > now - c.window;
    }
    forall j | 0 <= j < |after|
      ensures AskedAt(start, events + [event], ip, after[j])
    {
      var i := if after == before then j else |before| - |after| + j;
      if after != before {
        TrimIsSuffix(before, now - c.window, j);
      }
      AskedBefore(start, events, event, ip, before[i]);
    }
  }

  lemma {:induction false} RowsAreRecent(c: Config, start: int, events: seq<Event>, p: Policy)
    requires RoomInv(c, start, events, p) && p.nextSweep > Clock(start, events)
    ensures p.requests.rows.Keys <= Around(c, start, events)
  {
    forall ip | ip in p.requests.rows
      ensures ip in Around(c, start, events)
    {
      assert RowInv(c, start, events, p, ip);
    }
  }

  lemma {:induction false} OneMoreFits(s: Store, ip: nat, recent: set<nat>)
    requires ip !in s.rows && s.rows.Keys <= recent && ip in recent
    ensures |s.rows| < |recent|
  {
    SubsetIsNoLarger(s.rows.Keys + {ip}, recent);
    assert |s.rows.Keys| == |s.rows| && |s.rows.Keys + {ip}| == |s.rows.Keys| + 1;
  }

  /** A push finds room, and no row is lost. */
  lemma {:induction false} PushFindsRoom(c: Config, start: int, events: seq<Event>, p: Policy, ip: nat)
    requires ValidConfig(c) && RoomInv(c, start, events, p) && p.nextSweep > Clock(start, events)
    requires AskedAt(start, events, ip, Clock(start, events))
    requires |Around(c, start, events)| <= c.maxClients
    ensures ip !in p.requests.rows ==> Evicted(p.requests, c.maxClients) == p.requests
  {
    if ip !in p.requests.rows {
      RowsAreRecent(c, start, events, p);
      assert ip in Around(c, start, events);
      OneMoreFits(p.requests, ip, Around(c, start, events));
    }
  }

  lemma {:induction false} PushKeepsRoom(c: Config, start: int, events: seq<Event>, p: Policy, ip: nat)
    requires ValidConfig(c) && c.window > 0 && RoomInv(c, start, events, p) && p.nextSweep > Clock(start, events)
    requires AskedAt(start, events, ip, Clock(start, events))
    requires |Around(c, start, events)| <= c.maxClients
    ensures var p' := p.(requests := Push(p.requests, ip, Clock(start, events), c.window, c.maxClients));
            RoomInv(c, start, events, p') && p.requests.rows.Keys <= p'.requests.rows.Keys
  {
    var now := Clock(start, events);
    var p' := p.(requests := Push(p.requests, ip, now, c.window, c.maxClients));
    PushFindsRoom(c, start, events, p, ip);
    var before := RowsOf(p.requests, ip);
    TrimSnoc(before, now, now - c.window);
    var row := p'.requests.rows[ip];
    forall j | 0 <= j < |row|
      ensures AskedAt(start, events, ip, row[j])
    {
      if j < |row| - 1 {
        TrimIsSuffix(before, now - c.window, j);
        assert RowInv(c, start, events, p, ip);
      }
    }
    assert row[|row| - 1] == now;
    forall k | k in p'.requests.rows
      ensures RowInv(c, start, events, p', k)
    {
      assert k != ip ==> RowInv(c, start, events, p, k);
    }
  }

  /** One event keeps the invariant and takes no row of requests but by the sweep. */
  lemma {:induction false} NextKeepsRoom(c: Config, w: World, start: int, events: seq<Event>, event: Event, eager: bool)
    requires ValidConfig(c) && c.window > 0 && RoomInv(c, start, events, w.policy) && w.clock == Clock(start, events)
    requires var all := events + [event];
             |Around(c, start, all)| <= c.maxClients
    ensures var w', swept := Next(c, w, event, eager), Swept(c, w.policy, Clock(start, events + [event]), eager);
            RoomInv(c, start, events + [event], w'.policy) && swept.requests.rows.Keys <= w'.policy.requests.rows.Keys
  {
    var all := events + [event];
    assert all[..|events|] == events;
    var now := Clock(start, all);
    var swept := Swept(c, w.policy, now, eager);
    SweptKeepsRoom(c, start, events, event, w.policy, eager);
    match event
    case Ask(r, _) =>
      StepsUnfold(c, w.policy, r, r.ip, now, eager);
      JudgeRequests(c, swept, r, now);
      JudgeKeepsSweep(c, swept, r, now);
      AskedNow(start, events, event);
      PushKeepsRoom(c, start, all, swept, r.ip);
      SameRows(c, start, all, swept.(requests := Push(swept.requests, r.ip, now, c.window, c.maxClients)), Next(c, w, event, eager).policy);
      SameRows(c, start, all, swept, Next(c, w, event, eager).policy);
    case Seen(ip, _) =>
      StepsUnfold(c, w.policy, Request(ip, false, false, true), ip, now, eager);
      SameRows(c, start, all, swept, Next(c, w, event, eager).policy);
  }

  lemma {:induction false} JudgeKeepsSweep(c: Config, p: Policy, r: Request, now: int)
    ensures Judge(c, p, r, now).1.nextSweep == p.nextSweep
  {
  }

  lemma {:induction false} SameRows(c: Config, start: int, events: seq<Event>, p: Policy, q: Policy)
    requires RoomInv(c, start, events, p)
    ensures q.requests == p.requests && q.nextSweep == p.nextSweep ==> RoomInv(c, start, events, q)
  {
    if q.requests == p.requests && q.nextSweep == p.nextSweep {
      forall ip | ip in q.requests.rows
        ensures RowInv(c, start, events, q, ip)
      {
        assert RowInv(c, start, events, p, ip);
      }
    }
  }

  lemma {:induction false} FewBefore(c: Config, start: int, events: seq<Event>)
    requires |events| > 0 && FewClients(c, start, events)
    ensures FewClients(c, start, events[..|events| - 1]) && |Around(c, start, events)| <= c.maxClients
  {
    var front := events[..|events| - 1];
    forall i | 0 < i <= |front|
      ensures |Around(c, start, front[..i])| <= c.maxClients
    {
      assert front[..i] == events[..i];
    }
    assert events[..|events|] == events;
  }

  lemma {:induction false} RunKeepsRoom(c: Config, start: int, events: seq<Event>, eager: bool)
    requires ValidConfig(c) && c.window > 0 && start >= 0 && FewClients(c, start, events)
    ensures RoomInv(c, start, events, Run(c, start, events, eager).policy)
    decreases |events|
  {
    if |events| == 0 {
      NewHasRoom(c, start);
      assert events == [];
    } else {
      var front, event := events[..|events| - 1], events[|events| - 1];
      var w := Run(c, start, front, eager);
      assert front + [event] == events;
      FewBefore(c, start, events);
      RunKeepsRoom(c, start, front, eager);
      StepKeepsRoom(c, start, front, event, eager, w);
      assert Run(c, start, events, eager) == Next(c, w, event, eager);
    }
  }

  lemma {:induction false} NewHasRoom(c: Config, start: int)
    requires start >= 0
    ensures RoomInv(c, start, [], NEW_POLICY)
  {
  }

  lemma {:induction false} StepKeepsRoom(c: Config, start: int, front: seq<Event>, event: Event, eager: bool, w: World)
    requires ValidConfig(c) && c.window > 0 && RoomInv(c, start, front, w.policy) && w == Run(c, start, front, eager)
    requires |Around(c, start, front + [event])| <= c.maxClients
    ensures var w' := Next(c, w, event, eager);
            RoomInv(c, start, front + [event], w'.policy) &&
            Swept(c, w.policy, w'.clock, eager).requests.rows.Keys <= w'.policy.requests.rows.Keys
  {
    ClockIs(c, start, front, eager);
    assert (front + [event])[..|front|] == front;
    NextKeepsRoom(c, w, start, front, event, eager);
  }

  lemma {:induction false} KeptIsNotEvicted(c: Config, w: World, h: History, event: Event, ip: nat, eager: bool)
    requires !h.evicted
    requires var w' := Next(c, w, event, eager); Swept(c, w.policy, w'.clock, eager).requests.rows.Keys <= w'.policy.requests.rows.Keys
    ensures !Recorded(c, w, h, event, ip, eager).evicted
  {
  }

  lemma {:induction false} NothingEvicted(c: Config, start: int, events: seq<Event>, ip: nat, eager: bool)
    requires ValidConfig(c) && c.window > 0 && start >= 0 && FewClients(c, start, events)
    ensures !HistoryOf(c, start, events, ip, eager).evicted
    decreases |events|
  {
    if |events| > 0 {
      var front, event := events[..|events| - 1], events[|events| - 1];
      var w, h := Run(c, start, front, eager), HistoryOf(c, start, front, ip, eager);
      assert front + [event] == events;
      FewBefore(c, start, events);
      NothingEvicted(c, start, front, ip, eager);
      RunKeepsRoom(c, start, front, eager);
      StepKeepsRoom(c, start, front, event, eager, w);
      KeptIsNotEvicted(c, w, h, event, ip, eager);
    }
  }

  /** While few enough clients ask, nothing is forgotten, and the rate of each is kept. */
  lemma {:induction false} RateIsKeptForFew(c: Config, start: int, events: seq<Event>, ip: nat, eager: bool, high: int)
    requires ValidConfig(c) && c.limit > 0 && c.window > 0 && start >= 0 && FewClients(c, start, events)
    ensures var h := HistoryOf(c, start, events, ip, eager);
            |h.times| == |h.allowed| && AllowedIn(h, high - c.window, high, |h.times|) <= c.limit
  {
    NothingEvicted(c, start, events, ip, eager);
    RateIsKept(c, start, events, ip, eager, high);
  }
}
