/** The limiter's stores and the policy around them, changed in place under the policy's lock. */
module SecurityPolicy {
  import opened RateLimiter

  /** Event times by client, the client longest unseen first. */
  class EventStore {
    var rows: map<nat, seq<int>>
    var order: seq<nat>

    function Value(): Store
      reads this
    {
      Store(rows, order)
    }

    constructor ()
      ensures Value() == EMPTY
    {
      rows, order := map[], [];
    }

    method EvictTracked(cap: nat) returns (evicted: nat)
      modifies this
      ensures Value() == Evicted(old(Value()), cap)
    {
      evicted := 0;
      while |rows| >= cap && |order| > 0
        invariant Evicted(Value(), cap) == Evicted(old(Value()), cap)
        decreases |order|
      {
        rows, order := rows - {order[0]}, order[1..];
        evicted := evicted + 1;
      }
    }

    /** Records an event of a client; returns how many it has within the window. */
    method PushEvent(ip: nat, now: int, window: int, cap: nat) returns (count: nat)
      modifies this
      ensures Value() == Push(old(Value()), ip, now, window, cap)
      ensures count == |RowsOf(Value(), ip)|
    {
      var row: seq<int> := [];
      if ip in rows {
        row := rows[ip];
      } else {
        var evicted := EvictTracked(cap);
      }
      row := TrimLoop(row + [now], now - window);
      rows, order := rows[ip := row], Removed(order, ip) + [ip];
      return |row|;
    }

    method DropClient(ip: nat)
      modifies this
      ensures Value() == Dropped(old(Value()), ip)
    {
      rows, order := rows - {ip}, Removed(order, ip);
    }

    method PruneEvents(now: int, window: int)
      modifies this
      ensures Value() == Pruned(old(Value()), now, window)
    {
      if window <= 0 {
        rows, order := map[], [];
        return;
      }
      ghost var before := rows;
      var left := rows.Keys;
      while left != {}
        invariant left <= before.Keys
        invariant forall ip :: ip in rows <==> ip in left || (ip in before && |Trim(before[ip], now - window)| > 0)
        invariant forall ip :: ip in rows ==> rows[ip] == if ip in left then before[ip] else Trim(before[ip], now - window)
        invariant order == old(order)
        decreases |left|
      {
        var ip :| ip in left;
        var row := TrimLoop(rows[ip], now - window);
        rows := if |row| > 0 then rows[ip := row] else rows - {ip};
        left := left - {ip};
      }
      order := Only(order, rows.Keys);
      assert rows == Pruned(old(Value()), now, window).rows;
    }
  }

  /** Events at the front are dropped one by one. */
  method TrimLoop(row: seq<int>, threshold: int) returns (r: seq<int>)
    ensures r == Trim(row, threshold)
  {
    r := row;
    TrimUnfolds(r, threshold);
    while |r| > 0 && r[0] <= threshold
      invariant Trim(r, threshold) == Trim(row, threshold)
      decreases |r|
    {
      TrimUnfolds(r, threshold);
      r := r[1..];
    }
    TrimUnfolds(r, threshold);
  }

  class Policies {
    const config: Config
    const requests: EventStore
    const violations: EventStore
    const suspicious: EventStore
    var blocks: Blocks
    var nextSweep: int

    ghost predicate Valid() {
      requests != violations && requests != suspicious && violations != suspicious && ValidConfig(config)
    }

    function State(): Policy
      reads this, requests, violations, suspicious
    {
      Policy(requests.Value(), violations.Value(), suspicious.Value(), blocks, nextSweep)
    }

    constructor (config: Config)
      requires ValidConfig(config)
      ensures Valid() && State() == NEW_POLICY && this.config == config
      ensures fresh(requests) && fresh(violations) && fresh(suspicious)
    {
      this.config := config;
      requests := new EventStore();
      violations := new EventStore();
      suspicious := new EventStore();
      blocks, nextSweep := Blocks(map[], []), 0;
    }

    method Sweep(now: int, force: bool)
      requires Valid()
      modifies this`blocks, this`nextSweep, requests, violations, suspicious
      ensures State() == Swept(config, old(State()), now, force)
    {
      if !force && now < nextSweep {
        return;
      }
      nextSweep := now + SWEEP_INTERVAL;
      blocks := Expired(blocks, now);
      requests.PruneEvents(now, config.window);
      violations.PruneEvents(now, config.violationWindow);
      suspicious.PruneEvents(now, config.suspiciousWindow);
    }

    method RegisterViolation(ip: nat, now: int)
      requires Valid()
      modifies this`blocks, violations
      ensures State() == WithViolation(config, old(State()), ip, now)
    {
      if config.violationLimit == 0 || config.violationWindow <= 0 {
        return;
      }
      var count := violations.PushEvent(ip, now, config.violationWindow, config.maxClients);
      if count >= config.violationLimit {
        blocks := WithBlock(blocks, ip, Violations, now, config);
        violations.DropClient(ip);
      }
    }

    method Deny(decision: Decision, ip: nat, now: int) returns (d: Decision)
      requires Valid()
      modifies this`blocks, violations
      ensures d == decision && State() == WithViolation(config, old(State()), ip, now)
    {
      RegisterViolation(ip, now);
      return decision;
    }

    /** The rate limit, then the rules. */
    method CheckLimits(r: Request, now: int) returns (d: Decision)
      requires Valid()
      modifies this`blocks, requests, violations
      ensures (d, State()) == ByLimits(config, old(State()), r, now)
    {
      if !r.bypasses && r.ip != UNRESOLVED && config.limit > 0 && config.window > 0 {
        var count := requests.PushEvent(r.ip, now, config.window, config.maxClients);
        if count > config.limit {
          blocks := WithBlock(blocks, r.ip, RateLimit, now, config);
          d := Deny(DeniedRate, r.ip, now);
          return;
        }
      }
      if r.ruleAllows {
        return Allowed;
      }
      d := Deny(DeniedRule, r.ip, now);
    }

    method EvaluateRequest(r: Request, now: int) returns (d: Decision)
      requires Valid()
      modifies this`blocks, this`nextSweep, requests, violations, suspicious
      ensures (d, State()) == Evaluate(config, old(State()), r, now, false)
    {
      StepsUnfold(config, State(), r, r.ip, now, false);
      Sweep(now, false);
      if r.ip != UNRESOLVED {
        var active := Active(blocks, r.ip, now);
        blocks := Settled(blocks, r.ip, now);
        if active.Some? && !r.bypasses {
          d := Deny(DeniedBlock(active.value.reason), r.ip, now);
          return;
        }
      }
      if r.blacklisted {
        d := Deny(DeniedBlacklist, r.ip, now);
        return;
      }
      d := CheckLimits(r, now);
    }

    /** A suspicious status was answered to a client. */
    method ObserveResponse(ip: nat, now: int)
      requires Valid()
      modifies this`blocks, this`nextSweep, requests, violations, suspicious
      ensures State() == Observe(config, old(State()), ip, now, false)
    {
      StepsUnfold(config, State(), Request(ip, false, false, true), ip, now, false);
      Sweep(now, false);
      if config.suspiciousLimit == 0 || config.suspiciousWindow <= 0 {
        return;
      }
      var count := suspicious.PushEvent(ip, now, config.suspiciousWindow, config.maxClients);
      if count >= config.suspiciousLimit {
        blocks := WithBlock(blocks, ip, Suspicious, now, config);
        suspicious.DropClient(ip);
      }
    }
  }
}
