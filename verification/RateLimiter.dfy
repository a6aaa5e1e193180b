/**
 * The behaviour limits of a security policy: requests, violations and suspicious responses per
 * client over sliding windows, temporary blocks, and a sweep that runs at most once an interval.
 */
module RateLimiter {
  import opened Wrappers

  /** Stands for a client whose address could not be resolved. */
  const UNRESOLVED: nat := 0
  /** Time is counted in whole ticks. */
  const SECOND: int := 1_000_000

  const SWEEP_INTERVAL: int := SECOND

  datatype Config = Config(
    limit: nat, window: int,
    violationLimit: nat, violationWindow: int,
    suspiciousLimit: nat, suspiciousWindow: int,
    blockTime: int, maxClients: nat, maxBlocks: nat)

  predicate ValidConfig(c: Config) {
    c.window >= 0 && c.violationWindow >= 0 && c.suspiciousWindow >= 0 && c.blockTime >= SECOND &&
    c.maxClients >= 1 && c.maxBlocks >= 1
  }

  // Events per client.

  /** Times of events by client; `order` has the clients, longest unseen first. */
  datatype Store = Store(rows: map<nat, seq<int>>, order: seq<nat>)

  const EMPTY := Store(map[], [])

  function RowsOf(s: Store, ip: nat): seq<int> {
    if ip in s.rows then s.rows[ip] else []
  }

  /**
   * Without the events at or before `threshold` at the front. As elsewhere the folds keep the
   * recursion out of sight until it is asked for.
   */
  function Trim(rows: seq<int>, threshold: int, folds: nat := 2): (r: seq<int>)
    ensures |r| <= |rows|
    decreases |rows|, folds
  {
    if folds > 0 then Trim(rows, threshold, folds - 1)
    else if |rows| > 0 && rows[0] <= threshold then Trim(rows[1..], threshold) else rows
  }

  lemma {:induction false} TrimUnfolds(rows: seq<int>, threshold: int)
    ensures Trim(rows, threshold) == if |rows| > 0 && rows[0] <= threshold then Trim(rows[1..], threshold) else rows
  {
    assert Trim(rows, threshold, 1) == Trim(rows, threshold, 0);
  }

  function Removed(order: seq<nat>, ip: nat): seq<nat>
    decreases |order|
  {
    if |order| == 0 then [] else if order[0] == ip then order[1..] else [order[0]] + Removed(order[1..], ip)
  }

  /** `_evict_tracked_clients_locked`: room for one more client. */
  function Evicted(s: Store, cap: nat): Store
    decreases |s.order|
  {
    if |s.rows| < cap || |s.order| == 0 then s
    else Evicted(Store(s.rows - {s.order[0]}, s.order[1..]), cap)
  }

  /** `_push_event_locked`: the store behind it; the count is the length of the client's row. */
  function Push(s: Store, ip: nat, now: int, window: int, cap: nat): Store {
    var base := if ip in s.rows then s else Evicted(s, cap);
    Store(base.rows[ip := Trim(RowsOf(s, ip) + [now], now - window)], Removed(base.order, ip) + [ip])
  }

  function Dropped(s: Store, ip: nat): Store {
    Store(s.rows - {ip}, Removed(s.order, ip))
  }

  /** `_prune_events_locked`: clients with no event left are forgotten. */
  function Pruned(s: Store, now: int, window: int): Store {
    if window <= 0 then EMPTY
    else
      var rows := map ip | ip in s.rows && |Trim(s.rows[ip], now - window)| > 0 :: Trim(s.rows[ip], now - window);
      Store(rows, Only(s.order, rows.Keys))
  }

  function Only(order: seq<nat>, keys: set<nat>): seq<nat>
    decreases |order|
  {
    if |order| == 0 then [] else if order[0] in keys then [order[0]] + Only(order[1..], keys) else Only(order[1..], keys)
  }

  // Blocks.

  datatype Reason = RateLimit | Violations | Suspicious

  datatype Block = Block(reason: Reason, until: int)

  datatype Blocks = Blocks(rows: map<nat, Block>, order: seq<nat>)

  /** The block a request meets; one that has run out does not count. */
  function Active(b: Blocks, ip: nat, now: int): Option<Block> {
    if ip in b.rows && b.rows[ip].until > now then Some(b.rows[ip]) else None
  }

  function EvictedBlocks(b: Blocks, cap: nat): Blocks
    decreases |b.order|
  {
    if |b.rows| < cap || |b.order| == 0 then b
    else EvictedBlocks(Blocks(b.rows - {b.order[0]}, b.order[1..]), cap)
  }

  /** `_set_temporary_block_locked`: a block never ends earlier than it did. */
  function WithBlock(b: Blocks, ip: nat, reason: Reason, now: int, c: Config): Blocks {
    var until := now + c.blockTime;
    var base := if ip in b.rows then b else EvictedBlocks(b, c.maxBlocks);
    var until' := if ip in b.rows && b.rows[ip].until > until then b.rows[ip].until else until;
    Blocks(base.rows[ip := Block(reason, until')], Removed(base.order, ip) + [ip])
  }

  function Expired(b: Blocks, now: int): Blocks {
    var rows := b.rows - (set ip | ip in b.rows && b.rows[ip].until <= now);
    Blocks(rows, Only(b.order, rows.Keys))
  }

  /** `_active_block_locked` takes a block that has run out away. */
  function Settled(b: Blocks, ip: nat, now: int): Blocks {
    if ip in b.rows && b.rows[ip].until <= now then Blocks(b.rows - {ip}, Removed(b.order, ip)) else b
  }

  // The policy.

  datatype Policy = Policy(requests: Store, violations: Store, suspicious: Store, blocks: Blocks, nextSweep: int)

  const NEW_POLICY := Policy(EMPTY, EMPTY, EMPTY, Blocks(map[], []), 0)

  function Cleaned(c: Config, p: Policy, now: int): Policy {
    Policy(Pruned(p.requests, now, c.window), Pruned(p.violations, now, c.violationWindow),
           Pruned(p.suspicious, now, c.suspiciousWindow), Expired(p.blocks, now), now + SWEEP_INTERVAL)
  }

  /** `_sweep_locked`. */
  function Swept(c: Config, p: Policy, now: int, force: bool): Policy {
    if !force && now < p.nextSweep then p else Cleaned(c, p, now)
  }

  /** A request as the policy's lists and rules see it. */
  datatype Request = Request(ip: nat, bypasses: bool, blacklisted: bool, ruleAllows: bool)

  datatype Decision = Allowed | DeniedBlock(reason: Reason) | DeniedBlacklist | DeniedRate | DeniedRule

  /** `_register_violation_locked`. */
  function WithViolation(c: Config, p: Policy, ip: nat, now: int): Policy {
    if c.violationLimit == 0 || c.violationWindow <= 0 then p
    else
      var pushed := Push(p.violations, ip, now, c.violationWindow, c.maxClients);
      if |RowsOf(pushed, ip)| >= c.violationLimit
      then p.(violations := Dropped(pushed, ip), blocks := WithBlock(p.blocks, ip, Violations, now, c))
      else p.(violations := pushed)
  }

  predicate Limits(c: Config, r: Request) {
    !r.bypasses && r.ip != UNRESOLVED && c.limit > 0 && c.window > 0
  }

  /** What the rules decide once the limits let the request through. */
  function ByRules(c: Config, p: Policy, r: Request, now: int): (Decision, Policy) {
    if r.ruleAllows then (Allowed, p) else (DeniedRule, WithViolation(c, p, r.ip, now))
  }

  function ByLimits(c: Config, p: Policy, r: Request, now: int): (Decision, Policy) {
    if !Limits(c, r) then ByRules(c, p, r, now)
    else
      var p' := p.(requests := Push(p.requests, r.ip, now, c.window, c.maxClients));
      if |RowsOf(p'.requests, r.ip)| > c.limit
      then (DeniedRate, WithViolation(c, p'.(blocks := WithBlock(p'.blocks, r.ip, RateLimit, now, c)), r.ip, now))
      else ByRules(c, p', r, now)
  }

  /** `evaluate` behind the sweep. */
  function Judge(c: Config, p: Policy, r: Request, now: int): (Decision, Policy) {
    var p1 := if r.ip != UNRESOLVED then p.(blocks := Settled(p.blocks, r.ip, now)) else p;
    var active := if r.ip != UNRESOLVED then Active(p.blocks, r.ip, now) else None;
    if active.Some? && !r.bypasses then (DeniedBlock(active.value.reason), WithViolation(c, p1, r.ip, now))
    else if r.blacklisted then (DeniedBlacklist, WithViolation(c, p1, r.ip, now))
    else ByLimits(c, p1, r, now)
  }

  // The folds keep the two steps out of sight until they are asked for.

  function Evaluate(c: Config, p: Policy, r: Request, now: int, eager: bool, folds: nat := 2): (Decision, Policy)
    decreases p, folds
  {
    if folds > 0 then Evaluate(c, p, r, now, eager, folds - 1) else Judge(c, Swept(c, p, now, eager), r, now)
  }

  /** The count of a suspicious status, and the block it may bring. */
  function Noted(c: Config, p: Policy, ip: nat, now: int): Policy {
    var pushed := Push(p.suspicious, ip, now, c.suspiciousWindow, c.maxClients);
    if |RowsOf(pushed, ip)| >= c.suspiciousLimit
    then p.(suspicious := Dropped(pushed, ip), blocks := WithBlock(p.blocks, ip, Suspicious, now, c))
    else p.(suspicious := pushed)
  }

  /** `observe_response` on a suspicious status of a client that is resolved and not bypassing. */
  function Observe(c: Config, p: Policy, ip: nat, now: int, eager: bool, folds: nat := 2): Policy
    decreases p, folds
  {
    if folds > 0 then Observe(c, p, ip, now, eager, folds - 1)
    else if c.suspiciousLimit == 0 || c.suspiciousWindow <= 0 then Swept(c, p, now, eager)
    else Noted(c, Swept(c, p, now, eager), ip, now)
  }

  lemma {:induction false} StepsUnfold(c: Config, p: Policy, r: Request, ip: nat, now: int, eager: bool)
    ensures Evaluate(c, p, r, now, eager) == Judge(c, Swept(c, p, now, eager), r, now)
    ensures Observe(c, p, ip, now, eager) ==
            if c.suspiciousLimit == 0 || c.suspiciousWindow <= 0 then Swept(c, p, now, eager) else Noted(c, Swept(c, p, now, eager), ip, now)
  {
    assert Evaluate(c, p, r, now, eager, 1) == Evaluate(c, p, r, now, eager, 0);
    assert Observe(c, p, ip, now, eager, 1) == Observe(c, p, ip, now, eager, 0);
  }
}
