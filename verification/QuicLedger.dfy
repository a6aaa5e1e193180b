/**
 * What loss recovery keeps over every run: each packet in one place, the bytes in flight
 * accounted for, and no congestion event that its last one already answered.
 */
module QuicLedger {
  import opened Wrappers
  import opened MapSum
  import opened SortedSets
  import opened QuicRecovery

  // Sizes.

  function InFlightSize(p: Packet): nat {
    if p.inFlight then p.size else 0
  }

  function Sizes(m: map<nat, Packet>): map<nat, nat> {
    map n | n in m :: InFlightSize(m[n])
  }

  function TotalSize(packets: seq<Packet>): nat
    decreases |packets|
  {
    if |packets| == 0 then 0 else TotalSize(packets[..|packets| - 1]) + InFlightSize(packets[|packets| - 1])
  }

  lemma {:induction false} TotalSizeCons(p: Packet, packets: seq<Packet>)
    ensures TotalSize([p] + packets) == InFlightSize(p) + TotalSize(packets)
    decreases |packets|
  {
    if |packets| == 0 {
      assert [p] + packets == [p] && [p][..0] == [];
    } else {
      TotalSizeCons(p, packets[..|packets| - 1]);
      assert ([p] + packets)[..|packets|] == [p] + packets[..|packets| - 1];
    }
  }

  lemma {:induction false} ChosenFirst(m: map<nat, Packet>, s: set<nat>)
    requires s <= m.Keys && s != {}
    ensures Chosen(m, s) == [m[Least(s)]] + Chosen(m, s - {Least(s)})
  {
    AscendingUnfolds(s);
  }

  /** Taking packets out of a space takes exactly their sizes off its sum. */
  lemma {:induction false} TakingOut(m: map<nat, Packet>, s: set<nat>)
    requires s <= m.Keys
    ensures SumOf(Sizes(m)) == SumOf(Sizes(m - s)) + TotalSize(Chosen(m, s))
    decreases |s|
  {
    if s == {} {
      assert m - s == m;
      AscendingUnfolds(s);
    } else {
      var k := Least(s);
      var rest := s - {k};
      TakingOut(m, rest);
      ChosenFirst(m, s);
      TotalSizeCons(m[k], Chosen(m, rest));
      SumWithout(Sizes(m - rest), k);
      assert Sizes(m - rest) - {k} == Sizes(m - s);
    }
  }

  lemma {:induction false} AddingOne(m: map<nat, Packet>, p: Packet)
    requires p.number !in m
    ensures SumOf(Sizes(m[p.number := p])) == SumOf(Sizes(m)) + InFlightSize(p)
  {
    SumWith(Sizes(m), p.number, InFlightSize(p));
    assert Sizes(m[p.number := p]) == Sizes(m)[p.number := InFlightSize(p)];
  }

  /** The clamp at zero never bites while the packets are among those in flight. */
  lemma {:induction false} AckedTakesSizes(cc: Congestion, packets: seq<Packet>)
    requires TotalSize(packets) <= cc.inFlight && cc.window >= MINIMUM_WINDOW
    ensures var cc' := AckedAll(cc, packets);
            cc'.inFlight == cc.inFlight - TotalSize(packets) && cc'.window >= cc.window &&
            cc'.recoveryStart == cc.recoveryStart && cc'.events == cc.events
    decreases |packets|
  {
    if |packets| > 0 {
      AckedTakesSizes(cc, packets[..|packets| - 1]);
      GrownIsLarger(AckedAll(cc, packets[..|packets| - 1]), packets[|packets| - 1].size);
    }
  }

  lemma {:induction false} GrownIsLarger(cc: Congestion, size: nat)
    requires cc.window >= 1
    ensures Grown(cc, size) >= cc.window
  {
  }

  lemma {:induction false} DroppedTakesSizes(inFlight: nat, packets: seq<Packet>)
    requires TotalSize(packets) <= inFlight
    ensures DroppedAll(inFlight, packets) == inFlight - TotalSize(packets)
    decreases |packets|
  {
    if |packets| > 0 {
      DroppedTakesSizes(inFlight, packets[..|packets| - 1]);
    }
  }

  lemma {:induction false} LatestIsSent(packets: seq<Packet>)
    requires forall p :: p in packets ==> p.sent > 0.0
    ensures forall p :: p in packets ==> p.sent <= LatestSent(packets)
    ensures |packets| > 0 ==> exists p :: p in packets && p.sent == LatestSent(packets)
    decreases |packets|
  {
    if |packets| > 0 {
      var front, last := packets[..|packets| - 1], packets[|packets| - 1];
      assert packets == front + [last];
      LatestIsSent(front);
    }
  }

  // Runs.

  /** All that was ever sent in a space, and what became of it. */
  datatype Log = Log(next: nat, sent: map<nat, Packet>, acked: set<nat>, lost: set<nat>)

  datatype Logs = Logs(initial: Log, handshake: Log, application: Log) {
    function At(level: Level): Log {
      match level case Initial => initial case Handshake => handshake case Application => application
    }

    function With(level: Level, log: Log): Logs {
      match level
      case Initial => this.(initial := log)
      case Handshake => this.(handshake := log)
      case Application => this.(application := log)
    }
  }

  /** A congestion event: when the packet that caused it was sent, and when it happened. */
  datatype Cut = Cut(trigger: real, at: real)

  datatype World = World(r: Recovery, logs: Logs, clock: real, cuts: seq<Cut>)

  /** `elapsed` is the time since the event before; an ACK names numbers up to its largest. */
  datatype Event =
    | Send(level: Level, eliciting: bool, size: nat, elapsed: real)
    | Ack(level: Level, largest: nat, numbers: set<nat>, delay: real, elapsed: real)
    | Timeout(delay: real, elapsed: real)

  const NEW_LOG := Log(0, map[], {}, {})

  const START := World(NEW_RECOVERY, Logs(NEW_LOG, NEW_LOG, NEW_LOG), 1.0, [])

  function Ticked(w: World, elapsed: real): World {
    w.(clock := w.clock + elapsed)
  }

  function Sending(w: World, level: Level, eliciting: bool, size: nat): World {
    var log := w.logs.At(level);
    var p := Packet(log.next, w.clock, eliciting, eliciting, size);
    w.(r := OnSent(w.r, level, p), logs := w.logs.With(level, log.(next := log.next + 1, sent := log.sent[log.next := p])))
  }

  ghost function Acking(w: World, level: Level, largest: nat, numbers: set<nat>): World {
    var log, newly := w.logs.At(level), Newly(w.r.At(level), numbers);
    if newly == {} then w
    else w.(r := Acknowledged(w.r, level, largest, numbers), logs := w.logs.With(level, log.(acked := log.acked + newly)))
  }

  function Numbers(packets: seq<Packet>): set<nat> {
    set p | p in packets :: p.number
  }

  ghost function Losing(w: World, level: Level, delay: real): World {
    var (r', lost) := DetectLost(w.r, level, w.clock, delay);
    var log := w.logs.At(level);
    World(r', w.logs.With(level, log.(lost := log.lost + Numbers(lost))), w.clock,
          if r'.cc.events > w.r.cc.events then w.cuts + [Cut(LatestSent(lost), w.clock)] else w.cuts)
  }

  ghost function LosingDue(w: World, level: Level, delay: real): World {
    if LossDue(w.r.At(level), w.clock) then Losing(w, level, delay) else w
  }

  predicate Enabled(event: Event) {
    event.elapsed >= 0.0 &&
    match event
    case Ack(_, largest, numbers, delay, _) => delay > 0.0 && forall n :: n in numbers ==> n <= largest
    case Timeout(delay, _) => delay > 0.0
    case _ => true
  }

  ghost function Next(w: World, event: Event): World {
    if !Enabled(event) then w
    else
      match event
      case Send(level, eliciting, size, elapsed) => Sending(Ticked(w, elapsed), level, eliciting, size)
      case Ack(level, largest, numbers, delay, elapsed) => Losing(Acking(Ticked(w, elapsed), level, largest, numbers), level, delay)
      case Timeout(delay, elapsed) =>
        LosingDue(LosingDue(LosingDue(Ticked(w, elapsed), Initial, delay), Handshake, delay), Application, delay)
  }

  ghost function Run(events: seq<Event>): World
    decreases |events|
  {
    if |events| == 0 then START else Next(Run(events[..|events| - 1]), events[|events| - 1])
  }

  // What every event keeps.

  /** Every number given out belongs to one packet, and the packet is in exactly one place. */
  ghost predicate SpaceBooks(space: Space, log: Log, clock: real) {
    && (forall n: nat :: n in log.sent <==> n < log.next)
    && log.sent.Keys == space.tracked.Keys + log.acked + log.lost
    && space.tracked.Keys !! log.acked && space.tracked.Keys !! log.lost && log.acked !! log.lost
    && (forall n :: n in space.tracked ==> space.tracked[n] == log.sent[n])
    && (forall n :: n in log.sent ==> log.sent[n].number == n && 0.0 < log.sent[n].sent <= clock)
    && (forall n :: n in log.acked || n in log.lost ==> space.largestAcked.Some? && n <= space.largestAcked.value)
  }

  ghost function InFlightTotal(r: Recovery): nat {
    SumOf(Sizes(r.initial.tracked)) + SumOf(Sizes(r.handshake.tracked)) + SumOf(Sizes(r.application.tracked))
  }

  /** Each congestion event is caused by a packet sent after the event before. */
  ghost predicate CutBooks(events: nat, recoveryStart: real, clock: real, cuts: seq<Cut>) {
    && events == |cuts| && recoveryStart <= clock
    && recoveryStart == (if |cuts| == 0 then 0.0 else cuts[|cuts| - 1].at)
    && (forall i :: 0 <= i < |cuts| ==> cuts[i].trigger <= cuts[i].at <= recoveryStart)
    && (forall i, j :: 0 <= i < j < |cuts| ==> cuts[i].at < cuts[j].trigger)
  }

  ghost predicate Inv(w: World) {
    && (forall level :: SpaceBooks(w.r.At(level), w.logs.At(level), w.clock))
    && w.r.cc.inFlight == InFlightTotal(w.r)
    && w.r.cc.window >= MINIMUM_WINDOW
    && w.clock > 0.0 && CutBooks(w.r.cc.events, w.r.cc.recoveryStart, w.clock, w.cuts)
  }

  lemma {:induction false} StartHolds()
    ensures Inv(START)
  {
    SumOfNothing();
    assert Sizes(map[]) == map[];
    forall level
      ensures SpaceBooks(START.r.At(level), START.logs.At(level), START.clock)
    {
      assert START.r.At(level) == EMPTY_SPACE && START.logs.At(level) == NEW_LOG;
    }
  }

  lemma {:induction false} TickKeeps(w: World, elapsed: real)
    requires Inv(w) && elapsed >= 0.0
    ensures Inv(Ticked(w, elapsed))
  {
    forall level
      ensures SpaceBooks(w.r.At(level), w.logs.At(level), w.clock + elapsed)
    {
      assert SpaceBooks(w.r.At(level), w.logs.At(level), w.clock);
    }
  }

  /** A step in one space leaves the books of the others. */
  lemma {:induction false} OneSpaceMoves(w: World, w': World, level: Level)
    requires forall l :: SpaceBooks(w.r.At(l), w.logs.At(l), w.clock)
    requires w'.clock == w.clock && SpaceBooks(w'.r.At(level), w'.logs.At(level), w'.clock)
    requires w'.r == w.r.With(level, w'.r.At(level), w'.r.cc) && w'.logs == w.logs.With(level, w'.logs.At(level))
    ensures forall l :: SpaceBooks(w'.r.At(l), w'.logs.At(l), w'.clock)
  {
    forall l
      ensures SpaceBooks(w'.r.At(l), w'.logs.At(l), w'.clock)
    {
      if l != level {
        assert SpaceBooks(w.r.At(l), w.logs.At(l), w.clock);
        assert w'.r.At(l) == w.r.At(l) && w'.logs.At(l) == w.logs.At(l);
      }
    }
  }

  lemma {:induction false} SpaceSends(space: Space, log: Log, clock: real, p: Packet)
    requires SpaceBooks(space, log, clock) && p.number == log.next && 0.0 < p.sent <= clock
    ensures SpaceBooks(space.(tracked := space.tracked[p.number := p]), log.(next := log.next + 1, sent := log.sent[log.next := p]), clock)
  {
  }

  lemma {:induction false} SendingKeeps(w: World, level: Level, eliciting: bool, size: nat)
    requires Inv(w)
    ensures Inv(Sending(w, level, eliciting, size))
  {
    var w', log := Sending(w, level, eliciting, size), w.logs.At(level);
    var p := Packet(log.next, w.clock, eliciting, eliciting, size);
    assert SpaceBooks(w.r.At(level), log, w.clock);
    SpaceSends(w.r.At(level), log, w.clock, p);
    OneSpaceMoves(w, w', level);
    AddingOne(w.r.At(level).tracked, p);
  }

  lemma {:induction false} ChosenAre(space: Space, log: Log, clock: real, s: set<nat>)
    requires SpaceBooks(space, log, clock) && s <= space.tracked.Keys
    ensures Numbers(Chosen(space.tracked, s)) == s
    ensures forall p :: p in Chosen(space.tracked, s) ==> 0.0 < p.sent <= clock
    ensures |Chosen(space.tracked, s)| == |s|
  {
    var packets := Chosen(space.tracked, s);
    forall n | n in s
      ensures n in Numbers(packets)
    {
      var i :| 0 <= i < |Ascending(s)| && Ascending(s)[i] == n;
      assert packets[i] == space.tracked[n] && packets[i] in packets;
    }
  }

  /** What leaves one space leaves the total. */
  lemma {:induction false} TotalAfter(r: Recovery, level: Level, s: set<nat>, largest: Option<nat>, lossTime: Option<real>, cc: Congestion)
    requires s <= r.At(level).tracked.Keys
    ensures InFlightTotal(r) ==
            InFlightTotal(r.With(level, Space(r.At(level).tracked - s, largest, lossTime), cc)) + TotalSize(Chosen(r.At(level).tracked, s))
  {
    TakingOut(r.At(level).tracked, s);
  }

  lemma {:induction false} SpaceAcks(space: Space, log: Log, clock: real, newly: set<nat>, largest: nat)
    requires SpaceBooks(space, log, clock) && newly <= space.tracked.Keys && forall n :: n in newly ==> n <= largest
    ensures SpaceBooks(space.(tracked := space.tracked - newly, largestAcked := Further(space.largestAcked, largest)),
                       log.(acked := log.acked + newly), clock)
  {
  }

  lemma {:induction false} SpaceLoses(space: Space, log: Log, clock: real, lost: set<nat>, lossTime: Option<real>)
    requires SpaceBooks(space, log, clock) && lost <= space.tracked.Keys
    requires lost != {} ==> space.largestAcked.Some? && forall n :: n in lost ==> n <= space.largestAcked.value
    ensures SpaceBooks(Space(space.tracked - lost, space.largestAcked, lossTime), log.(lost := log.lost + lost), clock)
  {
  }

  lemma {:induction false} AckingBooks(w: World, level: Level, largest: nat, newly: set<nat>)
    requires newly <= w.r.At(level).tracked.Keys && w.r.cc.inFlight == InFlightTotal(w.r) && w.r.cc.window >= MINIMUM_WINDOW
    ensures var space := w.r.At(level);
            var cc := AckedAll(w.r.cc, Chosen(space.tracked, newly));
            var left := space.(tracked := space.tracked - newly, largestAcked := Further(space.largestAcked, largest));
            cc.inFlight == InFlightTotal(w.r.With(level, left, cc)) && cc.window >= MINIMUM_WINDOW &&
            cc.recoveryStart == w.r.cc.recoveryStart && cc.events == w.r.cc.events
  {
    var space := w.r.At(level);
    var packets := Chosen(space.tracked, newly);
    TotalAfter(w.r, level, newly, Further(space.largestAcked, largest), space.lossTime, AckedAll(w.r.cc, packets));
    AckedTakesSizes(w.r.cc, packets);
  }

  lemma {:induction false} AckingKeeps(w: World, level: Level, largest: nat, numbers: set<nat>)
    requires Inv(w) && forall n :: n in numbers ==> n <= largest
    ensures Inv(Acking(w, level, largest, numbers))
  {
    var space, newly := w.r.At(level), Newly(w.r.At(level), numbers);
    if newly != {} {
      assert SpaceBooks(space, w.logs.At(level), w.clock);
      SpaceAcks(space, w.logs.At(level), w.clock, newly, largest);
      OneSpaceMoves(w, Acking(w, level, largest, numbers), level);
      AckingBooks(w, level, largest, newly);
    }
  }

  /** A congestion event is noted with the packet that caused it. */
  lemma {:induction false} CutKeeps(cc: Congestion, latest: real, clock: real, cuts: seq<Cut>)
    requires CutBooks(cc.events, cc.recoveryStart, clock, cuts) && 0.0 < latest <= clock
    ensures var cc' := EnterRecovery(cc, latest, clock);
            CutBooks(cc'.events, cc'.recoveryStart, clock, if cc'.events > cc.events then cuts + [Cut(latest, clock)] else cuts) &&
            (cc.window >= MINIMUM_WINDOW ==> cc'.window >= MINIMUM_WINDOW)
  {
  }

  /** Losing packets, with the parts named. */
  ghost predicate LosingIs(w: World, level: Level, w': World, numbers: set<nat>, lossTime: Option<real>) {
    var space, log := w.r.At(level), w.logs.At(level);
    && numbers <= space.tracked.Keys && space.largestAcked.Some? && (forall n :: n in numbers ==> n <= space.largestAcked.value)
    && var lost := Chosen(space.tracked, numbers);
       var cc := if numbers == {} then w.r.cc else LostAll(w.r.cc, lost, w.clock);
       w' == World(w.r.With(level, Space(space.tracked - numbers, space.largestAcked, lossTime), cc),
                   w.logs.With(level, log.(lost := log.lost + Numbers(lost))), w.clock,
                   if cc.events > w.r.cc.events then w.cuts + [Cut(LatestSent(lost), w.clock)] else w.cuts)
  }

  lemma {:induction false} LosingParts(w: World, level: Level, delay: real)
    requires w.r.At(level).largestAcked.Some?
    ensures LosingIs(w, level, Losing(w, level, delay), LostNumbers(w.r.At(level), w.clock - delay),
                     LossTime(w.r.At(level), Waiting(w.r.At(level), w.clock - delay), delay))
  {
  }

  lemma {:induction false} LosingSpaces(w: World, level: Level, w': World, numbers: set<nat>, lossTime: Option<real>)
    requires LosingIs(w, level, w', numbers, lossTime) && forall l :: SpaceBooks(w.r.At(l), w.logs.At(l), w.clock)
    ensures forall l :: SpaceBooks(w'.r.At(l), w'.logs.At(l), w'.clock)
  {
    var space := w.r.At(level);
    assert SpaceBooks(space, w.logs.At(level), w.clock);
    ChosenAre(space, w.logs.At(level), w.clock, numbers);
    SpaceLoses(space, w.logs.At(level), w.clock, numbers, lossTime);
    OneSpaceMoves(w, w', level);
  }

  lemma {:induction false} LostAllBooks(cc: Congestion, lost: seq<Packet>, clock: real, cuts: seq<Cut>)
    requires |lost| > 0 && TotalSize(lost) <= cc.inFlight && cc.window >= MINIMUM_WINDOW
    requires (forall p :: p in lost ==> 0.0 < p.sent <= clock) && CutBooks(cc.events, cc.recoveryStart, clock, cuts)
    ensures var cc' := LostAll(cc, lost, clock);
            cc'.inFlight == cc.inFlight - TotalSize(lost) && cc'.window >= MINIMUM_WINDOW &&
            CutBooks(cc'.events, cc'.recoveryStart, clock, if cc'.events > cc.events then cuts + [Cut(LatestSent(lost), clock)] else cuts)
  {
    DroppedTakesSizes(cc.inFlight, lost);
    LatestIsSent(lost);
    CutKeeps(cc.(inFlight := DroppedAll(cc.inFlight, lost)), LatestSent(lost), clock, cuts);
  }

  lemma {:induction false} LosingCongestion(w: World, level: Level, w': World, numbers: set<nat>, lossTime: Option<real>)
    requires LosingIs(w, level, w', numbers, lossTime) && SpaceBooks(w.r.At(level), w.logs.At(level), w.clock)
    requires TotalSize(Chosen(w.r.At(level).tracked, numbers)) <= w.r.cc.inFlight && w.r.cc.window >= MINIMUM_WINDOW
    requires CutBooks(w.r.cc.events, w.r.cc.recoveryStart, w.clock, w.cuts)
    ensures w'.r.cc.inFlight == w.r.cc.inFlight - TotalSize(Chosen(w.r.At(level).tracked, numbers)) && w'.r.cc.window >= MINIMUM_WINDOW
    ensures CutBooks(w'.r.cc.events, w'.r.cc.recoveryStart, w'.clock, w'.cuts)
  {
    ChosenAre(w.r.At(level), w.logs.At(level), w.clock, numbers);
    if numbers == {} {
      AscendingUnfolds({});
    } else {
      LostAllBooks(w.r.cc, Chosen(w.r.At(level).tracked, numbers), w.clock, w.cuts);
    }
  }

  lemma {:induction false} LosingBooks(w: World, level: Level, w': World, numbers: set<nat>, lossTime: Option<real>)
    requires LosingIs(w, level, w', numbers, lossTime) && SpaceBooks(w.r.At(level), w.logs.At(level), w.clock)
    requires w.r.cc.inFlight == InFlightTotal(w.r) && w.r.cc.window >= MINIMUM_WINDOW
    requires CutBooks(w.r.cc.events, w.r.cc.recoveryStart, w.clock, w.cuts)
    ensures w'.r.cc.inFlight == InFlightTotal(w'.r) && w'.r.cc.window >= MINIMUM_WINDOW
    ensures CutBooks(w'.r.cc.events, w'.r.cc.recoveryStart, w'.clock, w'.cuts)
  {
    TotalAfter(w.r, level, numbers, w.r.At(level).largestAcked, lossTime, w'.r.cc);
    LosingCongestion(w, level, w', numbers, lossTime);
  }

  lemma {:induction false} LosingKeeps(w: World, level: Level, delay: real)
    requires Inv(w)
    ensures Inv(Losing(w, level, delay))
  {
    var space := w.r.At(level);
    assert SpaceBooks(space, w.logs.At(level), w.clock);
    if space.largestAcked.Some? {
      var numbers := LostNumbers(space, w.clock - delay);
      var lossTime := LossTime(space, Waiting(space, w.clock - delay), delay);
      LosingParts(w, level, delay);
      LosingSpaces(w, level, Losing(w, level, delay), numbers, lossTime);
      LosingBooks(w, level, Losing(w, level, delay), numbers, lossTime);
    } else {
      LosingNothing(w, level, delay);
    }
  }

  lemma {:induction false} LosingNothing(w: World, level: Level, delay: real)
    requires w.r.At(level).largestAcked.None?
    ensures Losing(w, level, delay) == w
  {
    assert w.logs.At(level).(lost := w.logs.At(level).lost + {}) == w.logs.At(level);
  }

  lemma {:induction false} LosingDueKeeps(w: World, level: Level, delay: real)
    requires Inv(w)
    ensures Inv(LosingDue(w, level, delay))
  {
    if LossDue(w.r.At(level), w.clock) {
      LosingKeeps(w, level, delay);
    }
  }

  lemma {:induction false} NextKeeps(w: World, event: Event)
    requires Inv(w)
    ensures Inv(Next(w, event))
  {
    if Enabled(event) {
      TickKeeps(w, event.elapsed);
      var w1 := Ticked(w, event.elapsed);
      match event
      case Send(level, eliciting, size, _) => SendingKeeps(w1, level, eliciting, size);
      case Ack(level, largest, numbers, delay, _) =>
        AckingKeeps(w1, level, largest, numbers);
        LosingKeeps(Acking(w1, level, largest, numbers), level, delay);
      case Timeout(delay, _) =>
        LosingDueKeeps(w1, Initial, delay);
        LosingDueKeeps(LosingDue(w1, Initial, delay), Handshake, delay);
        LosingDueKeeps(LosingDue(LosingDue(w1, Initial, delay), Handshake, delay), Application, delay);
    }
  }

  lemma {:induction false} RunKeeps(events: seq<Event>)
    ensures Inv(Run(events))
    decreases |events|
  {
    if |events| == 0 {
      StartHolds();
    } else {
      RunKeeps(events[..|events| - 1]);
      NextKeeps(Run(events[..|events| - 1]), events[|events| - 1]);
    }
  }

  // The theorems.

  /**
   * On every run each packet sent is tracked, acknowledged or lost, and only one of these; only
   * packets up to the largest acknowledged are ever lost.
   */
  lemma {:induction false} PacketsAreConserved(events: seq<Event>, level: Level, n: nat)
    ensures var w := Run(events);
            var space, log := w.r.At(level), w.logs.At(level);
            (n < log.next <==> n in space.tracked || n in log.acked || n in log.lost) &&
            !(n in space.tracked && n in log.acked) && !(n in space.tracked && n in log.lost) && !(n in log.acked && n in log.lost) &&
            (n in log.lost ==> space.largestAcked.Some? && n <= space.largestAcked.value)
  {
    RunKeeps(events);
    assert SpaceBooks(Run(events).r.At(level), Run(events).logs.At(level), Run(events).clock);
  }

  /** The bytes in flight are those of the packets outstanding, and the window has its minimum. */
  lemma {:induction false} BytesInFlightAreTracked(events: seq<Event>)
    ensures Run(events).r.cc.inFlight == InFlightTotal(Run(events).r) && Run(events).r.cc.window >= MINIMUM_WINDOW
  {
    RunKeeps(events);
  }

  /** No congestion event answers a packet that was sent before the event preceding it. */
  lemma {:induction false} CutsAreApart(events: seq<Event>, i: nat, j: nat)
    requires i < j < |Run(events).cuts|
    ensures var cuts := Run(events).cuts; cuts[i].trigger <= cuts[i].at < cuts[j].trigger <= cuts[j].at
  {
    RunKeeps(events);
  }

  /**
   * Detection is complete: of what it leaves, nothing is lost by order or by time, and the
   * timer is set to when the first of it will be.
   */
  lemma {:induction false} DetectionIsComplete(r: Recovery, level: Level, now: real, delay: real)
    requires r.At(level).largestAcked.Some?
    ensures var space := DetectLost(r, level, now, delay).0.At(level);
            LostNumbers(space, now - delay) == {} &&
            (forall n :: n in space.tracked && n <= space.largestAcked.value ==>
               n + PACKET_THRESHOLD > space.largestAcked.value &&
               space.lossTime.Some? && now < space.lossTime.value <= space.tracked[n].sent + delay)
  {
    var before, space := r.At(level), DetectLost(r, level, now, delay).0.At(level);
    var waiting := Waiting(before, now - delay);
    assert IsLossTime(space.lossTime, before, waiting, delay);
    forall n | n in space.tracked && n <= space.largestAcked.value
      ensures n in waiting
    {
    }
  }
}
