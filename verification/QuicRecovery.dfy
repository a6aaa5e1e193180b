/**
 * Loss detection and congestion control over three packet number spaces: RFC 9002, sections 6
 * and 7. Times are exact; how long a packet may be outstanding is a parameter of each event.
 */
module QuicRecovery {
  import opened Wrappers
  import opened SortedSets

  const PACKET_THRESHOLD := 3
  const MAX_DATAGRAM_SIZE: nat := 1200
  const INITIAL_WINDOW: nat := 12000
  const MINIMUM_WINDOW: nat := 2 * MAX_DATAGRAM_SIZE

  datatype Level = Initial | Handshake | Application

  datatype Packet = Packet(number: nat, sent: real, eliciting: bool, inFlight: bool, size: nat)

  /** A packet number space: what is outstanding, the largest acknowledged, when time alone next means loss. */
  datatype Space = Space(tracked: map<nat, Packet>, largestAcked: Option<nat>, lossTime: Option<real>)

  datatype Congestion = Congestion(window: nat, inFlight: nat, ssthresh: Option<nat>, recoveryStart: real, events: nat)

  datatype Recovery = Recovery(initial: Space, handshake: Space, application: Space, cc: Congestion) {
    function At(level: Level): Space {
      match level case Initial => initial case Handshake => handshake case Application => application
    }

    function With(level: Level, space: Space, cc: Congestion): Recovery {
      match level
      case Initial => this.(initial := space, cc := cc)
      case Handshake => this.(handshake := space, cc := cc)
      case Application => this.(application := space, cc := cc)
    }
  }

  const EMPTY_SPACE := Space(map[], None, None)

  const NEW_RECOVERY := Recovery(EMPTY_SPACE, EMPTY_SPACE, EMPTY_SPACE, Congestion(INITIAL_WINDOW, 0, None, 0.0, 0))

  // Congestion control.

  predicate InSlowStart(cc: Congestion) {
    cc.ssthresh.None? || cc.window < cc.ssthresh.value
  }

  function Lowered(inFlight: nat, size: nat): nat {
    if inFlight < size then 0 else inFlight - size
  }

  function Grown(cc: Congestion, size: nat): nat {
    if InSlowStart(cc) then cc.window + size
    else cc.window + MAX_DATAGRAM_SIZE * size / (if cc.window < 1 then 1 else cc.window)
  }

  function AckedOne(cc: Congestion, p: Packet): Congestion {
    if !p.inFlight then cc
    else
      var cc' := cc.(inFlight := Lowered(cc.inFlight, p.size));
      if p.sent <= cc.recoveryStart then cc' else cc'.(window := Grown(cc', p.size))
  }

  function AckedAll(cc: Congestion, packets: seq<Packet>): Congestion
    decreases |packets|
  {
    if |packets| == 0 then cc else AckedOne(AckedAll(cc, packets[..|packets| - 1]), packets[|packets| - 1])
  }

  function DroppedAll(inFlight: nat, packets: seq<Packet>): nat
    decreases |packets|
  {
    if |packets| == 0 then inFlight
    else
      var before, p := DroppedAll(inFlight, packets[..|packets| - 1]), packets[|packets| - 1];
      if p.inFlight then Lowered(before, p.size) else before
  }

  /** When the newest of the packets was sent. */
  function LatestSent(packets: seq<Packet>): real
    decreases |packets|
  {
    if |packets| == 0 then 0.0
    else
      var before, p := LatestSent(packets[..|packets| - 1]), packets[|packets| - 1];
      if before < p.sent then p.sent else before
  }

  function Reduced(window: nat): nat {
    if window / 2 < MINIMUM_WINDOW then MINIMUM_WINDOW else window / 2
  }

  predicate Cuts(cc: Congestion, sentTime: real) {
    sentTime != 0.0 && sentTime > cc.recoveryStart
  }

  /** One congestion event per round trip, not one per lost packet. */
  function EnterRecovery(cc: Congestion, sentTime: real, now: real): Congestion {
    if !Cuts(cc, sentTime) then cc
    else cc.(recoveryStart := now, window := Reduced(cc.window), ssthresh := Some(Reduced(cc.window)), events := cc.events + 1)
  }

  function LostAll(cc: Congestion, packets: seq<Packet>, now: real): Congestion {
    EnterRecovery(cc.(inFlight := DroppedAll(cc.inFlight, packets)), LatestSent(packets), now)
  }

  // Loss detection.

  function OnSent(r: Recovery, level: Level, p: Packet): Recovery {
    var space := r.At(level);
    r.With(level, space.(tracked := space.tracked[p.number := p]),
           if p.inFlight then r.cc.(inFlight := r.cc.inFlight + p.size) else r.cc)
  }

  ghost function Packets(m: map<nat, Packet>, numbers: seq<nat>): (packets: seq<Packet>)
    requires forall n :: n in numbers ==> n in m
    ensures |packets| == |numbers|
  {
    seq(|numbers|, i requires 0 <= i < |numbers| => m[numbers[i]])
  }

  /** Packets of a space, oldest first. */
  ghost function Chosen(m: map<nat, Packet>, s: set<nat>): seq<Packet>
    requires s <= m.Keys
  {
    Packets(m, Ascending(s))
  }

  /** Lost by order or by time, and never beyond what has been acknowledged. */
  predicate IsLost(p: Packet, number: nat, largest: nat, threshold: real) {
    number <= largest && (number + PACKET_THRESHOLD <= largest || p.sent <= threshold)
  }

  function LostNumbers(space: Space, threshold: real): set<nat> {
    match space.largestAcked
    case None => {}
    case Some(largest) => set n | n in space.tracked && IsLost(space.tracked[n], n, largest, threshold)
  }

  /** Acknowledged past, but too young to be lost. */
  function Waiting(space: Space, threshold: real): set<nat> {
    match space.largestAcked
    case None => {}
    case Some(largest) => set n | n in space.tracked && n <= largest && !IsLost(space.tracked[n], n, largest, threshold)
  }

  /** When the first of the packets that wait is lost by time. */
  ghost predicate IsLossTime(t: Option<real>, space: Space, waiting: set<nat>, delay: real)
    requires waiting <= space.tracked.Keys
  {
    match t
    case None => waiting == {}
    case Some(at) =>
      (exists n :: n in waiting && at == space.tracked[n].sent + delay) &&
      forall n :: n in waiting ==> at <= space.tracked[n].sent + delay
  }

  lemma {:induction false} LossTimeExists(space: Space, waiting: set<nat>, delay: real) returns (t: Option<real>)
    requires waiting <= space.tracked.Keys
    ensures IsLossTime(t, space, waiting, delay)
    decreases |waiting|
  {
    if waiting == {} {
      t := None;
    } else {
      var n :| n in waiting;
      var rest := LossTimeExists(space, waiting - {n}, delay);
      var own := space.tracked[n].sent + delay;
      if rest.Some? && rest.value <= own {
        t := rest;
        var m :| m in waiting - {n} && rest.value == space.tracked[m].sent + delay;
        assert m in waiting;
      } else {
        t := Some(own);
      }
    }
  }

  ghost function LossTime(space: Space, waiting: set<nat>, delay: real): (t: Option<real>)
    requires waiting <= space.tracked.Keys
    ensures IsLossTime(t, space, waiting, delay)
  {
    assert exists t :: IsLossTime(t, space, waiting, delay) by {
      var t := LossTimeExists(space, waiting, delay);
    }
    var t :| IsLossTime(t, space, waiting, delay);
    t
  }

  /** `detect_lost_packets` on one space: what it leaves, the congestion state, the packets lost. */
  ghost function DetectIn(space: Space, cc: Congestion, now: real, delay: real): (Space, Congestion, seq<Packet>) {
    if space.largestAcked.None? then (space, cc, [])
    else
      var numbers := LostNumbers(space, now - delay);
      var lost := Chosen(space.tracked, numbers);
      (Space(space.tracked - numbers, space.largestAcked, LossTime(space, Waiting(space, now - delay), delay)),
       if numbers == {} then cc else LostAll(cc, lost, now), lost)
  }

  ghost function DetectLost(r: Recovery, level: Level, now: real, delay: real): (Recovery, seq<Packet>) {
    var (space, cc, lost) := DetectIn(r.At(level), r.cc, now, delay);
    (r.With(level, space, cc), lost)
  }

  /** The numbers an ACK newly acknowledges. */
  function Newly(space: Space, numbers: set<nat>): set<nat> {
    set n | n in numbers && n in space.tracked
  }

  function Further(largest: Option<nat>, acked: nat): Option<nat> {
    if largest.Some? && largest.value > acked then largest else Some(acked)
  }

  /** The acknowledged packets leave, and the congestion window answers. */
  ghost function AckIn(space: Space, cc: Congestion, largest: nat, newly: set<nat>): (Space, Congestion)
    requires newly <= space.tracked.Keys
  {
    (space.(tracked := space.tracked - newly, largestAcked := Further(space.largestAcked, largest)),
     AckedAll(cc, Chosen(space.tracked, newly)))
  }

  ghost function Acknowledged(r: Recovery, level: Level, largest: nat, numbers: set<nat>): Recovery {
    var (space, cc) := AckIn(r.At(level), r.cc, largest, Newly(r.At(level), numbers));
    r.With(level, space, cc)
  }

  /** `on_ack_received`: what is newly acknowledged, and what is lost for it. */
  ghost function OnAck(r: Recovery, level: Level, largest: nat, numbers: set<nat>, now: real, delay: real): (Recovery, seq<Packet>) {
    if Newly(r.At(level), numbers) == {} then DetectLost(r, level, now, delay)
    else DetectLost(Acknowledged(r, level, largest, numbers), level, now, delay)
  }

  predicate LossDue(space: Space, now: real) {
    space.lossTime.Some? && space.lossTime.value <= now
  }
}
