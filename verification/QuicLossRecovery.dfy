/** The objects of loss recovery and congestion control, changed in place event by event. */
module QuicLossRecovery {
  import opened Wrappers
  import opened SortedSets
  import opened QuicRecovery

  class CongestionControl {
    var window: nat
    var bytesInFlight: nat
    var ssthresh: Option<nat>
    var recoveryStartTime: real
    var events: nat

    function Value(): Congestion
      reads this
    {
      Congestion(window, bytesInFlight, ssthresh, recoveryStartTime, events)
    }

    constructor ()
      ensures Value() == NEW_RECOVERY.cc
    {
      window, bytesInFlight, ssthresh, recoveryStartTime, events := INITIAL_WINDOW, 0, None, 0.0, 0;
    }

    method OnPacketSent(size: nat)
      modifies this`bytesInFlight
      ensures bytesInFlight == old(bytesInFlight) + size
    {
      bytesInFlight := bytesInFlight + size;
    }

    method OnPacketsAcked(packets: seq<Packet>)
      modifies this
      ensures Value() == AckedAll(old(Value()), packets)
    {
      for i := 0 to |packets|
        invariant Value() == AckedAll(old(Value()), packets[..i])
      {
        assert packets[..i + 1][..i] == packets[..i];
        OnPacketAcked(packets[i]);
      }
      assert packets[..|packets|] == packets;
    }

    method OnPacketAcked(p: Packet)
      modifies this
      ensures Value() == AckedOne(old(Value()), p)
    {
      if !p.inFlight {
        return;
      }
      bytesInFlight := if bytesInFlight < p.size then 0 else bytesInFlight - p.size;
      if p.sent <= recoveryStartTime {
        return;
      }
      if ssthresh.None? || window < ssthresh.value {
        window := window + p.size;
      } else {
        window := window + MAX_DATAGRAM_SIZE * p.size / (if window < 1 then 1 else window);
      }
    }

    method OnPacketsLost(packets: seq<Packet>, now: real)
      modifies this
      ensures Value() == LostAll(old(Value()), packets, now)
    {
      var largestSent := 0.0;
      for i := 0 to |packets|
        invariant Value() == old(Value()).(inFlight := DroppedAll(old(bytesInFlight), packets[..i]))
        invariant largestSent == LatestSent(packets[..i])
      {
        assert packets[..i + 1][..i] == packets[..i];
        var p := packets[i];
        if p.inFlight {
          bytesInFlight := if bytesInFlight < p.size then 0 else bytesInFlight - p.size;
        }
        if largestSent < p.sent {
          largestSent := p.sent;
        }
      }
      assert packets[..|packets|] == packets;
      if largestSent != 0.0 {
        CutWindow(largestSent, now);
      }
    }

    method CutWindow(sentTime: real, now: real)
      requires sentTime != 0.0
      modifies this
      ensures Value() == EnterRecovery(old(Value()), sentTime, now)
    {
      if sentTime <= recoveryStartTime {
        return;
      }
      recoveryStartTime := now;
      window := if window / 2 < MINIMUM_WINDOW then MINIMUM_WINDOW else window / 2;
      ssthresh := Some(window);
      events := events + 1;
    }
  }

  lemma {:induction false} LossTimeIsUnique(s: Option<real>, t: Option<real>, space: Space, waiting: set<nat>, delay: real)
    requires waiting <= space.tracked.Keys && IsLossTime(s, space, waiting, delay) && IsLossTime(t, space, waiting, delay)
    ensures s == t
  {
  }

  /** What the walk over a sorted space has found so far. */
  ghost predicate Sifted(space: Space, numbers: seq<nat>, i: nat, threshold: real, delay: real, lost: seq<nat>, earliest: Option<real>) {
    && i <= |numbers| && Increasing(lost)
    && (forall n :: n in lost <==> n in LostNumbers(space, threshold) && n in numbers[..i])
    && IsLossTime(earliest, space, (set n | n in Waiting(space, threshold) && n in numbers[..i]), delay)
  }

  lemma {:induction false} SiftedAll(space: Space, numbers: seq<nat>, threshold: real, delay: real, lost: seq<nat>, earliest: Option<real>)
    requires Sifted(space, numbers, |numbers|, threshold, delay, lost, earliest) && forall n :: n in numbers <==> n in space.tracked
    ensures lost == Ascending(LostNumbers(space, threshold))
    ensures earliest == LossTime(space, Waiting(space, threshold), delay)
  {
    assert numbers[..|numbers|] == numbers;
    AscendingIncreases(LostNumbers(space, threshold));
    IncreasingIsUnique(lost, Ascending(LostNumbers(space, threshold)));
    assert (set n | n in Waiting(space, threshold) && n in numbers) == Waiting(space, threshold);
    LossTimeIsUnique(earliest, LossTime(space, Waiting(space, threshold), delay), space, Waiting(space, threshold), delay);
  }

  lemma {:induction false} SiftedStep(space: Space, numbers: seq<nat>, i: nat, threshold: real, delay: real, lost: seq<nat>, earliest: Option<real>)
    requires i < |numbers| && Sifted(space, numbers, i, threshold, delay, lost, earliest) && Increasing(numbers)
    requires numbers[i] in space.tracked
    ensures var n, at := numbers[i], space.tracked[numbers[i]].sent + delay;
            if n in LostNumbers(space, threshold) then Sifted(space, numbers, i + 1, threshold, delay, lost + [n], earliest)
            else if n in Waiting(space, threshold)
            then Sifted(space, numbers, i + 1, threshold, delay, lost, Some(if earliest.Some? && earliest.value <= at then earliest.value else at))
            else Sifted(space, numbers, i + 1, threshold, delay, lost, earliest)
  {
    var n := numbers[i];
    assert numbers[..i + 1] == numbers[..i] + [n];
    var before := set k | k in Waiting(space, threshold) && k in numbers[..i];
    var after := set k | k in Waiting(space, threshold) && k in numbers[..i + 1];
    assert after == if n in Waiting(space, threshold) then before + {n} else before;
    forall k | k in lost
      ensures k < n
    {
      var j :| 0 <= j < |numbers[..i]| && numbers[..i][j] == k;
      assert numbers[j] == k;
    }
    assert forall j :: 0 <= j < |lost| ==> lost[j] in lost;
  }

  /** A packet number space. */
  class NumberSpace {
    var sent: map<nat, Packet>
    var largestAcked: Option<nat>
    var lossTime: Option<real>

    function Value(): Space
      reads this
    {
      Space(sent, largestAcked, lossTime)
    }

    constructor ()
      ensures Value() == EMPTY_SPACE
    {
      sent, largestAcked, lossTime := map[], None, None;
    }

    /** Walks the space in order: what is lost, and when the first of the rest will be. */
    method Sift(threshold: real, delay: real) returns (lost: seq<nat>, earliest: Option<real>)
      requires largestAcked.Some?
      ensures lost == Ascending(LostNumbers(Value(), threshold))
      ensures earliest == LossTime(Value(), Waiting(Value(), threshold), delay)
    {
      var largest := largestAcked.value;
      var numbers := Sort(sent.Keys);
      ghost var space := Value();
      AscendingIncreases(sent.Keys);
      lost, earliest := [], None;
      for i := 0 to |numbers|
        invariant Sifted(space, numbers, i, threshold, delay, lost, earliest)
      {
        var n: nat := numbers[i];
        SiftedStep(space, numbers, i, threshold, delay, lost, earliest);
        if n <= largest {
          var p := sent[n];
          if n + PACKET_THRESHOLD <= largest || p.sent <= threshold {
            lost := lost + [n];
          } else {
            var at := p.sent + delay;
            earliest := Some(if earliest.Some? && earliest.value <= at then earliest.value else at);
          }
        }
      }
      SiftedAll(space, numbers, threshold, delay, lost, earliest);
    }

    /** Takes packets out, in the order given. */
    method Pop(numbers: seq<nat>) returns (packets: seq<Packet>)
      requires (forall n :: n in numbers ==> n in sent) && Increasing(numbers)
      modifies this`sent
      ensures packets == Packets(old(sent), numbers) && sent == old(sent) - Elements(numbers)
    {
      packets := [];
      for i := 0 to |numbers|
        invariant sent == old(sent) - Elements(numbers[..i])
        invariant |packets| == i && forall j :: 0 <= j < i ==> packets[j] == old(sent)[numbers[j]]
      {
        assert numbers[..i + 1] == numbers[..i] + [numbers[i]];
        assert numbers[i] !in numbers[..i];
        packets := packets + [sent[numbers[i]]];
        sent := sent - {numbers[i]};
      }
      assert numbers[..|numbers|] == numbers;
    }

    method DetectLostPackets(congestion: CongestionControl, now: real, delay: real) returns (lost: seq<Packet>)
      modifies this, congestion
      ensures (Value(), congestion.Value(), lost) == DetectIn(old(Value()), old(congestion.Value()), now, delay)
    {
      if largestAcked.None? {
        return [];
      }
      var numbers, earliest := Sift(now - delay, delay);
      AscendingIncreases(LostNumbers(Value(), now - delay));
      assert Elements(numbers) == LostNumbers(Value(), now - delay);
      lost := Pop(numbers);
      lossTime := earliest;
      if |lost| > 0 {
        congestion.OnPacketsLost(lost, now);
      }
    }

    /** The packets an ACK names leave in order; an ACK that names none leaves everything. */
    method Acknowledge(congestion: CongestionControl, largest: nat, numbers: set<nat>) returns (newly: seq<Packet>)
      modifies this, congestion
      ensures newly == Chosen(old(sent), Newly(old(Value()), numbers))
      ensures if Newly(old(Value()), numbers) == {} then Value() == old(Value()) && congestion.Value() == old(congestion.Value())
              else (Value(), congestion.Value()) == AckIn(old(Value()), old(congestion.Value()), largest, Newly(old(Value()), numbers))
    {
      ghost var chosen := Newly(Value(), numbers);
      var hits := Sort(set n | n in numbers && n in sent);
      AscendingIncreases(chosen);
      assert Elements(hits) == chosen;
      newly := Pop(hits);
      if |newly| > 0 {
        largestAcked := if largestAcked.Some? && largestAcked.value > largest then largestAcked else Some(largest);
        congestion.OnPacketsAcked(newly);
      } else {
        assert sent == old(sent) - {};
      }
    }
  }

  function Elements(numbers: seq<nat>): set<nat> {
    set n | n in numbers
  }

  class LossRecovery {
    const initial: NumberSpace
    const handshake: NumberSpace
    const application: NumberSpace
    const congestion: CongestionControl

    ghost predicate Valid() {
      initial != handshake && initial != application && handshake != application
    }

    function State(): Recovery
      reads initial, handshake, application, congestion
    {
      Recovery(initial.Value(), handshake.Value(), application.Value(), congestion.Value())
    }

    constructor ()
      ensures Valid() && State() == NEW_RECOVERY
      ensures fresh(initial) && fresh(handshake) && fresh(application) && fresh(congestion)
    {
      initial := new NumberSpace();
      handshake := new NumberSpace();
      application := new NumberSpace();
      congestion := new CongestionControl();
    }

    function SpaceFor(level: Level): NumberSpace {
      match level case Initial => initial case Handshake => handshake case Application => application
    }

    method OnPacketSent(level: Level, p: Packet)
      requires Valid()
      modifies SpaceFor(level), congestion
      ensures State() == OnSent(old(State()), level, p)
    {
      var space := SpaceFor(level);
      space.sent := space.sent[p.number := p];
      if p.inFlight {
        congestion.OnPacketSent(p.size);
      }
    }

    method OnAckReceived(level: Level, largest: nat, numbers: set<nat>, now: real, delay: real)
      returns (newly: seq<Packet>, lost: seq<Packet>)
      requires Valid()
      modifies SpaceFor(level), congestion
      ensures (State(), lost) == OnAck(old(State()), level, largest, numbers, now, delay)
      ensures newly == Chosen(old(State()).At(level).tracked, Newly(old(State()).At(level), numbers))
    {
      newly := SpaceFor(level).Acknowledge(congestion, largest, numbers);
      lost := SpaceFor(level).DetectLostPackets(congestion, now, delay);
    }
  }
}
