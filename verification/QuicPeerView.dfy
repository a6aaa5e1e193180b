/**
 * What the peer of a QUIC connection may come to see. A frame whose packet was refused counts as
 * not sent, but loss recovery has recorded it and may send it later, whatever has become of the
 * stream and of the limits since.
 */
module QuicPeerView {
  import opened Wrappers
  import opened Octets
  import opened QuicStrand
  import opened QuicDelivery
  import opened MapSum
  import QuicSender

  function End(p: Piece): nat {
    p.offset + |p.data|
  }

  // How far the frames of a stream reach.

  function Reaches(frames: seq<Frame>): map<nat, nat>
    decreases |frames|
  {
    if |frames| == 0 then map[]
    else
      var before, f := Reaches(frames[..|frames| - 1]), frames[|frames| - 1];
      if f.Stream? && Value(before, f.sid) < End(f.piece) then before[f.sid := End(f.piece)] else before
  }

  function Reach(w: World, sid: nat): nat {
    Value(Reaches(AllTried(w)), sid)
  }

  function Offset(w: World, sid: nat): nat {
    Value(w.sender.offsets, sid)
  }

  lemma {:induction false} ReachCovers(frames: seq<Frame>, f: Frame)
    requires f in frames && f.Stream?
    ensures End(f.piece) <= Value(Reaches(frames), f.sid)
    decreases |frames|
  {
    if f != frames[|frames| - 1] {
      ReachCovers(frames[..|frames| - 1], f);
    }
  }

  lemma {:induction false} ReachIsReached(frames: seq<Frame>, sid: nat)
    requires Value(Reaches(frames), sid) > 0
    ensures exists f :: f in frames && f.Stream? && f.sid == sid && End(f.piece) == Value(Reaches(frames), sid)
    decreases |frames|
  {
    var before, last := frames[..|frames| - 1], frames[|frames| - 1];
    if last.Stream? && last.sid == sid && End(last.piece) == Value(Reaches(frames), sid) {
      assert last in frames;
    } else {
      ReachIsReached(before, sid);
      var f :| f in before && f.Stream? && f.sid == sid && End(f.piece) == Value(Reaches(before), sid);
      assert f in frames;
    }
  }

  // How far a reader has seen.

  /** The reader has seen as far as the furthest of its pieces. */
  ghost predicate SeesFurthest(rd: Reader) {
    (forall p :: p in rd.arrived ==> End(p) <= rd.buffer.highest) &&
    (rd.buffer.highest > 0 ==> exists p :: p in rd.arrived && End(p) == rd.buffer.highest)
  }

  lemma {:induction false} ArriveSees(rd: Reader, p: Piece)
    requires SeesFurthest(rd)
    ensures SeesFurthest(Arrive(rd, p))
    ensures var before, after := rd.buffer.highest, Arrive(rd, p).buffer.highest;
            after == if End(p) > before then End(p) else before
  {
    var rd' := Arrive(rd, p);
    if rd'.buffer.highest == rd.buffer.highest {
      if rd.buffer.highest > 0 {
        var q :| q in rd.arrived && End(q) == rd.buffer.highest;
        assert q in rd'.arrived;
      }
    } else {
      assert p in rd'.arrived;
    }
  }

  lemma {:induction false} RunSees(steps: seq<Step>, sid: nat)
    ensures SeesFurthest(ReaderOf(Run(steps), sid))
    decreases |steps|
  {
    if |steps| > 0 {
      var before, step := steps[..|steps| - 1], steps[|steps| - 1];
      RunSees(before, sid);
      NextReads(Run(before), step, sid);
      if step.Arrives? {
        ArriveSees(ReaderOf(Run(before), sid), step.piece);
      }
    }
  }

  lemma {:induction false} NextReads(w: World, step: Step, sid: nat)
    ensures ReaderOf(Next(w, step), sid) ==
            if step.Arrives? && step.sid == sid && Enabled(w, step) then Arrive(ReaderOf(w, sid), step.piece) else ReaderOf(w, sid)
  {
    if !step.Arrives? {
      OthersDoNotRead(w, step);
    }
  }

  lemma {:induction false} OthersDoNotRead(w: World, step: Step)
    requires !step.Arrives?
    ensures Next(w, step).readers == w.readers
  {
  }

  lemma {:induction false} SeenIsTried(steps: seq<Step>, sid: nat)
    ensures ReaderOf(Run(steps), sid).buffer.highest <= Reach(Run(steps), sid)
  {
    var w := Run(steps);
    RunSees(steps, sid);
    RunKeepsInv(steps);
    assert StreamInv(w, sid);
    var rd := ReaderOf(w, sid);
    if rd.buffer.highest > 0 {
      var p :| p in rd.arrived && End(p) == rd.buffer.highest;
      assert p in BuiltOf(AllTried(w), sid);
      var f :| f in AllTried(w) && f.Stream? && f.sid == sid && f.piece == p;
      ReachCovers(AllTried(w), f);
    }
  }

  // Everything that may arrive does.

  function EveryArrival(frames: seq<Frame>): seq<Step>
    decreases |frames|
  {
    if |frames| == 0 then []
    else
      var before, f := EveryArrival(frames[..|frames| - 1]), frames[|frames| - 1];
      if f.Stream? then before + [Arrives(f.sid, f.piece)] else before
  }

  lemma {:induction false} EveryArrivalArrives(frames: seq<Frame>)
    ensures forall step :: step in EveryArrival(frames) ==> step.Arrives?
    decreases |frames|
  {
    if |frames| > 0 {
      EveryArrivalArrives(frames[..|frames| - 1]);
    }
  }

  lemma {:induction false} ArrivalsOnlyRead(steps: seq<Step>, more: seq<Step>)
    requires forall step :: step in more ==> step.Arrives?
    ensures Run(steps + more) == Run(steps).(readers := Run(steps + more).readers)
    decreases |more|
  {
    if |more| == 0 {
      assert steps + more == steps;
    } else {
      var before, last := more[..|more| - 1], more[|more| - 1];
      assert last in more && forall step :: step in before ==> step in more;
      ArrivalsOnlyRead(steps, before);
      RunSnoc(steps + before, last);
      assert steps + more == (steps + before) + [last];
    }
  }

  lemma {:induction false} AllSeen(steps: seq<Step>, frames: seq<Frame>, sid: nat)
    requires forall f :: f in frames ==> f in AllTried(Run(steps))
    ensures Value(Reaches(frames), sid) <= ReaderOf(Run(steps + EveryArrival(frames)), sid).buffer.highest
    decreases |frames|
  {
    if |frames| > 0 {
      var before, f := frames[..|frames| - 1], frames[|frames| - 1];
      assert f in frames && forall g :: g in before ==> g in frames;
      AllSeen(steps, before, sid);
      if f.Stream? {
        EveryArrivalArrives(before);
        OneMoreSeen(steps, EveryArrival(before), f, sid);
      }
    }
  }

  lemma {:induction false} OneMoreSeen(steps: seq<Step>, more: seq<Step>, f: Frame, sid: nat)
    requires f in AllTried(Run(steps)) && f.Stream? && forall step :: step in more ==> step.Arrives?
    ensures var before := ReaderOf(Run(steps + more), sid).buffer.highest;
            var after := ReaderOf(Run(steps + (more + [Arrives(f.sid, f.piece)])), sid).buffer.highest;
            before <= after && (f.sid == sid ==> End(f.piece) <= after)
  {
    var step := Arrives(f.sid, f.piece);
    ArrivalsOnlyRead(steps, more);
    assert steps + (more + [step]) == (steps + more) + [step];
    OneSeen(steps + more, f, sid);
  }

  lemma {:induction false} OneSeen(steps: seq<Step>, f: Frame, sid: nat)
    requires f in AllTried(Run(steps)) && f.Stream?
    ensures var before, after := ReaderOf(Run(steps), sid).buffer.highest, ReaderOf(Run(steps + [Arrives(f.sid, f.piece)]), sid).buffer.highest;
            before <= after && (f.sid == sid ==> End(f.piece) <= after)
  {
    RunSnoc(steps, Arrives(f.sid, f.piece));
    NextReads(Run(steps), Arrives(f.sid, f.piece), sid);
  }

  // The limit of a stream holds for whatever may arrive.

  ghost predicate WithinStreamLimit(s: QuicSender.Sender, f: Frame) {
    f.Stream? && QuicSender.StreamLimit(s.limits, f.sid).Some? ==> End(f.piece) <= QuicSender.StreamLimit(s.limits, f.sid).value
  }

  ghost predicate TriedWithin(w: World) {
    (!w.ready ==> AllTried(w) == []) && forall f :: f in AllTried(w) ==> WithinStreamLimit(w.sender, f)
  }

  /** Limits only become known before anything is tried, and then only grow. */
  ghost predicate LimitsGrow(s: QuicSender.Sender, s': QuicSender.Sender) {
    forall sid :: QuicSender.StreamLimit(s'.limits, sid).Some? ==>
      QuicSender.StreamLimit(s.limits, sid).Some? &&
      QuicSender.StreamLimit(s.limits, sid).value <= QuicSender.StreamLimit(s'.limits, sid).value
  }

  lemma {:induction false} TriedStaysWithin(w: World, w': World)
    requires TriedWithin(w) && AllTried(w') == AllTried(w) && LimitsGrow(w.sender, w'.sender) && w'.ready == w.ready
    ensures TriedWithin(w')
  {
    forall f | f in AllTried(w')
      ensures WithinStreamLimit(w'.sender, f)
    {
      assert WithinStreamLimit(w.sender, f);
    }
  }

  lemma {:induction false} OfferedIsWithin(s: QuicSender.Sender, e: QuicSender.Entry)
    requires QuicSender.Ledger(s) && e.Data?
    ensures var allowed := QuicSender.Allowance(s, e.sid, |e.chunk.piece|);
            !(allowed < |e.chunk.piece| && allowed == 0) ==> WithinStreamLimit(s, QuicSender.Offering(s, e, allowed))
  {
    QuicSender.AllowanceMeets(s, e.sid, |e.chunk.piece|);
  }

  lemma {:induction false} TurnStaysWithin(w: World, v: QuicSender.Verdict)
    requires WorldInv(w) && TriedWithin(w) && w.round.Some? && |w.round.value.rest| > 0 && w.ready
    ensures TriedWithin(AfterTake(w, v))
  {
    var w', e := AfterTake(w, v), w.round.value.rest[0];
    TurnLogs(w, v);
    assert w'.sender.limits == w.sender.limits;
    if !QuicSender.Passive(w.sender, w.round.value) {
      OfferedIsWithin(w.sender, e);
    }
    forall f | f in AllTried(w')
      ensures WithinStreamLimit(w'.sender, f)
    {
      if f in AllTried(w) {
        assert WithinStreamLimit(w.sender, f);
      }
    }
  }

  lemma {:induction false} NextStaysWithin(w: World, step: Step)
    requires WorldInv(w) && TriedWithin(w)
    ensures TriedWithin(Next(w, step))
  {
    if Enabled(w, step) {
      match step
      case Handshake(_) =>
      case TakeEntry(v) => TurnStaysWithin(w, v);
      case _ => TriedStaysWithin(w, Next(w, step));
    }
  }

  /** Whatever of a stream may arrive lies within the limit of that stream. */
  lemma {:induction false} StreamLimitsHold(steps: seq<Step>)
    ensures TriedWithin(Run(steps))
    decreases |steps|
  {
    if |steps| > 0 {
      StreamLimitsHold(steps[..|steps| - 1]);
      RunKeepsInv(steps[..|steps| - 1]);
      NextStaysWithin(Run(steps[..|steps| - 1]), steps[|steps| - 1]);
    }
  }

  // What is beyond the offset was refused.

  lemma {:induction false} SentReachesOffset(steps: seq<Step>, sid: nat)
    ensures var w := Run(steps);
            Offset(w, sid) <= Reach(w, sid) &&
            forall f :: f in AllSent(w) && f.Stream? && f.sid == sid ==> End(f.piece) <= Offset(w, sid)
  {
    var w := Run(steps);
    RunKeepsInv(steps);
    assert StreamInv(w, sid);
    var st := View(w, sid);
    var n := |st.sent|;
    SentBytesUnfolds(st.sent);
    if n > 0 {
      assert st.sent[n - 1] in BuiltOf(AllTried(w), sid);
      var f :| f in AllTried(w) && f.Stream? && f.sid == sid && f.piece == st.sent[n - 1];
      ReachCovers(AllTried(w), f);
    }
    forall f | f in AllSent(w) && f.Stream? && f.sid == sid
      ensures End(f.piece) <= Offset(w, sid)
    {
      SentIsAPiece(AllSent(w), f);
      var i :| 0 <= i < n && st.sent[i] == f.piece;
      assert SentTidy(st, i);
    }
  }

  /** A frame that was refused, and not sent since, reaches beyond what was sent of its stream. */
  ghost predicate RefusedBeyond(w: World, sid: nat) {
    exists f :: f in AllTried(w) && f !in AllSent(w) && f.Stream? && f.sid == sid && End(f.piece) > Offset(w, sid)
  }

  lemma {:induction false} BeyondIsRefused(steps: seq<Step>, sid: nat)
    ensures RefusedBeyond(Run(steps), sid) <==> Reach(Run(steps), sid) > Offset(Run(steps), sid)
  {
    var w := Run(steps);
    SentReachesOffset(steps, sid);
    if Reach(w, sid) > Offset(w, sid) {
      ReachIsReached(AllTried(w), sid);
    }
    if RefusedBeyond(w, sid) {
      var f :| f in AllTried(w) && f !in AllSent(w) && f.Stream? && f.sid == sid && End(f.piece) > Offset(w, sid);
      ReachCovers(AllTried(w), f);
    }
  }

  // The limit of the connection.

  /** What the peer counts against MAX_DATA. */
  ghost function PeerTotal(w: World): nat {
    SumOf(Highests(w))
  }

  ghost function Highests(w: World): map<nat, nat> {
    map sid | sid in w.readers :: w.readers[sid].buffer.highest
  }

  /** How far refused frames reach beyond what was sent, stream by stream. */
  function Excesses(w: World): map<nat, nat> {
    map sid | sid in Reaches(AllTried(w)) :: if Reach(w, sid) > Offset(w, sid) then Reach(w, sid) - Offset(w, sid) else 0
  }

  lemma {:induction false} ReachesAddUp(steps: seq<Step>)
    ensures var w := Run(steps); SumOf(Reaches(AllTried(w))) == w.sender.total + SumOf(Excesses(w))
  {
    var w := Run(steps);
    RunKeepsInv(steps);
    forall sid
      ensures Value(Reaches(AllTried(w)), sid) == Value(w.sender.offsets, sid) + Value(Excesses(w), sid)
    {
      SentReachesOffset(steps, sid);
    }
    SumAdds(w.sender.offsets, Excesses(w), Reaches(AllTried(w)));
  }

  lemma {:induction false} SeenAtMost(steps: seq<Step>)
    ensures PeerTotal(Run(steps)) <= SumOf(Reaches(AllTried(Run(steps))))
  {
    var w := Run(steps);
    forall sid
      ensures Value(Highests(w), sid) <= Value(Reaches(AllTried(w)), sid)
    {
      SeenIsTried(steps, sid);
    }
    SumIsMonotone(Highests(w), Reaches(AllTried(w)));
  }

  lemma {:induction false} SeenAtLast(steps: seq<Step>)
    ensures var tried := AllTried(Run(steps));
            SumOf(Reaches(tried)) <= PeerTotal(Run(steps + EveryArrival(tried)))
  {
    var tried := AllTried(Run(steps));
    var w := Run(steps + EveryArrival(tried));
    forall sid
      ensures Value(Reaches(tried), sid) <= Value(Highests(w), sid)
    {
      AllSeen(steps, tried, sid);
    }
    SumIsMonotone(Reaches(tried), Highests(w));
  }

  ghost predicate OnlyArrivals(more: seq<Step>) {
    forall step :: step in more ==> step.Arrives?
  }

  /** The peer counts no more than `limit`, whatever arrives of what has been tried. */
  ghost predicate PeerStaysWithin(steps: seq<Step>, limit: nat) {
    forall more :: OnlyArrivals(more) ==> PeerTotal(Run(steps + more)) <= limit
  }

  /**
   * Whatever arrives, in any order, the peer counts no more than MAX_DATA, exactly when refused
   * frames together reach no further beyond what was sent than the limit leaves room for.
   */
  lemma {:induction false} ConnectionLimitExactly(steps: seq<Step>, limit: nat)
    ensures PeerStaysWithin(steps, limit) <==> Run(steps).sender.total + SumOf(Excesses(Run(steps))) <= limit
  {
    var tried := AllTried(Run(steps));
    ReachesAddUp(steps);
    if SumOf(Reaches(tried)) <= limit {
      forall more | OnlyArrivals(more)
        ensures PeerTotal(Run(steps + more)) <= limit
      {
        ArrivalsOnlyRead(steps, more);
        SeenAtMost(steps + more);
      }
    } else {
      SeenAtLast(steps);
      EveryArrivalArrives(tried);
      assert OnlyArrivals(EveryArrival(tried));
    }
  }

  // The final size of a stream that was reset.

  /** Once a reset has been taken up nothing more is tried on its stream, and its offset stands. */
  lemma {:induction false} ResetFreezesStep(w: World, step: Step, sid: nat)
    requires sid in w.sender.resets
    ensures var w' := Next(w, step);
            sid in w'.sender.resets && Offset(w', sid) == Offset(w, sid) && BuiltOf(AllTried(w'), sid) == BuiltOf(AllTried(w), sid)
  {
    if Enabled(w, step) && step.TakeEntry? {
      ResetFreezesTurn(w, step.verdict, sid);
    }
  }

  lemma {:induction false} ResetFreezesTurn(w: World, v: QuicSender.Verdict, sid: nat)
    requires sid in w.sender.resets && w.round.Some? && |w.round.value.rest| > 0
    ensures var w' := AfterTake(w, v);
            sid in w'.sender.resets && Offset(w', sid) == Offset(w, sid) && BuiltOf(AllTried(w'), sid) == BuiltOf(AllTried(w), sid)
  {
    TurnLogs(w, v);
    if !QuicSender.Passive(w.sender, w.round.value) {
      TurnOffsets(w.sender, w.round.value, v, sid);
      TurnPieces(w, v, sid);
    }
  }

  lemma {:induction false} ResetFreezes(steps: seq<Step>, more: seq<Step>, sid: nat)
    requires sid in Run(steps).sender.resets
    ensures var w, w' := Run(steps), Run(steps + more);
            sid in w'.sender.resets && Offset(w', sid) == Offset(w, sid) && BuiltOf(AllTried(w'), sid) == BuiltOf(AllTried(w), sid)
    decreases |more|
  {
    if |more| == 0 {
      assert steps + more == steps;
    } else {
      var before, last := more[..|more| - 1], more[|more| - 1];
      ResetFreezes(steps, before, sid);
      RunSnoc(steps + before, last);
      assert steps + more == (steps + before) + [last];
      ResetFreezesStep(Run(steps + before), last, sid);
    }
  }

  /** However the run goes on, the peer sees no more of the stream than `size`. */
  ghost predicate SizeHolds(steps: seq<Step>, sid: nat, size: nat) {
    forall more :: ReaderOf(Run(steps + more), sid).buffer.highest <= size
  }

  lemma {:induction false} SameReach(w: World, w': World, sid: nat)
    requires BuiltOf(AllTried(w'), sid) == BuiltOf(AllTried(w), sid)
    ensures Reach(w', sid) <= Reach(w, sid)
  {
    if Reach(w', sid) > 0 {
      ReachIsReached(AllTried(w'), sid);
      var f :| f in AllTried(w') && f.Stream? && f.sid == sid && End(f.piece) == Reach(w', sid);
      assert f.piece in BuiltOf(AllTried(w'), sid);
      var g :| g in AllTried(w) && g.Stream? && g.sid == sid && g.piece == f.piece;
      ReachCovers(AllTried(w), g);
    }
  }

  lemma {:induction false} FrozenSizeHoldsExactly(steps: seq<Step>, sid: nat)
    requires sid in Run(steps).sender.resets
    ensures var w := Run(steps); SizeHolds(steps, sid, Offset(w, sid)) <==> Reach(w, sid) <= Offset(w, sid)
  {
    var w := Run(steps);
    if Reach(w, sid) <= Offset(w, sid) {
      forall more
        ensures ReaderOf(Run(steps + more), sid).buffer.highest <= Offset(w, sid)
      {
        ResetFreezes(steps, more, sid);
        SameReach(w, Run(steps + more), sid);
        SeenIsTried(steps + more, sid);
      }
    } else {
      AllSeen(steps, AllTried(w), sid);
      assert ReaderOf(Run(steps + EveryArrival(AllTried(w))), sid).buffer.highest > Offset(w, sid);
    }
  }

  /**
   * The RESET_STREAM that a drain makes of a reset gives a final size that holds, however the run
   * goes on, exactly when no refused frame of the stream reaches beyond it when the reset is
   * taken up.
   */
  lemma {:induction false} ResetHoldsExactly(steps: seq<Step>, v: QuicSender.Verdict)
    requires var w := Run(steps); w.round.Some? && |w.round.value.rest| > 0 && w.round.value.rest[0].Reset?
    ensures var w, after := Run(steps), steps + [TakeEntry(v)];
            var e := w.round.value.rest[0];
            AllControl(Run(after)) == AllControl(w) + [QuicSender.ResetStream(e.sid, e.code, Offset(w, e.sid))] &&
            (SizeHolds(after, e.sid, Offset(w, e.sid)) <==> !RefusedBeyond(w, e.sid))
  {
    var w, after := Run(steps), steps + [TakeEntry(v)];
    var e := w.round.value.rest[0];
    RunSnoc(steps, TakeEntry(v));
    TurnLogs(w, v);
    assert w.control + (w.round.value.control + [QuicSender.ResetStream(e.sid, e.code, Offset(w, e.sid))]) ==
           AllControl(w) + [QuicSender.ResetStream(e.sid, e.code, Offset(w, e.sid))];
    FrozenSizeHoldsExactly(after, e.sid);
    BeyondIsRefused(steps, e.sid);
  }

  // Without refusals both hold.

  ghost predicate NeverRefused(steps: seq<Step>) {
    forall step :: step in steps ==> step != TakeEntry(QuicSender.Refused)
  }

  lemma {:induction false} UnrefusedIsSent(steps: seq<Step>)
    requires NeverRefused(steps)
    ensures AllTried(Run(steps)) == AllSent(Run(steps))
    decreases |steps|
  {
    if |steps| > 0 {
      var before, step := steps[..|steps| - 1], steps[|steps| - 1];
      assert step in steps && forall s :: s in before ==> s in steps;
      UnrefusedIsSent(before);
      var w := Run(before);
      if Enabled(w, step) && step.TakeEntry? {
        TurnLogs(w, step.verdict);
      }
    }
  }

  /** When no packet is refused the peer's limits hold for all it may see, and so does every final size. */
  lemma {:induction false} UnrefusedRunsHold(steps: seq<Step>)
    requires NeverRefused(steps)
    ensures var w := Run(steps);
            (w.sender.limits.maxData.Some? ==> PeerStaysWithin(steps, w.sender.limits.maxData.value)) &&
            forall f :: f in AllControl(w) && f.ResetStream? ==> SizeHolds(steps, f.sid, f.finalSize)
  {
    var w := Run(steps);
    RunKeepsInv(steps);
    UnrefusedIsSent(steps);
    forall sid
      ensures Reach(w, sid) == Offset(w, sid)
    {
      SentReachesOffset(steps, sid);
      BeyondIsRefused(steps, sid);
    }
    NothingOver(w);
    if w.sender.limits.maxData.Some? {
      ConnectionLimitExactly(steps, w.sender.limits.maxData.value);
    }
    forall f | f in AllControl(w) && f.ResetStream?
      ensures SizeHolds(steps, f.sid, f.finalSize)
    {
      assert QuicDelivery.FinalSize(w.sender, f);
      FrozenSizeHoldsExactly(steps, f.sid);
    }
  }

  lemma {:induction false} NothingOver(w: World)
    requires forall sid :: Reach(w, sid) == Offset(w, sid)
    ensures SumOf(Excesses(w)) == 0
  {
    SumOfNothing();
    SumIsMonotone(Excesses(w), map[]);
  }

  // Both fail after a refusal.

  /** All that matters of a world between two drains. */
  ghost predicate Between(w: World, s: QuicSender.Sender, tried: seq<Frame>) {
    w.ready && w.round.None? && w.sender == s && w.tried == tried && w.control == [] && w.readers == map[]
  }

  ghost predicate Within(w: World, s: QuicSender.Sender, rest: seq<QuicSender.Entry>, keep: seq<QuicSender.Entry>, tried: seq<Frame>) {
    w.ready && w.round.Some? && w.sender == s && AllTried(w) == tried && AllControl(w) == [] && w.readers == map[] &&
    w.round.value.rest == rest && w.round.value.keep == keep
  }

  const NO_LIMITS := QuicSender.Limits(None, None, map[])

  function One(sid: nat, data: Bytes): QuicSender.Entry {
    QuicSender.Data(sid, Chunk(data, false))
  }

  function OneFrame(sid: nat, data: Bytes): Frame {
    QuicSender.Stream(sid, Piece(0, data, false))
  }

  lemma {:induction false} OnePiece(sid: nat, data: Bytes)
    requires 0 < |data| <= QuicSender.STREAM_CHUNK_SIZE
    ensures QuicSender.Entries(sid, QuicSender.Cut(data, false)) == [One(sid, data)]
    ensures QuicSender.Recount([One(sid, data)]) == map[sid := |data|]
  {
    var chunks := QuicSender.Cut(data, false);
    assert chunks == [Chunk(data, false)] && chunks[1..] == [];
    assert [One(sid, data)][..0] == [];
    assert QuicSender.Recount([]) == map[];
  }

  /** Data that was queued and refused is queued again, and may arrive. */
  lemma {:induction false} RefusedOnce(sid: nat, data: Bytes) returns (steps: seq<Step>)
    requires 0 < |data| <= QuicSender.STREAM_CHUNK_SIZE
    ensures Between(Run(steps), QuicSender.Sender([One(sid, data)], map[sid := |data|], map[], 0, {}, NO_LIMITS, map[], None),
                    [OneFrame(sid, data)])
  {
    var s := QuicSender.Sender([One(sid, data)], map[sid := |data|], map[], 0, {}, NO_LIMITS, map[], None);
    OnePiece(sid, data);
    steps := [Ask(QueueCall(sid, data, false))];
    RunSnoc([], Ask(QueueCall(sid, data, false)));
    assert [] + steps == steps;
    RunSnoc(steps, Handshake(None));
    steps := steps + [Handshake(None)];
    assert Between(Run(steps), s, []);
    steps := RefusedDrain(steps, s, sid, data);
  }

  lemma {:induction false} RefusedDrain(before: seq<Step>, s: QuicSender.Sender, sid: nat, data: Bytes) returns (steps: seq<Step>)
    requires Between(Run(before), s, []) && s.outbound == [One(sid, data)] && s.queuedBytes == map[sid := |data|]
    requires 0 < |data| <= QuicSender.STREAM_CHUNK_SIZE && s.resets == {} && s.offsets == map[]
    requires QuicSender.Allowance(s, sid, |data|) == |data|
    ensures Between(Run(steps), s, [OneFrame(sid, data)])
  {
    RunSnoc(before, BeginDrain);
    steps := before + [BeginDrain];
    steps := RefusedTurn(steps, s.(outbound := []), sid, data);
    RunSnoc(steps, EndDrain);
    steps := steps + [EndDrain];
    OnePiece(sid, data);
    assert [One(sid, data)] + [] == [One(sid, data)];
  }

  lemma {:induction false} RefusedTurn(before: seq<Step>, s: QuicSender.Sender, sid: nat, data: Bytes) returns (steps: seq<Step>)
    requires Within(Run(before), s, [One(sid, data)], [], []) && Run(before).round.value.blocked == {} && !Run(before).round.value.stopped
    requires 0 < |data| && s.resets == {} && s.offsets == map[] && QuicSender.Allowance(s, sid, |data|) == |data|
    ensures Within(Run(steps), s, [], [One(sid, data)], [OneFrame(sid, data)])
  {
    RunSnoc(before, TakeEntry(QuicSender.Refused));
    TurnLogs(Run(before), QuicSender.Refused);
    steps := before + [TakeEntry(QuicSender.Refused)];
    assert [] + [OneFrame(sid, data)] == [OneFrame(sid, data)] && [] + [One(sid, data)] == [One(sid, data)];
  }

  /**
   * Data is refused, its stream reset and the final size told to be zero; then the data is sent
   * again and arrives.
   */
  lemma {:induction false} FinalSizeIsOverrun(sid: nat, data: Bytes, code: nat) returns (steps: seq<Step>)
    requires 0 < |data| <= QuicSender.STREAM_CHUNK_SIZE
    ensures var w := Run(steps);
            AllControl(w) == [QuicSender.ResetStream(sid, code, 0)] && ReaderOf(w, sid).buffer.highest == |data|
  {
    steps := RefusedOnce(sid, data);
    steps := ResetDrained(steps, sid, data, code);
    RunSnoc(steps, Arrives(sid, Piece(0, data, false)));
    NextReads(Run(steps), Arrives(sid, Piece(0, data, false)), sid);
    steps := steps + [Arrives(sid, Piece(0, data, false))];
  }

  lemma {:induction false} ResetDrained(before: seq<Step>, sid: nat, data: Bytes, code: nat) returns (steps: seq<Step>)
    requires Between(Run(before), QuicSender.Sender([One(sid, data)], map[sid := |data|], map[], 0, {}, NO_LIMITS, map[], None),
                     [OneFrame(sid, data)])
    ensures var w := Run(steps);
            AllControl(w) == [QuicSender.ResetStream(sid, code, 0)] && AllTried(w) == [OneFrame(sid, data)] && w.readers == map[]
  {
    var call, mark := ResetCall(sid, code), QuicSender.Reset(sid, code);
    RunSnoc(before, Ask(call));
    steps := before + [Ask(call)];
    assert [One(sid, data)][1..] == [] && QuicSender.Without([], sid) == [];
    assert QuicSender.Without([One(sid, data)], sid) + [mark] == [mark];
    RunSnoc(steps, BeginDrain);
    steps := steps + [BeginDrain];
    assert Within(Run(steps), Run(steps).sender, [mark], [], [OneFrame(sid, data)]) && Run(steps).sender.offsets == map[];
    RunSnoc(steps, TakeEntry(QuicSender.Pass));
    steps := steps + [TakeEntry(QuicSender.Pass)];
  }

  /** The peer's limits in the next run: `n` for the connection, none at first for streams 0, 4 and so on. */
  function Narrow(n: nat): QuicSender.Parameters {
    QuicSender.Parameters(n, 0, n, n)
  }

  /** A world in a drain, as far as the run below needs it. */
  ghost predicate Draining(w: World, n: nat, streamMax: map<nat, nat>, total: nat, rest: seq<QuicSender.Entry>, keep: seq<QuicSender.Entry>,
                           tried: seq<Frame>) {
    w.ready && w.round.Some? && w.readers == map[] && AllTried(w) == tried && w.round.value.rest == rest && w.round.value.keep == keep &&
    w.sender.limits == QuicSender.Limits(Some(Narrow(n)), Some(n), streamMax) && w.sender.total == total && w.sender.resets == {} &&
    w.sender.outbound == []
  }

  /** Streams 4 and 1 have `n` octets queued each, and a drain begins. */
  lemma {:induction false} TwoQueued(a: Bytes, b: Bytes, n: nat) returns (steps: seq<Step>)
    requires 0 < |a| == |b| == n <= QuicSender.STREAM_CHUNK_SIZE
    ensures Draining(Run(steps), n, map[], 0, [One(4, a), One(1, b)], [], [])
    ensures Run(steps).sender.offsets == map[] && Run(steps).round.value.blocked == {} && !Run(steps).round.value.stopped
  {
    OnePiece(4, a);
    OnePiece(1, b);
    steps := [Ask(QueueCall(4, a, false))];
    RunSnoc([], Ask(QueueCall(4, a, false)));
    assert [] + steps == steps;
    RunSnoc(steps, Ask(QueueCall(1, b, false)));
    steps := steps + [Ask(QueueCall(1, b, false))];
    assert [One(4, a)] + [One(1, b)] == [One(4, a), One(1, b)];
    RunSnoc(steps, Handshake(Some(Narrow(n))));
    steps := steps + [Handshake(Some(Narrow(n)))];
    RunSnoc(steps, BeginDrain);
    steps := steps + [BeginDrain];
  }

  /** Stream 4 has no credit and is held; the frame of stream 1 is refused. */
  lemma {:induction false} HeldAndRefused(before: seq<Step>, a: Bytes, b: Bytes, n: nat) returns (steps: seq<Step>)
    requires 0 < |a| == |b| == n && Draining(Run(before), n, map[], 0, [One(4, a), One(1, b)], [], [])
    requires Run(before).sender.offsets == map[] && Run(before).round.value.blocked == {} && !Run(before).round.value.stopped
    ensures Draining(Run(steps), n, map[], 0, [], [One(4, a), One(1, b)], [OneFrame(1, b)]) && Run(steps).sender.offsets == map[]
  {
    RunSnoc(before, TakeEntry(QuicSender.Pass));
    steps := before + [TakeEntry(QuicSender.Pass)];
    assert QuicSender.Allowance(Run(before).sender, 4, n) == 0;
    assert [One(4, a), One(1, b)][1..] == [One(1, b)] && [] + [One(4, a)] == [One(4, a)];
    var w := Run(steps);
    assert Draining(w, n, map[], 0, [One(1, b)], [One(4, a)], []) && w.round.value.blocked == {4};
    assert QuicSender.Allowance(w.sender, 1, n) == n;
    RunSnoc(steps, TakeEntry(QuicSender.Refused));
    TurnLogs(w, QuicSender.Refused);
    steps := steps + [TakeEntry(QuicSender.Refused)];
    assert [One(4, a)] + ([One(1, b)] + []) == [One(4, a), One(1, b)];
  }

  /** Stream 4 gets its credit and sends first, up to the limit of the connection. */
  lemma {:induction false} OtherSends(before: seq<Step>, a: Bytes, b: Bytes, n: nat) returns (steps: seq<Step>)
    requires 0 < |a| == |b| == n && Draining(Run(before), n, map[], 0, [], [One(4, a), One(1, b)], [OneFrame(1, b)])
    requires Run(before).sender.offsets == map[]
    ensures Draining(Run(steps), n, map[4 := n], n, [One(1, b)], [], [OneFrame(1, b), OneFrame(4, a)])
  {
    RunSnoc(before, EndDrain);
    steps := before + [EndDrain];
    assert [One(4, a), One(1, b)] + [] == [One(4, a), One(1, b)];
    RunSnoc(steps, PeerMaxStreamData(4, n));
    steps := steps + [PeerMaxStreamData(4, n)];
    RunSnoc(steps, BeginDrain);
    steps := steps + [BeginDrain];
    var w := Run(steps);
    assert Draining(w, n, map[4 := n], 0, [One(4, a), One(1, b)], [], [OneFrame(1, b)]);
    assert QuicSender.Allowance(w.sender, 4, n) == n;
    RunSnoc(steps, TakeEntry(QuicSender.Pass));
    TurnLogs(w, QuicSender.Pass);
    steps := steps + [TakeEntry(QuicSender.Pass)];
    assert [OneFrame(1, b)] + [OneFrame(4, a)] == [OneFrame(1, b), OneFrame(4, a)];
    assert [One(4, a), One(1, b)][1..] == [One(1, b)];
  }

  /**
   * No reset is needed to pass MAX_DATA: a refused frame is sent again when another stream has
   * used up the credit of the connection, and the peer counts twice its limit.
   */
  lemma {:induction false} ConnectionLimitIsOverrun(a: Bytes, b: Bytes, n: nat) returns (steps: seq<Step>)
    requires 0 < |a| == |b| == n <= QuicSender.STREAM_CHUNK_SIZE
    ensures var w := Run(steps); w.sender.limits.maxData == Some(n) && PeerTotal(w) == 2 * n
  {
    steps := TwoQueued(a, b, n);
    steps := HeldAndRefused(steps, a, b, n);
    steps := OtherSends(steps, a, b, n);
    BothReach(Run(steps), a, b, n);
    SeenAtLast(steps);
    var more := EveryArrival(AllTried(Run(steps)));
    EveryArrivalArrives(AllTried(Run(steps)));
    ArrivalsOnlyRead(steps, more);
    SeenAtMost(steps + more);
    steps := steps + more;
  }

  lemma {:induction false} BothReach(w: World, a: Bytes, b: Bytes, n: nat)
    requires |a| == |b| == n > 0 && AllTried(w) == [OneFrame(1, b), OneFrame(4, a)]
    ensures SumOf(Reaches(AllTried(w))) == 2 * n
  {
    assert [OneFrame(1, b), OneFrame(4, a)][..1] == [OneFrame(1, b)] && [OneFrame(1, b)][..0] == [];
    assert Reaches([OneFrame(1, b)]) == map[][1 := n];
    assert Reaches(AllTried(w)) == map[1 := n][4 := n];
    SumOfNothing();
    SumWith(map[], 1, n);
    SumWith(map[1 := n], 4, n);
  }
}
