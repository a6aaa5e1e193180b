/**
 * A sending connection and the readers of its streams, step by step: calls from any thread come
 * between the turns of a drain, packets may be refused, lost, repeated and reordered.
 */
module QuicDelivery {
  import opened Wrappers
  import opened Octets
  import opened QuicStrand
  import QuicSender
  import opened MapSum

  type Entry = QuicSender.Entry
  type Frame = QuicSender.Frame
  type Round = QuicSender.Round
  type Sender = QuicSender.Sender

  datatype Call = QueueCall(sid: nat, data: Bytes, fin: bool) | ResetCall(sid: nat, code: nat)

  datatype Step =
    | Ask(call: Call)
    | Handshake(peer: Option<QuicSender.Parameters>)
    | PeerMaxData(maximum: nat)
    | PeerMaxStreamData(stream: nat, streamMaximum: nat)
    | BeginDrain
    | TakeEntry(verdict: QuicSender.Verdict)
    | EndDrain
    | Arrives(sid: nat, piece: Piece)

  /** The logs hold what earlier drains sent and tried; `round` is the drain in progress. */
  datatype World = World(
    sender: Sender, ready: bool, round: Option<Round>, calls: seq<Call>,
    sent: seq<Frame>, tried: seq<Frame>, control: seq<Frame>, readers: map<nat, Reader>)

  ghost function Start(): World {
    World(QuicSender.NEW_SENDER, false, None, [], [], [], [], map[])
  }

  // What the logs say.

  /** All that was asked of one stream: `late` after its end, `hollow` where the data was empty. */
  datatype Asked = Asked(queued: Bytes, ended: bool, resetCalled: bool, late: bool, hollow: set<nat>)

  function AskedOf(calls: seq<Call>, sid: nat): Asked
    decreases |calls|
  {
    if |calls| == 0 then Asked([], false, false, false, {})
    else
      var before, call := AskedOf(calls[..|calls| - 1], sid), calls[|calls| - 1];
      if call.sid != sid then before
      else if call.ResetCall? then before.(resetCalled := true)
      else before.(queued := before.queued + call.data,
                   ended := before.ended || call.fin,
                   late := before.late || before.ended,
                   hollow := if call.data == [] then before.hollow + {|before.queued|} else before.hollow)
  }

  function PiecesOf(frames: seq<Frame>, sid: nat): seq<Piece>
    decreases |frames|
  {
    if |frames| == 0 then []
    else
      var before, frame := PiecesOf(frames[..|frames| - 1], sid), frames[|frames| - 1];
      if frame.Stream? && frame.sid == sid then before + [frame.piece] else before
  }

  ghost predicate Tried(frames: seq<Frame>, sid: nat, p: Piece) {
    QuicSender.Stream(sid, p) in frames
  }

  ghost function BuiltOf(frames: seq<Frame>, sid: nat): set<Piece> {
    set f | f in frames && f.Stream? && f.sid == sid :: f.piece
  }

  lemma {:induction false} PiecesOfSnoc(frames: seq<Frame>, f: Frame, sid: nat)
    ensures PiecesOf(frames + [f], sid) ==
            if f.Stream? && f.sid == sid then PiecesOf(frames, sid) + [f.piece] else PiecesOf(frames, sid)
    ensures BuiltOf(frames + [f], sid) ==
            if f.Stream? && f.sid == sid then BuiltOf(frames, sid) + {f.piece} else BuiltOf(frames, sid)
  {
    assert (frames + [f])[..|frames|] == frames;
    var all := frames + [f];
    forall p | p in BuiltOf(frames, sid)
      ensures p in BuiltOf(all, sid)
    {
      assert QuicSender.Stream(sid, p) in all;
    }
    assert f in all;
  }

  // The queue as one stream sees it.

  predicate HasReset(es: seq<Entry>, sid: nat)
    decreases |es|
  {
    |es| > 0 && ((es[0].Reset? && es[0].sid == sid) || HasReset(es[1..], sid))
  }

  /** The chunks of a stream that no reset stands in front of. */
  function Live(es: seq<Entry>, sid: nat): seq<Chunk>
    decreases |es|
  {
    if |es| == 0 then []
    else if es[0].sid != sid then Live(es[1..], sid)
    else if es[0].Reset? then []
    else [es[0].chunk] + Live(es[1..], sid)
  }

  lemma {:induction false} LiveAppend(a: seq<Entry>, b: seq<Entry>, sid: nat)
    ensures Live(a + b, sid) == if HasReset(a, sid) then Live(a, sid) else Live(a, sid) + Live(b, sid)
    ensures HasReset(a + b, sid) <==> HasReset(a, sid) || HasReset(b, sid)
    decreases |a|
  {
    if |a| == 0 {
      assert a + b == b;
    } else {
      LiveAppend(a[1..], b, sid);
      assert (a + b)[1..] == a[1..] + b;
    }
  }

  lemma {:induction false} LiveHead(e: Entry, tail: seq<Entry>, sid: nat)
    ensures Live([e] + tail, sid) ==
            if e.sid != sid then Live(tail, sid) else if e.Reset? then [] else [e.chunk] + Live(tail, sid)
    ensures HasReset([e] + tail, sid) <==> (e.Reset? && e.sid == sid) || HasReset(tail, sid)
  {
    assert ([e] + tail)[1..] == tail;
  }

  lemma {:induction false} DataHasNoReset(es: seq<Entry>, sid: nat)
    requires forall e :: e in es ==> e.Data?
    ensures !HasReset(es, sid)
    decreases |es|
  {
    if |es| > 0 {
      assert es[0] in es;
      DataHasNoReset(es[1..], sid);
    }
  }

  lemma {:induction false} LiveOfOthers(es: seq<Entry>, sid: nat)
    requires forall e :: e in es ==> e.sid != sid
    ensures Live(es, sid) == [] && !HasReset(es, sid)
    decreases |es|
  {
    if |es| > 0 {
      LiveOfOthers(es[1..], sid);
    }
  }

  lemma {:induction false} LiveOfEntries(sid: nat, chunks: seq<Chunk>, other: nat)
    ensures !HasReset(QuicSender.Entries(sid, chunks), other)
    ensures Live(QuicSender.Entries(sid, chunks), other) == if other == sid then chunks else []
    decreases |chunks|
  {
    if |chunks| > 0 {
      LiveOfEntries(sid, chunks[1..], other);
      assert QuicSender.Entries(sid, chunks)[1..] == QuicSender.Entries(sid, chunks[1..]);
    }
  }

  lemma {:induction false} LiveWithout(es: seq<Entry>, sid: nat, other: nat)
    ensures Live(QuicSender.Without(es, sid), other) == if other == sid then [] else Live(es, other)
    ensures HasReset(QuicSender.Without(es, sid), other) <==> other != sid && HasReset(es, other)
    decreases |es|
  {
    if |es| > 0 {
      LiveWithout(es[1..], sid, other);
    }
  }

  lemma {:induction false} LiveAround(keep: seq<Entry>, mid: seq<Entry>, tail: seq<Entry>, sid: nat)
    requires forall e :: e in keep ==> e.Data?
    requires forall e :: e in mid ==> e.Data?
    ensures Live(keep + mid + tail, sid) == Live(keep, sid) + Live(mid, sid) + Live(tail, sid)
    ensures HasReset(keep + mid + tail, sid) <==> HasReset(tail, sid)
  {
    DataHasNoReset(keep, sid);
    DataHasNoReset(mid, sid);
    LiveAppend(keep, mid, sid);
    LiveAppend(keep + mid, tail, sid);
  }

  /** Everything still queued, in sending order. */
  function InQueue(s: Sender, round: Option<Round>): seq<Entry> {
    (if round.Some? then round.value.keep + round.value.rest else []) + s.outbound
  }

  function LiveIn(s: Sender, round: Option<Round>, sid: nat): seq<Chunk> {
    if sid in s.resets then [] else Live(InQueue(s, round), sid)
  }

  predicate Gone(s: Sender, round: Option<Round>, sid: nat) {
    sid in s.resets || HasReset(InQueue(s, round), sid)
  }

  /** Data put back by a drain belongs to a stream that the drain no longer sends. */
  predicate RoundShape(r: Round) {
    forall e :: e in r.keep ==> e.Data? && (r.stopped || e.sid in r.blocked)
  }

  // One turn of a drain, stream by stream.

  /** The queue has `mid` between what was put back and what is still to be taken up. */
  predicate Around(s: Sender, r: Round, mid: seq<Entry>, tail: seq<Entry>) {
    RoundShape(r) && InQueue(s, Some(r)) == r.keep + mid + tail && forall e :: e in mid ==> e.Data?
  }

  lemma {:induction false} LiveMid(s: Sender, r: Round, mid: seq<Entry>, tail: seq<Entry>, sid: nat)
    requires Around(s, r, mid, tail)
    ensures Live(InQueue(s, Some(r)), sid) == Live(r.keep, sid) + Live(mid, sid) + Live(tail, sid)
    ensures HasReset(InQueue(s, Some(r)), sid) <==> HasReset(tail, sid)
  {
    LiveAround(r.keep, mid, tail, sid);
  }

  lemma {:induction false} ResetKeepsShape(s: Sender, r: Round)
    requires |r.rest| > 0 && RoundShape(r) && r.rest[0].Reset?
    ensures RoundShape(QuicSender.TakePassive(s, r).1)
  {
    QuicSender.WithoutKeeps(r.keep, r.rest[0].sid);
  }

  lemma {:induction false} ResetTurn(s: Sender, r: Round, sid: nat)
    requires |r.rest| > 0 && RoundShape(r) && r.rest[0].Reset?
    ensures var (s', r') := QuicSender.TakePassive(s, r);
            RoundShape(r') && (Gone(s', Some(r'), sid) <==> Gone(s, Some(r), sid)) &&
            LiveIn(s', Some(r'), sid) == if sid == r.rest[0].sid then [] else LiveIn(s, Some(r), sid)
  {
    var (s', r') := QuicSender.TakePassive(s, r);
    var e, tail := r.rest[0], r.rest[1..] + s.outbound;
    ResetKeepsShape(s, r);
    LiveWithout(r.keep, e.sid, sid);
    assert InQueue(s, Some(r)) == r.keep + [] + ([e] + tail);
    assert InQueue(s', Some(r')) == r'.keep + [] + tail;
    LiveMid(s, r, [], [e] + tail, sid);
    LiveMid(s', r', [], tail, sid);
    LiveHead(e, tail, sid);
  }

  lemma {:induction false} SkipTurn(s: Sender, r: Round, sid: nat)
    requires |r.rest| > 0 && RoundShape(r) && r.rest[0].Data? && r.rest[0].sid in s.resets
    ensures var (s', r') := QuicSender.TakePassive(s, r);
            RoundShape(r') && (Gone(s', Some(r'), sid) <==> Gone(s, Some(r), sid)) &&
            LiveIn(s', Some(r'), sid) == LiveIn(s, Some(r), sid)
  {
    var (s', r') := QuicSender.TakePassive(s, r);
    var e, tail := r.rest[0], r.rest[1..] + s.outbound;
    assert InQueue(s, Some(r)) == r.keep + [e] + tail;
    assert r'.keep == r.keep;
    assert InQueue(s', Some(r')) == r.keep + [] + tail;
    LiveMid(s, r, [e], tail, sid);
    LiveMid(s', r', [], tail, sid);
    if sid != e.sid {
      LiveOfOthers([e], sid);
    }
  }

  lemma {:induction false} HoldTurn(s: Sender, r: Round)
    requires |r.rest| > 0
    ensures InQueue(s, Some(QuicSender.Hold(r, [r.rest[0]]))) == InQueue(s, Some(r))
  {
  }

  lemma {:induction false} TakePassiveLive(s: Sender, r: Round, sid: nat)
    requires |r.rest| > 0 && RoundShape(r) && QuicSender.Passive(s, r)
    ensures var (s', r') := QuicSender.TakePassive(s, r);
            RoundShape(r') && (Gone(s', Some(r'), sid) <==> Gone(s, Some(r), sid)) &&
            LiveIn(s', Some(r'), sid) == if r.rest[0].Reset? && r.rest[0].sid == sid then [] else LiveIn(s, Some(r), sid)
  {
    if r.rest[0].Reset? {
      ResetTurn(s, r, sid);
    } else if r.rest[0].sid in s.resets {
      SkipTurn(s, r, sid);
    } else {
      HoldTurn(s, r);
    }
  }

  /** What a turn that can send leaves of its entry. */
  function Left(c: Chunk, allowed: nat, v: QuicSender.Verdict): seq<Chunk> {
    var back := if allowed < |c.piece| then [Chunk(c.piece[allowed..], c.fin)] else [];
    if allowed < |c.piece| && allowed == 0 then [c]
    else if v == QuicSender.Pass then back
    else [QuicSender.Front(c, allowed)] + back
  }

  function LeftAt(s: Sender, r: Round, v: QuicSender.Verdict): seq<Chunk>
    requires |r.rest| > 0 && r.rest[0].Data?
  {
    var e := r.rest[0];
    Left(e.chunk, QuicSender.Allowance(s, e.sid, |e.chunk.piece|), v)
  }

  lemma {:induction false} EntriesOfFew(sid: nat, a: Chunk, b: Chunk)
    ensures QuicSender.Entries(sid, []) == []
    ensures QuicSender.Entries(sid, [a]) == [QuicSender.Data(sid, a)]
    ensures QuicSender.Entries(sid, [a] + [b]) == [QuicSender.Data(sid, a)] + [QuicSender.Data(sid, b)]
  {
  }

  /** The turn in terms of what it leaves. */
  lemma {:induction false} ActiveTurn(s: Sender, r: Round, v: QuicSender.Verdict)
    requires |r.rest| > 0 && RoundShape(r) && !QuicSender.Passive(s, r)
    ensures var (s', r') := QuicSender.Take(s, r, v);
            RoundShape(r') && r'.keep == r.keep + QuicSender.Entries(r.rest[0].sid, LeftAt(s, r, v)) &&
            r'.rest == r.rest[1..] && s'.outbound == s.outbound && s'.resets == s.resets
  {
    var c := r.rest[0].chunk;
    var allowed := QuicSender.Allowance(s, r.rest[0].sid, |c.piece|);
    EntriesOfFew(r.rest[0].sid, c, c);
    if allowed < |c.piece| {
      EntriesOfFew(r.rest[0].sid, Chunk(c.piece[allowed..], c.fin), c);
      EntriesOfFew(r.rest[0].sid, QuicSender.Front(c, allowed), Chunk(c.piece[allowed..], c.fin));
    }
  }

  lemma {:induction false} LiveBefore(s: Sender, r: Round, sid: nat)
    requires |r.rest| > 0 && RoundShape(r) && !QuicSender.Passive(s, r)
    ensures var q, e, tail := InQueue(s, Some(r)), r.rest[0], r.rest[1..] + s.outbound;
            (HasReset(q, sid) <==> HasReset(tail, sid)) &&
            Live(q, sid) == if sid == e.sid then [e.chunk] + Live(tail, sid) else Live(r.keep, sid) + Live(tail, sid)
  {
    var e, tail := r.rest[0], r.rest[1..] + s.outbound;
    assert InQueue(s, Some(r)) == r.keep + [] + ([e] + tail);
    LiveMid(s, r, [], [e] + tail, sid);
    LiveHead(e, tail, sid);
    if sid == e.sid {
      LiveOfOthers(r.keep, sid);
    }
  }

  lemma {:induction false} LiveAfter(s: Sender, r: Round, v: QuicSender.Verdict, sid: nat)
    requires |r.rest| > 0 && RoundShape(r) && !QuicSender.Passive(s, r)
    ensures var (s', r') := QuicSender.Take(s, r, v);
            var q, e, tail := InQueue(s', Some(r')), r.rest[0], r.rest[1..] + s.outbound;
            (HasReset(q, sid) <==> HasReset(tail, sid)) &&
            Live(q, sid) == if sid == e.sid then LeftAt(s, r, v) + Live(tail, sid) else Live(r.keep, sid) + Live(tail, sid)
  {
    var (s', r') := QuicSender.Take(s, r, v);
    var e, tail := r.rest[0], r.rest[1..] + s.outbound;
    var mid := QuicSender.Entries(e.sid, LeftAt(s, r, v));
    ActiveTurn(s, r, v);
    QueueAfter(s, r, v);
    LiveAround(r.keep, mid, tail, sid);
    LiveOfEntries(e.sid, LeftAt(s, r, v), sid);
    if sid == e.sid {
      LiveOfOthers(r.keep, sid);
    }
  }

  lemma {:induction false} QueueAfter(s: Sender, r: Round, v: QuicSender.Verdict)
    requires |r.rest| > 0 && RoundShape(r) && !QuicSender.Passive(s, r)
    ensures var (s', r') := QuicSender.Take(s, r, v);
            InQueue(s', Some(r')) == r.keep + QuicSender.Entries(r.rest[0].sid, LeftAt(s, r, v)) + (r.rest[1..] + s.outbound)
  {
    ActiveTurn(s, r, v);
  }

  lemma {:induction false} ActiveLive(s: Sender, r: Round, v: QuicSender.Verdict, sid: nat)
    requires |r.rest| > 0 && RoundShape(r) && !QuicSender.Passive(s, r)
    ensures var (s', r') := QuicSender.Take(s, r, v);
            var e := r.rest[0];
            var before, after := LiveIn(s, Some(r), sid), LiveIn(s', Some(r'), sid);
            RoundShape(r') && (Gone(s', Some(r'), sid) <==> Gone(s, Some(r), sid)) &&
            if sid == e.sid then |before| > 0 && before[0] == e.chunk && after == LeftAt(s, r, v) + before[1..]
            else after == before
  {
    ActiveTurn(s, r, v);
    LiveBefore(s, r, sid);
    LiveAfter(s, r, v, sid);
  }

  // The world.

  function AllSent(w: World): seq<Frame> {
    if w.round.Some? then w.sent + w.round.value.sent else w.sent
  }

  function AllTried(w: World): seq<Frame> {
    if w.round.Some? then w.tried + w.round.value.tried else w.tried
  }

  function AllControl(w: World): seq<Frame> {
    if w.round.Some? then w.control + w.round.value.control else w.control
  }

  ghost function ReaderOf(w: World, sid: nat): Reader {
    if sid in w.readers then w.readers[sid] else NEW_READER
  }

  /** One stream of the world. */
  ghost function View(w: World, sid: nat): Strand {
    var asked := AskedOf(w.calls, sid);
    Strand(asked.queued, asked.ended, asked.resetCalled, asked.late, asked.hollow,
           LiveIn(w.sender, w.round, sid), QuicSender.Get(w.sender.offsets, sid),
           PiecesOf(AllSent(w), sid), BuiltOf(AllTried(w), sid))
  }

  ghost function AfterCall(w: World, call: Call): World {
    w.(calls := w.calls + [call],
       sender := match call
                 case QueueCall(sid, data, fin) => QuicSender.Queue(w.sender, sid, data, fin)
                 case ResetCall(sid, code) => QuicSender.Abandon(w.sender, sid, code))
  }

  ghost function AfterBegin(w: World): World {
    var (s, r) := QuicSender.Begin(w.sender);
    w.(sender := s, round := Some(r))
  }

  ghost function AfterTake(w: World, v: QuicSender.Verdict): World
    requires w.round.Some? && |w.round.value.rest| > 0
  {
    var (s, r) := QuicSender.Take(w.sender, w.round.value, v);
    w.(sender := s, round := Some(r))
  }

  ghost function AfterEnd(w: World): World
    requires w.round.Some?
  {
    World(QuicSender.End(w.sender, w.round.value), w.ready, None, w.calls, AllSent(w), AllTried(w), AllControl(w), w.readers)
  }

  ghost function AfterArrival(w: World, sid: nat, p: Piece): World {
    w.(readers := w.readers[sid := Arrive(ReaderOf(w, sid), p)])
  }

  ghost predicate Enabled(w: World, step: Step) {
    match step
    case Handshake(_) => !w.ready
    case BeginDrain => w.ready && w.round.None?
    case TakeEntry(_) => w.round.Some? && |w.round.value.rest| > 0
    case EndDrain => w.round.Some? && |w.round.value.rest| == 0
    case Arrives(sid, p) => Tried(AllTried(w), sid, p)
    case _ => true
  }

  /** A step that is not enabled changes nothing. */
  ghost function Next(w: World, step: Step): World {
    if !Enabled(w, step) then w
    else
      match step
      case Ask(call) => AfterCall(w, call)
      case Handshake(peer) => w.(sender := QuicSender.Learned(w.sender, peer), ready := true)
      case PeerMaxData(maximum) => w.(sender := QuicSender.MaxData(w.sender, maximum))
      case PeerMaxStreamData(sid, maximum) => w.(sender := QuicSender.MaxStreamData(w.sender, sid, maximum))
      case BeginDrain => AfterBegin(w)
      case TakeEntry(v) => AfterTake(w, v)
      case EndDrain => AfterEnd(w)
      case Arrives(sid, p) => AfterArrival(w, sid, p)
  }

  ghost function Run(steps: seq<Step>): World
    decreases |steps|
  {
    if |steps| == 0 then Start() else Next(Run(steps[..|steps| - 1]), steps[|steps| - 1])
  }

  /** What holds of every stream in every reachable world. */
  ghost predicate StreamInv(w: World, sid: nat) {
    && StrandInv(View(w, sid))
    && (View(w, sid).resetCalled <==> Gone(w.sender, w.round, sid))
    && ReaderInv(View(w, sid), ReaderOf(w, sid))
  }

  ghost predicate Onward(st: Strand, st': Strand) {
    && st.queued <= st'.queued && st.built <= st'.built
    && (st.late ==> st'.late)
    && (st'.queued != st.queued ==> !st.ended || st'.late)
    && (st.ended ==> st'.ended)
  }

  lemma {:induction false} StreamGoesOn(w: World, w': World, sid: nat)
    requires StreamInv(w, sid) && StrandInv(View(w', sid)) && Onward(View(w, sid), View(w', sid))
    requires View(w', sid).resetCalled <==> Gone(w'.sender, w'.round, sid)
    requires w'.readers == w.readers
    ensures StreamInv(w', sid)
  {
    ReaderUnmoved(View(w, sid), View(w', sid), ReaderOf(w, sid));
  }

  lemma {:induction false} AskedSnoc(calls: seq<Call>, call: Call, sid: nat)
    ensures AskedOf(calls + [call], sid) ==
            var before := AskedOf(calls, sid);
            if call.sid != sid then before
            else if call.ResetCall? then before.(resetCalled := true)
            else before.(queued := before.queued + call.data,
                         ended := before.ended || call.fin,
                         late := before.late || before.ended,
                         hollow := if call.data == [] then before.hollow + {|before.queued|} else before.hollow)
  {
    assert (calls + [call])[..|calls|] == calls;
  }

  lemma {:induction false} QueueLive(s: Sender, round: Option<Round>, sid: nat, data: Bytes, fin: bool, other: nat)
    ensures var s' := QuicSender.Queue(s, sid, data, fin);
            (Gone(s', round, other) <==> Gone(s, round, other)) &&
            LiveIn(s', round, other) ==
              if sid == other && !Gone(s, round, other) then LiveIn(s, round, other) + QuicSender.Cut(data, fin)
              else LiveIn(s, round, other)
  {
    var s' := QuicSender.Queue(s, sid, data, fin);
    var more := QuicSender.Entries(sid, QuicSender.Cut(data, fin));
    assert s'.resets == s.resets && InQueue(s', round) == InQueue(s, round) + more;
    LiveBehind(InQueue(s, round), sid, QuicSender.Cut(data, fin), other);
  }

  lemma {:induction false} LiveBehind(es: seq<Entry>, sid: nat, chunks: seq<Chunk>, other: nat)
    ensures var es' := es + QuicSender.Entries(sid, chunks);
            (HasReset(es', other) <==> HasReset(es, other)) &&
            Live(es', other) == if sid == other && !HasReset(es, other) then Live(es, other) + chunks else Live(es, other)
  {
    LiveAppend(es, QuicSender.Entries(sid, chunks), other);
    LiveOfEntries(sid, chunks, other);
  }

  lemma {:induction false} QueueKeepsStream(w: World, call: Call, sid: nat)
    requires StreamInv(w, sid) && call.QueueCall?
    ensures StreamInv(AfterCall(w, call), sid)
  {
    var w', st := AfterCall(w, call), View(w, sid);
    AskedSnoc(w.calls, call, sid);
    QueueLive(w.sender, w.round, call.sid, call.data, call.fin, sid);
    if sid == call.sid {
      CutsQueued(st, call.data, call.fin);
      assert View(w', sid) == Queued(st, call.data, call.fin, QuicSender.Cut(call.data, call.fin));
    } else {
      assert View(w', sid) == st;
    }
    StreamGoesOn(w, w', sid);
  }

  lemma {:induction false} CutsQueued(st: Strand, data: Bytes, fin: bool)
    requires StrandInv(st)
    ensures StrandInv(Queued(st, data, fin, QuicSender.Cut(data, fin)))
    ensures Onward(st, Queued(st, data, fin, QuicSender.Cut(data, fin)))
  {
    QuicSender.CutsAreChunks(data, fin);
    QueuedKeepsInv(st, data, fin, QuicSender.Cut(data, fin));
  }

  lemma {:induction false} AbandonLive(s: Sender, round: Option<Round>, sid: nat, code: nat, other: nat) returns (left: nat)
    ensures var s' := QuicSender.Abandon(s, sid, code);
            (Gone(s', round, other) <==> other == sid || Gone(s, round, other)) && left <= |LiveIn(s, round, other)| &&
            LiveIn(s', round, other) == if other == sid then LiveIn(s, round, other)[..left] else LiveIn(s, round, other)
  {
    var s' := QuicSender.Abandon(s, sid, code);
    var front := if round.Some? then round.value.keep + round.value.rest else [];
    var kept, mark := QuicSender.Without(s.outbound, sid), QuicSender.Reset(sid, code);
    LiveWithout(s.outbound, sid, other);
    LiveAppend(front, s.outbound, other);
    LiveAppend(kept, [mark], other);
    LiveAppend(front, kept + [mark], other);
    LiveHead(mark, [], other);
    assert [mark] + [] == [mark];
    left := if other != sid || sid in s.resets then 0 else |Live(front, sid)|;
  }

  lemma {:induction false} ResetKeepsStream(w: World, call: Call, sid: nat)
    requires StreamInv(w, sid) && call.ResetCall?
    ensures StreamInv(AfterCall(w, call), sid)
  {
    var w', st := AfterCall(w, call), View(w, sid);
    AskedSnoc(w.calls, call, sid);
    var left := AbandonLive(w.sender, w.round, call.sid, call.code, sid);
    if sid == call.sid {
      ResetKeepsInv(st, left);
      assert View(w', sid) == ResetTo(st, left);
    } else {
      assert View(w', sid) == st;
    }
    StreamGoesOn(w, w', sid);
  }

  lemma {:induction false} BeginKeepsStream(w: World, sid: nat)
    requires StreamInv(w, sid) && w.round.None?
    ensures StreamInv(AfterBegin(w), sid)
  {
    var w' := AfterBegin(w);
    assert InQueue(w'.sender, w'.round) == InQueue(w.sender, w.round);
    assert AllSent(w') == AllSent(w) && AllTried(w') == AllTried(w);
    StreamGoesOn(w, w', sid);
  }

  lemma {:induction false} EndKeepsStream(w: World, sid: nat)
    requires StreamInv(w, sid) && w.round.Some? && |w.round.value.rest| == 0
    ensures StreamInv(AfterEnd(w), sid)
  {
    var w' := AfterEnd(w);
    assert InQueue(w'.sender, w'.round) == InQueue(w.sender, w.round);
    StreamGoesOn(w, w', sid);
  }

  lemma {:induction false} ArrivalKeepsStream(w: World, to: nat, p: Piece, sid: nat)
    requires StreamInv(w, sid) && Tried(AllTried(w), to, p)
    ensures StreamInv(AfterArrival(w, to, p), sid)
  {
    if sid == to {
      ArriveKeepsInv(View(w, sid), ReaderOf(w, sid), p);
    }
    assert View(AfterArrival(w, to, p), sid) == View(w, sid);
  }

  // A turn of the drain, as the stream sees it.

  /** The stream's part in a turn that can send. */
  ghost function Turn(st: Strand, allowed: nat, v: QuicSender.Verdict): Strand
    requires |st.live| > 0
  {
    var size := |st.live[0].piece|;
    if allowed < size && allowed == 0 then st
    else
      var st1 := if allowed < size then Split(st, allowed) else st;
      match v
      case WindowFull => st1
      case Refused => Refuse(st1)
      case Pass => Send(st1)
  }

  lemma {:induction false} TurnKeepsInv(st: Strand, allowed: nat, v: QuicSender.Verdict)
    requires StrandInv(st) && |st.live| > 0
    ensures StrandInv(Turn(st, allowed, v)) && Onward(st, Turn(st, allowed, v))
  {
    var size := |st.live[0].piece|;
    if allowed >= size || allowed != 0 {
      var st1 := if allowed < size then Split(st, allowed) else st;
      if allowed < size {
        SplitKeepsInv(st, allowed);
      }
      RefuseKeepsInv(st1);
      SendKeepsInv(st1);
    }
  }

  /** The logs after a turn. */
  lemma {:induction false} TurnLogs(w: World, v: QuicSender.Verdict)
    requires w.round.Some? && |w.round.value.rest| > 0
    ensures var w', s, r := AfterTake(w, v), w.sender, w.round.value;
            if QuicSender.Passive(s, r) then AllSent(w') == AllSent(w) && AllTried(w') == AllTried(w)
            else
              var e := r.rest[0];
              var allowed := QuicSender.Allowance(s, e.sid, |e.chunk.piece|);
              var offered := QuicSender.Offering(s, e, allowed);
              var held := allowed < |e.chunk.piece| && allowed == 0;
              AllTried(w') == (if held || v == QuicSender.WindowFull then AllTried(w) else AllTried(w) + [offered]) &&
              AllSent(w') == (if held || v != QuicSender.Pass then AllSent(w) else AllSent(w) + [offered])
  {
  }

  lemma {:induction false} PassiveTurnKeepsStream(w: World, v: QuicSender.Verdict, sid: nat)
    requires StreamInv(w, sid) && w.round.Some? && |w.round.value.rest| > 0 && RoundShape(w.round.value)
    requires QuicSender.Passive(w.sender, w.round.value)
    ensures StreamInv(AfterTake(w, v), sid)
  {
    var w', st := AfterTake(w, v), View(w, sid);
    TurnLogs(w, v);
    TakePassiveLive(w.sender, w.round.value, sid);
    if w.round.value.rest[0].Reset? && w.round.value.rest[0].sid == sid {
      ResetKeepsInv(st, 0);
      GoneByReset(w.sender, w.round.value);
      assert View(w', sid) == ResetTo(st, 0);
    } else {
      assert View(w', sid) == st;
    }
    StreamGoesOn(w, w', sid);
  }

  lemma {:induction false} GoneByReset(s: Sender, r: Round)
    requires |r.rest| > 0 && r.rest[0].Reset? && RoundShape(r)
    ensures Gone(s, Some(r), r.rest[0].sid)
  {
    var e, tail := r.rest[0], r.rest[1..] + s.outbound;
    assert InQueue(s, Some(r)) == r.keep + ([e] + tail);
    LiveAppend(r.keep, [e] + tail, e.sid);
    LiveHead(e, tail, e.sid);
  }

  /** `Turn` piece by piece. */
  lemma {:induction false} TurnParts(st: Strand, allowed: nat, v: QuicSender.Verdict)
    requires |st.live| > 0
    ensures var st', c := Turn(st, allowed, v), st.live[0];
            var front, held := QuicSender.Front(c, allowed), allowed < |c.piece| && allowed == 0;
            var offered := Piece(st.offset, front.piece, front.fin);
            var goes := !held && v == QuicSender.Pass;
            st' == Strand(st.queued, st.ended, st.resetCalled, st.late, st.hollow, Left(c, allowed, v) + st.live[1..],
                          if goes then st.offset + |front.piece| else st.offset,
                          if goes then st.sent + [offered] else st.sent,
                          if held || v == QuicSender.WindowFull then st.built else st.built + {offered})
  {
    var c, tail := st.live[0], st.live[1..];
    if allowed >= |c.piece| || allowed == 0 {
      assert [c] + [] == [c] && [c] + tail == st.live && [] + tail == tail;
    } else {
      var front, back := QuicSender.Front(c, allowed), Chunk(c.piece[allowed..], c.fin);
      assert ([front, back] + tail)[1..] == [back] + tail;
      assert [front] + [back] == [front, back];
    }
  }

  lemma {:induction false} TurnOffsets(s: Sender, r: Round, v: QuicSender.Verdict, sid: nat)
    requires |r.rest| > 0 && !QuicSender.Passive(s, r)
    ensures var s', e := QuicSender.Take(s, r, v).0, r.rest[0];
            var allowed := QuicSender.Allowance(s, e.sid, |e.chunk.piece|);
            var held := allowed < |e.chunk.piece| && allowed == 0;
            QuicSender.Get(s'.offsets, sid) ==
              if sid == e.sid && !held && v == QuicSender.Pass
              then QuicSender.Get(s.offsets, sid) + |QuicSender.Front(e.chunk, allowed).piece|
              else QuicSender.Get(s.offsets, sid)
  {
  }

  lemma {:induction false} TurnPieces(w: World, v: QuicSender.Verdict, sid: nat)
    requires w.round.Some? && |w.round.value.rest| > 0 && !QuicSender.Passive(w.sender, w.round.value)
    ensures var w', e := AfterTake(w, v), w.round.value.rest[0];
            var allowed := QuicSender.Allowance(w.sender, e.sid, |e.chunk.piece|);
            var offered, held := QuicSender.Offering(w.sender, e, allowed).piece, allowed < |e.chunk.piece| && allowed == 0;
            PiecesOf(AllSent(w'), sid) ==
              (if sid != e.sid || held || v != QuicSender.Pass then PiecesOf(AllSent(w), sid) else PiecesOf(AllSent(w), sid) + [offered]) &&
            BuiltOf(AllTried(w'), sid) ==
              (if sid != e.sid || held || v == QuicSender.WindowFull then BuiltOf(AllTried(w), sid) else BuiltOf(AllTried(w), sid) + {offered})
  {
    var e := w.round.value.rest[0];
    var offered := QuicSender.Offering(w.sender, e, QuicSender.Allowance(w.sender, e.sid, |e.chunk.piece|));
    TurnLogs(w, v);
    PiecesOfSnoc(AllSent(w), offered, sid);
    PiecesOfSnoc(AllTried(w), offered, sid);
  }

  lemma {:induction false} OwnTurnView(w: World, v: QuicSender.Verdict, sid: nat)
    requires w.round.Some? && |w.round.value.rest| > 0 && RoundShape(w.round.value)
    requires !QuicSender.Passive(w.sender, w.round.value) && w.round.value.rest[0].sid == sid
    ensures var w', e := AfterTake(w, v), w.round.value.rest[0];
            |View(w, sid).live| > 0 && View(w, sid).live[0] == e.chunk &&
            View(w', sid) == Turn(View(w, sid), QuicSender.Allowance(w.sender, sid, |e.chunk.piece|), v)
  {
    var e := w.round.value.rest[0];
    ActiveLive(w.sender, w.round.value, v, sid);
    TurnOffsets(w.sender, w.round.value, v, sid);
    TurnPieces(w, v, sid);
    TurnParts(View(w, sid), QuicSender.Allowance(w.sender, sid, |e.chunk.piece|), v);
  }

  lemma {:induction false} OtherTurnView(w: World, v: QuicSender.Verdict, sid: nat)
    requires w.round.Some? && |w.round.value.rest| > 0 && RoundShape(w.round.value)
    requires !QuicSender.Passive(w.sender, w.round.value) && w.round.value.rest[0].sid != sid
    ensures View(AfterTake(w, v), sid) == View(w, sid)
  {
    ActiveLive(w.sender, w.round.value, v, sid);
    TurnOffsets(w.sender, w.round.value, v, sid);
    TurnPieces(w, v, sid);
  }

  lemma {:induction false} TurnKeepsStream(w: World, v: QuicSender.Verdict, sid: nat)
    requires StreamInv(w, sid) && w.round.Some? && |w.round.value.rest| > 0 && RoundShape(w.round.value)
    ensures StreamInv(AfterTake(w, v), sid)
  {
    if QuicSender.Passive(w.sender, w.round.value) {
      PassiveTurnKeepsStream(w, v, sid);
    } else {
      var w', e := AfterTake(w, v), w.round.value.rest[0];
      ActiveLive(w.sender, w.round.value, v, sid);
      if sid == e.sid {
        OwnTurnView(w, v, sid);
        TurnKeepsInv(View(w, sid), QuicSender.Allowance(w.sender, sid, |e.chunk.piece|), v);
      } else {
        OtherTurnView(w, v, sid);
      }
      StreamGoesOn(w, w', sid);
    }
  }

  // What the control frames say.

  ghost predicate FinalSize(s: Sender, f: Frame) {
    f.ResetStream? ==> f.sid in s.resets && f.finalSize == QuicSender.Get(s.offsets, f.sid)
  }

  /** A limit once reported is at most the last one reported, and that is at most the current one. */
  ghost predicate Reported(s: Sender, f: Frame) {
    (f.StreamDataBlocked? ==> f.sid in s.streamReported && f.limit <= s.streamReported[f.sid]) &&
    (f.DataBlocked? ==> s.connReported.Some? && f.limit <= s.connReported.value)
  }

  ghost predicate ReportsWithinLimits(s: Sender) {
    && (forall sid :: sid in s.streamReported ==>
          QuicSender.StreamLimit(s.limits, sid).Some? && s.streamReported[sid] <= QuicSender.StreamLimit(s.limits, sid).value)
    && (s.connReported.Some? ==> s.limits.maxData.Some? && s.connReported.value <= s.limits.maxData.value)
  }

  ghost predicate ControlInv(s: Sender, control: seq<Frame>) {
    && ReportsWithinLimits(s)
    && (forall f :: f in control ==> FinalSize(s, f) && Reported(s, f))
    && (forall i, j :: 0 <= i < j < |control| ==> control[i] != control[j] || control[i].ResetStream?)
  }

  lemma {:induction false} ControlGrows(s: Sender, s': Sender, control: seq<Frame>, f: Frame)
    requires ControlInv(s, control) && ReportsWithinLimits(s')
    requires forall g :: g in control ==> FinalSize(s', g) && Reported(s', g)
    requires FinalSize(s', f) && Reported(s', f)
    requires f.ResetStream? || !Reported(s, f)
    ensures ControlInv(s', control + [f])
  {
    var all := control + [f];
    forall i, j | 0 <= i < j < |all|
      ensures all[i] != all[j] || all[i].ResetStream?
    {
      if j == |control| {
        assert control[i] in control;
      } else {
        assert all[j] == control[j];
      }
    }
  }

  lemma {:induction false} StreamReportKeepsControl(s: Sender, control: seq<Frame>, sid: nat, size: nat)
    requires ControlInv(s, control) && QuicSender.StreamUnreported(s, sid, size)
    ensures var limit := QuicSender.StreamLimit(s.limits, sid).value;
            ControlInv(s.(streamReported := s.streamReported[sid := limit]), control + [QuicSender.StreamDataBlocked(sid, limit)])
  {
    var limit := QuicSender.StreamLimit(s.limits, sid).value;
    var s' := s.(streamReported := s.streamReported[sid := limit]);
    forall g | g in control
      ensures FinalSize(s', g) && Reported(s', g)
    {
      assert FinalSize(s, g) && Reported(s, g);
    }
    ControlGrows(s, s', control, QuicSender.StreamDataBlocked(sid, limit));
  }

  lemma {:induction false} ConnReportKeepsControl(s: Sender, control: seq<Frame>, size: nat)
    requires ControlInv(s, control) && QuicSender.ConnUnreported(s, size)
    ensures ControlInv(s.(connReported := s.limits.maxData), control + [QuicSender.DataBlocked(s.limits.maxData.value)])
  {
    var s' := s.(connReported := s.limits.maxData);
    forall g | g in control
      ensures FinalSize(s', g) && Reported(s', g)
    {
      assert FinalSize(s, g) && Reported(s, g);
    }
    ControlGrows(s, s', control, QuicSender.DataBlocked(s.limits.maxData.value));
  }

  lemma {:induction false} BlockedKeepsControl(s: Sender, control: seq<Frame>, sid: nat, size: nat)
    requires ControlInv(s, control)
    ensures ControlInv(QuicSender.BlockedReported(s, sid, size), control + QuicSender.BlockedFrames(s, sid, size))
  {
    var s1, control1 := s, control;
    if QuicSender.StreamUnreported(s, sid, size) {
      var limit := QuicSender.StreamLimit(s.limits, sid).value;
      StreamReportKeepsControl(s, control, sid, size);
      s1, control1 := s.(streamReported := s.streamReported[sid := limit]), control + [QuicSender.StreamDataBlocked(sid, limit)];
    }
    var s2, control2 := s1, control1;
    if QuicSender.ConnUnreported(s, size) {
      ConnReportKeepsControl(s1, control1, size);
      s2, control2 := s1.(connReported := s.limits.maxData), control1 + [QuicSender.DataBlocked(s.limits.maxData.value)];
    }
    assert s2 == QuicSender.BlockedReported(s, sid, size);
    assert control2 == control + QuicSender.BlockedFrames(s, sid, size);
  }

  lemma {:induction false} SenderMovesControl(s: Sender, s': Sender, control: seq<Frame>)
    requires ControlInv(s, control) && ReportsWithinLimits(s')
    requires s'.streamReported == s.streamReported && s'.connReported == s.connReported && s.resets <= s'.resets
    requires forall sid :: sid in s.resets ==> QuicSender.Get(s'.offsets, sid) == QuicSender.Get(s.offsets, sid)
    ensures ControlInv(s', control)
  {
    forall f | f in control
      ensures FinalSize(s', f) && Reported(s', f)
    {
      assert FinalSize(s, f) && Reported(s, f);
    }
  }

  lemma {:induction false} PassiveKeepsControl(s: Sender, r: Round, before: seq<Frame>)
    requires |r.rest| > 0 && ControlInv(s, before + r.control) && QuicSender.Passive(s, r)
    ensures var (s', r') := QuicSender.TakePassive(s, r); ControlInv(s', before + r'.control)
  {
    var (s', r') := QuicSender.TakePassive(s, r);
    var e, control := r.rest[0], before + r.control;
    if e.Reset? {
      SenderMovesControl(s, s', control);
      var f := QuicSender.ResetStream(e.sid, e.code, QuicSender.Get(s.offsets, e.sid));
      ControlGrows(s, s', control, f);
      assert before + r'.control == control + [f];
    }
  }

  lemma {:induction false} NoteKeepsControl(s: Sender, r: Round, sid: nat, size: nat, before: seq<Frame>)
    requires ControlInv(s, before + r.control)
    ensures var (s', r') := QuicSender.NoteBlocked(s, r, sid, size); ControlInv(s', before + r'.control)
  {
    BlockedKeepsControl(s, before + r.control, sid, size);
    assert before + (r.control + QuicSender.BlockedFrames(s, sid, size)) ==
           (before + r.control) + QuicSender.BlockedFrames(s, sid, size);
  }

  lemma {:induction false} TurnKeepsControl(s: Sender, r: Round, v: QuicSender.Verdict, before: seq<Frame>)
    requires |r.rest| > 0 && ControlInv(s, before + r.control)
    ensures var (s', r') := QuicSender.Take(s, r, v); ControlInv(s', before + r'.control)
  {
    if QuicSender.Passive(s, r) {
      PassiveKeepsControl(s, r, before);
    } else {
      var e := r.rest[0];
      NoteKeepsControl(s, r, e.sid, |e.chunk.piece|, before);
      var (s1, r1) := QuicSender.NoteBlocked(s, r, e.sid, |e.chunk.piece|);
      OfferKeepsControl(s1, r1, e, QuicSender.Allowance(s, e.sid, |e.chunk.piece|), v, before);
    }
  }

  lemma {:induction false} OfferKeepsControl(s: Sender, r: Round, e: Entry, allowed: nat, v: QuicSender.Verdict, before: seq<Frame>)
    requires |r.rest| > 0 && e.Data? && e.sid !in s.resets && ControlInv(s, before + r.control)
    ensures var (s', r') := QuicSender.Offer(s, r, e, allowed, v); ControlInv(s', before + r'.control)
  {
    SenderMovesControl(s, QuicSender.Offer(s, r, e, allowed, v).0, before + r.control);
  }

  // Runs.

  /** Before the handshake nothing is known of the peer's limits, and nothing is sent. */
  ghost predicate Waiting(s: Sender) {
    s.offsets == map[] && s.limits == QuicSender.Limits(None, None, map[]) && s.streamReported == map[] && s.connReported == None
  }

  ghost predicate WorldInv(w: World) {
    && QuicSender.Ledger(w.sender)
    && (!w.ready ==> w.round.None? && Waiting(w.sender))
    && (w.round.Some? ==> RoundShape(w.round.value))
    && (w.round.None? ==> QuicSender.Counted(w.sender))
    && ControlInv(w.sender, AllControl(w))
    && (forall sid :: StreamInv(w, sid))
  }

  lemma {:induction false} StartHolds()
    ensures WorldInv(Start())
  {
    SumOfNothing();
    forall sid
      ensures StreamInv(Start(), sid)
    {
      NewStrandHolds();
      assert View(Start(), sid) == NEW_STRAND;
    }
  }

  lemma {:induction false} CallKeepsInv(w: World, call: Call)
    requires WorldInv(w)
    ensures WorldInv(AfterCall(w, call))
  {
    var w' := AfterCall(w, call);
    SenderMovesControl(w.sender, w'.sender, AllControl(w));
    if w.round.None? {
      QuicSender.CallsKeepCount(w.sender, call.sid, if call.QueueCall? then call.data else [],
                                call.QueueCall? && call.fin, if call.QueueCall? then 0 else call.code);
    }
    forall sid
      ensures StreamInv(w', sid)
    {
      if call.QueueCall? {
        QueueKeepsStream(w, call, sid);
      } else {
        ResetKeepsStream(w, call, sid);
      }
    }
  }

  /** Limits leave the streams as they are. */
  lemma {:induction false} LimitsMove(w: World, w': World)
    requires WorldInv(w) && w'.sender == w.sender.(limits := w'.sender.limits) && w' == w.(sender := w'.sender, ready := w'.ready)
    requires QuicSender.Ledger(w'.sender) && ReportsWithinLimits(w'.sender)
    requires !w'.ready ==> w'.round.None? && Waiting(w'.sender)
    ensures WorldInv(w')
  {
    SenderMovesControl(w.sender, w'.sender, AllControl(w));
    forall sid
      ensures StreamInv(w', sid)
    {
      assert StreamInv(w, sid);
      assert View(w', sid) == View(w, sid);
    }
  }

  lemma {:induction false} HandshakeKeepsInv(w: World, peer: Option<QuicSender.Parameters>)
    requires WorldInv(w) && !w.ready
    ensures WorldInv(w.(sender := QuicSender.Learned(w.sender, peer), ready := true))
  {
    QuicSender.LearnedKeepsLedger(w.sender, peer);
    LimitsMove(w, w.(sender := QuicSender.Learned(w.sender, peer), ready := true));
  }

  lemma {:induction false} MaximaKeepInv(w: World, sid: nat, maximum: nat)
    requires WorldInv(w)
    ensures WorldInv(w.(sender := QuicSender.MaxData(w.sender, maximum)))
    ensures WorldInv(w.(sender := QuicSender.MaxStreamData(w.sender, sid, maximum)))
  {
    QuicSender.LimitsKeepLedger(w.sender, sid, maximum);
    LimitsMove(w, w.(sender := QuicSender.MaxData(w.sender, maximum)));
    LimitsMove(w, w.(sender := QuicSender.MaxStreamData(w.sender, sid, maximum)));
  }

  lemma {:induction false} DrainKeepsInv(w: World, step: Step)
    requires WorldInv(w) && Enabled(w, step) && (step.BeginDrain? || step.TakeEntry? || step.EndDrain?)
    ensures WorldInv(Next(w, step))
  {
    var w' := Next(w, step);
    if step.TakeEntry? {
      QuicSender.TakeKeepsLedger(w.sender, w.round.value, step.verdict);
      TurnKeepsControl(w.sender, w.round.value, step.verdict, w.control);
    } else {
      if step.EndDrain? {
        QuicSender.EndCounts(w.sender, w.round.value);
      }
      assert AllControl(w') == AllControl(w);
      SenderMovesControl(w.sender, w'.sender, AllControl(w));
    }
    forall sid
      ensures StreamInv(w', sid) && (w'.round.Some? ==> RoundShape(w'.round.value))
    {
      if step.BeginDrain? {
        BeginKeepsStream(w, sid);
      } else if step.TakeEntry? {
        TurnKeepsStream(w, step.verdict, sid);
        TurnKeepsShape(w.sender, w.round.value, step.verdict);
      } else {
        EndKeepsStream(w, sid);
      }
    }
    assert StreamInv(w', 0);
  }

  lemma {:induction false} TurnKeepsShape(s: Sender, r: Round, v: QuicSender.Verdict)
    requires |r.rest| > 0 && RoundShape(r)
    ensures RoundShape(QuicSender.Take(s, r, v).1)
  {
    if QuicSender.Passive(s, r) {
      TakePassiveLive(s, r, 0);
    } else {
      ActiveTurn(s, r, v);
    }
  }

  lemma {:induction false} NextKeepsInv(w: World, step: Step)
    requires WorldInv(w)
    ensures WorldInv(Next(w, step))
  {
    if Enabled(w, step) {
      match step
      case Ask(call) => CallKeepsInv(w, call);
      case Handshake(peer) => HandshakeKeepsInv(w, peer);
      case PeerMaxData(maximum) => MaximaKeepInv(w, 0, maximum);
      case PeerMaxStreamData(sid, maximum) => MaximaKeepInv(w, sid, maximum);
      case Arrives(to, p) =>
        forall sid
          ensures StreamInv(Next(w, step), sid)
        {
          ArrivalKeepsStream(w, to, p, sid);
        }
      case _ => DrainKeepsInv(w, step);
    }
  }

  lemma {:induction false} RunKeepsInv(steps: seq<Step>)
    ensures WorldInv(Run(steps))
    decreases |steps|
  {
    if |steps| == 0 {
      StartHolds();
    } else {
      RunKeepsInv(steps[..|steps| - 1]);
      NextKeepsInv(Run(steps[..|steps| - 1]), steps[|steps| - 1]);
    }
  }

  /**
   * Whatever was lost, reordered, repeated, sent again or refused, and whatever else happened to
   * the connection: what a stream's reader delivers is the beginning of what was queued.
   */
  lemma {:induction false} DeliveredIsPrefix(steps: seq<Step>, sid: nat)
    ensures ReaderOf(Run(steps), sid).delivered <= AskedOf(Run(steps).calls, sid).queued
  {
    RunKeepsInv(steps);
    assert StreamInv(Run(steps), sid);
  }

  /** Nothing empty was queued but at the very beginning or at the end. */
  ghost predicate SolidlyAsked(asked: Asked) {
    forall o :: o in asked.hollow ==> o == 0 || o >= |asked.queued|
  }

  /**
   * When the queue of a stream is empty and each frame sent has arrived, all of it is delivered,
   * unless empty data was queued inside the stream.
   */
  lemma {:induction false} WholeStreamArrives(steps: seq<Step>, sid: nat)
    requires var w := Run(steps);
             var asked := AskedOf(w.calls, sid);
             SolidlyAsked(asked) && !asked.resetCalled && LiveIn(w.sender, w.round, sid) == [] &&
             AllArrived(w, sid)
    ensures var w := Run(steps);
            var asked, rd := AskedOf(w.calls, sid), ReaderOf(w, sid);
            rd.delivered == asked.queued && (rd.buffer.Complete() <==> asked.ended)
  {
    RunKeepsInv(steps);
    var w := Run(steps);
    assert StreamInv(w, sid);
    PiecesAreSent(AllSent(w), sid);
    WholeStreamDelivered(View(w, sid), ReaderOf(w, sid));
  }

  ghost predicate AllArrived(w: World, sid: nat) {
    forall f :: f in AllSent(w) && f.Stream? && f.sid == sid ==> f.piece in ReaderOf(w, sid).arrived
  }

  lemma {:induction false} RunSnoc(steps: seq<Step>, step: Step)
    ensures Run(steps + [step]) == Next(Run(steps), step)
  {
    assert (steps + [step])[..|steps|] == steps;
  }

  /** Arrivals at one stream, as steps and as what they make of a world. */
  function ArrivalSteps(sid: nat, order: seq<Piece>): seq<Step>
    decreases |order|
  {
    if |order| == 0 then [] else ArrivalSteps(sid, order[..|order| - 1]) + [Arrives(sid, order[|order| - 1])]
  }

  ghost function Read(w: World, sid: nat, order: seq<Piece>): World
    decreases |order|
  {
    if |order| == 0 then w else AfterArrival(Read(w, sid, order[..|order| - 1]), sid, order[|order| - 1])
  }

  lemma {:induction false} OneArrival(steps: seq<Step>, sid: nat, p: Piece)
    requires p in BuiltOf(AllTried(Run(steps)), sid)
    ensures Run(steps + [Arrives(sid, p)]) == AfterArrival(Run(steps), sid, p)
  {
    RunSnoc(steps, Arrives(sid, p));
  }

  lemma {:induction false} ArrivalsRun(steps: seq<Step>, sid: nat, order: seq<Piece>)
    requires forall p :: p in order ==> p in BuiltOf(AllTried(Run(steps)), sid)
    ensures Run(steps + ArrivalSteps(sid, order)) == Read(Run(steps), sid, order)
    decreases |order|
  {
    if |order| == 0 {
      assert steps + [] == steps;
    } else {
      var before, p := order[..|order| - 1], order[|order| - 1];
      assert p in order && forall q :: q in before ==> q in order;
      ArrivalsRun(steps, sid, before);
      ReadIs(Run(steps), sid, before);
      OneArrival(steps + ArrivalSteps(sid, before), sid, p);
      assert steps + ArrivalSteps(sid, order) == (steps + ArrivalSteps(sid, before)) + [Arrives(sid, p)];
    }
  }

  /** Only the readers change, and this stream's has read the pieces. */
  lemma {:induction false} ReadIs(w: World, sid: nat, order: seq<Piece>)
    ensures var w' := Read(w, sid, order);
            w' == w.(readers := w'.readers) && ReaderOf(w', sid) == ArriveAll(ReaderOf(w, sid), order)
    decreases |order|
  {
    if |order| > 0 {
      ReadIs(w, sid, order[..|order| - 1]);
      ArriveAllSnoc(ReaderOf(w, sid), order);
    }
  }

  /**
   * The condition is needed: before anything of a stream has arrived, there is an order of
   * arrival that hides bytes for good, if empty data was queued inside the stream.
   */
  lemma {:induction false} EmptyDataHides(steps: seq<Step>, sid: nat) returns (more: seq<Step>)
    requires var w := Run(steps);
             var asked := AskedOf(w.calls, sid);
             !SolidlyAsked(asked) && !asked.resetCalled && LiveIn(w.sender, w.round, sid) == [] && ReaderOf(w, sid) == NEW_READER
    ensures forall step :: step in more ==> step.Arrives?
    ensures var w, w' := Run(steps), Run(steps + more);
            w' == w.(readers := w'.readers) && AllArrived(w', sid) && ReaderOf(w', sid).delivered != AskedOf(w.calls, sid).queued
  {
    RunKeepsInv(steps);
    var w := Run(steps);
    assert StreamInv(w, sid);
    var st := View(w, sid);
    var o :| o in st.hollow && 0 < o < |st.queued|;
    var order := EmptyPieceHides(st, o);
    more := ArrivalSteps(sid, order);
    ArrivalsArrive(sid, order);
    ArrivalsRun(steps, sid, order);
    ReadIs(w, sid, order);
    var w' := Run(steps + more);
    ArriveAllKeepsInv(st, NEW_READER, order);
    forall f | f in AllSent(w') && f.Stream? && f.sid == sid
      ensures f.piece in ReaderOf(w', sid).arrived
    {
      SentIsAPiece(AllSent(w), f);
      var i :| 0 <= i < |st.sent| && st.sent[i] == f.piece;
      assert st.sent[i] in order;
    }
  }

  /** A queue of data that meets no limit goes out whole. */
  lemma {:induction false} TurnGoesOut(steps: seq<Step>)
    requires var w := Run(steps);
             w.round.Some? && |w.round.value.rest| > 0 && w.round.value.rest[0].Data? && Unlimited(w.sender, w.round.value)
    ensures var w, w' := Run(steps), Run(steps + [TakeEntry(QuicSender.Pass)]);
            w'.round.Some? && w'.round.value.rest == w.round.value.rest[1..] && w'.round.value.keep == w.round.value.keep &&
            Unlimited(w'.sender, w'.round.value) && w'.sender.outbound == w.sender.outbound &&
            w'.calls == w.calls && w'.readers == w.readers
  {
    RunSnoc(steps, TakeEntry(QuicSender.Pass));
    var w := Run(steps);
    assert QuicSender.Allowance(w.sender, w.round.value.rest[0].sid, |w.round.value.rest[0].chunk.piece|) == |w.round.value.rest[0].chunk.piece|;
  }

  ghost predicate Unlimited(s: Sender, r: Round) {
    s.limits == QuicSender.Limits(None, None, map[]) && s.resets == {} && !r.stopped && r.blocked == {}
  }

  /** Such a run: 10, then nothing, then 11 and 12 are queued on stream 0, sent, and arrive out of order. */
  lemma {:induction false} EmptyDataHidesBytes() returns (steps: seq<Step>)
    ensures var w := Run(steps);
            AskedOf(w.calls, 0) == Asked([10, 11, 12], false, false, false, {1}) && LiveIn(w.sender, w.round, 0) == [] &&
            AllArrived(w, 0) && ReaderOf(w, 0).delivered != [10, 11, 12]
  {
    var asks := [Ask(QueueCall(0, [10], false)), Ask(QueueCall(0, [], false)), Ask(QueueCall(0, [11, 12], false))];
    var start := asks + [Handshake(None)];
    ThreeAsks(asks);
    RunSnoc(asks, Handshake(None));
    RunSnoc(start, BeginDrain);
    var s0 := start + [BeginDrain];
    TurnGoesOut(s0);
    var s1 := s0 + [TakeEntry(QuicSender.Pass)];
    TurnGoesOut(s1);
    var s2 := s1 + [TakeEntry(QuicSender.Pass)];
    TurnGoesOut(s2);
    var s3 := s2 + [TakeEntry(QuicSender.Pass)];
    assert InQueue(Run(s3).sender, Run(s3).round) == [];
    assert !SolidlyAsked(AskedOf(Run(s3).calls, 0)) by {
      assert 1 in AskedOf(Run(s3).calls, 0).hollow;
    }
    var more := EmptyDataHides(s3, 0);
    steps := s3 + more;
  }

  lemma {:induction false} ThreeAsks(asks: seq<Step>)
    requires asks == [Ask(QueueCall(0, [10], false)), Ask(QueueCall(0, [], false)), Ask(QueueCall(0, [11, 12], false))]
    ensures var w := Run(asks);
            AskedOf(w.calls, 0) == Asked([10, 11, 12], false, false, false, {1}) && !w.ready && w.round.None? && w.readers == map[] &&
            Unlimited(w.sender, QuicSender.Round([], [], {}, false, [], [], [])) &&
            |w.sender.outbound| == 3 && forall e :: e in w.sender.outbound ==> e.Data?
  {
    var c0, c1, c2 := QueueCall(0, [10], false), QueueCall(0, [], false), QueueCall(0, [11, 12], false);
    RunSnoc([], Ask(c0));
    RunSnoc([Ask(c0)], Ask(c1));
    RunSnoc([Ask(c0), Ask(c1)], Ask(c2));
    AskedSnoc([], c0, 0);
    AskedSnoc([c0], c1, 0);
    AskedSnoc([c0, c1], c2, 0);
    assert [] + [Ask(c0)] == [Ask(c0)] && [Ask(c0)] + [Ask(c1)] == [Ask(c0), Ask(c1)] && [Ask(c0), Ask(c1)] + [Ask(c2)] == asks;
    assert [] + [c0] == [c0] && [c0] + [c1] == [c0, c1] && [c0, c1] + [c2] == [c0, c1, c2];
    assert Run(asks).calls == [c0, c1, c2];
  }

  lemma {:induction false} ArrivalsArrive(sid: nat, order: seq<Piece>)
    ensures forall step :: step in ArrivalSteps(sid, order) ==> step.Arrives?
    decreases |order|
  {
    if |order| > 0 {
      ArrivalsArrive(sid, order[..|order| - 1]);
    }
  }

  lemma {:induction false} SentIsAPiece(frames: seq<Frame>, f: Frame)
    requires f in frames && f.Stream?
    ensures exists i :: 0 <= i < |PiecesOf(frames, f.sid)| && PiecesOf(frames, f.sid)[i] == f.piece
    decreases |frames|
  {
    var n := |frames| - 1;
    var before := PiecesOf(frames[..n], f.sid);
    if f == frames[n] {
      assert PiecesOf(frames, f.sid)[|before|] == f.piece;
    } else {
      SentIsAPiece(frames[..n], f);
      var i :| 0 <= i < |before| && before[i] == f.piece;
      assert PiecesOf(frames, f.sid)[i] == f.piece;
    }
  }

  lemma {:induction false} PiecesAreSent(frames: seq<Frame>, sid: nat)
    ensures forall i :: 0 <= i < |PiecesOf(frames, sid)| ==> QuicSender.Stream(sid, PiecesOf(frames, sid)[i]) in frames
    decreases |frames|
  {
    if |frames| > 0 {
      PiecesAreSent(frames[..|frames| - 1], sid);
    }
  }

  /** Frames that went out and chunks still queued are all that was queued, in order, once each. */
  lemma {:induction false} NothingLostNothingTwice(steps: seq<Step>, sid: nat)
    ensures var w := Run(steps);
            var asked, pieces := AskedOf(w.calls, sid), PiecesOf(AllSent(w), sid);
            var queue := LiveBytes(LiveIn(w.sender, w.round, sid));
            (if asked.resetCalled then SentBytes(pieces) + queue <= asked.queued else SentBytes(pieces) + queue == asked.queued) &&
            (forall i :: 0 <= i < |pieces| ==> pieces[i].offset == |SentBytes(pieces[..i])|) &&
            QuicSender.Get(w.sender.offsets, sid) == |SentBytes(pieces)| &&
            (!asked.late ==> forall i :: 0 <= i < |pieces| && pieces[i].fin ==>
               i == |pieces| - 1 && asked.ended && |SentBytes(pieces)| == |asked.queued|)
  {
    RunKeepsInv(steps);
    var w := Run(steps);
    assert StreamInv(w, sid);
    var st := View(w, sid);
    if !st.late {
      forall i | 0 <= i < |st.sent| && st.sent[i].fin
        ensures i == |st.sent| - 1 && st.ended && |SentBytes(st.sent)| == |st.queued|
      {
        SentEnd(st, i);
      }
    }
  }

  lemma {:induction false} SentEnd(st: Strand, i: nat)
    requires StrandInv(st) && !st.late && i < |st.sent| && st.sent[i].fin
    ensures i == |st.sent| - 1 && st.ended && |SentBytes(st.sent)| == |st.queued|
  {
    assert SentInOrder(st, i);
    assert BuiltInOrder(st, st.sent[i]);
    SentBytesUnfolds(st.sent);
    assert st.sent[i].offset == |SentBytes(st.sent[..i])|;
  }

  /** What is counted as sent keeps to the peer's limits at every moment, and the totals add up. */
  lemma {:induction false} LimitsAreKept(steps: seq<Step>)
    ensures var s := Run(steps).sender;
            s.total == SumOf(s.offsets) && (Run(steps).round.None? ==> QuicSender.Counted(s)) &&
            (s.limits.maxData.Some? ==> s.total <= s.limits.maxData.value) &&
            forall sid :: sid in s.offsets && QuicSender.StreamLimit(s.limits, sid).Some? ==>
              s.offsets[sid] <= QuicSender.StreamLimit(s.limits, sid).value
  {
    RunKeepsInv(steps);
  }

  /**
   * A RESET_STREAM tells the peer exactly what is counted as sent, however often it is repeated;
   * a blocked limit is reported at most once. Refused frames are not counted: see QuicPeerView.
   */
  lemma {:induction false} ControlTellsTheTruth(steps: seq<Step>)
    ensures var w := Run(steps);
            var control := AllControl(w);
            (forall i :: 0 <= i < |control| && control[i].ResetStream? ==>
               control[i].finalSize == |SentBytes(PiecesOf(AllSent(w), control[i].sid))|) &&
            (forall i, j :: 0 <= i < j < |control| && control[i] == control[j] ==> control[i].ResetStream?)
  {
    RunKeepsInv(steps);
    var w := Run(steps);
    var control := AllControl(w);
    forall i | 0 <= i < |control| && control[i].ResetStream?
      ensures control[i].finalSize == |SentBytes(PiecesOf(AllSent(w), control[i].sid))|
    {
      assert FinalSize(w.sender, control[i]);
      assert StreamInv(w, control[i].sid);
    }
  }
}
