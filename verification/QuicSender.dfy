/**
 * The sending side of a QUIC connection's streams: the queue shared by all streams, the peer's
 * limits, and the drain that turns queued pieces into frames.
 */
module QuicSender {
  import opened Wrappers
  import opened Octets
  import opened MapSum
  import opened QuicStrand

  const STREAM_CHUNK_SIZE := 1000

  /** A queued piece, or the place where `reset_stream` abandoned the stream. */
  datatype Entry = Data(sid: nat, chunk: Chunk) | Reset(sid: nat, code: nat)

  datatype Frame =
    | Stream(sid: nat, piece: Piece)
    | ResetStream(sid: nat, code: nat, finalSize: nat)
    | StreamDataBlocked(sid: nat, limit: nat)
    | DataBlocked(limit: nat)

  /** The peer's transport parameters about data, as the handshake reports them. */
  datatype Parameters = Parameters(maxData: nat, bidiLocal: nat, bidiRemote: nat, uni: nat)

  datatype Limits = Limits(peer: Option<Parameters>, maxData: Option<nat>, streamMax: map<nat, nat>)

  datatype Sender = Sender(
    outbound: seq<Entry>, queuedBytes: map<nat, nat>, offsets: map<nat, nat>, total: nat,
    resets: set<nat>, limits: Limits, streamReported: map<nat, nat>, connReported: Option<nat>)

  const NEW_SENDER := Sender([], map[], map[], 0, {}, Limits(None, None, map[]), map[], None)

  /** What the congestion window and the packet layer say to one frame. */
  datatype Verdict = Pass | WindowFull | Refused

  /** One drain in progress; `tried` holds every frame handed to the packet layer. */
  datatype Round = Round(
    rest: seq<Entry>, keep: seq<Entry>, blocked: set<nat>, stopped: bool,
    control: seq<Frame>, sent: seq<Frame>, tried: seq<Frame>)

  function Get(m: map<nat, nat>, k: nat): nat {
    if k in m then m[k] else 0
  }

  function StreamLimit(l: Limits, sid: nat): Option<nat> {
    if sid in l.streamMax then Some(l.streamMax[sid])
    else if l.peer.None? then None
    else if sid % 4 == 0 then Some(l.peer.value.bidiLocal)
    else if sid % 4 == 1 then Some(l.peer.value.bidiRemote)
    else Some(l.peer.value.uni)
  }

  function Room(limit: Option<nat>, used: nat, allowed: int): int {
    if limit.Some? && limit.value - used < allowed then limit.value - used else allowed
  }

  function Allowance(s: Sender, sid: nat, size: nat): nat {
    var allowed := Room(s.limits.maxData, s.total, Room(StreamLimit(s.limits, sid), Get(s.offsets, sid), size));
    if allowed < 0 then 0 else allowed
  }

  predicate StreamUnreported(s: Sender, sid: nat, size: nat) {
    var limit := StreamLimit(s.limits, sid);
    limit.Some? && limit.value < Get(s.offsets, sid) + size &&
    !(sid in s.streamReported && s.streamReported[sid] == limit.value)
  }

  predicate ConnUnreported(s: Sender, size: nat) {
    s.limits.maxData.Some? && s.limits.maxData.value < s.total + size && s.connReported != s.limits.maxData
  }

  function BlockedFrames(s: Sender, sid: nat, size: nat): seq<Frame> {
    (if StreamUnreported(s, sid, size) then [StreamDataBlocked(sid, StreamLimit(s.limits, sid).value)] else []) +
    (if ConnUnreported(s, size) then [DataBlocked(s.limits.maxData.value)] else [])
  }

  function BlockedReported(s: Sender, sid: nat, size: nat): Sender {
    s.(streamReported := if StreamUnreported(s, sid, size) then s.streamReported[sid := StreamLimit(s.limits, sid).value] else s.streamReported,
       connReported := if ConnUnreported(s, size) then s.limits.maxData else s.connReported)
  }

  // Calls from any thread.

  /** The payload in pieces small enough for one packet each; an empty one still makes a piece. */
  function Cut(data: Bytes, fin: bool): (chunks: seq<Chunk>)
    decreases |data|
  {
    if |data| <= STREAM_CHUNK_SIZE then [Chunk(data, fin)]
    else [Chunk(data[..STREAM_CHUNK_SIZE], false)] + Cut(data[STREAM_CHUNK_SIZE..], fin)
  }

  lemma {:induction false} CutsAreChunks(data: Bytes, fin: bool)
    ensures ChunksOf(Cut(data, fin), data, fin)
    ensures forall i :: 0 <= i < |Cut(data, fin)| ==> |Cut(data, fin)[i].piece| <= STREAM_CHUNK_SIZE
    decreases |data|
  {
    LiveBytesUnfolds(Cut(data, fin));
    if |data| <= STREAM_CHUNK_SIZE {
      LiveBytesUnfolds([]);
      assert Cut(data, fin)[1..] == [];
      assert data + [] == data;
    } else {
      CutsAreChunks(data[STREAM_CHUNK_SIZE..], fin);
      assert Cut(data, fin)[1..] == Cut(data[STREAM_CHUNK_SIZE..], fin);
      assert data == data[..STREAM_CHUNK_SIZE] + data[STREAM_CHUNK_SIZE..];
    }
  }

  function Entries(sid: nat, chunks: seq<Chunk>): (es: seq<Entry>)
    ensures |es| == |chunks| && forall i :: 0 <= i < |es| ==> es[i] == Data(sid, chunks[i])
    decreases |chunks|
  {
    if |chunks| == 0 then [] else [Data(sid, chunks[0])] + Entries(sid, chunks[1..])
  }

  function Queue(s: Sender, sid: nat, data: Bytes, fin: bool): Sender {
    s.(outbound := s.outbound + Entries(sid, Cut(data, fin)),
       queuedBytes := s.queuedBytes[sid := Get(s.queuedBytes, sid) + |data|])
  }

  function Without(es: seq<Entry>, sid: nat): (kept: seq<Entry>)
    decreases |es|
  {
    if |es| == 0 then []
    else if es[0].sid == sid then Without(es[1..], sid)
    else [es[0]] + Without(es[1..], sid)
  }

  function Abandon(s: Sender, sid: nat, code: nat): Sender {
    s.(outbound := Without(s.outbound, sid) + [Reset(sid, code)], queuedBytes := s.queuedBytes - {sid})
  }

  // What the peer says about its limits.

  function Learned(s: Sender, peer: Option<Parameters>): Sender {
    s.(limits := s.limits.(peer := peer, maxData := if peer.Some? then Some(peer.value.maxData) else None))
  }

  function MaxData(s: Sender, maximum: nat): Sender {
    if s.limits.maxData.Some? && s.limits.maxData.value < maximum
    then s.(limits := s.limits.(maxData := Some(maximum))) else s
  }

  function MaxStreamData(s: Sender, sid: nat, maximum: nat): Sender {
    var limit := StreamLimit(s.limits, sid);
    if limit.None? then s
    else s.(limits := s.limits.(streamMax := s.limits.streamMax[sid := if limit.value < maximum then maximum else limit.value]))
  }

  // Draining.

  function Begin(s: Sender): (Sender, Round) {
    (s.(outbound := []), Round(s.outbound, [], {}, false, [], [], []))
  }

  function Hold(r: Round, es: seq<Entry>): Round
    requires |r.rest| > 0
  {
    r.(rest := r.rest[1..], keep := r.keep + es)
  }

  /** The part of a chunk that the limits admit, and what they leave behind. */
  function Front(c: Chunk, allowed: nat): Chunk {
    if allowed < |c.piece| then Chunk(c.piece[..allowed], false) else c
  }

  function Back(sid: nat, c: Chunk, allowed: nat): seq<Entry> {
    if allowed < |c.piece| then [Data(sid, Chunk(c.piece[allowed..], c.fin))] else []
  }

  /** The next entry goes straight back to the queue or out of it, without a frame. */
  predicate Passive(s: Sender, r: Round)
    requires |r.rest| > 0
  {
    var e := r.rest[0];
    e.Reset? || e.sid in s.resets || r.stopped || e.sid in r.blocked
  }

  function TakePassive(s: Sender, r: Round): (Sender, Round)
    requires |r.rest| > 0
  {
    var e := r.rest[0];
    if e.Reset? then
      (s.(resets := s.resets + {e.sid}),
       r.(rest := r.rest[1..], keep := Without(r.keep, e.sid),
          control := r.control + [ResetStream(e.sid, e.code, Get(s.offsets, e.sid))]))
    else if e.sid in s.resets then (s, Hold(r, []))
    else (s, Hold(r, [e]))
  }

  /** The limits cut the next piece short: say so, once per limit, and hold the stream. */
  function NoteBlocked(s: Sender, r: Round, sid: nat, size: nat): (Sender, Round) {
    if Allowance(s, sid, size) < size then
      (BlockedReported(s, sid, size),
       r.(control := r.control + BlockedFrames(s, sid, size), blocked := r.blocked + {sid}))
    else (s, r)
  }

  function Offering(s: Sender, e: Entry, allowed: nat): Frame
    requires e.Data?
  {
    Stream(e.sid, Piece(Get(s.offsets, e.sid), Front(e.chunk, allowed).piece, Front(e.chunk, allowed).fin))
  }

  function Offer(s: Sender, r: Round, e: Entry, allowed: nat, v: Verdict): (Sender, Round)
    requires |r.rest| > 0 && e.Data?
  {
    var front, back, frame := Front(e.chunk, allowed), Back(e.sid, e.chunk, allowed), Offering(s, e, allowed);
    match v
    case WindowFull => (s, Hold(r, [Data(e.sid, front)] + back).(stopped := true))
    case Refused => (s, Hold(r, [Data(e.sid, front)] + back).(stopped := true, tried := r.tried + [frame]))
    case Pass =>
      (s.(offsets := s.offsets[e.sid := Get(s.offsets, e.sid) + |front.piece|], total := s.total + |front.piece|),
       Hold(r, back).(sent := r.sent + [frame], tried := r.tried + [frame]))
  }

  /** One turn of the drain's loop. */
  function Take(s: Sender, r: Round, v: Verdict): (Sender, Round)
    requires |r.rest| > 0
  {
    if Passive(s, r) then TakePassive(s, r)
    else
      var e := r.rest[0];
      var size := |e.chunk.piece|;
      var allowed := Allowance(s, e.sid, size);
      var (s', r') := NoteBlocked(s, r, e.sid, size);
      if allowed < size && allowed == 0 then (s', Hold(r', [e])) else Offer(s', r', e, allowed, v)
  }

  /** Bytes queued per stream. */
  function Recount(es: seq<Entry>): map<nat, nat>
    decreases |es|
  {
    if |es| == 0 then map[]
    else
      var e, m := es[|es| - 1], Recount(es[..|es| - 1]);
      if e.Data? then m[e.sid := Get(m, e.sid) + |e.chunk.piece|] else m
  }

  function End(s: Sender, r: Round): Sender {
    s.(outbound := r.keep + s.outbound, queuedBytes := Recount(r.keep + s.outbound))
  }

  /** The whole loop, when nothing else happens meanwhile. */
  function TakeAll(s: Sender, r: Round, gate: nat -> Verdict, i: nat): (Sender, Round)
    decreases |r.rest|
  {
    if |r.rest| == 0 then (s, r)
    else
      var (s', r') := Take(s, r, gate(i));
      TakeAll(s', r', gate, i + 1)
  }

  // The ledger.

  predicate AtLimit(s: Sender, sid: nat) {
    var limit := StreamLimit(s.limits, sid);
    (limit.Some? && limit.value <= Get(s.offsets, sid)) ||
    (s.limits.maxData.Some? && s.limits.maxData.value <= s.total)
  }

  /** Flow control as the sender counts it; what the peer may see is QuicPeerView's. */
  ghost predicate Ledger(s: Sender) {
    && s.total == SumOf(s.offsets)
    && (forall sid :: sid in s.offsets && StreamLimit(s.limits, sid).Some? ==>
          s.offsets[sid] <= StreamLimit(s.limits, sid).value)
    && (s.limits.maxData.Some? ==> s.total <= s.limits.maxData.value)
    && (s.limits.peer.Some? <==> s.limits.maxData.Some?)
    && (s.limits.peer.None? ==> s.limits.streamMax == map[])
  }

  lemma {:induction false} AllowanceMeets(s: Sender, sid: nat, size: nat)
    requires Ledger(s)
    ensures var a := Allowance(s, sid, size);
            var limit := StreamLimit(s.limits, sid);
            a <= size &&
            (limit.Some? && a > 0 ==> Get(s.offsets, sid) + a <= limit.value) &&
            (s.limits.maxData.Some? && a > 0 ==> s.total + a <= s.limits.maxData.value)
    ensures var a := Allowance(s, sid, size);
            var limit := StreamLimit(s.limits, sid);
            a < size ==>
              (limit.Some? && limit.value <= Get(s.offsets, sid) + a) ||
              (s.limits.maxData.Some? && s.limits.maxData.value <= s.total + a)
  {
  }

  lemma {:induction false} OfferKeepsLedger(s: Sender, r: Round, e: Entry, allowed: nat, v: Verdict)
    requires Ledger(s) && |r.rest| > 0 && e.Data? && allowed == Allowance(s, e.sid, |e.chunk.piece|)
    ensures Ledger(Offer(s, r, e, allowed, v).0)
  {
    AllowanceMeets(s, e.sid, |e.chunk.piece|);
    var n := |Front(e.chunk, allowed).piece|;
    SumWith(s.offsets, e.sid, Get(s.offsets, e.sid) + n);
  }

  /** Every turn of a drain, whatever the packet layer says, keeps what is counted as sent within the peer's limits. */
  lemma {:induction false} TakeKeepsLedger(s: Sender, r: Round, v: Verdict)
    requires Ledger(s) && |r.rest| > 0
    ensures Ledger(Take(s, r, v).0)
  {
    if !Passive(s, r) {
      var e := r.rest[0];
      var size := |e.chunk.piece|;
      var (s', r') := NoteBlocked(s, r, e.sid, size);
      assert Allowance(s', e.sid, size) == Allowance(s, e.sid, size);
      OfferKeepsLedger(s', r', e, Allowance(s, e.sid, size), v);
    }
  }

  lemma {:induction false} LimitsKeepLedger(s: Sender, sid: nat, maximum: nat)
    requires Ledger(s)
    ensures Ledger(MaxData(s, maximum)) && Ledger(MaxStreamData(s, sid, maximum))
  {
  }

  lemma {:induction false} LearnedKeepsLedger(s: Sender, peer: Option<Parameters>)
    requires Ledger(s) && s.offsets == map[] && s.limits.peer.None?
    ensures Ledger(Learned(s, peer))
  {
    SumOfNothing();
  }

  // Progress.

  /** What is put back is held by a limit that has been used up. */
  predicate HeldByLimits(s: Sender, r: Round) {
    && !r.stopped
    && (forall sid :: sid in r.blocked ==> AtLimit(s, sid))
    && (forall i :: 0 <= i < |r.keep| ==> r.keep[i].Data? && r.keep[i].sid in r.blocked)
  }

  lemma {:induction false} WithoutKeeps(es: seq<Entry>, sid: nat)
    ensures forall e :: e in Without(es, sid) <==> e in es && e.sid != sid
    decreases |es|
  {
    if |es| > 0 {
      WithoutKeeps(es[1..], sid);
    }
  }

  lemma {:induction false} AtLimitStays(s: Sender, s': Sender, sid: nat)
    requires AtLimit(s, sid) && s'.limits == s.limits && s.total <= s'.total && Get(s.offsets, sid) <= Get(s'.offsets, sid)
    ensures AtLimit(s', sid)
  {
  }

  lemma {:induction false} TakePassiveProgress(s: Sender, r: Round)
    requires |r.rest| > 0 && HeldByLimits(s, r) && Passive(s, r)
    ensures HeldByLimits(TakePassive(s, r).0, TakePassive(s, r).1)
  {
    var (s', r') := TakePassive(s, r);
    WithoutKeeps(r.keep, r.rest[0].sid);
    forall i | 0 <= i < |r'.keep|
      ensures r'.keep[i].Data? && r'.keep[i].sid in r'.blocked
    {
      if r.rest[0].Reset? {
        assert r'.keep[i] in r.keep;
      }
    }
  }

  lemma {:induction false} TakeProgress(s: Sender, r: Round)
    requires |r.rest| > 0 && HeldByLimits(s, r) && Ledger(s)
    ensures HeldByLimits(Take(s, r, Pass).0, Take(s, r, Pass).1)
  {
    if Passive(s, r) {
      TakePassiveProgress(s, r);
    } else {
      var (s', r') := Take(s, r, Pass);
      var e := r.rest[0];
      AllowanceMeets(s, e.sid, |e.chunk.piece|);
      forall sid | sid in r'.blocked
        ensures AtLimit(s', sid)
      {
        if sid in r.blocked {
          AtLimitStays(s, s', sid);
        }
      }
    }
  }

  lemma {:induction false} TakeAllProgress(s: Sender, r: Round, gate: nat -> Verdict, i: nat)
    requires HeldByLimits(s, r) && Ledger(s) && forall k :: gate(k) == Pass
    ensures var (s', r') := TakeAll(s, r, gate, i); HeldByLimits(s', r') && Ledger(s') && r'.rest == []
    decreases |r.rest|
  {
    if |r.rest| > 0 {
      TakeProgress(s, r);
      TakeKeepsLedger(s, r, gate(i));
      var (s', r') := Take(s, r, gate(i));
      TakeAllProgress(s', r', gate, i + 1);
    }
  }

  /** One whole drain, when nothing else happens meanwhile. */
  function Drained(s: Sender, gate: nat -> Verdict): (Sender, Round) {
    var (s', r) := Begin(s);
    var (s'', r') := TakeAll(s', r, gate, 0);
    (End(s'', r'), r')
  }

  /**
   * When the packet layer refuses nothing, a drain leaves data behind only on streams whose own
   * limit is used up, unless the connection's limit is: no stream waits for another.
   */
  lemma {:induction false} DrainGoesToTheLimits(s: Sender, gate: nat -> Verdict)
    requires Ledger(s) && forall k :: gate(k) == Pass
    ensures var s' := Drained(s, gate).0;
            Ledger(s') &&
            forall e :: e in s'.outbound ==>
              e.Data? &&
              (StreamLimit(s'.limits, e.sid) == Some(Get(s'.offsets, e.sid)) || s'.limits.maxData == Some(s'.total))
  {
    var (s1, r1) := Begin(s);
    TakeAllProgress(s1, r1, gate, 0);
    var (s2, r2) := TakeAll(s1, r1, gate, 0);
    var s' := Drained(s, gate).0;
    TakeAllOutbound(s1, r1, gate, 0);
    assert s'.outbound == r2.keep;
    forall e | e in s'.outbound
      ensures e.Data? && (StreamLimit(s'.limits, e.sid) == Some(Get(s'.offsets, e.sid)) || s'.limits.maxData == Some(s'.total))
    {
      assert AtLimit(s2, e.sid);
    }
  }

  lemma {:induction false} TakeAllOutbound(s: Sender, r: Round, gate: nat -> Verdict, i: nat)
    ensures TakeAll(s, r, gate, i).0.outbound == s.outbound
    decreases |r.rest|
  {
    if |r.rest| > 0 {
      var (s', r') := Take(s, r, gate(i));
      TakeAllOutbound(s', r', gate, i + 1);
    }
  }

  // What `queued_stream_bytes` reports.

  function Waiting(es: seq<Entry>, sid: nat): nat
    decreases |es|
  {
    if |es| == 0 then 0
    else (if es[0].Data? && es[0].sid == sid then |es[0].chunk.piece| else 0) + Waiting(es[1..], sid)
  }

  ghost predicate Counted(s: Sender) {
    forall sid :: Get(s.queuedBytes, sid) == Waiting(s.outbound, sid)
  }

  lemma {:induction false} WaitingAppend(a: seq<Entry>, b: seq<Entry>, sid: nat)
    ensures Waiting(a + b, sid) == Waiting(a, sid) + Waiting(b, sid)
    decreases |a|
  {
    if |a| == 0 {
      assert a + b == b;
    } else {
      WaitingAppend(a[1..], b, sid);
      assert (a + b)[1..] == a[1..] + b;
    }
  }

  lemma {:induction false} RecountCounts(es: seq<Entry>, sid: nat)
    ensures Get(Recount(es), sid) == Waiting(es, sid)
    decreases |es|
  {
    if |es| > 0 {
      var last := |es| - 1;
      RecountCounts(es[..last], sid);
      WaitingAppend(es[..last], [es[last]], sid);
      assert es == es[..last] + [es[last]];
      WaitingOne(es[last], sid);
    }
  }

  lemma {:induction false} WaitingOne(e: Entry, sid: nat)
    ensures Waiting([e], sid) == if e.Data? && e.sid == sid then |e.chunk.piece| else 0
  {
  }

  lemma {:induction false} CutWaits(sid: nat, data: Bytes, fin: bool, other: nat)
    ensures Waiting(Entries(sid, Cut(data, fin)), other) == if other == sid then |data| else 0
    decreases |data|
  {
    var es := Entries(sid, Cut(data, fin));
    if |data| > STREAM_CHUNK_SIZE {
      CutWaits(sid, data[STREAM_CHUNK_SIZE..], fin, other);
      assert Cut(data, fin)[1..] == Cut(data[STREAM_CHUNK_SIZE..], fin);
      assert es[1..] == Entries(sid, Cut(data[STREAM_CHUNK_SIZE..], fin));
    } else {
      assert es == [Data(sid, Chunk(data, fin))];
      WaitingOne(es[0], other);
    }
  }

  lemma {:induction false} WithoutWaits(es: seq<Entry>, sid: nat, other: nat)
    ensures Waiting(Without(es, sid), other) == if other == sid then 0 else Waiting(es, other)
    decreases |es|
  {
    if |es| > 0 {
      WithoutWaits(es[1..], sid, other);
    }
  }

  lemma {:induction false} CallsKeepCount(s: Sender, sid: nat, data: Bytes, fin: bool, code: nat)
    requires Counted(s)
    ensures Counted(Queue(s, sid, data, fin)) && Counted(Abandon(s, sid, code))
  {
    forall other
      ensures Get(Queue(s, sid, data, fin).queuedBytes, other) == Waiting(Queue(s, sid, data, fin).outbound, other)
      ensures Get(Abandon(s, sid, code).queuedBytes, other) == Waiting(Abandon(s, sid, code).outbound, other)
    {
      WaitingAppend(s.outbound, Entries(sid, Cut(data, fin)), other);
      CutWaits(sid, data, fin, other);
      WaitingAppend(Without(s.outbound, sid), [Reset(sid, code)], other);
      WithoutWaits(s.outbound, sid, other);
      WaitingOne(Reset(sid, code), other);
    }
  }

  lemma {:induction false} EndCounts(s: Sender, r: Round)
    ensures Counted(End(s, r))
  {
    forall sid
      ensures Get(End(s, r).queuedBytes, sid) == Waiting(End(s, r).outbound, sid)
    {
      RecountCounts(r.keep + s.outbound, sid);
    }
  }

  // The class.

  method CutPieces(data: Bytes, fin: bool) returns (chunks: seq<Chunk>)
    ensures chunks == Cut(data, fin)
  {
    var rest := data;
    chunks := [];
    while |rest| > STREAM_CHUNK_SIZE
      invariant Cut(data, fin) == chunks + Cut(rest, fin)
      decreases |rest|
    {
      chunks := chunks + [Chunk(rest[..STREAM_CHUNK_SIZE], false)];
      rest := rest[STREAM_CHUNK_SIZE..];
    }
    chunks := chunks + [Chunk(rest, fin)];
  }

  /** The sending fields of a connection, drained by the thread that owns the socket. */
  class SendSide {
    var outbound: seq<Entry>
    var queuedBytes: map<nat, nat>
    var sendOffsets: map<nat, nat>
    var sentDataTotal: nat
    var resetStreams: set<nat>
    var peerParameters: Option<Parameters>
    var peerMaxData: Option<nat>
    var peerStreamMax: map<nat, nat>
    var streamReported: map<nat, nat>
    var connReported: Option<nat>

    function State(): Sender
      reads this
    {
      Sender(outbound, queuedBytes, sendOffsets, sentDataTotal, resetStreams,
             Limits(peerParameters, peerMaxData, peerStreamMax), streamReported, connReported)
    }

    constructor ()
      ensures State() == NEW_SENDER
    {
      outbound, queuedBytes, sendOffsets, sentDataTotal, resetStreams := [], map[], map[], 0, {};
      peerParameters, peerMaxData, peerStreamMax := None, None, map[];
      streamReported, connReported := map[], None;
    }

    method LearnParameters(peer: Option<Parameters>)
      modifies this
      ensures State() == Learned(old(State()), peer)
    {
      peerParameters := peer;
      peerMaxData := if peer.Some? then Some(peer.value.maxData) else None;
    }

    method OnMaxData(maximum: nat)
      modifies this
      ensures State() == MaxData(old(State()), maximum)
    {
      if peerMaxData.Some? {
        peerMaxData := Some(if peerMaxData.value < maximum then maximum else peerMaxData.value);
      }
    }

    method OnMaxStreamData(sid: nat, maximum: nat)
      modifies this
      ensures State() == MaxStreamData(old(State()), sid, maximum)
    {
      var limit := StreamLimit(State().limits, sid);
      if limit.Some? {
        peerStreamMax := peerStreamMax[sid := if limit.value < maximum then maximum else limit.value];
      }
    }

    method QueueStreamData(sid: nat, payload: Bytes, fin: bool)
      modifies this
      ensures State() == Queue(old(State()), sid, payload, fin)
    {
      var chunks := CutPieces(payload, fin);
      ghost var es := Entries(sid, chunks);
      for i := 0 to |chunks|
        invariant State() == old(State()).(outbound := outbound)
        invariant outbound == old(outbound) + es[..i]
      {
        assert es[..i + 1] == es[..i] + [Data(sid, chunks[i])];
        outbound := outbound + [Data(sid, chunks[i])];
      }
      assert es[..|chunks|] == es;
      queuedBytes := queuedBytes[sid := Get(queuedBytes, sid) + |payload|];
    }

    method AbandonStream(sid: nat, code: nat)
      modifies this
      ensures State() == Abandon(old(State()), sid, code)
    {
      var kept: seq<Entry> := [];
      for i := 0 to |outbound|
        invariant unchanged(this)
        invariant Without(outbound, sid) == kept + Without(outbound[i..], sid)
      {
        if outbound[i].sid != sid {
          kept := kept + [outbound[i]];
        }
      }
      outbound := kept + [Reset(sid, code)];
      queuedBytes := queuedBytes - {sid};
    }

    /** `gate` is what the congestion window and the packet layer answer at each entry. */
    method DrainOutbound(gate: nat -> Verdict) returns (frames: seq<Frame>, control: seq<Frame>)
      modifies this
      ensures State() == Drained(old(State()), gate).0
      ensures frames == Drained(old(State()), gate).1.sent && control == Drained(old(State()), gate).1.control
    {
      ghost var all := TakeAll(Begin(State()).0, Begin(State()).1, gate, 0);
      var r := Round(outbound, [], {}, false, [], [], []);
      outbound := [];
      var i := 0;
      while |r.rest| > 0
        invariant TakeAll(State(), r, gate, i) == all
        invariant outbound == []
        decreases |r.rest|
      {
        r := TakeEntry(r, gate(i));
        i := i + 1;
      }
      RecountQueued(r.keep);
      frames, control := r.sent, r.control;
    }

    method TakeEntry(r: Round, v: Verdict) returns (r': Round)
      requires |r.rest| > 0
      modifies this
      ensures (State(), r') == Take(old(State()), r, v)
    {
      var e := r.rest[0];
      if e.Reset? {
        r' := r.(rest := r.rest[1..], keep := Without(r.keep, e.sid),
                 control := r.control + [ResetStream(e.sid, e.code, Get(sendOffsets, e.sid))]);
        resetStreams := resetStreams + {e.sid};
      } else if e.sid in resetStreams {
        r' := r.(rest := r.rest[1..]);
        assert r.keep + [] == r.keep;
      } else if r.stopped || e.sid in r.blocked {
        r' := r.(rest := r.rest[1..], keep := r.keep + [e]);
      } else {
        r' := OfferEntry(r, v);
      }
    }

    method OfferEntry(r: Round, v: Verdict) returns (r': Round)
      requires |r.rest| > 0 && !Passive(State(), r)
      modifies this
      ensures (State(), r') == Take(old(State()), r, v)
    {
      var sid, c := r.rest[0].sid, r.rest[0].chunk;
      var offset := Get(sendOffsets, sid);
      var allowed := Allowance(State(), sid, |c.piece|);
      r' := r;
      if allowed < |c.piece| {
        r' := ReportBlocked(r, sid, |c.piece|);
        if allowed == 0 {
          r' := r'.(rest := r.rest[1..], keep := r'.keep + [r.rest[0]]);
          return;
        }
      }
      var front, back := Front(c, allowed), Back(sid, c, allowed);
      if v == WindowFull {
        r' := r'.(rest := r.rest[1..], keep := r'.keep + ([Data(sid, front)] + back), stopped := true);
        return;
      }
      var frame := Stream(sid, Piece(offset, front.piece, front.fin));
      r' := r'.(tried := r'.tried + [frame]);
      if v == Refused {
        r' := r'.(rest := r.rest[1..], keep := r'.keep + ([Data(sid, front)] + back), stopped := true);
        return;
      }
      sendOffsets := sendOffsets[sid := offset + |front.piece|];
      sentDataTotal := sentDataTotal + |front.piece|;
      r' := r'.(rest := r.rest[1..], keep := r'.keep + back, sent := r'.sent + [frame]);
    }

    method ReportBlocked(r: Round, sid: nat, size: nat) returns (r': Round)
      modifies this
      ensures State() == BlockedReported(old(State()), sid, size)
      ensures r' == r.(control := r.control + BlockedFrames(old(State()), sid, size), blocked := r.blocked + {sid})
    {
      var limit, frames: seq<Frame> := StreamLimit(State().limits, sid), [];
      if limit.Some? && Get(sendOffsets, sid) + size > limit.value {
        if !(sid in streamReported && streamReported[sid] == limit.value) {
          streamReported := streamReported[sid := limit.value];
          frames := [StreamDataBlocked(sid, limit.value)];
        }
      }
      if peerMaxData.Some? && sentDataTotal + size > peerMaxData.value && connReported != peerMaxData {
        connReported := peerMaxData;
        frames := frames + [DataBlocked(peerMaxData.value)];
      }
      r' := r.(control := r.control + frames, blocked := r.blocked + {sid});
    }

    method RecountQueued(keep: seq<Entry>)
      modifies this
      ensures State() == old(State()).(outbound := keep + old(outbound), queuedBytes := Recount(keep + old(outbound)))
    {
      outbound := keep + outbound;
      var queued: map<nat, nat> := map[];
      for i := 0 to |outbound|
        invariant outbound == keep + old(outbound)
        invariant State() == old(State()).(outbound := outbound)
        invariant queued == Recount(outbound[..i])
      {
        assert outbound[..i + 1][..i] == outbound[..i];
        if outbound[i].Data? {
          queued := queued[outbound[i].sid := Get(queued, outbound[i].sid) + |outbound[i].chunk.piece|];
        }
      }
      assert outbound[..|outbound|] == outbound;
      queuedBytes := queued;
    }
  }
}
