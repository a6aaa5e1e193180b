/**
 * The receiving side of a QUIC connection's streams: what the peer may send, and how the
 * windows are reopened as data is delivered. Section 4.1 of RFC 9000.
 */
module QuicReceive {
  import opened Wrappers
  import opened Octets
  import opened MapSum
  import opened QuicStreamBuffer

  const STREAM_RECEIVE_WINDOW: nat := 262144
  const CONNECTION_RECEIVE_WINDOW: nat := 1048576
  const MAX_PEER_STREAMS: nat := 100
  const ERROR_FLOW_CONTROL: nat := 0x03
  const ERROR_STREAM_LIMIT: nat := 0x04

  datatype Incoming = Incoming(buffer: Buffer, limit: nat)

  datatype Receiver = Receiver(streams: map<nat, Incoming>, highestTotal: nat, consumed: nat, maxData: nat, closed: bool)

  const NEW_RECEIVER := Receiver(map[], 0, 0, CONNECTION_RECEIVE_WINDOW, false)

  datatype Segment = Segment(sid: nat, offset: nat, data: Bytes, fin: bool)

  /** What a frame makes the connection say. */
  datatype Notice = MaxStreamData(sid: nat, limit: nat) | MaxData(limit: nat) | Close(code: nat)

  function Opened(rv: Receiver, sid: nat): Incoming {
    if sid in rv.streams then rv.streams[sid] else Incoming(EMPTY, STREAM_RECEIVE_WINDOW)
  }

  function Growth(b: Buffer, f: Segment): nat {
    if b.highest < f.offset + |f.data| then f.offset + |f.data| - b.highest else 0
  }

  predicate TooManyStreams(rv: Receiver, f: Segment) {
    f.sid !in rv.streams && f.sid / 4 >= MAX_PEER_STREAMS
  }

  predicate WithinWindows(rv: Receiver, f: Segment) {
    f.offset + |f.data| <= Opened(rv, f.sid).limit &&
    rv.highestTotal + Growth(Opened(rv, f.sid).buffer, f) <= rv.maxData
  }

  ghost function Grafted(streams: map<nat, Incoming>, it: Incoming, f: Segment): map<nat, Incoming> {
    streams[f.sid := it.(buffer := Add(it.buffer, f.offset, f.data, f.fin))]
  }

  /** The frame's effect on the books, before the windows are looked at. */
  ghost function Accepted(rv: Receiver, f: Segment): Receiver {
    var it := Opened(rv, f.sid);
    rv.(streams := Grafted(rv.streams, it, f),
        highestTotal := rv.highestTotal + Growth(it.buffer, f),
        consumed := rv.consumed + |Grown(it.buffer, f.offset, f.data)|)
  }

  predicate StreamRunsLow(it: Incoming) {
    it.buffer.finalSize.None? && it.limit - it.buffer.received < STREAM_RECEIVE_WINDOW / 2
  }

  predicate ConnRunsLow(rv: Receiver) {
    rv.maxData - rv.consumed < CONNECTION_RECEIVE_WINDOW / 2
  }

  function Reopened(streams: map<nat, Incoming>, sid: nat): map<nat, Incoming>
    requires sid in streams
  {
    var it := streams[sid];
    if StreamRunsLow(it) then streams[sid := it.(limit := it.buffer.received + STREAM_RECEIVE_WINDOW)] else streams
  }

  function Replenished(rv: Receiver, sid: nat): Receiver
    requires sid in rv.streams
  {
    rv.(streams := Reopened(rv.streams, sid),
        maxData := if ConnRunsLow(rv) then rv.consumed + CONNECTION_RECEIVE_WINDOW else rv.maxData)
  }

  function ReplenishNotices(rv: Receiver, sid: nat): seq<Notice>
    requires sid in rv.streams
  {
    var it := rv.streams[sid];
    (if StreamRunsLow(it) then [MaxStreamData(sid, it.buffer.received + STREAM_RECEIVE_WINDOW)] else []) +
    (if ConnRunsLow(rv) then [MaxData(rv.consumed + CONNECTION_RECEIVE_WINDOW)] else [])
  }

  ghost function OnSegment(rv: Receiver, f: Segment): Receiver {
    if rv.closed then rv
    else if TooManyStreams(rv, f) then rv.(closed := true)
    else if !WithinWindows(rv, f) then rv.(streams := rv.streams[f.sid := Opened(rv, f.sid)], closed := true)
    else Replenished(Accepted(rv, f), f.sid)
  }

  ghost function NoticesOn(rv: Receiver, f: Segment): seq<Notice> {
    if rv.closed then []
    else if TooManyStreams(rv, f) then [Close(ERROR_STREAM_LIMIT)]
    else if !WithinWindows(rv, f) then [Close(ERROR_FLOW_CONTROL)]
    else ReplenishNotices(Accepted(rv, f), f.sid)
  }

  ghost function OnAll(rv: Receiver, fs: seq<Segment>): Receiver
    decreases |fs|
  {
    if |fs| == 0 then rv else OnSegment(OnAll(rv, fs[..|fs| - 1]), fs[|fs| - 1])
  }

  // The ledger.

  function Highs(rv: Receiver): map<nat, nat> {
    map sid | sid in rv.streams :: rv.streams[sid].buffer.highest
  }

  function Receiveds(rv: Receiver): map<nat, nat> {
    map sid | sid in rv.streams :: rv.streams[sid].buffer.received
  }

  /** What holds of one stream: its books, its limit, and room to go on while it is unfinished. */
  ghost predicate StreamBooks(it: Incoming) {
    Ledger(it.buffer) && it.buffer.highest <= it.limit && !StreamRunsLow(it)
  }

  ghost predicate Books(rv: Receiver) {
    && (forall sid :: sid in rv.streams ==> StreamBooks(rv.streams[sid]) && sid / 4 < MAX_PEER_STREAMS)
    && rv.highestTotal == SumOf(Highs(rv)) && rv.highestTotal <= rv.maxData
    && rv.consumed == SumOf(Receiveds(rv))
    && !ConnRunsLow(rv)
  }

  lemma {:induction false} SumsWith(rv: Receiver, sid: nat, it: Incoming)
    ensures var rv' := rv.(streams := rv.streams[sid := it]);
            SumOf(Highs(rv')) == SumOf(Highs(rv)) + it.buffer.highest - (if sid in rv.streams then rv.streams[sid].buffer.highest else 0) &&
            SumOf(Receiveds(rv')) == SumOf(Receiveds(rv)) + it.buffer.received - (if sid in rv.streams then rv.streams[sid].buffer.received else 0)
  {
    var rv' := rv.(streams := rv.streams[sid := it]);
    SumWith(Highs(rv), sid, it.buffer.highest);
    SumWith(Receiveds(rv), sid, it.buffer.received);
    assert Highs(rv') == Highs(rv)[sid := it.buffer.highest];
    assert Receiveds(rv') == Receiveds(rv)[sid := it.buffer.received];
  }

  lemma {:induction false} AddCounts(b: Buffer, f: Segment)
    requires Ledger(b)
    ensures var b' := Add(b, f.offset, f.data, f.fin);
            Ledger(b') && b'.highest == b.highest + Growth(b, f) && b'.received == b.received + |Grown(b, f.offset, f.data)|
  {
    AddKeepsLedger(b, f.offset, f.data, f.fin);
    if f.offset <= b.received {
      DeliveredReachesFrontier(b.received + |Tail(f.data, f.offset, b.received)|, b.pending);
    }
  }

  lemma {:induction false} EmptyBooks()
    ensures Ledger(EMPTY) && StreamBooks(Incoming(EMPTY, STREAM_RECEIVE_WINDOW)) && Books(NEW_RECEIVER)
  {
    HeldBytesUnfolds(map[]);
    SumOfNothing();
    assert Highs(NEW_RECEIVER) == map[] && Receiveds(NEW_RECEIVER) == map[];
  }

  lemma {:induction false} AcceptedSums(rv: Receiver, f: Segment)
    requires Books(rv) && WithinWindows(rv, f)
    ensures var rv' := Accepted(rv, f);
            rv'.highestTotal == SumOf(Highs(rv')) && rv'.highestTotal <= rv'.maxData && rv'.consumed == SumOf(Receiveds(rv'))
    ensures var it := Accepted(rv, f).streams[f.sid];
            Ledger(it.buffer) && it.buffer.highest <= it.limit
  {
    EmptyBooks();
    var it := Opened(rv, f.sid);
    AddCounts(it.buffer, f);
    SumsWith(rv, f.sid, it.(buffer := Add(it.buffer, f.offset, f.data, f.fin)));
  }

  lemma {:induction false} ReplenishedKeepsBooks(rv: Receiver, sid: nat)
    requires sid in rv.streams && rv.highestTotal == SumOf(Highs(rv)) <= rv.maxData && rv.consumed == SumOf(Receiveds(rv))
    requires Ledger(rv.streams[sid].buffer) && rv.streams[sid].buffer.highest <= rv.streams[sid].limit
    requires forall k :: k in rv.streams ==> (k == sid || StreamBooks(rv.streams[k])) && k / 4 < MAX_PEER_STREAMS
    ensures Books(Replenished(rv, sid))
  {
    assert Highs(Replenished(rv, sid)) == Highs(rv);
    assert Receiveds(Replenished(rv, sid)) == Receiveds(rv);
  }

  lemma {:induction false} OpeningSums(rv: Receiver, sid: nat)
    ensures var rv' := rv.(streams := rv.streams[sid := Opened(rv, sid)]);
            SumOf(Highs(rv')) == SumOf(Highs(rv)) && SumOf(Receiveds(rv')) == SumOf(Receiveds(rv))
  {
    SumsWith(rv, sid, Opened(rv, sid));
  }

  /** Every frame, accepted or not, keeps the books. */
  lemma {:induction false} OnSegmentKeepsBooks(rv: Receiver, f: Segment)
    requires Books(rv)
    ensures Books(OnSegment(rv, f))
  {
    EmptyBooks();
    if !rv.closed && !TooManyStreams(rv, f) {
      if WithinWindows(rv, f) {
        AcceptedSums(rv, f);
        ReplenishedKeepsBooks(Accepted(rv, f), f.sid);
      } else {
        OpeningSums(rv, f.sid);
      }
    }
  }

  lemma {:induction false} RunKeepsBooks(fs: seq<Segment>)
    ensures Books(OnAll(NEW_RECEIVER, fs))
    decreases |fs|
  {
    if |fs| == 0 {
      EmptyBooks();
    } else {
      RunKeepsBooks(fs[..|fs| - 1]);
      OnSegmentKeepsBooks(OnAll(NEW_RECEIVER, fs[..|fs| - 1]), fs[|fs| - 1]);
    }
  }

  // What the peer has been told.

  ghost function Told(rv: Receiver, fs: seq<Segment>): seq<Notice>
    decreases |fs|
  {
    if |fs| == 0 then []
    else Told(rv, fs[..|fs| - 1]) + NoticesOn(OnAll(rv, fs[..|fs| - 1]), fs[|fs| - 1])
  }

  /** The largest limit told for a stream: frames may be reordered on their way to the peer. */
  function ToldStreamMax(log: seq<Notice>, sid: nat): nat
    decreases |log|
  {
    if |log| == 0 then STREAM_RECEIVE_WINDOW
    else
      var last, before := log[|log| - 1], ToldStreamMax(log[..|log| - 1], sid);
      if last.MaxStreamData? && last.sid == sid && before < last.limit then last.limit else before
  }

  function ToldMax(log: seq<Notice>): nat
    decreases |log|
  {
    if |log| == 0 then CONNECTION_RECEIVE_WINDOW
    else
      var last, before := log[|log| - 1], ToldMax(log[..|log| - 1]);
      if last.MaxData? && before < last.limit then last.limit else before
  }

  /** The limits in force are those the peer was told. */
  ghost predicate Agreed(rv: Receiver, log: seq<Notice>) {
    rv.maxData == ToldMax(log) && forall sid :: Opened(rv, sid).limit == ToldStreamMax(log, sid)
  }

  lemma {:induction false} ToldOne(log: seq<Notice>, n: Notice, sid: nat)
    ensures ToldStreamMax(log + [n], sid) ==
            if n.MaxStreamData? && n.sid == sid && ToldStreamMax(log, sid) < n.limit then n.limit else ToldStreamMax(log, sid)
    ensures ToldMax(log + [n]) == if n.MaxData? && ToldMax(log) < n.limit then n.limit else ToldMax(log)
  {
    assert (log + [n])[..|log|] == log;
  }

  lemma {:induction false} ReopenedTells(rv: Receiver, log: seq<Notice>, sid: nat)
    requires Agreed(rv, log) && sid in rv.streams && StreamRunsLow(rv.streams[sid])
    ensures Agreed(rv.(streams := Reopened(rv.streams, sid)),
                   log + [MaxStreamData(sid, rv.streams[sid].buffer.received + STREAM_RECEIVE_WINDOW)])
  {
    var it, rv' := rv.streams[sid], rv.(streams := Reopened(rv.streams, sid));
    var n := MaxStreamData(sid, it.buffer.received + STREAM_RECEIVE_WINDOW);
    ToldOne(log, n, sid);
    forall other
      ensures Opened(rv', other).limit == ToldStreamMax(log + [n], other)
    {
      assert Opened(rv, other).limit == ToldStreamMax(log, other);
      ToldOne(log, n, other);
    }
  }

  lemma {:induction false} ConnTells(rv: Receiver, log: seq<Notice>)
    requires Agreed(rv, log) && ConnRunsLow(rv)
    ensures Agreed(rv.(maxData := rv.consumed + CONNECTION_RECEIVE_WINDOW), log + [MaxData(rv.consumed + CONNECTION_RECEIVE_WINDOW)])
  {
    var n, rv' := MaxData(rv.consumed + CONNECTION_RECEIVE_WINDOW), rv.(maxData := rv.consumed + CONNECTION_RECEIVE_WINDOW);
    ToldOne(log, n, 0);
    forall other
      ensures Opened(rv', other).limit == ToldStreamMax(log + [n], other)
    {
      assert Opened(rv, other).limit == ToldStreamMax(log, other);
      ToldOne(log, n, other);
    }
  }

  lemma {:induction false} ReplenishTells(rv: Receiver, log: seq<Notice>, sid: nat)
    requires Agreed(rv, log) && sid in rv.streams
    ensures Agreed(Replenished(rv, sid), log + ReplenishNotices(rv, sid))
  {
    var rv1, log1 := rv, log;
    if StreamRunsLow(rv.streams[sid]) {
      ReopenedTells(rv, log, sid);
      rv1 := rv.(streams := Reopened(rv.streams, sid));
      log1 := log + [MaxStreamData(sid, rv.streams[sid].buffer.received + STREAM_RECEIVE_WINDOW)];
    }
    var rv2, log2 := rv1, log1;
    if ConnRunsLow(rv) {
      ConnTells(rv1, log1);
      rv2, log2 := rv1.(maxData := rv.consumed + CONNECTION_RECEIVE_WINDOW), log1 + [MaxData(rv.consumed + CONNECTION_RECEIVE_WINDOW)];
    }
    assert rv2 == Replenished(rv, sid);
    assert log2 == log + ReplenishNotices(rv, sid);
  }

  lemma {:induction false} OnSegmentTells(rv: Receiver, log: seq<Notice>, f: Segment)
    requires Agreed(rv, log)
    ensures Agreed(OnSegment(rv, f), log + NoticesOn(rv, f))
  {
    var rv' := OnSegment(rv, f);
    if !rv.closed && !TooManyStreams(rv, f) && WithinWindows(rv, f) {
      assert forall sid :: Opened(Accepted(rv, f), sid).limit == Opened(rv, sid).limit;
      ReplenishTells(Accepted(rv, f), log, f.sid);
    } else {
      assert log + [] == log;
      forall sid
        ensures Opened(rv', sid).limit == ToldStreamMax(log + NoticesOn(rv, f), sid)
        ensures rv'.maxData == ToldMax(log + NoticesOn(rv, f))
      {
        assert Opened(rv, sid).limit == ToldStreamMax(log, sid);
        if !rv.closed {
          ToldOne(log, NoticesOn(rv, f)[0], sid);
        }
      }
      assert Opened(rv', 0).limit == ToldStreamMax(log + NoticesOn(rv, f), 0);
    }
  }

  lemma {:induction false} RunTells(fs: seq<Segment>)
    ensures Agreed(OnAll(NEW_RECEIVER, fs), Told(NEW_RECEIVER, fs))
    decreases |fs|
  {
    if |fs| > 0 {
      RunTells(fs[..|fs| - 1]);
      OnSegmentTells(OnAll(NEW_RECEIVER, fs[..|fs| - 1]), Told(NEW_RECEIVER, fs[..|fs| - 1]), fs[|fs| - 1]);
    }
  }

  /** No byte of a run that is going on is beyond what the peer was told, and the peer has room to go on. */
  ghost predicate PeerObeys(rv: Receiver, log: seq<Notice>, f: Segment) {
    && (f.sid in rv.streams || f.sid / 4 < MAX_PEER_STREAMS)
    && f.offset + |f.data| <= ToldStreamMax(log, f.sid)
    && SumOf(Highs(rv)[f.sid := Highest(Opened(rv, f.sid).buffer, f.offset, f.data)]) <= ToldMax(log)
  }

  /** The connection is closed exactly when the peer goes beyond what it was told. */
  lemma {:induction false} ClosedExactlyOnViolation(fs: seq<Segment>, f: Segment)
    requires !OnAll(NEW_RECEIVER, fs).closed
    ensures var rv := OnAll(NEW_RECEIVER, fs);
            OnSegment(rv, f).closed <==> !PeerObeys(rv, Told(NEW_RECEIVER, fs), f)
  {
    RunKeepsBooks(fs);
    RunTells(fs);
    var rv := OnAll(NEW_RECEIVER, fs);
    SumWith(Highs(rv), f.sid, Highest(Opened(rv, f.sid).buffer, f.offset, f.data));
    assert Opened(rv, f.sid).limit == ToldStreamMax(Told(NEW_RECEIVER, fs), f.sid);
  }

  /** However the run went: at least half a window of credit is left to every unfinished stream and to the connection. */
  lemma {:induction false} CreditIsLeft(fs: seq<Segment>, sid: nat)
    ensures var rv, log := OnAll(NEW_RECEIVER, fs), Told(NEW_RECEIVER, fs);
            ToldMax(log) - SumOf(Receiveds(rv)) >= CONNECTION_RECEIVE_WINDOW / 2 &&
            (Opened(rv, sid).buffer.finalSize.None? ==>
               ToldStreamMax(log, sid) - Opened(rv, sid).buffer.received >= STREAM_RECEIVE_WINDOW / 2)
  {
    RunKeepsBooks(fs);
    RunTells(fs);
    var rv := OnAll(NEW_RECEIVER, fs);
    assert Opened(rv, sid).limit == ToldStreamMax(Told(NEW_RECEIVER, fs), sid);
  }

  // The objects.

  lemma {:induction false} OpeningFirst(rv: Receiver, f: Segment)
    requires !TooManyStreams(rv, f) && !rv.closed
    ensures var rv' := rv.(streams := rv.streams[f.sid := Opened(rv, f.sid)]);
            OnSegment(rv', f) == OnSegment(rv, f) && NoticesOn(rv', f) == NoticesOn(rv, f) && Opened(rv', f.sid) == Opened(rv, f.sid)
  {
    var rv' := rv.(streams := rv.streams[f.sid := Opened(rv, f.sid)]);
    assert Accepted(rv', f).streams == Accepted(rv, f).streams;
    assert rv'.streams[f.sid := Opened(rv', f.sid)] == rv'.streams;
  }

  lemma {:induction false} AcceptedIs(rv: Receiver, f: Segment)
    requires f.sid in rv.streams && !rv.closed
    ensures var b := rv.streams[f.sid].buffer;
            Accepted(rv, f) == Receiver(Grafted(rv.streams, rv.streams[f.sid], f), rv.highestTotal + Growth(b, f),
                                        rv.consumed + |Grown(b, f.offset, f.data)|, rv.maxData, false)
    ensures WithinWindows(rv, f) ==>
            OnSegment(rv, f) == Replenished(Accepted(rv, f), f.sid) && NoticesOn(rv, f) == ReplenishNotices(Accepted(rv, f), f.sid)
  {
  }

  class ReceiveSide {
    var streams: map<nat, StreamBuffer>
    var recvMaxData: nat
    var recvHighestTotal: nat
    var recvConsumed: nat
    var closed: bool
    /** The buffers as values. */
    ghost var incoming: map<nat, Incoming>

    /** Each stream has its own buffer, and its books are in order. */
    ghost predicate Valid()
      reads this`streams, this`incoming, streams.Values
    {
      && streams.Keys == incoming.Keys
      && (forall sid :: sid in streams ==> Holds(streams[sid], incoming[sid]))
      && (forall a, b :: a in streams && b in streams && a != b ==> streams[a] != streams[b])
    }

    static ghost predicate Holds(sb: StreamBuffer, it: Incoming)
      reads sb
    {
      sb.Value() == it.buffer && sb.limit == Some(it.limit) && Ledger(it.buffer)
    }

    ghost function State(): Receiver
      reads this
    {
      Receiver(incoming, recvHighestTotal, recvConsumed, recvMaxData, closed)
    }

    constructor ()
      ensures Valid() && State() == NEW_RECEIVER
    {
      streams, recvMaxData, recvHighestTotal, recvConsumed, closed := map[], CONNECTION_RECEIVE_WINDOW, 0, 0, false;
      incoming := map[];
    }

    /** The frame as it comes out of a packet: `delivered` goes to the application. */
    method OnStreamFrame(f: Segment) returns (notices: seq<Notice>, delivered: Option<Bytes>)
      requires Valid() && !closed
      modifies this, streams.Values
      ensures Valid() && State() == OnSegment(old(State()), f) && notices == NoticesOn(old(State()), f)
      ensures delivered == if closed then None else Some(Grown(Opened(old(State()), f.sid).buffer, f.offset, f.data))
    {
      if f.sid !in streams {
        if f.sid / 4 >= MAX_PEER_STREAMS {
          closed := true;
          return [Close(ERROR_STREAM_LIMIT)], None;
        }
        OpenStream(f.sid);
        OpeningFirst(old(State()), f);
      }
      notices, delivered := OnOpenStream(f);
    }

    method OnOpenStream(f: Segment) returns (notices: seq<Notice>, delivered: Option<Bytes>)
      requires Valid() && !closed && f.sid in streams
      modifies this`recvMaxData, this`recvHighestTotal, this`recvConsumed, this`closed, this`incoming, streams[f.sid]
      ensures Valid() && State() == OnSegment(old(State()), f) && notices == NoticesOn(old(State()), f)
      ensures delivered == if closed then None else Some(Grown(Opened(old(State()), f.sid).buffer, f.offset, f.data))
    {
      var end := f.offset + |f.data|;
      var grown := if end > streams[f.sid].highest then end - streams[f.sid].highest else 0;
      if end > streams[f.sid].limit.value || recvHighestTotal + grown > recvMaxData {
        closed := true;
        assert incoming == incoming[f.sid := incoming[f.sid]];
        return [Close(ERROR_FLOW_CONTROL)], None;
      }
      var piece: Bytes;
      notices, piece := TakeUp(f, grown);
      delivered := Some(piece);
    }

    /** A frame within the limits. */
    method TakeUp(f: Segment, grown: nat) returns (notices: seq<Notice>, piece: Bytes)
      requires Valid() && !closed && f.sid in streams && WithinWindows(State(), f) && grown == Growth(incoming[f.sid].buffer, f)
      modifies this`recvMaxData, this`recvHighestTotal, this`recvConsumed, this`incoming, streams[f.sid]
      ensures Valid() && State() == OnSegment(old(State()), f) && notices == NoticesOn(old(State()), f)
      ensures piece == Grown(Opened(old(State()), f.sid).buffer, f.offset, f.data)
    {
      ghost var rv := State();
      AcceptedIs(rv, f);
      piece := Accept(f, grown);
      assert State() == Accepted(rv, f);
      notices := ReplenishWindows(f.sid);
    }

    method OpenStream(sid: nat)
      requires Valid() && sid !in streams
      modifies this`streams, this`incoming
      ensures Valid() && incoming == old(incoming)[sid := Incoming(EMPTY, STREAM_RECEIVE_WINDOW)]
      ensures streams == old(streams)[sid := streams[sid]] && fresh(streams[sid])
    {
      HeldBytesUnfolds(map[]);
      var newcomer := new StreamBuffer(false, Some(STREAM_RECEIVE_WINDOW));
      streams := streams[sid := newcomer];
      incoming := incoming[sid := Incoming(EMPTY, STREAM_RECEIVE_WINDOW)];
    }

    method Accept(f: Segment, grown: nat) returns (piece: Bytes)
      requires Valid() && f.sid in streams && grown == Growth(incoming[f.sid].buffer, f)
      modifies this`recvHighestTotal, this`recvConsumed, this`incoming, streams[f.sid]
      ensures Valid() && incoming == Grafted(old(incoming), old(incoming)[f.sid], f)
      ensures piece == Grown(old(incoming)[f.sid].buffer, f.offset, f.data)
      ensures recvHighestTotal == old(recvHighestTotal) + grown && recvConsumed == old(recvConsumed) + |piece|
    {
      recvHighestTotal := recvHighestTotal + grown;
      piece := AddTo(f);
      recvConsumed := recvConsumed + |piece|;
    }

    method AddTo(f: Segment) returns (piece: Bytes)
      requires Valid() && f.sid in streams
      modifies this`incoming, streams[f.sid]
      ensures Valid() && piece == Grown(old(incoming)[f.sid].buffer, f.offset, f.data)
      ensures incoming == Grafted(old(incoming), old(incoming)[f.sid], f)
    {
      var buffer := streams[f.sid];
      piece := buffer.AddPiece(f.offset, f.data, f.fin);
      incoming := incoming[f.sid := incoming[f.sid].(buffer := buffer.Value())];
    }

    method ReplenishWindows(sid: nat) returns (notices: seq<Notice>)
      requires Valid() && sid in streams
      modifies this`recvMaxData, this`incoming, streams[sid]
      ensures Valid() && State() == Replenished(old(State()), sid) && notices == ReplenishNotices(old(State()), sid)
    {
      notices := ReplenishStream(sid);
      if recvMaxData - recvConsumed < CONNECTION_RECEIVE_WINDOW / 2 {
        recvMaxData := recvConsumed + CONNECTION_RECEIVE_WINDOW;
        notices := notices + [MaxData(recvMaxData)];
      }
    }

    method ReplenishStream(sid: nat) returns (notices: seq<Notice>)
      requires Valid() && sid in streams
      modifies this`incoming, streams[sid]
      ensures Valid()
      ensures incoming == Reopened(old(incoming), sid)
      ensures var it := old(incoming)[sid];
              notices == if StreamRunsLow(it) then [MaxStreamData(sid, it.buffer.received + STREAM_RECEIVE_WINDOW)] else []
    {
      notices := [];
      var buffer := streams[sid];
      if buffer.finalSize.None? && buffer.limit.value - buffer.received < STREAM_RECEIVE_WINDOW / 2 {
        buffer.limit := Some(buffer.received + STREAM_RECEIVE_WINDOW);
        incoming := incoming[sid := incoming[sid].(limit := buffer.limit.value)];
        notices := [MaxStreamData(sid, buffer.limit.value)];
      }
    }
  }
}
