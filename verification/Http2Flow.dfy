/**
 * Outbound flow control of an HTTP/2 connection: windows, queued bodies and the DATA frames
 * they become. Sections 5.2 and 6.9 of RFC 9113.
 */
module Http2Flow {
  import opened Octets

  const DEFAULT_INITIAL_WINDOW_SIZE: int := 65535
  const DEFAULT_MAX_FRAME_SIZE: nat := 16384
  const MAX_ALLOWED_FRAME_SIZE: nat := 16777215
  const MAX_WINDOW_SIZE: int := 0x7FFF_FFFF

  datatype StreamState = Open | HalfClosedRemote | HalfClosedLocal | Closed

  /** The sending side of a stream. */
  datatype Out = Out(window: int, pending: Bytes, endPending: bool, state: StreamState)

  datatype DataFrame = DataFrame(sid: nat, payload: Bytes, endStream: bool)

  /** `order` lists the streams as they were opened; `initial` and `maxFrame` are the peer's settings. */
  datatype Conn = Conn(order: seq<nat>, streams: map<nat, Out>, window: int, initial: int, maxFrame: nat, lastId: nat, dead: bool)

  const NEW_CONN := Conn([], map[], DEFAULT_INITIAL_WINDOW_SIZE, DEFAULT_INITIAL_WINDOW_SIZE, DEFAULT_MAX_FRAME_SIZE, 0, false)

  function EndRemote(state: StreamState): StreamState {
    match state
    case Open => HalfClosedRemote
    case HalfClosedLocal => Closed
    case _ => state
  }

  function EndLocal(state: StreamState): StreamState {
    match state
    case Open => HalfClosedLocal
    case HalfClosedRemote => Closed
    case _ => state
  }

  function Min(a: int, b: int): int {
    if a < b then a else b
  }

  /** How much one DATA frame may carry now; not positive when a window is used up. */
  function Allowed(o: Out, window: int, limit: nat): int {
    Min(limit, Min(o.window, window))
  }

  /**
   * `_flush_stream`: the stream and the connection window behind it, and the frames sent. As
   * with Octets.At, the folds keep the recursion out of sight until it is asked for.
   */
  function Flush(o: Out, window: int, limit: nat, sid: nat, folds: nat := 2): (r: (Out, int, seq<DataFrame>))
    decreases |o.pending|, folds
  {
    if folds > 0 then Flush(o, window, limit, sid, folds - 1)
    else if |o.pending| == 0 then (if o.endPending then o.(endPending := false, state := EndLocal(o.state)) else o, window, [])
    else if Allowed(o, window, limit) <= 0 then (o, window, [])
    else
      var n := Min(Allowed(o, window, limit), |o.pending|);
      var chunk, rest := o.pending[..n], o.pending[n..];
      var o' := o.(pending := rest, window := o.window - n);
      var (o'', window', frames) := Flush(o', window - n, limit, sid);
      (o'', window', [DataFrame(sid, chunk, |rest| == 0 && o.endPending)] + frames)
  }

  function FirstChunk(o: Out, window: int, limit: nat): nat {
    if Allowed(o, window, limit) <= 0 then 0 else Min(Allowed(o, window, limit), |o.pending|)
  }

  function Behind(o: Out, n: nat): Out
    requires n <= |o.pending|
  {
    o.(pending := o.pending[n..], window := o.window - n)
  }

  lemma {:induction false} FlushUnfolds(o: Out, window: int, limit: nat, sid: nat)
    ensures var n := FirstChunk(o, window, limit);
            Flush(o, window, limit, sid) ==
              if n == 0 then (if |o.pending| == 0 && o.endPending then o.(endPending := false, state := EndLocal(o.state)) else o, window, [])
              else
                var (o', window', frames) := Flush(Behind(o, n), window - n, limit, sid);
                (o', window', [DataFrame(sid, o.pending[..n], |o.pending[n..]| == 0 && o.endPending)] + frames)
  {
    assert Flush(o, window, limit, sid, 1) == Flush(o, window, limit, sid, 0);
  }

  /** `_flush_all` from the `i`-th stream on. */
  function FlushFrom(c: Conn, i: nat): (Conn, seq<DataFrame>)
    decreases |c.order| - i
  {
    if i >= |c.order| then (c, [])
    else
      var (c', frames) := FlushOne(c, c.order[i]);
      var (c'', more) := FlushFrom(c', i + 1);
      (c'', frames + more)
  }

  /** Streams that are closed or have nothing queued are passed over. */
  function FlushOne(c: Conn, sid: nat): (r: (Conn, seq<DataFrame>))
    ensures r.0.order == c.order
  {
    if sid in c.streams && |c.streams[sid].pending| > 0 && c.streams[sid].state != Closed then FlushStream(c, sid) else (c, [])
  }

  function FlushStream(c: Conn, sid: nat): (r: (Conn, seq<DataFrame>))
    requires sid in c.streams
    ensures r.0.order == c.order
  {
    var (o, window, frames) := Flush(c.streams[sid], c.window, c.maxFrame, sid);
    (c.(streams := c.streams[sid := o], window := window), frames)
  }

  // Sums and texts of frames.

  function Payload(frames: seq<DataFrame>): Bytes
    decreases |frames|
  {
    if |frames| == 0 then [] else Payload(frames[..|frames| - 1]) + frames[|frames| - 1].payload
  }

  /** The frames of one stream. */
  function On(frames: seq<DataFrame>, sid: nat): (r: seq<DataFrame>)
    decreases |frames|
  {
    if |frames| == 0 then []
    else
      var before, last := On(frames[..|frames| - 1], sid), frames[|frames| - 1];
      if last.sid == sid then before + [last] else before
  }

  function TotalSent(frames: seq<DataFrame>): nat
    decreases |frames|
  {
    if |frames| == 0 then 0 else TotalSent(frames[..|frames| - 1]) + |frames[|frames| - 1].payload|
  }

  lemma {:induction false} OnAppend(a: seq<DataFrame>, b: seq<DataFrame>, sid: nat)
    ensures On(a + b, sid) == On(a, sid) + On(b, sid)
    decreases |b|
  {
    if |b| == 0 {
      assert a + b == a;
    } else {
      OnAppend(a, b[..|b| - 1], sid);
      assert (a + b)[..|a + b| - 1] == a + b[..|b| - 1];
    }
  }

  lemma {:induction false} PayloadAppend(a: seq<DataFrame>, b: seq<DataFrame>)
    ensures Payload(a + b) == Payload(a) + Payload(b)
    ensures TotalSent(a + b) == TotalSent(a) + TotalSent(b)
    decreases |b|
  {
    if |b| == 0 {
      assert a + b == a;
    } else {
      PayloadAppend(a, b[..|b| - 1]);
      assert (a + b)[..|a + b| - 1] == a + b[..|b| - 1];
    }
  }

  lemma {:induction false} PayloadOfOne(f: DataFrame)
    ensures Payload([f]) == f.payload && TotalSent([f]) == |f.payload|
    ensures forall sid :: On([f], sid) == if f.sid == sid then [f] else []
  {
    assert [f][..0] == [];
  }

  lemma {:induction false} OnOfOwn(frames: seq<DataFrame>, sid: nat)
    requires forall f :: f in frames ==> f.sid == sid
    ensures On(frames, sid) == frames && forall other :: other != sid ==> On(frames, other) == []
    decreases |frames|
  {
    if |frames| > 0 {
      OnOfOwn(frames[..|frames| - 1], sid);
      assert frames == frames[..|frames| - 1] + [frames[|frames| - 1]];
    }
  }

  // What a flush does.

  predicate Stuck(o: Out, window: int) {
    |o.pending| > 0 ==> o.window <= 0 || window <= 0
  }

  /** Only the last frame may end the stream. */
  predicate EndsAtLast(frames: seq<DataFrame>) {
    forall i :: 0 <= i < |frames| && frames[i].endStream ==> i == |frames| - 1
  }

  predicate EndsStream(frames: seq<DataFrame>) {
    |frames| > 0 && frames[|frames| - 1].endStream
  }

  predicate HasEnd(frames: seq<DataFrame>) {
    exists i :: 0 <= i < |frames| && frames[i].endStream
  }

  /** What a flush of `o` must have done; nothing here mentions how. */
  ghost predicate Flushed(o: Out, window: int, limit: nat, sid: nat, o': Out, window': int, frames: seq<DataFrame>) {
    && Payload(frames) + o'.pending == o.pending
    && o'.window == o.window - |Payload(frames)| && window' == window - |Payload(frames)|
    && TotalSent(frames) == |Payload(frames)|
    && (|frames| > 0 ==> o'.window >= 0 && window' >= 0)
    && (forall f :: f in frames ==> f.sid == sid && 0 < |f.payload| <= limit)
    && EndsAtLast(frames) && (EndsStream(frames) <==> o.endPending && |o.pending| > 0 && |o'.pending| == 0)
    && o'.endPending == (o.endPending && |o'.pending| > 0)
    && o'.state == (if o.endPending && |o'.pending| == 0 then EndLocal(o.state) else o.state)
    && (limit > 0 ==> Stuck(o', window'))
  }

  lemma {:induction false} FlushDoes(o: Out, window: int, limit: nat, sid: nat)
    ensures var (o', window', frames) := Flush(o, window, limit, sid);
            Flushed(o, window, limit, sid, o', window', frames)
    decreases |o.pending|
  {
    FlushUnfolds(o, window, limit, sid);
    var n := FirstChunk(o, window, limit);
    if n == 0 {
      FlushedNothing(o, window, limit, sid);
    } else {
      FlushDoes(Behind(o, n), window - n, limit, sid);
      var (o', window', frames) := Flush(Behind(o, n), window - n, limit, sid);
      FlushedMore(o, window, limit, sid, n, o', window', frames);
    }
  }

  lemma {:induction false} FlushedNothing(o: Out, window: int, limit: nat, sid: nat)
    requires FirstChunk(o, window, limit) == 0
    ensures var o' := if |o.pending| == 0 && o.endPending then o.(endPending := false, state := EndLocal(o.state)) else o;
            Flushed(o, window, limit, sid, o', window, [])
  {
    assert [] + o.pending == o.pending;
  }

  lemma {:induction false} FlushedMore(o: Out, window: int, limit: nat, sid: nat, n: nat, o': Out, window': int, frames: seq<DataFrame>)
    requires 0 < n == FirstChunk(o, window, limit)
    requires Flushed(Behind(o, n), window - n, limit, sid, o', window', frames)
    ensures var first := DataFrame(sid, o.pending[..n], |o.pending[n..]| == 0 && o.endPending);
            Flushed(o, window, limit, sid, o', window', [first] + frames)
  {
    var first := DataFrame(sid, o.pending[..n], |o.pending[n..]| == 0 && o.endPending);
    PayloadAppend([first], frames);
    PayloadOfOne(first);
    assert o.pending[..n] + (Payload(frames) + o'.pending) == (o.pending[..n] + Payload(frames)) + o'.pending;
    assert o.pending == o.pending[..n] + o.pending[n..];
    if |frames| > 0 {
      PayloadLongEnough(frames);
    }
    FirstOfFrames(first, frames);
  }

  lemma {:induction false} FirstOfFrames(first: DataFrame, frames: seq<DataFrame>)
    requires EndsAtLast(frames) && (first.endStream ==> frames == [])
    ensures EndsAtLast([first] + frames)
    ensures EndsStream([first] + frames) <==> if frames == [] then first.endStream else EndsStream(frames)
  {
    var all := [first] + frames;
    forall i | 0 <= i < |all| && all[i].endStream
      ensures i == |all| - 1
    {
      assert i > 0 ==> all[i] == frames[i - 1];
    }
  }

  lemma {:induction false} PayloadLongEnough(frames: seq<DataFrame>)
    requires |frames| > 0 && forall f :: f in frames ==> |f.payload| > 0
    ensures |Payload(frames)| > 0
  {
  }
}
