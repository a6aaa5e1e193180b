/**
 * Runs of an HTTP/2 connection's outbound side: frames from the peer and writes of the
 * response producers, in any order. What every step keeps, and what a body becomes.
 */
module Http2Run {
  import opened Wrappers
  import opened Octets
  import opened Http2Flow

  datatype Step =
    | Headers(sid: nat, endStream: bool)
    | RemoteEnds(sid: nat)
    | Reset(sid: nat)
    | Release
    | Settings(initial: Option<nat>, frameSize: Option<nat>)
    | WindowUpdate(sid: nat, increment: nat)
    | Write(sid: nat, chunk: Bytes)
    | WriteLast(sid: nat, chunk: Bytes)
    | Finish(sid: nat)
    | EndWithHeaders(sid: nat)

  /**
   * The connection and what has happened on it: DATA sent, credits given, bodies written and
   * ended. HEADERS that end a stream are in the log as an empty frame with the end. `late` are
   * the streams written to after their end went out, or ended while something was still queued.
   */
  datatype World = World(
    conn: Conn, log: seq<DataFrame>, credits: map<nat, nat>, connCredits: nat, written: map<nat, Bytes>, ended: set<nat>,
    late: set<nat>)

  const START := World(NEW_CONN, [], map[], 0, map[], {}, {})

  function Credits(w: World, sid: nat): nat {
    if sid in w.credits then w.credits[sid] else 0
  }

  function Written(w: World, sid: nat): Bytes {
    if sid in w.written then w.written[sid] else []
  }

  function SetStream(w: World, sid: nat, o: Out): World {
    w.(conn := w.conn.(streams := w.conn.streams[sid := o]))
  }

  /** A frame handler or a producer has sent some DATA. */
  function Sent(w: World, conn: Conn, frames: seq<DataFrame>): World {
    w.(conn := conn, log := w.log + frames)
  }

  function Flushing(w: World, sid: nat): World
    requires sid in w.conn.streams
  {
    var (conn, frames) := FlushStream(w.conn, sid);
    Sent(w, conn, frames)
  }

  function FlushingFrom(w: World, i: nat): World {
    var (conn, frames) := FlushFrom(w.conn, i);
    Sent(w, conn, frames)
  }

  function Die(w: World): World {
    w.(conn := w.conn.(dead := true))
  }

  function OpenStream(w: World, sid: nat, endStream: bool): World {
    var o := Out(w.conn.initial, [], false, if endStream then HalfClosedRemote else Open);
    w.(conn := w.conn.(order := w.conn.order + [sid], streams := w.conn.streams[sid := o], lastId := sid))
  }

  function Kept(order: seq<nat>, streams: map<nat, Out>): seq<nat>
    decreases |order|
  {
    if |order| == 0 then []
    else if order[0] in streams && streams[order[0]].state == Closed then Kept(order[1..], streams)
    else [order[0]] + Kept(order[1..], streams)
  }

  /** `_release_closed_streams`. */
  function Released(c: Conn): Conn {
    c.(order := Kept(c.order, c.streams),
       streams := c.streams - (set sid | sid in c.streams && c.streams[sid].state == Closed))
  }

  function Shifted(o: Out, delta: int): Out {
    o.(window := o.window + delta)
  }

  /** The windows of the first `i` streams moved by a change of the setting. */
  function AdjustedUpTo(streams: map<nat, Out>, order: seq<nat>, i: nat, delta: int): map<nat, Out>
    requires i <= |order|
    decreases i
  {
    if i == 0 then streams
    else
      var before, sid := AdjustedUpTo(streams, order, i - 1, delta), order[i - 1];
      if sid in streams then before[sid := Shifted(streams[sid], delta)] else before
  }

  function Adjusted(streams: map<nat, Out>, order: seq<nat>, delta: int): map<nat, Out> {
    AdjustedUpTo(streams, order, |order|, delta)
  }

  lemma {:induction false} AdjustedAt(streams: map<nat, Out>, order: seq<nat>, i: nat, delta: int)
    requires i <= |order|
    ensures var after := AdjustedUpTo(streams, order, i, delta);
            after.Keys == streams.Keys &&
            forall sid :: sid in streams ==> after[sid] == if sid in order[..i] then Shifted(streams[sid], delta) else streams[sid]
    decreases i
  {
    if i > 0 {
      AdjustedAt(streams, order, i - 1, delta);
      assert order[..i] == order[..i - 1] + [order[i - 1]];
    }
  }

  /** Some window would go too far. */
  predicate Overflows(streams: map<nat, Out>, delta: int) {
    exists sid :: sid in streams && streams[sid].window + delta > MAX_WINDOW_SIZE
  }

  predicate BadSettings(initial: Option<nat>, frameSize: Option<nat>) {
    (initial.Some? && initial.value > MAX_WINDOW_SIZE) ||
    (frameSize.Some? && !(DEFAULT_MAX_FRAME_SIZE <= frameSize.value <= MAX_ALLOWED_FRAME_SIZE))
  }

  /** The windows move before the new settings are noted, and what they let go is sent before. */
  function OnSettings(w: World, initial: Option<nat>, frameSize: Option<nat>): World {
    if BadSettings(initial, frameSize) then Die(w)
    else
      var w1 := match initial case None => w case Some(size) => OnInitial(w, size);
      if w1.conn.dead || frameSize.None? then w1 else w1.(conn := w1.conn.(maxFrame := frameSize.value))
  }

  function OnInitial(w: World, size: nat): World {
    var delta := size - w.conn.initial;
    var streams := Adjusted(w.conn.streams, w.conn.order, delta);
    if Overflows(w.conn.streams, delta) then Die(w)
    else
      var moved := w.(conn := w.conn.(streams := streams, initial := size));
      if delta > 0 then FlushingFrom(moved, 0) else moved
  }

  function OnWindowUpdate(w: World, sid: nat, increment: nat): World {
    if sid == 0 then
      if increment == 0 || w.conn.window + increment > MAX_WINDOW_SIZE then Die(w)
      else FlushingFrom(w.(conn := w.conn.(window := w.conn.window + increment), connCredits := w.connCredits + increment), 0)
    else if sid !in w.conn.streams then w
    else
      var o := w.conn.streams[sid];
      if increment == 0 || o.window + increment > MAX_WINDOW_SIZE then SetStream(w, sid, o.(state := Closed))
      else
        Flushing(SetStream(w, sid, o.(window := o.window + increment)).(credits := w.credits[sid := Credits(w, sid) + increment]), sid)
  }

  function Queued(w: World, sid: nat, chunk: Bytes, last: bool): World
    requires sid in w.conn.streams
  {
    var o := w.conn.streams[sid];
    SetStream(w, sid, o.(pending := o.pending + chunk, endPending := o.endPending || last))
    .(written := w.written[sid := Written(w, sid) + chunk], ended := if last then w.ended + {sid} else w.ended,
      late := if |chunk| > 0 && HasEnd(On(w.log, sid)) then w.late + {sid} else w.late)
  }

  /** An empty frame ends the stream, or HEADERS do. */
  function EndedBare(w: World, sid: nat): World
    requires sid in w.conn.streams
  {
    var o := w.conn.streams[sid];
    SetStream(w, sid, o.(state := EndLocal(o.state)))
    .(log := w.log + [DataFrame(sid, [], true)], ended := w.ended + {sid},
      late := if |o.pending| > 0 || HasEnd(On(w.log, sid)) then w.late + {sid} else w.late)
  }

  /** The producer is done: the queued rest carries the end, or an empty frame does. */
  function OnFinish(w: World, sid: nat): World
    requires sid in w.conn.streams
  {
    var o := w.conn.streams[sid];
    if |o.pending| > 0 then Flushing(Queued(w, sid, [], true), sid)
    else EndedBare(w, sid)
  }

  /** Responses are written on a stream that is not closed; nothing says that there is only one. */
  predicate Writable(w: World, sid: nat) {
    sid in w.conn.streams && w.conn.streams[sid].state != Closed
  }

  predicate Enabled(w: World, step: Step) {
    !w.conn.dead &&
    match step
    case Headers(sid, _) => sid > w.conn.lastId
    case RemoteEnds(sid) => sid in w.conn.streams
    case Reset(sid) => sid in w.conn.streams
    case Write(sid, _) => Writable(w, sid)
    case WriteLast(sid, chunk) => Writable(w, sid) && |chunk| > 0
    case Finish(sid) => Writable(w, sid)
    case EndWithHeaders(sid) => Writable(w, sid)
    case _ => true
  }

  /** A step that is not enabled changes nothing. */
  function Next(w: World, step: Step): World {
    if !Enabled(w, step) then w
    else
      match step
      case Headers(sid, endStream) => OpenStream(w, sid, endStream)
      case RemoteEnds(sid) => SetStream(w, sid, w.conn.streams[sid].(state := EndRemote(w.conn.streams[sid].state)))
      case Reset(sid) => SetStream(w, sid, w.conn.streams[sid].(state := Closed))
      case Release => w.(conn := Released(w.conn))
      case Settings(initial, frameSize) => OnSettings(w, initial, frameSize)
      case WindowUpdate(sid, increment) => OnWindowUpdate(w, sid, increment)
      case Write(sid, chunk) => Flushing(Queued(w, sid, chunk, false), sid)
      case WriteLast(sid, chunk) => Flushing(Queued(w, sid, chunk, true), sid)
      case Finish(sid) => OnFinish(w, sid)
      case EndWithHeaders(sid) => EndedBare(w, sid)
  }

  function Run(steps: seq<Step>): World
    decreases |steps|
  {
    if |steps| == 0 then START else Next(Run(steps[..|steps| - 1]), steps[|steps| - 1])
  }

  // What every step keeps.

  /** The body of a stream: what went out, then what waits; its end is sent once, last, when nothing waits. */
  ghost predicate BodyBooks(w: World, sid: nat)
    requires sid in w.conn.streams
  {
    var o, frames := w.conn.streams[sid], On(w.log, sid);
    && Payload(frames) + o.pending == Written(w, sid)
    && (o.endPending ==> |o.pending| > 0)
    && (if sid in w.late then HasEnd(frames) && (|o.pending| > 0 || !EndsAtLast(frames))
        else (sid in w.ended <==> o.endPending || HasEnd(frames)) && (HasEnd(frames) ==> |o.pending| == 0 && !o.endPending))
  }

  ghost predicate StreamBooks(w: World, sid: nat) {
    sid in w.conn.streams ==>
      && w.conn.streams[sid].window == w.conn.initial + Credits(w, sid) - |Payload(On(w.log, sid))| <= MAX_WINDOW_SIZE
      && BodyBooks(w, sid)
  }

  /** What holds of every stream ever, released or not yet opened. */
  ghost predicate HistoryBooks(w: World, sid: nat) {
    && Payload(On(w.log, sid)) <= Written(w, sid)
    && (sid !in w.late ==> EndsAtLast(On(w.log, sid)) &&
                           (HasEnd(On(w.log, sid)) ==> Payload(On(w.log, sid)) == Written(w, sid) && sid in w.ended))
    && (sid > w.conn.lastId ==>
          On(w.log, sid) == [] && Written(w, sid) == [] && Credits(w, sid) == 0 && sid !in w.ended && sid !in w.late)
  }

  ghost predicate ConnBooks(w: World) {
    && 0 <= w.conn.window == DEFAULT_INITIAL_WINDOW_SIZE + w.connCredits - TotalSent(w.log) <= MAX_WINDOW_SIZE
    && 0 <= w.conn.initial <= MAX_WINDOW_SIZE && DEFAULT_MAX_FRAME_SIZE <= w.conn.maxFrame
    && (forall sid :: sid in w.conn.streams ==> sid <= w.conn.lastId && sid in w.conn.order)
    && (forall i :: 0 <= i < |w.conn.order| ==> w.conn.order[i] in w.conn.streams)
  }

  ghost predicate Books(w: World) {
    ConnBooks(w) && forall sid :: StreamBooks(w, sid) && HistoryBooks(w, sid)
  }

  /** Queued output waits only for a window. */
  predicate Flowing(w: World, sid: nat) {
    sid in w.conn.streams && w.conn.streams[sid].state != Closed ==> Stuck(w.conn.streams[sid], w.conn.window)
  }

  ghost predicate Inv(w: World) {
    Books(w) && forall sid :: Flowing(w, sid)
  }

  // Flushing.

  lemma {:induction false} LogGrows(log: seq<DataFrame>, frames: seq<DataFrame>, sid: nat, other: nat)
    requires forall f :: f in frames ==> f.sid == sid
    ensures On(log + frames, other) == if other == sid then On(log, sid) + frames else On(log, other)
    ensures Payload(On(log + frames, sid)) == Payload(On(log, sid)) + Payload(frames)
    ensures TotalSent(log + frames) == TotalSent(log) + TotalSent(frames)
  {
    OnAppend(log, frames, other);
    OnAppend(log, frames, sid);
    OnOfOwn(frames, sid);
    PayloadAppend(log, frames);
    PayloadAppend(On(log, sid), frames);
  }

  lemma {:induction false} FramesBehind(a: seq<DataFrame>, b: seq<DataFrame>)
    requires EndsAtLast(b)
    ensures HasEnd(a + b) <==> HasEnd(a) || HasEnd(b)
    ensures EndsAtLast(a + b) <==> EndsAtLast(a) && (|b| > 0 ==> !HasEnd(a))
  {
    var all := a + b;
    assert forall i :: 0 <= i < |a| ==> all[i] == a[i];
    assert forall i :: 0 <= i < |b| ==> all[|a| + i] == b[i];
    forall i | 0 <= i < |all| && all[i].endStream && EndsAtLast(a) && (|b| > 0 ==> !HasEnd(a))
      ensures i == |all| - 1
    {
      assert if i < |a| then all[i] == a[i] else all[i] == b[i - |a|];
    }
  }

  /** What a flush does to the log of its stream. */
  lemma {:induction false} FlushLog(w: World, sid: nat)
    requires sid in w.conn.streams
    ensures var o, o' := w.conn.streams[sid], Flushing(w, sid).conn.streams[sid];
            var before, after := On(w.log, sid), On(Flushing(w, sid).log, sid);
            var sent := |o.pending| - |o'.pending|;
            Payload(after) + o'.pending == Payload(before) + o.pending && |Payload(after)| == |Payload(before)| + sent &&
            o'.window == o.window - sent && (sent > 0 ==> o'.window >= 0) &&
            o'.endPending == (o.endPending && |o'.pending| > 0) &&
            (HasEnd(after) <==> HasEnd(before) || (o.endPending && sent > 0 && |o'.pending| == 0)) &&
            (EndsAtLast(after) <==> EndsAtLast(before) && (sent > 0 ==> !HasEnd(before)))
  {
    var o := w.conn.streams[sid];
    var (o', window', frames) := Flush(o, w.conn.window, w.conn.maxFrame, sid);
    FlushDoes(o, w.conn.window, w.conn.maxFrame, sid);
    LogGrows(w.log, frames, sid, sid);
    if |frames| > 0 {
      PayloadLongEnough(frames);
    }
    FramesBehind(On(w.log, sid), frames);
    LastEnds(frames);
    assert (Payload(On(w.log, sid)) + Payload(frames)) + o'.pending == Payload(On(w.log, sid)) + (Payload(frames) + o'.pending);
  }

  lemma {:induction false} LastEnds(frames: seq<DataFrame>)
    requires EndsAtLast(frames)
    ensures HasEnd(frames) <==> EndsStream(frames)
  {
  }

  lemma {:induction false} FlushOwn(w: World, sid: nat)
    requires sid in w.conn.streams && StreamBooks(w, sid) && HistoryBooks(w, sid) && sid <= w.conn.lastId
    ensures var w' := Flushing(w, sid);
            StreamBooks(w', sid) && HistoryBooks(w', sid) && (w.conn.maxFrame > 0 ==> Flowing(w', sid))
  {
    FlushLog(w, sid);
    FlushDoes(w.conn.streams[sid], w.conn.window, w.conn.maxFrame, sid);
    var w' := Flushing(w, sid);
    assert Payload(On(w'.log, sid)) <= Payload(On(w'.log, sid)) + w'.conn.streams[sid].pending;
  }

  lemma {:induction false} FlushOther(w: World, sid: nat, other: nat)
    requires sid in w.conn.streams && other != sid && StreamBooks(w, other) && HistoryBooks(w, other)
    ensures var w' := Flushing(w, sid);
            StreamBooks(w', other) && HistoryBooks(w', other) && (Flowing(w, other) ==> Flowing(w', other))
  {
    var o := w.conn.streams[sid];
    var (o', window', frames) := Flush(o, w.conn.window, w.conn.maxFrame, sid);
    FlushDoes(o, w.conn.window, w.conn.maxFrame, sid);
    LogGrows(w.log, frames, sid, other);
  }

  lemma {:induction false} FlushKeepsConn(w: World, sid: nat)
    requires sid in w.conn.streams && ConnBooks(w)
    ensures ConnBooks(Flushing(w, sid))
  {
    var o := w.conn.streams[sid];
    var (o', window', frames) := Flush(o, w.conn.window, w.conn.maxFrame, sid);
    FlushDoes(o, w.conn.window, w.conn.maxFrame, sid);
    LogGrows(w.log, frames, sid, sid);
  }

  /** Sending takes no window below zero. */
  ghost predicate NotOverdrawn(w: World, w': World, sid: nat) {
    (sid in w.conn.streams <==> sid in w'.conn.streams) &&
    (sid in w.conn.streams ==> w'.conn.streams[sid].window == w.conn.streams[sid].window || w'.conn.streams[sid].window >= 0)
  }

  lemma {:induction false} FlushNotOverdrawn(w: World, sid: nat, other: nat)
    requires sid in w.conn.streams
    ensures NotOverdrawn(w, Flushing(w, sid), other)
  {
    var o := w.conn.streams[sid];
    FlushDoes(o, w.conn.window, w.conn.maxFrame, sid);
  }

  lemma {:induction false} FlushFromNotOverdrawn(w: World, i: nat, other: nat)
    ensures NotOverdrawn(w, FlushingFrom(w, i), other)
    decreases |w.conn.order| - i
  {
    if i < |w.conn.order| {
      var sid := w.conn.order[i];
      FlushingFromStep(w, i);
      if sid in w.conn.streams && |w.conn.streams[sid].pending| > 0 && w.conn.streams[sid].state != Closed {
        FlushNotOverdrawn(w, sid, other);
      }
      FlushFromNotOverdrawn(FlushingOne(w, sid), i + 1, other);
    }
  }

  /** A flush keeps the books, lets its own stream flow, and stops no other. */
  lemma {:induction false} FlushingKeeps(w: World, sid: nat)
    requires sid in w.conn.streams && Books(w)
    ensures Books(Flushing(w, sid)) && Flowing(Flushing(w, sid), sid)
    ensures forall other :: Flowing(w, other) ==> Flowing(Flushing(w, sid), other)
  {
    FlushKeepsConn(w, sid);
    FlushOwn(w, sid);
    forall other
      ensures StreamBooks(Flushing(w, sid), other) && HistoryBooks(Flushing(w, sid), other)
      ensures Flowing(w, other) ==> Flowing(Flushing(w, sid), other)
    {
      if other != sid {
        FlushOther(w, sid, other);
      }
    }
  }

  /** One stream of `_flush_all`. */
  function FlushingOne(w: World, sid: nat): World {
    var (conn, frames) := FlushOne(w.conn, sid);
    Sent(w, conn, frames)
  }

  lemma {:induction false} FlushingOneKeeps(w: World, sid: nat)
    requires Books(w)
    ensures var w' := FlushingOne(w, sid);
            Books(w') && Flowing(w', sid) && w'.conn.order == w.conn.order && w'.conn.dead == w.conn.dead &&
            w'.conn.initial == w.conn.initial && forall other :: Flowing(w, other) ==> Flowing(w', other)
  {
    if sid in w.conn.streams && |w.conn.streams[sid].pending| > 0 && w.conn.streams[sid].state != Closed {
      FlushingKeeps(w, sid);
    } else {
      assert w.log + [] == w.log;
      assert FlushingOne(w, sid) == w;
    }
  }

  lemma {:induction false} FlushingFromStep(w: World, i: nat)
    requires i < |w.conn.order|
    ensures FlushingFrom(w, i) == FlushingFrom(FlushingOne(w, w.conn.order[i]), i + 1)
  {
    var (c', frames) := FlushOne(w.conn, w.conn.order[i]);
    var (c'', more) := FlushFrom(c', i + 1);
    assert w.log + (frames + more) == (w.log + frames) + more;
  }

  lemma {:induction false} FlushingFromKeeps(w: World, i: nat)
    requires Books(w)
    ensures var w' := FlushingFrom(w, i);
            Books(w') && w'.conn.dead == w.conn.dead && w'.conn.order == w.conn.order && w'.conn.initial == w.conn.initial &&
            (forall sid :: Flowing(w, sid) ==> Flowing(w', sid)) &&
            (forall j :: i <= j < |w.conn.order| ==> Flowing(w', w.conn.order[j]))
    decreases |w.conn.order| - i
  {
    if i >= |w.conn.order| {
      assert w.log + [] == w.log;
      assert FlushingFrom(w, i) == w;
    } else {
      FlushingFromStep(w, i);
      FlushingOneKeeps(w, w.conn.order[i]);
      FlushingFromKeeps(FlushingOne(w, w.conn.order[i]), i + 1);
    }
  }

  /** After `_flush_all` output waits only for windows. */
  lemma {:induction false} FlushAllKeeps(w: World)
    requires Books(w)
    ensures Inv(FlushingFrom(w, 0)) && FlushingFrom(w, 0).conn.dead == w.conn.dead
  {
    FlushingFromKeeps(w, 0);
    var w' := FlushingFrom(w, 0);
    forall sid
      ensures Flowing(w', sid)
    {
      if sid in w'.conn.streams {
        var j :| 0 <= j < |w'.conn.order| && w'.conn.order[j] == sid;
        assert Flowing(w', w.conn.order[j]);
      }
    }
  }

  // One step at a time.

  lemma {:induction false} StartHolds()
    ensures Inv(START)
  {
    forall sid
      ensures StreamBooks(START, sid) && HistoryBooks(START, sid)
    {
      assert Payload([]) == [];
    }
  }

  lemma {:induction false} StateChangeKeeps(w: World, sid: nat, state: StreamState)
    requires Inv(w) && sid in w.conn.streams && (state == Closed || w.conn.streams[sid].state != Closed)
    ensures Inv(SetStream(w, sid, w.conn.streams[sid].(state := state)))
  {
    var w' := SetStream(w, sid, w.conn.streams[sid].(state := state));
    forall other
      ensures StreamBooks(w', other) && HistoryBooks(w', other) && Flowing(w', other)
    {
      assert StreamBooks(w, other) && HistoryBooks(w, other) && Flowing(w, other);
    }
  }

  lemma {:induction false} DieKeeps(w: World)
    requires Inv(w)
    ensures Inv(Die(w))
  {
    var w' := Die(w);
    forall other
      ensures StreamBooks(w', other) && HistoryBooks(w', other) && Flowing(w', other)
    {
      assert StreamBooks(w, other) && HistoryBooks(w, other) && Flowing(w, other);
    }
  }

  lemma {:induction false} OpenKeeps(w: World, sid: nat, endStream: bool)
    requires Inv(w) && sid > w.conn.lastId
    ensures Inv(OpenStream(w, sid, endStream))
  {
    var w' := OpenStream(w, sid, endStream);
    forall other
      ensures StreamBooks(w', other) && HistoryBooks(w', other) && Flowing(w', other)
    {
      assert StreamBooks(w, other) && HistoryBooks(w, other) && Flowing(w, other);
    }
  }

  lemma {:induction false} KeptHas(order: seq<nat>, streams: map<nat, Out>)
    ensures forall sid :: sid in Kept(order, streams) <==> sid in order && !(sid in streams && streams[sid].state == Closed)
    decreases |order|
  {
    if |order| > 0 {
      KeptHas(order[1..], streams);
    }
  }

  lemma {:induction false} ReleaseKeeps(w: World)
    requires Inv(w)
    ensures Inv(w.(conn := Released(w.conn)))
  {
    var w' := w.(conn := Released(w.conn));
    KeptHas(w.conn.order, w.conn.streams);
    forall i | 0 <= i < |w'.conn.order|
      ensures w'.conn.order[i] in w'.conn.streams
    {
      assert w'.conn.order[i] in Kept(w.conn.order, w.conn.streams);
      assert w'.conn.order[i] in w.conn.order;
    }
    forall other
      ensures StreamBooks(w', other) && HistoryBooks(w', other) && Flowing(w', other)
    {
      assert StreamBooks(w, other) && HistoryBooks(w, other) && Flowing(w, other);
    }
  }

  /** The windows of all streams move by the change of the setting. */
  function Moved(w: World, size: nat): World {
    w.(conn := w.conn.(streams := Adjusted(w.conn.streams, w.conn.order, size - w.conn.initial), initial := size))
  }

  lemma {:induction false} MovedKeeps(w: World, size: nat)
    requires Inv(w) && size <= MAX_WINDOW_SIZE && !Overflows(w.conn.streams, size - w.conn.initial)
    ensures Books(Moved(w, size)) && (size <= w.conn.initial ==> Inv(Moved(w, size)))
  {
    var w' := Moved(w, size);
    AdjustedAt(w.conn.streams, w.conn.order, |w.conn.order|, size - w.conn.initial);
    assert w.conn.order[..|w.conn.order|] == w.conn.order;
    forall other
      ensures StreamBooks(w', other) && HistoryBooks(w', other) && (size <= w.conn.initial ==> Flowing(w', other))
    {
      assert StreamBooks(w, other) && HistoryBooks(w, other) && Flowing(w, other);
    }
  }

  lemma {:induction false} InitialKeeps(w: World, size: nat)
    requires Inv(w) && size <= MAX_WINDOW_SIZE
    ensures Inv(OnInitial(w, size))
  {
    if Overflows(w.conn.streams, size - w.conn.initial) {
      DieKeeps(w);
    } else {
      MovedKeeps(w, size);
      if size > w.conn.initial {
        FlushAllKeeps(Moved(w, size));
      }
    }
  }

  lemma {:induction false} SettingsKeep(w: World, initial: Option<nat>, frameSize: Option<nat>)
    requires Inv(w)
    ensures Inv(OnSettings(w, initial, frameSize))
  {
    if BadSettings(initial, frameSize) {
      DieKeeps(w);
    } else {
      if initial.Some? {
        InitialKeeps(w, initial.value);
      }
      if frameSize.Some? {
        FrameSizeKeeps(if initial.Some? then OnInitial(w, initial.value) else w, frameSize.value);
      }
    }
  }

  lemma {:induction false} FrameSizeKeeps(w: World, size: nat)
    requires Inv(w) && DEFAULT_MAX_FRAME_SIZE <= size
    ensures Inv(w.(conn := w.conn.(maxFrame := size)))
  {
    var w' := w.(conn := w.conn.(maxFrame := size));
    forall other
      ensures StreamBooks(w', other) && HistoryBooks(w', other) && Flowing(w', other)
    {
      assert StreamBooks(w, other) && HistoryBooks(w, other) && Flowing(w, other);
    }
  }

  function Credited(w: World, sid: nat, increment: nat): World
    requires sid in w.conn.streams
  {
    var o := w.conn.streams[sid];
    SetStream(w, sid, o.(window := o.window + increment)).(credits := w.credits[sid := Credits(w, sid) + increment])
  }

  lemma {:induction false} CreditKeeps(w: World, sid: nat, increment: nat)
    requires Inv(w) && sid in w.conn.streams && w.conn.streams[sid].window + increment <= MAX_WINDOW_SIZE
    ensures Books(Credited(w, sid, increment)) && forall other :: other != sid ==> Flowing(Credited(w, sid, increment), other)
  {
    var w' := Credited(w, sid, increment);
    forall other
      ensures StreamBooks(w', other) && HistoryBooks(w', other) && (other != sid ==> Flowing(w', other))
    {
      assert StreamBooks(w, other) && HistoryBooks(w, other) && Flowing(w, other);
    }
  }

  lemma {:induction false} ConnCreditKeeps(w: World, increment: nat)
    requires Inv(w) && w.conn.window + increment <= MAX_WINDOW_SIZE
    ensures Books(w.(conn := w.conn.(window := w.conn.window + increment), connCredits := w.connCredits + increment))
  {
    var w' := w.(conn := w.conn.(window := w.conn.window + increment), connCredits := w.connCredits + increment);
    forall other
      ensures StreamBooks(w', other) && HistoryBooks(w', other)
    {
      assert StreamBooks(w, other) && HistoryBooks(w, other);
    }
  }

  lemma {:induction false} WindowUpdateKeeps(w: World, sid: nat, increment: nat)
    requires Inv(w)
    ensures Inv(OnWindowUpdate(w, sid, increment))
  {
    if sid == 0 {
      if increment == 0 || w.conn.window + increment > MAX_WINDOW_SIZE {
        DieKeeps(w);
      } else {
        ConnCreditKeeps(w, increment);
        FlushAllKeeps(w.(conn := w.conn.(window := w.conn.window + increment), connCredits := w.connCredits + increment));
      }
    } else if sid in w.conn.streams {
      if increment == 0 || w.conn.streams[sid].window + increment > MAX_WINDOW_SIZE {
        StateChangeKeeps(w, sid, Closed);
      } else {
        CreditKeeps(w, sid, increment);
        FlushingKeeps(Credited(w, sid, increment), sid);
      }
    }
  }

  lemma {:induction false} QueueKeeps(w: World, sid: nat, chunk: Bytes, last: bool)
    requires Inv(w) && Writable(w, sid) && (last ==> |w.conn.streams[sid].pending + chunk| > 0)
    ensures Books(Queued(w, sid, chunk, last)) && forall other :: other != sid ==> Flowing(Queued(w, sid, chunk, last), other)
  {
    var w', o := Queued(w, sid, chunk, last), w.conn.streams[sid];
    assert Payload(On(w.log, sid)) + (o.pending + chunk) == (Payload(On(w.log, sid)) + o.pending) + chunk;
    forall other
      ensures StreamBooks(w', other) && HistoryBooks(w', other) && (other != sid ==> Flowing(w', other))
    {
      assert StreamBooks(w, other) && HistoryBooks(w, other) && Flowing(w, other);
    }
  }

  lemma {:induction false} WriteKeeps(w: World, sid: nat, chunk: Bytes, last: bool)
    requires Inv(w) && Writable(w, sid) && (last ==> |w.conn.streams[sid].pending + chunk| > 0)
    ensures Inv(Flushing(Queued(w, sid, chunk, last), sid))
  {
    QueueKeeps(w, sid, chunk, last);
    FlushingKeeps(Queued(w, sid, chunk, last), sid);
  }

  lemma {:induction false} BareLog(log: seq<DataFrame>, sid: nat)
    ensures var f, more := DataFrame(sid, [], true), log + [DataFrame(sid, [], true)];
            On(more, sid) == On(log, sid) + [f] && (forall other :: other != sid ==> On(more, other) == On(log, other)) &&
            Payload(On(more, sid)) == Payload(On(log, sid)) && TotalSent(more) == TotalSent(log) &&
            HasEnd(On(more, sid)) && (EndsAtLast(On(more, sid)) <==> EndsAtLast(On(log, sid)) && !HasEnd(On(log, sid)))
  {
    var f := DataFrame(sid, [], true);
    PayloadOfOne(f);
    LogGrows(log, [f], sid, sid);
    assert Payload(On(log, sid)) + [] == Payload(On(log, sid));
    FramesBehind(On(log, sid), [f]);
    assert [f][0].endStream;
    forall other | other != sid
      ensures On(log + [f], other) == On(log, other)
    {
      LogGrows(log, [f], sid, other);
    }
  }

  lemma {:induction false} EndedBareOwn(w: World, sid: nat)
    requires ConnBooks(w) && StreamBooks(w, sid) && HistoryBooks(w, sid) && Flowing(w, sid) && Writable(w, sid)
    ensures var w' := EndedBare(w, sid);
            StreamBooks(w', sid) && HistoryBooks(w', sid) && Flowing(w', sid) && ConnBooks(w')
  {
    BareLog(w.log, sid);
  }

  lemma {:induction false} EndedBareOther(w: World, sid: nat, other: nat)
    requires StreamBooks(w, other) && HistoryBooks(w, other) && Flowing(w, other) && sid in w.conn.streams && other != sid
    ensures var w' := EndedBare(w, sid); StreamBooks(w', other) && HistoryBooks(w', other) && Flowing(w', other)
  {
    BareLog(w.log, sid);
  }

  lemma {:induction false} FinishKeeps(w: World, sid: nat)
    requires Inv(w) && Writable(w, sid)
    ensures Inv(OnFinish(w, sid))
  {
    if |w.conn.streams[sid].pending| > 0 {
      WriteKeeps(w, sid, [], true);
    } else {
      EndedBareKeeps(w, sid);
    }
  }

  lemma {:induction false} EndedBareKeeps(w: World, sid: nat)
    requires Inv(w) && Writable(w, sid)
    ensures Inv(EndedBare(w, sid))
  {
    var w' := EndedBare(w, sid);
    assert StreamBooks(w, sid) && HistoryBooks(w, sid) && Flowing(w, sid);
    EndedBareOwn(w, sid);
    forall other
      ensures StreamBooks(w', other) && HistoryBooks(w', other) && Flowing(w', other)
    {
      assert StreamBooks(w, other) && HistoryBooks(w, other) && Flowing(w, other);
      if other != sid {
        EndedBareOther(w, sid, other);
      }
    }
  }

  lemma {:induction false} NextKeeps(w: World, step: Step)
    requires Inv(w)
    ensures Inv(Next(w, step))
  {
    if Enabled(w, step) {
      match step
      case Headers(sid, endStream) => OpenKeeps(w, sid, endStream);
      case RemoteEnds(sid) =>
        if w.conn.streams[sid].state == Closed {
          StateChangeKeeps(w, sid, Closed);
        } else {
          StateChangeKeeps(w, sid, EndRemote(w.conn.streams[sid].state));
        }
      case Reset(sid) => StateChangeKeeps(w, sid, Closed);
      case Release => ReleaseKeeps(w);
      case Settings(initial, frameSize) => SettingsKeep(w, initial, frameSize);
      case WindowUpdate(sid, increment) => WindowUpdateKeeps(w, sid, increment);
      case Write(sid, chunk) => WriteKeeps(w, sid, chunk, false);
      case WriteLast(sid, chunk) => WriteKeeps(w, sid, chunk, true);
      case Finish(sid) => FinishKeeps(w, sid);
      case EndWithHeaders(sid) => EndedBareKeeps(w, sid);
    }
  }

  lemma {:induction false} RunKeeps(steps: seq<Step>)
    ensures Inv(Run(steps))
    decreases |steps|
  {
    if |steps| == 0 {
      StartHolds();
    } else {
      RunKeeps(steps[..|steps| - 1]);
      NextKeeps(Run(steps[..|steps| - 1]), steps[|steps| - 1]);
    }
  }

  // The theorems.

  /** Every window is the setting plus the credits less what was sent, and none is ever too large. */
  lemma {:induction false} WindowsAreLedgers(steps: seq<Step>, sid: nat)
    ensures var w := Run(steps);
            w.conn.window == DEFAULT_INITIAL_WINDOW_SIZE + w.connCredits - TotalSent(w.log) &&
            0 <= w.conn.window <= MAX_WINDOW_SIZE &&
            (sid in w.conn.streams ==>
               w.conn.streams[sid].window == w.conn.initial + Credits(w, sid) - |Payload(On(w.log, sid))| &&
               w.conn.streams[sid].window <= MAX_WINDOW_SIZE)
  {
    RunKeeps(steps);
    assert StreamBooks(Run(steps), sid);
  }

  lemma {:induction false} UpdateNotOverdrawn(w: World, on: nat, increment: nat, sid: nat)
    requires sid in w.conn.streams && w.conn.streams[sid].window >= 0
    ensures var w' := OnWindowUpdate(w, on, increment); sid in w'.conn.streams && w'.conn.streams[sid].window >= 0
  {
    if on == 0 {
      FlushFromNotOverdrawn(w.(conn := w.conn.(window := w.conn.window + increment), connCredits := w.connCredits + increment), 0, sid);
    } else if on in w.conn.streams {
      FlushNotOverdrawn(Credited(w, on, increment), on, sid);
    }
  }

  lemma {:induction false} InitialNotOverdrawn(w: World, size: nat, sid: nat)
    requires sid in w.conn.streams && w.conn.streams[sid].window >= 0 && size >= w.conn.initial
    ensures var w' := OnInitial(w, size); sid in w'.conn.streams && w'.conn.streams[sid].window >= 0
  {
    AdjustedAt(w.conn.streams, w.conn.order, |w.conn.order|, size - w.conn.initial);
    FlushFromNotOverdrawn(Moved(w, size), 0, sid);
  }

  lemma {:induction false} WriteNotOverdrawn(w: World, on: nat, chunk: Bytes, last: bool, sid: nat)
    requires on in w.conn.streams && sid in w.conn.streams && w.conn.streams[sid].window >= 0
    ensures var w' := Flushing(Queued(w, on, chunk, last), on); sid in w'.conn.streams && w'.conn.streams[sid].window >= 0
  {
    FlushNotOverdrawn(Queued(w, on, chunk, last), on, sid);
  }

  /** Only a smaller INITIAL_WINDOW_SIZE takes a window below zero: sending never does. */
  lemma {:induction false} OnlySettingsOverdraw(w: World, step: Step, sid: nat)
    requires Inv(w) && sid in w.conn.streams && w.conn.streams[sid].window >= 0
    requires !(step.Settings? && step.initial.Some? && step.initial.value < w.conn.initial)
    ensures sid in Next(w, step).conn.streams ==> Next(w, step).conn.streams[sid].window >= 0
  {
    match step
    case Settings(initial, _) => if initial.Some? { InitialNotOverdrawn(w, initial.value, sid); }
    case WindowUpdate(on, increment) => UpdateNotOverdrawn(w, on, increment, sid);
    case Write(on, chunk) => if on in w.conn.streams { WriteNotOverdrawn(w, on, chunk, false, sid); }
    case WriteLast(on, chunk) => if on in w.conn.streams { WriteNotOverdrawn(w, on, chunk, true, sid); }
    case Finish(on) => if on in w.conn.streams { WriteNotOverdrawn(w, on, [], true, sid); }
    case _ =>
  }

  /** Output never sticks: what is queued on a stream that is not closed waits for a window. */
  lemma {:induction false} OutputNeverSticks(steps: seq<Step>, sid: nat)
    ensures var w := Run(steps);
            sid in w.conn.streams && w.conn.streams[sid].state != Closed && |w.conn.streams[sid].pending| > 0 ==>
            w.conn.streams[sid].window <= 0 || w.conn.window <= 0
  {
    RunKeeps(steps);
    assert Flowing(Run(steps), sid);
  }

  /**
   * The DATA frames of a stream spell what was written on it, in order. Unless something was
   * written late, only the last of them can end the stream, and it does so exactly when the
   * body was finished and all of it is out.
   */
  lemma {:induction false} BodyIsSpelled(steps: seq<Step>, sid: nat)
    ensures var w := Run(steps);
            var frames := On(w.log, sid);
            Payload(frames) <= Written(w, sid) &&
            (sid in w.conn.streams ==> Payload(frames) + w.conn.streams[sid].pending == Written(w, sid)) &&
            (sid !in w.late ==>
               EndsAtLast(frames) && (HasEnd(frames) ==> sid in w.ended && Payload(frames) == Written(w, sid)) &&
               (sid in w.conn.streams ==> (HasEnd(frames) <==> sid in w.ended && w.conn.streams[sid].pending == [])))
  {
    RunKeeps(steps);
    assert StreamBooks(Run(steps), sid) && HistoryBooks(Run(steps), sid);
  }

  /** When all that was written on a stream is out, its end was sent last and once exactly if nothing was written late. */
  lemma {:induction false} EndIsLastExactly(steps: seq<Step>, sid: nat)
    requires sid in Run(steps).conn.streams && Run(steps).conn.streams[sid].pending == []
    ensures EndsAtLast(On(Run(steps).log, sid)) <==> sid !in Run(steps).late
  {
    RunKeeps(steps);
    assert StreamBooks(Run(steps), sid) && HistoryBooks(Run(steps), sid);
  }

  lemma {:induction false} RunSnoc(steps: seq<Step>, step: Step)
    ensures Run(steps + [step]) == Next(Run(steps), step)
  {
    assert (steps + [step])[..|steps|] == steps;
  }

  /**
   * It does happen: a body refused with 413 waits for the peer's window and goes out with its
   * end; trailers that are too large are then answered with 431 on the same stream.
   */
  lemma {:induction false} EndIsSentTwice() returns (steps: seq<Step>)
    ensures On(Run(steps).log, 1) == [DataFrame(1, [7], true), DataFrame(1, [8], true)]
  {
    var waiting := Waits();
    steps := waiting + [WriteLast(1, [8])] + [WindowUpdate(1, 1)];
    RunSnoc(waiting, WriteLast(1, [8]));
    RunSnoc(waiting + [WriteLast(1, [8])], WindowUpdate(1, 1));
    OneOctetQueued(Run(waiting), [8]);
    OneOctetOut(Run(waiting + [WriteLast(1, [8])]), 8);
    assert [DataFrame(1, [7], true)] + [DataFrame(1, [8], true)] == [DataFrame(1, [7], true), DataFrame(1, [8], true)];
    OnTwo(DataFrame(1, [7], true), DataFrame(1, [8], true));
  }

  lemma {:induction false} OnTwo(f: DataFrame, g: DataFrame)
    requires f.sid == g.sid
    ensures On([f, g], f.sid) == [f, g]
  {
    OnOfOwn([f, g], f.sid);
  }

  /** A live stream 1 without a window, on a connection that has one. */
  predicate Dry(w: World, state: StreamState) {
    !w.conn.dead && w.conn.maxFrame == DEFAULT_MAX_FRAME_SIZE && w.conn.window > 1 && 1 in w.conn.streams &&
    w.conn.streams[1] == Out(0, [], false, state) && state != Closed
  }

  lemma {:induction false} OneOctetQueued(w: World, octet: Bytes)
    requires 1 in w.conn.streams && Dry(w, w.conn.streams[1].state) && |octet| == 1
    ensures var w' := Next(w, WriteLast(1, octet));
            w'.conn == w.conn.(streams := w.conn.streams[1 := Out(0, octet, true, w.conn.streams[1].state)]) && w'.log == w.log
  {
    var o := Out(0, octet, true, w.conn.streams[1].state);
    FlushUnfolds(o, w.conn.window, w.conn.maxFrame, 1);
    assert [] + octet == octet && w.log + [] == w.log;
  }

  lemma {:induction false} OneOctetOut(w: World, octet: Octet)
    requires !w.conn.dead && w.conn.maxFrame == DEFAULT_MAX_FRAME_SIZE && w.conn.window > 1 && 1 in w.conn.streams
    requires w.conn.streams[1].window == 0 && w.conn.streams[1].pending == [octet] && w.conn.streams[1].endPending
    ensures var w' := Next(w, WindowUpdate(1, 1));
            w'.conn == w.conn.(window := w.conn.window - 1,
                               streams := w.conn.streams[1 := Out(0, [], false, EndLocal(w.conn.streams[1].state))]) &&
            w'.log == w.log + [DataFrame(1, [octet], true)]
  {
    var o := w.conn.streams[1].(window := 1);
    FlushUnfolds(o, w.conn.window, w.conn.maxFrame, 1);
    FlushUnfolds(Behind(o, 1), w.conn.window - 1, w.conn.maxFrame, 1);
    assert o.pending[..1] == [octet] && o.pending[1..] == [];
    assert [DataFrame(1, [octet], true)] + [] == [DataFrame(1, [octet], true)];
  }

  /** The peer allows nothing at first, and then the one octet of the first answer. */
  lemma {:induction false} Waits() returns (steps: seq<Step>)
    ensures Dry(Run(steps), HalfClosedLocal) && Run(steps).log == [DataFrame(1, [7], true)]
  {
    var s1 := [Settings(Some(0), None)];
    var s2 := s1 + [Headers(1, false)];
    var s3 := s2 + [WriteLast(1, [7])];
    steps := s3 + [WindowUpdate(1, 1)];
    RunSnoc([], Settings(Some(0), None));
    assert [] + s1 == s1;
    RunSnoc(s1, Headers(1, false));
    RunSnoc(s2, WriteLast(1, [7]));
    RunSnoc(s3, WindowUpdate(1, 1));
    OneOctetQueued(Run(s2), [7]);
    OneOctetOut(Run(s3), 7);
    assert [] + [DataFrame(1, [7], true)] == [DataFrame(1, [7], true)];
  }
}
