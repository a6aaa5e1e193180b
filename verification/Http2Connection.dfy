/** The objects of an HTTP/2 connection's outbound side, changed in place by frame handlers and flush loops. */
module Http2Connection {
  import opened Wrappers
  import opened Octets
  import opened Http2Flow
  import opened Http2Run

  datatype FlowError = WindowExceeded | ZeroIncrement | WindowTooLarge

  /** One direction of one window. */
  class FlowControlWindow {
    var available: int

    constructor (initial: int)
      ensures available == initial
    {
      available := initial;
    }

    method Consume(amount: nat) returns (r: Result<(), FlowError>)
      modifies this
      ensures r == if amount > old(available) then Err(WindowExceeded) else Ok(())
      ensures available == if r.Ok? then old(available) - amount else old(available)
    {
      if amount > available {
        return Err(WindowExceeded);
      }
      available := available - amount;
      return Ok(());
    }

    method Credit(amount: nat) returns (r: Result<(), FlowError>)
      modifies this
      ensures r == if amount == 0 then Err(ZeroIncrement) else if old(available) + amount > MAX_WINDOW_SIZE then Err(WindowTooLarge) else Ok(())
      ensures available == if r.Ok? then old(available) + amount else old(available)
    {
      if amount == 0 {
        return Err(ZeroIncrement);
      }
      if available + amount > MAX_WINDOW_SIZE {
        return Err(WindowTooLarge);
      }
      available := available + amount;
      return Ok(());
    }

    /** Unlike a credit, a change that goes too far has already been made when it is reported. */
    method AdjustInitial(delta: int) returns (r: Result<(), FlowError>)
      modifies this
      ensures available == old(available) + delta
      ensures r == if available > MAX_WINDOW_SIZE then Err(WindowTooLarge) else Ok(())
    {
      available := available + delta;
      if available > MAX_WINDOW_SIZE {
        return Err(WindowTooLarge);
      }
      return Ok(());
    }
  }

  /** The sending side of a stream; its window is a number of its own here. */
  class Stream {
    const id: nat
    var window: int
    var state: StreamState
    var pendingOutput: Bytes
    var pendingEndStream: bool

    function Value(): Out
      reads this
    {
      Out(window, pendingOutput, pendingEndStream, state)
    }

    constructor (id: nat, window: int, endStream: bool)
      ensures this.id == id
      ensures Value() == Out(window, [], false, if endStream then HalfClosedRemote else Open)
    {
      this.id, state := id, if endStream then HalfClosedRemote else Open;
      this.window, pendingOutput, pendingEndStream := window, [], false;
    }

    method FinishLocal()
      modifies this`state
      ensures state == EndLocal(old(state))
    {
      if state == Open {
        state := HalfClosedLocal;
      } else if state == HalfClosedRemote {
        state := Closed;
      }
    }
  }

  /** What has been sent with what the rest of a flush sends is the whole flush. */
  ghost predicate FlushingOn(all: (Out, int, seq<DataFrame>), sent: seq<DataFrame>, rest: (Out, int, seq<DataFrame>)) {
    all == (rest.0, rest.1, sent + rest.2)
  }

  lemma {:induction false} FlushingOnStep(all: (Out, int, seq<DataFrame>), sent: seq<DataFrame>, o: Out, window: int, limit: nat, sid: nat, n: nat)
    requires 0 < n == FirstChunk(o, window, limit) && FlushingOn(all, sent, Flush(o, window, limit, sid))
    ensures var first := DataFrame(sid, o.pending[..n], |o.pending[n..]| == 0 && o.endPending);
            FlushingOn(all, sent + [first], Flush(Behind(o, n), window - n, limit, sid))
  {
    FlushUnfolds(o, window, limit, sid);
    var first := DataFrame(sid, o.pending[..n], |o.pending[n..]| == 0 && o.endPending);
    var rest := Flush(Behind(o, n), window - n, limit, sid).2;
    assert sent + ([first] + rest) == (sent + [first]) + rest;
  }

  /** `_flush_stream`. */
  method FlushOut(s: Stream, conn: FlowControlWindow, limit: nat) returns (done: bool, frames: seq<DataFrame>)
    modifies s, conn
    ensures (s.Value(), conn.available, frames) == Flush(old(s.Value()), old(conn.available), limit, s.id)
    ensures done <==> |s.pendingOutput| == 0
  {
    frames := [];
    ghost var all := Flush(s.Value(), conn.available, limit, s.id);
    assert [] + all.2 == all.2;
    while |s.pendingOutput| > 0
      invariant FlushingOn(all, frames, Flush(s.Value(), conn.available, limit, s.id))
      decreases |s.pendingOutput|
    {
      var allowed := Min(limit, Min(s.window, conn.available));
      if allowed <= 0 {
        FlushUnfolds(s.Value(), conn.available, limit, s.id);
        assert frames + [] == frames;
        return false, frames;
      }
      var n := Min(allowed, |s.pendingOutput|);
      FlushingOnStep(all, frames, s.Value(), conn.available, limit, s.id, n);
      var chunk := s.pendingOutput[..n];
      s.pendingOutput := s.pendingOutput[n..];
      s.window := s.window - n;
      var consumed := conn.Consume(n);
      var last := |s.pendingOutput| == 0 && s.pendingEndStream;
      frames := frames + [DataFrame(s.id, chunk, last)];
    }
    FlushUnfolds(s.Value(), conn.available, limit, s.id);
    assert frames + [] == frames;
    if s.pendingEndStream {
      s.pendingEndStream := false;
      s.FinishLocal();
    }
    return true, frames;
  }

  predicate Once(order: seq<nat>) {
    forall i, j :: 0 <= i < j < |order| ==> order[i] != order[j]
  }

  /** A connection with nothing noted of its past. */
  function Blank(c: Conn): World {
    World(c, [], map[], 0, map[], {}, {})
  }

  ghost predicate FlushingAll(all: (Conn, seq<DataFrame>), c: Conn, i: nat, sent: seq<DataFrame>) {
    all == (FlushFrom(c, i).0, sent + FlushFrom(c, i).1)
  }

  lemma {:induction false} FlushingAllStarts(c: Conn)
    ensures FlushingAll(FlushFrom(c, 0), c, 0, [])
  {
    assert [] + FlushFrom(c, 0).1 == FlushFrom(c, 0).1;
  }

  lemma {:induction false} FlushingAllStep(all: (Conn, seq<DataFrame>), c: Conn, i: nat, sent: seq<DataFrame>)
    requires i < |c.order| && FlushingAll(all, c, i, sent)
    ensures var (c', more) := FlushOne(c, c.order[i]); FlushingAll(all, c', i + 1, sent + more)
  {
    var (c', more) := FlushOne(c, c.order[i]);
    var rest := FlushFrom(c', i + 1).1;
    assert sent + (more + rest) == (sent + more) + rest;
  }

  lemma {:induction false} FlushingAllEnds(all: (Conn, seq<DataFrame>), c: Conn, sent: seq<DataFrame>)
    requires FlushingAll(all, c, |c.order|, sent)
    ensures all == (c, sent)
  {
    assert sent + [] == sent;
  }

  lemma {:induction false} AdjustedUpToStep(streams: map<nat, Out>, order: seq<nat>, i: nat, delta: int)
    requires i < |order| && Once(order) && order[i] in streams
    ensures var before := AdjustedUpTo(streams, order, i, delta);
            order[i] in before && before[order[i]] == streams[order[i]]
    ensures AdjustedUpTo(streams, order, i + 1, delta) ==
            AdjustedUpTo(streams, order, i, delta)[order[i] := Shifted(streams[order[i]], delta)]
  {
    AdjustedAt(streams, order, i, delta);
  }

  lemma {:induction false} NoneTooFarAtAll(streams: map<nat, Out>, order: seq<nat>, delta: int)
    requires (forall sid :: sid in streams ==> sid in order) && NoneTooFar(streams, order, |order|, delta)
    ensures !Overflows(streams, delta)
  {
    forall sid | sid in streams
      ensures streams[sid].window + delta <= MAX_WINDOW_SIZE
    {
      var j :| 0 <= j < |order| && order[j] == sid;
    }
  }

  lemma {:induction false} NoneTooFarStep(streams: map<nat, Out>, order: seq<nat>, i: nat, delta: int)
    requires i < |order| && NoneTooFar(streams, order, i, delta)
    requires order[i] in streams ==> streams[order[i]].window + delta <= MAX_WINDOW_SIZE
    ensures NoneTooFar(streams, order, i + 1, delta)
  {
  }

  ghost predicate NoneTooFar(streams: map<nat, Out>, order: seq<nat>, i: nat, delta: int) {
    i <= |order| && forall j :: 0 <= j < i && order[j] in streams ==> streams[order[j]].window + delta <= MAX_WINDOW_SIZE
  }

  // The run's steps with nothing noted of the past.

  lemma {:induction false} StreamUpdateIs(c: Conn, sid: nat, increment: nat)
    requires sid != 0 && sid in c.streams
    ensures var w, c' := Http2Run.OnWindowUpdate(Blank(c), sid, increment), c.(streams := c.streams[sid := CreditedOut(c.streams[sid], increment)]);
            (w.conn, w.log) == if Creditable(c.streams[sid], increment) then Http2Flow.FlushStream(c', sid) else (c', [])
  {
    var c' := c.(streams := c.streams[sid := CreditedOut(c.streams[sid], increment)]);
    var frames := Http2Flow.FlushStream(c', sid).1;
    assert [] + frames == frames;
  }

  predicate Creditable(o: Out, increment: nat) {
    increment != 0 && o.window + increment <= MAX_WINDOW_SIZE
  }

  function CreditedOut(o: Out, increment: nat): Out {
    if Creditable(o, increment) then o.(window := o.window + increment) else o.(state := Closed)
  }

  lemma {:induction false} ConnUpdateIs(c: Conn, increment: nat)
    ensures var w := Http2Run.OnWindowUpdate(Blank(c), 0, increment);
            (w.conn, w.log) ==
              if increment == 0 || c.window + increment > MAX_WINDOW_SIZE then (c.(dead := true), [])
              else FlushFrom(c.(window := c.window + increment), 0)
  {
    var frames := FlushFrom(c.(window := c.window + increment), 0).1;
    assert [] + frames == frames;
  }

  lemma {:induction false} InitialIs(c: Conn, size: nat)
    ensures var w, moved := OnInitial(Blank(c), size), c.(streams := Adjusted(c.streams, c.order, size - c.initial), initial := size);
            (w.conn, w.log) ==
              if Overflows(c.streams, size - c.initial) then (c.(dead := true), [])
              else if size > c.initial then FlushFrom(moved, 0) else (moved, [])
  {
    var frames := FlushFrom(c.(streams := Adjusted(c.streams, c.order, size - c.initial), initial := size), 0).1;
    assert [] + frames == frames;
  }

  class Connection {
    var streams: map<nat, Stream>
    /** The keys of `streams`, oldest first, as a dictionary keeps them. */
    var order: seq<nat>
    const outbound: FlowControlWindow
    var initialWindow: nat
    var maxFrameSize: nat
    var lastStreamId: nat
    var dead: bool
    /** The streams as values. */
    ghost var outs: map<nat, Out>

    /** Each stream is its own object, as its number shows. */
    ghost predicate Valid()
      reads this`streams, this`outs, this`order, streams.Values
    {
      && streams.Keys == outs.Keys
      && (forall sid :: sid in streams ==> streams[sid].id == sid && streams[sid].Value() == outs[sid])
      && (forall sid :: sid in order <==> sid in streams)
    }

    ghost function State(): Conn
      reads this, outbound
    {
      Conn(order, outs, outbound.available, initialWindow, maxFrameSize, lastStreamId, dead)
    }

    constructor ()
      ensures Valid() && State() == NEW_CONN && fresh(outbound)
    {
      streams, order, outs := map[], [], map[];
      outbound := new FlowControlWindow(DEFAULT_INITIAL_WINDOW_SIZE);
      initialWindow, maxFrameSize, lastStreamId, dead := DEFAULT_INITIAL_WINDOW_SIZE, DEFAULT_MAX_FRAME_SIZE, 0, false;
    }

    method FlushStream(sid: nat) returns (frames: seq<DataFrame>)
      requires Valid() && sid in streams
      modifies this`outs, streams[sid], outbound
      ensures Valid() && (State(), frames) == Http2Flow.FlushStream(old(State()), sid)
    {
      var s := streams[sid];
      var done: bool;
      done, frames := FlushOut(s, outbound, maxFrameSize);
      outs := outs[sid := s.Value()];
    }

    /** `_flush_all`: the streams as they were opened, for as long as the windows last. */
    method FlushAll() returns (frames: seq<DataFrame>)
      requires Valid()
      modifies this`outs, outbound, streams.Values
      ensures Valid() && (State(), frames) == FlushFrom(old(State()), 0)
    {
      frames := [];
      ghost var all := FlushFrom(State(), 0);
      FlushingAllStarts(State());
      for i := 0 to |order|
        invariant Valid() && FlushingAll(all, State(), i, frames)
      {
        FlushingAllStep(all, State(), i, frames);
        var more := FlushIfWaiting(order[i]);
        frames := frames + more;
      }
      FlushingAllEnds(all, State(), frames);
    }

    method FlushIfWaiting(sid: nat) returns (frames: seq<DataFrame>)
      requires Valid() && sid in streams
      modifies this`outs, streams[sid], outbound
      ensures Valid() && (State(), frames) == FlushOne(old(State()), sid)
    {
      frames := [];
      if |streams[sid].pendingOutput| > 0 && streams[sid].state != Closed {
        frames := FlushStream(sid);
      }
    }

    method OnWindowUpdate(sid: nat, increment: nat) returns (frames: seq<DataFrame>)
      requires Valid() && !dead
      modifies this`outs, this`dead, outbound, streams.Values
      ensures Valid()
      ensures var w := Http2Run.OnWindowUpdate(Blank(old(State())), sid, increment);
              (State(), frames) == (w.conn, w.log)
    {
      frames := [];
      if sid == 0 {
        frames := CreditConnection(increment);
      } else if sid in streams {
        frames := CreditAndFlush(sid, increment);
      }
    }

    method CreditAndFlush(sid: nat, increment: nat) returns (frames: seq<DataFrame>)
      requires Valid() && sid in streams && sid != 0
      modifies this`outs, streams[sid], outbound
      ensures Valid()
      ensures var w := Http2Run.OnWindowUpdate(Blank(old(State())), sid, increment);
              (State(), frames) == (w.conn, w.log)
    {
      StreamUpdateIs(State(), sid, increment);
      frames := [];
      var credited := CreditStream(sid, increment);
      if credited {
        frames := FlushStream(sid);
      }
    }

    method CreditConnection(increment: nat) returns (frames: seq<DataFrame>)
      requires Valid() && !dead
      modifies this`outs, this`dead, outbound, streams.Values
      ensures Valid()
      ensures var w := Http2Run.OnWindowUpdate(Blank(old(State())), 0, increment);
              (State(), frames) == (w.conn, w.log)
    {
      ConnUpdateIs(State(), increment);
      frames := [];
      var credited := outbound.Credit(increment);
      if credited.Err? {
        dead := true;
        return;
      }
      frames := FlushAll();
    }

    /** A credit the stream cannot take ends the stream, not the connection. */
    method CreditStream(sid: nat, increment: nat) returns (credited: bool)
      requires Valid() && sid in streams
      modifies this`outs, streams[sid]
      ensures Valid() && credited == Creditable(old(outs)[sid], increment)
      ensures outs == old(outs)[sid := CreditedOut(old(outs)[sid], increment)]
    {
      var s := streams[sid];
      credited := increment != 0 && s.window + increment <= MAX_WINDOW_SIZE;
      if credited {
        s.window := s.window + increment;
      } else {
        s.state := Closed;
      }
      outs := outs[sid := s.Value()];
    }

    /** The window of every stream moves; it stops at the first that grows too far. */
    method AdjustAll(delta: int) returns (done: bool)
      requires Valid() && Once(order)
      modifies this`outs, streams.Values
      ensures done == !Overflows(old(outs), delta)
      ensures done ==> Valid() && outs == Adjusted(old(outs), order, delta)
    {
      ghost var before := outs;
      for i := 0 to |order|
        invariant Valid() && outs == AdjustedUpTo(before, order, i, delta)
        invariant NoneTooFar(before, order, i, delta)
      {
        AdjustedUpToStep(before, order, i, delta);
        var tooFar := AdjustOne(order[i], delta);
        if tooFar {
          return false;
        }
        NoneTooFarStep(before, order, i, delta);
      }
      NoneTooFarAtAll(before, order, delta);
      return true;
    }

    method AdjustOne(sid: nat, delta: int) returns (tooFar: bool)
      requires Valid() && sid in streams
      modifies this`outs, streams[sid]
      ensures Valid() && outs == old(outs)[sid := Shifted(old(outs)[sid], delta)]
      ensures tooFar == (old(outs)[sid].window + delta > MAX_WINDOW_SIZE)
    {
      var s := streams[sid];
      s.window := s.window + delta;
      outs := outs[sid := s.Value()];
      return s.window > MAX_WINDOW_SIZE;
    }

    /** `_on_settings`, as far as it concerns output. A connection that died is not described further. */
    method OnSettings(initial: Option<nat>, frameSize: Option<nat>) returns (frames: seq<DataFrame>)
      requires Valid() && Once(order) && !dead
      modifies this`outs, this`dead, this`initialWindow, this`maxFrameSize, outbound, streams.Values
      ensures var w := Http2Run.OnSettings(Blank(old(State())), initial, frameSize);
              dead == w.conn.dead && (!dead ==> Valid() && State() == w.conn && frames == w.log)
    {
      frames := [];
      if BadSettings(initial, frameSize) {
        dead := true;
        return;
      }
      if initial.Some? {
        frames := MoveWindows(initial.value);
      }
      if !dead && frameSize.Some? {
        maxFrameSize := frameSize.value;
      }
    }

    /** A changed INITIAL_WINDOW_SIZE; a larger one lets queued output go. */
    method MoveWindows(size: nat) returns (frames: seq<DataFrame>)
      requires Valid() && Once(order) && !dead
      modifies this`outs, this`dead, this`initialWindow, outbound, streams.Values
      ensures var w := OnInitial(Blank(old(State())), size);
              dead == w.conn.dead && (!dead ==> Valid() && State() == w.conn && frames == w.log)
    {
      InitialIs(State(), size);
      frames := [];
      var delta := size - initialWindow;
      var done := AdjustAll(delta);
      if !done {
        dead := true;
        return;
      }
      initialWindow := size;
      if delta > 0 {
        frames := FlushAll();
      }
    }

    /** A response body, or a chunk of one, joins the queue; what the windows allow goes out at once. */
    method SendData(sid: nat, body: Bytes, last: bool) returns (frames: seq<DataFrame>)
      requires Valid() && sid in streams
      modifies this`outs, streams[sid], outbound
      ensures Valid()
      ensures var w := Flushing(Queued(Blank(old(State())), sid, body, last), sid);
              State() == w.conn && frames == w.log
    {
      var s := streams[sid];
      s.pendingOutput := s.pendingOutput + body;
      s.pendingEndStream := s.pendingEndStream || last;
      outs := outs[sid := s.Value()];
      frames := FlushStream(sid);
      assert [] + frames == frames;
    }

    method FinishBody(sid: nat) returns (frames: seq<DataFrame>)
      requires Valid() && sid in streams
      modifies this`outs, streams[sid], outbound
      ensures Valid()
      ensures var w := OnFinish(Blank(old(State())), sid); State() == w.conn && frames == w.log
    {
      var s := streams[sid];
      if |s.pendingOutput| > 0 {
        frames := SendData(sid, [], true);
        return;
      }
      frames := [DataFrame(sid, [], true)];
      s.FinishLocal();
      outs := outs[sid := s.Value()];
      assert [] + frames == frames;
    }
  }
}
