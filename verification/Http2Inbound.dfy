/**
 * Inbound flow control of HTTP/2, section 6.9 of RFC 9113: what becomes of DATA that a peer
 * sends within the windows it was told of.
 */
module Http2Inbound {
  import opened Wrappers
  import opened Octets
  import opened Http2Flow
  import opened Http2Connection
  import Http2Run

  /**
   * The receiving side of a stream: `rejected` once a response went out before the body ended,
   * `closed` once nothing of that response waits for a window any more.
   */
  datatype In = In(window: int, rejected: bool, closed: bool)

  /** A frame, padding included; whether the body is over the limit with it, and its 413 then goes out at once. */
  datatype Data = Data(length: nat, overLimit: bool, answered: bool)

  /**
   * `_on_data` as to the windows: both take the frame and give it back once it is kept. What
   * comes on a rejected stream that is still live is taken from its window for good.
   */
  function OnData(conn: int, o: In, d: Data): Result<(int, In), FlowError> {
    if d.length > conn then Err(WindowExceeded)
    else if o.closed then Ok((conn, o))
    else if d.length > o.window then Err(WindowExceeded)
    else if o.rejected then Ok((conn, o.(window := o.window - d.length)))
    else if d.overLimit then Ok((conn, In(o.window - d.length, true, d.answered)))
    else Ok((conn, o))
  }

  /**
   * A stream's window starts from the setting of the peer, which is about the other direction.
   * Headers may be enough to reject the body.
   */
  function Opened(peerInitial: int, early: bool := false): In {
    In(peerInitial, early, false)
  }

  method ReceiveData(conn: FlowControlWindow, stream: FlowControlWindow, rejected: bool, closed: bool, d: Data)
    returns (r: Result<(bool, bool), FlowError>)
    requires conn != stream && conn.available <= MAX_WINDOW_SIZE && stream.available <= MAX_WINDOW_SIZE
    modifies conn, stream
    ensures match OnData(old(conn.available), In(old(stream.available), rejected, closed), d)
            case Err(e) => r == Err(e)
            case Ok((window, o)) =>
              r == Ok((o.rejected, o.closed)) && conn.available == window && stream.available == o.window
  {
    var taken := conn.Consume(d.length);
    if taken.Err? {
      return Err(taken.error);
    }
    if d.length > 0 {
      var back := conn.Credit(d.length);
    }
    if closed {
      return Ok((rejected, closed));
    }
    taken := stream.Consume(d.length);
    if taken.Err? {
      return Err(taken.error);
    }
    if rejected {
      return Ok((true, false));
    }
    if d.overLimit {
      return Ok((true, d.answered));
    }
    if d.length > 0 {
      var back := stream.Credit(d.length);
    }
    return Ok((false, false));
  }

  /** The body of a request, frame by frame. */
  function Receive(conn: int, o: In, frames: seq<Data>): Result<(int, In), FlowError>
    decreases |frames|
  {
    if |frames| == 0 then Ok((conn, o))
    else
      match OnData(conn, o, frames[0])
      case Err(e) => Err(e)
      case Ok((conn', o')) => Receive(conn', o', frames[1..])
  }

  /** The stream after a frame that was taken, but for its window. */
  function After(o: In, d: Data): In {
    if !o.closed && !o.rejected && d.overLimit then o.(rejected := true, closed := d.answered) else o
  }

  /** What a frame takes from the stream's window for good. */
  function Kept(o: In, d: Data): nat {
    if !o.closed && (o.rejected || d.overLimit) then d.length else 0
  }

  /** The octets not handed back: from the first frame over the limit on, for as long as the stream is live. */
  function Spent(o: In, frames: seq<Data>): nat
    decreases |frames|
  {
    if |frames| == 0 then 0 else Kept(o, frames[0]) + Spent(After(o, frames[0]), frames[1..])
  }

  /** Each frame fits the windows as they are after those before it. */
  predicate Fits(conn: int, o: In, room: int, frames: seq<Data>)
    decreases |frames|
  {
    |frames| > 0 ==>
      frames[0].length <= conn && (!o.closed ==> frames[0].length <= room) &&
      Fits(conn, After(o, frames[0]), room - Kept(o, frames[0]), frames[1..])
  }

  /** Frames are taken exactly when they fit, and the stream's window is then less by what was not handed back. */
  lemma {:induction false} FramesAreTakenExactly(conn: int, o: In, frames: seq<Data>)
    ensures Receive(conn, o, frames).Ok? <==> Fits(conn, o, o.window, frames)
    ensures Receive(conn, o, frames).Ok? ==>
              Receive(conn, o, frames).value.0 == conn && Receive(conn, o, frames).value.1.window == o.window - Spent(o, frames)
    decreases |frames|
  {
    if |frames| > 0 {
      var next := OnData(conn, o, frames[0]);
      if next.Ok? {
        FramesAreTakenExactly(conn, next.value.1, frames[1..]);
        SameButWindow(conn, next.value.1, After(o, frames[0]), next.value.1.window, frames[1..]);
      }
    }
  }

  lemma {:induction false} SameButWindow(conn: int, o: In, p: In, room: int, frames: seq<Data>)
    requires o.rejected == p.rejected && o.closed == p.closed
    ensures Fits(conn, o, room, frames) == Fits(conn, p, room, frames) && Spent(o, frames) == Spent(p, frames)
    decreases |frames|
  {
    if |frames| > 0 {
      SameButWindow(conn, After(o, frames[0]), After(p, frames[0]), room - Kept(o, frames[0]), frames[1..]);
    }
  }

  // A body within the server's limit.

  predicate WithinLimit(frames: seq<Data>) {
    forall i :: 0 <= i < |frames| ==> !frames[i].overLimit
  }

  /**
   * Every frame goes back into the windows at once, so a body within the limit is taken, and the
   * windows are as before, exactly when no single frame is larger than either window was at the
   * start.
   */
  lemma {:induction false} BodyIsTakenExactly(conn: int, o: In, frames: seq<Data>)
    requires !o.rejected && !o.closed && WithinLimit(frames)
    ensures Receive(conn, o, frames) ==
            if forall i :: 0 <= i < |frames| ==> frames[i].length <= conn && frames[i].length <= o.window
            then Ok((conn, o)) else Err(WindowExceeded)
    decreases |frames|
  {
    if |frames| > 0 {
      var rest := frames[1..];
      assert forall i :: 0 <= i < |rest| ==> rest[i] == frames[i + 1];
      BodyIsTakenExactly(conn, o, rest);
      if frames[0].length <= conn && frames[0].length <= o.window {
        assert forall i :: 0 < i < |frames| ==> frames[i] == rest[i - 1];
      }
    }
  }

  // A peer that keeps to what it was told.

  /** Each frame is at most the advertised MAX_FRAME_SIZE. */
  predicate FramesAllowed(frames: seq<Data>) {
    forall i :: 0 <= i < |frames| ==> frames[i].length <= DEFAULT_MAX_FRAME_SIZE
  }

  /** And what is not handed back keeps to the advertised window of a stream. */
  predicate Allowed(o: In, frames: seq<Data>) {
    FramesAllowed(frames) && Spent(o, frames) <= DEFAULT_INITIAL_WINDOW_SIZE
  }

  /** Of bodies within the limit, a peer that keeps to what it was told is never cut off exactly when its own setting was at least a whole frame. */
  lemma {:induction false} BodiesWithinLimitAreTakenExactly(peerInitial: int)
    ensures (forall frames :: FramesAllowed(frames) && WithinLimit(frames) ==>
               Receive(DEFAULT_INITIAL_WINDOW_SIZE, Opened(peerInitial), frames).Ok?) <==>
            peerInitial >= DEFAULT_MAX_FRAME_SIZE
  {
    var o := Opened(peerInitial);
    if peerInitial >= DEFAULT_MAX_FRAME_SIZE {
      forall frames | FramesAllowed(frames) && WithinLimit(frames)
        ensures Receive(DEFAULT_INITIAL_WINDOW_SIZE, o, frames).Ok?
      {
        BodyIsTakenExactly(DEFAULT_INITIAL_WINDOW_SIZE, o, frames);
      }
    } else {
      var one := [Data(DEFAULT_MAX_FRAME_SIZE, false, false)];
      assert FramesAllowed(one) && WithinLimit(one);
      BodyIsTakenExactly(DEFAULT_INITIAL_WINDOW_SIZE, o, one);
      assert one[0].length > peerInitial;
      assert !Receive(DEFAULT_INITIAL_WINDOW_SIZE, o, one).Ok?;
    }
  }

  lemma {:induction false} AllowedFits(o: In, room: int, frames: seq<Data>, spent: nat)
    requires FramesAllowed(frames) && spent + Spent(o, frames) <= DEFAULT_INITIAL_WINDOW_SIZE
    requires room >= DEFAULT_INITIAL_WINDOW_SIZE - spent
    requires spent > 0 ==> o.rejected
    ensures Fits(DEFAULT_INITIAL_WINDOW_SIZE, o, room, frames)
    decreases |frames|
  {
    if |frames| > 0 {
      var d, rest := frames[0], frames[1..];
      assert forall i :: 0 <= i < |rest| ==> rest[i] == frames[i + 1];
      AllowedFits(After(o, d), room - Kept(o, d), rest, spent + Kept(o, d));
    }
  }

  /** Frames that use up the advertised window, the first of them over the limit, with an answer that waits. */
  function UpToTheWindow(): seq<Data> {
    [Data(16384, true, false), Data(16384, true, false), Data(16384, true, false), Data(16383, true, false)]
  }

  lemma {:induction false} UpToTheWindowSpends(conn: int, o: In)
    requires !o.closed && conn >= DEFAULT_MAX_FRAME_SIZE
    ensures FramesAllowed(UpToTheWindow()) && Spent(o, UpToTheWindow()) == DEFAULT_INITIAL_WINDOW_SIZE
    ensures Fits(conn, o, o.window, UpToTheWindow()) ==> o.window >= DEFAULT_INITIAL_WINDOW_SIZE
  {
    var frames := UpToTheWindow();
    assert frames[1..][1..][1..][1..] == [];
    assert frames[1..][1..][1..][0].length == 16383;
  }

  /**
   * A peer that keeps to what it was told is never cut off, whether its body is within the limit,
   * goes over it or is rejected for its headers, exactly when its own setting was at least the
   * window it was told of.
   */
  lemma {:induction false} AllowedBodiesAreTakenExactly(peerInitial: int, early: bool)
    ensures (forall frames :: Allowed(Opened(peerInitial, early), frames) ==>
               Receive(DEFAULT_INITIAL_WINDOW_SIZE, Opened(peerInitial, early), frames).Ok?) <==>
            peerInitial >= DEFAULT_INITIAL_WINDOW_SIZE
  {
    var o := Opened(peerInitial, early);
    if peerInitial >= DEFAULT_INITIAL_WINDOW_SIZE {
      forall frames | Allowed(o, frames)
        ensures Receive(DEFAULT_INITIAL_WINDOW_SIZE, o, frames).Ok?
      {
        AllowedFits(o, o.window, frames, 0);
        FramesAreTakenExactly(DEFAULT_INITIAL_WINDOW_SIZE, o, frames);
      }
    } else {
      var frames := UpToTheWindow();
      UpToTheWindowSpends(DEFAULT_INITIAL_WINDOW_SIZE, o);
      FramesAreTakenExactly(DEFAULT_INITIAL_WINDOW_SIZE, o, frames);
      assert Allowed(o, frames) && !Receive(DEFAULT_INITIAL_WINDOW_SIZE, o, frames).Ok?;
    }
  }

  /**
   * It does happen, with a setting of a whole frame when the stream opens and of nothing after:
   * the 413 waits for a window, so the stream stays live, and the peer, which was told of 65535
   * octets, is cut off at the 16385th.
   */
  lemma {:induction false} RejectedBodyIsCutOff(answer: Bytes) returns (steps: seq<Http2Run.Step>)
    requires |answer| > 0
    ensures var w := Http2Run.Run(steps);
            1 in w.conn.streams && w.conn.streams[1] == Out(0, answer, true, Open) && w.log == []
    ensures steps == [Http2Run.Settings(Some(16384), None)] + [Http2Run.Headers(1, false)] +
                     [Http2Run.Settings(Some(0), None)] + [Http2Run.WriteLast(1, answer)]
    ensures Http2Run.Run(steps[..1]).conn.initial == 16384
    ensures var frames := [Data(16384, true, false), Data(1, true, false)];
            Allowed(Opened(16384), frames) && Receive(65535, Opened(16384), frames) == Err(WindowExceeded)
  {
    var s1 := [Http2Run.Settings(Some(16384), None)];
    var s2 := s1 + [Http2Run.Headers(1, false)];
    var s3 := s2 + [Http2Run.Settings(Some(0), None)];
    steps := s3 + [Http2Run.WriteLast(1, answer)];
    Http2Run.RunSnoc([], Http2Run.Settings(Some(16384), None));
    assert [] + s1 == s1 && steps[..1] == s1;
    Http2Run.RunSnoc(s1, Http2Run.Headers(1, false));
    Http2Run.RunSnoc(s2, Http2Run.Settings(Some(0), None));
    Http2Run.RunSnoc(s3, Http2Run.WriteLast(1, answer));
    AnswerWaits(Http2Run.Run(s3), answer);
    CutOff();
  }

  lemma {:induction false} AnswerWaits(w: Http2Run.World, answer: Bytes)
    requires !w.conn.dead && 1 in w.conn.streams && w.conn.streams[1] == Out(0, [], false, Open) && |answer| > 0
    ensures var w' := Http2Run.Next(w, Http2Run.WriteLast(1, answer));
            1 in w'.conn.streams && w'.conn.streams[1] == Out(0, answer, true, Open) && w'.log == w.log
  {
    FlushUnfolds(Out(0, answer, true, Open), w.conn.window, w.conn.maxFrame, 1);
    assert [] + answer == answer && w.log + [] == w.log;
  }

  lemma {:induction false} CutOff()
    ensures var frames := [Data(16384, true, false), Data(1, true, false)];
            Allowed(Opened(16384), frames) && Receive(65535, Opened(16384), frames) == Err(WindowExceeded)
  {
    var frames := [Data(16384, true, false), Data(1, true, false)];
    assert frames[1..] == [Data(1, true, false)] && frames[1..][1..] == [];
    assert OnData(65535, Opened(16384), frames[0]) == Ok((65535, In(0, true, false)));
    assert OnData(65535, In(0, true, false), frames[1]) == Err(WindowExceeded);
  }
}
