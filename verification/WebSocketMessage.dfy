/**
 * Messages out of frames: sections 5.4, 5.5.1 and 7.4 of RFC 6455. Control frames may stand
 * between the fragments of a message.
 */
module WebSocketMessage {
  import opened Wrappers
  import opened Octets
  import opened BigEndians
  import opened WebSocketFrame

  /** A message that is not whole: its opcode and what has arrived of it. */
  datatype Assembly = Idle | Growing(opcode: nat, payload: Bytes)

  datatype MessageFault = MessageInterrupted | NothingToContinue | MessageTooBig | InvalidText | InvalidClose(fault: CloseFault)

  datatype CloseFault = CloseTooShort | InvalidCode | ReasonNotText

  datatype Delivery = Delivered(frame: Frame, next: Assembly) | More(next: Assembly) | Fault(fault: MessageFault)

  /** The limit on a message, and what counts as text. */
  datatype Rules = Rules(maxMessage: nat, isText: Bytes -> bool)

  /** Codes that an endpoint may send. */
  predicate ValidCloseCode(code: nat) {
    (1000 <= code <= 1014 && code != 1004 && code != 1005 && code != 1006) || 3000 <= code <= 4999
  }

  /** `parse_close_payload`: the code and the reason, or neither. */
  function ParseClose(r: Rules, payload: Bytes): Result<Option<(nat, Bytes)>, CloseFault> {
    if |payload| == 0 then Ok(None)
    else if |payload| == 1 then Err(CloseTooShort)
    else if !ValidCloseCode(FromBig(payload[..2])) then Err(InvalidCode)
    else if !r.isText(payload[2..]) then Err(ReasonNotText)
    else Ok(Some((FromBig(payload[..2]), payload[2..])))
  }

  predicate BadClose(r: Rules, f: Frame) {
    f.opcode == 8 && ParseClose(r, f.payload).Err?
  }

  lemma {:induction false} TwoOctets(code: nat)
    requires code < 65536
    ensures FromBig(BigEndian(code, 2)) == code
  {
    assert Cut(code, 2) == Cut(code / 256, 1) == Cut(code / 256 / 256, 0);
    BigEndianIsValue(code, 2);
  }

  lemma {:induction false} TwoOctetsAreSmall(two: Bytes)
    requires |two| == 2
    ensures FromBig(two) < 65536
  {
    assert two[..1][..0] == [] && FromBig(two[..1]) == 256 * FromBig([]) + two[0];
  }

  /** A close that says something says it exactly in this form. */
  lemma {:induction false} CloseIsRead(r: Rules, payload: Bytes, code: nat, reason: Bytes)
    ensures ParseClose(r, payload) == Ok(Some((code, reason))) <==>
            code < 65536 && payload == BigEndian(code, 2) + reason && ValidCloseCode(code) && r.isText(reason)
  {
    if code < 65536 {
      var written := BigEndian(code, 2) + reason;
      assert written[..2] == BigEndian(code, 2) && written[2..] == reason;
      TwoOctets(code);
    }
    if |payload| >= 2 {
      ValueIsBigEndian(payload[..2]);
      TwoOctetsAreSmall(payload[..2]);
      assert payload == payload[..2] + payload[2..];
    }
  }

  /** A frame on its way to the caller; text is checked when it is whole. */
  function Deliver(r: Rules, f: Frame, next: Assembly): Delivery {
    if f.opcode == 1 && !r.isText(f.payload) then Fault(InvalidText) else Delivered(f, next)
  }

  /** What one frame does, as the receiving loop does it. */
  function Take(r: Rules, a: Assembly, f: Frame): Delivery {
    if BadClose(r, f) then Fault(InvalidClose(ParseClose(r, f.payload).error))
    else if f.opcode == 1 || f.opcode == 2 then
      if a.Growing? then Fault(MessageInterrupted)
      else if !f.fin then More(Growing(f.opcode, f.payload))
      else Deliver(r, f, Idle)
    else if f.opcode == 0 then
      if a.Idle? then Fault(NothingToContinue)
      else
        var payload := a.payload + f.payload;
        if |payload| > r.maxMessage then Fault(MessageTooBig)
        else if !f.fin then More(Growing(a.opcode, payload))
        else Deliver(r, Frame(true, a.opcode, payload, f.mask), Idle)
    else Deliver(r, f, a)
  }

  /** All that reaches the caller, and what is left over; or the fault that ended it. */
  function TakeAll(r: Rules, a: Assembly, frames: seq<Frame>): Result<(seq<Frame>, Assembly), MessageFault>
    decreases |frames|
  {
    if |frames| == 0 then Ok(([], a))
    else
      match Take(r, a, frames[0])
      case Fault(e) => Err(e)
      case More(a') => TakeAll(r, a', frames[1..])
      case Delivered(f, a') =>
        match TakeAll(r, a', frames[1..])
        case Err(e) => Err(e)
        case Ok((more, end)) => Ok(([f] + more, end))
  }

  /** The receiving loop over frames that have been read. */
  method Receive(r: Rules, frames: seq<Frame>) returns (result: Result<(seq<Frame>, Assembly), MessageFault>)
    ensures result == TakeAll(r, Idle, frames)
  {
    var fragmentOpcode: Option<nat>, fragmentPayload: Bytes := None, [];
    var out: seq<Frame> := [];
    ghost var all := TakeAll(r, Idle, frames);
    assert frames[0..] == frames;
    assert all.Ok? ==> [] + all.value.0 == all.value.0;
    for i := 0 to |frames|
      invariant Continuing(all, out, TakeAll(r, Assembled(fragmentOpcode, fragmentPayload), frames[i..]))
    {
      var f := frames[i];
      assert frames[i..][0] == f && frames[i..][1..] == frames[i + 1..];
      if f.opcode == 8 {
        var close := ParseClose(r, f.payload);
        if close.Err? {
          return Err(InvalidClose(close.error));
        }
      }
      if f.opcode == 1 || f.opcode == 2 {
        if fragmentOpcode.Some? {
          return Err(MessageInterrupted);
        }
        if !f.fin {
          fragmentOpcode, fragmentPayload := Some(f.opcode), f.payload;
          continue;
        }
      } else if f.opcode == 0 {
        if fragmentOpcode.None? {
          return Err(NothingToContinue);
        }
        fragmentPayload := fragmentPayload + f.payload;
        if |fragmentPayload| > r.maxMessage {
          return Err(MessageTooBig);
        }
        if !f.fin {
          continue;
        }
        f := Frame(true, fragmentOpcode.value, fragmentPayload, f.mask);
        fragmentOpcode, fragmentPayload := None, [];
      }
      if f.opcode == 1 && !r.isText(f.payload) {
        return Err(InvalidText);
      }
      ghost var rest := TakeAll(r, Assembled(fragmentOpcode, fragmentPayload), frames[i + 1..]);
      assert rest.Ok? ==> out + ([f] + rest.value.0) == (out + [f]) + rest.value.0;
      out := out + [f];
    }
    assert frames[|frames|..] == [] && out + [] == out;
    return Ok((out, Assembled(fragmentOpcode, fragmentPayload)));
  }

  function Assembled(opcode: Option<nat>, payload: Bytes): Assembly {
    match opcode case None => Idle case Some(o) => Growing(o, payload)
  }

  ghost predicate Continuing(all: Result<(seq<Frame>, Assembly), MessageFault>, out: seq<Frame>, rest: Result<(seq<Frame>, Assembly), MessageFault>)
  {
    match rest
    case Err(e) => all == Err(e)
    case Ok((more, end)) => all == Ok((out + more, end))
  }

  // What becomes of a message.

  function Controls(frames: seq<Frame>): seq<Frame>
    decreases |frames|
  {
    if |frames| == 0 then []
    else if IsControl(frames[0].opcode) then [frames[0]] + Controls(frames[1..])
    else Controls(frames[1..])
  }

  /** What the data frames among these say: opcode and payload. */
  function Messages(frames: seq<Frame>): seq<(nat, Bytes)>
    decreases |frames|
  {
    if |frames| == 0 then []
    else if IsControl(frames[0].opcode) then Messages(frames[1..])
    else [(frames[0].opcode, frames[0].payload)] + Messages(frames[1..])
  }

  function Joined(pieces: seq<Bytes>): Bytes
    decreases |pieces|
  {
    if |pieces| == 0 then [] else pieces[0] + Joined(pieces[1..])
  }

  /**
   * The data frames among these are the pieces of one message, in order: the first carries the
   * opcode, the last the final bit. Control frames stand anywhere, and none is a broken close.
   */
  ghost predicate Fragments(r: Rules, frames: seq<Frame>, opcode: nat, pieces: seq<Bytes>, first: bool)
    decreases |frames|
  {
    if |frames| == 0 then |pieces| == 0
    else if IsControl(frames[0].opcode) then !BadClose(r, frames[0]) && Fragments(r, frames[1..], opcode, pieces, first)
    else
      |pieces| > 0 && frames[0].payload == pieces[0] && frames[0].opcode == (if first then opcode else 0) &&
      frames[0].fin == (|pieces| == 1) && Fragments(r, frames[1..], opcode, pieces[1..], false)
  }

  /** Frames behind the last piece are control frames only. */
  lemma {:induction false} OnlyControls(r: Rules, a: Assembly, frames: seq<Frame>, opcode: nat)
    requires Fragments(r, frames, opcode, [], false)
    ensures TakeAll(r, a, frames) == Ok((frames, a)) && Messages(frames) == [] && Controls(frames) == frames
    decreases |frames|
  {
    if |frames| > 0 {
      OnlyControls(r, a, frames[1..], opcode);
      assert [frames[0]] + frames[1..] == frames;
    }
  }

  /** The rest of a message, from a fragment on. */
  lemma {:induction false} RestOfMessage(r: Rules, frames: seq<Frame>, opcode: nat, sofar: Bytes, pieces: seq<Bytes>)
    requires (opcode == 1 || opcode == 2) && |pieces| > 0 && Fragments(r, frames, opcode, pieces, false)
    requires |sofar + Joined(pieces)| <= r.maxMessage && (opcode == 1 ==> r.isText(sofar + Joined(pieces)))
    ensures var result := TakeAll(r, Growing(opcode, sofar), frames);
            result.Ok? && result.value.1 == Idle &&
            Messages(result.value.0) == [(opcode, sofar + Joined(pieces))] && Controls(result.value.0) == Controls(frames)
    decreases |frames|
  {
    if IsControl(frames[0].opcode) {
      RestOfMessage(r, frames[1..], opcode, sofar, pieces);
      FirstShows(frames[0], TakeAll(r, Growing(opcode, sofar), frames[1..]).value.0);
    } else {
      assert sofar + (pieces[0] + Joined(pieces[1..])) == (sofar + pieces[0]) + Joined(pieces[1..]);
      if |pieces| == 1 {
        assert pieces[1..] == [] && sofar + pieces[0] + [] == sofar + pieces[0];
        OnlyControls(r, Idle, frames[1..], opcode);
        FirstShows(Frame(true, opcode, sofar + pieces[0], frames[0].mask), frames[1..]);
      } else {
        RestOfMessage(r, frames[1..], opcode, sofar + pieces[0], pieces[1..]);
      }
    }
  }

  lemma {:induction false} FirstShows(f: Frame, rest: seq<Frame>)
    ensures Messages([f] + rest) == if IsControl(f.opcode) then Messages(rest) else [(f.opcode, f.payload)] + Messages(rest)
    ensures Controls([f] + rest) == if IsControl(f.opcode) then [f] + Controls(rest) else Controls(rest)
  {
    assert ([f] + rest)[1..] == rest;
  }

  /**
   * However a message is cut into fragments, and wherever control frames stand between them,
   * the caller gets the message, whole, and the control frames as they came.
   */
  lemma {:induction false} MessageIsPutTogether(r: Rules, frames: seq<Frame>, opcode: nat, pieces: seq<Bytes>)
    requires (opcode == 1 || opcode == 2) && |pieces| > 0 && Fragments(r, frames, opcode, pieces, true)
    requires (|pieces| > 1 ==> |Joined(pieces)| <= r.maxMessage) && (opcode == 1 ==> r.isText(Joined(pieces)))
    ensures var result := TakeAll(r, Idle, frames);
            result.Ok? && result.value.1 == Idle &&
            Messages(result.value.0) == [(opcode, Joined(pieces))] && Controls(result.value.0) == Controls(frames)
    decreases |frames|
  {
    if IsControl(frames[0].opcode) {
      MessageIsPutTogether(r, frames[1..], opcode, pieces);
      FirstShows(frames[0], TakeAll(r, Idle, frames[1..]).value.0);
    } else if |pieces| == 1 {
      assert pieces[1..] == [] && pieces[0] + [] == pieces[0];
      OnlyControls(r, Idle, frames[1..], opcode);
      FirstShows(frames[0], frames[1..]);
    } else {
      RestOfMessage(r, frames[1..], opcode, pieces[0], pieces[1..]);
    }
  }

  /** What comes first does not matter to what comes after but for the message it leaves open. */
  lemma {:induction false} TakeAllAppend(r: Rules, a: Assembly, x: seq<Frame>, y: seq<Frame>)
    requires TakeAll(r, a, x).Ok? && TakeAll(r, TakeAll(r, a, x).value.1, y).Ok?
    ensures var front := TakeAll(r, a, x).value;
            var back := TakeAll(r, front.1, y).value;
            TakeAll(r, a, x + y) == Ok((front.0 + back.0, back.1))
    decreases |x|
  {
    if |x| == 0 {
      assert x + y == y;
      assert [] + TakeAll(r, a, y).value.0 == TakeAll(r, a, y).value.0;
    } else {
      assert (x + y)[1..] == x[1..] + y;
      var step := Take(r, a, x[0]);
      TakeAllAppend(r, step.next, x[1..], y);
      if step.Delivered? {
        var front := TakeAll(r, step.next, x[1..]).value;
        var back := TakeAll(r, front.1, y).value;
        assert [step.frame] + (front.0 + back.0) == ([step.frame] + front.0) + back.0;
      }
    }
  }

  // Streams of messages.

  /** A message and the frames it comes in, with control frames between and behind. */
  datatype Sent = Sent(opcode: nat, pieces: seq<Bytes>, frames: seq<Frame>)

  ghost predicate Sendable(r: Rules, m: Sent) {
    (m.opcode == 1 || m.opcode == 2) && |m.pieces| > 0 && Fragments(r, m.frames, m.opcode, m.pieces, true) &&
    (|m.pieces| > 1 ==> |Joined(m.pieces)| <= r.maxMessage) && (m.opcode == 1 ==> r.isText(Joined(m.pieces)))
  }

  function FramesOf(all: seq<Sent>): seq<Frame>
    decreases |all|
  {
    if |all| == 0 then [] else all[0].frames + FramesOf(all[1..])
  }

  function Said(all: seq<Sent>): (said: seq<(nat, Bytes)>)
    ensures |said| == |all| && forall i :: 0 <= i < |all| ==> said[i] == (all[i].opcode, Joined(all[i].pieces))
  {
    seq(|all|, i requires 0 <= i < |all| => (all[i].opcode, Joined(all[i].pieces)))
  }

  lemma {:induction false} Regroup<T>(a: seq<T>, b: seq<T>, c: seq<T>)
    ensures a + (b + c) == (a + b) + c
  {
  }

  lemma {:induction false} ShownCons(f: Frame, rest: seq<Frame>, y: seq<Frame>)
    requires Messages(rest + y) == Messages(rest) + Messages(y) && Controls(rest + y) == Controls(rest) + Controls(y)
    ensures var x := [f] + rest; Messages(x + y) == Messages(x) + Messages(y) && Controls(x + y) == Controls(x) + Controls(y)
  {
    FirstShows(f, rest);
    FirstShows(f, rest + y);
    Regroup([f], rest, y);
    Regroup([(f.opcode, f.payload)], Messages(rest), Messages(y));
    Regroup([f], Controls(rest), Controls(y));
  }

  lemma {:induction false} ShownAppend(x: seq<Frame>, y: seq<Frame>)
    ensures Messages(x + y) == Messages(x) + Messages(y) && Controls(x + y) == Controls(x) + Controls(y)
    decreases |x|
  {
    if |x| == 0 {
      assert x + y == y;
    } else {
      ShownAppend(x[1..], y);
      ShownCons(x[0], x[1..], y);
      assert x == [x[0]] + x[1..];
    }
  }

  lemma {:induction false} SaidFirst(all: seq<Sent>)
    requires |all| > 0
    ensures Said(all) == [(all[0].opcode, Joined(all[0].pieces))] + Said(all[1..])
  {
  }

  /** A whole stream of messages: the caller gets each of them, once, in order, and every control frame. */
  lemma {:induction false} MessagesArePutTogether(r: Rules, all: seq<Sent>)
    requires forall i :: 0 <= i < |all| ==> Sendable(r, all[i])
    ensures var result := TakeAll(r, Idle, FramesOf(all));
            result.Ok? && result.value.1 == Idle &&
            Messages(result.value.0) == Said(all) && Controls(result.value.0) == Controls(FramesOf(all))
    decreases |all|
  {
    if |all| > 0 {
      var x, y := all[0].frames, FramesOf(all[1..]);
      MessageIsPutTogether(r, x, all[0].opcode, all[0].pieces);
      MessagesArePutTogether(r, all[1..]);
      TakeAllAppend(r, Idle, x, y);
      ShownAppend(x, y);
      ShownAppend(TakeAll(r, Idle, x).value.0, TakeAll(r, Idle, y).value.0);
      SaidFirst(all);
    }
  }
}
