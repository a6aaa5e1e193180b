/**
 * Reading WebSocket frames from a socket that may deliver any number of octets and time out
 * anywhere: what has been read of a frame is handed back and read again.
 */
module WebSocketReader {
  import opened Octets
  import opened WebSocketFrame

  datatype Chunk = Data(octets: Bytes) | TimedOut | EndOfStream

  /** A connection: what the peer sends in all, and how far it has been taken. */
  class Socket {
    const wire: Bytes
    var position: nat

    constructor (wire: Bytes)
      ensures this.wire == wire && position == 0
    {
      this.wire, position := wire, 0;
    }

    /** Any non-empty part of what is left, up to the size asked for, or a timeout; behind the last octet the end may be long in coming. */
    method Recv(size: nat) returns (c: Chunk)
      requires size > 0 && position <= |wire|
      modifies this
      ensures old(position) <= position <= |wire|
      ensures c.Data? ==> 0 < |c.octets| <= size && c.octets == wire[old(position)..position]
      ensures !c.Data? ==> position == old(position)
      ensures c.EndOfStream? ==> position == |wire|
    {
      if * {
        return TimedOut;
      }
      if position == |wire| {
        return EndOfStream;
      }
      var n: nat :| 0 < n <= size && position + n <= |wire|;
      c := Data(wire[position..position + n]);
      position := position + n;
    }
  }

  datatype Taken = Octets(octets: Bytes) | Stopped(timedOut: bool)

  datatype Outcome = Got(frame: Frame) | Timeout | Ended | Failed(fault: Fault)

  class FrameReader {
    const socket: Socket
    /** Octets handed back by a timeout, to be read again. */
    var pending: Bytes
    /** Octets read since the frame began. */
    var consumed: Bytes
    var receivedNew: bool
    /** Where the current frame starts on the wire. */
    ghost var start: nat

    /** Consumed and pending octets are what the socket gave of the current frame. */
    ghost predicate Valid()
      reads this, socket
    {
      start <= socket.position <= |socket.wire| && consumed + pending == socket.wire[start..socket.position]
    }

    /** Before a frame is attempted: what there is of it does not make it whole. */
    ghost predicate Ready(limit: nat)
      reads this, socket
    {
      Valid() && consumed == [] && Parse(pending, limit).Partial?
    }

    constructor (socket: Socket)
      requires socket.position <= |socket.wire|
      ensures this.socket == socket && start == socket.position && pending == [] && consumed == []
    {
      this.socket, pending, consumed, receivedNew := socket, [], [], false;
      start := socket.position;
    }

    method Recv(size: nat) returns (c: Chunk)
      requires Valid() && size > 0
      modifies this`pending, this`consumed, this`receivedNew, socket
      ensures Valid()
      ensures c.Data? ==> 0 < |c.octets| <= size && consumed == old(consumed) + c.octets
      ensures !c.Data? ==> consumed == old(consumed) && pending == old(pending) == []
      ensures c.EndOfStream? ==> socket.position == |socket.wire|
      ensures old(pending) != [] ==> c.Data? && socket.position == old(socket.position) && pending == old(pending)[|c.octets|..]
      ensures old(pending) == [] ==> pending == []
      ensures receivedNew == (old(receivedNew) || socket.position > old(socket.position))
      ensures socket.position >= old(socket.position)
    {
      if |pending| > 0 {
        var n := if size < |pending| then size else |pending|;
        c := Data(pending[..n]);
        assert consumed + pending == (consumed + pending[..n]) + pending[n..];
        pending := pending[n..];
      } else {
        assert consumed + [] == consumed;
        c := socket.Recv(size);
        if !c.Data? {
          return;
        }
        receivedNew := true;
        assert (consumed + c.octets) + [] == consumed + c.octets;
        assert socket.wire[start..socket.position] ==
               socket.wire[start..old(socket.position)] + socket.wire[old(socket.position)..socket.position];
      }
      consumed := consumed + c.octets;
    }

    /** What has been taken of the frame, and that nothing new is read while anything is pending. */
    twostate predicate Advanced()
      reads this, socket
    {
      && Valid() && old(consumed) <= consumed
      && socket.position >= old(socket.position) && receivedNew == (old(receivedNew) || socket.position > old(socket.position))
      && (pending != [] ==> socket.position == old(socket.position))
    }

    /** `recv_exact`. */
    method Exactly(n: nat) returns (t: Taken)
      requires Valid()
      modifies this`pending, this`consumed, this`receivedNew, socket
      ensures Advanced()
      ensures t.Octets? ==> |t.octets| == n && consumed == old(consumed) + t.octets
      ensures t.Stopped? ==> pending == [] && |consumed| < |old(consumed)| + n
      ensures t.Stopped? && !t.timedOut ==> socket.position == |socket.wire|
    {
      var data: Bytes := [];
      while |data| < n
        invariant Advanced() && |data| <= n && consumed == old(consumed) + data
        decreases n - |data|
      {
        var c := Recv(n - |data|);
        if !c.Data? {
          return Stopped(c.TimedOut?);
        }
        data := data + c.octets;
      }
      return Octets(data);
    }

    /** The header, the mask and the payload of a frame whose length is known. */
    method ReadBody(b1: Octet, length: nat) returns (o: Outcome)
      requires Valid()
      modifies this`pending, this`consumed, this`receivedNew, socket
      ensures Advanced()
      ensures o.Got? ==> ParseBody(consumed, |old(consumed)|, b1, length) == Complete(o.frame, |consumed|)
      ensures o.Timeout? || o.Ended? ==> pending == [] && |consumed| < |old(consumed)| + 4 + length
      ensures o.Ended? ==> socket.position == |socket.wire|
      ensures !o.Failed?
    {
      var mask := Exactly(4);
      if mask.Stopped? {
        return if mask.timedOut then Timeout else Ended;
      }
      var payload := Exactly(length);
      if payload.Stopped? {
        return if payload.timedOut then Timeout else Ended;
      }
      BodyOfPieces(old(consumed), mask.octets, payload.octets, b1);
      return Got(Frame(b1 >= 128, b1 % 16, Unmask(payload.octets, mask.octets), mask.octets));
    }

    /** What the outcome of reading says about the octets taken. */
    ghost predicate Tells(o: Outcome, limit: nat)
      reads this, socket
    {
      match o
      case Got(f) => Parse(consumed, limit) == Complete(f, |consumed|)
      case Failed(e) => Parse(consumed, limit) == Malformed(e)
      case Timeout => pending == [] && Parse(consumed, limit).Partial?
      case Ended => pending == [] && Parse(consumed, limit).Partial? && socket.position == |socket.wire|
    }

    /** `read_ws_frame_raw`. */
    method ReadFrame(limit: nat) returns (o: Outcome)
      requires Valid() && consumed == []
      modifies this`pending, this`consumed, this`receivedNew, socket
      ensures Advanced() && Tells(o, limit)
    {
      var header := Exactly(2);
      if header.Stopped? {
        return if header.timedOut then Timeout else Ended;
      }
      assert consumed == header.octets;
      var b1, b2 := header.octets[0], header.octets[1];
      var fault := HeaderFault(b1, b2);
      if fault.Some? {
        return Failed(fault.value);
      }
      var extension := Exactly(ExtensionOf(b2));
      if extension.Stopped? {
        return if extension.timedOut then Timeout else Ended;
      }
      assert consumed == header.octets + extension.octets;
      assert consumed[2..2 + ExtensionOf(b2)] == extension.octets;
      fault := LengthFault(b2, extension.octets);
      if fault.Some? {
        return Failed(fault.value);
      }
      var length := LengthOf(b2, extension.octets);
      fault := SizeFault(b1, length, limit);
      if fault.Some? {
        return Failed(fault.value);
      }
      ghost var front := consumed;
      o := ReadBody(b1, length);
      BodyDecides(front, consumed, limit, b1, b2, extension.octets);
    }

    /**
     * One attempt at a frame, as the receiving loop makes it: a timeout hands back what was read
     * of the frame, and a whole frame leaves nothing behind.
     */
    method Attempt(limit: nat) returns (o: Outcome)
      requires Ready(limit)
      modifies this, socket
      ensures old(start) <= start <= |socket.wire| && socket.position >= old(socket.position)
      ensures match o
              case Got(f) => Ready(limit) && pending == [] && Parse(socket.wire[old(start)..], limit) == Complete(f, start - old(start))
              case Timeout => Ready(limit) && start == old(start) && receivedNew == (socket.position > old(socket.position))
              case Ended => start == old(start) && socket.position == |socket.wire| && Parse(socket.wire[start..], limit).Partial?
              case Failed(e) => start == old(start) && Parse(socket.wire[start..], limit) == Malformed(e)
    {
      ghost var before := pending;
      Begin();
      o := ReadFrame(limit);
      ghost var rest := socket.wire[start..];
      assert rest[..socket.position - start] == socket.wire[start..socket.position];
      if o.Timeout? {
        Rollback();
      } else if o.Ended? {
        assert rest == consumed + [];
      } else {
        ParseOfPrefix(consumed, rest, limit);
      }
      if o.Got? {
        if pending != [] {
          PartialStaysPartial(consumed, before, pending, limit);
        }
        NextFrame();
      }
    }

    method Begin()
      modifies this`consumed, this`receivedNew
      ensures consumed == [] && !receivedNew
    {
      consumed, receivedNew := [], false;
    }

    method Rollback()
      requires Valid() && pending == []
      modifies this`pending, this`consumed
      ensures Valid() && pending == old(consumed) && consumed == []
    {
      pending := consumed + pending;
      assert pending == consumed;
      consumed := [];
    }

    /** The frame is done with: the next attempt starts where the socket stands, with nothing consumed. */
    method NextFrame()
      requires Valid() && pending == []
      modifies this`start, this`consumed
      ensures Valid() && start == old(start) + |old(consumed)| && consumed == [] && start == socket.position
    {
      start := start + |consumed|;
      consumed := [];
    }

    /**
     * Any number of attempts, with timeouts anywhere: the frames are those of the wire, in
     * order, and reading stops where the wire ends or goes wrong.
     */
    method ReceiveFrames(limit: nat, attempts: nat) returns (frames: seq<Frame>, last: Outcome)
      requires Ready(limit) && start == 0
      modifies this, socket
      ensures frames <= Frames(socket.wire, limit)
      ensures last.Ended? || last.Failed? ==> frames == Frames(socket.wire, limit)
    {
      frames, last := [], Timeout;
      ghost var all := Frames(socket.wire, limit);
      assert socket.wire[0..] == socket.wire && [] + all == all;
      for i := 0 to attempts
        invariant Ready(limit) && all == frames + Frames(socket.wire[start..], limit)
      {
        ghost var from := start;
        last := Attempt(limit);
        if last.Got? {
          assert socket.wire[from..][start - from..] == socket.wire[start..];
          assert frames + ([last.frame] + Frames(socket.wire[start..], limit)) == (frames + [last.frame]) + Frames(socket.wire[start..], limit);
          frames := frames + [last.frame];
        } else if !last.Timeout? {
          assert frames + [] == frames;
          return;
        }
      }
      last := Timeout;
    }
  }

  /** A frame that is whole without anything new was whole before, and then it would not be waited for. */
  lemma {:induction false} PartialStaysPartial(consumed: Bytes, before: Bytes, pending: Bytes, limit: nat)
    requires before == consumed + pending && Parse(before, limit).Partial?
    ensures Parse(consumed, limit).Partial?
  {
    if !Parse(consumed, limit).Partial? {
      ParseOfPrefix(consumed, before, limit);
    }
  }

  lemma {:induction false} BodyOfPieces(front: Bytes, mask: Bytes, payload: Bytes, b1: Octet)
    requires |mask| == 4
    ensures ParseBody(front + mask + payload, |front|, b1, |payload|) ==
            Complete(Frame(b1 >= 128, b1 % 16, Unmask(payload, mask), mask), |front + mask + payload|)
  {
    var data, start := front + mask + payload, |front|;
    assert data[start..start + 4] == mask && data[start + 4..start + 4 + |payload|] == payload;
  }

  /** Once header and length are sound, the body decides. */
  lemma {:induction false} BodyDecides(front: Bytes, data: Bytes, limit: nat, b1: Octet, b2: Octet, extension: Bytes)
    requires front == [b1, b2] + extension && |extension| == ExtensionOf(b2) && front <= data
    requires HeaderFault(b1, b2).None? && LengthFault(b2, extension).None? && SizeFault(b1, LengthOf(b2, extension), limit).None?
    ensures Parse(data, limit) == ParseBody(data, |front|, b1, LengthOf(b2, extension))
  {
    assert data[..|front|] == front && data[0] == b1 && data[1] == b2;
    assert data[2..2 + |extension|] == front[2..];
  }
}
