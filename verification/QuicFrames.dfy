/**
 * QUIC frames as octets: section 19 of RFC 9000. A packet's payload is a run of frames without
 * separators; what the parser keeps of what the serializer writes, and how padding is passed over.
 */
module QuicFrames {
  import opened Wrappers
  import opened Octets
  import opened BigEndians
  import opened QuicVarint
  import opened QuicAck

  const PADDING: nat := 0x00
  const PING: nat := 0x01
  const ACK: nat := 0x02
  const ACK_ECN: nat := 0x03
  const RESET_STREAM: nat := 0x04
  const STOP_SENDING: nat := 0x05
  const CRYPTO: nat := 0x06
  const NEW_TOKEN: nat := 0x07
  const STREAM_BASE: nat := 0x08
  const MAX_DATA: nat := 0x10
  const MAX_STREAM_DATA: nat := 0x11
  const MAX_STREAMS_BIDI: nat := 0x12
  const MAX_STREAMS_UNI: nat := 0x13
  const DATA_BLOCKED: nat := 0x14
  const STREAM_DATA_BLOCKED: nat := 0x15
  const STREAMS_BLOCKED_BIDI: nat := 0x16
  const STREAMS_BLOCKED_UNI: nat := 0x17
  const NEW_CONNECTION_ID: nat := 0x18
  const RETIRE_CONNECTION_ID: nat := 0x19
  const PATH_CHALLENGE: nat := 0x1A
  const PATH_RESPONSE: nat := 0x1B
  const CONNECTION_CLOSE: nat := 0x1C
  const CONNECTION_CLOSE_APP: nat := 0x1D
  const HANDSHAKE_DONE: nat := 0x1E

  datatype Frame =
    | Ping
    | HandshakeDone
    /** `first` is absent when no range was given; ECN counts are parsed but never written. */
    | Ack(largest: nat, delay: nat, first: Option<nat>, more: seq<(nat, nat)>, ecn: Option<(nat, nat, nat)>)
    | Crypto(offset: nat, data: Bytes)
    | Stream(sid: nat, offset: nat, data: Bytes, fin: bool)
    | Close(code: nat, reason: Bytes, frameType: nat, application: bool)
    | MaxData(maximum: nat)
    | MaxStreamData(sid: nat, maximum: nat)
    | MaxStreams(maximum: nat, bidirectional: bool)
    | Path(response: bool, data: Bytes)
    | DataBlocked(maximum: nat)
    | StreamDataBlocked(sid: nat, maximum: nat)
    | ResetStream(sid: nat, code: nat, finalSize: nat)
    | NewConnectionId(sequence: nat, retirePriorTo: nat, cid: Bytes, token: Bytes)

  datatype FrameError =
    | BadVarint(varint: VarintError)
    | RunsPastPacket
    | UnknownType(frameType: nat)

  // Writing.

  /** The shortest form of a number of at most 62 bits. */
  function Number(n: nat): Bytes {
    match EncodeVarint(n, None) case Err(_) => [] case Ok(octets) => octets
  }

  // As with Octets.At, the folds keep the writers and readers out of sight until they are asked for.

  /** The numbers of a frame in front of its octets. */
  function Numbers(ns: seq<nat>, folds: nat := 2): Bytes
    decreases |ns|, folds
  {
    if folds > 0 then Numbers(ns, folds - 1)
    else if |ns| == 0 then [] else Number(ns[0]) + Numbers(ns[1..])
  }

  lemma {:induction false} NumbersUnfold(ns: seq<nat>)
    ensures Numbers(ns) == if |ns| == 0 then [] else Number(ns[0]) + Numbers(ns[1..])
  {
    assert Numbers(ns, 1) == Numbers(ns, 0);
  }

  function Pairs(more: seq<(nat, nat)>): seq<nat>
    decreases |more|
  {
    if |more| == 0 then [] else [more[0].0, more[0].1] + Pairs(more[1..])
  }

  function StreamType(f: Frame): nat
    requires f.Stream?
  {
    STREAM_BASE + 2 + (if f.offset > 0 then 4 else 0) + (if f.fin then 1 else 0)
  }

  function FirstRange(f: Frame): nat
    requires f.Ack?
  {
    if f.first.Some? then f.first.value else 0
  }

  function OffsetNumbers(offset: nat): seq<nat> {
    if offset > 0 then [offset] else []
  }

  /** All numbers of a frame, its type first. */
  function NumbersOf(f: Frame, folds: nat := 2): seq<nat>
    decreases f, folds
  {
    if folds > 0 then NumbersOf(f, folds - 1) else Fields(f)
  }

  lemma {:induction false} NumbersOfUnfold(f: Frame)
    ensures NumbersOf(f) == Fields(f)
  {
    assert NumbersOf(f, 1) == NumbersOf(f, 0);
  }

  function Fields(f: Frame): seq<nat> {
    match f
    case Ping => [PING]
    case HandshakeDone => [HANDSHAKE_DONE]
    case Ack(largest, delay, _, more, _) => [ACK, largest, delay, |more|, FirstRange(f)] + Pairs(more)
    case Crypto(offset, data) => [CRYPTO, offset, |data|]
    case Stream(sid, offset, data, _) => [StreamType(f), sid] + OffsetNumbers(offset) + [|data|]
    case Close(code, reason, frameType, application) =>
      if application then [CONNECTION_CLOSE_APP, code, |reason|] else [CONNECTION_CLOSE, code, frameType, |reason|]
    case MaxData(maximum) => [MAX_DATA, maximum]
    case MaxStreamData(sid, maximum) => [MAX_STREAM_DATA, sid, maximum]
    case MaxStreams(maximum, bidirectional) => [if bidirectional then MAX_STREAMS_BIDI else MAX_STREAMS_UNI, maximum]
    case Path(response, _) => [if response then PATH_RESPONSE else PATH_CHALLENGE]
    case DataBlocked(maximum) => [DATA_BLOCKED, maximum]
    case StreamDataBlocked(sid, maximum) => [STREAM_DATA_BLOCKED, sid, maximum]
    case ResetStream(sid, code, finalSize) => [RESET_STREAM, sid, code, finalSize]
    case NewConnectionId(sequence, retirePriorTo, _, _) => [NEW_CONNECTION_ID, sequence, retirePriorTo]
  }

  /** The octets behind the numbers. */
  function Tail(f: Frame): Bytes {
    match f
    case Crypto(_, data) => data
    case Stream(_, _, data, _) => data
    case Close(_, reason, _, _) => reason
    case Path(_, data) => data
    case NewConnectionId(_, _, cid, token) => [|cid| % 256] + cid + token
    case _ => []
  }

  /** What the serializer does not refuse: numbers of 62 bits, and the fixed sizes. */
  predicate Writable(f: Frame) {
    (forall n :: n in NumbersOf(f) ==> n <= MAX_VARINT) && (f.Path? ==> |f.data| == 8) &&
    (f.Ack? && f.first.None? ==> f.more == []) && (f.NewConnectionId? ==> |f.cid| < 256 && |f.token| == 16)
  }

  function Serialize(f: Frame, folds: nat := 2): Bytes
    requires Writable(f)
    decreases f, folds
  {
    if folds > 0 then Serialize(f, folds - 1) else Numbers(NumbersOf(f)) + Tail(f)
  }

  lemma {:induction false} SerializeUnfolds(f: Frame)
    requires Writable(f)
    ensures Serialize(f) == Numbers(NumbersOf(f)) + Tail(f)
  {
    assert Serialize(f, 1) == Serialize(f, 0);
  }

  // Reading.

  function ReadNumber(data: Bytes, offset: nat): (r: Result<(nat, nat), FrameError>)
    ensures r.Ok? ==> offset < r.value.1 <= |data|
  {
    match DecodeVarint(data, offset)
    case Err(e) => Err(BadVarint(e))
    case Ok(v) => Ok(v)
  }

  function ReadOctets(data: Bytes, offset: nat, length: nat): (r: Result<(Bytes, nat), FrameError>)
    ensures r.Ok? ==> r.value.1 == offset + length <= |data|
  {
    if offset + length > |data| then Err(RunsPastPacket) else Ok((data[offset..offset + length], offset + length))
  }

  function ReadPairs(data: Bytes, offset: nat, count: nat): (r: Result<(seq<(nat, nat)>, nat), FrameError>)
    requires offset <= |data|
    ensures r.Ok? ==> offset <= r.value.1 <= |data|
    decreases count
  {
    if count == 0 then Ok(([], offset))
    else
      var (gap, o1) :- ReadNumber(data, offset);
      var (length, o2) :- ReadNumber(data, o1);
      var (rest, end) :- ReadPairs(data, o2, count - 1);
      Ok(([(gap, length)] + rest, end))
  }

  function ReadAck(data: Bytes, offset: nat, withEcn: bool): (r: Result<(Frame, nat), FrameError>)
    ensures r.Ok? ==> offset < r.value.1 <= |data|
  {
    var (largest, o1) :- ReadNumber(data, offset);
    var (delay, o2) :- ReadNumber(data, o1);
    var (count, o3) :- ReadNumber(data, o2);
    var (first, o4) :- ReadNumber(data, o3);
    var (more, o5) :- ReadPairs(data, o4, count);
    if !withEcn then Ok((Ack(largest, delay, Some(first), more, None), o5))
    else
      var (ect0, o6) :- ReadNumber(data, o5);
      var (ect1, o7) :- ReadNumber(data, o6);
      var (ce, o8) :- ReadNumber(data, o7);
      Ok((Ack(largest, delay, Some(first), more, Some((ect0, ect1, ce))), o8))
  }

  function ReadCrypto(data: Bytes, offset: nat): (r: Result<(Frame, nat), FrameError>)
    ensures r.Ok? ==> offset < r.value.1 <= |data|
  {
    var (at, o1) :- ReadNumber(data, offset);
    var (length, o2) :- ReadNumber(data, o1);
    var (piece, end) :- ReadOctets(data, o2, length);
    Ok((Crypto(at, piece), end))
  }

  /** Without a length the frame extends to the end of the packet. */
  function ReadStream(data: Bytes, offset: nat, flags: nat): (r: Result<(Frame, nat), FrameError>)
    ensures r.Ok? ==> offset < r.value.1 <= |data|
  {
    var (sid, o1) :- ReadNumber(data, offset);
    var (at, o2) :- if flags / 4 % 2 == 1 then ReadNumber(data, o1) else Ok((0, o1));
    var (length, o3) :- if flags / 2 % 2 == 1 then ReadNumber(data, o2) else Ok((|data| - o2, o2));
    var (piece, end) :- ReadOctets(data, o3, length);
    Ok((Stream(sid, at, piece, flags % 2 == 1), end))
  }

  function ReadClose(data: Bytes, offset: nat, application: bool): (r: Result<(Frame, nat), FrameError>)
    ensures r.Ok? ==> offset < r.value.1 <= |data|
  {
    var (code, o1) :- ReadNumber(data, offset);
    var (inner, o2) :- if application then Ok((0, o1)) else ReadNumber(data, o1);
    var (length, o3) :- ReadNumber(data, o2);
    var (reason, end) :- ReadOctets(data, o3, length);
    Ok((Close(code, reason, inner, application), end))
  }

  function ReadOne(data: Bytes, offset: nat): (r: Result<(nat, nat), FrameError>)
    ensures r.Ok? ==> offset < r.value.1 <= |data|
  {
    ReadNumber(data, offset)
  }

  function ReadTwo(data: Bytes, offset: nat): (r: Result<(nat, nat, nat), FrameError>)
    ensures r.Ok? ==> offset < r.value.2 <= |data|
  {
    var (a, o1) :- ReadNumber(data, offset);
    var (b, o2) :- ReadNumber(data, o1);
    Ok((a, b, o2))
  }

  function SkipConnectionId(data: Bytes, offset: nat): (r: Result<nat, FrameError>)
    ensures r.Ok? ==> offset < r.value <= |data|
  {
    var (_, _, o2) :- ReadTwo(data, offset);
    if o2 >= |data| then Err(RunsPastPacket)
    else
      var end := o2 + 1 + data[o2] + 16;
      if end > |data| then Err(RunsPastPacket) else Ok(end)
  }

  function SkipStreamControl(data: Bytes, offset: nat, reset: bool): (r: Result<nat, FrameError>)
    ensures r.Ok? ==> offset < r.value <= |data|
  {
    var (_, _, o2) :- ReadTwo(data, offset);
    if !reset then Ok(o2)
    else
      var (_, o3) :- ReadNumber(data, o2);
      Ok(o3)
  }

  function SkipZeros(data: Bytes, offset: nat): (next: nat)
    ensures offset <= next && (offset <= |data| ==> next <= |data|)
    decreases |data| - offset
  {
    if offset < |data| && data[offset] == 0 then SkipZeros(data, offset + 1) else offset
  }

  /** A frame that was read, if it is kept, and where the next one starts. */
  datatype Read = Read(frame: Option<Frame>, next: nat)

  function Keep(r: Result<(Frame, nat), FrameError>): (k: Result<Read, FrameError>)
    ensures k.Ok? ==> r.Ok? && k.value.next == r.value.1
  {
    match r case Err(e) => Err(e) case Ok((f, next)) => Ok(Read(Some(f), next))
  }

  function Skip(r: Result<nat, FrameError>): (k: Result<Read, FrameError>)
    ensures k.Ok? ==> r.Ok? && k.value.next == r.value
  {
    match r case Err(e) => Err(e) case Ok(next) => Ok(Read(None, next))
  }

  function SkipNumber(r: Result<(nat, nat), FrameError>): (k: Result<Read, FrameError>)
    ensures k.Ok? ==> r.Ok? && k.value.next == r.value.1
  {
    match r case Err(e) => Err(e) case Ok((_, next)) => Ok(Read(None, next))
  }

  /** A token's length is not checked against the packet. */
  function SkipToken(r: Result<(nat, nat), FrameError>): (k: Result<Read, FrameError>)
    ensures k.Ok? ==> r.Ok? && k.value.next >= r.value.1
  {
    match r case Err(e) => Err(e) case Ok((length, next)) => Ok(Read(None, next + length))
  }

  /** The body of a frame behind its type. */
  function ReadBody(data: Bytes, kind: nat, o: nat, folds: nat := 2): (r: Result<Read, FrameError>)
    requires o <= |data|
    ensures r.Ok? ==> o <= r.value.next
    decreases data, folds
  {
    if folds > 0 then ReadBody(data, kind, o, folds - 1) else BodyAt(data, kind, o)
  }

  lemma {:induction false} ReadBodyUnfolds(data: Bytes, kind: nat, o: nat)
    requires o <= |data|
    ensures ReadBody(data, kind, o) == BodyAt(data, kind, o)
  {
    assert ReadBody(data, kind, o, 1) == ReadBody(data, kind, o, 0);
  }

  function BodyAt(data: Bytes, kind: nat, o: nat): (r: Result<Read, FrameError>)
    requires o <= |data|
    ensures r.Ok? ==> o <= r.value.next
  {
    if kind == PADDING then Ok(Read(None, SkipZeros(data, o)))
    else if kind == PING then Ok(Read(Some(Ping), o))
    else if kind == HANDSHAKE_DONE then Ok(Read(Some(HandshakeDone), o))
    else if kind == ACK || kind == ACK_ECN then Keep(ReadAck(data, o, kind == ACK_ECN))
    else if kind == CRYPTO then Keep(ReadCrypto(data, o))
    else if STREAM_BASE <= kind <= STREAM_BASE + 7 then Keep(ReadStream(data, o, kind - STREAM_BASE))
    else if kind == CONNECTION_CLOSE || kind == CONNECTION_CLOSE_APP then Keep(ReadClose(data, o, kind == CONNECTION_CLOSE_APP))
    else if kind == MAX_DATA then (match ReadOne(data, o) case Err(e) => Err(e) case Ok((n, next)) => Ok(Read(Some(MaxData(n)), next)))
    else if kind == MAX_STREAM_DATA then (match ReadTwo(data, o) case Err(e) => Err(e) case Ok((a, b, next)) => Ok(Read(Some(MaxStreamData(a, b)), next)))
    else if kind == MAX_STREAMS_BIDI || kind == MAX_STREAMS_UNI then (match ReadOne(data, o) case Err(e) => Err(e) case Ok((n, next)) => Ok(Read(Some(MaxStreams(n, kind == MAX_STREAMS_BIDI)), next)))
    else if kind == PATH_CHALLENGE || kind == PATH_RESPONSE then
      match ReadOctets(data, o, 8)
      case Err(e) => Err(e)
      case Ok((piece, next)) => Ok(Read(Some(Path(kind == PATH_RESPONSE, piece)), next))
    else if kind == NEW_TOKEN then SkipToken(ReadOne(data, o))
    else if kind == NEW_CONNECTION_ID then Skip(SkipConnectionId(data, o))
    else if kind == RETIRE_CONNECTION_ID || kind == STREAMS_BLOCKED_BIDI || kind == STREAMS_BLOCKED_UNI then SkipNumber(ReadOne(data, o))
    else if kind == RESET_STREAM || kind == STOP_SENDING then Skip(SkipStreamControl(data, o, kind == RESET_STREAM))
    else if kind == DATA_BLOCKED then (match ReadOne(data, o) case Err(e) => Err(e) case Ok((n, next)) => Ok(Read(Some(DataBlocked(n)), next)))
    else if kind == STREAM_DATA_BLOCKED then (match ReadTwo(data, o) case Err(e) => Err(e) case Ok((a, b, next)) => Ok(Read(Some(StreamDataBlocked(a, b)), next)))
    else Err(UnknownType(kind))
  }

  function ReadFrame(data: Bytes, offset: nat, folds: nat := 2): (r: Result<Read, FrameError>)
    requires offset < |data|
    ensures r.Ok? ==> offset < r.value.next
    decreases data, folds
  {
    if folds > 0 then ReadFrame(data, offset, folds - 1)
    else
      match ReadNumber(data, offset)
      case Err(e) => Err(e)
      case Ok((kind, o)) => ReadBody(data, kind, o)
  }

  lemma {:induction false} ReadFrameUnfolds(data: Bytes, offset: nat)
    requires offset < |data|
    ensures ReadFrame(data, offset) ==
            match ReadNumber(data, offset) case Err(e) => Err(e) case Ok((kind, o)) => ReadBody(data, kind, o)
  {
    assert ReadFrame(data, offset, 1) == ReadFrame(data, offset, 0);
  }

  function With(frames: seq<Frame>, frame: Option<Frame>): seq<Frame> {
    if frame.Some? then frames + [frame.value] else frames
  }

  /** `parse_frames`: every octet string is either parsed or refused. */
  function Parse(data: Bytes, offset: nat, frames: seq<Frame>, folds: nat := 2): Result<seq<Frame>, FrameError>
    decreases |data| - offset, folds
  {
    if folds > 0 then Parse(data, offset, frames, folds - 1)
    else if offset >= |data| then Ok(frames)
    else
      match ReadFrame(data, offset)
      case Err(e) => Err(e)
      case Ok(Read(frame, next)) => Parse(data, next, With(frames, frame))
  }

  lemma {:induction false} ParseUnfolds(data: Bytes, offset: nat, frames: seq<Frame>)
    ensures Parse(data, offset, frames) ==
            if offset >= |data| then Ok(frames)
            else
              var read := ReadFrame(data, offset);
              if read.Err? then Err(read.error) else Parse(data, read.value.next, With(frames, read.value.frame))
  {
    assert Parse(data, offset, frames, 1) == Parse(data, offset, frames, 0);
  }

  // What is read of what was written.

  /** What the parser makes of a frame: some are passed over, and some fields are not on the wire. */
  function Kept(f: Frame, folds: nat := 2): Option<Frame>
    decreases f, folds
  {
    if folds > 0 then Kept(f, folds - 1) else KeptAs(f)
  }

  lemma {:induction false} KeptUnfolds(f: Frame)
    ensures Kept(f) == KeptAs(f)
  {
    assert Kept(f, 1) == Kept(f, 0);
  }

  function KeptAs(f: Frame): Option<Frame> {
    match f
    case ResetStream(_, _, _) => None
    case NewConnectionId(_, _, _, _) => None
    case Ack(largest, delay, _, more, _) => Some(Ack(largest, delay, Some(FirstRange(f)), more, None))
    case Close(code, reason, frameType, application) => Some(Close(code, reason, if application then 0 else frameType, application))
    case _ => Some(f)
  }

  /** A number in front of others is read, and the others follow. */
  lemma {:induction false} NumberIsRead(data: Bytes, o: nat, ns: seq<nat>, tail: Bytes) returns (o1: nat)
    requires |ns| > 0 && ns[0] <= MAX_VARINT && At(data, o, Numbers(ns) + tail)
    ensures ReadNumber(data, o) == Ok((ns[0], o1)) && At(data, o1, Numbers(ns[1..]) + tail)
    ensures o1 + |Numbers(ns[1..])| == o + |Numbers(ns)|
  {
    var first := Number(ns[0]);
    NumbersUnfold(ns);
    o1 := o + |first|;
    assert Numbers(ns) + tail == first + (Numbers(ns[1..]) + tail);
    AtSplit(data, o, first, Numbers(ns[1..]) + tail);
    ShortestIsShortest(ns[0], 1);
    EncodeVarintIsRead(ns[0], None, data, o);
  }

  lemma {:induction false} NothingBeforeTail(data: Bytes, o: nat, tail: Bytes)
    requires At(data, o, Numbers([]) + tail)
    ensures ReadOctets(data, o, |tail|) == Ok((tail, o + |tail|)) && At(data, o, tail)
  {
    NumbersUnfold([]);
    assert [] + tail == tail;
    AtIsSlice(data, o, tail);
  }

  /** Where the numbers of a frame end; the type is the first of them. */
  lemma {:induction false} TypeIsRead(data: Bytes, offset: nat, f: Frame) returns (o: nat)
    requires Writable(f) && At(data, offset, Serialize(f))
    ensures offset < |data| && o <= |data| && |NumbersOf(f)| > 0
    ensures ReadFrame(data, offset) == ReadBody(data, NumbersOf(f)[0], o)
    ensures At(data, o, Numbers(NumbersOf(f)[1..]) + Tail(f)) && o + |Numbers(NumbersOf(f)[1..])| + |Tail(f)| == offset + |Serialize(f)|
  {
    NumbersOfUnfold(f);
    assert NumbersOf(f)[0] in NumbersOf(f);
    SerializeUnfolds(f);
    o := NumberIsRead(data, offset, NumbersOf(f), Tail(f));
    ReadFrameUnfolds(data, offset);
  }

  lemma {:induction false} OneIsRead(data: Bytes, o: nat, a: nat, tail: Bytes) returns (o1: nat)
    requires a <= MAX_VARINT && At(data, o, Numbers([a]) + tail)
    ensures ReadNumber(data, o) == Ok((a, o1)) && At(data, o1, Numbers([]) + tail) && o1 == o + |Numbers([a])|
  {
    NumbersUnfold([]);
    o1 := NumberIsRead(data, o, [a], tail);
    assert [a][1..] == [];
  }

  lemma {:induction false} TwoAreRead(data: Bytes, o: nat, a: nat, b: nat, more: seq<nat>, tail: Bytes) returns (o1: nat, o2: nat)
    requires a <= MAX_VARINT && b <= MAX_VARINT && At(data, o, Numbers([a, b] + more) + tail)
    ensures ReadNumber(data, o) == Ok((a, o1)) && ReadNumber(data, o1) == Ok((b, o2))
    ensures At(data, o2, Numbers(more) + tail) && o2 + |Numbers(more)| == o + |Numbers([a, b] + more)|
  {
    var all := [a, b] + more;
    o1 := NumberIsRead(data, o, all, tail);
    assert all[1..][0] == b && all[1..][1..] == more;
    o2 := NumberIsRead(data, o1, all[1..], tail);
  }

  /** The frame is read up to its end. */
  ghost predicate IsRead(data: Bytes, offset: nat, f: Frame)
    requires Writable(f)
  {
    offset < |data| && ReadFrame(data, offset) == Ok(Read(Kept(f), offset + |Serialize(f)|))
  }

  /** The end of a frame that has been read up to `end`. */
  ghost predicate EndsAt(data: Bytes, f: Frame, o: nat, end: nat)
  {
    o <= |data| && |NumbersOf(f)| > 0 && ReadBody(data, NumbersOf(f)[0], o) == Ok(Read(Kept(f), end))
  }

  /** The rest of a frame behind its type. */
  ghost predicate RestAt(data: Bytes, o: nat, f: Frame, end: nat) {
    o <= |data| && |NumbersOf(f)| > 0 && At(data, o, Numbers(NumbersOf(f)[1..]) + Tail(f)) && end == o + |Numbers(NumbersOf(f)[1..])| + |Tail(f)|
  }

  lemma {:induction false} FrameEnds(data: Bytes, offset: nat, f: Frame, o: nat, end: nat)
    requires Writable(f) && offset < |data| && o <= |data| && |NumbersOf(f)| > 0
    requires ReadFrame(data, offset) == ReadBody(data, NumbersOf(f)[0], o)
    requires EndsAt(data, f, o, end) && end == offset + |Serialize(f)|
    ensures IsRead(data, offset, f)
  {
  }

  lemma {:induction false} BareBody(data: Bytes, o: nat, f: Frame)
    requires (f.Ping? || f.HandshakeDone? || f.Path?) && o <= |data| && ReadOctets(data, o, |Tail(f)|) == Ok((Tail(f), o + |Tail(f)|))
    requires f.Path? ==> |f.data| == 8
    ensures EndsAt(data, f, o, o + |Tail(f)|)
  {
    NumbersOfUnfold(f);
    ReadBodyUnfolds(data, NumbersOf(f)[0], o);
    KeptUnfolds(f);
  }

  lemma {:induction false} BareFrameRest(data: Bytes, o: nat, f: Frame, end: nat)
    requires Writable(f) && (f.Ping? || f.HandshakeDone? || f.Path?) && RestAt(data, o, f, end)
    ensures EndsAt(data, f, o, end)
  {
    NumbersOfUnfold(f);
    assert NumbersOf(f)[1..] == [];
    NumbersUnfold([]);
    NothingBeforeTail(data, o, Tail(f));
    BareBody(data, o, f);
  }

  lemma {:induction false} BareFrame(data: Bytes, offset: nat, f: Frame)
    requires Writable(f) && At(data, offset, Serialize(f)) && (f.Ping? || f.HandshakeDone? || f.Path?)
    ensures IsRead(data, offset, f)
  {
    var o := TypeIsRead(data, offset, f);
    BareFrameRest(data, o, f, offset + |Serialize(f)|);
    FrameEnds(data, offset, f, o, offset + |Serialize(f)|);
  }

  lemma {:induction false} OneNumberBody(data: Bytes, o: nat, f: Frame, o1: nat)
    requires (f.MaxData? || f.MaxStreams? || f.DataBlocked?) && o <= |data| && ReadNumber(data, o) == Ok((f.maximum, o1))
    ensures EndsAt(data, f, o, o1)
  {
    NumbersOfUnfold(f);
    ReadBodyUnfolds(data, NumbersOf(f)[0], o);
    KeptUnfolds(f);
  }

  lemma {:induction false} OneNumberFrameRest(data: Bytes, o: nat, f: Frame, end: nat)
    requires Writable(f) && (f.MaxData? || f.MaxStreams? || f.DataBlocked?) && RestAt(data, o, f, end)
    ensures EndsAt(data, f, o, end)
  {
    NumbersOfUnfold(f);
    assert NumbersOf(f)[1] in NumbersOf(f) && NumbersOf(f)[1..] == [f.maximum];
    var o1 := OneIsRead(data, o, f.maximum, []);
    OneNumberBody(data, o, f, o1);
  }

  lemma {:induction false} OneNumberFrame(data: Bytes, offset: nat, f: Frame)
    requires Writable(f) && At(data, offset, Serialize(f)) && (f.MaxData? || f.MaxStreams? || f.DataBlocked?)
    ensures IsRead(data, offset, f)
  {
    var o := TypeIsRead(data, offset, f);
    OneNumberFrameRest(data, o, f, offset + |Serialize(f)|);
    FrameEnds(data, offset, f, o, offset + |Serialize(f)|);
  }

  lemma {:induction false} TwoNumberBody(data: Bytes, o: nat, f: Frame, o1: nat, o2: nat)
    requires (f.MaxStreamData? || f.StreamDataBlocked?) && o <= |data|
    requires ReadNumber(data, o) == Ok((f.sid, o1)) && ReadNumber(data, o1) == Ok((f.maximum, o2))
    ensures EndsAt(data, f, o, o2)
  {
    NumbersOfUnfold(f);
    ReadBodyUnfolds(data, NumbersOf(f)[0], o);
    KeptUnfolds(f);
  }

  lemma {:induction false} TwoNumberFrameRest(data: Bytes, o: nat, f: Frame, end: nat)
    requires Writable(f) && (f.MaxStreamData? || f.StreamDataBlocked?) && RestAt(data, o, f, end)
    ensures EndsAt(data, f, o, end)
  {
    NumbersOfUnfold(f);
    assert NumbersOf(f)[1] in NumbersOf(f) && NumbersOf(f)[2] in NumbersOf(f);
    assert NumbersOf(f)[1..] == [f.sid, f.maximum] + [];
    var o1, o2 := TwoAreRead(data, o, f.sid, f.maximum, [], []);
    NumbersUnfold([]);
    TwoNumberBody(data, o, f, o1, o2);
  }

  lemma {:induction false} TwoNumberFrame(data: Bytes, offset: nat, f: Frame)
    requires Writable(f) && At(data, offset, Serialize(f)) && (f.MaxStreamData? || f.StreamDataBlocked?)
    ensures IsRead(data, offset, f)
  {
    var o := TypeIsRead(data, offset, f);
    TwoNumberFrameRest(data, o, f, offset + |Serialize(f)|);
    FrameEnds(data, offset, f, o, offset + |Serialize(f)|);
  }

  lemma {:induction false} CryptoBody(data: Bytes, o: nat, f: Frame, o1: nat, o2: nat)
    requires f.Crypto? && o <= |data| && ReadNumber(data, o) == Ok((f.offset, o1)) && ReadNumber(data, o1) == Ok((|f.data|, o2))
    requires ReadOctets(data, o2, |f.data|) == Ok((f.data, o2 + |f.data|))
    ensures EndsAt(data, f, o, o2 + |f.data|)
  {
    NumbersOfUnfold(f);
    ReadBodyUnfolds(data, NumbersOf(f)[0], o);
    KeptUnfolds(f);
  }

  lemma {:induction false} CryptoIsReadRest(data: Bytes, o: nat, f: Frame, end: nat)
    requires Writable(f) && f.Crypto? && RestAt(data, o, f, end)
    ensures EndsAt(data, f, o, end)
  {
    NumbersOfUnfold(f);
    assert NumbersOf(f)[1] in NumbersOf(f) && NumbersOf(f)[2] in NumbersOf(f);
    assert NumbersOf(f)[1..] == [f.offset, |f.data|] + [];
    var o1, o2 := TwoAreRead(data, o, f.offset, |f.data|, [], f.data);
    NumbersUnfold([]);
    NothingBeforeTail(data, o2, f.data);
    CryptoBody(data, o, f, o1, o2);
  }

  lemma {:induction false} CryptoIsRead(data: Bytes, offset: nat, f: Frame)
    requires Writable(f) && At(data, offset, Serialize(f)) && f.Crypto?
    ensures IsRead(data, offset, f)
  {
    var o := TypeIsRead(data, offset, f);
    CryptoIsReadRest(data, o, f, offset + |Serialize(f)|);
    FrameEnds(data, offset, f, o, offset + |Serialize(f)|);
  }

  lemma {:induction false} ResetBody(data: Bytes, o: nat, f: Frame, o1: nat, o2: nat, o3: nat)
    requires f.ResetStream? && o <= |data| && ReadNumber(data, o) == Ok((f.sid, o1)) && ReadNumber(data, o1) == Ok((f.code, o2))
    requires ReadNumber(data, o2) == Ok((f.finalSize, o3))
    ensures EndsAt(data, f, o, o3)
  {
    NumbersOfUnfold(f);
    ReadBodyUnfolds(data, NumbersOf(f)[0], o);
    KeptUnfolds(f);
  }

  lemma {:induction false} ResetIsSkippedRest(data: Bytes, o: nat, f: Frame, end: nat)
    requires Writable(f) && f.ResetStream? && RestAt(data, o, f, end)
    ensures EndsAt(data, f, o, end)
  {
    NumbersOfUnfold(f);
    assert NumbersOf(f)[1] in NumbersOf(f) && NumbersOf(f)[2] in NumbersOf(f) && NumbersOf(f)[3] in NumbersOf(f);
    assert NumbersOf(f)[1..] == [f.sid, f.code] + [f.finalSize];
    var o1, o2 := TwoAreRead(data, o, f.sid, f.code, [f.finalSize], []);
    var o3 := OneIsRead(data, o2, f.finalSize, []);
    ResetBody(data, o, f, o1, o2, o3);
  }

  lemma {:induction false} ResetIsSkipped(data: Bytes, offset: nat, f: Frame)
    requires Writable(f) && At(data, offset, Serialize(f)) && f.ResetStream?
    ensures IsRead(data, offset, f)
  {
    var o := TypeIsRead(data, offset, f);
    ResetIsSkippedRest(data, o, f, offset + |Serialize(f)|);
    FrameEnds(data, offset, f, o, offset + |Serialize(f)|);
  }

  lemma {:induction false} ConnectionIdBody(data: Bytes, o: nat, f: Frame, o1: nat, o2: nat)
    requires f.NewConnectionId? && o <= |data| && ReadNumber(data, o) == Ok((f.sequence, o1)) && ReadNumber(data, o1) == Ok((f.retirePriorTo, o2))
    requires o2 < |data| && data[o2] == |f.cid| && |f.token| == 16 && o2 + |Tail(f)| <= |data|
    ensures EndsAt(data, f, o, o2 + |Tail(f)|)
  {
    NumbersOfUnfold(f);
    ReadBodyUnfolds(data, NumbersOf(f)[0], o);
    KeptUnfolds(f);
  }

  lemma {:induction false} ConnectionIdIsSkippedRest(data: Bytes, o: nat, f: Frame, end: nat)
    requires Writable(f) && f.NewConnectionId? && RestAt(data, o, f, end)
    ensures EndsAt(data, f, o, end)
  {
    NumbersOfUnfold(f);
    assert NumbersOf(f)[1] in NumbersOf(f) && NumbersOf(f)[2] in NumbersOf(f);
    assert NumbersOf(f)[1..] == [f.sequence, f.retirePriorTo] + [];
    var o1, o2 := TwoAreRead(data, o, f.sequence, f.retirePriorTo, [], Tail(f));
    NumbersUnfold([]);
    NothingBeforeTail(data, o2, Tail(f));
    AtHead(data, o2, Tail(f));
    ConnectionIdBody(data, o, f, o1, o2);
  }

  lemma {:induction false} ConnectionIdIsSkipped(data: Bytes, offset: nat, f: Frame)
    requires Writable(f) && At(data, offset, Serialize(f)) && f.NewConnectionId?
    ensures IsRead(data, offset, f)
  {
    var o := TypeIsRead(data, offset, f);
    ConnectionIdIsSkippedRest(data, o, f, offset + |Serialize(f)|);
    FrameEnds(data, offset, f, o, offset + |Serialize(f)|);
  }

  lemma {:induction false} CloseBody(data: Bytes, o: nat, f: Frame, o1: nat, o2: nat, o3: nat)
    requires f.Close? && o <= |data| && ReadNumber(data, o) == Ok((f.code, o1))
    requires if f.application then o2 == o1 else ReadNumber(data, o1) == Ok((f.frameType, o2))
    requires ReadNumber(data, o2) == Ok((|f.reason|, o3)) && ReadOctets(data, o3, |f.reason|) == Ok((f.reason, o3 + |f.reason|))
    ensures EndsAt(data, f, o, o3 + |f.reason|)
  {
    NumbersOfUnfold(f);
    ReadBodyUnfolds(data, NumbersOf(f)[0], o);
    KeptUnfolds(f);
  }

  lemma {:induction false} CloseIsReadRest(data: Bytes, o: nat, f: Frame, end: nat)
    requires Writable(f) && f.Close? && RestAt(data, o, f, end)
    ensures EndsAt(data, f, o, end)
  {
    NumbersOfUnfold(f);
    assert NumbersOf(f)[1] in NumbersOf(f) && NumbersOf(f)[2] in NumbersOf(f);
    if f.application {
      assert NumbersOf(f)[1..] == [f.code, |f.reason|] + [];
      var o1, o2 := TwoAreRead(data, o, f.code, |f.reason|, [], f.reason);
      NumbersUnfold([]);
      NothingBeforeTail(data, o2, f.reason);
      CloseBody(data, o, f, o1, o1, o2);
    } else {
      assert NumbersOf(f)[3] in NumbersOf(f);
      assert NumbersOf(f)[1..] == [f.code, f.frameType] + [|f.reason|];
      var o1, o2 := TwoAreRead(data, o, f.code, f.frameType, [|f.reason|], f.reason);
      var o3 := OneIsRead(data, o2, |f.reason|, f.reason);
      NothingBeforeTail(data, o3, f.reason);
      CloseBody(data, o, f, o1, o2, o3);
    }
  }

  lemma {:induction false} CloseIsRead(data: Bytes, offset: nat, f: Frame)
    requires Writable(f) && At(data, offset, Serialize(f)) && f.Close?
    ensures IsRead(data, offset, f)
  {
    var o := TypeIsRead(data, offset, f);
    CloseIsReadRest(data, o, f, offset + |Serialize(f)|);
    FrameEnds(data, offset, f, o, offset + |Serialize(f)|);
  }

  lemma {:induction false} StreamIsReadRest(data: Bytes, o: nat, f: Frame, end: nat)
    requires Writable(f) && f.Stream? && RestAt(data, o, f, end)
    ensures EndsAt(data, f, o, end)
  {
    NumbersOfUnfold(f);
    assert NumbersOf(f)[1] in NumbersOf(f) && NumbersOf(f)[2] in NumbersOf(f);
    if f.offset > 0 {
      assert NumbersOf(f)[3] in NumbersOf(f);
      assert NumbersOf(f)[1..] == [f.sid, f.offset] + [|f.data|];
      var o1, o2 := TwoAreRead(data, o, f.sid, f.offset, [|f.data|], f.data);
      var o3 := OneIsRead(data, o2, |f.data|, f.data);
      NothingBeforeTail(data, o3, f.data);
      StreamParts(data, o, f, o1, o2, o3);
    } else {
      assert NumbersOf(f)[1..] == [f.sid, |f.data|] + [];
      var o1, o2 := TwoAreRead(data, o, f.sid, |f.data|, [], f.data);
      NumbersUnfold([]);
      NothingBeforeTail(data, o2, f.data);
      StreamParts(data, o, f, o1, o1, o2);
    }
  }

  lemma {:induction false} StreamIsRead(data: Bytes, offset: nat, f: Frame)
    requires Writable(f) && At(data, offset, Serialize(f)) && f.Stream?
    ensures IsRead(data, offset, f)
  {
    var o := TypeIsRead(data, offset, f);
    StreamIsReadRest(data, o, f, offset + |Serialize(f)|);
    FrameEnds(data, offset, f, o, offset + |Serialize(f)|);
  }

  lemma {:induction false} StreamParts(data: Bytes, o: nat, f: Frame, o1: nat, o2: nat, o3: nat)
    requires f.Stream? && ReadNumber(data, o) == Ok((f.sid, o1))
    requires if f.offset > 0 then ReadNumber(data, o1) == Ok((f.offset, o2)) else o2 == o1
    requires ReadNumber(data, o2) == Ok((|f.data|, o3)) && ReadOctets(data, o3, |f.data|) == Ok((f.data, o3 + |f.data|))
    requires o <= |data|
    ensures EndsAt(data, f, o, o3 + |f.data|)
  {
    NumbersOfUnfold(f);
    KeptUnfolds(f);
    ReadBodyUnfolds(data, StreamType(f), o);
    var flags := StreamType(f) - STREAM_BASE;
    assert flags / 4 % 2 == (if f.offset > 0 then 1 else 0) && flags / 2 % 2 == 1 && flags % 2 == (if f.fin then 1 else 0);
  }

  lemma {:induction false} PairsAreRead(data: Bytes, o: nat, more: seq<(nat, nat)>)
    requires (forall n :: n in Pairs(more) ==> n <= MAX_VARINT) && At(data, o, Numbers(Pairs(more)) + []) && o <= |data|
    ensures ReadPairs(data, o, |more|) == Ok((more, o + |Numbers(Pairs(more))|))
    decreases |more|
  {
    NumbersUnfold([]);
    if |more| > 0 {
      var rest := Pairs(more[1..]);
      assert Pairs(more) == [more[0].0, more[0].1] + rest;
      assert Pairs(more)[0] in Pairs(more) && Pairs(more)[1] in Pairs(more);
      forall n | n in rest
        ensures n <= MAX_VARINT
      {
        assert n in Pairs(more);
      }
      var o1, o2 := TwoAreRead(data, o, more[0].0, more[0].1, rest, []);
      PairsAreRead(data, o2, more[1..]);
      assert [(more[0].0, more[0].1)] + more[1..] == more;
    }
  }

  lemma {:induction false} AckIsReadRest(data: Bytes, o: nat, f: Frame, end: nat)
    requires Writable(f) && f.Ack? && RestAt(data, o, f, end)
    ensures EndsAt(data, f, o, end)
  {
    NumbersOfUnfold(f);
    var ns, pairs := NumbersOf(f), Pairs(f.more);
    assert ns[1] in ns && ns[2] in ns && ns[3] in ns && ns[4] in ns;
    assert ns[1..] == [f.largest, f.delay] + ([|f.more|, FirstRange(f)] + pairs);
    var o1, o2 := TwoAreRead(data, o, f.largest, f.delay, [|f.more|, FirstRange(f)] + pairs, []);
    var o3, o4 := TwoAreRead(data, o2, |f.more|, FirstRange(f), pairs, []);
    forall n | n in pairs
      ensures n <= MAX_VARINT
    {
      assert n in ns;
    }
    PairsAreRead(data, o4, f.more);
    AckParts(data, o, f, o1, o2, o3, o4, o4 + |Numbers(pairs)|);
  }

  lemma {:induction false} AckIsRead(data: Bytes, offset: nat, f: Frame)
    requires Writable(f) && At(data, offset, Serialize(f)) && f.Ack?
    ensures IsRead(data, offset, f)
  {
    var o := TypeIsRead(data, offset, f);
    AckIsReadRest(data, o, f, offset + |Serialize(f)|);
    FrameEnds(data, offset, f, o, offset + |Serialize(f)|);
  }

  lemma {:induction false} AckParts(data: Bytes, o: nat, f: Frame, o1: nat, o2: nat, o3: nat, o4: nat, end: nat)
    requires f.Ack? && o <= |data| && ReadNumber(data, o) == Ok((f.largest, o1)) && ReadNumber(data, o1) == Ok((f.delay, o2))
    requires ReadNumber(data, o2) == Ok((|f.more|, o3)) && ReadNumber(data, o3) == Ok((FirstRange(f), o4))
    requires o4 <= |data| && ReadPairs(data, o4, |f.more|) == Ok((f.more, end))
    ensures EndsAt(data, f, o, end)
  {
    NumbersOfUnfold(f);
    KeptUnfolds(f);
    ReadBodyUnfolds(data, ACK, o);
  }

  lemma {:induction false} FrameIsRead(data: Bytes, offset: nat, f: Frame)
    requires Writable(f) && At(data, offset, Serialize(f))
    ensures IsRead(data, offset, f)
  {
    match f
    case Ack(_, _, _, _, _) => AckIsRead(data, offset, f);
    case Crypto(_, _) => CryptoIsRead(data, offset, f);
    case Stream(_, _, _, _) => StreamIsRead(data, offset, f);
    case Close(_, _, _, _) => CloseIsRead(data, offset, f);
    case MaxStreamData(_, _) => TwoNumberFrame(data, offset, f);
    case StreamDataBlocked(_, _) => TwoNumberFrame(data, offset, f);
    case MaxData(_) => OneNumberFrame(data, offset, f);
    case MaxStreams(_, _) => OneNumberFrame(data, offset, f);
    case DataBlocked(_) => OneNumberFrame(data, offset, f);
    case ResetStream(_, _, _) => ResetIsSkipped(data, offset, f);
    case NewConnectionId(_, _, _, _) => ConnectionIdIsSkipped(data, offset, f);
    case _ => BareFrame(data, offset, f);
  }

  // Padding.

  /** A zero octet in front of anything changes nothing. */
  lemma {:induction false} ZeroIsPassedOver(data: Bytes, offset: nat, frames: seq<Frame>)
    requires offset < |data| && data[offset] == 0
    ensures Parse(data, offset, frames) == Parse(data, offset + 1, frames)
  {
    ParseUnfolds(data, offset, frames);
    ParseUnfolds(data, offset + 1, frames);
    ReadFrameUnfolds(data, offset);
    ZeroIsPadding(data, offset);
    ReadBodyUnfolds(data, PADDING, offset + 1);
    if offset + 1 < |data| && data[offset + 1] == 0 {
      ReadFrameUnfolds(data, offset + 1);
      ZeroIsPadding(data, offset + 1);
      ReadBodyUnfolds(data, PADDING, offset + 2);
    }
  }

  lemma {:induction false} ZeroIsPadding(data: Bytes, offset: nat)
    requires offset < |data| && data[offset] == 0
    ensures ReadNumber(data, offset) == Ok((PADDING, offset + 1))
  {
    VarintUnfolds(0, 1, data, offset);
    assert data[offset..offset + 1] == [0];
    assert FromBig([0]) == 0 by {
      assert [0][..0] == [];
    }
  }

  lemma {:induction false} ZerosArePassedOver(data: Bytes, offset: nat, count: nat, frames: seq<Frame>)
    requires offset + count <= |data| && forall i :: offset <= i < offset + count ==> data[i] == 0
    ensures Parse(data, offset, frames) == Parse(data, offset + count, frames)
    decreases count
  {
    if count > 0 {
      ZeroIsPassedOver(data, offset, frames);
      ZerosArePassedOver(data, offset + 1, count - 1, frames);
    }
  }

  // Packets.

  /** A payload: frames with any amount of padding before, between and behind them. */
  datatype Item = Padding(count: nat) | Framed(frame: Frame)

  function Zeros(count: nat): (z: Bytes)
    ensures |z| == count
  {
    seq(count, _ => 0)
  }

  ghost predicate AllWritable(items: seq<Item>) {
    forall i :: 0 <= i < |items| && items[i].Framed? ==> Writable(items[i].frame)
  }

  function Laid(item: Item): Bytes {
    match item
    case Padding(count) => Zeros(count)
    case Framed(f) => if Writable(f) then Serialize(f) else []
  }

  function Payload(items: seq<Item>): Bytes
    decreases |items|
  {
    if |items| == 0 then [] else Laid(items[0]) + Payload(items[1..])
  }

  function KeptOf(items: seq<Item>): seq<Frame>
    decreases |items|
  {
    if |items| == 0 then []
    else (if KeptItem(items[0]).Some? then [KeptItem(items[0]).value] else []) + KeptOf(items[1..])
  }

  function KeptItem(item: Item): Option<Frame> {
    if item.Framed? then Kept(item.frame) else None
  }

  lemma {:induction false} ItemIsParsed(data: Bytes, offset: nat, item: Item, frames: seq<Frame>)
    requires (item.Framed? ==> Writable(item.frame)) && At(data, offset, Laid(item))
    ensures Parse(data, offset, frames) == Parse(data, offset + |Laid(item)|, With(frames, KeptItem(item)))
  {
    if item.Padding? {
      AtIsSlice(data, offset, Zeros(item.count));
      assert forall i :: offset <= i < offset + item.count ==> data[i] == data[offset..offset + item.count][i - offset];
      ZerosArePassedOver(data, offset, item.count, frames);
    } else {
      FrameIsRead(data, offset, item.frame);
      ParseUnfolds(data, offset, frames);
    }
  }

  lemma {:induction false} PayloadFirst(data: Bytes, offset: nat, items: seq<Item>)
    requires |items| > 0 && At(data, offset, Payload(items))
    ensures At(data, offset, Laid(items[0])) && At(data, offset + |Laid(items[0])|, Payload(items[1..]))
    ensures |Payload(items)| == |Laid(items[0])| + |Payload(items[1..])|
  {
    AtSplit(data, offset, Laid(items[0]), Payload(items[1..]));
  }

  lemma {:induction false} KeptFirst(items: seq<Item>, frames: seq<Frame>)
    requires |items| > 0
    ensures With(frames, KeptItem(items[0])) + KeptOf(items[1..]) == frames + KeptOf(items)
  {
    var rest := KeptOf(items[1..]);
    if KeptItem(items[0]).Some? {
      assert KeptOf(items) == [KeptItem(items[0]).value] + rest;
    } else {
      assert KeptOf(items) == [] + rest;
    }
  }

  lemma {:induction false} PayloadIsParsedFrom(data: Bytes, offset: nat, items: seq<Item>, frames: seq<Frame>)
    requires AllWritable(items) && At(data, offset, Payload(items)) && offset + |Payload(items)| == |data|
    ensures Parse(data, offset, frames) == Ok(frames + KeptOf(items))
    decreases |items|
  {
    if |items| == 0 {
      ParseUnfolds(data, offset, frames);
      assert frames + [] == frames;
    } else {
      PayloadFirst(data, offset, items);
      ItemIsParsed(data, offset, items[0], frames);
      PayloadIsParsedFrom(data, offset + |Laid(items[0])|, items[1..], With(frames, KeptItem(items[0])));
      KeptFirst(items, frames);
    }
  }

  /** What is parsed of a payload is its frames, in order, wherever padding stands. */
  lemma {:induction false} PayloadIsParsed(items: seq<Item>)
    requires AllWritable(items)
    ensures Parse(Payload(items), 0, []) == Ok(KeptOf(items))
  {
    AtStart(Payload(items));
    PayloadIsParsedFrom(Payload(items), 0, items, []);
    assert [] + KeptOf(items) == KeptOf(items);
  }

  // The loops.

  /** `_parse_ack`. */
  method ParseAck(data: Bytes, offset: nat, withEcn: bool) returns (r: Result<(Frame, nat), FrameError>)
    ensures r == ReadAck(data, offset, withEcn)
  {
    var largest :- ReadNumber(data, offset);
    var delay :- ReadNumber(data, largest.1);
    var count :- ReadNumber(data, delay.1);
    var first :- ReadNumber(data, count.1);
    var more: seq<(nat, nat)>, o: nat := [], first.1;
    ghost var all := ReadPairs(data, first.1, count.0);
    assert all.Ok? ==> [] + all.value.0 == all.value.0;
    for i := 0 to count.0
      invariant o <= |data|
      invariant Continues(ReadPairs(data, first.1, count.0), more, ReadPairs(data, o, count.0 - i))
    {
      var gap :- ReadNumber(data, o);
      var length :- ReadNumber(data, gap.1);
      ghost var rest := ReadPairs(data, length.1, count.0 - i - 1);
      assert rest.Ok? ==> more + ([(gap.0, length.0)] + rest.value.0) == (more + [(gap.0, length.0)]) + rest.value.0;
      more, o := more + [(gap.0, length.0)], length.1;
    }
    assert more + [] == more;
    if !withEcn {
      return Ok((Ack(largest.0, delay.0, Some(first.0), more, None), o));
    }
    var ect0 :- ReadNumber(data, o);
    var ect1 :- ReadNumber(data, ect0.1);
    var ce :- ReadNumber(data, ect1.1);
    return Ok((Ack(largest.0, delay.0, Some(first.0), more, Some((ect0.0, ect1.0, ce.0))), ce.1));
  }

  /** The whole result is what has been read so far plus what is still to be read. */
  ghost predicate Continues(whole: Result<(seq<(nat, nat)>, nat), FrameError>, sofar: seq<(nat, nat)>,
                            rest: Result<(seq<(nat, nat)>, nat), FrameError>)
  {
    match rest
    case Err(e) => whole == Err(e)
    case Ok((more, end)) => whole == Ok((sofar + more, end))
  }

  /** `parse_frames`. */
  method ParseFrames(data: Bytes) returns (r: Result<seq<Frame>, FrameError>)
    ensures r == Parse(data, 0, [])
  {
    var offset: nat, frames: seq<Frame> := 0, [];
    while offset < |data|
      invariant Parse(data, offset, frames) == Parse(data, 0, [])
      decreases |data| - offset
    {
      ParseUnfolds(data, offset, frames);
      ReadFrameUnfolds(data, offset);
      var kind :- ReadNumber(data, offset);
      if kind.0 == PADDING {
        ReadBodyUnfolds(data, PADDING, kind.1);
        offset := SwallowZeros(data, kind.1);
        continue;
      }
      var body :- ReadBody(data, kind.0, kind.1);
      frames, offset := With(frames, body.frame), body.next;
    }
    ParseUnfolds(data, offset, frames);
    return Ok(frames);
  }

  method SwallowZeros(data: Bytes, start: nat) returns (offset: nat)
    ensures offset == SkipZeros(data, start)
  {
    offset := start;
    while offset < |data| && data[offset] == 0
      invariant SkipZeros(data, offset) == SkipZeros(data, start)
      decreases |data| - offset
    {
      offset := offset + 1;
    }
  }

  /** `serialize_frames`: what it joins is a payload without padding. */
  method SerializeFrames(frames: seq<Frame>) returns (out: Bytes)
    requires forall f :: f in frames ==> Writable(f)
    ensures out == Payload(AsItems(frames))
  {
    out := [];
    for i := 0 to |frames|
      invariant out + Payload(AsItems(frames[i..])) == Payload(AsItems(frames))
    {
      var f := frames[i];
      assert f in frames;
      assert AsItems(frames[i..]) == [Framed(f)] + AsItems(frames[i + 1..]);
      assert AsItems(frames[i..])[1..] == AsItems(frames[i + 1..]);
      out := out + Serialize(f);
    }
    assert AsItems(frames[|frames|..]) == [] && out + [] == out;
  }

  function AsItems(frames: seq<Frame>): (items: seq<Item>)
    ensures |items| == |frames|
  {
    seq(|frames|, i requires 0 <= i < |frames| => Framed(frames[i]))
  }

  // Acknowledgements.

  /** Runs that end no lower than zero are no longer and no more than the numbers above it. */
  lemma {:induction false} RunsFit(smallest: int, more: seq<(nat, nat)>)
    requires Bottom(smallest, more) >= 0
    ensures |more| <= smallest && forall n :: n in Pairs(more) ==> n <= smallest
    decreases |more|
  {
    BottomFalls(smallest, more);
    if |more| > 0 {
      RunsFit(smallest - more[0].0 - 2 - more[0].1, more[1..]);
    }
  }

  /** The ranges of an ACK frame, as they are made of any packet numbers, come back as they were. */
  lemma {:induction false} AckSurvives(r: Ranges, delay: nat)
    requires r.largest <= MAX_VARINT && LowEnd(r) >= 0 && delay <= MAX_VARINT
    ensures var f := Ack(r.largest, delay, Some(r.first), r.more, None);
            Writable(f) && Parse(Payload([Framed(f)]), 0, []) == Ok([f])
  {
    var f := Ack(r.largest, delay, Some(r.first), r.more, None);
    NumbersOfUnfold(f);
    RunsFit(r.largest - r.first, r.more);
    BottomFalls(r.largest - r.first, r.more);
    forall n | n in NumbersOf(f)
      ensures n <= MAX_VARINT
    {
      if n in Pairs(r.more) {
      } else {
        assert n in [ACK, r.largest, delay, |r.more|, r.first];
      }
    }
    KeptUnfolds(f);
    var items := [Framed(f)];
    assert Writable(f) && AllWritable(items);
    PayloadIsParsed(items);
    assert items[1..] == [] && KeptItem(items[0]) == Some(f);
    assert KeptOf(items) == [f] + KeptOf([]) && KeptOf([]) == [];
    assert KeptOf(items) == [f];
  }
}
