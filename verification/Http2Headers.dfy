/**
 * Header blocks on the wire: split into HEADERS and CONTINUATION frames on one side, put
 * together and decoded on the other. Sections 4.3, 5.1.2, 6.2 and 6.10 of RFC 9113.
 */
module Http2Headers {
  import opened Wrappers
  import opened Octets
  import opened HpackTable
  import opened StaticTable
  import opened Hpack
  import opened HpackLockstep
  import opened HpackTurnover
  import opened StringLiteral
  import opened HpackInteger
  import HpackStatic

  datatype HeaderFrame =
    | HeadersFrame(sid: nat, payload: Bytes, endStream: bool, endHeaders: bool, padded: bool, priority: bool)
    | Continuation(sid: nat, payload: Bytes, endHeaders: bool)

  // Sending.

  /** The CONTINUATION frames for what the first frame leaves. */
  function Continuations(sid: nat, rest: Bytes, limit: nat): seq<HeaderFrame>
    requires limit > 0
    decreases |rest|
  {
    if |rest| == 0 then []
    else
      var n := if |rest| < limit then |rest| else limit;
      [Continuation(sid, rest[..n], |rest[n..]| == 0)] + Continuations(sid, rest[n..], limit)
  }

  /** `_send_header_block`. */
  function SplitBlock(sid: nat, block: Bytes, limit: nat, endStream: bool): seq<HeaderFrame>
    requires limit > 0
  {
    var n := if |block| < limit then |block| else limit;
    [HeadersFrame(sid, block[..n], endStream, |block[n..]| == 0, false, false)] + Continuations(sid, block[n..], limit)
  }

  function Joined(frames: seq<HeaderFrame>): Bytes
    decreases |frames|
  {
    if |frames| == 0 then [] else frames[0].payload + Joined(frames[1..])
  }

  /** One HEADERS frame, then CONTINUATION frames; only the last ends the block; each fits the limit. */
  ghost predicate IsBlockOf(frames: seq<HeaderFrame>, sid: nat, block: Bytes, limit: nat, endStream: bool) {
    && |frames| > 0 && frames[0].HeadersFrame? && frames[0].endStream == endStream
    && Joined(frames) == block
    && (forall i :: 0 <= i < |frames| ==> frames[i].sid == sid && |frames[i].payload| <= limit)
    && (forall i :: 0 < i < |frames| ==> frames[i].Continuation? && |frames[i].payload| > 0)
    && (forall i :: 0 <= i < |frames| ==> (frames[i].endHeaders <==> i == |frames| - 1))
  }

  lemma {:induction false} ContinuationsSpell(sid: nat, rest: Bytes, limit: nat)
    requires limit > 0
    ensures var frames := Continuations(sid, rest, limit);
            Joined(frames) == rest && (|frames| == 0 <==> |rest| == 0) &&
            forall i :: 0 <= i < |frames| ==>
              frames[i].Continuation? && frames[i].sid == sid && 0 < |frames[i].payload| <= limit &&
              (frames[i].endHeaders <==> i == |frames| - 1)
    decreases |rest|
  {
    if |rest| > 0 {
      var n := if |rest| < limit then |rest| else limit;
      ContinuationsSpell(sid, rest[n..], limit);
      assert rest[..n] + rest[n..] == rest;
      var first := Continuation(sid, rest[..n], |rest[n..]| == 0);
      JoinedFirst(first, Continuations(sid, rest[n..], limit));
    }
  }

  lemma {:induction false} JoinedFirst(first: HeaderFrame, more: seq<HeaderFrame>)
    ensures Joined([first] + more) == first.payload + Joined(more)
  {
    assert ([first] + more)[1..] == more;
  }

  /** Whatever the block and the limit, the frames are one block, and it is this one. */
  lemma {:induction false} SplitSpells(sid: nat, block: Bytes, limit: nat, endStream: bool)
    requires limit > 0
    ensures IsBlockOf(SplitBlock(sid, block, limit, endStream), sid, block, limit, endStream)
  {
    var n := if |block| < limit then |block| else limit;
    var first := HeadersFrame(sid, block[..n], endStream, |block[n..]| == 0, false, false);
    ContinuationsSpell(sid, block[n..], limit);
    JoinedFirst(first, Continuations(sid, block[n..], limit));
    assert block[..n] + block[n..] == block;
  }

  method SendHeaderBlock(sid: nat, block: Bytes, limit: nat, endStream: bool) returns (frames: seq<HeaderFrame>)
    requires limit > 0
    ensures frames == SplitBlock(sid, block, limit, endStream)
  {
    var n := if |block| < limit then |block| else limit;
    var rest := block[n..];
    frames := [HeadersFrame(sid, block[..n], endStream, |rest| == 0, false, false)];
    while |rest| > 0
      invariant frames + Continuations(sid, rest, limit) == SplitBlock(sid, block, limit, endStream)
      decreases |rest|
    {
      ghost var before := rest;
      var m := if |rest| < limit then |rest| else limit;
      var piece := rest[..m];
      rest := rest[m..];
      var frame := Continuation(sid, piece, |rest| == 0);
      assert frames + ([frame] + Continuations(sid, rest, limit)) == (frames + [frame]) + Continuations(sid, rest, limit);
      frames := frames + [frame];
    }
  }

  // Receiving.

  datatype Fault = ProtocolError | FrameSizeError | EnhanceYourCalm | CompressionError(error: HpackError)

  /** A block that is not finished: the stream, what has arrived, whether the stream ends with it. */
  datatype Open = Open(sid: nat, buffer: Bytes, endStream: bool)

  /** A request as the decoder hands it on; `None` when the list was too large. */
  datatype Request = Request(sid: nat, headers: Option<seq<Field>>, endStream: bool)

  datatype Intake = Intake(
    open: Option<Open>, live: set<nat>, lastId: nat, recentlyReset: set<nat>, decoder: Table,
    requests: seq<Request>, refused: seq<nat>)

  datatype Limits = Limits(maxStreams: nat, maxHeaderBytes: Option<nat>, ceiling: nat)

  datatype Intaken = Proceed(state: Intake) | Die(fault: Fault)

  function StripPadding(payload: Bytes, padded: bool): Result<Bytes, Fault> {
    if !padded then Ok(payload)
    else if |payload| == 0 || payload[0] > |payload| - 1 then Err(ProtocolError)
    else Ok(payload[1..|payload| - payload[0]])
  }

  function StripPriority(payload: Bytes, priority: bool): Result<Bytes, Fault> {
    if !priority then Ok(payload) else if |payload| < 5 then Err(FrameSizeError) else Ok(payload[5..])
  }

  predicate Oversized(buffer: Bytes, l: Limits) {
    l.maxHeaderBytes.Some? && |buffer| > l.maxHeaderBytes.value
  }

  /** `_finish_header_block`: a block on a stream that is not live is decoded and dropped. */
  function Finish(c: Coding, s: Intake, l: Limits, o: Open): Intaken
    requires Usable(c)
  {
    match DecodeBlock(c, s.decoder, l.ceiling, o.buffer, l.maxHeaderBytes)
    case Failed(e, _) => Die(CompressionError(e))
    case ListTooLarge(_, t) => Proceed(Answered(s.(open := None, decoder := t), Request(o.sid, None, o.endStream)))
    case Fields(headers, t) => Proceed(Answered(s.(open := None, decoder := t), Request(o.sid, Some(headers), o.endStream)))
  }

  function Answered(s: Intake, r: Request): Intake {
    if r.sid in s.live then s.(requests := s.requests + [r]) else s
  }

  function Arrived(c: Coding, s: Intake, l: Limits, o: Open, endHeaders: bool): Intaken
    requires Usable(c)
  {
    if Oversized(o.buffer, l) then Die(EnhanceYourCalm)
    else if endHeaders then Finish(c, s, l, o)
    else Proceed(s.(open := Some(o)))
  }

  predicate IsNew(s: Intake, sid: nat) {
    sid !in s.live && sid > s.lastId
  }

  /** `_on_headers`: a stream too many is refused before its block is looked at. */
  function OnHeaders(c: Coding, s: Intake, l: Limits, f: HeaderFrame): Intaken
    requires Usable(c) && f.HeadersFrame?
  {
    if s.open.Some? || f.sid % 2 == 0 then Die(ProtocolError)
    else if f.sid !in s.live && !IsNew(s, f.sid) && f.sid !in s.recentlyReset then Die(ProtocolError)
    else
      match StripPadding(f.payload, f.padded)
      case Err(e) => Die(e)
      case Ok(body) =>
        match StripPriority(body, f.priority)
        case Err(e) => Die(e)
        case Ok(piece) =>
          if IsNew(s, f.sid) && |s.live| >= l.maxStreams then Proceed(s.(refused := s.refused + [f.sid]))
          else
            var s' := if IsNew(s, f.sid) then s.(live := s.live + {f.sid}, lastId := f.sid) else s;
            Arrived(c, s', l, Open(f.sid, piece, f.endStream), f.endHeaders)
  }

  function OnContinuation(c: Coding, s: Intake, l: Limits, f: HeaderFrame): Intaken
    requires Usable(c) && f.Continuation?
  {
    match s.open
    case None => Die(ProtocolError)
    case Some(o) =>
      if f.sid != o.sid then Die(ProtocolError)
      else Arrived(c, s, l, o.(buffer := o.buffer + f.payload), f.endHeaders)
  }

  function OnFrame(c: Coding, s: Intake, l: Limits, f: HeaderFrame): Intaken
    requires Usable(c)
  {
    if f.HeadersFrame? then OnHeaders(c, s, l, f) else OnContinuation(c, s, l, f)
  }

  function OnFrames(c: Coding, s: Intake, l: Limits, frames: seq<HeaderFrame>): Intaken
    requires Usable(c)
    decreases |frames|
  {
    if |frames| == 0 then Proceed(s)
    else
      match OnFrame(c, s, l, frames[0])
      case Die(e) => Die(e)
      case Proceed(s') => OnFrames(c, s', l, frames[1..])
  }

  function Onward(c: Coding, step: Intaken, l: Limits, rest: seq<HeaderFrame>): Intaken
    requires Usable(c)
  {
    match step
    case Die(e) => Die(e)
    case Proceed(s') => OnFrames(c, s', l, rest)
  }

  // What the receiver makes of a block.

  /** Padding is taken off whatever its octets are. */
  lemma {:induction false} PaddingComesOff(piece: Bytes, padding: Bytes)
    requires |padding| < 256
    ensures StripPadding([|padding|] + piece + padding, true) == Ok(piece)
  {
    var all := [|padding|] + piece + padding;
    assert all[1..|all| - |padding|] == piece;
  }

  predicate Accepts(s: Intake, l: Limits, sid: nat) {
    sid % 2 == 1 && (sid in s.live || sid in s.recentlyReset || IsNew(s, sid)) && !(IsNew(s, sid) && |s.live| >= l.maxStreams)
  }

  /** The connection once a stream has been admitted. */
  function Admitted(s: Intake, sid: nat): Intake {
    if IsNew(s, sid) then s.(live := s.live + {sid}, lastId := sid) else s
  }

  lemma {:induction false} RestOfBlock(c: Coding, s: Intake, l: Limits, sid: nat, so: Bytes, rest: seq<HeaderFrame>, endStream: bool)
    requires Usable(c) && s.open == Some(Open(sid, so, endStream)) && |rest| > 0
    requires forall i :: 0 <= i < |rest| ==> rest[i].Continuation? && rest[i].sid == sid && (rest[i].endHeaders <==> i == |rest| - 1)
    requires !Oversized(so + Joined(rest), l)
    ensures OnFrames(c, s, l, rest) == Finish(c, s.(open := None), l, Open(sid, so + Joined(rest), endStream))
    decreases |rest|
  {
    var more := so + rest[0].payload;
    assert so + (rest[0].payload + Joined(rest[1..])) == more + Joined(rest[1..]);
    if |rest| == 1 {
      assert rest[1..] == [] && more + [] == more;
    } else {
      RestOfBlock(c, s.(open := Some(Open(sid, more, endStream))), l, sid, more, rest[1..], endStream);
    }
  }

  lemma {:induction false} FirstFrameArrives(c: Coding, s: Intake, l: Limits, f: HeaderFrame)
    requires Usable(c) && s.open.None? && f.HeadersFrame? && !f.padded && !f.priority && Accepts(s, l, f.sid)
    ensures OnFrame(c, s, l, f) == Arrived(c, Admitted(s, f.sid), l, Open(f.sid, f.payload, f.endStream), f.endHeaders)
  {
  }

  lemma {:induction false} FramesFromFirst(c: Coding, s: Intake, l: Limits, frames: seq<HeaderFrame>)
    requires Usable(c) && |frames| > 0
    ensures OnFrames(c, s, l, frames) ==
            Onward(c, OnFrame(c, s, l, frames[0]), l, frames[1..])
  {
  }

  /**
   * However a block was cut into frames, an admitted stream gives exactly the block to the
   * decoder, once, at its last frame.
   */
  lemma {:induction false} BlockIsRebuilt(c: Coding, s: Intake, l: Limits, frames: seq<HeaderFrame>, sid: nat, block: Bytes, limit: nat, endStream: bool)
    requires Usable(c) && s.open.None? && Accepts(s, l, sid) && !Oversized(block, l)
    requires IsBlockOf(frames, sid, block, limit, endStream) && !frames[0].padded && !frames[0].priority
    ensures OnFrames(c, s, l, frames) == Finish(c, Admitted(s, sid), l, Open(sid, block, endStream))
  {
    var s', first, rest := Admitted(s, sid), frames[0].payload, frames[1..];
    FirstFrameArrives(c, s, l, frames[0]);
    FramesFromFirst(c, s, l, frames);
    assert block == first + Joined(rest);
    if |rest| == 0 {
      assert first + [] == first;
      BlockEnds(c, s', l, Open(sid, first, endStream), rest);
    } else {
      var s1 := s'.(open := Some(Open(sid, first, endStream)));
      assert s1.(open := None) == s';
      RestOfBlock(c, s1, l, sid, first, rest, endStream);
    }
  }

  lemma {:induction false} BlockEnds(c: Coding, s: Intake, l: Limits, o: Open, rest: seq<HeaderFrame>)
    requires Usable(c) && |rest| == 0 && !Oversized(o.buffer, l)
    ensures Onward(c, Arrived(c, s, l, o, true), l, rest) == Finish(c, s, l, o)
  {
  }

  // The shared table.

  /** The peer's encoder and our decoder are in step. */
  ghost predicate InStep(s: Intake, e: EncoderState, l: Limits) {
    && s.open.None? && s.decoder == e.table && Sane(e.table)
    && (e.pending.Some? ==> e.pending.value <= l.ceiling && e.pending.value <= MAX_TABLE_SIZE)
  }

  /** What the peer's encoder makes of some headers, cut into frames in any way. */
  ghost predicate CarriesHeaders(c: Coding, e: EncoderState, headers: seq<Field>, huffman: bool, frames: seq<HeaderFrame>,
                                 sid: nat, limit: nat, endStream: bool)
    requires Usable(c)
  {
    IsBlockOf(frames, sid, EncodeBlock(c, e, headers, huffman).0, limit, endStream) && !frames[0].padded && !frames[0].priority
  }

  /** The list as the request gets it: not at all when it is over the limit. */
  function ListWithin(headers: seq<Field>, l: Limits): Option<seq<Field>> {
    if l.maxHeaderBytes.Some? && ListSize(headers) > l.maxHeaderBytes.value then None else Some(headers)
  }

  /** On an admitted stream the headers come back, when they are within the limit, and the tables stay in step anyway. */
  lemma {:induction false} HeadersComeBack(c: Coding, s: Intake, l: Limits, e: EncoderState, headers: seq<Field>, huffman: bool,
                                           frames: seq<HeaderFrame>, sid: nat, limit: nat, endStream: bool)
    requires ValidCoding(c) && InStep(s, e, l) && Accepts(s, l, sid)
    requires HpackLockstep.Acceptable(c, l.ceiling, SendBlock(headers, huffman, l.maxHeaderBytes))
    requires CarriesHeaders(c, e, headers, huffman, frames, sid, limit, endStream)
    requires !Oversized(EncodeBlock(c, e, headers, huffman).0, l)
    ensures var r, e' := OnFrames(c, s, l, frames), EncodeBlock(c, e, headers, huffman).1;
            r.Proceed? && InStep(r.state, e', l) &&
            (sid in Admitted(s, sid).live ==>
               r.state.requests == s.requests + [Request(sid, ListWithin(LowerNames(headers), l), endStream)])
  {
    var (block, e') := EncodeBlock(c, e, headers, huffman);
    BlockIsRebuilt(c, s, l, frames, sid, block, limit, endStream);
    BlockRoundTrip(c, e, l.ceiling, headers, huffman, l.maxHeaderBytes);
  }

  /** A stream too many leaves the block unread. */
  lemma {:induction false} RefusedBlockIsUnread(c: Coding, s: Intake, l: Limits, frames: seq<HeaderFrame>, sid: nat, block: Bytes,
                                                limit: nat, endStream: bool)
    requires Usable(c) && s.open.None? && sid % 2 == 1 && IsNew(s, sid) && |s.live| >= l.maxStreams
    requires IsBlockOf(frames, sid, block, limit, endStream) && !frames[0].padded && !frames[0].priority
    ensures OnFrames(c, s, l, frames) ==
            if |frames| == 1 then Proceed(s.(refused := s.refused + [sid])) else Die(ProtocolError)
  {
    FramesFromFirst(c, s, l, frames);
    if |frames| > 1 {
      FramesFromFirst(c, s.(refused := s.refused + [sid]), l, frames[1..]);
    }
  }

  /**
   * A refused stream keeps the connection alive and in step exactly when its block fits one
   * frame, no new table size is queued, and the fields insert nothing or restore the table.
   */
  lemma {:induction false} RefusalKeepsStepExactly(c: Coding, s: Intake, l: Limits, e: EncoderState, headers: seq<Field>, huffman: bool,
                                                   frames: seq<HeaderFrame>, sid: nat, limit: nat, endStream: bool)
    requires ValidCoding(c) && InStep(s, e, l) && sid % 2 == 1 && IsNew(s, sid) && |s.live| >= l.maxStreams
    requires HpackLockstep.Acceptable(c, l.ceiling, SendBlock(headers, huffman, l.maxHeaderBytes))
    requires CarriesHeaders(c, e, headers, huffman, frames, sid, limit, endStream)
    ensures var r, e' := OnFrames(c, s, l, frames), EncodeBlock(c, e, headers, huffman).1;
            (r.Proceed? && InStep(r.state, e', l)) <==>
            |frames| == 1 && SizeStands(e) && Restores(c, e.table, LowerNames(headers))
  {
    var (block, e') := EncodeBlock(c, e, headers, huffman);
    RefusedBlockIsUnread(c, s, l, frames, sid, block, limit, endStream);
    BlockRoundTrip(c, e, l.ceiling, headers, huffman, None);
    BlockKeepsTableExactly(c, e, headers, huffman);
  }

  /** For headers that fit the table together, it is exactly when none of them is new to the tables. */
  lemma {:induction false} SmallRefusalKeepsStepExactly(c: Coding, s: Intake, l: Limits, e: EncoderState, headers: seq<Field>, huffman: bool,
                                                        frames: seq<HeaderFrame>, sid: nat, limit: nat, endStream: bool)
    requires ValidCoding(c) && InStep(s, e, l) && sid % 2 == 1 && IsNew(s, sid) && |s.live| >= l.maxStreams
    requires HpackLockstep.Acceptable(c, l.ceiling, SendBlock(headers, huffman, l.maxHeaderBytes))
    requires CarriesHeaders(c, e, headers, huffman, frames, sid, limit, endStream)
    requires SizeOf(LowerNames(headers)) <= e.table.maxSize
    ensures var r, e' := OnFrames(c, s, l, frames), EncodeBlock(c, e, headers, huffman).1;
            (r.Proceed? && InStep(r.state, e', l)) <==>
            |frames| == 1 && SizeStands(e) && forall i :: 0 <= i < |headers| ==> !Inserts(c, e.table, LowerNames(headers)[i])
  {
    RefusalKeepsStepExactly(c, s, l, e, headers, huffman, frames, sid, limit, endStream);
    BlockKeepsTableExactly(c, e, headers, huffman);
    SmallBlockKeepsTableExactly(c, e, headers, huffman);
  }

  /** A refusal is harmless when each field is known, never indexed, or too large for an empty table. */
  lemma {:induction false} QuietRefusalKeepsStep(c: Coding, s: Intake, l: Limits, e: EncoderState, headers: seq<Field>, huffman: bool,
                                                 frames: seq<HeaderFrame>, sid: nat, limit: nat, endStream: bool)
    requires ValidCoding(c) && InStep(s, e, l) && sid % 2 == 1 && IsNew(s, sid) && |s.live| >= l.maxStreams
    requires HpackLockstep.Acceptable(c, l.ceiling, SendBlock(headers, huffman, l.maxHeaderBytes))
    requires CarriesHeaders(c, e, headers, huffman, frames, sid, limit, endStream)
    requires |frames| == 1 && SizeStands(e) && forall i :: 0 <= i < |headers| ==> Quiet(c, e.table, LowerNames(headers)[i])
    ensures var r, e' := OnFrames(c, s, l, frames), EncodeBlock(c, e, headers, huffman).1;
            r.Proceed? && InStep(r.state, e', l)
  {
    RefusalKeepsStepExactly(c, s, l, e, headers, huffman, frames, sid, limit, endStream);
    QuietFieldsKeepTable(c, e.table, LowerNames(headers), huffman);
    FieldsKeepTableExactly(c, e.table, LowerNames(headers), huffman);
  }

  /** It does go wrong: a refused request with one new field leaves the tables apart. */
  lemma {:induction false} RefusedNewFieldDesyncs(c: Coding, s: Intake, l: Limits, e: EncoderState, f: Field, huffman: bool,
                                                  frames: seq<HeaderFrame>, sid: nat, limit: nat, endStream: bool)
    requires ValidCoding(c) && InStep(s, e, l) && sid % 2 == 1 && IsNew(s, sid) && |s.live| >= l.maxStreams
    requires HpackLockstep.Acceptable(c, l.ceiling, SendBlock([f], huffman, l.maxHeaderBytes))
    requires CarriesHeaders(c, e, [f], huffman, frames, sid, limit, endStream)
    requires LowerName(f) == f && EntrySize(f) <= e.table.maxSize && Inserts(c, e.table, f)
    ensures var r := OnFrames(c, s, l, frames);
            !(r.Proceed? && InStep(r.state, EncodeBlock(c, e, [f], huffman).1, l))
  {
    assert LowerNames([f]) == [f];
    OneEntry(f);
    SmallRefusalKeepsStepExactly(c, s, l, e, [f], huffman, frames, sid, limit, endStream);
    assert Inserts(c, e.table, LowerNames([f])[0]);
  }

  /** A literal with short strings takes three octets and theirs. */
  lemma {:induction false} ShortLiteral(c: Coding, f: Field)
    requires Usable(c) && |f.name| < 100 && |f.value| < 100
    ensures |Literal(c, None, f, false, WithIndexing)| == 3 + |f.name| + |f.value|
  {
    TagsFit();
    IntegerUnfolds(0, [], 0, 6);
    ShortString(c.z, f.name);
    ShortString(c.z, f.value);
  }

  lemma {:induction false} ShortString(z: Compressor, raw: Bytes)
    requires |raw| < 100
    ensures |HpackString(z, raw, false)| == 1 + |raw|
  {
    TagsFit();
    StringsFit();
    EncodeStringUnfolds(z, raw, 7, 0, false);
    IntegerUnfolds(|raw|, [], 0, 7);
  }

  /** The first field of a connection, if its name is in no table. */
  lemma {:induction false} FirstField(c: Coding, f: Field)
    requires Usable(c) && |f.name| < 100 && |f.value| < 100 && LowerName(f) == f && !NeverIndex(f.name)
    requires StaticExact(c, f).None? && StaticByName(c, f.name).None?
    ensures var (block, e) := EncodeBlock(c, EncoderState(Table([], 4096), None), [f], false);
            |block| == 3 + |f.name| + |f.value| && e.table.entries == [f]
  {
    var t := Table([], 4096);
    assert LowerNames([f]) == [f] && [f][1..] == [];
    TableAfterField(c, t, f, false);
    OneEntry(f);
    assert [f] + [] == [f];
    assert EncodeFields(c, t.Add(f), [], false) == ([], t.Add(f));
    ShortLiteral(c, f);
  }

  /** Stream 3 is refused because stream 1 is still live; its one new field is in the encoder's table only. */
  ghost predicate ComesApart(c: Coding, f: Field)
    requires Usable(c)
  {
    var s := Intake(None, {1}, 1, {}, Table([], 4096), [], []);
    var (block, e) := EncodeBlock(c, EncoderState(Table([], 4096), None), [f], false);
    OnFrames(c, s, Limits(1, None, 4096), SplitBlock(3, block, 16384, true)) == Proceed(s.(refused := [3])) &&
    s.decoder.entries == [] && e.table.entries == [f]
  }

  lemma {:induction false} FirstRequestRefused(c: Coding, f: Field)
    requires Usable(c) && |f.name| < 100 && |f.value| < 100 && LowerName(f) == f && !NeverIndex(f.name)
    requires StaticExact(c, f).None? && StaticByName(c, f.name).None?
    ensures ComesApart(c, f)
  {
    var s := Intake(None, {1}, 1, {}, Table([], 4096), [], []);
    var (block, e) := EncodeBlock(c, EncoderState(Table([], 4096), None), [f], false);
    FirstField(c, f);
    SplitSpells(3, block, 16384, true);
    RefusedBlockIsUnread(c, s, Limits(1, None, 4096), SplitBlock(3, block, 16384, true), 3, block, 16384, true);
    assert s.refused + [3] == [3];
  }

  /** So it goes with new peers, the standard coding and a field named "x". */
  lemma {:induction false} RefusedRequestDesyncs()
    ensures ComesApart(HpackStatic.HpackCoding(), Field(Ascii("x"), []))
  {
    var f := Field(Ascii("x"), []);
    HpackStatic.ShortNamesAreNew(f);
    ShortNamesAreIndexed(f.name);
    FirstRequestRefused(HpackStatic.HpackCoding(), f);
  }
}
