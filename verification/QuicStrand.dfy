/**
 * One QUIC stream seen from both ends: what its caller queued, what is still queued, what was
 * sent, and what a reader makes of any pieces that were ever built, arriving in any order.
 */
module QuicStrand {
  import opened Octets
  import opened QuicStreamBuffer

  /** A queued piece and whether the stream ends behind it. */
  datatype Chunk = Chunk(piece: Bytes, fin: bool)

  /** A STREAM frame's payload with its place in the stream. */
  datatype Piece = Piece(offset: nat, data: Bytes, fin: bool)

  /**
   * `built` holds every piece put into a packet. A piece whose packet was refused is in it
   * too: loss recovery has recorded its frame and may send it later, while the bytes also stay
   * queued and may be cut differently the next time. `late` says that something was queued after
   * the end, `hollow` where in the stream empty data was queued.
   */
  datatype Strand = Strand(
    queued: Bytes, ended: bool, resetCalled: bool, late: bool, hollow: set<nat>,
    live: seq<Chunk>, offset: nat, sent: seq<Piece>, built: set<Piece>)

  const NEW_STRAND := Strand([], false, false, false, {}, [], 0, [], {})

  // As with Octets.At, the folds keep these two recursions out of sight until they are asked for.

  function LiveBytes(live: seq<Chunk>, folds: nat := 2): Bytes
    decreases |live|, folds
  {
    if folds > 0 then LiveBytes(live, folds - 1)
    else if |live| == 0 then [] else live[0].piece + LiveBytes(live[1..])
  }

  function SentBytes(sent: seq<Piece>, folds: nat := 2): Bytes
    decreases |sent|, folds
  {
    if folds > 0 then SentBytes(sent, folds - 1)
    else if |sent| == 0 then [] else SentBytes(sent[..|sent| - 1]) + sent[|sent| - 1].data
  }

  lemma {:induction false} LiveBytesUnfolds(live: seq<Chunk>)
    ensures LiveBytes(live) == if |live| == 0 then [] else live[0].piece + LiveBytes(live[1..])
  {
    assert LiveBytes(live, 1) == LiveBytes(live, 0);
  }

  lemma {:induction false} SentBytesUnfolds(sent: seq<Piece>)
    ensures SentBytes(sent) == if |sent| == 0 then [] else SentBytes(sent[..|sent| - 1]) + sent[|sent| - 1].data
  {
    assert SentBytes(sent, 1) == SentBytes(sent, 0);
  }

  /** What holds of every stream on every run. */
  ghost predicate Conserved(st: Strand) {
    && st.offset == |SentBytes(st.sent)|
    && SentBytes(st.sent) + LiveBytes(st.live) <= st.queued
    && (!st.resetCalled ==> SentBytes(st.sent) + LiveBytes(st.live) == st.queued)
    && (forall i :: 0 <= i < |st.sent| ==> st.sent[i] in st.built && st.sent[i].offset == |SentBytes(st.sent[..i])|)
    && (forall p :: p in st.built ==> p.offset <= st.offset && PartOf(p.data, p.offset, st.queued))
  }

  function PlaceOf(st: Strand, i: nat): nat
    requires i <= |st.live|
  {
    st.offset + |LiveBytes(st.live[..i])|
  }

  ghost predicate HollowSent(st: Strand, o: nat) {
    exists i :: 0 <= i < |st.sent| && st.sent[i].data == [] && st.sent[i].offset == o
  }

  ghost predicate HollowLive(st: Strand, o: nat) {
    exists i :: 0 <= i < |st.live| && st.live[i].piece == [] && PlaceOf(st, i) == o
  }

  ghost predicate EndKnown(st: Strand) {
    (exists i :: 0 <= i < |st.sent| && st.sent[i].fin) || (exists i :: 0 <= i < |st.live| && st.live[i].fin)
  }

  /** An empty piece was queued as such; one with bytes is no shorter than the chunk still to be sent there. */
  ghost predicate BuiltTidy(st: Strand, p: Piece) {
    (p.fin ==> st.ended) && (p.data == [] ==> p.offset in st.hollow) &&
    (p.data != [] && p.offset == st.offset ==>
      if |st.live| > 0 then 0 < |st.live[0].piece| <= |p.data| else st.resetCalled)
  }

  /** A sent piece is no longer than any other piece with bytes built at its offset. */
  ghost predicate SentTidy(st: Strand, i: nat)
    requires i < |st.sent|
  {
    st.sent[i].offset + |st.sent[i].data| <= st.offset &&
    forall p :: p in st.built && p.data != [] && p.offset == st.sent[i].offset ==> |st.sent[i].data| <= |p.data|
  }

  ghost predicate LiveTidy(st: Strand, i: nat)
    requires i < |st.live|
  {
    (st.live[i].fin ==> st.ended) && (st.live[i].piece == [] ==> PlaceOf(st, i) in st.hollow)
  }

  /** Where empty pieces are, and that otherwise pieces cut anew only get shorter. */
  ghost predicate Tidy(st: Strand) {
    && (forall p :: p in st.built ==> BuiltTidy(st, p))
    && (forall i :: 0 <= i < |st.sent| ==> SentTidy(st, i))
    && (forall i :: 0 <= i < |st.live| ==> LiveTidy(st, i))
    && (forall o :: o in st.hollow ==> o <= |st.queued|)
    && (!st.resetCalled ==> forall o :: o in st.hollow ==> HollowSent(st, o) || HollowLive(st, o))
    && (!st.resetCalled && st.ended ==> EndKnown(st))
  }

  /** What holds besides while the caller never queues behind the end. */
  ghost predicate Orderly(st: Strand) {
    && (forall i :: 0 <= i < |st.live| ==> ChunkInOrder(st, i))
    && (forall i :: 0 <= i < |st.sent| ==> SentInOrder(st, i))
    && (forall p :: p in st.built ==> BuiltInOrder(st, p))
  }

  /** Only the last chunk may end the stream, and then it ends at what was queued. */
  ghost predicate ChunkInOrder(st: Strand, i: nat)
    requires i < |st.live|
  {
    st.live[i].fin ==> i == |st.live| - 1 && st.ended && |SentBytes(st.sent)| + |LiveBytes(st.live)| == |st.queued|
  }

  ghost predicate SentInOrder(st: Strand, i: nat)
    requires i < |st.sent|
  {
    st.sent[i].fin ==> i == |st.sent| - 1 && st.live == [] && st.ended
  }

  /** A built piece ends the stream only at its end. */
  ghost predicate BuiltInOrder(st: Strand, p: Piece) {
    p.fin ==> st.ended && p.offset + |p.data| == |st.queued|
  }

  ghost predicate StrandInv(st: Strand) {
    Conserved(st) && Tidy(st) && (!st.late ==> Orderly(st))
  }

  lemma {:induction false} NewStrandHolds()
    ensures StrandInv(NEW_STRAND) && ReaderInv(NEW_STRAND, NEW_READER)
  {
    LiveBytesUnfolds([]);
    SentBytesUnfolds([]);
  }

  // The changes a stream goes through.

  /** `queue_stream_data`: the chunks reach the live ones unless a reset stands in between. */
  function Queued(st: Strand, data: Bytes, fin: bool, chunks: seq<Chunk>): Strand {
    st.(queued := st.queued + data,
        late := st.late || st.ended,
        hollow := if data == [] then st.hollow + {|st.queued|} else st.hollow,
        ended := st.ended || fin,
        live := if st.resetCalled then st.live else st.live + chunks)
  }

  /** `reset_stream`: chunks not yet taken up for sending are dropped. */
  function ResetTo(st: Strand, left: nat): Strand
    requires left <= |st.live|
  {
    st.(resetCalled := true, live := st.live[..left])
  }

  /** The flow limits admit only the first `n` bytes of the first chunk. */
  function Split(st: Strand, n: nat): Strand
    requires |st.live| > 0 && n <= |st.live[0].piece|
  {
    var c := st.live[0];
    st.(live := [Chunk(c.piece[..n], false), Chunk(c.piece[n..], c.fin)] + st.live[1..])
  }

  function NextPiece(st: Strand): Piece
    requires |st.live| > 0
  {
    Piece(st.offset, st.live[0].piece, st.live[0].fin)
  }

  /** The first chunk was put into a packet that did not go out. */
  function Refuse(st: Strand): Strand
    requires |st.live| > 0
  {
    st.(built := st.built + {NextPiece(st)})
  }

  /** The first chunk went out. */
  function Send(st: Strand): Strand
    requires |st.live| > 0
  {
    st.(live := st.live[1..], offset := st.offset + |st.live[0].piece|,
        sent := st.sent + [NextPiece(st)], built := st.built + {NextPiece(st)})
  }

  // Bytes of concatenations.

  lemma {:induction false} LiveBytesAppend(a: seq<Chunk>, b: seq<Chunk>)
    ensures LiveBytes(a + b) == LiveBytes(a) + LiveBytes(b)
    decreases |a|
  {
    LiveBytesUnfolds(a);
    LiveBytesUnfolds(a + b);
    if |a| == 0 {
      assert a + b == b;
    } else {
      LiveBytesAppend(a[1..], b);
      assert (a + b)[1..] == a[1..] + b;
    }
  }

  lemma {:induction false} LiveBytesOfTwo(two: seq<Chunk>)
    requires |two| == 2
    ensures LiveBytes(two) == two[0].piece + two[1].piece
  {
    LiveBytesUnfolds(two);
    LiveBytesUnfolds(two[1..]);
    LiveBytesUnfolds([]);
    assert two[1..] == [two[1]] && two[1..][1..] == [];
  }

  lemma {:induction false} SentBytesSnoc(sent: seq<Piece>, p: Piece)
    ensures SentBytes(sent + [p]) == SentBytes(sent) + p.data
  {
    SentBytesUnfolds(sent + [p]);
    assert (sent + [p])[..|sent|] == sent;
  }

  /** The chunks `queue_stream_data` makes of a payload. */
  ghost predicate ChunksOf(chunks: seq<Chunk>, data: Bytes, fin: bool) {
    && |chunks| > 0 && LiveBytes(chunks) == data
    && (forall i :: 0 <= i < |chunks| ==> chunks[i].fin == (fin && i == |chunks| - 1))
    && (data == [] ==> |chunks| == 1)
    && (data != [] ==> forall i :: 0 <= i < |chunks| ==> chunks[i].piece != [])
  }

  lemma {:induction false} PartOfLonger(piece: Bytes, at: nat, whole: Bytes, more: Bytes)
    requires PartOf(piece, at, whole)
    ensures PartOf(piece, at, whole + more)
  {
    assert (whole + more)[at..at + |piece|] == whole[at..at + |piece|];
  }

  lemma {:induction false} QueuedKeepsInv(st: Strand, data: Bytes, fin: bool, chunks: seq<Chunk>)
    requires StrandInv(st) && ChunksOf(chunks, data, fin)
    ensures StrandInv(Queued(st, data, fin, chunks))
  {
    var st' := Queued(st, data, fin, chunks);
    LiveBytesAppend(st.live, chunks);
    assert SentBytes(st.sent) + (LiveBytes(st.live) + data) == (SentBytes(st.sent) + LiveBytes(st.live)) + data;
    forall p | p in st.built
      ensures PartOf(p.data, p.offset, st'.queued)
    {
      PartOfLonger(p.data, p.offset, st.queued, data);
    }
    QueuedKeepsTidy(st, data, fin, chunks);
    if !st'.late {
      QueuedKeepsOrder(st, data, fin, chunks);
    }
  }

  lemma {:induction false} PlacesAhead(live: seq<Chunk>, chunks: seq<Chunk>, i: nat)
    requires i <= |live| + |chunks|
    ensures (live + chunks)[..i] == if i <= |live| then live[..i] else live + chunks[..i - |live|]
    ensures LiveBytes((live + chunks)[..i]) ==
            if i <= |live| then LiveBytes(live[..i]) else LiveBytes(live) + LiveBytes(chunks[..i - |live|])
  {
    if i > |live| {
      LiveBytesAppend(live, chunks[..i - |live|]);
    }
  }

  lemma {:induction false} QueuedKeepsTidy(st: Strand, data: Bytes, fin: bool, chunks: seq<Chunk>)
    requires StrandInv(st) && ChunksOf(chunks, data, fin)
    ensures Tidy(Queued(st, data, fin, chunks))
  {
    var st' := Queued(st, data, fin, chunks);
    forall p | p in st'.built
      ensures BuiltTidy(st', p)
    {
      assert BuiltTidy(st, p);
    }
    forall i | 0 <= i < |st'.sent|
      ensures SentTidy(st', i)
    {
      assert SentTidy(st, i);
    }
    if !st.resetCalled {
      QueuedPlaces(st, data, fin, chunks);
      if fin {
        assert st'.live[|st'.live| - 1] == chunks[|chunks| - 1];
      } else if EndKnown(st) {
        assert forall i :: 0 <= i < |st.live| ==> st'.live[i] == st.live[i];
      }
    } else {
      assert forall i :: 0 <= i < |st.live| ==> LiveTidy(st, i) ==> LiveTidy(st', i);
    }
  }

  lemma {:induction false} QueuedPlaces(st: Strand, data: Bytes, fin: bool, chunks: seq<Chunk>)
    requires StrandInv(st) && ChunksOf(chunks, data, fin) && !st.resetCalled
    ensures var st' := Queued(st, data, fin, chunks);
            (forall i :: 0 <= i < |st'.live| ==> LiveTidy(st', i)) &&
            forall o :: o in st'.hollow ==> HollowSent(st', o) || HollowLive(st', o)
  {
    var st' := Queued(st, data, fin, chunks);
    var n := |st.live|;
    LiveBytesUnfolds([]);
    forall i | 0 <= i < |st'.live|
      ensures LiveTidy(st', i)
    {
      PlacesAhead(st.live, chunks, i);
      if i < n {
        assert LiveTidy(st, i);
      } else {
        assert st'.live[i] == chunks[i - n];
        assert chunks[..0] == [] && st.live[..n] == st.live;
      }
    }
    forall o | o in st'.hollow
      ensures HollowSent(st', o) || HollowLive(st', o)
    {
      if o in st.hollow {
        if HollowLive(st, o) {
          var i :| 0 <= i < n && st.live[i].piece == [] && PlaceOf(st, i) == o;
          PlacesAhead(st.live, chunks, i);
          assert st'.live[i].piece == [] && PlaceOf(st', i) == o;
        } else {
          var i :| 0 <= i < |st.sent| && st.sent[i].data == [] && st.sent[i].offset == o;
          assert st'.sent[i].data == [];
        }
      } else {
        PlacesAhead(st.live, chunks, n);
        assert st.live[..n] == st.live;
        LiveBytesUnfolds(chunks);
        assert chunks[0].piece == [];
        assert st'.live[n].piece == [] && PlaceOf(st', n) == o;
      }
    }
  }

  lemma {:induction false} QueuedKeepsOrder(st: Strand, data: Bytes, fin: bool, chunks: seq<Chunk>)
    requires StrandInv(st) && ChunksOf(chunks, data, fin) && !st.ended && !st.late
    requires LiveBytes(st.live + chunks) == LiveBytes(st.live) + data
    ensures Orderly(Queued(st, data, fin, chunks))
  {
    var st' := Queued(st, data, fin, chunks);
    forall i | 0 <= i < |st'.live|
      ensures ChunkInOrder(st', i)
    {
      if i < |st.live| {
        assert ChunkInOrder(st, i);
      }
    }
    forall i | 0 <= i < |st'.sent|
      ensures SentInOrder(st', i)
    {
      assert SentInOrder(st, i);
    }
    forall p | p in st'.built
      ensures BuiltInOrder(st', p)
    {
      assert BuiltInOrder(st, p);
    }
  }

  lemma {:induction false} ResetKeepsInv(st: Strand, left: nat)
    requires StrandInv(st) && left <= |st.live|
    ensures StrandInv(ResetTo(st, left))
  {
    var st' := ResetTo(st, left);
    assert st.live == st.live[..left] + st.live[left..];
    LiveBytesAppend(st.live[..left], st.live[left..]);
    assert SentBytes(st.sent) + (LiveBytes(st.live[..left]) + LiveBytes(st.live[left..])) ==
           (SentBytes(st.sent) + LiveBytes(st.live[..left])) + LiveBytes(st.live[left..]);
    ResetKeepsTidy(st, left);
    if !st'.late {
      forall i | 0 <= i < |st'.live|
        ensures ChunkInOrder(st', i)
      {
        assert ChunkInOrder(st, i);
        if st.live[i].fin {
          assert st.live[..left] == st.live;
        }
      }
      forall i | 0 <= i < |st'.sent|
        ensures SentInOrder(st', i)
      {
        assert SentInOrder(st, i);
      }
      forall p | p in st'.built
        ensures BuiltInOrder(st', p)
      {
        assert BuiltInOrder(st, p);
      }
    }
  }

  lemma {:induction false} ResetKeepsTidy(st: Strand, left: nat)
    requires StrandInv(st) && left <= |st.live|
    ensures Tidy(ResetTo(st, left))
  {
    var st' := ResetTo(st, left);
    forall p | p in st'.built
      ensures BuiltTidy(st', p)
    {
      assert BuiltTidy(st, p);
    }
    forall i | 0 <= i < |st'.sent|
      ensures SentTidy(st', i)
    {
      assert SentTidy(st, i);
    }
    forall i | 0 <= i < |st'.live|
      ensures LiveTidy(st', i)
    {
      assert LiveTidy(st, i) && st.live[..left][..i] == st.live[..i];
    }
  }

  lemma {:induction false} SplitKeepsBytes(st: Strand, n: nat, i: nat)
    requires |st.live| > 0 && 0 < n < |st.live[0].piece| && 0 < i <= |st.live|
    ensures LiveBytes(Split(st, n).live[..i + 1]) == LiveBytes(st.live[..i])
  {
    var c, some := st.live[0], st.live[..i];
    var two := [Chunk(c.piece[..n], false), Chunk(c.piece[n..], c.fin)];
    LiveBytesOfTwo(two);
    assert c.piece[..n] + c.piece[n..] == c.piece;
    LiveBytesAppend(two, some[1..]);
    LiveBytesUnfolds(some);
    assert Split(st, n).live[..i + 1] == two + some[1..];
  }

  lemma {:induction false} SplitKeepsInv(st: Strand, n: nat)
    requires StrandInv(st) && |st.live| > 0 && 0 < n < |st.live[0].piece|
    ensures StrandInv(Split(st, n))
  {
    var st' := Split(st, n);
    SplitKeepsBytes(st, n, |st.live|);
    assert st'.live[..|st.live| + 1] == st'.live && st.live[..|st.live|] == st.live;
    SplitKeepsTidy(st, n);
    if !st'.late {
      forall i | 0 <= i < |st'.live|
        ensures ChunkInOrder(st', i)
      {
        assert ChunkInOrder(st, if i < 2 then 0 else i - 1);
      }
      forall i | 0 <= i < |st'.sent|
        ensures SentInOrder(st', i)
      {
        assert SentInOrder(st, i);
      }
      forall p | p in st'.built
        ensures BuiltInOrder(st', p)
      {
        assert BuiltInOrder(st, p);
      }
    }
  }

  lemma {:induction false} SplitKeepsTidy(st: Strand, n: nat)
    requires StrandInv(st) && |st.live| > 0 && 0 < n < |st.live[0].piece|
    ensures Tidy(Split(st, n))
  {
    var st' := Split(st, n);
    forall p | p in st'.built
      ensures BuiltTidy(st', p)
    {
      assert BuiltTidy(st, p);
    }
    forall i | 0 <= i < |st'.sent|
      ensures SentTidy(st', i)
    {
      assert SentTidy(st, i);
    }
    forall i | 0 <= i < |st'.live|
      ensures LiveTidy(st', i)
    {
      assert LiveTidy(st, if i < 2 then 0 else i - 1);
      if i >= 2 {
        SplitKeepsBytes(st, n, i - 1);
      }
    }
    forall o | o in st'.hollow && !st.resetCalled
      ensures HollowSent(st', o) || HollowLive(st', o)
    {
      if HollowLive(st, o) {
        var i :| 0 <= i < |st.live| && st.live[i].piece == [] && PlaceOf(st, i) == o;
        SplitKeepsBytes(st, n, i);
        assert st'.live[i + 1].piece == [] && PlaceOf(st', i + 1) == o;
      } else {
        assert HollowSent(st, o);
      }
    }
    if i :| 0 <= i < |st.live| && st.live[i].fin {
      assert st'.live[i + 1].fin;
    }
  }

  lemma {:induction false} NextPieceIsPart(st: Strand)
    requires Conserved(st) && |st.live| > 0
    ensures PartOf(NextPiece(st).data, st.offset, st.queued)
    ensures LiveBytes(st.live) == st.live[0].piece + LiveBytes(st.live[1..])
  {
    LiveBytesUnfolds(st.live);
    var done, piece := SentBytes(st.sent), st.live[0].piece;
    var all := done + LiveBytes(st.live);
    assert all[|done|..|done| + |piece|] == piece;
    assert st.queued[|done|..|done| + |piece|] == all[|done|..|done| + |piece|];
  }

  /** The next piece fits in with those built before. */
  lemma {:induction false} NextPieceIsTidy(st: Strand)
    requires StrandInv(st) && |st.live| > 0
    ensures BuiltTidy(Refuse(st), NextPiece(st)) && (NextPiece(st).data == [] ==> st.offset in st.hollow)
    ensures forall i :: 0 <= i < |st.sent| ==> SentTidy(Refuse(st), i)
  {
    assert LiveTidy(st, 0);
    LiveBytesUnfolds(st.live[..0]);
    forall i | 0 <= i < |st.sent|
      ensures SentTidy(Refuse(st), i)
    {
      assert SentTidy(st, i);
    }
  }

  lemma {:induction false} RefuseKeepsInv(st: Strand)
    requires StrandInv(st) && |st.live| > 0
    ensures StrandInv(Refuse(st))
  {
    var st' := Refuse(st);
    NextPieceIsPart(st);
    RefuseKeepsTidy(st);
    if !st'.late {
      forall i | 0 <= i < |st'.live|
        ensures ChunkInOrder(st', i)
      {
        assert ChunkInOrder(st, i);
      }
      forall i | 0 <= i < |st'.sent|
        ensures SentInOrder(st', i)
      {
        assert SentInOrder(st, i);
      }
      forall p | p in st'.built
        ensures BuiltInOrder(st', p)
      {
        assert p in st.built ==> BuiltInOrder(st, p);
        FinEndsLive(st);
      }
    }
  }

  lemma {:induction false} RefuseKeepsTidy(st: Strand)
    requires StrandInv(st) && |st.live| > 0
    ensures Tidy(Refuse(st))
  {
    var st' := Refuse(st);
    NextPieceIsTidy(st);
    forall p | p in st'.built
      ensures BuiltTidy(st', p)
    {
      assert p in st.built ==> BuiltTidy(st, p);
    }
    forall i | 0 <= i < |st'.live|
      ensures LiveTidy(st', i)
    {
      assert LiveTidy(st, i);
    }
    forall o | o in st'.hollow && !st.resetCalled
      ensures HollowSent(st', o) || HollowLive(st', o)
    {
      if HollowLive(st, o) {
        var i :| 0 <= i < |st.live| && st.live[i].piece == [] && PlaceOf(st, i) == o;
        assert st'.live[i].piece == [] && PlaceOf(st', i) == o;
      } else {
        assert HollowSent(st, o);
      }
    }
  }

  /** When the first chunk ends the stream it is the only one. */
  lemma {:induction false} FinEndsLive(st: Strand)
    requires StrandInv(st) && !st.late && |st.live| > 0
    ensures st.live[0].fin ==> st.ended && |st.live| == 1 && st.offset + |st.live[0].piece| == |st.queued|
  {
    assert ChunkInOrder(st, 0);
    LiveBytesUnfolds(st.live);
    LiveBytesUnfolds(st.live[1..]);
  }

  lemma {:induction false} SendKeepsInv(st: Strand)
    requires StrandInv(st) && |st.live| > 0
    ensures StrandInv(Send(st))
  {
    var st' := Send(st);
    var p := NextPiece(st);
    NextPieceIsPart(st);
    SentBytesSnoc(st.sent, p);
    assert SentBytes(st'.sent) + LiveBytes(st'.live) == SentBytes(st.sent) + LiveBytes(st.live);
    forall i | 0 <= i < |st'.sent|
      ensures st'.sent[i] in st'.built && st'.sent[i].offset == |SentBytes(st'.sent[..i])|
    {
      assert st'.sent[..i] == st.sent[..i];
      assert i == |st.sent| ==> st.sent[..i] == st.sent;
    }
    SendKeepsTidy(st);
    if !st'.late {
      SendKeepsOrder(st);
    }
  }

  lemma {:induction false} SendShiftsPlaces(st: Strand, i: nat)
    requires i < |st.live|
    ensures PlaceOf(Send(st), i) == PlaceOf(st, i + 1)
  {
    LiveBytesUnfolds(st.live[..i + 1]);
    assert st.live[..i + 1][1..] == st.live[1..][..i];
  }

  lemma {:induction false} SendKeepsTidy(st: Strand)
    requires StrandInv(st) && |st.live| > 0
    ensures Tidy(Send(st))
  {
    var st' := Send(st);
    var next := NextPiece(st);
    NextPieceIsTidy(st);
    forall p | p in st'.built
      ensures BuiltTidy(st', p)
    {
      assert p in st.built ==> BuiltTidy(st, p);
      assert BuiltTidy(Refuse(st), next);
    }
    forall i | 0 <= i < |st'.sent|
      ensures SentTidy(st', i)
    {
      if i < |st.sent| {
        assert SentTidy(Refuse(st), i);
      } else {
        assert forall p :: p in st.built ==> BuiltTidy(st, p);
      }
    }
    forall i | 0 <= i < |st'.live|
      ensures LiveTidy(st', i)
    {
      assert LiveTidy(st, i + 1);
      SendShiftsPlaces(st, i);
    }
    SendKeepsHollow(st);
  }

  lemma {:induction false} SendKeepsHollow(st: Strand)
    requires StrandInv(st) && |st.live| > 0
    ensures !st.resetCalled ==> forall o :: o in st.hollow ==> HollowSent(Send(st), o) || HollowLive(Send(st), o)
    ensures EndKnown(st) ==> EndKnown(Send(st))
  {
    var st' := Send(st);
    assert st'.sent[|st.sent|] == NextPiece(st);
    assert forall i :: 0 <= i < |st.sent| ==> st'.sent[i] == st.sent[i];
    LiveBytesUnfolds(st.live[..0]);
    forall o | o in st.hollow && !st.resetCalled
      ensures HollowSent(st', o) || HollowLive(st', o)
    {
      if HollowLive(st, o) {
        var i :| 0 <= i < |st.live| && st.live[i].piece == [] && PlaceOf(st, i) == o;
        if i == 0 {
          assert st'.sent[|st.sent|].data == [] && st'.sent[|st.sent|].offset == o;
        } else {
          SendShiftsPlaces(st, i - 1);
          assert st'.live[i - 1].piece == [] && PlaceOf(st', i - 1) == o;
        }
      } else {
        var i :| 0 <= i < |st.sent| && st.sent[i].data == [] && st.sent[i].offset == o;
        assert st'.sent[i].data == [];
      }
    }
    if i :| 0 <= i < |st.live| && st.live[i].fin {
      assert if i == 0 then st'.sent[|st.sent|].fin else st'.live[i - 1].fin;
    }
  }

  lemma {:induction false} SendKeepsOrder(st: Strand)
    requires StrandInv(st) && |st.live| > 0 && !st.late
    requires SentBytes(Send(st).sent) + LiveBytes(Send(st).live) == SentBytes(st.sent) + LiveBytes(st.live)
    ensures Orderly(Send(st))
  {
    var st' := Send(st);
    FinEndsLive(st);
    forall i | 0 <= i < |st'.live|
      ensures ChunkInOrder(st', i)
    {
      assert ChunkInOrder(st, i + 1);
    }
    forall i | 0 <= i < |st'.sent|
      ensures SentInOrder(st', i)
    {
      assert i < |st.sent| ==> SentInOrder(st, i);
    }
    forall q | q in st'.built
      ensures BuiltInOrder(st', q)
    {
      assert q in st.built ==> BuiltInOrder(st, q);
    }
  }

  // The reader.

  /** A reader of the stream: its reassembly, all it delivered, the pieces that have arrived. */
  datatype Reader = Reader(buffer: Buffer, delivered: Bytes, arrived: set<Piece>)

  const NEW_READER := Reader(EMPTY, [], {})

  ghost function Arrive(rd: Reader, p: Piece): Reader {
    Reader(Add(rd.buffer, p.offset, p.data, p.fin), rd.delivered + Grown(rd.buffer, p.offset, p.data), rd.arrived + {p})
  }

  /** The reader holds or has delivered `n` bytes at `at`. */
  ghost predicate Has(b: Buffer, at: nat, n: nat) {
    at + n <= b.received || (at in b.pending && n <= |b.pending[at]|)
  }

  /** No piece built at `at` is shorter than `n`. */
  ghost predicate Shortest(built: set<Piece>, at: nat, n: nat) {
    forall q :: q in built && q.offset == at ==> n <= |q.data|
  }

  ghost predicate ReaderInv(st: Strand, rd: Reader) {
    && Ledger(rd.buffer) && rd.buffer.received <= |st.queued|
    && Agree(rd.buffer.pending, st.queued)
    && rd.delivered == st.queued[..rd.buffer.received]
    && rd.arrived <= st.built
    && (forall p, n: nat :: p in rd.arrived && Shortest(st.built, p.offset, n) ==> Has(rd.buffer, p.offset, n))
    && (forall p :: p in rd.arrived && p.offset == 0 ==> |p.data| <= rd.buffer.received)
    && (rd.buffer.finalSize.Some? <==> exists p :: p in rd.arrived && p.fin)
    && (rd.buffer.finalSize.Some? ==> st.ended && rd.buffer.finalSize.value <= |st.queued|)
    && (!st.late && rd.buffer.finalSize.Some? ==> rd.buffer.finalSize.value == |st.queued|)
  }

  lemma {:induction false} ArriveKeepsInv(st: Strand, rd: Reader, p: Piece)
    requires StrandInv(st) && ReaderInv(st, rd) && p in st.built
    ensures ReaderInv(st, Arrive(rd, p))
  {
    var rd' := Arrive(rd, p);
    ReadsOn(st, rd, p);
    forall q, n: nat | q in rd'.arrived && Shortest(st.built, q.offset, n)
      ensures Has(rd'.buffer, q.offset, n)
    {
      ArrivedStays(st, rd, p, q, n);
    }
    StartIsDelivered(st, rd, p);
    FinalSizeKnown(st, rd, p);
  }

  lemma {:induction false} ReadsOn(st: Strand, rd: Reader, p: Piece)
    requires StrandInv(st) && ReaderInv(st, rd) && p in st.built
    ensures var rd' := Arrive(rd, p);
            Ledger(rd'.buffer) && rd'.buffer.received <= |st.queued| && Agree(rd'.buffer.pending, st.queued) &&
            rd'.delivered == st.queued[..rd'.buffer.received]
  {
    AddKeepsLedger(rd.buffer, p.offset, p.data, p.fin);
    AddDeliversTheStream(rd.buffer, p.offset, p.data, p.fin, st.queued);
    GoesOn(st.queued, rd.buffer.received, Arrive(rd, p).buffer.received);
  }

  lemma {:induction false} GoesOn(whole: Bytes, from: nat, to: nat)
    requires from <= to <= |whole|
    ensures whole[..from] + whole[from..to] == whole[..to]
  {
  }

  lemma {:induction false} StartIsDelivered(st: Strand, rd: Reader, p: Piece)
    requires StrandInv(st) && ReaderInv(st, rd)
    ensures forall q :: q in Arrive(rd, p).arrived && q.offset == 0 ==> |q.data| <= Arrive(rd, p).buffer.received
  {
  }

  lemma {:induction false} ArrivedStays(st: Strand, rd: Reader, p: Piece, q: Piece, n: nat)
    requires StrandInv(st) && ReaderInv(st, rd) && p in st.built
    requires q in rd.arrived || q == p
    requires Shortest(st.built, q.offset, n)
    ensures Has(Arrive(rd, p).buffer, q.offset, n)
  {
    var b, b' := rd.buffer, Arrive(rd, p).buffer;
    AddKeepsLedger(b, p.offset, p.data, p.fin);
    var offered := Offered(b, p.offset, p.data);
    if q.offset == p.offset {
      assert n <= |p.data|;
      HeldOrPassed(b, p.offset, p.data, p.fin, p.offset);
    } else {
      assert Has(b, q.offset, n);
      if b.received < q.offset + n {
        HeldOrPassed(b, p.offset, p.data, p.fin, q.offset);
      }
    }
  }

  /** An offered piece is still held or has been passed. */
  lemma {:induction false} HeldOrPassed(b: Buffer, offset: nat, payload: Bytes, fin: bool, k: nat)
    requires Ledger(b) && k in Offered(b, offset, payload)
    ensures Has(Add(b, offset, payload, fin), k, |Offered(b, offset, payload)[k]|)
  {
    AddKeepsLedger(b, offset, payload, fin);
    var b' := Add(b, offset, payload, fin);
    if k <= b'.received {
      UncoveredMeansEnded(Offered(b, offset, payload), k, b'.received);
    }
  }

  lemma {:induction false} FinalSizeKnown(st: Strand, rd: Reader, p: Piece)
    requires StrandInv(st) && ReaderInv(st, rd) && p in st.built
    ensures var rd' := Arrive(rd, p);
            (rd'.buffer.finalSize.Some? <==> exists q :: q in rd'.arrived && q.fin) &&
            (rd'.buffer.finalSize.Some? ==> st.ended && rd'.buffer.finalSize.value <= |st.queued|) &&
            (!st.late && rd'.buffer.finalSize.Some? ==> rd'.buffer.finalSize.value == |st.queued|)
  {
    var rd' := Arrive(rd, p);
    if p.fin {
      assert p in rd'.arrived;
      assert BuiltTidy(st, p);
      if !st.late {
        assert BuiltInOrder(st, p);
      }
    } else if rd.buffer.finalSize.Some? {
      var q :| q in rd.arrived && q.fin;
      assert q in rd'.arrived;
    }
  }

  /** What a reader knows stays true when its stream goes on. */
  lemma {:induction false} ReaderUnmoved(st: Strand, st': Strand, rd: Reader)
    requires ReaderInv(st, rd) && st.queued <= st'.queued && st.built <= st'.built
    requires st.late ==> st'.late
    requires st'.queued != st.queued ==> !st.ended || st'.late
    requires st.ended ==> st'.ended
    ensures ReaderInv(st', rd)
  {
    var more := st'.queued[|st.queued|..];
    assert st'.queued == st.queued + more;
    forall k | k in rd.buffer.pending
      ensures PartOf(rd.buffer.pending[k], k, st'.queued)
    {
      PartOfLonger(rd.buffer.pending[k], k, st.queued, more);
    }
    assert st'.queued[..rd.buffer.received] == st.queued[..rd.buffer.received];
    forall p, n: nat | p in rd.arrived && Shortest(st'.built, p.offset, n)
      ensures Has(rd.buffer, p.offset, n)
    {
      assert Shortest(st.built, p.offset, n);
    }
  }

  // Delivery.

  lemma {:induction false} SentPieceAt(sent: seq<Piece>, x: nat) returns (i: nat)
    requires x < |SentBytes(sent)|
    requires forall i :: 0 <= i < |sent| ==> sent[i].offset == |SentBytes(sent[..i])|
    ensures i < |sent| && sent[i].offset <= x < sent[i].offset + |sent[i].data|
    decreases |sent|
  {
    SentBytesUnfolds(sent);
    var last := |sent| - 1;
    assert sent[last].offset == |SentBytes(sent[..last])|;
    if x >= sent[last].offset {
      i := last;
    } else {
      forall i | 0 <= i < last
        ensures sent[..last][i].offset == |SentBytes(sent[..last][..i])|
      {
        assert sent[..last][..i] == sent[..i];
      }
      i := SentPieceAt(sent[..last], x);
    }
  }

  /** Nothing empty was queued but at the very beginning or at the end. */
  ghost predicate Solid(st: Strand) {
    forall o :: o in st.hollow ==> o == 0 || o >= |st.queued|
  }

  lemma {:induction false} SentPieceHeld(st: Strand, rd: Reader, i: nat)
    requires StrandInv(st) && ReaderInv(st, rd) && Solid(st)
    requires i < |st.sent| && st.sent[i] in rd.arrived && st.sent[i].data != []
    ensures st.sent[i].offset + |st.sent[i].data| <= rd.buffer.received || Has(rd.buffer, st.sent[i].offset, |st.sent[i].data|)
  {
    var p := st.sent[i];
    assert SentTidy(st, i);
    if p.offset > 0 {
      forall q | q in st.built && q.offset == p.offset
        ensures |p.data| <= |q.data|
      {
        assert BuiltTidy(st, q);
      }
      assert Shortest(st.built, p.offset, |p.data|);
    }
  }

  /** Once every sent piece has arrived, everything sent has been delivered. */
  lemma {:induction false} AllArrivedAllDelivered(st: Strand, rd: Reader)
    requires StrandInv(st) && ReaderInv(st, rd) && Solid(st)
    requires forall i :: 0 <= i < |st.sent| ==> st.sent[i] in rd.arrived
    ensures st.offset <= rd.buffer.received
  {
    if rd.buffer.received < st.offset {
      var i := SentPieceAt(st.sent, rd.buffer.received);
      SentPieceHeld(st, rd, i);
    }
  }

  lemma {:induction false} EverythingIsSent(st: Strand)
    requires StrandInv(st) && st.live == [] && !st.resetCalled
    ensures SentBytes(st.sent) == st.queued && st.offset == |st.queued|
  {
    LiveBytesUnfolds(st.live);
    assert SentBytes(st.sent) + [] == SentBytes(st.sent);
  }

  /**
   * Delivery of a whole stream: everything queued has gone out, every piece that went out has
   * arrived at least once, among any others built and in any order. Then exactly the queued
   * bytes have been delivered, and the stream counts as complete exactly when it was ended.
   */
  lemma {:induction false} WholeStreamDelivered(st: Strand, rd: Reader)
    requires StrandInv(st) && ReaderInv(st, rd) && Solid(st)
    requires st.live == [] && !st.resetCalled
    requires forall i :: 0 <= i < |st.sent| ==> st.sent[i] in rd.arrived
    ensures rd.delivered == st.queued
    ensures rd.buffer.Complete() <==> st.ended
  {
    AllArrivedAllDelivered(st, rd);
    EverythingIsSent(st);
    assert st.queued[..rd.buffer.received] == st.queued;
    if st.ended {
      assert EndKnown(st);
      var i :| 0 <= i < |st.sent| && st.sent[i].fin;
      assert st.sent[i] in rd.arrived;
    }
  }

  // The condition is exact.

  ghost function ArriveAll(rd: Reader, order: seq<Piece>): Reader
    decreases |order|
  {
    if |order| == 0 then rd else ArriveAll(Arrive(rd, order[0]), order[1..])
  }

  lemma {:induction false} ArriveAllSnoc(rd: Reader, order: seq<Piece>)
    requires |order| > 0
    ensures ArriveAll(rd, order) == Arrive(ArriveAll(rd, order[..|order| - 1]), order[|order| - 1])
    decreases |order|
  {
    if |order| > 1 {
      ArriveAllSnoc(Arrive(rd, order[0]), order[1..]);
      assert order[1..][..|order| - 2] == order[..|order| - 1][1..];
    }
  }

  /** An order in which pieces of the stream may arrive, each sent one at least once. */
  ghost predicate Arrivals(st: Strand, order: seq<Piece>) {
    (forall p :: p in order ==> p in st.built) && forall i :: 0 <= i < |st.sent| ==> st.sent[i] in order
  }

  lemma {:induction false} ArriveAllKeepsInv(st: Strand, rd: Reader, order: seq<Piece>)
    requires StrandInv(st) && ReaderInv(st, rd) && forall p :: p in order ==> p in st.built
    ensures ReaderInv(st, ArriveAll(rd, order))
    ensures ArriveAll(rd, order).arrived == rd.arrived + set p | p in order
    decreases |order|
  {
    if |order| > 0 {
      ArriveKeepsInv(st, rd, order[0]);
      ArriveAllKeepsInv(st, Arrive(rd, order[0]), order[1..]);
      assert forall p :: p in order <==> p == order[0] || p in order[1..];
    }
  }

  /** A byte that is missing stays so as long as no piece brings it. */
  lemma {:induction false} StaysMissing(st: Strand, rd: Reader, order: seq<Piece>, x: nat)
    requires StrandInv(st) && ReaderInv(st, rd) && forall p :: p in order ==> p in st.built && !Brings(ArrivalOf(p), x)
    requires !Keeps(rd.buffer, x)
    ensures !Keeps(ArriveAll(rd, order).buffer, x)
    decreases |order|
  {
    if |order| > 0 {
      assert order[0] in order;
      ArriveKeepsInv(st, rd, order[0]);
      LossIsExact(rd.buffer, ArrivalOf(order[0]), x);
      StaysMissing(st, Arrive(rd, order[0]), order[1..], x);
    }
  }

  function ArrivalOf(p: Piece): Arrival {
    Arrival(p.offset, p.data, p.fin)
  }

  lemma {:induction false} SentInTurn(st: Strand, i: nat, j: nat)
    requires StrandInv(st) && i < j < |st.sent|
    ensures st.sent[i].offset + |st.sent[i].data| <= st.sent[j].offset
    decreases j
  {
    SentBytesUnfolds(st.sent[..j]);
    assert st.sent[..j][..j - 1] == st.sent[..j - 1];
    assert st.sent[j - 1].offset == |SentBytes(st.sent[..j - 1])| && st.sent[j].offset == |SentBytes(st.sent[..j])|;
    if i < j - 1 {
      SentInTurn(st, i, j - 1);
    }
  }

  /** Behind an empty piece inside the stream stands a piece with bytes at the same offset, alone in bringing them. */
  lemma {:induction false} ShadowedPiece(st: Strand, o: nat) returns (e: nat, i: nat)
    requires StrandInv(st) && st.live == [] && !st.resetCalled && o in st.hollow && o < |st.queued|
    ensures e < |st.sent| && st.sent[e].data == [] && st.sent[e].offset == o
    ensures i < |st.sent| && st.sent[i].data != [] && st.sent[i].offset == o
    ensures forall j :: 0 <= j < |st.sent| && j != i ==> !Brings(ArrivalOf(st.sent[j]), o)
  {
    EverythingIsSent(st);
    assert HollowSent(st, o);
    e :| 0 <= e < |st.sent| && st.sent[e].data == [] && st.sent[e].offset == o;
    i := SentPieceAt(st.sent, o);
    if i < e {
      SentInTurn(st, i, e);
    } else {
      SentInTurn(st, e, i);
    }
    forall j | 0 <= j < |st.sent| && j != i
      ensures !Brings(ArrivalOf(st.sent[j]), o)
    {
      if j < i {
        SentInTurn(st, j, i);
      } else {
        SentInTurn(st, i, j);
      }
    }
  }

  /** An empty piece inside the stream hides what follows it when it comes between that and what precedes it. */
  lemma {:induction false} EmptyPieceHides(st: Strand, o: nat) returns (order: seq<Piece>)
    requires StrandInv(st) && ReaderInv(st, NEW_READER) && st.live == [] && !st.resetCalled
    requires o in st.hollow && 0 < o < |st.queued|
    ensures Arrivals(st, order)
    ensures ArriveAll(NEW_READER, order).buffer.received <= o && ArriveAll(NEW_READER, order).delivered != st.queued
  {
    var e, i := ShadowedPiece(st, o);
    var rest := Others(st, e, i);
    order := [st.sent[i], st.sent[e]] + rest;
    assert order[1..][0] == st.sent[e] && order[1..][1..] == rest;
    var rd := EmptyTakesPlace(st, st.sent[i], st.sent[e]);
    StaysMissing(st, rd, rest, o);
    ArriveAllKeepsInv(st, NEW_READER, order);
    assert |st.queued[..ArriveAll(NEW_READER, order).buffer.received]| <= o;
  }

  lemma {:induction false} Others(st: Strand, e: nat, i: nat) returns (rest: seq<Piece>)
    requires StrandInv(st) && e < |st.sent| && i < |st.sent|
    ensures Arrivals(st, [st.sent[i], st.sent[e]] + rest)
    ensures forall p :: p in rest ==> exists j :: 0 <= j < |st.sent| && j != i && st.sent[j] == p
  {
    rest := st.sent[..i] + st.sent[i + 1..];
    var order := [st.sent[i], st.sent[e]] + rest;
    forall j | 0 <= j < |st.sent|
      ensures st.sent[j] in order
    {
      assert st.sent[j] == if j < i then order[j + 2] else if j == i then order[0] else order[j + 1];
    }
    forall p | p in rest
      ensures exists j :: 0 <= j < |st.sent| && j != i && st.sent[j] == p
    {
      var k :| 0 <= k < |rest| && rest[k] == p;
      assert st.sent[if k < i then k else k + 1] == p;
    }
    assert forall p :: p in order ==> p == st.sent[i] || p == st.sent[e] || p in rest;
  }

  lemma {:induction false} EmptyTakesPlace(st: Strand, full: Piece, empty: Piece) returns (rd: Reader)
    requires StrandInv(st) && ReaderInv(st, NEW_READER) && full in st.built && empty in st.built
    requires full.offset == empty.offset > 0 && empty.data == []
    ensures rd == Arrive(Arrive(NEW_READER, full), empty) && ReaderInv(st, rd) && !Keeps(rd.buffer, full.offset)
  {
    var rd1 := Arrive(NEW_READER, full);
    rd := Arrive(rd1, empty);
    ArriveKeepsInv(st, NEW_READER, full);
    ArriveKeepsInv(st, rd1, empty);
    assert rd.buffer.received == 0 && rd.buffer.pending == map[full.offset := []];
    assert forall k :: !CoversWith(rd.buffer.pending, k, full.offset);
  }

  /**
   * Bytes of a stream can be hidden by an order of arrival, although each piece that went out
   * has arrived, exactly when empty data was queued somewhere inside the stream.
   */
  lemma {:induction false} HiddenExactly(st: Strand)
    requires StrandInv(st) && ReaderInv(st, NEW_READER) && st.live == [] && !st.resetCalled
    ensures (forall order :: Arrivals(st, order) ==> ArriveAll(NEW_READER, order).delivered == st.queued) <==> Solid(st)
  {
    if Solid(st) {
      forall order | Arrivals(st, order)
        ensures ArriveAll(NEW_READER, order).delivered == st.queued
      {
        ArriveAllKeepsInv(st, NEW_READER, order);
        WholeStreamDelivered(st, ArriveAll(NEW_READER, order));
      }
    } else {
      var o :| o in st.hollow && 0 < o < |st.queued|;
      var order := EmptyPieceHides(st, o);
      assert Arrivals(st, order);
    }
  }
}
