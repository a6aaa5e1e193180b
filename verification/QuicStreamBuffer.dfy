/**
 * Reassembly of one direction of a QUIC stream from pieces that arrive early, late, twice
 * and overlapping: section 2.2 of RFC 9000.
 */
module QuicStreamBuffer {
  import opened Wrappers
  import opened Octets
  import opened SortedSets

  type Pieces = map<nat, Bytes>

  /** What the reassembly keeps, as a value. */
  datatype Buffer = Buffer(received: nat, highest: nat, pending: Pieces, pendingBytes: int, finalSize: Option<nat>) {
    predicate Complete() {
      finalSize.Some? && received >= finalSize.value
    }
  }

  const EMPTY: Buffer := Buffer(0, 0, map[], 0, None)

  ghost predicate IsMinKey(m: Pieces, k: nat) {
    k in m && forall j :: j in m ==> k <= j
  }

  lemma {:induction false} MinKeyExists(m: Pieces)
    requires |m| > 0
    ensures exists k :: IsMinKey(m, k)
    decreases |m|
  {
    var j :| j in m;
    var rest := m - {j};
    if |rest| == 0 {
      assert forall i :: i in m ==> i == j by {
        assert rest.Keys == m.Keys - {j};
      }
      assert IsMinKey(m, j);
    } else {
      MinKeyExists(rest);
      var k :| IsMinKey(rest, k);
      assert forall i :: i in m ==> i == j || i in rest;
      assert IsMinKey(m, if k < j then k else j);
    }
  }

  ghost function MinKey(m: Pieces): (k: nat)
    requires |m| > 0
    ensures IsMinKey(m, k)
  {
    MinKeyExists(m);
    var k :| IsMinKey(m, k);
    k
  }

  /** Bytes held, counted. As with Octets.At, the folds keep the recursion out of sight until it is asked for. */
  ghost function HeldBytes(m: Pieces, folds: nat := 2): nat
    decreases |m|, folds
  {
    if folds > 0 then HeldBytes(m, folds - 1)
    else if |m| == 0 then 0
    else |m[MinKey(m)]| + HeldBytes(m - {MinKey(m)})
  }

  lemma {:induction false} HeldBytesUnfolds(m: Pieces)
    ensures HeldBytes(m) == if |m| == 0 then 0 else |m[MinKey(m)]| + HeldBytes(m - {MinKey(m)})
  {
    assert HeldBytes(m, 1) == HeldBytes(m, 0);
  }

  lemma {:induction false} HeldBytesWithout(m: Pieces, k: nat)
    requires k in m
    ensures HeldBytes(m) == |m[k]| + HeldBytes(m - {k})
    decreases |m|
  {
    var j := MinKey(m);
    HeldBytesUnfolds(m);
    if j != k {
      HeldBytesWithout(m - {j}, k);
      HeldBytesWithout(m - {k}, j);
      assert (m - {j}) - {k} == (m - {k}) - {j};
    }
  }

  lemma {:induction false} HeldBytesWith(m: Pieces, k: nat, piece: Bytes)
    ensures HeldBytes(m[k := piece]) == HeldBytes(m) + |piece| - (if k in m then |m[k]| else 0)
  {
    HeldBytesWithout(m[k := piece], k);
    if k in m {
      HeldBytesWithout(m, k);
      assert m[k := piece] - {k} == m - {k};
    } else {
      assert m[k := piece] - {k} == m;
    }
  }

  /** What a held piece still adds once `received` bytes are delivered. */
  function Tail(piece: Bytes, at: nat, received: nat): Bytes
    requires at <= received
  {
    if received - at < |piece| then piece[received - at..] else []
  }

  /** The frontier once held pieces, lowest offset first, are delivered for as long as they touch it. */
  ghost function Frontier(received: nat, pending: Pieces, folds: nat := 2): (r: nat)
    ensures received <= r
    decreases |pending|, folds
  {
    if folds > 0 then Frontier(received, pending, folds - 1)
    else if |pending| == 0 || MinKey(pending) > received then received
    else
      var k := MinKey(pending);
      Frontier(received + |Tail(pending[k], k, received)|, pending - {k})
  }

  /** The bytes delivered on the way there. */
  ghost function Delivered(received: nat, pending: Pieces, folds: nat := 2): Bytes
    decreases |pending|, folds
  {
    if folds > 0 then Delivered(received, pending, folds - 1)
    else if |pending| == 0 || MinKey(pending) > received then []
    else
      var k := MinKey(pending);
      var tail := Tail(pending[k], k, received);
      tail + Delivered(received + |tail|, pending - {k})
  }

  lemma {:induction false} NothingTouches(received: nat, pending: Pieces)
    requires |pending| == 0 || MinKey(pending) > received
    ensures Frontier(received, pending) == received && Delivered(received, pending) == []
  {
    assert Frontier(received, pending, 1) == Frontier(received, pending, 0);
    assert Delivered(received, pending, 1) == Delivered(received, pending, 0);
  }

  lemma {:induction false} LowestTouches(received: nat, pending: Pieces)
    requires |pending| > 0 && MinKey(pending) <= received
    ensures var k := MinKey(pending);
            var tail := Tail(pending[k], k, received);
            Frontier(received, pending) == Frontier(received + |tail|, pending - {k}) &&
            Delivered(received, pending) == tail + Delivered(received + |tail|, pending - {k})
  {
    assert Frontier(received, pending, 1) == Frontier(received, pending, 0);
    assert Delivered(received, pending, 1) == Delivered(received, pending, 0);
  }

  lemma {:induction false} DeliveredReachesFrontier(received: nat, pending: Pieces)
    ensures received + |Delivered(received, pending)| == Frontier(received, pending)
    decreases |pending|
  {
    if |pending| == 0 || MinKey(pending) > received {
      NothingTouches(received, pending);
    } else {
      LowestTouches(received, pending);
      var k := MinKey(pending);
      DeliveredReachesFrontier(received + |Tail(pending[k], k, received)|, pending - {k});
    }
  }

  /** The pieces held above an offset. */
  function Above(m: Pieces, x: nat): Pieces {
    m - (set k | k in m && k <= x)
  }

  function FinalSize(b: Buffer, offset: nat, payload: Bytes, fin: bool): Option<nat> {
    if fin then Some(offset + |payload|) else b.finalSize
  }

  function Highest(b: Buffer, offset: nat, payload: Bytes): nat {
    if offset + |payload| > b.highest then offset + |payload| else b.highest
  }

  /** Where the frontier is once a piece has been added. */
  ghost function NextFrontier(b: Buffer, offset: nat, payload: Bytes): (r: nat)
    ensures b.received <= r
  {
    if offset > b.received then b.received
    else Frontier(b.received + |Tail(payload, offset, b.received)|, b.pending)
  }

  /** `add` of the program: the state behind it. */
  ghost function Add(b: Buffer, offset: nat, payload: Bytes, fin: bool): Buffer {
    if offset > b.received then
      var before := if offset in b.pending then |b.pending[offset]| else 0;
      Buffer(b.received, Highest(b, offset, payload), b.pending[offset := payload],
             b.pendingBytes + |payload| - before, FinalSize(b, offset, payload, fin))
    else
      var r := NextFrontier(b, offset, payload);
      Buffer(r, Highest(b, offset, payload), Above(b.pending, r),
             b.pendingBytes - (HeldBytes(b.pending) - HeldBytes(Above(b.pending, r))), FinalSize(b, offset, payload, fin))
  }

  /** The bytes `add` returns. */
  ghost function Grown(b: Buffer, offset: nat, payload: Bytes): Bytes {
    if offset > b.received then []
    else
      var tail := Tail(payload, offset, b.received);
      tail + Delivered(b.received + |tail|, b.pending)
  }

  // The ledger.

  ghost predicate CoversWith(m: Pieces, k: nat, x: nat) {
    k in m && k <= x < k + |m[k]|
  }

  ghost predicate Covers(m: Pieces, x: nat) {
    exists k :: CoversWith(m, k, x)
  }

  lemma {:induction false} UncoveredMeansEnded(m: Pieces, k: nat, x: nat)
    requires k in m && k <= x && !Covers(m, x)
    ensures k + |m[k]| <= x
  {
    assert !CoversWith(m, k, x);
  }

  /** `to` is the first position from `from` on that no piece covers. */
  ghost predicate IsFirstGap(from: nat, m: Pieces, to: nat) {
    from <= to && !Covers(m, to) && forall x :: from <= x < to ==> Covers(m, x)
  }

  /** Draining stops at the first position no held piece covers. */
  lemma {:induction false} FrontierIsFirstGap(received: nat, pending: Pieces)
    ensures IsFirstGap(received, pending, Frontier(received, pending))
    decreases |pending|
  {
    if |pending| == 0 || MinKey(pending) > received {
      NothingTouches(received, pending);
      assert forall k :: !CoversWith(pending, k, received);
    } else {
      LowestTouches(received, pending);
      var k := MinKey(pending);
      var next := received + |Tail(pending[k], k, received)|;
      FrontierIsFirstGap(next, pending - {k});
      GapWithFirstPiece(received, pending, k, next, Frontier(received, pending));
    }
  }

  lemma {:induction false} GapWithFirstPiece(received: nat, pending: Pieces, k: nat, next: nat, r: nat)
    requires k in pending && k <= received && next == received + |Tail(pending[k], k, received)|
    requires IsFirstGap(next, pending - {k}, r)
    ensures IsFirstGap(received, pending, r)
  {
    var rest := pending - {k};
    forall x | received <= x < r
      ensures Covers(pending, x)
    {
      if x < next {
        assert CoversWith(pending, k, x);
      } else {
        assert Covers(rest, x);
        var j :| CoversWith(rest, j, x);
        assert CoversWith(pending, j, x);
      }
    }
    forall j
      ensures !CoversWith(pending, j, r)
    {
      assert !CoversWith(rest, j, r);
    }
  }

  /** Every held piece is a part of one stream. */
  ghost predicate Agree(m: Pieces, whole: Bytes) {
    forall k :: k in m ==> PartOf(m[k], k, whole)
  }

  ghost predicate PartOf(piece: Bytes, at: nat, whole: Bytes) {
    at + |piece| <= |whole| && whole[at..at + |piece|] == piece
  }

  lemma {:induction false} TailIsPart(piece: Bytes, at: nat, received: nat, whole: Bytes)
    requires PartOf(piece, at, whole) && at <= received <= |whole|
    ensures received + |Tail(piece, at, received)| <= |whole|
    ensures Tail(piece, at, received) == whole[received..received + |Tail(piece, at, received)|]
  {
    if received - at < |piece| {
      assert piece[received - at..] == whole[at..at + |piece|][received - at..];
    }
  }

  lemma {:induction false} DeliveredIsTheStream(received: nat, pending: Pieces, whole: Bytes)
    requires Agree(pending, whole) && received <= |whole|
    ensures Frontier(received, pending) <= |whole|
    ensures Delivered(received, pending) == whole[received..Frontier(received, pending)]
    decreases |pending|
  {
    if |pending| == 0 || MinKey(pending) > received {
      NothingTouches(received, pending);
    } else {
      LowestTouches(received, pending);
      var k := MinKey(pending);
      TailIsPart(pending[k], k, received, whole);
      var next := received + |Tail(pending[k], k, received)|;
      DeliveredIsTheStream(next, pending - {k}, whole);
      var r := Frontier(next, pending - {k});
      assert whole[received..next] + whole[next..r] == whole[received..r];
    }
  }

  /** What `add` keeps about its own books. */
  ghost predicate Ledger(b: Buffer) {
    && b.pendingBytes == HeldBytes(b.pending)
    && (forall k :: k in b.pending ==> k > b.received)
    && b.received <= b.highest
    && (forall k :: k in b.pending ==> k + |b.pending[k]| <= b.highest)
  }

  /** Held pieces with the new one among them. */
  function Offered(b: Buffer, offset: nat, payload: Bytes): Pieces {
    b.pending[offset := payload]
  }

  /**
   * `add` keeps its books on every piece; the new frontier is the first position covered
   * neither by what was delivered nor by what is held with the new piece, and exactly the
   * pieces above it stay held.
   */
  lemma {:induction false} AddKeepsLedger(b: Buffer, offset: nat, payload: Bytes, fin: bool)
    requires Ledger(b)
    ensures var b' := Add(b, offset, payload, fin);
            && Ledger(b')
            && IsFirstGap(b.received, Offered(b, offset, payload), b'.received)
            && b'.pending == Above(Offered(b, offset, payload), b'.received)
  {
    if offset > b.received {
      HeldBytesWith(b.pending, offset, payload);
      assert Above(Offered(b, offset, payload), b.received) == Offered(b, offset, payload);
      assert forall k :: !CoversWith(Offered(b, offset, payload), k, b.received);
    } else {
      var start := b.received + |Tail(payload, offset, b.received)|;
      FrontierIsFirstGap(start, b.pending);
      GapWithLatePiece(b, offset, payload, start, Frontier(start, b.pending));
      LateBooks(b, offset, payload, fin);
    }
  }

  lemma {:induction false} GapWithLatePiece(b: Buffer, offset: nat, payload: Bytes, start: nat, r: nat)
    requires Ledger(b) && offset <= b.received
    requires start == b.received + |Tail(payload, offset, b.received)| && IsFirstGap(start, b.pending, r)
    ensures IsFirstGap(b.received, Offered(b, offset, payload), r)
  {
    var offered := Offered(b, offset, payload);
    assert offset in offered && offered[offset] == payload;
    assert offered - {offset} == b.pending;
    GapWithFirstPiece(b.received, offered, offset, start, r);
  }

  lemma {:induction false} LateBooks(b: Buffer, offset: nat, payload: Bytes, fin: bool)
    requires Ledger(b) && offset <= b.received
    ensures var b' := Add(b, offset, payload, fin);
            Ledger(b') && b'.pending == Above(Offered(b, offset, payload), b'.received)
  {
    var start := b.received + |Tail(payload, offset, b.received)|;
    var r := Frontier(start, b.pending);
    FrontierIsFirstGap(start, b.pending);
    assert Above(Offered(b, offset, payload), r) == Above(b.pending, r);
    if start < r {
      assert Covers(b.pending, r - 1);
      var k :| CoversWith(b.pending, k, r - 1);
    }
  }

  /**
   * Pieces of one stream are delivered as that stream, in order and without gap or repeat,
   * whatever the order, overlap and repetition of their arrival.
   */
  lemma {:induction false} AddDeliversTheStream(b: Buffer, offset: nat, payload: Bytes, fin: bool, whole: Bytes)
    requires Agree(b.pending, whole) && b.received <= |whole| && PartOf(payload, offset, whole)
    ensures var b' := Add(b, offset, payload, fin);
            b.received <= b'.received <= |whole| &&
            Grown(b, offset, payload) == whole[b.received..b'.received] && Agree(b'.pending, whole)
  {
    if offset <= b.received {
      TailIsPart(payload, offset, b.received, whole);
      var start := b.received + |Tail(payload, offset, b.received)|;
      DeliveredIsTheStream(start, b.pending, whole);
      var r := Frontier(start, b.pending);
      assert whole[b.received..start] + whole[start..r] == whole[b.received..r];
    }
  }

  // Which positions are kept.

  /** The byte at `x` has been delivered or is held. */
  ghost predicate Keeps(b: Buffer, x: nat) {
    x < b.received || Covers(b.pending, x)
  }

  /** STREAM data as it arrives. */
  datatype Arrival = Arrival(offset: nat, payload: Bytes, fin: bool)

  predicate Brings(a: Arrival, x: nat) {
    a.offset <= x < a.offset + |a.payload|
  }

  /** The byte at `x` is held by nothing but a piece that a shorter one is about to replace. */
  ghost predicate LosesAt(b: Buffer, a: Arrival, x: nat) {
    a.offset > b.received && CoversWith(b.pending, a.offset, x) && a.offset + |a.payload| <= x && !Covers(b.pending - {a.offset}, x)
  }

  ghost predicate Loses(b: Buffer, a: Arrival) {
    exists x :: LosesAt(b, a, x)
  }

  ghost function Added(b: Buffer, a: Arrival): Buffer {
    Add(b, a.offset, a.payload, a.fin)
  }

  lemma {:induction false} KeptIsOffered(b: Buffer, a: Arrival, x: nat)
    requires Ledger(b)
    ensures Keeps(Added(b, a), x) <==> x < b.received || Covers(Offered(b, a.offset, a.payload), x)
  {
    AddKeepsLedger(b, a.offset, a.payload, a.fin);
    var offered, b' := Offered(b, a.offset, a.payload), Added(b, a);
    if Covers(b'.pending, x) {
      var k: nat :| CoversWith(b'.pending, k, x);
      assert CoversWith(offered, k, x);
    }
    if x >= b'.received && Covers(offered, x) {
      var k: nat :| CoversWith(offered, k, x);
      if k <= b'.received {
        UncoveredMeansEnded(offered, k, b'.received);
      }
      assert CoversWith(b'.pending, k, x);
    }
  }

  lemma {:induction false} OfferedCovers(b: Buffer, a: Arrival, x: nat)
    ensures Covers(Offered(b, a.offset, a.payload), x) <==> Brings(a, x) || Covers(b.pending - {a.offset}, x)
  {
    var offered, others := Offered(b, a.offset, a.payload), b.pending - {a.offset};
    if Covers(offered, x) {
      var k :| CoversWith(offered, k, x);
      assert k != a.offset ==> CoversWith(others, k, x);
    }
    if Brings(a, x) {
      assert CoversWith(offered, a.offset, x);
    }
    if Covers(others, x) {
      var k :| CoversWith(others, k, x);
      assert CoversWith(offered, k, x);
    }
  }

  lemma {:induction false} CoveredElsewhere(m: Pieces, k: nat, x: nat)
    ensures Covers(m, x) <==> CoversWith(m, k, x) || Covers(m - {k}, x)
  {
    if Covers(m, x) {
      var j :| CoversWith(m, j, x);
      assert j != k ==> CoversWith(m - {k}, j, x);
    }
    if Covers(m - {k}, x) {
      var j :| CoversWith(m - {k}, j, x);
      assert CoversWith(m, j, x);
    }
  }

  /** Position by position: what `add` brings is kept, and of what was kept it loses exactly this. */
  lemma {:induction false} LossIsExact(b: Buffer, a: Arrival, x: nat)
    requires Ledger(b)
    ensures Keeps(Added(b, a), x) <==> Brings(a, x) || (Keeps(b, x) && !LosesAt(b, a, x))
  {
    KeptIsOffered(b, a, x);
    OfferedCovers(b, a, x);
    CoveredElsewhere(b.pending, a.offset, x);
  }

  /**
   * Everything delivered or held stays so exactly when the new piece does not take the place of
   * one of which it leaves out a byte that no other piece holds.
   */
  lemma {:induction false} KeepsAllExactly(b: Buffer, a: Arrival)
    requires Ledger(b)
    ensures (forall x :: Keeps(b, x) || Brings(a, x) ==> Keeps(Added(b, a), x)) <==> !Loses(b, a)
  {
    if x :| LosesAt(b, a, x) {
      LossIsExact(b, a, x);
      assert Keeps(b, x);
    } else {
      forall x | Keeps(b, x) || Brings(a, x)
        ensures Keeps(Added(b, a), x)
      {
        LossIsExact(b, a, x);
      }
    }
  }

  /** Only a piece shorter than the one held at its offset loses anything. */
  lemma {:induction false} OnlyShorterLoses(b: Buffer, a: Arrival)
    requires Loses(b, a)
    ensures a.offset > b.received && a.offset in b.pending && |a.payload| < |b.pending[a.offset]|
  {
    var x :| LosesAt(b, a, x);
  }

  // Whole runs.

  ghost function AddAll(arrivals: seq<Arrival>): Buffer
    decreases |arrivals|
  {
    if |arrivals| == 0 then EMPTY else Added(AddAll(arrivals[..|arrivals| - 1]), arrivals[|arrivals| - 1])
  }

  lemma {:induction false} AddAllKeepsLedger(arrivals: seq<Arrival>)
    ensures Ledger(AddAll(arrivals))
    decreases |arrivals|
  {
    if |arrivals| == 0 {
      HeldBytesUnfolds(map[]);
    } else {
      var b, a := AddAll(arrivals[..|arrivals| - 1]), arrivals[|arrivals| - 1];
      AddAllKeepsLedger(arrivals[..|arrivals| - 1]);
      AddKeepsLedger(b, a.offset, a.payload, a.fin);
    }
  }

  /** The piece that came as number `j` has lost the byte at `x`. */
  ghost predicate LostAt(arrivals: seq<Arrival>, j: nat, x: nat) {
    j < |arrivals| && LosesAt(AddAll(arrivals[..j]), arrivals[j], x)
  }

  /** The byte at `x` came, and none of the pieces that came after has lost it. */
  ghost predicate KeptSince(arrivals: seq<Arrival>, i: nat, x: nat) {
    i < |arrivals| && Brings(arrivals[i], x) &&
    forall j: nat :: i < j < |arrivals| ==> !LostAt(arrivals, j, x)
  }

  ghost predicate Stays(arrivals: seq<Arrival>, x: nat) {
    exists i: nat :: KeptSince(arrivals, i, x)
  }

  ghost predicate Came(arrivals: seq<Arrival>, x: nat) {
    exists i :: 0 <= i < |arrivals| && Brings(arrivals[i], x)
  }

  lemma {:induction false} KeptSinceEarlier(arrivals: seq<Arrival>, i: nat, x: nat)
    requires i < |arrivals| - 1
    ensures var n := |arrivals| - 1;
            KeptSince(arrivals, i, x) <==> KeptSince(arrivals[..n], i, x) && !LostAt(arrivals, n, x)
  {
    var n := |arrivals| - 1;
    var before := arrivals[..n];
    forall j: nat | i < j < n
      ensures LostAt(before, j, x) == LostAt(arrivals, j, x)
    {
      assert before[..j] == arrivals[..j];
    }
  }

  lemma {:induction false} StaysSnoc(arrivals: seq<Arrival>, x: nat)
    requires |arrivals| > 0
    ensures var n := |arrivals| - 1;
            Stays(arrivals, x) <==>
            Brings(arrivals[n], x) || (Stays(arrivals[..n], x) && !LostAt(arrivals, n, x))
  {
    var n := |arrivals| - 1;
    forall i: nat | i < n
      ensures KeptSince(arrivals, i, x) <==> KeptSince(arrivals[..n], i, x) && !LostAt(arrivals, n, x)
    {
      KeptSinceEarlier(arrivals, i, x);
    }
    assert KeptSince(arrivals, n, x) <==> Brings(arrivals[n], x);
    if Stays(arrivals, x) && !Brings(arrivals[n], x) {
      var i: nat :| KeptSince(arrivals, i, x);
      assert KeptSince(arrivals[..n], i, x);
    }
    if Stays(arrivals[..n], x) && !LostAt(arrivals, n, x) {
      var i: nat :| KeptSince(arrivals[..n], i, x);
      assert KeptSince(arrivals, i, x);
    }
  }

  /** On every run, a byte is delivered or held exactly when it came and was not lost since. */
  lemma {:induction false} RunKeepsExactly(arrivals: seq<Arrival>, x: nat)
    ensures Keeps(AddAll(arrivals), x) <==> Stays(arrivals, x)
    decreases |arrivals|
  {
    var n := |arrivals| - 1;
    if n < 0 {
      assert !Covers(EMPTY.pending, x);
    } else {
      RunKeepsExactly(arrivals[..n], x);
      AddAllKeepsLedger(arrivals[..n]);
      LossIsExact(AddAll(arrivals[..n]), arrivals[n], x);
      StaysSnoc(arrivals, x);
    }
  }

  /** On every run, the frontier is the first byte that never came or was lost since. */
  lemma {:induction false} FrontierIsFirstMissing(arrivals: seq<Arrival>)
    ensures var r := AddAll(arrivals).received;
            !Stays(arrivals, r) && forall x :: 0 <= x < r ==> Stays(arrivals, x)
  {
    var b := AddAll(arrivals);
    AddAllKeepsLedger(arrivals);
    forall x | 0 <= x <= b.received
      ensures Keeps(b, x) <==> Stays(arrivals, x)
    {
      RunKeepsExactly(arrivals, x);
    }
    assert forall k :: !CoversWith(b.pending, k, b.received);
  }

  /** The size the last FIN gave. */
  function LastSize(arrivals: seq<Arrival>): Option<nat>
    decreases |arrivals|
  {
    if |arrivals| == 0 then None
    else
      var last := arrivals[|arrivals| - 1];
      if last.fin then Some(last.offset + |last.payload|) else LastSize(arrivals[..|arrivals| - 1])
  }

  lemma {:induction false} SizeIsTheLast(arrivals: seq<Arrival>)
    ensures AddAll(arrivals).finalSize == LastSize(arrivals)
    decreases |arrivals|
  {
    if |arrivals| > 0 {
      SizeIsTheLast(arrivals[..|arrivals| - 1]);
    }
  }

  /**
   * On every run in which no piece loses anything, the frontier is the first byte that has not
   * come, whatever the order and overlap of the pieces, and the stream is complete exactly when
   * every byte before its last final size has come.
   */
  lemma {:induction false} LosslessRunDeliversAll(arrivals: seq<Arrival>)
    requires forall j :: 0 <= j < |arrivals| ==> !Loses(AddAll(arrivals[..j]), arrivals[j])
    ensures var b := AddAll(arrivals);
            !Came(arrivals, b.received) && (forall x :: 0 <= x < b.received ==> Came(arrivals, x)) &&
            (b.Complete() <==> LastSize(arrivals).Some? && forall x :: 0 <= x < LastSize(arrivals).value ==> Came(arrivals, x))
  {
    var b := AddAll(arrivals);
    FrontierIsFirstMissing(arrivals);
    SizeIsTheLast(arrivals);
    forall x, i | 0 <= i < |arrivals| && Brings(arrivals[i], x)
      ensures KeptSince(arrivals, i, x)
    {
      assert forall j: nat :: i < j < |arrivals| ==> !LostAt(arrivals, j, x);
    }
    forall x | 0 <= x < b.received
      ensures Came(arrivals, x)
    {
      assert Stays(arrivals, x);
      var i: nat :| KeptSince(arrivals, i, x);
    }
  }

  /** Two held bytes are lost to an empty piece at the same offset; the stream then stops short of them. */
  lemma {:induction false} ShorterPieceLosesBytes()
    ensures var whole: Bytes := [10, 11, 12];
            PartOf([11, 12], 1, whole) && PartOf([], 1, whole) && PartOf([10], 0, whole) &&
            var b := Add(Add(Add(EMPTY, 1, [11, 12], false), 1, [], false), 0, [10], false);
            b.received == 1 && b.pending == map[]
  {
    var b1 := Add(EMPTY, 1, [11, 12], false);
    var b2 := Add(b1, 1, [], false);
    assert b2.pending == map[1 := []];
    assert MinKey(b2.pending) == 1;
    LowestTouches(1, b2.pending);
    assert b2.pending - {1} == map[];
    NothingTouches(1, map[]);
  }

  // The object.

  class StreamBuffer {
    const retain: bool
    var data: Bytes
    var received: nat
    var highest: nat
    var limit: Option<nat>
    var pending: Pieces
    var pendingBytes: int
    var finalSize: Option<nat>

    ghost function Value(): Buffer
      reads this
    {
      Buffer(received, highest, pending, pendingBytes, finalSize)
    }

    constructor (retain: bool, limit: Option<nat>)
      ensures Value() == EMPTY && data == [] && this.retain == retain && this.limit == limit
    {
      this.retain, this.limit := retain, limit;
      data, received, highest, pending, pendingBytes, finalSize := [], 0, 0, map[], 0, None;
    }

    method AddPiece(offset: nat, payload: Bytes, fin: bool) returns (grew: Bytes)
      requires Ledger(Value())
      modifies this
      ensures Value() == Add(old(Value()), offset, payload, fin) && grew == Grown(old(Value()), offset, payload)
      ensures Ledger(Value()) && limit == old(limit)
      ensures data == if retain then old(data) + grew else old(data)
    {
      AddKeepsLedger(Value(), offset, payload, fin);
      highest := if offset + |payload| > highest then offset + |payload| else highest;
      if fin {
        finalSize := Some(offset + |payload|);
      }
      if offset > received {
        pendingBytes := pendingBytes + |payload| - (if offset in pending then |pending[offset]| else 0);
        pending := pending[offset := payload];
        grew := [];
      } else {
        var start := received - offset;
        var fresh' := if start < |payload| then payload[start..] else [];
        received := received + |fresh'|;
        var more := DrainHeld();
        grew := fresh' + more;
        assert Value() == Add(old(Value()), offset, payload, fin);
      }
      if retain {
        data := data + grew;
      }
    }

    /** Takes one held piece off and delivers what it still adds. */
    method PopHeld(held: nat) returns (tail: Bytes)
      requires held in pending && held <= received && pendingBytes == HeldBytes(pending)
      modifies this`received, this`pending, this`pendingBytes
      ensures tail == Tail(old(pending)[held], held, old(received)) && received == old(received) + |tail|
      ensures pending == old(pending) - {held} && pendingBytes == HeldBytes(pending)
    {
      HeldBytesWithout(pending, held);
      var queued := pending[held];
      pending := pending - {held};
      pendingBytes := pendingBytes - |queued|;
      var skip := received - held;
      tail := [];
      if skip < |queued| {
        tail := queued[skip..];
        received := received + |tail|;
      }
    }

    static method InOrder(ready: set<nat>) returns (keys: seq<nat>)
      ensures Increasing(keys) && forall k :: k in keys <==> k in ready
    {
      keys := Sort(ready);
      AscendingIncreases(ready);
    }

    /** The rest of `add`: held pieces may overlap what just arrived, so they are trimmed. */
    method DrainHeld() returns (grew: Bytes)
      requires pendingBytes == HeldBytes(pending)
      modifies this`received, this`pending, this`pendingBytes
      ensures received == Frontier(old(received), old(pending)) && grew == Delivered(old(received), old(pending))
      ensures pending == Above(old(pending), received) && pendingBytes == HeldBytes(pending)
    {
      grew := [];
      ghost var before, whole, top := pending, Delivered(received, pending), Frontier(received, pending);
      assert [] + whole == whole;
      while |pending| > 0
        invariant pendingBytes == HeldBytes(pending)
        invariant Draining(before, whole, top, received, pending, grew)
        decreases |pending|
      {
        var ready := set held | held in pending && held <= received;
        if ready == {} {
          assert MinKey(pending) !in ready;
          break;
        }
        var keys := InOrder(ready);
        ghost var bound, size := received, |pending|;
        for i := 0 to |keys|
          invariant bound <= received && |pending| == size - i
          invariant HeldBelow(pending, bound, keys[i..])
          invariant pendingBytes == HeldBytes(pending)
          invariant Draining(before, whole, top, received, pending, grew)
        {
          LeastOfRest(keys, i, pending, bound);
          DrainingStep(before, whole, top, received, pending, grew);
          var tail := PopHeld(keys[i]);
          grew := grew + tail;
        }
      }
      DrainingDone(before, whole, top, received, pending, grew);
    }
  }

  /** The keys at or below `bound` are the ones listed. */
  ghost predicate HeldBelow(pending: Pieces, bound: nat, keys: seq<nat>) {
    forall k :: k in pending && k <= bound <==> k in keys
  }

  /** The next of the sorted keys is the lowest key held. */
  lemma {:induction false} LeastOfRest(keys: seq<nat>, i: nat, pending: Pieces, bound: nat)
    requires i < |keys| && Increasing(keys)
    requires HeldBelow(pending, bound, keys[i..])
    ensures |pending| > 0 && keys[i] in pending && keys[i] == MinKey(pending) && keys[i] <= bound
    ensures HeldBelow(pending - {keys[i]}, bound, keys[i + 1..])
    ensures |pending - {keys[i]}| == |pending| - 1
  {
    assert keys[i..][0] == keys[i] && keys[i] in keys[i..];
    assert keys[i..] == [keys[i]] + keys[i + 1..];
    assert keys[i] in pending;
    assert MinKey(pending) <= keys[i];
    assert MinKey(pending) in keys[i..];
    assert (pending - {keys[i]}).Keys == pending.Keys - {keys[i]};
  }

  /**
   * Draining from here gives what is left of draining from the start, and only pieces at or
   * below the frontier have been dropped.
   */
  ghost predicate Draining(before: Pieces, whole: Bytes, top: nat, received: nat, pending: Pieces, grew: Bytes) {
    && top == Frontier(received, pending)
    && whole == grew + Delivered(received, pending)
    && (forall k :: k in pending ==> k in before && pending[k] == before[k])
    && (forall k :: k in before && k !in pending ==> k <= received)
  }

  lemma {:induction false} DrainingStep(before: Pieces, whole: Bytes, top: nat, received: nat, pending: Pieces, grew: Bytes)
    requires Draining(before, whole, top, received, pending, grew)
    requires |pending| > 0 && MinKey(pending) <= received
    ensures var k := MinKey(pending);
            var tail := Tail(pending[k], k, received);
            Draining(before, whole, top, received + |tail|, pending - {k}, grew + tail)
  {
    LowestTouches(received, pending);
    var k := MinKey(pending);
    var tail := Tail(pending[k], k, received);
    var out := Delivered(received + |tail|, pending - {k});
    assert grew + (tail + out) == (grew + tail) + out;
  }

  lemma {:induction false} DrainingDone(before: Pieces, whole: Bytes, top: nat, received: nat, pending: Pieces, grew: Bytes)
    requires Draining(before, whole, top, received, pending, grew)
    requires |pending| == 0 || MinKey(pending) > received
    ensures received == top && grew == whole && pending == Above(before, received)
  {
    NothingTouches(received, pending);
    assert grew + [] == grew;
  }
}
