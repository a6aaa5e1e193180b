/** Octet strings, positions inside them, and the powers of two used by bit arithmetic. */
module Octets {

  type Octet = x: int | 0 <= x < 256

  type Bytes = seq<Octet>

  function Pow2(n: nat): (r: nat)
    ensures r > 0
  {
    if n == 0 then 1 else 2 * Pow2(n - 1)
  }

  lemma {:induction false} Pow2Add(a: nat, b: nat)
    ensures Pow2(a + b) == Pow2(a) * Pow2(b)
  {
    if a == 0 {
    } else {
      Pow2Add(a - 1, b);
      assert Pow2(a + b) == 2 * Pow2(a - 1 + b);
    }
  }

  lemma {:induction false} Pow2Monotone(a: nat, b: nat)
    requires a <= b
    ensures Pow2(a) <= Pow2(b)
  {
    if a < b {
      Pow2Monotone(a, b - 1);
    }
  }

  lemma {:induction false} Pow2Values()
    ensures Pow2(1) == 2 && Pow2(2) == 4 && Pow2(3) == 8 && Pow2(4) == 16
    ensures Pow2(5) == 32 && Pow2(6) == 64 && Pow2(7) == 128 && Pow2(8) == 256
  {
    assert Pow2(3) == 8;
    assert Pow2(6) == 64;
  }

  /** `v << n`. */
  function Shl(v: nat, n: nat): nat
    decreases v + n
  {
    if n == 0 then v else 2 * Shl(v, n - 1)
  }

  /** `v >> n`. */
  function Shr(v: nat, n: nat): nat
    decreases v + n
  {
    if n == 0 then v else Shr(v / 2, n - 1)
  }

  /** `v & ((1 << n) - 1)`. */
  function LowBits(v: nat, n: nat): nat
    decreases v + n
  {
    if n == 0 then 0 else v % 2 + 2 * LowBits(v / 2, n - 1)
  }

  lemma {:induction false} ShlAdd(a: nat, b: nat, n: nat)
    ensures Shl(a + b, n) == Shl(a, n) + Shl(b, n)
  {
    if n > 0 {
      ShlAdd(a, b, n - 1);
    }
  }

  /** Bits put above the low `n` do not change them. */
  lemma {:induction false} LowBitsOfTagged(low: nat, high: nat, n: nat)
    requires low < Pow2(n) && LowBits(high, n) == 0
    ensures LowBits(low + high, n) == low
    decreases n
  {
    if n > 0 {
      assert high % 2 == 0;
      LowBitsOfTagged(low / 2, high / 2, n - 1);
    }
  }

  /**
   * `piece` stands in `data` at `offset`: AtIsSlice says what that means. The steps in front of
   * the meaning keep it folded where a proof only passes the fact on.
   */
  ghost predicate At(data: Bytes, offset: nat, piece: Bytes, steps: nat := 3)
    decreases steps + |data|
  {
    if steps > 0 then At(data, offset, piece, steps - 1)
    else offset + |piece| <= |data| && data[offset..offset + |piece|] == piece
  }

  lemma {:induction false} AtIsSlice(data: Bytes, offset: nat, piece: Bytes)
    ensures At(data, offset, piece) <==> offset + |piece| <= |data| && data[offset..offset + |piece|] == piece
  {
    assert At(data, offset, piece, 1) == At(data, offset, piece, 0);
  }

  lemma {:induction false} AtSplit(data: Bytes, offset: nat, a: Bytes, b: Bytes)
    requires At(data, offset, a + b)
    ensures At(data, offset, a) && At(data, offset + |a|, b)
    ensures offset + |a| + |b| <= |data|
  {
    AtIsSlice(data, offset, a + b);
    AtIsSlice(data, offset, a);
    AtIsSlice(data, offset + |a|, b);
    var whole := data[offset..offset + |a + b|];
    assert whole[..|a|] == a && whole[|a|..] == b;
    assert data[offset..offset + |a|] == whole[..|a|];
    assert data[offset + |a|..offset + |a| + |b|] == whole[|a|..];
  }

  lemma {:induction false} AtStart(data: Bytes)
    ensures At(data, 0, data)
  {
    AtIsSlice(data, 0, data);
  }

  lemma {:induction false} AtHead(data: Bytes, offset: nat, piece: Bytes)
    requires At(data, offset, piece) && |piece| > 0
    ensures offset < |data| && data[offset] == piece[0]
    ensures At(data, offset + 1, piece[1..])
  {
    AtIsSlice(data, offset, piece);
    AtIsSlice(data, offset + 1, piece[1..]);
    var whole := data[offset..offset + |piece|];
    assert whole[0] == data[offset];
    assert data[offset + 1..offset + |piece|] == whole[1..];
  }

  /** ASCII lower case of one octet; every other octet is kept. */
  function LowerOctet(x: Octet): Octet {
    if 65 <= x <= 90 then x + 32 else x
  }

  function Lower(s: Bytes): (r: Bytes)
    ensures |r| == |s|
  {
    seq(|s|, i requires 0 <= i < |s| => LowerOctet(s[i]))
  }

  lemma {:induction false} LowerIdempotent(s: Bytes)
    ensures Lower(Lower(s)) == Lower(s)
  {
  }

  /** The octets of an ASCII literal. */
  function Ascii(s: string): (r: Bytes)
    ensures |r| == |s|
  {
    seq(|s|, i requires 0 <= i < |s| => (s[i] as int) % 256)
  }
}
