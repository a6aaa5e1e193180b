/** Bit strings, most significant bit first, and their packing into octets. */
module BitStrings {
  import opened Octets

  type Bits = seq<bool>

  function Digit(b: bool): nat {
    if b then 1 else 0
  }

  /** The low `n` bits of `v`. */
  function ToBits(v: nat, n: nat): (r: Bits)
    ensures |r| == n
  {
    if n == 0 then [] else ToBits(v / 2, n - 1) + [v % 2 == 1]
  }

  function Value(bits: Bits): nat {
    if |bits| == 0 then 0 else 2 * Value(bits[..|bits| - 1]) + Digit(bits[|bits| - 1])
  }

  function Ones(n: nat): (r: Bits)
    ensures |r| == n && forall i :: 0 <= i < n ==> r[i]
  {
    seq(n, _ => true)
  }

  function Unpack(data: Bytes): (r: Bits)
    ensures |r| == 8 * |data|
  {
    if |data| == 0 then [] else ToBits(data[0], 8) + Unpack(data[1..])
  }

  function Pack(bits: Bits): (r: Bytes)
    requires |bits| % 8 == 0
    ensures 8 * |r| == |bits|
  {
    if |bits| == 0 then []
    else
      assert Value(bits[..8]) < 256 by {
        ValueBound(bits[..8]);
        Pow2Values();
      }
      [Value(bits[..8])] + Pack(bits[8..])
  }

  lemma {:induction false} ValueBound(bits: Bits)
    ensures Value(bits) < Pow2(|bits|)
  {
    if |bits| > 0 {
      ValueBound(bits[..|bits| - 1]);
    }
  }

  lemma {:induction false} ValueOfToBits(v: nat, n: nat)
    requires v < Pow2(n)
    ensures Value(ToBits(v, n)) == v
  {
    if n > 0 {
      ValueOfToBits(v / 2, n - 1);
      assert ToBits(v, n)[..n - 1] == ToBits(v / 2, n - 1);
    }
  }

  lemma {:induction false} ToBitsOfValue(bits: Bits)
    ensures ToBits(Value(bits), |bits|) == bits
  {
    if |bits| > 0 {
      ToBitsOfValue(bits[..|bits| - 1]);
      assert bits == bits[..|bits| - 1] + [bits[|bits| - 1]];
    }
  }

  lemma {:induction false} PackOfUnpack(data: Bytes)
    ensures Pack(Unpack(data)) == data
  {
    if |data| > 0 {
      PackOfUnpack(data[1..]);
      Pow2Values();
      ValueOfToBits(data[0], 8);
      assert Unpack(data)[..8] == ToBits(data[0], 8);
      assert Unpack(data)[8..] == Unpack(data[1..]);
    }
  }

  lemma {:induction false} UnpackOfPack(bits: Bits)
    requires |bits| % 8 == 0
    ensures Unpack(Pack(bits)) == bits
  {
    if |bits| > 0 {
      UnpackOfPack(bits[8..]);
      ToBitsOfValue(bits[..8]);
      assert bits == bits[..8] + bits[8..];
    }
  }

  lemma {:induction false} PackAppend(a: Bits, b: Bits)
    requires |a| % 8 == 0 && |b| == 8
    ensures Pack(a + b) == Pack(a) + [Value(b)]
  {
    if |a| == 0 {
      assert a + b == b && b[..8] == b;
    } else {
      PackAppend(a[8..], b);
      assert (a + b)[..8] == a[..8] && (a + b)[8..] == a[8..] + b;
    }
  }

  lemma {:induction false} ValueAppend(a: Bits, b: Bits)
    ensures Value(a + b) == Shl(Value(a), |b|) + Value(b)
  {
    if |b| == 0 {
      assert a + b == a;
    } else {
      ValueAppend(a, b[..|b| - 1]);
      assert (a + b)[..|a + b| - 1] == a + b[..|b| - 1];
    }
  }

  lemma {:induction false} ValueOfPrefix(bits: Bits, n: nat)
    requires n <= |bits|
    ensures Shr(Value(bits), n) == Value(bits[..|bits| - n])
    decreases n
  {
    if n == 0 {
      assert bits[..|bits|] == bits;
    } else {
      var init := bits[..|bits| - 1];
      ValueOfPrefix(init, n - 1);
      assert init[..|init| - (n - 1)] == bits[..|bits| - n];
      assert Value(bits) / 2 == Value(init);
    }
  }

  lemma {:induction false} LowOctet(a: Bits, b: Bits)
    requires |b| == 8
    ensures Value(a + b) % 256 == Value(b)
  {
    ValueAppend(a, b);
    ValueBound(b);
    Pow2Values();
    assert Shl(Value(a), 1) == 2 * Value(a);
    assert Shl(Value(a), 3) == 8 * Value(a);
    assert Shl(Value(a), 5) == 32 * Value(a);
    assert Shl(Value(a), 7) == 128 * Value(a);
  }

  /** Dropping the last bits of a number and keeping eight of what is left. */
  lemma {:induction false} OctetInside(bits: Bits, at: nat)
    requires at + 8 <= |bits|
    ensures Shr(Value(bits), |bits| - at - 8) % 256 == Value(bits[at..at + 8])
  {
    ValueOfPrefix(bits, |bits| - at - 8);
    assert bits[..at + 8] == bits[..at] + bits[at..at + 8];
    LowOctet(bits[..at], bits[at..at + 8]);
  }

  lemma {:induction false} OnesAppend(m: nat, n: nat)
    ensures Ones(m) + Ones(n) == Ones(m + n)
  {
  }

  lemma {:induction false} ValueOfOnes(n: nat)
    ensures Value(Ones(n)) == Pow2(n) - 1
  {
    if n > 0 {
      ValueOfOnes(n - 1);
      assert Ones(n)[..n - 1] == Ones(n - 1);
    }
  }
}
