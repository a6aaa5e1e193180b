/** Prefixed integers: section 5.1 of RFC 7541. */
module HpackInteger {
  import opened Wrappers
  import opened Octets

  datatype IntegerError =
    | NegativeInteger
    | TruncatedInteger
    | TruncatedContinuation
    | ContinuationTooLong

  /** Continuation octets a decoder reads before it refuses the integer. */
  const MAX_CONTINUATION := 5

  /** The continuation octets of `v`: groups of seven bits, least significant first. */
  function EncodeTail(v: nat): (r: Bytes)
    ensures |r| > 0
  {
    if v < 128 then [v] else [v % 128 + 128] + EncodeTail(v / 128)
  }

  // As with Octets.At, the folds keep the two codings out of sight until they are asked for.

  function EncodeInteger(value: nat, prefixBits: nat, folds: nat := 2): (r: Bytes)
    requires 1 <= prefixBits <= 8
    ensures |r| > 0 && r[0] < Pow2(prefixBits)
    decreases value, folds
  {
    if folds > 0 then EncodeInteger(value, prefixBits, folds - 1) else IntegerOctets(value, prefixBits)
  }

  function IntegerOctets(value: nat, prefixBits: nat): (r: Bytes)
    requires 1 <= prefixBits <= 8
    ensures |r| > 0 && r[0] < Pow2(prefixBits)
  {
    assert Pow2(prefixBits) <= 256 by {
      Pow2Monotone(prefixBits, 8);
      Pow2Values();
    }
    var limit := Pow2(prefixBits) - 1;
    if value < limit then [value] else [limit] + EncodeTail(value - limit)
  }

  /**
   * The number in at most `octets` continuation octets at `offset`, shifted left by `shift`,
   * and the offset behind them.
   */
  function DecodeTail(data: Bytes, offset: nat, octets: nat, shift: nat): (r: Result<(nat, nat), IntegerError>)
    ensures r.Ok? ==> offset < r.value.1 <= |data|
    decreases |data| - offset
  {
    if octets == 0 then Err(ContinuationTooLong)
    else if offset >= |data| then Err(TruncatedContinuation)
    else
      var group := Shl(data[offset] % 128, shift);
      if data[offset] < 128 then Ok((group, offset + 1))
      else
        var (rest, next) :- DecodeTail(data, offset + 1, octets - 1, shift + 7);
        Ok((group + rest, next))
  }

  /** The value in the low `prefixBits` bits at `offset`, and the offset behind it. */
  function DecodeInteger(data: Bytes, offset: nat, prefixBits: nat, folds: nat := 2): (r: Result<(nat, nat), IntegerError>)
    requires 1 <= prefixBits <= 8
    ensures r.Ok? ==> offset < r.value.1 <= |data|
    decreases data, folds
  {
    if folds > 0 then DecodeInteger(data, offset, prefixBits, folds - 1) else IntegerAt(data, offset, prefixBits)
  }

  lemma {:induction false} IntegerUnfolds(value: nat, data: Bytes, offset: nat, prefixBits: nat)
    requires 1 <= prefixBits <= 8
    ensures EncodeInteger(value, prefixBits) == IntegerOctets(value, prefixBits)
    ensures DecodeInteger(data, offset, prefixBits) == IntegerAt(data, offset, prefixBits)
  {
    assert EncodeInteger(value, prefixBits, 1) == EncodeInteger(value, prefixBits, 0);
    assert DecodeInteger(data, offset, prefixBits, 1) == DecodeInteger(data, offset, prefixBits, 0);
  }

  function IntegerAt(data: Bytes, offset: nat, prefixBits: nat): (r: Result<(nat, nat), IntegerError>)
    requires 1 <= prefixBits <= 8
    ensures r.Ok? ==> offset < r.value.1 <= |data|
  {
    if offset >= |data| then Err(TruncatedInteger)
    else
      var limit := Pow2(prefixBits) - 1;
      var value := LowBits(data[offset], prefixBits);
      if value < limit then Ok((value, offset + 1))
      else
        var (rest, next) :- DecodeTail(data, offset + 1, MAX_CONTINUATION, 0);
        Ok((value + rest, next))
  }

  /** `encoded` with `pattern` put in the bits above the prefix of its first octet. */
  function Tagged(encoded: Bytes, pattern: nat): (r: Bytes)
    requires |encoded| > 0 && encoded[0] + pattern < 256
    ensures |r| == |encoded|
  {
    encoded[0 := encoded[0] + pattern]
  }

  /** How many numbers fit in `octets` groups of seven bits. */
  function Groups(octets: nat): (r: nat)
    ensures r > 0
  {
    if octets == 0 then 1 else 128 * Groups(octets - 1)
  }

  /** The first value the allowed continuation octets can no longer carry: 2^N - 1 + 2^35. */
  function Ceiling(prefixBits: nat): nat
    requires 1 <= prefixBits <= 8
  {
    Pow2(prefixBits) - 1 + 0x8_0000_0000
  }

  lemma {:induction false} TailRoundTrip(data: Bytes, offset: nat, v: nat, octets: nat, shift: nat)
    requires octets > 0 || v > 0
    requires At(data, offset, EncodeTail(v))
    ensures DecodeTail(data, offset, octets, shift) ==
            if v < Groups(octets) then Ok((Shl(v, shift), offset + |EncodeTail(v)|)) else Err(ContinuationTooLong)
    decreases octets
  {
    if octets > 0 {
      AtHead(data, offset, EncodeTail(v));
      assert data[offset] % 128 == v % 128;
      if v >= 128 {
        TailRoundTrip(data, offset + 1, v / 128, octets - 1, shift + 7);
        SevenBitGroup(v, shift);
      }
    }
  }

  lemma {:induction false} SevenBitGroup(v: nat, shift: nat)
    ensures Shl(v % 128, shift) + Shl(v / 128, shift + 7) == Shl(v, shift)
  {
    ShlSeven(v / 128, shift);
    ShlAdd(v % 128, 128 * (v / 128), shift);
  }

  lemma {:induction false} ShlSeven(v: nat, shift: nat)
    ensures Shl(v, shift + 7) == Shl(128 * v, shift)
  {
    if shift == 0 {
      assert Shl(v, 1) == 2 * v;
      assert Shl(v, 3) == 8 * v;
      assert Shl(v, 5) == 32 * v;
    } else {
      ShlSeven(v, shift - 1);
    }
  }

  /**
   * Decoding undoes encoding exactly for the values below the ceiling, whatever stands
   * before and behind them and whatever pattern fills the rest of the first octet.
   */
  lemma {:induction false} IntegerRoundTrip(data: Bytes, offset: nat, v: nat, prefixBits: nat, pattern: nat)
    requires 1 <= prefixBits <= 8
    requires LowBits(pattern, prefixBits) == 0 && EncodeInteger(v, prefixBits)[0] + pattern < 256
    requires At(data, offset, Tagged(EncodeInteger(v, prefixBits), pattern))
    ensures DecodeInteger(data, offset, prefixBits) ==
            if v < Ceiling(prefixBits) then Ok((v, offset + |EncodeInteger(v, prefixBits)|))
            else Err(ContinuationTooLong)
  {
    var limit := Pow2(prefixBits) - 1;
    assert Pow2(prefixBits) <= 256 by {
      Pow2Monotone(prefixBits, 8);
      Pow2Values();
    }
    var first: Octet := if v < limit then v else limit;
    IntegerUnfolds(v, data, offset, prefixBits);
    FirstOctet(data, offset, v, prefixBits, pattern, first);
    if v >= limit {
      TailRoundTrip(data, offset + 1, v - limit, MAX_CONTINUATION, 0);
      FiveGroups();
    }
  }

  lemma {:induction false} FirstOctet(data: Bytes, offset: nat, v: nat, prefixBits: nat, pattern: nat, first: Octet)
    requires 1 <= prefixBits <= 8
    requires LowBits(pattern, prefixBits) == 0 && EncodeInteger(v, prefixBits)[0] + pattern < 256
    requires At(data, offset, Tagged(EncodeInteger(v, prefixBits), pattern))
    requires first == if v < Pow2(prefixBits) - 1 then v else Pow2(prefixBits) - 1
    ensures offset < |data| && LowBits(data[offset], prefixBits) == first
    ensures v >= Pow2(prefixBits) - 1 ==> At(data, offset + 1, EncodeTail(v - first))
  {
    IntegerUnfolds(v, data, offset, prefixBits);
    var encoded := EncodeInteger(v, prefixBits);
    AtHead(data, offset, Tagged(encoded, pattern));
    LowBitsOfTagged(first, pattern, prefixBits);
    if v >= Pow2(prefixBits) - 1 {
      assert Tagged(encoded, pattern)[1..] == EncodeTail(v - first);
    }
  }

  lemma {:induction false} FiveGroups()
    ensures Groups(MAX_CONTINUATION) == 0x8_0000_0000
  {
    assert Groups(2) == 0x4000;
    assert Groups(4) == 0x1000_0000;
  }

  method EncodeIntegerLoop(value: int, prefixBits: nat) returns (r: Result<Bytes, IntegerError>)
    requires 1 <= prefixBits <= 8
    ensures value < 0 ==> r == Err(NegativeInteger)
    ensures value >= 0 ==> r == Ok(EncodeInteger(value, prefixBits))
  {
    if value < 0 {
      return Err(NegativeInteger);
    }
    IntegerUnfolds(value, [], 0, prefixBits);
    assert Pow2(prefixBits) <= 256 by {
      Pow2Monotone(prefixBits, 8);
      Pow2Values();
    }
    var limit := Pow2(prefixBits) - 1;
    if value < limit {
      return Ok([value]);
    }
    var out: Bytes := [limit];
    var rest := value - limit;
    while rest >= 128
      invariant rest >= 0
      invariant out + EncodeTail(rest) == EncodeInteger(value, prefixBits)
    {
      var group: Octet := rest % 128 + 128;
      assert out + EncodeTail(rest) == out + [group] + EncodeTail(rest / 128);
      out := out + [group];
      rest := rest / 128;
    }
    out := out + [rest];
    return Ok(out);
  }

  method DecodeIntegerLoop(data: Bytes, offset: nat, prefixBits: nat)
    returns (r: Result<(nat, nat), IntegerError>)
    requires 1 <= prefixBits <= 8
    ensures r == DecodeInteger(data, offset, prefixBits)
  {
    IntegerUnfolds(0, data, offset, prefixBits);
    if offset >= |data| {
      return Err(TruncatedInteger);
    }
    var limit := Pow2(prefixBits) - 1;
    var value: nat := LowBits(data[offset], prefixBits);
    var position := offset + 1;
    if value < limit {
      return Ok((value, position));
    }
    var shift := 0;
    ghost var left := MAX_CONTINUATION;
    while true
      invariant left > 0 && shift == 7 * (MAX_CONTINUATION - left)
      invariant Continues(DecodeInteger(data, offset, prefixBits), value, DecodeTail(data, position, left, shift))
      decreases left
    {
      if position >= |data| {
        return Err(TruncatedContinuation);
      }
      var byte := data[position];
      position := position + 1;
      value := value + Shl(byte % 128, shift);
      shift := shift + 7;
      left := left - 1;
      assert DecodeTail(data, position, 0, shift) == Err(ContinuationTooLong);
      if byte < 128 {
        break;
      }
      if shift > 28 {
        return Err(ContinuationTooLong);
      }
    }
    return Ok((value, position));
  }

  /** The whole result is what has been added up so far plus what is still to be read. */
  ghost predicate Continues(whole: Result<(nat, nat), IntegerError>, value: nat, rest: Result<(nat, nat), IntegerError>)
  {
    match rest
    case Err(e) => whole == Err(e)
    case Ok((r, next)) => whole == Ok((value + r, next))
  }
}
