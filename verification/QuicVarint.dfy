/** Variable-length integers: section 16 of RFC 9000. */
module QuicVarint {
  import opened Wrappers
  import opened Octets
  import opened BigEndians

  const MAX_VARINT: nat := 0x3FFF_FFFF_FFFF_FFFF

  datatype VarintError = Unsigned | TooLarge | BadWidth | DoesNotFit | Truncated | PastTheEnd

  predicate IsWidth(length: nat) {
    length == 1 || length == 2 || length == 4 || length == 8
  }

  /** `varint_length`: octets the shortest form needs. */
  function Shortest(value: int): (r: Result<nat, VarintError>)
    ensures r.Ok? ==> IsWidth(r.value)
  {
    if value < 0 then Err(Unsigned)
    else if value <= 0x3F then Ok(1)
    else if value <= 0x3FFF then Ok(2)
    else if value <= 0x3FFF_FFFF then Ok(4)
    else if value <= MAX_VARINT then Ok(8)
    else Err(TooLarge)
  }

  /** The two bits that tell a width. */
  function Tag(length: nat): (p: nat)
    requires IsWidth(length)
    ensures p < 4
  {
    if length == 1 then 0 else if length == 2 then 1 else if length == 4 then 2 else 3
  }

  function WidthOf(tag: int): (length: nat)
    ensures IsWidth(length)
  {
    if tag == 0 then 1 else if tag == 1 then 2 else if tag == 2 then 4 else 8
  }

  /** `x << (8 * octets + 6)`. */
  function Tagging(x: nat, octets: nat): (r: nat)
    ensures x > 0 ==> r > 0
    decreases octets
  {
    if octets == 0 then 64 * x else 256 * Tagging(x, octets - 1)
  }

  // As with Octets.At, the folds keep the two codings out of sight until they are asked for.

  function EncodeWidth(value: nat, length: nat, folds: nat := 2): (r: Bytes)
    requires IsWidth(length)
    ensures |r| == length
    decreases value, folds
  {
    if folds > 0 then EncodeWidth(value, length, folds - 1)
    else BigEndian(value + Tagging(Tag(length), length - 1), length)
  }

  /** `encode_varint`; a width may be asked for. */
  function EncodeVarint(value: int, width: Option<nat>): Result<Bytes, VarintError> {
    match Shortest(value)
    case Err(e) => Err(e)
    case Ok(least) =>
      match width
      case None => Ok(EncodeWidth(value, least))
      case Some(length) =>
        if !IsWidth(length) then Err(BadWidth)
        else if length < least then Err(DoesNotFit)
        else Ok(EncodeWidth(value, length))
  }

  function DecodeVarint(data: Bytes, offset: nat, folds: nat := 2): (r: Result<(nat, nat), VarintError>)
    ensures r.Ok? ==> offset < r.value.1 <= |data|
    decreases data, folds
  {
    if folds > 0 then DecodeVarint(data, offset, folds - 1)
    else if offset >= |data| then Err(Truncated)
    else
      var length := WidthOf(data[offset] / 64);
      if offset + length > |data| then Err(PastTheEnd)
      else Ok((FromBig(data[offset..offset + length]) % Tagging(1, length - 1), offset + length))
  }

  lemma {:induction false} VarintUnfolds(value: nat, length: nat, data: Bytes, offset: nat)
    requires IsWidth(length)
    ensures EncodeWidth(value, length) == BigEndian(value + Tagging(Tag(length), length - 1), length)
    ensures DecodeVarint(data, offset) ==
            if offset >= |data| then Err(Truncated)
            else
              var width := WidthOf(data[offset] / 64);
              if offset + width > |data| then Err(PastTheEnd)
              else Ok((FromBig(data[offset..offset + width]) % Tagging(1, width - 1), offset + width))
  {
    assert EncodeWidth(value, length, 1) == EncodeWidth(value, length, 0);
    assert DecodeVarint(data, offset, 1) == DecodeVarint(data, offset, 0);
  }

  lemma {:induction false} CutOfTagged(v: nat, x: nat, n: nat)
    ensures Cut(v + Tagging(x, n), n) == Cut(v, n) + 64 * x
    decreases n
  {
    if n > 0 {
      CutOfTagged(v / 256, x, n - 1);
      assert (v + 256 * Tagging(x, n - 1)) / 256 == v / 256 + Tagging(x, n - 1);
    }
  }

  lemma {:induction false} CutBelow(v: nat, n: nat)
    requires v < Tagging(1, n)
    ensures Cut(v, n) < 64
    decreases n
  {
    if n > 0 {
      CutBelow(v / 256, n - 1);
    }
  }

  lemma {:induction false} TaggingValues()
    ensures Tagging(1, 0) == 0x40 && Tagging(1, 1) == 0x4000 && Tagging(1, 3) == 0x4000_0000 && Tagging(1, 7) == 0x4000_0000_0000_0000
  {
    assert Tagging(1, 5) == 0x4000_0000_0000;
  }

  lemma {:induction false} TaggingIsMultiple(x: nat, n: nat)
    ensures Tagging(x, n) == x * Tagging(1, n)
    decreases n
  {
    if n > 0 {
      TaggingIsMultiple(x, n - 1);
    }
  }

  lemma {:induction false} TagFallsOff(v: nat, length: nat)
    requires IsWidth(length) && v < Tagging(1, length - 1)
    ensures (v + Tagging(Tag(length), length - 1)) % Tagging(1, length - 1) == v
  {
    TaggingValues();
    TaggingIsMultiple(Tag(length), length - 1);
  }

  lemma {:induction false} TopOctet(v: nat, p: nat, n: nat)
    requires p < 4 && v < Tagging(1, n)
    ensures var w := v + Tagging(p, n);
            BigEndian(w, n + 1)[0] / 64 == p && Cut(w, n + 1) == 0
  {
    var w := v + Tagging(p, n);
    FirstOctet(w, n + 1);
    CutOfTagged(v, p, n);
    CutBelow(v, n);
    CutOnce(w, n);
  }

  lemma {:induction false} TagIsRead(v: nat, length: nat)
    requires IsWidth(length) && v < Tagging(1, length - 1)
    ensures var w := v + Tagging(Tag(length), length - 1);
            BigEndian(w, length)[0] / 64 == Tag(length) && Cut(w, length) == 0
  {
    TopOctet(v, Tag(length), length - 1);
  }

  /** Any legal width is read back, whatever stands around it. */
  lemma {:induction false} VarintRoundTrip(data: Bytes, offset: nat, v: nat, length: nat)
    requires IsWidth(length) && v < Tagging(1, length - 1) && At(data, offset, EncodeWidth(v, length))
    ensures DecodeVarint(data, offset) == Ok((v, offset + length))
  {
    var w := v + Tagging(Tag(length), length - 1);
    VarintUnfolds(v, length, data, offset);
    AtIsSlice(data, offset, EncodeWidth(v, length));
    TagIsRead(v, length);
    BigEndianIsValue(w, length);
    TagFallsOff(v, length);
    assert data[offset] == data[offset..offset + length][0];
  }

  /** The shortest form, and every wider one that may be asked for, says the value. */
  lemma {:induction false} EncodeVarintIsRead(v: int, width: Option<nat>, data: Bytes, offset: nat)
    requires EncodeVarint(v, width).Ok? && At(data, offset, EncodeVarint(v, width).value)
    ensures 0 <= v && DecodeVarint(data, offset) == Ok((v, offset + |EncodeVarint(v, width).value|))
  {
    TaggingValues();
    VarintRoundTrip(data, offset, v, |EncodeVarint(v, width).value|);
  }

  /** No shorter form holds the value. */
  lemma {:induction false} ShortestIsShortest(v: nat, length: nat)
    requires v <= MAX_VARINT && IsWidth(length)
    ensures Shortest(v).Ok? && v < Tagging(1, Shortest(v).value - 1)
    ensures v < Tagging(1, length - 1) <==> length >= Shortest(v).value
  {
    TaggingValues();
  }
}
