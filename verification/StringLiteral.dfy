/** String literals: section 5.2 of RFC 7541, with any prefix length as RFC 9204 uses them. */
module StringLiteral {
  import opened Wrappers
  import opened Octets
  import opened HpackInteger
  import opened Huffman

  datatype StringError =
    | TruncatedString
    | BadLength(integer: IntegerError)
    | StringTooLong
    | BadHuffman(huffman: HuffmanError)

  /** Huffman coding as the string literals see it. */
  datatype Compressor = Compressor(compress: Bytes -> Bytes, expand: Bytes -> Result<Bytes, HuffmanError>)

  ghost predicate Lossless(z: Compressor) {
    forall raw: Bytes :: z.expand(z.compress(raw)) == Ok(raw)
  }

  predicate UsesHuffman(z: Compressor, raw: Bytes, huffman: bool) {
    huffman && |z.compress(raw)| < |raw|
  }

  /** The octets behind the length. */
  function Payload(z: Compressor, raw: Bytes, huffman: bool): (p: Bytes)
    ensures |p| <= |raw|
  {
    if UsesHuffman(z, raw, huffman) then z.compress(raw) else raw
  }

  /** `pattern` leaves the prefix and the Huffman bit above it free. */
  predicate StringPattern(pattern: nat, prefixBits: nat) {
    && 1 <= prefixBits <= 7
    && LowBits(pattern, prefixBits) == 0
    && Shr(pattern, prefixBits) % 2 == 0
    && pattern + 2 * Pow2(prefixBits) <= 256
  }

  function HuffmanTag(prefixBits: nat, pattern: nat, coded: bool): nat {
    pattern + if coded then Pow2(prefixBits) else 0
  }

  // As with Octets.At, the folds keep the two codings out of sight until they are asked for.

  function EncodeString(z: Compressor, raw: Bytes, prefixBits: nat, pattern: nat, huffman: bool, folds: nat := 2): (r: Bytes)
    requires StringPattern(pattern, prefixBits)
    ensures |r| > 0
    decreases raw, folds
  {
    if folds > 0 then EncodeString(z, raw, prefixBits, pattern, huffman, folds - 1)
    else StringOctets(z, raw, prefixBits, pattern, huffman)
  }

  lemma {:induction false} EncodeStringUnfolds(z: Compressor, raw: Bytes, prefixBits: nat, pattern: nat, huffman: bool)
    requires StringPattern(pattern, prefixBits)
    ensures EncodeString(z, raw, prefixBits, pattern, huffman) == StringOctets(z, raw, prefixBits, pattern, huffman)
  {
    assert EncodeString(z, raw, prefixBits, pattern, huffman, 1) == EncodeString(z, raw, prefixBits, pattern, huffman, 0);
  }

  function StringOctets(z: Compressor, raw: Bytes, prefixBits: nat, pattern: nat, huffman: bool): (r: Bytes)
    requires StringPattern(pattern, prefixBits)
    ensures |r| > 0
  {
    var payload := Payload(z, raw, huffman);
    Tagged(EncodeInteger(|payload|, prefixBits), HuffmanTag(prefixBits, pattern, UsesHuffman(z, raw, huffman))) + payload
  }

  /** The octets of the string at `offset`, and the offset behind it. */
  function DecodeString(z: Compressor, data: Bytes, offset: nat, prefixBits: nat, folds: nat := 2): (r: Result<(Bytes, nat), StringError>)
    requires 1 <= prefixBits <= 7
    ensures r.Ok? ==> offset < r.value.1 <= |data|
    decreases data, folds
  {
    if folds > 0 then DecodeString(z, data, offset, prefixBits, folds - 1) else StringAt(z, data, offset, prefixBits)
  }

  lemma {:induction false} DecodeStringUnfolds(z: Compressor, data: Bytes, offset: nat, prefixBits: nat)
    requires 1 <= prefixBits <= 7
    ensures DecodeString(z, data, offset, prefixBits) == StringAt(z, data, offset, prefixBits)
  {
    assert DecodeString(z, data, offset, prefixBits, 1) == DecodeString(z, data, offset, prefixBits, 0);
  }

  function StringAt(z: Compressor, data: Bytes, offset: nat, prefixBits: nat): (r: Result<(Bytes, nat), StringError>)
    requires 1 <= prefixBits <= 7
    ensures r.Ok? ==> offset < r.value.1 <= |data|
  {
    if offset >= |data| then Err(TruncatedString)
    else
      match DecodeInteger(data, offset, prefixBits)
      case Err(e) => Err(BadLength(e))
      case Ok((length, start)) =>
        TakePayload(z, data, start, length, Shr(data[offset], prefixBits) % 2 == 1)
  }

  function TakePayload(z: Compressor, data: Bytes, start: nat, length: nat, huffman: bool): (r: Result<(Bytes, nat), StringError>)
    ensures r.Ok? ==> start <= r.value.1 <= |data|
  {
    if start + length > |data| then Err(StringTooLong)
    else ExpandPayload(z, data[start..start + length], huffman, start + length)
  }

  function ExpandPayload(z: Compressor, payload: Bytes, huffman: bool, end: nat): Result<(Bytes, nat), StringError>
  {
    if !huffman then Ok((payload, end))
    else
      match z.expand(payload)
      case Err(e) => Err(BadHuffman(e))
      case Ok(text) => Ok((text, end))
  }

  lemma {:induction false} ShrOfTagged(low: nat, high: nat, n: nat)
    requires low < Pow2(n) && LowBits(high, n) == 0
    ensures Shr(low + high, n) == Shr(high, n)
    ensures Shr(high + Pow2(n), n) == Shr(high, n) + 1
    ensures LowBits(high + Pow2(n), n) == 0
    decreases n
  {
    if n > 0 {
      assert high % 2 == 0;
      ShrOfTagged(low / 2, high / 2, n - 1);
    }
  }

  lemma {:induction false} TagTellsHuffman(prefixBits: nat, pattern: nat, coded: bool, first: nat)
    requires StringPattern(pattern, prefixBits) && first < Pow2(prefixBits)
    ensures var tag := HuffmanTag(prefixBits, pattern, coded);
            LowBits(tag, prefixBits) == 0 && (Shr(first + tag, prefixBits) % 2 == 1 <==> coded)
  {
    ShrOfTagged(first, pattern, prefixBits);
    ShrOfTagged(first, HuffmanTag(prefixBits, pattern, coded), prefixBits);
  }

  lemma {:induction false} LengthIsRead(data: Bytes, offset: nat, n: nat, prefixBits: nat, pattern: nat, coded: bool)
    requires StringPattern(pattern, prefixBits)
    requires At(data, offset, Tagged(EncodeInteger(n, prefixBits), HuffmanTag(prefixBits, pattern, coded)))
    ensures offset < |data| && (Shr(data[offset], prefixBits) % 2 == 1 <==> coded)
    ensures DecodeInteger(data, offset, prefixBits) ==
            if n < Ceiling(prefixBits) then Ok((n, offset + |EncodeInteger(n, prefixBits)|))
            else Err(ContinuationTooLong)
  {
    var tag := HuffmanTag(prefixBits, pattern, coded);
    var length := EncodeInteger(n, prefixBits);
    TagTellsHuffman(prefixBits, pattern, coded, length[0]);
    AtHead(data, offset, Tagged(length, tag));
    IntegerRoundTrip(data, offset, n, prefixBits, tag);
  }

  lemma {:induction false} PayloadIsTaken(z: Compressor, data: Bytes, start: nat, payload: Bytes, huffman: bool)
    requires At(data, start, payload)
    ensures TakePayload(z, data, start, |payload|, huffman) ==
            ExpandPayload(z, payload, huffman, start + |payload|)
  {
    AtIsSlice(data, start, payload);
  }

  /** What the decoder makes of a length with its tag and a payload behind it. */
  lemma {:induction false} PayloadIsRead(z: Compressor, data: Bytes, offset: nat, payload: Bytes, prefixBits: nat, pattern: nat, coded: bool)
    requires StringPattern(pattern, prefixBits)
    requires At(data, offset, Tagged(EncodeInteger(|payload|, prefixBits), HuffmanTag(prefixBits, pattern, coded)) + payload)
    ensures var end := offset + |EncodeInteger(|payload|, prefixBits)| + |payload|;
            DecodeString(z, data, offset, prefixBits) ==
            if |payload| >= Ceiling(prefixBits) then Err(BadLength(ContinuationTooLong))
            else ExpandPayload(z, payload, coded, end)
  {
    var length := Tagged(EncodeInteger(|payload|, prefixBits), HuffmanTag(prefixBits, pattern, coded));
    AtSplit(data, offset, length, payload);
    DecodeStringUnfolds(z, data, offset, prefixBits);
    LengthIsRead(data, offset, |payload|, prefixBits, pattern, coded);
    PayloadIsTaken(z, data, offset + |length|, payload, coded);
  }

  /**
   * A string comes back exactly when the integer coding can carry the length of its payload,
   * whether or not Huffman coding was asked for and paid off.
   */
  lemma {:induction false} StringRoundTrip(z: Compressor, data: Bytes, offset: nat, raw: Bytes, prefixBits: nat, pattern: nat, huffman: bool)
    requires Lossless(z) && StringPattern(pattern, prefixBits)
    requires At(data, offset, EncodeString(z, raw, prefixBits, pattern, huffman))
    ensures DecodeString(z, data, offset, prefixBits) ==
            if |Payload(z, raw, huffman)| < Ceiling(prefixBits)
            then Ok((raw, offset + |EncodeString(z, raw, prefixBits, pattern, huffman)|))
            else Err(BadLength(ContinuationTooLong))
  {
    EncodeStringUnfolds(z, raw, prefixBits, pattern, huffman);
    PayloadIsRead(z, data, offset, Payload(z, raw, huffman), prefixBits, pattern, UsesHuffman(z, raw, huffman));
    assert z.expand(z.compress(raw)) == Ok(raw);
  }

  lemma {:induction false} StringsFit()
    ensures StringPattern(0, 7)
  {
    Pow2Values();
    ZeroBits(7);
  }

  lemma {:induction false} ZeroBits(n: nat)
    ensures LowBits(0, n) == 0 && Shr(0, n) == 0
  {
    if n > 0 {
      ZeroBits(n - 1);
    }
  }

  /** `encode_string` of HPACK: a seven-bit prefix and no pattern. */
  function HpackString(z: Compressor, raw: Bytes, huffman: bool): (r: Bytes)
    ensures |r| > 0
  {
    StringsFit();
    EncodeString(z, raw, 7, 0, huffman)
  }

  /** The first payload length that no longer comes back from a seven-bit prefix. */
  const LENGTH_CEILING: nat := 0x8_0000_007F

  lemma {:induction false} HpackStringRoundTrip(z: Compressor, data: Bytes, offset: nat, raw: Bytes, huffman: bool)
    requires Lossless(z) && At(data, offset, HpackString(z, raw, huffman))
    requires |Payload(z, raw, huffman)| < LENGTH_CEILING
    ensures DecodeString(z, data, offset, 7) == Ok((raw, offset + |HpackString(z, raw, huffman)|))
  {
    StringsFit();
    Pow2Values();
    StringRoundTrip(z, data, offset, raw, 7, 0, huffman);
  }
}
