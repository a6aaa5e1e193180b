/** WebSocket frames as the octets of one client: sections 5.2 and 5.3 of RFC 6455. */
module WebSocketFrame {
  import opened Wrappers
  import opened Octets
  import opened BigEndians

  // Masking.

  /** Exclusive or of two numbers, bit by bit. */
  function Xor(a: nat, b: nat): nat
    decreases a + b
  {
    if a == 0 && b == 0 then 0 else (if a % 2 == b % 2 then 0 else 1) + 2 * Xor(a / 2, b / 2)
  }

  lemma {:induction false} XorUnfolds(a: nat, b: nat)
    ensures Xor(a, b) == (if a % 2 == b % 2 then 0 else 1) + 2 * Xor(a / 2, b / 2)
  {
  }

  lemma {:induction false} XorTwice(a: nat, b: nat)
    ensures Xor(Xor(a, b), b) == a
    decreases a + b
  {
    if a != 0 || b != 0 {
      XorTwice(a / 2, b / 2);
      XorUnfolds(Xor(a, b), b);
    }
  }

  lemma {:induction false} XorBelow(a: nat, b: nat, n: nat)
    requires a < Pow2(n) && b < Pow2(n)
    ensures Xor(a, b) < Pow2(n)
    decreases n
  {
    if n > 0 {
      XorBelow(a / 2, b / 2, n - 1);
      XorUnfolds(a, b);
    }
  }

  /** Numbers that are put together from a high and a low part are xored part by part. */
  lemma {:induction false} XorOfParts(a: nat, b: nat, x: nat, y: nat, n: nat)
    requires x < Pow2(n) && y < Pow2(n)
    ensures Xor(Shl(a, n) + x, Shl(b, n) + y) == Shl(Xor(a, b), n) + Xor(x, y)
    decreases n
  {
    if n > 0 {
      XorOfParts(a, b, x / 2, y / 2, n - 1);
      XorUnfolds(Shl(a, n) + x, Shl(b, n) + y);
      XorUnfolds(x, y);
      assert (Shl(a, n) + x) / 2 == Shl(a, n - 1) + x / 2;
      assert (Shl(b, n) + y) / 2 == Shl(b, n - 1) + y / 2;
    }
  }

  function XorOctet(x: Octet, y: Octet): Octet {
    Pow2Values();
    XorBelow(x, y, 8);
    Xor(x, y)
  }

  /** The masking key as often as it takes. */
  function Repeated(mask: Bytes, length: nat): (r: Bytes)
    requires |mask| > 0
    ensures |r| == length
  {
    seq(length, i requires 0 <= i < length => mask[i % |mask|])
  }

  /** `unmask_payload`: one exclusive or over the whole payload as a number. */
  function Unmask(payload: Bytes, mask: Bytes): (r: Bytes)
    ensures |r| == |payload|
  {
    if |payload| == 0 || |mask| == 0 then payload
    else BigEndian(Xor(FromBig(payload), FromBig(Repeated(mask, |payload|))), |payload|)
  }

  lemma {:induction false} ShlEight(v: nat)
    ensures Shl(v, 8) == 256 * v
  {
    assert Shl(v, 1) == 2 * v;
    assert Shl(v, 2) == 4 * v;
    assert Shl(v, 4) == 16 * v;
    assert Shl(v, 6) == 64 * v;
    assert Shl(v, 7) == 128 * v;
  }

  /** The exclusive or of two big numbers is that of their octets. */
  lemma {:induction false} XorIsOctetwise(p: Bytes, q: Bytes)
    requires |p| == |q|
    ensures var r := BigEndian(Xor(FromBig(p), FromBig(q)), |p|);
            forall i :: 0 <= i < |p| ==> r[i] == XorOctet(p[i], q[i])
    decreases |p|
  {
    if |p| > 0 {
      var n := |p| - 1;
      var a, b, x, y := FromBig(p[..n]), FromBig(q[..n]), p[n], q[n];
      XorIsOctetwise(p[..n], q[..n]);
      Pow2Values();
      XorOfParts(a, b, x, y, 8);
      ShlEight(a);
      ShlEight(b);
      ShlEight(Xor(a, b));
      var w: nat := Xor(FromBig(p), FromBig(q));
      assert w == 256 * Xor(a, b) + XorOctet(x, y);
      assert w / 256 == Xor(a, b) && w % 256 == XorOctet(x, y);
      var r := BigEndian(w, |p|);
      assert r == BigEndian(w / 256, n) + [w % 256];
      forall i | 0 <= i < |p|
        ensures r[i] == XorOctet(p[i], q[i])
      {
        assert i < n ==> p[..n][i] == p[i] && q[..n][i] == q[i];
      }
    }
  }

  /** Section 5.3: octet i is xored with octet i modulo 4 of the key. */
  lemma {:induction false} UnmaskIsOctetwise(payload: Bytes, mask: Bytes)
    requires |mask| > 0
    ensures forall i :: 0 <= i < |payload| ==> Unmask(payload, mask)[i] == XorOctet(payload[i], mask[i % |mask|])
  {
    if |payload| > 0 {
      XorIsOctetwise(payload, Repeated(mask, |payload|));
    }
  }

  /** Masking twice gives back the payload. */
  lemma {:induction false} UnmaskTwice(payload: Bytes, mask: Bytes)
    ensures Unmask(Unmask(payload, mask), mask) == payload
  {
    if |mask| > 0 {
      UnmaskIsOctetwise(payload, mask);
      UnmaskIsOctetwise(Unmask(payload, mask), mask);
      forall i | 0 <= i < |payload|
        ensures Unmask(Unmask(payload, mask), mask)[i] == payload[i]
      {
        XorTwice(payload[i], mask[i % |mask|]);
      }
    }
  }

  // Frames.

  datatype Frame = Frame(fin: bool, opcode: nat, payload: Bytes, mask: Bytes)

  datatype Fault =
    | ReservedBits
    | ReservedOpcode
    | Unmasked
    | NonMinimalLength
    | LengthTooLong
    | FragmentedControl
    | LongControl
    | TooBig

  predicate IsControl(opcode: nat) {
    opcode >= 8
  }

  predicate IsOpcode(opcode: nat) {
    opcode <= 2 || 8 <= opcode <= 10
  }

  /** What the first two octets already rule out. */
  function HeaderFault(b1: Octet, b2: Octet): Option<Fault> {
    if b1 / 16 % 8 != 0 then Some(ReservedBits)
    else if !IsOpcode(b1 % 16) then Some(ReservedOpcode)
    else if b2 < 128 then Some(Unmasked)
    else None
  }

  /** Octets of the extended length. */
  function ExtensionOf(b2: Octet): nat {
    if b2 % 128 == 126 then 2 else if b2 % 128 == 127 then 8 else 0
  }

  function LengthFault(b2: Octet, extension: Bytes): Option<Fault> {
    if |extension| == 2 && FromBig(extension) < 126 then Some(NonMinimalLength)
    else if |extension| == 8 && extension[0] >= 128 then Some(LengthTooLong)
    else if |extension| == 8 && FromBig(extension) < 65536 then Some(NonMinimalLength)
    else None
  }

  function LengthOf(b2: Octet, extension: Bytes): nat {
    if |extension| == 0 then b2 % 128 else FromBig(extension)
  }

  function SizeFault(b1: Octet, length: nat, limit: nat): Option<Fault> {
    if IsControl(b1 % 16) && b1 < 128 then Some(FragmentedControl)
    else if IsControl(b1 % 16) && length > 125 then Some(LongControl)
    else if length > limit then Some(TooBig)
    else None
  }

  datatype Parsed = Complete(frame: Frame, length: nat) | Partial | Malformed(fault: Fault)

  /** Everything behind the length. */
  function ParseBody(data: Bytes, start: nat, b1: Octet, length: nat): Parsed
  {
    if |data| < start + 4 + length then Partial
    else
      var mask := data[start..start + 4];
      Complete(Frame(b1 >= 128, b1 % 16, Unmask(data[start + 4..start + 4 + length], mask), mask), start + 4 + length)
  }

  /** The frame at the start of `data`, as far as it is there. */
  function Parse(data: Bytes, limit: nat): Parsed {
    if |data| < 2 then Partial
    else if HeaderFault(data[0], data[1]).Some? then Malformed(HeaderFault(data[0], data[1]).value)
    else if |data| < 2 + ExtensionOf(data[1]) then Partial
    else
      var extension := data[2..2 + ExtensionOf(data[1])];
      if LengthFault(data[1], extension).Some? then Malformed(LengthFault(data[1], extension).value)
      else
        var length := LengthOf(data[1], extension);
        if SizeFault(data[0], length, limit).Some? then Malformed(SizeFault(data[0], length, limit).value)
        else ParseBody(data, 2 + |extension|, data[0], length)
  }

  /** What is known from the first octets stays so, however many follow. */
  lemma {:induction false} ParseOfPrefix(data: Bytes, more: Bytes, limit: nat)
    requires data <= more && !Parse(data, limit).Partial?
    ensures Parse(more, limit) == Parse(data, limit)
  {
    if !HeaderFault(data[0], data[1]).Some? {
      var e := ExtensionOf(data[1]);
      assert more[2..2 + e] == data[2..2 + e];
      var extension := data[2..2 + e];
      if LengthFault(data[1], extension).None? {
        var start, length := 2 + e, LengthOf(data[1], extension);
        if SizeFault(data[0], length, limit).None? {
          assert more[start..start + 4] == data[start..start + 4];
          assert more[start + 4..start + 4 + length] == data[start + 4..start + 4 + length];
        }
      }
    }
  }

  lemma {:induction false} CompleteIsWithin(data: Bytes, limit: nat)
    ensures Parse(data, limit).Complete? ==> 6 <= Parse(data, limit).length <= |data|
  {
  }

  /** All frames of a whole connection, up to the first fault or the end. */
  function Frames(data: Bytes, limit: nat): seq<Frame>
    decreases |data|
  {
    CompleteIsWithin(data, limit);
    match Parse(data, limit)
    case Complete(frame, length) => [frame] + Frames(data[length..], limit)
    case _ => []
  }
}
