/** The bit-accumulator encoder and the trie decoder, for the table of any prefix code. */
module HuffmanCoder {
  import opened Wrappers
  import opened Octets
  import opened BitStrings
  import opened Huffman

  /** The numbers and lengths in `table` spell the words of `code`. */
  ghost predicate Spells(table: seq<(int, int)>, code: Code) {
    |table| == |code| == 257 &&
    forall s: Symbol :: table[s] == (Value(code[s]), |code[s]|)
  }

  /** `(bits << width) | number`: no bit of `number` lies above `width`, so "or" adds. */
  function ShiftIn(bits: nat, width: nat, number: nat): nat {
    Shl(bits, width) + number
  }

  /** `huffman_encode`: shifts every code into one accumulator and takes whole octets off its top. */
  method HuffmanEncode(table: seq<(int, int)>, ghost code: Code, data: Bytes) returns (out: Bytes)
    requires |code| == 257 && Spells(table, code)
    requires forall s: Symbol :: code[s] != []
    ensures out == Encode(code, data)
  {
    var bits: nat, length: nat := 0, 0;
    out := [];
    ghost var all: Bits := [];
    for i := 0 to |data|
      invariant all == EncodedBits(code, data[..i])
      invariant Accumulates(bits, length, out, all)
      invariant length < 8
    {
      var (number, width) := table[data[i]];
      ghost var word := code[data[i]];
      WordShiftedIn(bits, length, out, all, word);
      bits := ShiftIn(bits, width, number);
      length := length + width;
      all := all + word;
      while length >= 8
        invariant Accumulates(bits, length, out, all)
      {
        OctetTaken(bits, length, out, all);
        length := length - 8;
        out := out + [Shr(bits, length) % 256];
      }
      assert data[..i + 1][..i] == data[..i];
    }
    assert data[..|data|] == data;
    if length > 0 {
      LastOctet(bits, length, out, all);
      bits := ShiftIn(bits, 8 - length, Pow2(8 - length) - 1);
      out := out + [bits % 256];
    } else {
      assert all[..8 * |out|] == all && all + Ones(0) == all;
    }
  }

  /** `out` packs the first bits of `all`; `length` of the bits in the accumulator are not out yet. */
  ghost predicate Accumulates(bits: nat, length: nat, out: Bytes, all: Bits) {
    bits == Value(all) && |all| == 8 * |out| + length && out == Pack(all[..8 * |out|])
  }

  lemma {:induction false} WordShiftedIn(bits: nat, length: nat, out: Bytes, all: Bits, word: Bits)
    requires Accumulates(bits, length, out, all)
    ensures Accumulates(ShiftIn(bits, |word|, Value(word)), length + |word|, out, all + word)
  {
    assert Value(all + word) == ShiftIn(bits, |word|, Value(word)) by {
      ValueAppend(all, word);
    }
    assert (all + word)[..8 * |out|] == all[..8 * |out|];
  }

  lemma {:induction false} OctetTaken(bits: nat, length: nat, out: Bytes, all: Bits)
    requires Accumulates(bits, length, out, all) && length >= 8
    ensures Accumulates(bits, length - 8, out + [Shr(bits, length - 8) % 256], all)
  {
    var at := 8 * |out|;
    OctetInside(all, at);
    PackAppend(all[..at], all[at..at + 8]);
    assert all[..at + 8] == all[..at] + all[at..at + 8];
  }

  lemma {:induction false} LastOctet(bits: nat, length: nat, out: Bytes, all: Bits)
    requires Accumulates(bits, length, out, all) && 0 < length < 8
    ensures out + [ShiftIn(bits, 8 - length, Pow2(8 - length) - 1) % 256] == Pack(all + Ones(Padding(|all|)))
  {
    var n := 8 - length;
    assert Padding(|all|) == n;
    ValueOfOnes(n);
    WordShiftedIn(bits, length, out, all, Ones(n));
    LastOctetOfAll(ShiftIn(bits, n, Pow2(n) - 1), out, all + Ones(n));
  }

  lemma {:induction false} LastOctetOfAll(bits: nat, out: Bytes, all: Bits)
    requires Accumulates(bits, 8, out, all)
    ensures out + [bits % 256] == Pack(all)
  {
    OctetTaken(bits, 8, out, all);
    assert all[..8 * |out| + 8] == all;
  }

  /** `huffman_decode`: walks the trie bit by bit, octet by octet. */
  method HuffmanDecode(root: Trie, ghost code: Code, data: Bytes) returns (r: Result<Bytes, HuffmanError>)
    requires |code| == 257 && root == Root(code)
    ensures r == Decode(code, data)
  {
    var c := Cursor(root, [], 0);
    for i := 0 to |data|
      invariant Run(root, Cursor(root, [], 0), Unpack(data)) == Run(root, c, Unpack(data[i..]))
    {
      var byte := data[i];
      ghost var later := Unpack(data[i + 1..]);
      assert data[i..][1..] == data[i + 1..];
      assert ToBits(byte, 8)[0..] == ToBits(byte, 8);
      for k := 0 to 8
        invariant Run(root, Cursor(root, [], 0), Unpack(data)) == Run(root, c, ToBits(byte, 8)[k..] + later)
      {
        var bit := Shr(byte, 7 - k) % 2 == 1;
        BitOfOctet(byte, 8, k);
        assert (ToBits(byte, 8)[k..] + later)[0] == bit;
        assert (ToBits(byte, 8)[k..] + later)[1..] == ToBits(byte, 8)[k + 1..] + later;
        var next := Advance(root, c, bit);
        if next.Err? {
          return Err(next.error);
        }
        c := next.value;
      }
      assert ToBits(byte, 8)[8..] + later == later;
    }
    assert data[|data|..] == [];
    r := Finish(c);
  }

  /** Bit `k` from the top of an `n`-bit number, by shifting. */
  lemma {:induction false} BitOfOctet(v: nat, n: nat, k: nat)
    requires k < n
    ensures ToBits(v, n)[k] == (Shr(v, n - 1 - k) % 2 == 1)
  {
    if k < n - 1 {
      BitOfOctet(v / 2, n - 1, k);
    }
  }
}
