/**
 * Huffman coding with any prefix code whose end-of-string word is all ones: section 5.2 of
 * RFC 7541. Encoding and decoding are inverse to each other in both directions.
 */
module Huffman {
  import opened Wrappers
  import opened Octets
  import opened BitStrings

  type Symbol = s: int | 0 <= s <= 256

  const EOS: Symbol := 256

  /** The code word of every symbol. */
  type Code = seq<Bits>

  ghost predicate PrefixCode(code: Code) {
    && |code| == 257
    && (forall i :: 0 <= i < 257 ==> |code[i]| > 0)
    && (forall i, j :: 0 <= i < 257 && 0 <= j < 257 && i != j ==> !(code[i] <= code[j]))
    && |code[EOS]| >= 8
    && code[EOS] == Ones(|code[EOS]|)
  }

  // Decoding trie.

  datatype Trie = Empty | Leaf(symbol: Symbol) | Node(zero: Trie, one: Trie)

  function Child(t: Trie, bit: bool): Trie {
    if !t.Node? then Empty else if bit then t.one else t.zero
  }

  function Walk(t: Trie, path: Bits): Trie
    decreases |path|
  {
    if |path| == 0 then t else Walk(Child(t, path[0]), path[1..])
  }

  function Insert(t: Trie, word: Bits, symbol: Symbol): Trie
    decreases |word|
  {
    if |word| == 0 then Leaf(symbol)
    else
      var zero, one := Child(t, false), Child(t, true);
      if word[0] then Node(zero, Insert(one, word[1..], symbol))
      else Node(Insert(zero, word[1..], symbol), one)
  }

  /** The trie holding the first `n` words. */
  function Build(code: Code, n: nat): Trie
    requires n <= |code| <= 257
  {
    if n == 0 then Node(Empty, Empty) else Insert(Build(code, n - 1), code[n - 1], n - 1)
  }

  lemma {:induction false} WalkAppend(t: Trie, p: Bits, q: Bits)
    ensures Walk(t, p + q) == Walk(Walk(t, p), q)
    decreases |p|
  {
    if |p| == 0 {
      assert p + q == q;
    } else {
      WalkAppend(Child(t, p[0]), p[1..], q);
      assert (p + q)[1..] == p[1..] + q;
    }
  }

  lemma {:induction false} WalkFromLeaf(t: Trie, p: Bits)
    requires !t.Node? && |p| > 0
    ensures Walk(t, p) == Empty
    decreases |p|
  {
    if |p| > 1 {
      WalkFromLeaf(Empty, p[1..]);
    }
  }

  /** A new word for `word` disturbs nothing that the trie holds already. */
  ghost predicate Free(t: Trie, word: Bits) {
    match t
    case Empty => true
    case Leaf(_) => false
    case Node(_, _) => |word| > 0 && Free(Child(t, word[0]), word[1..])
  }

  lemma {:induction false} InsertWalk(t: Trie, word: Bits, symbol: Symbol, p: Bits)
    requires Free(t, word)
    ensures p == word ==> Walk(Insert(t, word, symbol), p) == Leaf(symbol)
    ensures p < word ==> Walk(Insert(t, word, symbol), p).Node?
    ensures !(p <= word) ==> Walk(Insert(t, word, symbol), p) == Walk(t, p)
  {
    if |word| == 0 {
      if |p| > 0 {
        WalkFromLeaf(t, p);
        WalkFromLeaf(Leaf(symbol), p);
      }
    } else if |p| > 0 {
      var child := Child(t, p[0]);
      if p[0] == word[0] {
        InsertWalk(child, word[1..], symbol, p[1..]);
        assert p == [p[0]] + p[1..] && word == [p[0]] + word[1..];
      }
    }
  }

  lemma {:induction false} WhyNotFree(t: Trie, word: Bits) returns (q: Bits)
    requires !Free(t, word)
    ensures q <= word
    ensures Walk(t, q).Leaf? || (q == word && Walk(t, q).Node?)
  {
    if t.Leaf? || |word| == 0 {
      q := [];
    } else {
      var tail := WhyNotFree(Child(t, word[0]), word[1..]);
      q := [word[0]] + tail;
      assert word == [word[0]] + word[1..];
      assert q[1..] == tail;
    }
  }

  /** What each place of the trie of the first `n` words says. */
  lemma {:induction false} BuildWalk(code: Code, n: nat, p: Bits)
    requires PrefixCode(code) && n <= 257
    ensures Walk(Build(code, n), p).Leaf? ==>
              var s := Walk(Build(code, n), p).symbol; s < n && code[s] == p
    ensures Walk(Build(code, n), p).Node? && |p| > 0 ==> exists s :: 0 <= s < n && p < code[s]
    ensures forall s :: 0 <= s < n && code[s] == p ==> Walk(Build(code, n), p) == Leaf(s)
    decreases n, 0
  {
    if n == 0 {
      if |p| > 0 {
        WalkFromLeaf(Empty, p);
        if |p| > 1 {
          WalkFromLeaf(Empty, p[1..]);
        }
      }
    } else {
      BuildWalk(code, n - 1, p);
      NewWordIsFree(code, n - 1);
      InsertWalk(Build(code, n - 1), code[n - 1], n - 1, p);
      if p < code[n - 1] {
        assert forall s :: 0 <= s < n && code[s] == p ==> false;
      }
    }
  }

  lemma {:induction false} NewWordIsFree(code: Code, n: nat)
    requires PrefixCode(code) && n < 257
    ensures Free(Build(code, n), code[n])
    decreases n, 1
  {
    if !Free(Build(code, n), code[n]) {
      var q := WhyNotFree(Build(code, n), code[n]);
      BuildWalk(code, n, q);
      assert false;
    }
  }

  function Root(code: Code): Trie
    requires |code| == 257
  {
    Build(code, 257)
  }

  lemma {:induction false} WordLeadsToItsSymbol(code: Code, s: Symbol)
    requires PrefixCode(code)
    ensures Walk(Root(code), code[s]) == Leaf(s)
  {
    BuildWalk(code, 257, code[s]);
  }

  lemma {:induction false} PrefixOfWordIsInner(code: Code, s: Symbol, p: Bits, q: Bits)
    requires PrefixCode(code) && p + q == code[s] && |q| > 0
    ensures Walk(Root(code), p).Node?
  {
    WordLeadsToItsSymbol(code, s);
    WalkAppend(Root(code), p, q);
    if !Walk(Root(code), p).Node? {
      WalkFromLeaf(Walk(Root(code), p), q);
    }
  }

  // Encoding.

  function EncodedBits(code: Code, text: Bytes): Bits
    requires |code| == 257
  {
    if |text| == 0 then [] else EncodedBits(code, text[..|text| - 1]) + code[text[|text| - 1]]
  }

  /** How many one-bits fill the last octet. */
  function Padding(length: nat): (n: nat)
    ensures n <= 7 && (length + n) % 8 == 0
  {
    (8 - length % 8) % 8
  }

  function Encode(code: Code, text: Bytes): Bytes
    requires |code| == 257
  {
    var bits := EncodedBits(code, text);
    Pack(bits + Ones(Padding(|bits|)))
  }

  // Decoding.

  datatype HuffmanError = InvalidCode | EosInString | PaddingTooLong | PaddingNotEos

  /** Where the decoder is: the trie node, the symbols so far, the bits since the last symbol. */
  datatype Cursor = Cursor(node: Trie, out: Bytes, padding: nat)

  function Advance(root: Trie, c: Cursor, bit: bool): Result<Cursor, HuffmanError> {
    match Child(c.node, bit)
    case Empty => Err(InvalidCode)
    case Leaf(s) => if s == EOS then Err(EosInString) else Ok(Cursor(root, c.out + [s], 0))
    case Node(_, _) => Ok(Cursor(Child(c.node, bit), c.out, c.padding + 1))
  }

  function Run(root: Trie, c: Cursor, bits: Bits): Result<Cursor, HuffmanError>
    decreases |bits|
  {
    if |bits| == 0 then Ok(c)
    else
      var next :- Advance(root, c, bits[0]);
      Run(root, next, bits[1..])
  }

  /** Following one-bits from `t` ends at the end-of-string symbol. */
  predicate OnesReachEos(t: Trie) {
    match t
    case Empty => false
    case Leaf(s) => s == EOS
    case Node(_, one) => OnesReachEos(one)
  }

  function Finish(c: Cursor): Result<Bytes, HuffmanError> {
    if c.padding > 7 then Err(PaddingTooLong)
    else if c.padding != 0 && !OnesReachEos(c.node) then Err(PaddingNotEos)
    else Ok(c.out)
  }

  function Decode(code: Code, data: Bytes): Result<Bytes, HuffmanError>
    requires |code| == 257
  {
    var root := Root(code);
    var c :- Run(root, Cursor(root, [], 0), Unpack(data));
    Finish(c)
  }

  // Decoding undoes encoding.

  lemma {:induction false} RunRestOfWord(code: Code, s: Symbol, p: Bits, q: Bits, out: Bytes, rest: Bits)
    requires PrefixCode(code) && s != EOS && p + q == code[s] && |q| > 0
    ensures var root := Root(code);
            Run(root, Cursor(Walk(root, p), out, |p|), q + rest) == Run(root, Cursor(root, out + [s], 0), rest)
    decreases |q|
  {
    var root := Root(code);
    var p' := p + [q[0]];
    assert p' + q[1..] == code[s];
    assert (q + rest)[0] == q[0] && (q + rest)[1..] == q[1..] + rest;
    PrefixOfWordIsInner(code, s, p, q);
    WalkAppend(root, p, [q[0]]);
    assert Walk(root, p') == Child(Walk(root, p), q[0]);
    if |q| == 1 {
      assert p' == code[s];
      WordLeadsToItsSymbol(code, s);
      assert q[1..] + rest == rest;
    } else {
      PrefixOfWordIsInner(code, s, p', q[1..]);
      RunRestOfWord(code, s, p', q[1..], out, rest);
    }
  }

  lemma {:induction false} RunText(code: Code, text: Bytes, rest: Bits)
    requires PrefixCode(code)
    ensures var root := Root(code);
            Run(root, Cursor(root, [], 0), EncodedBits(code, text) + rest) == Run(root, Cursor(root, text, 0), rest)
    decreases |text|
  {
    var root := Root(code);
    if |text| == 0 {
      assert EncodedBits(code, text) + rest == rest;
    } else {
      var init, last := text[..|text| - 1], text[|text| - 1];
      RunText(code, init, code[last] + rest);
      assert EncodedBits(code, text) + rest == EncodedBits(code, init) + (code[last] + rest);
      assert [] + code[last] == code[last];
      RunRestOfWord(code, last, [], code[last], init, rest);
      assert init + [last] == text;
    }
  }

  lemma {:induction false} RunOnes(code: Code, i: nat, j: nat, out: Bytes)
    requires PrefixCode(code) && i + j <= 7
    ensures var root := Root(code);
            Run(root, Cursor(Walk(root, Ones(i)), out, i), Ones(j)) ==
            Ok(Cursor(Walk(root, Ones(i + j)), out, i + j))
    decreases j
  {
    if j > 0 {
      var root := Root(code);
      OnesAppend(i + 1, |code[EOS]| - i - 1);
      PrefixOfWordIsInner(code, EOS, Ones(i + 1), Ones(|code[EOS]| - i - 1));
      OnesAppend(i, |code[EOS]| - i);
      PrefixOfWordIsInner(code, EOS, Ones(i), Ones(|code[EOS]| - i));
      WalkAppend(root, Ones(i), [true]);
      assert Ones(i) + [true] == Ones(i + 1) && Ones(j)[1..] == Ones(j - 1);
      assert Walk(root, Ones(i + 1)) == Child(Walk(root, Ones(i)), true);
      RunOnes(code, i + 1, j - 1, out);
    }
  }

  lemma {:induction false} OnesLeadToEos(code: Code, i: nat)
    requires PrefixCode(code) && i <= |code[EOS]|
    ensures OnesReachEos(Walk(Root(code), Ones(i)))
    decreases |code[EOS]| - i
  {
    if i == |code[EOS]| {
      WordLeadsToItsSymbol(code, EOS);
    } else {
      OnesLeadToEos(code, i + 1);
      OnesAppend(i, |code[EOS]| - i);
      PrefixOfWordIsInner(code, EOS, Ones(i), Ones(|code[EOS]| - i));
      WalkAppend(Root(code), Ones(i), [true]);
      assert Ones(i) + [true] == Ones(i + 1);
      assert Walk(Root(code), Ones(i + 1)) == Child(Walk(Root(code), Ones(i)), true);
    }
  }

  lemma {:induction false} DecodeOfEncode(code: Code, text: Bytes)
    requires PrefixCode(code)
    ensures Decode(code, Encode(code, text)) == Ok(text)
  {
    var root, bits := Root(code), EncodedBits(code, text);
    var pad := Padding(|bits|);
    UnpackOfPack(bits + Ones(pad));
    RunText(code, text, Ones(pad));
    assert Walk(root, Ones(0)) == root;
    RunOnes(code, 0, pad, text);
    OnesLeadToEos(code, pad);
  }

  // Encoding undoes decoding.

  /** An accepted run reads whole words, then a proper beginning of one. */
  lemma {:induction false} RunReadsWords(code: Code, p: Bits, before: Bytes, bits: Bits)
    returns (tail: Bits)
    requires PrefixCode(code) && Walk(Root(code), p).Node?
    requires Run(Root(code), Cursor(Walk(Root(code), p), before, |p|), bits).Ok?
    ensures var c := Run(Root(code), Cursor(Walk(Root(code), p), before, |p|), bits).value;
            c == Cursor(Walk(Root(code), tail), c.out, |tail|) &&
            EncodedBits(code, before) + p + bits == EncodedBits(code, c.out) + tail
    decreases |bits|
  {
    var root := Root(code);
    if |bits| == 0 {
      tail := p;
      assert EncodedBits(code, before) + p + bits == EncodedBits(code, before) + tail;
    } else {
      var p' := p + [bits[0]];
      WalkAppend(root, p, [bits[0]]);
      assert Walk(root, p') == Child(Walk(root, p), bits[0]);
      assert EncodedBits(code, before) + p + bits == EncodedBits(code, before) + p' + bits[1..];
      match Walk(root, p') {
        case Leaf(s) =>
          BuildWalk(code, 257, p');
          assert (before + [s])[..|before|] == before;
          assert Walk(root, []) == root;
          tail := RunReadsWords(code, [], before + [s], bits[1..]);
          assert EncodedBits(code, before) + p' + bits[1..] == EncodedBits(code, before + [s]) + [] + bits[1..];
        case Node(_, _) =>
          tail := RunReadsWords(code, p', before, bits[1..]);
        case Empty =>
          assert false;
      }
    }
  }

  lemma {:induction false} EosThroughOnes(code: Code, p: Bits)
    requires PrefixCode(code) && OnesReachEos(Walk(Root(code), p))
    ensures |p| <= |code[EOS]| && p == Ones(|p|)
    decreases Walk(Root(code), p)
  {
    match Walk(Root(code), p) {
      case Leaf(_) =>
        BuildWalk(code, 257, p);
      case Node(_, _) =>
        WalkAppend(Root(code), p, [true]);
        assert Walk(Root(code), p + [true]) == Child(Walk(Root(code), p), true);
        EosThroughOnes(code, p + [true]);
        assert p == (p + [true])[..|p|];
        assert p == Ones(|p|);
    }
  }

  lemma {:induction false} EncodeOfDecode(code: Code, data: Bytes)
    requires PrefixCode(code) && Decode(code, data).Ok?
    ensures Encode(code, Decode(code, data).value) == data
  {
    var root := Root(code);
    var text := Decode(code, data).value;
    BuildIsInner(code, 257);
    assert Walk(root, []) == root;
    assert EncodedBits(code, []) + [] + Unpack(data) == Unpack(data);
    var tail := RunReadsWords(code, [], [], Unpack(data));
    if |tail| > 0 {
      EosThroughOnes(code, tail);
    }
    assert tail == Ones(|tail|);
    var words := EncodedBits(code, text);
    assert Unpack(data) == words + Ones(|tail|);
    PaddingIsForced(|words|, |tail|, |data|);
    PackOfUnpack(data);
  }

  lemma {:induction false} PaddingIsForced(length: nat, n: nat, octets: nat)
    requires length + n == 8 * octets && n <= 7
    ensures n == Padding(length)
  {
  }

  lemma {:induction false} BuildIsInner(code: Code, n: nat)
    requires PrefixCode(code) && n <= 257
    ensures Build(code, n).Node?
  {
  }

  /**
   * The two-sided inverse: `data` decodes to `text` exactly when it is the encoding of `text`.
   * In particular the accepted paddings are exactly the ones the encoder writes.
   */
  lemma {:induction false} HuffmanInverse(code: Code, data: Bytes, text: Bytes)
    requires PrefixCode(code)
    ensures Decode(code, data) == Ok(text) <==> data == Encode(code, text)
  {
    DecodeOfEncode(code, text);
    if Decode(code, data).Ok? {
      EncodeOfDecode(code, data);
    }
  }
}
