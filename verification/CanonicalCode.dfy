/**
 * Why the table of RFC 7541, appendix B, is a prefix code: it is canonical. Codes of one
 * length are consecutive numbers in symbol order, and those of the next length continue
 * behind them with one more bit.
 */
module CanonicalCode {
  import opened Octets
  import opened BitStrings
  import opened Huffman

  /**
   * For each length: its first code, how many codes have it, how many are shorter. As with
   * Octets.At, the folds keep the rows out of sight until they are asked for.
   */
  function LengthRow(l: int, folds: nat := 2): (int, int, int)
    decreases l, folds
  {
    if folds > 0 then LengthRow(l, folds - 1) else Row(l)
  }

  lemma {:induction false} LengthRowUnfolds(l: int)
    ensures LengthRow(l) == Row(l)
  {
    assert LengthRow(l, 1) == LengthRow(l, 0);
  }

  function Row(l: int): (int, int, int) {
    if l == 5 then (0, 10, 0)
    else if l == 6 then (20, 26, 10)
    else if l == 7 then (92, 32, 36)
    else if l == 8 then (248, 6, 68)
    else if l == 9 then (508, 0, 74)
    else if l == 10 then (1016, 5, 74)
    else if l == 11 then (2042, 3, 79)
    else if l == 12 then (4090, 2, 82)
    else if l == 13 then (8184, 6, 84)
    else if l == 14 then (16380, 2, 90)
    else if l == 15 then (32764, 3, 92)
    else if l == 16 then (65534, 0, 95)
    else if l == 17 then (131068, 0, 95)
    else if l == 18 then (262136, 0, 95)
    else if l == 19 then (524272, 3, 95)
    else if l == 20 then (1048550, 8, 98)
    else if l == 21 then (2097116, 13, 106)
    else if l == 22 then (4194258, 26, 119)
    else if l == 23 then (8388568, 29, 145)
    else if l == 24 then (16777194, 12, 174)
    else if l == 25 then (33554412, 4, 186)
    else if l == 26 then (67108832, 15, 190)
    else if l == 27 then (134217694, 19, 205)
    else if l == 28 then (268435426, 29, 224)
    else if l == 29 then (536870910, 0, 253)
    else if l == 30 then (1073741820, 4, 253)
    else (0, 0, 0)
  }

  /** The symbol of `entry` stands where its code says, in the order by length and number. */
  predicate CanonicalEntry(entry: (int, int), order: int -> int, s: int) {
    var (code, length) := entry;
    var (first, count, shorter) := LengthRow(length);
    5 <= length <= 30 && 0 <= code - first < count && order(shorter + code - first) == s
  }

  ghost predicate CanonicalTable(table: seq<(int, int)>, order: int -> int) {
    |table| == 257 && table[EOS] == (0x3FFF_FFFF, 30) &&
    forall s: Symbol :: CanonicalEntry(table[s], order, s)
  }

  function WordOf(entry: (int, int)): Bits {
    if entry.0 >= 0 && entry.1 >= 0 then ToBits(entry.0, entry.1) else []
  }

  /** The code words a table of numbers and lengths stands for. */
  function Words(table: seq<(int, int)>): (code: Code)
    ensures |code| == |table|
  {
    seq(|table|, s requires 0 <= s < |table| => WordOf(table[s]))
  }

  lemma {:induction false} LongerCodesAreLarger(l: nat, l': nat)
    requires 5 <= l < l' <= 30
    ensures 0 <= LengthRow(l).0 && 0 <= LengthRow(l).1
    ensures LengthRow(l').0 >= Shl(LengthRow(l).0 + LengthRow(l).1, l' - l)
  {
    NextLength(l);
    if l' > l + 1 {
      LongerCodesAreLarger(l, l' - 1);
      NextLength(l' - 1);
    }
  }

  lemma {:induction false} NextLength(l: nat)
    requires 5 <= l < 30
    ensures LengthRow(l + 1).0 == 2 * (LengthRow(l).0 + LengthRow(l).1)
    ensures 0 <= LengthRow(l).0 && 0 <= LengthRow(l).1
  {
    LengthRowUnfolds(l);
    LengthRowUnfolds(l + 1);
  }

  lemma {:induction false} NumbersFit(l: nat)
    requires 5 <= l <= 30
    ensures 0 <= LengthRow(l).0 && LengthRow(l).0 + LengthRow(l).1 <= Pow2(l)
  {
    assert Pow2(30) == 0x4000_0000 by {
      ThirtyBits();
    }
    LengthRowUnfolds(30);
    if l < 30 {
      LongerCodesAreLarger(l, 30);
      ShlOfPow2(l, 30 - l);
      if LengthRow(l).0 + LengthRow(l).1 > Pow2(l) {
        ShlMonotone(Pow2(l) + 1, LengthRow(l).0 + LengthRow(l).1, 30 - l);
      }
    }
  }

  lemma {:induction false} ShlOfPow2(l: nat, n: nat)
    ensures Shl(Pow2(l), n) == Pow2(l + n) < Shl(Pow2(l) + 1, n)
  {
    if n > 0 {
      ShlOfPow2(l, n - 1);
    }
  }

  lemma {:induction false} ShlMonotone(x: nat, y: nat, n: nat)
    requires x <= y
    ensures Shl(x, n) <= Shl(y, n)
  {
    if n > 0 {
      ShlMonotone(x, y, n - 1);
    }
  }

  lemma {:induction false} ThirtyBits()
    ensures Pow2(30) == 0x4000_0000
  {
    Pow2Values();
    Pow2Add(8, 7);
    Pow2Add(15, 15);
  }

  lemma {:induction false} LongerLiesBeyond(c: int, l: nat, c': int, l': nat)
    requires 5 <= l < l' <= 30
    requires LengthRow(l).0 <= c < LengthRow(l).0 + LengthRow(l).1 && LengthRow(l').0 <= c'
    ensures 0 <= c && c' >= Shl(c + 1, l' - l)
  {
    LongerCodesAreLarger(l, l');
    ShlMonotone(c + 1, LengthRow(l).0 + LengthRow(l).1, l' - l);
  }

  /** Equal lengths differ in the number; a longer code lies beyond every extension of a shorter one. */
  lemma {:induction false} EntriesFarApart(order: int -> int, c: int, l: nat, i: Symbol, c': int, l': nat, j: Symbol)
    requires i != j
    requires CanonicalEntry((c, l), order, i) && CanonicalEntry((c', l'), order, j)
    ensures 0 <= c && (l == l' ==> c != c')
    ensures l < l' ==> c' >= Shl(c + 1, l' - l)
  {
    NumbersFit(l);
    if l < l' {
      LongerLiesBeyond(c, l, c', l');
    }
  }

  lemma {:induction false} FarApartNumbers(u: Bits, w: Bits)
    requires |u| == |w| ==> Value(u) != Value(w)
    requires |u| < |w| ==> Value(w) >= Shl(Value(u) + 1, |w| - |u|)
    ensures !(u <= w)
  {
    if u <= w {
      var rest := w[|u|..];
      assert w == u + rest && |w| - |u| == |rest|;
      ExtensionNumber(u, rest);
    }
  }

  lemma {:induction false} ExtensionNumber(u: Bits, rest: Bits)
    ensures Value(u + rest) < Shl(Value(u) + 1, |rest|)
    ensures |rest| == 0 ==> u + rest == u
  {
    if |rest| == 0 {
      assert u + rest == u;
    } else {
      ExtensionNumber(u, rest[..|rest| - 1]);
      assert (u + rest)[..|u + rest| - 1] == u + rest[..|rest| - 1];
    }
  }

  lemma {:induction false} WordOfEntry(table: seq<(int, int)>, order: int -> int, s: Symbol)
    requires CanonicalTable(table, order)
    ensures var word := Words(table)[s];
            table[s] == (Value(word), |word|) && |word| >= 5
  {
    assert CanonicalEntry(table[s], order, s);
    NumbersFit(table[s].1);
    ValueOfToBits(table[s].0, table[s].1);
  }

  lemma {:induction false} NoWordBeginsAnother(table: seq<(int, int)>, order: int -> int, i: Symbol, j: Symbol)
    requires CanonicalTable(table, order) && i != j
    ensures !(Words(table)[i] <= Words(table)[j])
  {
    var code := Words(table);
    WordOfEntry(table, order, i);
    WordOfEntry(table, order, j);
    EntriesFarApart(order, table[i].0, table[i].1, i, table[j].0, table[j].1, j);
    FarApartNumbers(code[i], code[j]);
  }

  lemma {:induction false} EosWordIsOnes(word: Bits)
    requires |word| == 30 && Value(word) == 0x3FFF_FFFF
    ensures word == Ones(30)
  {
    ValueOfOnes(30);
    ThirtyBits();
    ToBitsOfValue(Ones(30));
    ToBitsOfValue(word);
  }

  /** A canonical table is a prefix code with an all-ones end-of-string word. */
  lemma {:induction false} CanonicalTableIsPrefixCode(table: seq<(int, int)>, order: int -> int)
    requires CanonicalTable(table, order)
    ensures PrefixCode(Words(table))
  {
    var code := Words(table);
    forall i, j | 0 <= i < 257 && 0 <= j < 257 && i != j
      ensures !(code[i] <= code[j])
    {
      NoWordBeginsAnother(table, order, i, j);
    }
    forall s | 0 <= s < 257
      ensures |code[s]| > 0
    {
      WordOfEntry(table, order, s);
    }
    WordOfEntry(table, order, EOS);
    EosWordIsOnes(code[EOS]);
  }
}
