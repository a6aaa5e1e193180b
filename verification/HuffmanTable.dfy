/**
 * The Huffman code of RFC 7541, appendix B, as a table and as code words.
 */
module HuffmanTable {
  import opened BitStrings
  import opened Huffman
  import opened CanonicalCode
  import opened HuffmanCoder

  function Of4(k: int, a: (int, int), b: (int, int), c: (int, int), d: (int, int)): (int, int) {
    if k == 0 then a else if k == 1 then b else if k == 2 then c else d
  }

  function Of8(k: int, a: int, b: int, c: int, d: int, e: int, f: int, g: int, h: int): int {
    if k == 0 then a else if k == 1 then b else if k == 2 then c else if k == 3 then d
    else if k == 4 then e else if k == 5 then f else if k == 6 then g else h
  }

  /** HUFFMAN_CODES: code and bit length of every symbol, four to a line from symbol 0 on. */
  function CodeAndLength(s: int): (int, int) {
    if s < 128 then
      if s < 64 then
        if s < 32 then
          if s < 16 then
            if s < 8 then
              if s < 4 then
                Of4(s - 0, (0x1FF8, 13), (0x7FFFD8, 23), (0xFFFFFE2, 28), (0xFFFFFE3, 28))
              else
                Of4(s - 4, (0xFFFFFE4, 28), (0xFFFFFE5, 28), (0xFFFFFE6, 28), (0xFFFFFE7, 28))
            else
              if s < 12 then
                Of4(s - 8, (0xFFFFFE8, 28), (0xFFFFEA, 24), (0x3FFFFFFC, 30), (0xFFFFFE9, 28))
              else
                Of4(s - 12, (0xFFFFFEA, 28), (0x3FFFFFFD, 30), (0xFFFFFEB, 28), (0xFFFFFEC, 28))
          else
            if s < 24 then
              if s < 20 then
                Of4(s - 16, (0xFFFFFED, 28), (0xFFFFFEE, 28), (0xFFFFFEF, 28), (0xFFFFFF0, 28))
              else
                Of4(s - 20, (0xFFFFFF1, 28), (0xFFFFFF2, 28), (0x3FFFFFFE, 30), (0xFFFFFF3, 28))
            else
              if s < 28 then
                Of4(s - 24, (0xFFFFFF4, 28), (0xFFFFFF5, 28), (0xFFFFFF6, 28), (0xFFFFFF7, 28))
              else
                Of4(s - 28, (0xFFFFFF8, 28), (0xFFFFFF9, 28), (0xFFFFFFA, 28), (0xFFFFFFB, 28))
        else
          if s < 48 then
            if s < 40 then
              if s < 36 then
                Of4(s - 32, (0x14, 6), (0x3F8, 10), (0x3F9, 10), (0xFFA, 12))
              else
                Of4(s - 36, (0x1FF9, 13), (0x15, 6), (0xF8, 8), (0x7FA, 11))
            else
              if s < 44 then
                Of4(s - 40, (0x3FA, 10), (0x3FB, 10), (0xF9, 8), (0x7FB, 11))
              else
                Of4(s - 44, (0xFA, 8), (0x16, 6), (0x17, 6), (0x18, 6))
          else
            if s < 56 then
              if s < 52 then
                Of4(s - 48, (0x0, 5), (0x1, 5), (0x2, 5), (0x19, 6))
              else
                Of4(s - 52, (0x1A, 6), (0x1B, 6), (0x1C, 6), (0x1D, 6))
            else
              if s < 60 then
                Of4(s - 56, (0x1E, 6), (0x1F, 6), (0x5C, 7), (0xFB, 8))
              else
                Of4(s - 60, (0x7FFC, 15), (0x20, 6), (0xFFB, 12), (0x3FC, 10))
      else
        if s < 96 then
          if s < 80 then
            if s < 72 then
              if s < 68 then
                Of4(s - 64, (0x1FFA, 13), (0x21, 6), (0x5D, 7), (0x5E, 7))
              else
                Of4(s - 68, (0x5F, 7), (0x60, 7), (0x61, 7), (0x62, 7))
            else
              if s < 76 then
                Of4(s - 72, (0x63, 7), (0x64, 7), (0x65, 7), (0x66, 7))
              else
                Of4(s - 76, (0x67, 7), (0x68, 7), (0x69, 7), (0x6A, 7))
          else
            if s < 88 then
              if s < 84 then
                Of4(s - 80, (0x6B, 7), (0x6C, 7), (0x6D, 7), (0x6E, 7))
              else
                Of4(s - 84, (0x6F, 7), (0x70, 7), (0x71, 7), (0x72, 7))
            else
              if s < 92 then
                Of4(s - 88, (0xFC, 8), (0x73, 7), (0xFD, 8), (0x1FFB, 13))
              else
                Of4(s - 92, (0x7FFF0, 19), (0x1FFC, 13), (0x3FFC, 14), (0x22, 6))
        else
          if s < 112 then
            if s < 104 then
              if s < 100 then
                Of4(s - 96, (0x7FFD, 15), (0x3, 5), (0x23, 6), (0x4, 5))
              else
                Of4(s - 100, (0x24, 6), (0x5, 5), (0x25, 6), (0x26, 6))
            else
              if s < 108 then
                Of4(s - 104, (0x27, 6), (0x6, 5), (0x74, 7), (0x75, 7))
              else
                Of4(s - 108, (0x28, 6), (0x29, 6), (0x2A, 6), (0x7, 5))
          else
            if s < 120 then
              if s < 116 then
                Of4(s - 112, (0x2B, 6), (0x76, 7), (0x2C, 6), (0x8, 5))
              else
                Of4(s - 116, (0x9, 5), (0x2D, 6), (0x77, 7), (0x78, 7))
            else
              if s < 124 then
                Of4(s - 120, (0x79, 7), (0x7A, 7), (0x7B, 7), (0x7FFE, 15))
              else
                Of4(s - 124, (0x7FC, 11), (0x3FFD, 14), (0x1FFD, 13), (0xFFFFFFC, 28))
    else
      if s < 192 then
        if s < 160 then
          if s < 144 then
            if s < 136 then
              if s < 132 then
                Of4(s - 128, (0xFFFE6, 20), (0x3FFFD2, 22), (0xFFFE7, 20), (0xFFFE8, 20))
              else
                Of4(s - 132, (0x3FFFD3, 22), (0x3FFFD4, 22), (0x3FFFD5, 22), (0x7FFFD9, 23))
            else
              if s < 140 then
                Of4(s - 136, (0x3FFFD6, 22), (0x7FFFDA, 23), (0x7FFFDB, 23), (0x7FFFDC, 23))
              else
                Of4(s - 140, (0x7FFFDD, 23), (0x7FFFDE, 23), (0xFFFFEB, 24), (0x7FFFDF, 23))
          else
            if s < 152 then
              if s < 148 then
                Of4(s - 144, (0xFFFFEC, 24), (0xFFFFED, 24), (0x3FFFD7, 22), (0x7FFFE0, 23))
              else
                Of4(s - 148, (0xFFFFEE, 24), (0x7FFFE1, 23), (0x7FFFE2, 23), (0x7FFFE3, 23))
            else
              if s < 156 then
                Of4(s - 152, (0x7FFFE4, 23), (0x1FFFDC, 21), (0x3FFFD8, 22), (0x7FFFE5, 23))
              else
                Of4(s - 156, (0x3FFFD9, 22), (0x7FFFE6, 23), (0x7FFFE7, 23), (0xFFFFEF, 24))
        else
          if s < 176 then
            if s < 168 then
              if s < 164 then
                Of4(s - 160, (0x3FFFDA, 22), (0x1FFFDD, 21), (0xFFFE9, 20), (0x3FFFDB, 22))
              else
                Of4(s - 164, (0x3FFFDC, 22), (0x7FFFE8, 23), (0x7FFFE9, 23), (0x1FFFDE, 21))
            else
              if s < 172 then
                Of4(s - 168, (0x7FFFEA, 23), (0x3FFFDD, 22), (0x3FFFDE, 22), (0xFFFFF0, 24))
              else
                Of4(s - 172, (0x1FFFDF, 21), (0x3FFFDF, 22), (0x7FFFEB, 23), (0x7FFFEC, 23))
          else
            if s < 184 then
              if s < 180 then
                Of4(s - 176, (0x1FFFE0, 21), (0x1FFFE1, 21), (0x3FFFE0, 22), (0x1FFFE2, 21))
              else
                Of4(s - 180, (0x7FFFED, 23), (0x3FFFE1, 22), (0x7FFFEE, 23), (0x7FFFEF, 23))
            else
              if s < 188 then
                Of4(s - 184, (0xFFFEA, 20), (0x3FFFE2, 22), (0x3FFFE3, 22), (0x3FFFE4, 22))
              else
                Of4(s - 188, (0x7FFFF0, 23), (0x3FFFE5, 22), (0x3FFFE6, 22), (0x7FFFF1, 23))
      else
        if s < 224 then
          if s < 208 then
            if s < 200 then
              if s < 196 then
                Of4(s - 192, (0x3FFFFE0, 26), (0x3FFFFE1, 26), (0xFFFEB, 20), (0x7FFF1, 19))
              else
                Of4(s - 196, (0x3FFFE7, 22), (0x7FFFF2, 23), (0x3FFFE8, 22), (0x1FFFFEC, 25))
            else
              if s < 204 then
                Of4(s - 200, (0x3FFFFE2, 26), (0x3FFFFE3, 26), (0x3FFFFE4, 26), (0x7FFFFDE, 27))
              else
                Of4(s - 204, (0x7FFFFDF, 27), (0x3FFFFE5, 26), (0xFFFFF1, 24), (0x1FFFFED, 25))
          else
            if s < 216 then
              if s < 212 then
                Of4(s - 208, (0x7FFF2, 19), (0x1FFFE3, 21), (0x3FFFFE6, 26), (0x7FFFFE0, 27))
              else
                Of4(s - 212, (0x7FFFFE1, 27), (0x3FFFFE7, 26), (0x7FFFFE2, 27), (0xFFFFF2, 24))
            else
              if s < 220 then
                Of4(s - 216, (0x1FFFE4, 21), (0x1FFFE5, 21), (0x3FFFFE8, 26), (0x3FFFFE9, 26))
              else
                Of4(s - 220, (0xFFFFFFD, 28), (0x7FFFFE3, 27), (0x7FFFFE4, 27), (0x7FFFFE5, 27))
        else
          if s < 240 then
            if s < 232 then
              if s < 228 then
                Of4(s - 224, (0xFFFEC, 20), (0xFFFFF3, 24), (0xFFFED, 20), (0x1FFFE6, 21))
              else
                Of4(s - 228, (0x3FFFE9, 22), (0x1FFFE7, 21), (0x1FFFE8, 21), (0x7FFFF3, 23))
            else
              if s < 236 then
                Of4(s - 232, (0x3FFFEA, 22), (0x3FFFEB, 22), (0x1FFFFEE, 25), (0x1FFFFEF, 25))
              else
                Of4(s - 236, (0xFFFFF4, 24), (0xFFFFF5, 24), (0x3FFFFEA, 26), (0x7FFFF4, 23))
          else
            if s < 248 then
              if s < 244 then
                Of4(s - 240, (0x3FFFFEB, 26), (0x7FFFFE6, 27), (0x3FFFFEC, 26), (0x3FFFFED, 26))
              else
                Of4(s - 244, (0x7FFFFE7, 27), (0x7FFFFE8, 27), (0x7FFFFE9, 27), (0x7FFFFEA, 27))
            else
              if s < 252 then
                Of4(s - 248, (0x7FFFFEB, 27), (0xFFFFFFE, 28), (0x7FFFFEC, 27), (0x7FFFFED, 27))
              else
                if s < 256 then
                  Of4(s - 252, (0x7FFFFEE, 27), (0x7FFFFEF, 27), (0x7FFFFF0, 27), (0x3FFFFEE, 26))
                else
                  (0x3FFFFFFF, 30)
  }

  /** The symbols by length and then by number. */
  function SymbolAt(s: int): int {
    if s < 128 then
      if s < 64 then
        if s < 32 then
          if s < 16 then
            if s < 8 then
              Of8(s - 0, 48, 49, 50, 97, 99, 101, 105, 111)
            else
              Of8(s - 8, 115, 116, 32, 37, 45, 46, 47, 51)
          else
            if s < 24 then
              Of8(s - 16, 52, 53, 54, 55, 56, 57, 61, 65)
            else
              Of8(s - 24, 95, 98, 100, 102, 103, 104, 108, 109)
        else
          if s < 48 then
            if s < 40 then
              Of8(s - 32, 110, 112, 114, 117, 58, 66, 67, 68)
            else
              Of8(s - 40, 69, 70, 71, 72, 73, 74, 75, 76)
          else
            if s < 56 then
              Of8(s - 48, 77, 78, 79, 80, 81, 82, 83, 84)
            else
              Of8(s - 56, 85, 86, 87, 89, 106, 107, 113, 118)
      else
        if s < 96 then
          if s < 80 then
            if s < 72 then
              Of8(s - 64, 119, 120, 121, 122, 38, 42, 44, 59)
            else
              Of8(s - 72, 88, 90, 33, 34, 40, 41, 63, 39)
          else
            if s < 88 then
              Of8(s - 80, 43, 124, 35, 62, 0, 36, 64, 91)
            else
              Of8(s - 88, 93, 126, 94, 125, 60, 96, 123, 92)
        else
          if s < 112 then
            if s < 104 then
              Of8(s - 96, 195, 208, 128, 130, 131, 162, 184, 194)
            else
              Of8(s - 104, 224, 226, 153, 161, 167, 172, 176, 177)
          else
            if s < 120 then
              Of8(s - 112, 179, 209, 216, 217, 227, 229, 230, 129)
            else
              Of8(s - 120, 132, 133, 134, 136, 146, 154, 156, 160)
    else
      if s < 192 then
        if s < 160 then
          if s < 144 then
            if s < 136 then
              Of8(s - 128, 163, 164, 169, 170, 173, 178, 181, 185)
            else
              Of8(s - 136, 186, 187, 189, 190, 196, 198, 228, 232)
          else
            if s < 152 then
              Of8(s - 144, 233, 1, 135, 137, 138, 139, 140, 141)
            else
              Of8(s - 152, 143, 147, 149, 150, 151, 152, 155, 157)
        else
          if s < 176 then
            if s < 168 then
              Of8(s - 160, 158, 165, 166, 168, 174, 175, 180, 182)
            else
              Of8(s - 168, 183, 188, 191, 197, 231, 239, 9, 142)
          else
            if s < 184 then
              Of8(s - 176, 144, 145, 148, 159, 171, 206, 215, 225)
            else
              Of8(s - 184, 236, 237, 199, 207, 234, 235, 192, 193)
      else
        if s < 224 then
          if s < 208 then
            if s < 200 then
              Of8(s - 192, 200, 201, 202, 205, 210, 213, 218, 219)
            else
              Of8(s - 200, 238, 240, 242, 243, 255, 203, 204, 211)
          else
            if s < 216 then
              Of8(s - 208, 212, 214, 221, 222, 223, 241, 244, 245)
            else
              Of8(s - 216, 246, 247, 248, 250, 251, 252, 253, 254)
        else
          if s < 240 then
            if s < 232 then
              Of8(s - 224, 2, 3, 4, 5, 6, 7, 8, 11)
            else
              Of8(s - 232, 12, 14, 15, 16, 17, 18, 19, 20)
          else
            if s < 248 then
              Of8(s - 240, 21, 23, 24, 25, 26, 27, 28, 29)
            else
              if s < 256 then
                Of8(s - 248, 30, 31, 127, 220, 249, 10, 13, 22)
              else
                256
  }

  lemma {:induction false} CanonicalFrom0()
    ensures forall s :: 0 <= s < 32 ==> CanonicalEntry(CodeAndLength(s), SymbolAt, s)
  {
  }

  lemma {:induction false} CanonicalFrom32()
    ensures forall s :: 32 <= s < 64 ==> CanonicalEntry(CodeAndLength(s), SymbolAt, s)
  {
  }

  lemma {:induction false} CanonicalFrom64()
    ensures forall s :: 64 <= s < 96 ==> CanonicalEntry(CodeAndLength(s), SymbolAt, s)
  {
  }

  lemma {:induction false} CanonicalFrom96()
    ensures forall s :: 96 <= s < 128 ==> CanonicalEntry(CodeAndLength(s), SymbolAt, s)
  {
  }

  lemma {:induction false} CanonicalFrom128()
    ensures forall s :: 128 <= s < 160 ==> CanonicalEntry(CodeAndLength(s), SymbolAt, s)
  {
  }

  lemma {:induction false} CanonicalFrom160()
    ensures forall s :: 160 <= s < 192 ==> CanonicalEntry(CodeAndLength(s), SymbolAt, s)
  {
  }

  lemma {:induction false} CanonicalFrom192()
    ensures forall s :: 192 <= s < 224 ==> CanonicalEntry(CodeAndLength(s), SymbolAt, s)
  {
  }

  lemma {:induction false} CanonicalFrom224()
    ensures forall s :: 224 <= s < 256 ==> CanonicalEntry(CodeAndLength(s), SymbolAt, s)
  {
  }

  lemma {:induction false} CanonicalFrom256()
    ensures forall s :: 256 <= s < 257 ==> CanonicalEntry(CodeAndLength(s), SymbolAt, s)
  {
  }

  lemma {:induction false} EverySymbolCanonical(s: Symbol)
    ensures CanonicalEntry(CodeAndLength(s), SymbolAt, s)
  {
    if s < 32 { CanonicalFrom0(); }
    else if s < 64 { CanonicalFrom32(); }
    else if s < 96 { CanonicalFrom64(); }
    else if s < 128 { CanonicalFrom96(); }
    else if s < 160 { CanonicalFrom128(); }
    else if s < 192 { CanonicalFrom160(); }
    else if s < 224 { CanonicalFrom192(); }
    else if s < 256 { CanonicalFrom224(); }
    else if s < 257 { CanonicalFrom256(); }
  }

  /** The table as the program stores it. */
  function HuffmanCodes(): (table: seq<(int, int)>)
    ensures |table| == 257
  {
    seq(257, s => CodeAndLength(s))
  }

  lemma {:induction false} TableIsCanonical()
    ensures CanonicalTable(HuffmanCodes(), SymbolAt)
  {
    forall s: Symbol
      ensures CanonicalEntry(HuffmanCodes()[s], SymbolAt, s)
    {
      EverySymbolCanonical(s);
    }
  }

  /** The code words of the table. */
  function RfcCode(): (code: Code)
    ensures |code| == 257
  {
    Words(HuffmanCodes())
  }

  /** The table is a prefix code with an all-ones end-of-string word of 30 bits. */
  lemma {:induction false} TableIsPrefixCode()
    ensures PrefixCode(RfcCode())
  {
    TableIsCanonical();
    CanonicalTableIsPrefixCode(HuffmanCodes(), SymbolAt);
  }

  lemma {:induction false} TableSpellsCode()
    ensures Spells(HuffmanCodes(), RfcCode())
  {
    TableIsCanonical();
    forall s: Symbol
      ensures HuffmanCodes()[s] == (Value(RfcCode()[s]), |RfcCode()[s]|)
    {
      WordOfEntry(HuffmanCodes(), SymbolAt, s);
    }
  }
}
