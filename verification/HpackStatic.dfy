/** The static table: RFC 7541, appendix A. */
module HpackStatic {
  import opened Wrappers
  import opened Octets
  import opened HpackTable
  import opened StringLiteral
  import opened StaticTable
  import opened Hpack
  import opened HpackLockstep
  import Huffman
  import HuffmanTable

  const STATIC_TABLE_SIZE := 61

  function Entry(name: string, value: string): (f: Field)
    ensures |f.name| == |name|
  {
    Field(Ascii(name), Ascii(value))
  }

  /** STATIC_TABLE; index 0 is unused. */
  function HpackStaticEntry(index: int): Field {
    if index == 1 then Entry(":authority", "")
    else if index == 2 then Entry(":method", "GET")
    else if index == 3 then Entry(":method", "POST")
    else if index == 4 then Entry(":path", "/")
    else if index == 5 then Entry(":path", "/index.html")
    else if index == 6 then Entry(":scheme", "http")
    else if index == 7 then Entry(":scheme", "https")
    else if index == 8 then Entry(":status", "200")
    else if index == 9 then Entry(":status", "204")
    else if index == 10 then Entry(":status", "206")
    else if index == 11 then Entry(":status", "304")
    else if index == 12 then Entry(":status", "400")
    else if index == 13 then Entry(":status", "404")
    else if index == 14 then Entry(":status", "500")
    else if index == 15 then Entry("accept-charset", "")
    else if index == 16 then Entry("accept-encoding", "gzip, deflate")
    else if index == 17 then Entry("accept-language", "")
    else if index == 18 then Entry("accept-ranges", "")
    else if index == 19 then Entry("accept", "")
    else if index == 20 then Entry("access-control-allow-origin", "")
    else if index == 21 then Entry("age", "")
    else if index == 22 then Entry("allow", "")
    else if index == 23 then Entry("authorization", "")
    else if index == 24 then Entry("cache-control", "")
    else if index == 25 then Entry("content-disposition", "")
    else if index == 26 then Entry("content-encoding", "")
    else if index == 27 then Entry("content-language", "")
    else if index == 28 then Entry("content-length", "")
    else if index == 29 then Entry("content-location", "")
    else if index == 30 then Entry("content-range", "")
    else if index == 31 then Entry("content-type", "")
    else if index == 32 then Entry("cookie", "")
    else if index == 33 then Entry("date", "")
    else if index == 34 then Entry("etag", "")
    else if index == 35 then Entry("expect", "")
    else if index == 36 then Entry("expires", "")
    else if index == 37 then Entry("from", "")
    else if index == 38 then Entry("host", "")
    else if index == 39 then Entry("if-match", "")
    else if index == 40 then Entry("if-modified-since", "")
    else if index == 41 then Entry("if-none-match", "")
    else if index == 42 then Entry("if-range", "")
    else if index == 43 then Entry("if-unmodified-since", "")
    else if index == 44 then Entry("last-modified", "")
    else if index == 45 then Entry("link", "")
    else if index == 46 then Entry("location", "")
    else if index == 47 then Entry("max-forwards", "")
    else if index == 48 then Entry("proxy-authenticate", "")
    else if index == 49 then Entry("proxy-authorization", "")
    else if index == 50 then Entry("range", "")
    else if index == 51 then Entry("referer", "")
    else if index == 52 then Entry("refresh", "")
    else if index == 53 then Entry("retry-after", "")
    else if index == 54 then Entry("server", "")
    else if index == 55 then Entry("set-cookie", "")
    else if index == 56 then Entry("strict-transport-security", "")
    else if index == 57 then Entry("transfer-encoding", "")
    else if index == 58 then Entry("user-agent", "")
    else if index == 59 then Entry("vary", "")
    else if index == 60 then Entry("via", "")
    else if index == 61 then Entry("www-authenticate", "")
    else Entry("", "")
  }

  lemma {:induction false} StaticNamesAreLong(index: int)
    requires 1 <= index <= STATIC_TABLE_SIZE
    ensures |HpackStaticEntry(index).name| >= 3
  {
    if index <= 20 {
    } else if index <= 40 {
    } else {
    }
  }

  /** Fields with names of one or two octets are in no static entry. */
  lemma {:induction false} ShortNamesAreNew(f: Field)
    requires |f.name| < 3
    ensures StaticExact(HpackCoding(), f).None? && StaticByName(HpackCoding(), f.name).None?
  {
    forall i | 1 <= i <= STATIC_TABLE_SIZE
      ensures HpackCoding().fixed[i].name != f.name
    {
      StaticNamesAreLong(i);
    }
  }

  /** HPACK as RFC 7541 fixes it: the code of appendix B and the static table of appendix A. */
  function HpackCoding(): (c: Coding)
    ensures |c.fixed| == STATIC_TABLE_SIZE + 1
  {
    Coding(StandardCompressor(), seq(STATIC_TABLE_SIZE + 1, i => HpackStaticEntry(i)))
  }

  function StandardCompressor(): Compressor {
    Compressor(raw => Huffman.Encode(HuffmanTable.RfcCode(), raw), coded => Huffman.Decode(HuffmanTable.RfcCode(), coded))
  }

  lemma {:induction false} StandardCompressorIsLossless()
    ensures Lossless(StandardCompressor())
  {
    HuffmanTable.TableIsPrefixCode();
    var z := StandardCompressor();
    forall raw: Bytes
      ensures z.expand(z.compress(raw)) == Ok(raw)
    {
      Huffman.DecodeOfEncode(HuffmanTable.RfcCode(), raw);
    }
  }

  /** So every theorem about a valid coding holds of the standard one. */
  lemma {:induction false} HpackCodingIsValid()
    ensures ValidCoding(HpackCoding())
  {
    StandardCompressorIsLossless();
  }

  /** Two new peers with the standard code and table stay in lockstep over every run. */
  lemma {:induction false} StandardLockstep(size: nat, events: seq<Event>)
    requires size <= MAX_TABLE_SIZE
    requires forall i :: 0 <= i < |events| ==> Acceptable(HpackCoding(), size, events[i])
    ensures var start := World(EncoderState(Table([], size), None), Table([], size), []);
            var w := HpackRun(HpackCoding(), size, start, events);
            w.decoder == w.encoder.table && Answers(events, w.answers)
  {
    HpackCodingIsValid();
    SizeOfUnfolds([]);
    var start := World(EncoderState(Table([], size), None), Table([], size), []);
    Lockstep(HpackCoding(), size, start, events);
    var answers := HpackRun(HpackCoding(), size, start, events).answers;
    assert answers[0..] == answers;
  }
}
