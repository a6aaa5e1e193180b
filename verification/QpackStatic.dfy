/** The static table of QPACK, RFC 9204, appendix A, and what follows for peers that use it. */
module QpackStatic {
  import opened Octets
  import opened HpackTable
  import opened StaticTable
  import opened QpackTable
  import opened QpackRun
  import QpackRoundTrip
  import HpackStatic

  const STATIC_TABLE_SIZE := 99

  function Entry(name: string, value: string): (f: Field)
    ensures |f.name| == |name|
  {
    Field(Ascii(name), Ascii(value))
  }

  /** STATIC_TABLE. */
  function QpackStaticEntry(index: int): Field {
    if index == 0 then Entry(":authority", "")
    else if index == 1 then Entry(":path", "/")
    else if index == 2 then Entry("age", "0")
    else if index == 3 then Entry("content-disposition", "")
    else if index == 4 then Entry("content-length", "0")
    else if index == 5 then Entry("cookie", "")
    else if index == 6 then Entry("date", "")
    else if index == 7 then Entry("etag", "")
    else if index == 8 then Entry("if-modified-since", "")
    else if index == 9 then Entry("if-none-match", "")
    else if index == 10 then Entry("last-modified", "")
    else if index == 11 then Entry("link", "")
    else if index == 12 then Entry("location", "")
    else if index == 13 then Entry("referer", "")
    else if index == 14 then Entry("set-cookie", "")
    else if index == 15 then Entry(":method", "CONNECT")
    else if index == 16 then Entry(":method", "DELETE")
    else if index == 17 then Entry(":method", "GET")
    else if index == 18 then Entry(":method", "HEAD")
    else if index == 19 then Entry(":method", "OPTIONS")
    else if index == 20 then Entry(":method", "POST")
    else if index == 21 then Entry(":method", "PUT")
    else if index == 22 then Entry(":scheme", "http")
    else if index == 23 then Entry(":scheme", "https")
    else if index == 24 then Entry(":status", "103")
    else if index == 25 then Entry(":status", "200")
    else if index == 26 then Entry(":status", "304")
    else if index == 27 then Entry(":status", "404")
    else if index == 28 then Entry(":status", "503")
    else if index == 29 then Entry("accept", "*/*")
    else if index == 30 then Entry("accept", "application/dns-message")
    else if index == 31 then Entry("accept-encoding", "gzip, deflate, br")
    else if index == 32 then Entry("accept-ranges", "bytes")
    else if index == 33 then Entry("access-control-allow-headers", "cache-control")
    else if index == 34 then Entry("access-control-allow-headers", "content-type")
    else if index == 35 then Entry("access-control-allow-origin", "*")
    else if index == 36 then Entry("cache-control", "max-age=0")
    else if index == 37 then Entry("cache-control", "max-age=2592000")
    else if index == 38 then Entry("cache-control", "max-age=604800")
    else if index == 39 then Entry("cache-control", "no-cache")
    else if index == 40 then Entry("cache-control", "no-store")
    else if index == 41 then Entry("cache-control", "public, max-age=31536000")
    else if index == 42 then Entry("content-encoding", "br")
    else if index == 43 then Entry("content-encoding", "gzip")
    else if index == 44 then Entry("content-type", "application/dns-message")
    else if index == 45 then Entry("content-type", "application/javascript")
    else if index == 46 then Entry("content-type", "application/json")
    else if index == 47 then Entry("content-type", "application/x-www-form-urlencoded")
    else if index == 48 then Entry("content-type", "image/gif")
    else if index == 49 then Entry("content-type", "image/jpeg")
    else if index == 50 then Entry("content-type", "image/png")
    else if index == 51 then Entry("content-type", "text/css")
    else if index == 52 then Entry("content-type", "text/html; charset=utf-8")
    else if index == 53 then Entry("content-type", "text/plain")
    else if index == 54 then Entry("content-type", "text/plain;charset=utf-8")
    else if index == 55 then Entry("range", "bytes=0-")
    else if index == 56 then Entry("strict-transport-security", "max-age=31536000")
    else if index == 57 then Entry("strict-transport-security", "max-age=31536000; includesubdomains")
    else if index == 58 then Entry("strict-transport-security", "max-age=31536000; includesubdomains; preload")
    else if index == 59 then Entry("vary", "accept-encoding")
    else if index == 60 then Entry("vary", "origin")
    else if index == 61 then Entry("x-content-type-options", "nosniff")
    else if index == 62 then Entry("x-xss-protection", "1; mode=block")
    else if index == 63 then Entry(":status", "100")
    else if index == 64 then Entry(":status", "204")
    else if index == 65 then Entry(":status", "206")
    else if index == 66 then Entry(":status", "302")
    else if index == 67 then Entry(":status", "400")
    else if index == 68 then Entry(":status", "403")
    else if index == 69 then Entry(":status", "421")
    else if index == 70 then Entry(":status", "425")
    else if index == 71 then Entry(":status", "500")
    else if index == 72 then Entry("accept-language", "")
    else if index == 73 then Entry("access-control-allow-credentials", "FALSE")
    else if index == 74 then Entry("access-control-allow-credentials", "TRUE")
    else if index == 75 then Entry("access-control-allow-headers", "*")
    else if index == 76 then Entry("access-control-allow-methods", "get")
    else if index == 77 then Entry("access-control-allow-methods", "get, post, options")
    else if index == 78 then Entry("access-control-allow-methods", "options")
    else if index == 79 then Entry("access-control-expose-headers", "content-length")
    else if index == 80 then Entry("access-control-request-headers", "content-type")
    else if index == 81 then Entry("access-control-request-method", "get")
    else if index == 82 then Entry("access-control-request-method", "post")
    else if index == 83 then Entry("alt-svc", "clear")
    else if index == 84 then Entry("authorization", "")
    else if index == 85 then Entry("content-security-policy", "script-src 'none'; object-src 'none'; base-uri 'none'")
    else if index == 86 then Entry("early-data", "1")
    else if index == 87 then Entry("expect-ct", "")
    else if index == 88 then Entry("forwarded", "")
    else if index == 89 then Entry("if-range", "")
    else if index == 90 then Entry("origin", "")
    else if index == 91 then Entry("purpose", "prefetch")
    else if index == 92 then Entry("server", "")
    else if index == 93 then Entry("timing-allow-origin", "*")
    else if index == 94 then Entry("upgrade-insecure-requests", "1")
    else if index == 95 then Entry("user-agent", "")
    else if index == 96 then Entry("x-forwarded-for", "")
    else if index == 97 then Entry("x-frame-options", "deny")
    else if index == 98 then Entry("x-frame-options", "sameorigin")
    else Entry("", "")
  }

  lemma {:induction false} FirstNamesAreLong(index: int)
    requires 0 <= index < 33
    ensures |QpackStaticEntry(index).name| >= 3
  {
  }

  lemma {:induction false} MiddleNamesAreLong(index: int)
    requires 33 <= index < 66
    ensures |QpackStaticEntry(index).name| >= 3
  {
  }

  lemma {:induction false} LaterNamesAreLong(index: int)
    requires 66 <= index < 83
    ensures |QpackStaticEntry(index).name| >= 3
  {
  }

  lemma {:induction false} LastNamesAreLong(index: int)
    requires 83 <= index < STATIC_TABLE_SIZE
    ensures |QpackStaticEntry(index).name| >= 3
  {
  }

  /** Fields with names of one or two octets are in no static entry. */
  lemma {:induction false} ShortNamesAreNew(f: Field)
    requires |f.name| < 3
    ensures StaticExactFrom(QpackCoding().fixed, f, 0).None?
  {
    forall i | 0 <= i < STATIC_TABLE_SIZE
      ensures QpackCoding().fixed[i].name != f.name
    {
      if i < 33 {
        FirstNamesAreLong(i);
      } else if i < 66 {
        MiddleNamesAreLong(i);
      } else if i < 83 {
        LaterNamesAreLong(i);
      } else {
        LastNamesAreLong(i);
      }
    }
  }

  function QpackCoding(): (c: Coding)
    ensures |c.fixed| == STATIC_TABLE_SIZE
  {
    Coding(HpackStatic.StandardCompressor(), seq(STATIC_TABLE_SIZE, i => QpackStaticEntry(i)))
  }

  lemma {:induction false} QpackCodingIsValid()
    ensures ValidCoding(QpackCoding())
  {
    HpackStatic.StandardCompressorIsLossless();
  }

  /** Two new peers with the standard tables stay in step over every run. */
  lemma {:induction false} StandardRun(capacity: nat, events: seq<Event>)
    requires var w := World(NewEncoder(capacity), Numbered([], 0, 0), []);
             capacity < QpackRoundTrip.BOUND && Sound(w) && RunsWithin(QpackCoding(), w, events)
    ensures var c, w := QpackCoding(), World(NewEncoder(capacity), Numbered([], 0, 0), []);
            var w' := Run(c, w, events);
            InStep(c, w'.decoder, w'.encoder) && Answered(c, w, events, w'.answers)
  {
    var c, w := QpackCoding(), World(NewEncoder(capacity), Numbered([], 0, 0), []);
    QpackCodingIsValid();
    NewPeersAreInStep(c, capacity);
    RunInStep(c, w, events);
    assert Run(c, w, events).answers[0..] == Run(c, w, events).answers;
  }
}
