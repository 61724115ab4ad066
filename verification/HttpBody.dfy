/**
  The HTTP reply reader of `snx-ccc.c`: the two ways a body is framed (sections 6.3 and 7.1
  of RFC 9112) and the status check.
 */
module HttpBody {
  import opened Wrappers
  import opened Glib
  import opened Decimal

  const CRLF: string := "\r\n"
  const BLANK_LINE: string := "\r\n\r\n"

  /** Where a text first occurs (`g_strstr_len`, `strstr`). */
  function Find(s: string, p: string): (i: Option<nat>)
    ensures i.Some? ==> i.value + |p| <= |s| && s[i.value..i.value + |p|] == p
  {
    if |p| > |s| then None
    else if s[..|p|] == p then Some(0)
    else if s == [] then None
    else
      match Find(s[1..], p)
      case None => None
      case Some(i) => Some(i + 1)
  }

  // ---- chunks ----

  predicate IsHex(c: char) { XDigit(c).Some? }

  function HexValue(c: char): nat
    requires IsHex(c)
  {
    XDigit(c).value
  }

  predicate AllHex(s: string) { forall i :: 0 <= i < |s| ==> IsHex(s[i]) }

  /** The number read from the hexadecimal digits in front, 0 if there are none. */
  function LeadingHex(s: string, value: nat): nat
    decreases |s|
  {
    if s == [] || !IsHex(s[0]) then value else LeadingHex(s[1..], value * 16 + HexValue(s[0]))
  }

  const ULONG_MAX: nat := 0xffff_ffff_ffff_ffff

  /**
    `strtoul(s, NULL, 16)` for a number in its range: blanks, also line breaks, a sign and `0x`
    may stand in front.
   */
  function SizeOf(s: string): nat
  {
    var t := SkipCSpace(s);
    var negative := t != [] && t[0] == '-';
    var u := if t != [] && (t[0] == '-' || t[0] == '+') then t[1..] else t;
    var v := LeadingHex(if HasHexPrefix(u) then u[2..] else u, 0);
    if !negative || v == 0 then v else if v > ULONG_MAX then ULONG_MAX else ULONG_MAX + 1 - v
  }

  /** `0x` counts only with a digit behind it; otherwise the number is the 0 alone. */
  predicate HasHexPrefix(u: string)
  {
    |u| > 2 && u[0] == '0' && (u[1] == 'x' || u[1] == 'X') && IsHex(u[2])
  }

  /** Puts the text collected so far in front of what is still to come. */
  function Glue(front: string, r: Option<string>): Option<string>
  {
    match r
    case None => None
    case Some(rest) => Some(front + rest)
  }

  lemma GlueTwice(a: string, b: string, r: Option<string>)
    ensures Glue(a, Glue(b, r)) == Glue(a + b, r) && Glue("", r) == r
  {
    if r.Some? {
      assert a + (b + r.value) == a + b + r.value && "" + r.value == r.value;
    }
  }

  /** `dechunk`; the check on the end of a chunk lets one byte of its line break be missing. */
  function Dechunked(s: string): Option<string>
    decreases |s|
  {
    if s == [] then Some("")
    else
      match Find(s, CRLF)
      case None => None
      case Some(lineEnd) =>
        var size, t := SizeOf(s), s[lineEnd + 2..];
        if size == 0 then Some("")
        else if size + 1 > |t| then None
        else Glue(t[..size], Dechunked(From(t, size + 2)))
  }

  function From(s: string, pos: nat): (t: string)
    ensures |t| == if pos <= |s| then |s| - pos else 0
  {
    if pos <= |s| then s[pos..] else ""
  }

  lemma FromTwice(s: string, a: nat, b: nat)
    ensures a <= |s| ==> From(s[a..], b) == From(s, a + b)
    ensures From(s, 0) == s
  {
  }

  /** One round of the loop, from a position inside the data. */
  lemma DechunkRound(data: string, pos: nat)
    requires pos < |data|
    ensures Dechunked(From(data, pos))
            == match Find(data[pos..], CRLF)
               case None => None
               case Some(lineEnd) =>
                 var size, start := SizeOf(data[pos..]), pos + lineEnd + 2;
                 if size == 0 then Some("")
                 else if start + size + 2 > |data| + 1 then None
                 else Glue(data[start..start + size], Dechunked(From(data, start + size + 2)))
  {
    hide SizeOf, Glue, Find;
    var s := data[pos..];
    var lineEnd, size := Find(s, CRLF), SizeOf(s);
    if lineEnd.Some? && size != 0 {
      var start := pos + lineEnd.value + 2;
      var t := s[lineEnd.value + 2..];
      assert t == data[start..];
      if size + 1 <= |t| {
        assert t[..size] == data[start..start + size];
        FromTwice(data, start, size + 2);
      }
    }
  }

  /** The loop: the position grows by at least three on every round that continues. */
  method Dechunk(data: string) returns (body: Option<string>)
    ensures body == Dechunked(data)
  {
    hide Find, SizeOf, Dechunked;
    var len := |data|;
    var result := "";
    var pos := 0;
    FromTwice(data, 0, 0);
    GlueTwice("", "", Dechunked(data));
    while pos < len
      invariant 0 <= pos <= len + 1
      invariant Dechunked(data) == Glue(result, Dechunked(From(data, pos)))
      decreases len + 1 - pos
    {
      DechunkRound(data, pos);
      var lineEnd := Find(data[pos..], CRLF);
      if lineEnd.None? {
        return None;
      }
      var chunkSize := SizeOf(data[pos..]);
      pos := pos + lineEnd.value + 2;
      if chunkSize == 0 {
        assert result + "" == result;
        return Some(result);
      }
      if pos + chunkSize + 2 > len + 1 {
        return None;
      }
      GlueTwice(result, data[pos..pos + chunkSize], Dechunked(From(data, pos + chunkSize + 2)));
      result := result + data[pos..pos + chunkSize];
      pos := pos + chunkSize + 2;
    }
    assert result + "" == result;
    NothingLeft(data, pos);
    return Some(result);
  }

  lemma NothingLeft(data: string, pos: nat)
    requires pos >= |data|
    ensures Dechunked(From(data, pos)) == Some("")
  {
  }

  /** One chunk on the wire: its size in plain hexadecimal digits, and its data. */
  datatype Chunk = Chunk(sizeText: string, data: string) {
    predicate Valid()
    {
      data != "" && sizeText != "" && AllHex(sizeText) && LeadingHex(sizeText, 0) == |data|
    }
  }

  function Chunked(chunks: seq<Chunk>): string
  {
    if chunks == [] then "0" + CRLF
    else chunks[0].sizeText + CRLF + chunks[0].data + CRLF + Chunked(chunks[1..])
  }

  function BodyOf(chunks: seq<Chunk>): string
  {
    if chunks == [] then "" else chunks[0].data + BodyOf(chunks[1..])
  }

  lemma {:induction false} FindLineEnd(s: string, t: string)
    requires AllHex(s)
    ensures Find(s + CRLF + t, CRLF) == Some(|s|)
  {
    var u := s + CRLF + t;
    if s == "" {
      assert u[..2] == CRLF;
    } else {
      assert u[0] == s[0] && u[..2][0] == s[0];
      assert u[1..] == s[1..] + CRLF + t;
      FindLineEnd(s[1..], t);
    }
  }

  lemma {:induction false} LeadingHexStops(s: string, t: string, value: nat)
    requires AllHex(s)
    ensures LeadingHex(s + CRLF + t, value) == LeadingHex(s, value)
    decreases |s|
  {
    var u := s + CRLF + t;
    if s == "" {
      assert u[0] == '\r';
    } else {
      assert u[0] == s[0] && u[1..] == s[1..] + CRLF + t;
      LeadingHexStops(s[1..], t, value * 16 + HexValue(s[0]));
    }
  }

  /** A size in plain digits is read up to the end of its line. */
  lemma SizeStops(s: string, t: string)
    requires s != "" && AllHex(s)
    ensures SizeOf(s + CRLF + t) == LeadingHex(s, 0)
  {
    hide LeadingHex;
    var u := s + CRLF + t;
    assert u[0] == s[0] && IsHex(s[0]);
    assert u[1] == if |s| > 1 then s[1] else '\r';
    assert SkipCSpace(u) == u;
    LeadingHexStops(s, t, 0);
  }

  lemma OneChunk(c: Chunk, rest: string)
    requires c.Valid()
    ensures Dechunked(c.sizeText + CRLF + c.data + CRLF + rest)
            == Glue(c.data, Dechunked(rest))
  {
    hide Find, LeadingHex, AllHex, SizeOf;
    var t := c.data + CRLF + rest;
    var s := c.sizeText + CRLF + t;
    assert s == c.sizeText + CRLF + c.data + CRLF + rest;
    FindLineEnd(c.sizeText, t);
    SizeStops(c.sizeText, t);
    assert s[|c.sizeText| + 2..] == t;
    assert t[..|c.data|] == c.data && t[|c.data| + 2..] == rest;
  }

  lemma Reassociate(a: string, b: string, c: string)
    ensures a + b + c == a + (b + c)
  {
  }

  lemma LastChunk(tail: string)
    ensures Dechunked("0" + CRLF + tail) == Some("")
  {
    FindLineEnd("0", tail);
    SizeStops("0", tail);
    assert "0"[1..] == "";
    assert LeadingHex("0", 0) == LeadingHex("", 0);
  }

  /** Removing the chunk framing gives the body, whatever follows the last chunk. */
  lemma {:induction false} DechunkInverse(chunks: seq<Chunk>, tail: string)
    requires forall c :: c in chunks ==> c.Valid()
    ensures Dechunked(Chunked(chunks) + tail) == Some(BodyOf(chunks))
  {
    if chunks == [] {
      LastChunk(tail);
    } else {
      hide Dechunked, LeadingHex, AllHex;
      var c, rest := chunks[0], Chunked(chunks[1..]);
      DechunkInverse(chunks[1..], tail);
      OneChunk(c, rest + tail);
      assert Chunked(chunks) == c.sizeText + CRLF + c.data + CRLF + rest;
      Reassociate(c.sizeText + CRLF + c.data + CRLF, rest, tail);
    }
  }

  // ---- chunks that are cut short ----

  /** Chunks without the one that ends them. */
  function Frames(chunks: seq<Chunk>): string
  {
    if chunks == [] then "" else chunks[0].sizeText + "\r\n" + chunks[0].data + "\r\n" + Frames(chunks[1..])
  }

  /** Whole chunks are taken off whatever comes behind them. */
  lemma {:induction false} FramesAreTaken(chunks: seq<Chunk>, rest: string)
    requires forall c :: c in chunks ==> c.Valid()
    ensures Dechunked(Frames(chunks) + rest) == Glue(BodyOf(chunks), Dechunked(rest))
    decreases |chunks|
  {
    hide Dechunked, LeadingHex, AllHex;
    if chunks == [] {
      assert Frames(chunks) + rest == rest;
      GlueTwice("", "", Dechunked(rest));
    } else {
      var c, more := chunks[0], Frames(chunks[1..]) + rest;
      assert c in chunks && forall d :: d in chunks[1..] ==> d in chunks;
      FramesAreTaken(chunks[1..], rest);
      OneChunk(c, more);
      Reassociate(c.sizeText + CRLF + c.data + CRLF, Frames(chunks[1..]), rest);
      GlueTwice(c.data, BodyOf(chunks[1..]), Dechunked(rest));
    }
  }

  /**
    A chunked body that is cut: between two chunks it is the body so far; in the middle of a
    size line, in the data, or without a character of the line break behind them, it is refused.
   */
  lemma CutChunks(chunks: seq<Chunk>, last: Chunk, k: nat)
    requires (forall c :: c in chunks ==> c.Valid()) && last.Valid()
    ensures Dechunked(Frames(chunks)) == Some(BodyOf(chunks))
    ensures 0 < k <= |last.sizeText| ==> Dechunked(Frames(chunks) + last.sizeText[..k]) == None
    ensures k <= |last.data| ==> Dechunked(Frames(chunks) + (last.sizeText + "\r\n" + last.data[..k])) == None
    ensures Dechunked(Frames(chunks) + (last.sizeText + "\r\n" + last.data + "\r")) == Some(BodyOf(chunks) + last.data)
  {
    hide Dechunked, LeadingHex, AllHex, Frames, BodyOf;
    FramesAreTaken(chunks, "");
    NothingLeft("", 0);
    assert Frames(chunks) + "" == Frames(chunks) && BodyOf(chunks) + "" == BodyOf(chunks);
    if 0 < k <= |last.sizeText| {
      FramesAreTaken(chunks, last.sizeText[..k]);
      CutSize(last.sizeText[..k]) by { PartIsHex(last.sizeText, k); }
    }
    if k <= |last.data| {
      FramesAreTaken(chunks, last.sizeText + "\r\n" + last.data[..k]);
      CutData(last, last.data[..k]);
    }
    FramesAreTaken(chunks, last.sizeText + "\r\n" + last.data + "\r");
    CutBreak(last);
  }

  lemma PartIsHex(s: string, k: nat)
    requires AllHex(s) && k <= |s|
    ensures AllHex(s[..k])
  {
  }

  lemma CutSize(s: string)
    requires s != "" && AllHex(s)
    ensures Dechunked(s) == None
  {
    hide SizeOf, LeadingHex;
    NoBreakInHex(s);
  }

  lemma {:induction false} NoBreakInHex(s: string)
    requires AllHex(s)
    ensures Find(s, CRLF) == None
  {
    if s != "" {
      NoBreakInHex(s[1..]);
      assert |s| >= 2 ==> s[..2][0] == s[0] && IsHex(s[0]);
    }
  }

  lemma CutData(c: Chunk, part: string)
    requires c.Valid() && |part| <= |c.data|
    ensures Dechunked(c.sizeText + "\r\n" + part) == None
  {
    hide Find, LeadingHex, AllHex, SizeOf;
    FindLineEnd(c.sizeText, part);
    SizeStops(c.sizeText, part);
    assert (c.sizeText + CRLF + part)[|c.sizeText| + 2..] == part;
  }

  lemma CutBreak(c: Chunk)
    requires c.Valid()
    ensures Dechunked(c.sizeText + "\r\n" + c.data + "\r") == Some(c.data)
  {
    hide Find, LeadingHex, AllHex, SizeOf;
    var t := c.data + "\r";
    var s := c.sizeText + CRLF + t;
    assert s == c.sizeText + "\r\n" + c.data + "\r";
    FindLineEnd(c.sizeText, t);
    SizeStops(c.sizeText, t);
    assert s[|c.sizeText| + 2..] == t && t[..|c.data|] == c.data;
    assert From(t, |c.data| + 2) == "";
    assert Dechunked("") == Some("");
    assert c.data + "" == c.data;
  }

  // ---- the whole reply ----

  function LowerChar(c: char): char { if 'A' <= c <= 'Z' then c + 32 as char else c }

  function Lower(s: string): (t: string)
    ensures |t| == |s|
  {
    seq(|s|, i requires 0 <= i < |s| => LowerChar(s[i]))
  }

  /** `strtol(s, NULL, 10)`, without its limits. */
  function Strtol(s: string): int
  {
    var t := SkipCSpace(s);
    var negative := t != [] && t[0] == '-';
    var u := if t != [] && (t[0] == '-' || t[0] == '+') then t[1..] else t;
    var v: int := DecValue(u[..DigitPrefix(u)]);
    if negative then -v else v
  }

  const LONG_MAX: int := 0x7fff_ffff_ffff_ffff

  /** `atoi`: the limits of `long`, then the low 32 bits as a signed number. */
  function Atoi(s: string): int
  {
    var v := Strtol(s);
    var l := if v > LONG_MAX then LONG_MAX else if v < -LONG_MAX - 1 then -LONG_MAX - 1 else v;
    (l + 0x8000_0000) % 0x1_0000_0000 - 0x8000_0000
  }

  datatype Error = NoHeaderEnd | BadChunks | Status(code: int)

  function StatusOf(headers: string): int
  {
    match Find(headers, " ")
    case None => 0
    case Some(i) => Atoi(headers[i + 1..])
  }

  predicate SaysChunked(headers: string)
  {
    Find(Lower(headers), "transfer-encoding: chunked").Some?
  }

  function ContentLength(headers: string): int
  {
    match Find(Lower(headers), "content-length:")
    case None => -1
    case Some(i) => Strtol(headers[i + 15..])
  }

  function Body(headers: string, rest: string): Option<string>
  {
    if SaysChunked(headers) then Dechunked(rest)
    else if 0 <= ContentLength(headers) <= |rest| then Some(rest[..ContentLength(headers)])
    else Some(rest)
  }

  /** `parse_http_response`: a bad body is reported before a bad status. */
  function Response(raw: string): Result<string, Error>
  {
    match Find(raw, BLANK_LINE)
    case None => Err(NoHeaderEnd)
    case Some(end) =>
      var headers := raw[..end];
      match Body(headers, raw[end + 4..])
      case None => Err(BadChunks)
      case Some(body) => if 200 <= StatusOf(headers) < 300 then Ok(body) else Err(Status(StatusOf(headers)))
  }

  method ParseHttpResponse(raw: string) returns (r: Result<string, Error>)
    ensures r == Response(raw)
  {
    hide Find, Lower, Dechunked, Strtol, Atoi;
    var len := |raw|;
    var headerEnd := Find(raw, BLANK_LINE);
    if headerEnd.None? {
      return Err(NoHeaderEnd);
    }
    var headerLen := headerEnd.value;
    var headers := raw[..headerLen];
    var headersLower := Lower(headers);

    var statusCode := 0;
    var space := Find(headers, " ");
    if space.Some? {
      statusCode := Atoi(headers[space.value + 1..]);
    }

    var chunked := Find(headersLower, "transfer-encoding: chunked").Some?;
    var contentLength := -1;
    var lengthAt := Find(headersLower, "content-length:");
    if lengthAt.Some? {
      contentLength := Strtol(headers[lengthAt.value + 15..]);
    }

    var bodyStart := headerLen + 4;
    var bodyLen := len - headerLen - 4;
    var body: string;
    if chunked {
      var dechunked := Dechunk(raw[bodyStart..]);
      if dechunked.None? {
        return Err(BadChunks);
      }
      body := dechunked.value;
    } else {
      if contentLength >= 0 && contentLength <= bodyLen {
        bodyLen := contentLength;
      }
      body := raw[bodyStart..bodyStart + bodyLen];
      assert body == raw[bodyStart..][..bodyLen];
      assert bodyLen == |raw[bodyStart..]| ==> body == raw[bodyStart..];
    }

    if statusCode < 200 || statusCode >= 300 {
      return Err(Status(statusCode));
    }
    return Ok(body);
  }
}
