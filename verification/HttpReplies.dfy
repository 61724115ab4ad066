/**
  Replies as servers send them (RFC 9112): a status line, any header lines in any order, and a
  body that is sent in chunks, with its length, or up to the end of the connection. The reader
  of `HttpBody` is run on the whole text.
 */
module HttpReplies {
  import opened Wrappers
  import opened Glib
  import opened Decimal
  import opened HttpBody

  // ---- chunks ----

  function HexText(n: nat): string
  {
    if n < 16 then [HexDigit(n)] else HexText(n / 16) + [HexDigit(n % 16)]
  }

  /** The chunks that carry the parts of a body. */
  function Chunks(parts: seq<string>): seq<Chunk>
  {
    if parts == [] then [] else [Chunk(HexText(|parts[0]|), parts[0])] + Chunks(parts[1..])
  }

  function Join(parts: seq<string>): string
  {
    if parts == [] then "" else parts[0] + Join(parts[1..])
  }

  // ---- every part has a size text ----

  lemma {:induction false} LeadingHexAppend(s: string, c: char, value: nat)
    requires AllHex(s) && IsHex(c)
    ensures LeadingHex(s + [c], value) == LeadingHex(s, value) * 16 + HexValue(c)
    decreases |s|
  {
    if s == "" {
      assert ("" + [c])[1..] == "";
    } else {
      assert (s + [c])[1..] == s[1..] + [c];
      LeadingHexAppend(s[1..], c, value * 16 + HexValue(s[0]));
    }
  }

  lemma {:induction false} HexTextReads(n: nat)
    ensures HexText(n) != "" && AllHex(HexText(n)) && LeadingHex(HexText(n), 0) == n
  {
    hide HexDigit, XDigit, LeadingHex;
    if n < 16 {
      HexDigitReads(n);
      assert "" + [HexDigit(n)] == [HexDigit(n)];
      LeadingHexAppend("", HexDigit(n), 0);
      NoHexYet();
    } else {
      HexTextReads(n / 16);
      HexDigitReads(n % 16);
      LeadingHexAppend(HexText(n / 16), HexDigit(n % 16), 0);
    }
  }

  lemma NoHexYet()
    ensures LeadingHex("", 0) == 0
  {
  }

  /** Every split into non-empty parts gives valid chunks, and they carry the body. */
  lemma {:induction false} ChunksOf(parts: seq<string>)
    requires forall p :: p in parts ==> p != ""
    ensures (forall c :: c in Chunks(parts) ==> c.Valid()) && BodyOf(Chunks(parts)) == Join(parts)
  {
    hide HexText, LeadingHex, AllHex;
    if parts != [] {
      assert parts[0] in parts && forall p :: p in parts[1..] ==> p in parts;
      ChunksOf(parts[1..]);
      HexTextReads(|parts[0]|);
    }
  }

  // ---- lines ----

  /** A line of the head: something, and no line break in it. */
  predicate Line(s: string) { s != "" && '\r' !in s && '\n' !in s }

  predicate AllLines(lines: seq<string>) { forall i :: 0 <= i < |lines| ==> Line(lines[i]) }

  /** The lines of the head with a line break between each two. */
  function Head(lines: seq<string>): string
    requires lines != []
  {
    if |lines| == 1 then lines[0] else lines[0] + "\r\n" + Head(lines[1..])
  }

  predicate IsAt(s: string, p: string, i: nat) { i + |p| <= |s| && s[i..i + |p|] == p }

  /** Some place in the text holds the other text. */
  ghost predicate Contains(s: string, p: string) { exists i: nat :: IsAt(s, p, i) }

  lemma {:induction false} FindIsContains(s: string, p: string)
    ensures Find(s, p).Some? <==> Contains(s, p)
  {
    hide Find;
    if s == "" {
      FindInNothing(p);
      assert p == "" <==> IsAt(s, p, 0);
    } else {
      FindStep(s, p);
      assert IsAt(s, p, 0) <==> |p| <= |s| && s[..|p|] == p;
      FindIsContains(s[1..], p);
      forall i: nat | i > 0 ensures IsAt(s, p, i) <==> IsAt(s[1..], p, i - 1) {
        OneOn(s, p, i);
      }
      if i: nat :| IsAt(s[1..], p, i) {
        OneOn(s, p, i + 1);
      }
    }
  }

  lemma OneOn(s: string, p: string, i: nat)
    requires s != "" && i > 0
    ensures IsAt(s, p, i) <==> IsAt(s[1..], p, i - 1)
  {
    assert i + |p| <= |s| ==> s[i..i + |p|] == s[1..][i - 1..i - 1 + |p|];
  }

  /** One place tried, and then the next. */
  lemma FindStep(s: string, p: string)
    requires s != ""
    ensures Find(s, p) == if |p| <= |s| && s[..|p|] == p then Some(0)
                          else match Find(s[1..], p) case None => None case Some(i) => Some(i + 1)
  {
    if |p| > |s| {
      FindTooLong(s[1..], p);
    }
  }

  lemma FindInNothing(p: string)
    ensures Find("", p) == if p == "" then Some(0) else None
  {
  }

  /** What has no line break in it is found within a line. */
  lemma {:induction false} FindAcross(a: string, b: string, p: string)
    requires Line(p)
    ensures Find(a + "\r\n" + b, p) == if Find(a, p).Some? then Find(a, p)
                                       else match Find(b, p) case None => None case Some(i) => Some(|a| + 2 + i)
    decreases |a|
  {
    hide Find;
    var s := a + "\r\n" + b;
    if a == "" {
      assert s == ['\r'] + ("\n" + b) && "\n" + b == ['\n'] + b;
      FindBehind('\r', "\n" + b, p);
      FindBehind('\n', b, p);
      FindInNothing(p);
    } else {
      assert s[0] == a[0] && s[1..] == a[1..] + "\r\n" + b;
      FindAcross(a[1..], b, p);
      FindStep(s, p);
      FindStep(a, p);
      StartsWithin(a, b, p);
    }
  }

  /** A beginning without a line break lies within the first line. */
  lemma StartsWithin(a: string, b: string, p: string)
    requires Line(p)
    ensures var s := a + "\r\n" + b;
            |p| <= |s| && s[..|p|] == p <==> |p| <= |a| && a[..|p|] == p
  {
    var s := a + "\r\n" + b;
    if |p| <= |a| {
      assert s[..|p|] == a[..|p|];
    } else if |p| <= |s| {
      assert s[..|p|][|a|] == '\r';
    }
  }

  lemma FindTooLong(s: string, p: string)
    requires |p| > |s|
    ensures Find(s, p) == None
  {
  }

  /** A character that the text looked for does not have is no beginning of it. */
  lemma FindBehind(c: char, s: string, p: string)
    requires p != "" && c !in p
    ensures Find([c] + s, p) == match Find(s, p) case None => None case Some(i) => Some(i + 1)
  {
    hide Find;
    var t := [c] + s;
    assert t[1..] == s;
    FindStep(t, p);
    if |p| <= |t| {
      assert t[..|p|][0] == c && p[0] in p;
    }
  }

  lemma {:induction false} HeadsBreak(lines: seq<string>, rest: string)
    requires lines != [] && AllLines(lines)
    ensures Find(Head(lines) + BLANK_LINE + rest, BLANK_LINE) == Some(|Head(lines)|)
    decreases |lines|
  {
    hide Find;
    if |lines| == 1 {
      LastLineBreaks(lines[0], rest);
    } else {
      var more := Head(lines[1..]) + BLANK_LINE + rest;
      HeadsBreak(lines[1..], rest);
      HeadStarts(lines[1..]);
      LineBreaks(lines[0], "\r\n", more);
      InFrontOf(lines[0] + "\r\n", Head(lines[1..]), BLANK_LINE, rest);
    }
  }

  lemma InFrontOf(a: string, b: string, c: string, d: string)
    ensures a + b + c + d == a + (b + c + d)
  {
  }

  lemma LastLineBreaks(line: string, rest: string)
    requires Line(line)
    ensures Find(line + BLANK_LINE + rest, BLANK_LINE) == Some(|line|)
  {
    hide Find;
    LineThenBreak(line, BLANK_LINE + rest);
    Reassociate(line, BLANK_LINE, rest);
    FindHere(BLANK_LINE, rest);
  }

  lemma LineBreaks(line: string, brk: string, more: string)
    requires Line(line) && brk == "\r\n" && |more| >= 2 && more[0] != '\r'
    ensures Find(line + brk + more, BLANK_LINE) == Later(|line| + 2, Find(more, BLANK_LINE))
  {
    hide Find, Later, Line;
    BreakIsNotBlank(brk, more);
    LineThenBreak(line, brk + more);
    Reassociate(line, brk, more);
    LaterTwice(|line|, 2, Find(more, BLANK_LINE));
  }

  function Later(n: nat, at: Option<nat>): Option<nat>
  {
    match at
    case None => None
    case Some(i) => Some(n + i)
  }

  lemma LaterTwice(m: nat, n: nat, at: Option<nat>)
    ensures Later(m, Later(n, at)) == Later(m + n, at)
  {
  }

  lemma HeadStarts(lines: seq<string>)
    requires lines != [] && AllLines(lines)
    ensures Head(lines) != "" && Head(lines)[0] != '\r'
  {
    assert lines[0][0] in lines[0];
  }

  lemma FindHere(p: string, t: string)
    ensures Find(p + t, p) == Some(0)
  {
    assert (p + t)[..|p|] == p;
  }

  /** A line holds no beginning of a blank line. */
  lemma {:induction false} LineThenBreak(line: string, t: string)
    requires Line(line) || line == ""
    ensures Find(line + t, BLANK_LINE) == Later(|line|, Find(t, BLANK_LINE))
  {
    hide Find;
    if line == "" {
      assert line + t == t;
    } else {
      var s := line + t;
      assert line[0] in line && s[0] == line[0] && s[1..] == line[1..] + t;
      LineThenBreak(line[1..], t);
      FindStep(s, BLANK_LINE);
      assert |s| >= 4 ==> s[..4][0] == line[0];
    }
  }

  lemma BreakIsNotBlank(brk: string, s: string)
    requires brk == "\r\n" && |s| >= 2 && s[0] != '\r'
    ensures Find(brk + s, BLANK_LINE) == Later(2, Find(s, BLANK_LINE))
  {
    hide Find;
    var t, u := "\r\n" + s, "\n" + s;
    assert t[1..] == u && u[1..] == s;
    FindStep(t, BLANK_LINE);
    FindStep(u, BLANK_LINE);
    assert t[..4][2] == s[0];
    assert |u| >= 4 ==> u[..4][0] == '\n';
  }

  // ---- looking for a header ----

  lemma LowerConcat(a: string, b: string)
    ensures Lower(a + b) == Lower(a) + Lower(b)
  {
  }

  lemma LowerLines(lines: seq<string>)
    requires |lines| > 1
    ensures Lower(Head(lines)) == Lower(lines[0]) + "\r\n" + Lower(Head(lines[1..]))
  {
    hide Lower;
    LowerConcat(lines[0] + "\r\n", Head(lines[1..]));
    LowerConcat(lines[0], "\r\n");
    LowerBreak();
  }

  lemma LowerBreak()
    ensures Lower("\r\n") == "\r\n"
  {
  }

  /** Where the `k`-th line starts. */
  function StartOf(lines: seq<string>, k: nat): nat
    requires k < |lines|
  {
    if k == 0 then 0 else |lines[0]| + 2 + StartOf(lines[1..], k - 1)
  }

  /** What no line has is not found; what one line has first is found there. */
  lemma {:induction false} FindInHead(lines: seq<string>, p: string)
    requires lines != [] && Line(p)
    ensures Find(Lower(Head(lines)), p).Some? <==> exists k :: 0 <= k < |lines| && Contains(Lower(lines[k]), p)
    decreases |lines|
  {
    hide Find, Lower, Contains;
    FindIsContains(Lower(lines[0]), p);
    if |lines| > 1 {
      LowerLines(lines);
      FindAcross(Lower(lines[0]), Lower(Head(lines[1..])), p);
      FindInHead(lines[1..], p);
      if k :| 0 <= k < |lines| && Contains(Lower(lines[k]), p) && k > 0 {
        assert lines[k] == lines[1..][k - 1];
      }
      if k :| 0 <= k < |lines[1..]| && Contains(Lower(lines[1..][k]), p) {
        assert lines[k + 1] == lines[1..][k];
      }
    } else if k :| 0 <= k < |lines| && Contains(Lower(lines[k]), p) {
      assert k == 0;
    }
  }

  lemma {:induction false} FindAtLine(lines: seq<string>, p: string, k: nat)
    requires k < |lines| && Line(p) && Find(Lower(lines[k]), p) == Some(0)
    requires forall j :: 0 <= j < k ==> !Contains(Lower(lines[j]), p)
    ensures Find(Lower(Head(lines)), p) == Some(StartOf(lines, k))
    decreases |lines|
  {
    hide Find, Lower, Contains;
    if |lines| > 1 {
      LowerLines(lines);
      FindAcross(Lower(lines[0]), Lower(Head(lines[1..])), p);
      if k > 0 {
        FindIsContains(Lower(lines[0]), p);
        assert forall j :: 0 <= j < k - 1 ==> lines[1..][j] == lines[j + 1];
        FindAtLine(lines[1..], p, k - 1);
        assert |Lower(lines[0])| == |lines[0]|;
      }
    }
  }

  /** The text from the start of a line: the line, and the end or a line break behind it. */
  lemma {:induction false} TextAtLine(lines: seq<string>, k: nat) returns (behind: string)
    requires k < |lines|
    ensures StartOf(lines, k) <= |Head(lines)| && Head(lines)[StartOf(lines, k)..] == lines[k] + behind
    ensures behind == "" || behind[0] == '\r'
    decreases |lines|
  {
    if k == 0 {
      behind := if |lines| == 1 then "" else "\r\n" + Head(lines[1..]);
      assert Head(lines)[0..] == lines[0] + behind;
    } else {
      behind := TextAtLine(lines[1..], k - 1);
      var at := StartOf(lines[1..], k - 1);
      assert Head(lines) == (lines[0] + "\r\n") + Head(lines[1..]);
      assert Head(lines)[|lines[0]| + 2 + at..] == Head(lines[1..])[at..];
    }
  }

  // ---- numbers ----

  lemma StrtolOfDec(n: nat, rest: string)
    requires rest == "" || !IsDigit(rest[0])
    ensures Strtol(Dec(n) + rest) == n
  {
    hide Dec, DigitPrefix, DecValue;
    var s := Dec(n) + rest;
    DecIsDigits(n);
    DigitPrefixOf(Dec(n), rest);
    DecValueOfDec(n);
    assert s[0] == Dec(n)[0];
    assert SkipCSpace(s) == s;
    assert s[..|Dec(n)|] == Dec(n);
  }

  function Signed(sign: string, n: int): int { if sign == "-" then -n else n }

  lemma StrtolSigned(sign: string, n: nat, rest: string)
    requires sign in {"", "+", "-"} && (rest == "" || !IsDigit(rest[0]))
    ensures Strtol(sign + Dec(n) + rest) == Signed(sign, n)
  {
    hide Dec, DigitPrefix, DecValue;
    StrtolOfDec(n, rest);
    if sign == "" {
      assert sign + Dec(n) + rest == Dec(n) + rest;
    } else {
      var s, number := sign + Dec(n) + rest, Dec(n) + rest;
      assert s[0] == sign[0] && s[1..] == number;
      DecIsDigits(n);
      assert number[0] == Dec(n)[0];
      SkipsNone(s);
      SkipsNone(number);
    }
  }

  lemma SkipsNone(s: string)
    requires s != "" && !IsCSpace(s[0])
    ensures SkipCSpace(s) == s
  {
  }

  predicate Spaces(s: string) { forall i :: 0 <= i < |s| ==> s[i] == ' ' }

  lemma {:induction false} StrtolBehindSpaces(gap: string, s: string)
    requires Spaces(gap)
    ensures Strtol(gap + s) == Strtol(s)
  {
    hide DigitPrefix, DecValue;
    SpacesAreSkipped(gap, s);
  }

  lemma {:induction false} SpacesAreSkipped(gap: string, s: string)
    requires Spaces(gap)
    ensures SkipCSpace(gap + s) == SkipCSpace(s)
  {
    if gap == "" {
      assert gap + s == s;
    } else {
      assert (gap + s)[0] == ' ' && (gap + s)[1..] == gap[1..] + s;
      SpacesAreSkipped(gap[1..], s);
    }
  }

  // ---- the head of a reply ----

  /** A version, a code and a reason, which can be missing together with the blank before it. */
  predicate StatusLine(line: string, version: string, code: nat, reason: string)
  {
    line == version + " " + Dec(code) + reason && ' ' !in version && (reason == "" || reason[0] == ' ')
  }

  /** A head: its lines, the first of which is the status line. */
  ghost predicate HeadOf(lines: seq<string>, code: nat)
  {
    && lines != [] && AllLines(lines) && code < 0x8000_0000
    && exists version, reason :: StatusLine(lines[0], version, code, reason)
  }

  /** A header that says that the body comes in chunks, in any letter case. */
  predicate SaysChunks(line: string) { Lower(line) == "transfer-encoding: chunked" }

  /** A header with a length, in any letter case, with any number of blanks, and with any sign. */
  predicate SaysLength(line: string, name: string, gap: string, sign: string, n: nat)
  {
    && line == name + ":" + gap + (sign + Dec(n)) && Lower(name) == "content-length" && Spaces(gap)
    && sign in {"", "+", "-"}
  }

  ghost predicate MentionsChunks(line: string) { Contains(Lower(line), "transfer-encoding: chunked") }

  ghost predicate MentionsLength(line: string) { Contains(Lower(line), "content-length:") }

  function Reply(lines: seq<string>, arrived: string): string
    requires lines != []
  {
    Head(lines) + "\r\n\r\n" + arrived
  }

  lemma StatusIs(lines: seq<string>, code: nat)
    requires HeadOf(lines, code)
    ensures StatusOf(Head(lines)) == code
  {
    hide Head, StatusLine, StatusOf;
    var version, reason :| StatusLine(lines[0], version, code, reason);
    var behind := TextAtLine(lines, 0);
    assert Head(lines)[0..] == Head(lines);
    CodeIsRead(lines[0], version, code, reason, behind);
  }

  lemma CodeIsRead(line: string, version: string, code: nat, reason: string, behind: string)
    requires StatusLine(line, version, code, reason) && code < 0x8000_0000 && (behind == "" || behind[0] == '\r')
    ensures StatusOf(line + behind) == code
  {
    hide Dec, Find, Strtol;
    var number := Dec(code) + (reason + behind);
    assert line + behind == version + (" " + number);
    FirstBlank(version, number);
    assert (version + (" " + number))[|version| + 1..] == number;
    StrtolOfDec(code, reason + behind);
  }

  lemma {:induction false} FirstBlank(version: string, s: string)
    requires ' ' !in version
    ensures Find(version + (" " + s), " ") == Some(|version|)
  {
    hide Find;
    if version == "" {
      assert version + (" " + s) == " " + s;
      FindHere(" ", s);
    } else {
      assert version[0] in version && version + (" " + s) == [version[0]] + (version[1..] + (" " + s));
      FindBehind(version[0], version[1..] + (" " + s), " ");
      FirstBlank(version[1..], s);
    }
  }

  lemma HeadTakenApart(lines: seq<string>, code: nat, arrived: string)
    requires HeadOf(lines, code)
    ensures Response(Reply(lines, arrived))
            == match Body(Head(lines), arrived)
               case None => Err(BadChunks)
               case Some(body) => Outcome(code, body)
  {
    hide Find, StatusOf, Body;
    HeadsBreak(lines, arrived);
    StatusIs(lines, code);
    var raw, n := Reply(lines, arrived), |Head(lines)|;
    assert raw[..n] == Head(lines) && raw[n + 4..] == arrived;
  }

  /** What the caller gets: the body of a successful reply, the code of any other. */
  function Outcome(code: nat, body: string): Result<string, Error>
  {
    if 200 <= code < 300 then Ok(body) else Err(Status(code))
  }

  // ---- the ways of framing ----

  lemma NamesAreLines()
    ensures Line("transfer-encoding: chunked") && Line("content-length:")
  {
  }

  lemma AllOfIt(s: string)
    ensures Contains(s, s)
  {
    assert IsAt(s, s, 0);
  }

  lemma ChunksAreSaid(lines: seq<string>)
    requires lines != []
    ensures SaysChunked(Head(lines)) <==> exists k :: 0 <= k < |lines| && MentionsChunks(lines[k])
  {
    hide Find, Contains;
    NamesAreLines();
    FindInHead(lines, "transfer-encoding: chunked");
  }

  /** Among any other headers, a header that says so has the chunks put together. */
  lemma ChunkedReply(lines: seq<string>, k: nat, code: nat, parts: seq<string>, tail: string)
    requires HeadOf(lines, code) && k < |lines| && SaysChunks(lines[k]) && forall p :: p in parts ==> p != ""
    ensures Response(Reply(lines, Chunked(Chunks(parts)) + tail)) == Outcome(code, Join(parts))
  {
    hide Find, Response, Reply, SaysChunked, ContentLength, Dechunked, Chunked, Chunks, Join, Contains,
      HeadOf, Head, Lower;
    HeadTakenApart(lines, code, Chunked(Chunks(parts)) + tail);
    AllOfIt("transfer-encoding: chunked");
    ChunksAreSaid(lines);
    ChunksOf(parts);
    DechunkInverse(Chunks(parts), tail);
  }

  /** Chunks that cannot be put together are reported whatever the code says. */
  lemma BadChunksFirst(lines: seq<string>, k: nat, code: nat, arrived: string)
    requires HeadOf(lines, code) && k < |lines| && SaysChunks(lines[k]) && Dechunked(arrived) == None
    ensures Response(Reply(lines, arrived)) == Err(BadChunks)
  {
    hide Find, Response, Reply, SaysChunked, ContentLength, Dechunked, Contains, HeadOf, Head, Lower;
    HeadTakenApart(lines, code, arrived);
    AllOfIt("transfer-encoding: chunked");
    ChunksAreSaid(lines);
  }

  /** A reply whose head does not end is refused. */
  lemma NoHeadEnd(raw: string)
    ensures Response(raw) == Err(NoHeaderEnd) <==> !Contains(raw, "\r\n\r\n")
  {
    hide Find, Contains, Body, StatusOf;
    FindIsContains(raw, "\r\n\r\n");
  }

  /**
    Without chunks, and with one header that gives a length: the body is that many characters
    of what arrived, or all of it when less arrived or the length is negative.
   */
  lemma PlainReply(lines: seq<string>, k: nat, name: string, gap: string, sign: string, n: nat, code: nat,
                   arrived: string)
    requires HeadOf(lines, code) && k < |lines| && SaysLength(lines[k], name, gap, sign, n)
    requires forall j :: 0 <= j < |lines| && j != k ==> !MentionsChunks(lines[j]) && !MentionsLength(lines[j])
    ensures Response(Reply(lines, arrived))
            == Outcome(code, if n > |arrived| || (sign == "-" && n > 0) then arrived else arrived[..n])
  {
    hide Find, Response, Reply, SaysChunked, ContentLength, Contains, HeadOf, Head, SaysLength;
    HeadTakenApart(lines, code, arrived);
    LengthMentionsNoChunks(lines[k], name, gap, sign, n);
    ChunksAreSaid(lines);
    LengthIs(lines, k, name, gap, sign, n);
  }

  /** With neither header the body is all that arrived. */
  lemma UnframedReply(lines: seq<string>, code: nat, arrived: string)
    requires HeadOf(lines, code)
    requires forall j :: 0 <= j < |lines| ==> !MentionsChunks(lines[j]) && !MentionsLength(lines[j])
    ensures Response(Reply(lines, arrived)) == Outcome(code, arrived)
  {
    hide Find, Response, Reply, SaysChunked, Contains, Head;
    HeadTakenApart(lines, code, arrived);
    ChunksAreSaid(lines);
    NamesAreLines();
    FindInHead(lines, "content-length:");
  }

  lemma LengthIs(lines: seq<string>, k: nat, name: string, gap: string, sign: string, n: nat)
    requires k < |lines| && SaysLength(lines[k], name, gap, sign, n)
    requires forall j :: 0 <= j < |lines| && j != k ==> !MentionsLength(lines[j])
    ensures ContentLength(Head(lines)) == Signed(sign, n)
  {
    hide Find, Lower, Strtol, Contains, Head, StartOf, SaysLength;
    NamesAreLines();
    LengthLine(lines[k], name, gap, sign, n);
    FindAtLine(lines, "content-length:", k);
    LengthBehind(lines, k, name, gap, sign, n);
  }

  lemma LengthLine(line: string, name: string, gap: string, sign: string, n: nat)
    requires SaysLength(line, name, gap, sign, n)
    ensures Find(Lower(line), "content-length:") == Some(0)
  {
    hide Find, Lower, Dec;
    var number := sign + Dec(n);
    LowerOfLength(name, gap + number);
    assert line == name + ":" + (gap + number);
    FindHere("content-length:", Lower(gap + number));
  }

  lemma LengthBehind(lines: seq<string>, k: nat, name: string, gap: string, sign: string, n: nat)
    requires k < |lines| && SaysLength(lines[k], name, gap, sign, n)
    ensures StartOf(lines, k) + 15 <= |Head(lines)| && Strtol(Head(lines)[StartOf(lines, k) + 15..]) == Signed(sign, n)
  {
    hide Dec, Strtol, Head, StartOf;
    var behind := TextAtLine(lines, k);
    assert |Lower(name)| == |name|;
    var number := sign + Dec(n);
    BehindName(Head(lines), StartOf(lines, k), name, gap, number, behind);
    StrtolBehindSpaces(gap, number + behind);
    StrtolSigned(sign, n, behind);
  }

  lemma BehindName(head: string, at: nat, name: string, gap: string, number: string, behind: string)
    requires |name| == 14 && at <= |head| && head[at..] == name + ":" + gap + number + behind
    ensures at + 15 <= |head| && head[at + 15..] == gap + (number + behind)
  {
    assert head[at + 15..] == head[at..][15..];
  }

  lemma LowerOfLength(name: string, rest: string)
    requires Lower(name) == "content-length"
    ensures Lower(name + ":" + rest) == "content-length:" + Lower(rest)
  {
    LowerConcat(name + ":", rest);
    LowerConcat(name, ":");
  }

  /** A header that gives the length has no letter f in it. */
  lemma LengthMentionsNoChunks(line: string, name: string, gap: string, sign: string, n: nat)
    requires SaysLength(line, name, gap, sign, n)
    ensures !MentionsChunks(line)
  {
    hide Dec;
    var low := Lower(line);
    var p := "transfer-encoding: chunked";
    DecIsDigits(n);
    forall i | 0 <= i < |low| ensures low[i] != 'f' {
      if i < |name| {
        assert low[i] == Lower(name)[i];
      } else if i > |name| + |gap| {
        assert line[i] == (sign + Dec(n))[i - |name| - 1 - |gap|];
      }
    }
    forall i: nat ensures !IsAt(low, p, i) {
      if i + |p| <= |low| {
        assert low[i..i + |p|][5] == low[i + 5] && p[5] == 'f';
      }
    }
  }

  /**
    Whatever the code, the other headers, the body, its split into non-empty parts and what
    trails the reply on the connection: both ways of framing give the same result.
   */
  lemma FramingIsTransparent(chunked: seq<string>, i: nat, plain: seq<string>, k: nat, name: string, gap: string,
                             code: nat, parts: seq<string>, tail: string)
    requires HeadOf(chunked, code) && i < |chunked| && SaysChunks(chunked[i])
    requires HeadOf(plain, code) && k < |plain| && SaysLength(plain[k], name, gap, "", |Join(parts)|)
    requires forall j :: 0 <= j < |plain| && j != k ==> !MentionsChunks(plain[j]) && !MentionsLength(plain[j])
    requires forall p :: p in parts ==> p != ""
    ensures Response(Reply(chunked, Chunked(Chunks(parts)) + tail))
            == Response(Reply(plain, Join(parts) + tail))
            == Outcome(code, Join(parts))
  {
    hide Response, Reply, Outcome, Chunked, Chunks, Join, HeadOf, MentionsChunks, MentionsLength,
      SaysLength, SaysChunks;
    ChunkedReply(chunked, i, code, parts, tail);
    PlainReply(plain, k, name, gap, "", |Join(parts)|, code, Join(parts) + tail);
    assert (Join(parts) + tail)[..|Join(parts)|] == Join(parts);
  }
}
