/**
  The texts that the S-expression reader accepts, told without the reader: atoms, quoted texts
  and lists with blanks anywhere between them. The reader accepts exactly these.
 */
module SexprGrammar {
  import opened Wrappers
  import opened Sexpr

  // ---- layouts ----

  /** Space, tab, line feed, carriage return and form feed. */
  predicate Blank(c: char) { c == ' ' || c == '\t' || c == '\n' || c == '\r' || c as int == 12 }

  predicate AllBlank(s: string) { forall i :: 0 <= i < |s| ==> Blank(s[i]) }

  /** What ends an atom that is not quoted. */
  predicate Ends(c: char) { Blank(c) || c == '(' || c == ')' }

  predicate Ended(rest: string) { rest == "" || Ends(rest[0]) }

  /** A character between quotes: itself, or behind a backslash. */
  datatype Mark = Itself(c: char) | Escape(c: char)

  datatype Layout = Bare(text: string) | Quoted(marks: seq<Mark>) | Items(pieces: seq<Piece>, end: string)

  /** An item of a list, and the blanks in front of it. */
  datatype Piece = Piece(gap: string, item: Layout)

  function MarkText(m: Mark): string
  {
    match m
    case Itself(c) => [c]
    case Escape(c) => ['\\', c]
  }

  function MarksText(marks: seq<Mark>): string
  {
    if marks == [] then "" else MarkText(marks[0]) + MarksText(marks[1..])
  }

  function Shown(l: Layout): string
    decreases l, 0
  {
    match l
    case Bare(text) => text
    case Quoted(marks) => "\"" + MarksText(marks) + "\""
    case Items(pieces, end) => "(" + PiecesText(pieces) + end + ")"
  }

  function PiecesText(pieces: seq<Piece>): string
    decreases pieces, 1
  {
    if pieces == [] then "" else pieces[0].gap + Shown(pieces[0].item) + PiecesText(pieces[1..])
  }

  // ---- what is well formed ----

  predicate WellMarked(m: Mark) { m.Itself? ==> m.c != '"' && m.c != '\\' }

  /** A bare atom has to end before what follows; nothing else has. */
  predicate Formed(l: Layout)
    decreases l, 0
  {
    match l
    case Bare(text) => text != "" && text[0] != '"' && forall i :: 0 <= i < |text| ==> !Ends(text[i])
    case Quoted(marks) => forall i :: 0 <= i < |marks| ==> WellMarked(marks[i])
    case Items(pieces, end) => AllBlank(end) && PiecesFormed(pieces, end)
  }

  predicate PiecesFormed(pieces: seq<Piece>, end: string)
    decreases pieces, 1
  {
    pieces == []
    || (AllBlank(pieces[0].gap) && Formed(pieces[0].item) && PiecesFormed(pieces[1..], end)
        && Follows(pieces[0].item, PiecesText(pieces[1..]) + end + ")"))
  }

  predicate Follows(l: Layout, rest: string) { l.Bare? ==> Ended(rest) }

  // ---- what is meant ----

  function MarkMeans(m: Mark): char
  {
    match m
    case Itself(c) => c
    case Escape(c) => if c == 'n' then '\n' else if c == 'r' then '\r' else if c == 't' then '\t' else c
  }

  function MarksMean(marks: seq<Mark>): string
  {
    if marks == [] then "" else [MarkMeans(marks[0])] + MarksMean(marks[1..])
  }

  function Means(l: Layout): Sexpr
    decreases l, 0
  {
    match l
    case Bare(text) => Atom(text)
    case Quoted(marks) => Atom(MarksMean(marks))
    case Items(pieces, _) => List(PiecesMean(pieces))
  }

  function PiecesMean(pieces: seq<Piece>): seq<Sexpr>
    decreases pieces, 1
  {
    if pieces == [] then [] else [Means(pieces[0].item)] + PiecesMean(pieces[1..])
  }

  // ---- every such text is read ----

  lemma {:induction false} BlanksAreSkipped(gap: string, s: string)
    requires AllBlank(gap) && (s == "" || !Blank(s[0]))
    ensures SkipWs(gap + s) == s
  {
    if gap == "" {
      assert gap + s == s;
    } else {
      assert (gap + s)[0] == gap[0] && (gap + s)[1..] == gap[1..] + s;
      BlanksAreSkipped(gap[1..], s);
    }
  }

  lemma {:induction false} AtomEnds(text: string, rest: string)
    requires (forall i :: 0 <= i < |text| ==> !Ends(text[i])) && Ended(rest)
    ensures AtomLength(text + rest) == |text|
  {
    if text == "" {
      assert text + rest == rest;
    } else {
      assert (text + rest)[0] == text[0] && (text + rest)[1..] == text[1..] + rest;
      AtomEnds(text[1..], rest);
    }
  }

  /** An atom without quotes is read as it stands, up to a blank, a parenthesis or the end. */
  lemma BareIsRead(text: string, rest: string)
    requires text != "" && text[0] != '"' && Ended(rest)
    requires forall i :: 0 <= i < |text| ==>
               text[i] != ' ' && text[i] != '\t' && text[i] != '\n' && text[i] != '\r' && text[i] as int != 12
               && text[i] != '(' && text[i] != ')'
    ensures ParseExpr(text + rest) == Some((Atom(text), rest))
  {
    hide AtomLength, SkipWs;
    var s := text + rest;
    assert s[0] == text[0];
    BlanksAreSkipped("", s);
    assert "" + s == s;
    AtomEnds(text, rest);
    assert s[..|text|] == text && s[|text|..] == rest;
  }

  lemma {:induction false} MarksAreRead(marks: seq<Mark>, rest: string)
    requires forall i :: 0 <= i < |marks| ==> WellMarked(marks[i])
    ensures ParseQuoted(MarksText(marks) + "\"" + rest) == Some((MarksMean(marks), rest))
    decreases |marks|
  {
    var s := MarksText(marks) + "\"" + rest;
    if marks == [] {
      assert s == "\"" + rest && s[1..] == rest;
    } else {
      var later := MarksText(marks[1..]) + "\"" + rest;
      MarksAreRead(marks[1..], rest);
      assert s == MarkText(marks[0]) + later;
      assert marks[0].Itself? ==> s[1..] == later;
      assert marks[0].Escape? ==> s[0] == '\\' && s[1] == marks[0].c && s[2..] == later;
    }
  }

  lemma {:induction false} LayoutIsRead(gap: string, l: Layout, rest: string)
    requires AllBlank(gap) && Formed(l) && Follows(l, rest)
    ensures ParseExpr(gap + Shown(l) + rest) == Some((Means(l), rest))
    decreases l, 1
  {
    hide ParseExpr, ParseQuoted, ParseItems, AtomLength;
    var s := Shown(l) + rest;
    assert gap + Shown(l) + rest == gap + s;
    ShownStarts(l);
    assert s[0] == Shown(l)[0];
    GapIsSkipped(gap, s);
    match l
    case Bare(text) => BareIsRead(text, rest);
    case Quoted(marks) => QuotedLayout(marks, rest);
    case Items(pieces, end) =>
      PiecesAreRead(pieces, end, rest);
      ListLayout(PiecesText(pieces) + end + ")", rest, PiecesMean(pieces));
      assert "(" + (PiecesText(pieces) + end + ")") + rest == s;
  }

  lemma GapIsSkipped(gap: string, s: string)
    requires AllBlank(gap) && s != "" && !Blank(s[0])
    ensures ParseExpr(gap + s) == ParseExpr(s)
  {
    hide AtomLength, SkipWs, ParseQuoted, ParseItems;
    BlanksAreSkipped(gap, s);
    BlanksAreSkipped("", s);
    assert "" + s == s;
  }

  lemma QuotedLayout(marks: seq<Mark>, rest: string)
    requires forall i :: 0 <= i < |marks| ==> WellMarked(marks[i])
    ensures ParseExpr("\"" + MarksText(marks) + "\"" + rest) == Some((Atom(MarksMean(marks)), rest))
  {
    hide ParseExpr, ParseQuoted, MarksText, MarksMean;
    MarksAreRead(marks, rest);
    QuotedExpr(MarksText(marks) + "\"", rest, MarksMean(marks));
    InFront("\"", MarksText(marks), "\"", rest);
    InFront("\"", MarksText(marks), "\"", "");
  }

  lemma QuotedExpr(inside: string, rest: string, value: string)
    requires ParseQuoted(inside + rest) == Some((value, rest))
    ensures ParseExpr("\"" + (inside + rest)) == Some((Atom(value), rest))
  {
    hide AtomLength, SkipWs, ParseQuoted, ParseItems;
    var s := "\"" + (inside + rest);
    BlanksAreSkipped("", s);
    assert "" + s == s && s[1..] == inside + rest;
  }

  lemma ListLayout(inside: string, rest: string, children: seq<Sexpr>)
    requires ParseItems(inside + rest) == Some((children, rest))
    ensures ParseExpr("(" + inside + rest) == Some((List(children), rest))
  {
    hide AtomLength, SkipWs, ParseQuoted, ParseItems;
    var s := "(" + inside + rest;
    BlanksAreSkipped("", s);
    assert "" + s == s && s[1..] == inside + rest;
  }

  lemma {:induction false} PiecesAreRead(pieces: seq<Piece>, end: string, rest: string)
    requires AllBlank(end) && PiecesFormed(pieces, end)
    ensures ParseItems(PiecesText(pieces) + end + ")" + rest) == Some((PiecesMean(pieces), rest))
    decreases pieces, 2
  {
    hide SkipWs, ParseExpr, Shown, Formed, Means;
    var s := PiecesText(pieces) + end + ")" + rest;
    if pieces == [] {
      var t := ")" + rest;
      assert s == end + t && t[1..] == rest;
      BlanksAreSkipped(end, t);
    } else {
      var p, later := pieces[0], PiecesText(pieces[1..]) + end + ")" + rest;
      LayoutIsRead("", p.item, later) by { FollowsMore(p.item, PiecesText(pieces[1..]) + end + ")", rest); }
      assert "" + Shown(p.item) + later == Shown(p.item) + later;
      ShownStarts(p.item);
      var t := Shown(p.item) + later;
      assert t[0] == Shown(p.item)[0];
      assert s == p.gap + t;
      BlanksAreSkipped(p.gap, t);
      PiecesAreRead(pieces[1..], end, rest);
    }
  }

  lemma FollowsMore(l: Layout, front: string, rest: string)
    requires Follows(l, front) && front != ""
    ensures Follows(l, front + rest)
  {
  }

  lemma ShownStarts(l: Layout)
    requires Formed(l)
    ensures Shown(l) != "" && !Blank(Shown(l)[0]) && Shown(l)[0] != ')'
  {
  }

  // ---- nothing else is read ----

  lemma {:induction false} BlanksInFront(s: string) returns (gap: string)
    ensures AllBlank(gap) && s == gap + SkipWs(s) && (SkipWs(s) == "" || !Blank(SkipWs(s)[0]))
  {
    if s != "" && Blank(s[0]) {
      var more := BlanksInFront(s[1..]);
      gap := [s[0]] + more;
    } else {
      gap := "";
    }
  }

  lemma {:induction false} AtomIsBare(s: string)
    ensures var n := AtomLength(s); (forall i :: 0 <= i < n ==> !Ends(s[i])) && Ended(s[n..])
  {
    if s != "" && !Ends(s[0]) {
      AtomIsBare(s[1..]);
      var n := AtomLength(s);
      assert s[n..] == s[1..][n - 1..];
      forall i | 0 <= i < n ensures !Ends(s[i]) {
        assert i > 0 ==> s[i] == s[1..][i - 1];
      }
    }
  }

  lemma {:induction false} QuotedIsMarks(s: string) returns (marks: seq<Mark>)
    requires ParseQuoted(s).Some?
    ensures forall i :: 0 <= i < |marks| ==> WellMarked(marks[i])
    ensures MarksMean(marks) == ParseQuoted(s).value.0
    ensures s == MarksText(marks) + "\"" + ParseQuoted(s).value.1
    decreases |s|
  {
    hide ParseQuoted, MarkText, MarkMeans, WellMarked, MarksText, MarksMean;
    if QuoteEnds(s) {
      marks := [];
      NoMarks(s);
    } else {
      var m, t := FirstMark(s);
      var more := QuotedIsMarks(t);
      marks := [m] + more;
      OneMoreMark(m, more);
      InFront(MarkText(m), MarksText(more), "\"", ParseQuoted(t).value.1);
    }
  }

  predicate QuoteEnds(s: string) { s != "" && s[0] == '"' }

  lemma NoMarks(s: string)
    requires QuoteEnds(s)
    ensures ParseQuoted(s) == Some(("", s[1..])) && s == MarksText([]) + "\"" + s[1..] && MarksMean([]) == ""
  {
  }

  /** The first character between quotes, and the text behind it. */
  lemma FirstMark(s: string) returns (m: Mark, t: string)
    requires ParseQuoted(s).Some? && !QuoteEnds(s)
    ensures WellMarked(m) && s == MarkText(m) + t && |t| < |s| && ParseQuoted(t).Some?
    ensures ParseQuoted(s).value.0 == [MarkMeans(m)] + ParseQuoted(t).value.0
    ensures ParseQuoted(s).value.1 == ParseQuoted(t).value.1
  {
    var escaped := s[0] == '\\' && |s| > 1;
    m := if escaped then Escape(s[1]) else Itself(s[0]);
    t := if escaped then s[2..] else s[1..];
    if s[0] == '\\' && |s| == 1 {
      LoneBackslash(s);
    }
  }

  lemma LoneBackslash(s: string)
    requires s == "\\"
    ensures ParseQuoted(s) == None
  {
    assert s[1..] == "";
  }

  lemma OneMoreMark(m: Mark, more: seq<Mark>)
    ensures MarksText([m] + more) == MarkText(m) + MarksText(more)
    ensures MarksMean([m] + more) == [MarkMeans(m)] + MarksMean(more)
  {
    assert ([m] + more)[1..] == more;
  }

  lemma InFront(a: string, b: string, c: string, d: string)
    ensures a + (b + c + d) == a + b + c + d
  {
  }

  lemma {:induction false} ReadIsLayout(s: string) returns (gap: string, l: Layout)
    requires ParseExpr(s).Some?
    ensures AllBlank(gap) && Formed(l) && Follows(l, ParseExpr(s).value.1)
    ensures Means(l) == ParseExpr(s).value.0 && s == gap + Shown(l) + ParseExpr(s).value.1
    decreases |s|, 1
  {
    hide SkipWs, AtomLength, ParseQuoted, ParseItems;
    gap := BlanksInFront(s);
    var t, rest := SkipWs(s), ParseExpr(s).value.1;
    if t != "" && t[0] == '(' {
      var pieces, end := ItemsAreLayout(t[1..]);
      l := Items(pieces, end);
      assert t == Shown(l) + rest;
    } else if t != "" && t[0] == '"' {
      var marks := QuotedIsMarks(t[1..]);
      l := Quoted(marks);
      assert t == Shown(l) + rest;
    } else {
      AtomIsBare(t);
      l := Bare(t[..AtomLength(t)]);
      assert t == Shown(l) + rest;
    }
    assert s == gap + (Shown(l) + rest);
  }

  lemma {:induction false} ItemsAreLayout(s: string) returns (pieces: seq<Piece>, end: string)
    requires ParseItems(s).Some?
    ensures AllBlank(end) && PiecesFormed(pieces, end) && PiecesMean(pieces) == ParseItems(s).value.0
    ensures s == PiecesText(pieces) + end + ")" + ParseItems(s).value.1
    decreases |s|, 2
  {
    hide SkipWs, ParseExpr, Shown, Formed, Means;
    var t, rest := SkipWs(s), ParseItems(s).value.1;
    var gap := BlanksInFront(s);
    if t[0] == ')' {
      pieces, end := [], gap;
      ListEnds(gap, rest);
    } else {
      var skipped, l := ReadIsLayout(t);
      var behind := ParseExpr(t).value.1;
      NoBlankThere(skipped, Shown(l) + behind, t) by { InFront(skipped, Shown(l), "", behind); }
      var more, e := ItemsAreLayout(behind);
      end := e;
      pieces := [Piece(gap, l)] + more;
      OneMorePiece(gap, l, more, end, rest);
      FollowsLess(l, PiecesText(more) + end + ")", rest);
    }
  }

  lemma ListEnds(gap: string, rest: string)
    ensures gap + (")" + rest) == PiecesText([]) + gap + ")" + rest
  {
    assert "" + gap == gap;
  }

  lemma OneMorePiece(gap: string, l: Layout, more: seq<Piece>, end: string, rest: string)
    ensures var pieces := [Piece(gap, l)] + more;
            && PiecesText(pieces) == gap + Shown(l) + PiecesText(more)
            && PiecesMean(pieces) == [Means(l)] + PiecesMean(more)
            && (PiecesFormed(pieces, end) <==> AllBlank(gap) && Formed(l) && PiecesFormed(more, end)
                                               && Follows(l, PiecesText(more) + end + ")"))
            && gap + (Shown(l) + (PiecesText(more) + end + ")" + rest)) == PiecesText(pieces) + end + ")" + rest
  {
    hide Shown, Formed, Means;
    var pieces := [Piece(gap, l)] + more;
    assert pieces[1..] == more;
    SixInOrder(gap, Shown(l), PiecesText(more), end, ")", rest);
  }

  lemma SixInOrder(a: string, b: string, c: string, d: string, e: string, f: string)
    ensures a + (b + (c + d + e + f)) == (a + b + c) + d + e + f
  {
  }

  lemma NoBlankThere(skipped: string, more: string, t: string)
    requires AllBlank(skipped) && t != "" && !Blank(t[0]) && t == skipped + more
    ensures skipped == "" && t == more
  {
    if skipped != "" {
      StartsBlank(skipped, more);
    }
  }

  lemma StartsBlank(s: string, t: string)
    requires s != "" && AllBlank(s)
    ensures Blank((s + t)[0])
  {
  }

  lemma FollowsLess(l: Layout, front: string, rest: string)
    requires Follows(l, front + rest) && front != ""
    ensures Follows(l, front)
  {
    assert (front + rest)[0] == front[0];
  }

  /**
    The reader is the grammar: a text is read as an expression with a rest behind it if and
    only if it is blanks and a well formed layout that means the expression, and the rest.
   */
  lemma ReaderIsGrammar(s: string, e: Sexpr, rest: string)
    ensures ParseExpr(s) == Some((e, rest))
            <==> exists gap, l :: AllBlank(gap) && Formed(l) && Follows(l, rest) && Means(l) == e
                                  && s == gap + Shown(l) + rest
  {
    hide ParseExpr, Formed, Shown, Means, Follows;
    if ParseExpr(s) == Some((e, rest)) {
      var gap, l := ReadIsLayout(s);
    }
    if gap, l :| AllBlank(gap) && Formed(l) && Follows(l, rest) && Means(l) == e && s == gap + Shown(l) + rest {
      LayoutIsRead(gap, l, rest);
    }
  }

  /** The same for a whole text: one layout, and nothing but blanks around it. */
  lemma TextIsGrammar(s: string, e: Sexpr)
    ensures Parse(s) == Some(e)
            <==> exists gap, l, tail :: AllBlank(gap) && AllBlank(tail) && Formed(l) && Means(l) == e
                                        && s == gap + Shown(l) + tail
  {
    hide ParseExpr, Formed, Shown, Means, Follows, SkipWs;
    if Parse(s) == Some(e) {
      var gap, l := ReadIsLayout(s);
      var rest := ParseExpr(s).value.1;
      var tail := BlanksInFront(rest);
      assert rest == tail + "";
      assert AllBlank(gap) && AllBlank(rest) && Formed(l) && Means(l) == e && s == gap + Shown(l) + rest;
    }
    if gap, l, tail :| AllBlank(gap) && AllBlank(tail) && Formed(l) && Means(l) == e && s == gap + Shown(l) + tail {
      BlanksFollow(l, tail);
      LayoutIsRead(gap, l, tail);
      BlanksAreSkipped(tail, "");
      assert tail + "" == tail;
    }
  }

  lemma BlanksFollow(l: Layout, tail: string)
    requires AllBlank(tail)
    ensures Follows(l, tail)
  {
  }

  // ---- any text at all, between quotes ----

  /** A text with quotes, backslashes and control characters behind backslashes. */
  function Escaped(s: string): string
  {
    if s == "" then ""
    else
      (match s[0]
       case '"' => "\\\""
       case '\\' => "\\\\"
       case '\n' => "\\n"
       case '\r' => "\\r"
       case '\t' => "\\t"
       case c => [c])
      + Escaped(s[1..])
  }

  function EscapedMarks(s: string): seq<Mark>
  {
    if s == "" then []
    else
      [match s[0]
       case '"' => Escape('"')
       case '\\' => Escape('\\')
       case '\n' => Escape('n')
       case '\r' => Escape('r')
       case '\t' => Escape('t')
       case c => Itself(c)]
      + EscapedMarks(s[1..])
  }

  lemma {:induction false} EscapedIsMarks(s: string)
    ensures Escaped(s) == MarksText(EscapedMarks(s)) && MarksMean(EscapedMarks(s)) == s
    ensures forall i :: 0 <= i < |EscapedMarks(s)| ==> WellMarked(EscapedMarks(s)[i])
  {
    hide MarksText, MarksMean;
    if s == "" {
      NoMarks("\"");
    } else {
      EscapedIsMarks(s[1..]);
      OneMoreMark(EscapedMarks(s)[0], EscapedMarks(s[1..]));
      assert s == [s[0]] + s[1..];
    }
  }

  /** Whatever the text is, it comes back from between quotes. */
  lemma QuotedIsRead(s: string, rest: string)
    ensures ParseQuoted(Escaped(s) + "\"" + rest) == Some((s, rest))
  {
    hide ParseQuoted, Escaped, MarksText, MarksMean, EscapedMarks;
    EscapedIsMarks(s);
    MarksAreRead(EscapedMarks(s), rest);
  }

  lemma QuotedTextIsRead(s: string, rest: string)
    ensures ParseExpr("\"" + Escaped(s) + "\"" + rest) == Some((Atom(s), rest))
  {
    hide ParseExpr, ParseQuoted, Escaped;
    QuotedIsRead(s, rest);
    QuotedExpr(Escaped(s) + "\"", rest, s);
    InFront("\"", Escaped(s), "\"", rest);
  }
}
