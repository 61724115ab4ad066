/**
  The S-expression reader of `snx-sexpr.c`. Text is a C string, so it holds no NUL. The
  parser moves a position through its input; `ParseExpr` and its companions say what each
  step reads from the text that is left.
 */
module Sexpr {
  import opened Wrappers
  import opened Glib

  datatype Sexpr = Atom(text: string) | List(children: seq<Sexpr>)

  predicate AtomChar(c: char) { !IsSpace(c) && c != '(' && c != ')' }

  function SkipWs(s: string): (t: string)
    ensures |t| <= |s|
  {
    if s != [] && IsSpace(s[0]) then SkipWs(s[1..]) else s
  }

  function Unescape(c: char): char
  {
    if c == 'n' then '\n' else if c == 'r' then '\r' else if c == 't' then '\t' else c
  }

  /** Puts what was read earlier in front of what is read later. */
  function Prepend<A>(front: seq<A>, r: Option<(seq<A>, string)>): Option<(seq<A>, string)>
  {
    match r
    case None => None
    case Some((more, rest)) => Some((front + more, rest))
  }

  lemma PrependTwice<A>(a: seq<A>, b: seq<A>, r: Option<(seq<A>, string)>)
    ensures Prepend(a, Prepend(b, r)) == Prepend(a + b, r)
    ensures Prepend([], r) == r
  {
    if r.Some? {
      assert a + (b + r.value.0) == a + b + r.value.0;
      assert [] + r.value.0 == r.value.0;
    }
  }

  /** The text up to the closing quote, unescaped, and what follows that quote. */
  function ParseQuoted(s: string): (r: Option<(string, string)>)
    ensures r.Some? ==> |r.value.1| < |s|
  {
    if s == [] then None
    else if s[0] == '"' then Some(("", s[1..]))
    else
      var escaped := s[0] == '\\' && |s| > 1;
      var c := if escaped then Unescape(s[1]) else s[0];
      Prepend([c], ParseQuoted(if escaped then s[2..] else s[1..]))
  }

  function AtomLength(s: string): (n: nat)
    ensures n <= |s|
  {
    if s != [] && AtomChar(s[0]) then 1 + AtomLength(s[1..]) else 0
  }

  function ParseExpr(s: string): (r: Option<(Sexpr, string)>)
    ensures r.Some? ==> |r.value.1| < |s|
    decreases |s|, 1
  {
    var t := SkipWs(s);
    if t != [] && t[0] == '(' then
      match ParseItems(t[1..])
      case None => None
      case Some((children, rest)) => Some((List(children), rest))
    else if t != [] && t[0] == '"' then
      match ParseQuoted(t[1..])
      case None => None
      case Some((value, rest)) => Some((Atom(value), rest))
    else
      var n := AtomLength(t);
      if n == 0 then None else Some((Atom(t[..n]), t[n..]))
  }

  /** The items of a list up to its closing parenthesis. */
  function ParseItems(s: string): (r: Option<(seq<Sexpr>, string)>)
    ensures r.Some? ==> |r.value.1| < |s|
    decreases |s|, 2
  {
    var t := SkipWs(s);
    if t == [] then None
    else if t[0] == ')' then Some(([], t[1..]))
    else
      match ParseExpr(t)
      case None => None
      case Some((first, rest)) => Prepend([first], ParseItems(rest))
  }

  /** `snx_sexpr_parse`: one expression, and nothing but blanks behind it. */
  function Parse(s: string): Option<Sexpr>
  {
    match ParseExpr(s)
    case None => None
    case Some((e, rest)) => if SkipWs(rest) == [] then Some(e) else None
  }

  class Parser {
    const input: string
    var pos: nat

    ghost predicate Valid() reads this { pos <= |input| && '\0' !in input }

    ghost function Left(): string
      reads this
      requires Valid()
    {
      input[pos..]
    }

    constructor (input: string)
      requires '\0' !in input
      ensures Valid() && this.input == input && pos == 0
    {
      this.input := input;
      pos := 0;
    }

    /** The character at the position; the terminating NUL behind the last one. */
    function Peek(): (c: char)
      reads this
      requires Valid()
      ensures c == '\0' <==> Left() == []
      ensures Left() != [] ==> c == Left()[0]
    {
      if pos < |input| then assert input[pos] in input; input[pos] else '\0'
    }

    lemma Advance()
      requires Valid() && pos < |input|
      ensures input[pos..][1..] == input[pos + 1..]
    {
    }

    method SkipWhitespace()
      requires Valid()
      modifies this
      ensures Valid() && Left() == SkipWs(old(Left())) && old(pos) <= pos
    {
      while IsSpace(Peek())
        invariant Valid() && SkipWs(Left()) == SkipWs(old(Left())) && old(pos) <= pos
        decreases |input| - pos
      {
        Advance();
        pos := pos + 1;
      }
    }

    /** Starts at the opening quote. */
    method ParseQuotedAtom() returns (r: Option<Sexpr>)
      requires Valid() && Peek() == '"'
      modifies this
      ensures Valid() && old(pos) < pos
      ensures match ParseQuoted(old(Left())[1..])
              case None => r == None
              case Some((value, rest)) => r == Some(Atom(value)) && Left() == rest
    {
      ghost var all := ParseQuoted(Left()[1..]);
      var value := "";
      Advance();
      pos := pos + 1;
      PrependTwice(value, value, all);
      while Peek() != '\0'
        invariant Valid() && old(pos) < pos
        invariant all == Prepend(value, ParseQuoted(Left()))
        decreases |input| - pos
      {
        var ch := Peek();
        Advance();
        pos := pos + 1;
        if ch == '"' {
          assert value + "" == value;
          return Some(Atom(value));
        }
        if ch == '\\' && Peek() != '\0' {
          var escaped := Peek();
          Advance();
          pos := pos + 1;
          PrependTwice(value, [Unescape(escaped)], ParseQuoted(Left()));
          value := value + [Unescape(escaped)];
        } else {
          PrependTwice(value, [ch], ParseQuoted(Left()));
          value := value + [ch];
        }
      }
      return None;
    }

    method ParseAtom() returns (r: Option<Sexpr>)
      requires Valid()
      modifies this
      ensures Valid() && old(pos) <= pos
      ensures var s := old(Left()); var n := AtomLength(s);
              if n == 0 then r == None else r == Some(Atom(s[..n])) && Left() == s[n..]
    {
      var start := pos;
      while Peek() != '\0' && AtomChar(Peek())
        invariant Valid() && start <= pos
        invariant AtomLength(input[start..]) == pos - start + AtomLength(Left())
        decreases |input| - pos
      {
        Advance();
        pos := pos + 1;
      }
      assert input[start..][..pos - start] == input[start..pos];
      if pos == start {
        return None;
      }
      return Some(Atom(input[start..pos]));
    }

    /** Starts at the opening parenthesis. */
    method ParseList() returns (r: Option<Sexpr>)
      requires Valid() && Peek() == '('
      modifies this
      ensures Valid() && old(pos) < pos
      ensures match ParseItems(old(Left())[1..])
              case None => r == None
              case Some((children, rest)) => r == Some(List(children)) && Left() == rest
      decreases |input| - pos, 0
    {
      ghost var all := ParseItems(Left()[1..]);
      var children: seq<Sexpr> := [];
      Advance();
      pos := pos + 1;
      PrependTwice(children, children, all);
      while true
        invariant Valid() && old(pos) < pos
        invariant all == Prepend(children, ParseItems(Left()))
        decreases |input| - pos
      {
        ghost var before := Left();
        SkipWhitespace();
        SkipWsTwice(before);
        if Peek() == '\0' {
          return None;
        }
        if Peek() == ')' {
          Advance();
          pos := pos + 1;
          assert children + [] == children;
          return Some(List(children));
        }
        var child := ParseExpression();
        if child.None? {
          return None;
        }
        PrependTwice(children, [child.value], ParseItems(Left()));
        children := children + [child.value];
      }
    }

    method ParseExpression() returns (r: Option<Sexpr>)
      requires Valid()
      modifies this
      ensures Valid() && old(pos) <= pos && (r.Some? ==> old(pos) < pos)
      ensures match ParseExpr(old(Left()))
              case None => r == None
              case Some((e, rest)) => r == Some(e) && Left() == rest
      decreases |input| - pos, 1
    {
      SkipWhitespace();
      if Peek() == '(' {
        r := ParseList();
      } else if Peek() == '"' {
        r := ParseQuotedAtom();
      } else {
        r := ParseAtom();
      }
    }
  }

  lemma SkipWsTwice(s: string)
    ensures SkipWs(SkipWs(s)) == SkipWs(s)
  {
  }

  /** `snx_sexpr_parse`. */
  method ParseText(input: string) returns (r: Option<Sexpr>)
    requires '\0' !in input
    ensures r == Parse(input)
  {
    var parser := new Parser(input);
    assert parser.Left() == input;
    var e := parser.ParseExpression();
    if e.None? {
      return None;
    }
    parser.SkipWhitespace();
    return if parser.Peek() != '\0' then None else e;
  }

  // ---- accessors: a missing node is None ----

  function ChildCount(e: Option<Sexpr>): nat
  {
    if e.Some? && e.value.List? then |e.value.children| else 0
  }

  function Child(e: Option<Sexpr>, i: nat): Option<Sexpr>
  {
    if e.Some? && e.value.List? && i < |e.value.children| then Some(e.value.children[i]) else None
  }

  function AtomText(e: Option<Sexpr>): Option<string>
  {
    if e.Some? && e.value.Atom? then Some(e.value.text) else None
  }

  /** A name atom in front of the first ":key" shifts the fields by one. */
  function FieldStart(e: Option<Sexpr>): nat
  {
    var first := AtomText(Child(e, 0));
    if first.Some? && (first.value == "" || first.value[0] != ':') then 1 else 0
  }

  function FieldCount(e: Option<Sexpr>): nat
  {
    if ChildCount(e) > FieldStart(e) then (ChildCount(e) - FieldStart(e)) / 2 else 0
  }

  function FieldKey(e: Option<Sexpr>, i: nat): Option<string>
  {
    var key := AtomText(Child(e, FieldStart(e) + i * 2));
    if key.None? || key.value == "" || key.value[0] != ':' then None else Some(key.value[1..])
  }

  function FieldValue(e: Option<Sexpr>, i: nat): Option<Sexpr>
  {
    Child(e, FieldStart(e) + i * 2 + 1)
  }

  /** The value of the first field with this key, from field `i` on. */
  function FindFrom(e: Option<Sexpr>, key: string, i: nat): Option<Sexpr>
    decreases FieldCount(e) - i
  {
    if i >= FieldCount(e) then None
    else if FieldKey(e, i) == Some(key) then FieldValue(e, i)
    else FindFrom(e, key, i + 1)
  }

  method FindField(e: Option<Sexpr>, key: string) returns (r: Option<Sexpr>)
    ensures r == FindFrom(e, key, 0)
  {
    var count := FieldCount(e);
    for i := 0 to count
      invariant FindFrom(e, key, 0) == FindFrom(e, key, i)
    {
      if FieldKey(e, i) == Some(key) {
        return FieldValue(e, i);
      }
    }
    return None;
  }

  /** `g_strsplit(path, ":", -1)`. */
  function SplitPath(path: string): (parts: seq<string>)
  {
    if path == [] then []
    else
      var init := SplitPath(path[..|path| - 1]);
      var c := path[|path| - 1];
      if init == [] then (if c == ':' then ["", ""] else [[c]])
      else if c == ':' then init + [""]
      else init[..|init| - 1] + [init[|init| - 1] + [c]]
  }

  function Follow(e: Option<Sexpr>, parts: seq<string>): Option<Sexpr>
    decreases |parts|
  {
    if parts == [] || e.None? then e
    else Follow(if parts[0] == "" then e else FindFrom(e, parts[0], 0), parts[1..])
  }

  function Get(e: Option<Sexpr>, path: string): Option<Sexpr>
  {
    Follow(e, SplitPath(path))
  }

  /** `snx_sexpr_get`. */
  method GetByPath(e: Option<Sexpr>, path: string) returns (current: Option<Sexpr>)
    ensures current == Get(e, path)
  {
    var parts := SplitPath(path);
    current := e;
    var i := 0;
    while i < |parts| && current.Some?
      invariant 0 <= i <= |parts|
      invariant Follow(current, parts[i..]) == Get(e, path)
    {
      if parts[i] != "" {
        current := FindField(current, parts[i]);
      }
      assert parts[i..][1..] == parts[i + 1..];
      i := i + 1;
    }
  }

  function ValueString(e: Option<Sexpr>): Option<string>
  {
    if ChildCount(e) != 1 then None else AtomText(Child(e, 0))
  }

  function GetString(e: Option<Sexpr>, path: string): Option<string>
  {
    ValueString(Get(e, path))
  }

  function ObjectName(e: Option<Sexpr>): Option<string>
  {
    if FieldStart(e) == 1 then AtomText(Child(e, 0)) else None
  }
}
