/**
  The S-expression writer of `snx-sexpr-writer.c` and its round trip through the reader.
  `Writer` is the tree a writer node denotes; the C nodes, which are mutated through
  pointers, are the records of `NodeStore`.
 */
module SexprWriter {
  import opened Wrappers
  import opened Glib
  import opened Sexpr

  datatype Writer = Value(text: string) | Object(name: Option<string>, fields: seq<Field>)
  datatype Field = Field(key: string, value: Writer)

  predicate PlainChar(c: char)
  {
    'a' <= c <= 'z' || 'A' <= c <= 'Z' || '0' <= c <= '9' || c == '_'
  }

  predicate NeedsQuoting(value: string)
  {
    exists i :: 0 <= i < |value| && !PlainChar(value[i])
  }

  function Tabs(level: nat): string
  {
    if level == 0 then "" else Tabs(level - 1) + "\t"
  }

  /** `serialize_node`. */
  function Text(w: Writer, level: nat): string
    decreases w, 0
  {
    match w
    case Value(text) => if NeedsQuoting(text) then "(\"" + text + "\")" else "(" + text + ")"
    case Object(name, fields) =>
      "(" + (if name.Some? then name.value else "") + FieldsText(fields, level + 1) + ")"
  }

  function FieldsText(fields: seq<Field>, level: nat): string
    decreases fields, 1
  {
    if fields == [] then ""
    else "\n" + Tabs(level) + ":" + fields[0].key + " " + Text(fields[0].value, level) + FieldsText(fields[1..], level)
  }

  /** The expression a writer tree stands for; an empty value stands for the empty list. */
  function Denote(w: Writer): Sexpr
    decreases w, 0
  {
    match w
    case Value(text) => List(if text == "" then [] else [Atom(text)])
    case Object(name, fields) => List((if name.Some? then [Atom(name.value)] else []) + DenoteFields(fields))
  }

  function DenoteFields(fields: seq<Field>): seq<Sexpr>
    decreases fields, 1
  {
    if fields == [] then []
    else [Atom(":" + fields[0].key), Denote(fields[0].value)] + DenoteFields(fields[1..])
  }

  // ---- which trees survive ----

  predicate AllAtomChars(s: string) { forall i :: 0 <= i < |s| ==> AtomChar(s[i]) && s[i] != '\0' }

  /** A name that is read as one bare atom. */
  predicate PlainName(s: string) { s != "" && s[0] != '"' && AllAtomChars(s) }

  predicate CleanValue(s: string) { '\0' !in s && '"' !in s && '\\' !in s }

  predicate Clean(w: Writer)
    decreases w, 0
  {
    match w
    case Value(text) => CleanValue(text)
    case Object(name, fields) => (name.Some? ==> PlainName(name.value)) && CleanFields(fields)
  }

  predicate CleanFields(fields: seq<Field>)
    decreases fields, 1
  {
    fields == [] || (AllAtomChars(fields[0].key) && Clean(fields[0].value) && CleanFields(fields[1..]))
  }

  // ---- reading single atoms ----

  /** Text that cannot continue an atom. */
  predicate Delimited(rest: string) { rest == "" || !AtomChar(rest[0]) }

  lemma {:induction false} AtomLengthOf(s: string, rest: string)
    requires AllAtomChars(s) && Delimited(rest)
    ensures AtomLength(s + rest) == |s|
  {
    if s == "" {
      assert s + rest == rest;
    } else {
      assert (s + rest)[1..] == s[1..] + rest;
      AtomLengthOf(s[1..], rest);
    }
  }

  lemma ParseAtomOf(s: string, rest: string)
    requires PlainName(s) && Delimited(rest)
    ensures ParseExpr(s + rest) == Some((Atom(s), rest))
  {
    AtomLengthOf(s, rest);
    var t := s + rest;
    assert t[0] == s[0] && SkipWs(t) == t;
    assert t[..|s|] == s && t[|s|..] == rest;
  }

  lemma {:induction false} ParseQuotedOf(s: string, rest: string)
    requires '"' !in s && '\\' !in s
    ensures ParseQuoted(s + "\"" + rest) == Some((s, rest))
  {
    var t := s + "\"" + rest;
    if s == "" {
      assert t == "\"" + rest;
    } else {
      ParseQuotedOf(s[1..], rest);
      assert t[1..] == s[1..] + "\"" + rest;
      assert [s[0]] + s[1..] == s;
    }
  }

  // ---- values ----

  lemma ItemsEnd(rest: string)
    ensures ParseItems(")" + rest) == Some(([], rest))
  {
    assert (")" + rest)[1..] == rest;
  }

  lemma OneItem(s: string, e: Sexpr, rest: string)
    requires s != "" && s[0] != ')' && !IsSpace(s[0])
    requires ParseExpr(s) == Some((e, ")" + rest))
    ensures ParseItems(s) == Some(([e], rest))
  {
    ItemsEnd(rest);
    assert SkipWs(s) == s;
    assert [e] + [] == [e];
  }

  lemma ListOf(inner: string, items: seq<Sexpr>, rest: string)
    requires ParseItems(inner) == Some((items, rest))
    ensures ParseExpr("(" + inner) == Some((List(items), rest))
  {
    assert ("(" + inner)[1..] == inner;
  }

  lemma PlainIsAtom(text: string)
    requires !NeedsQuoting(text)
    ensures AllAtomChars(text) && '"' !in text && '\\' !in text
  {
    forall i | 0 <= i < |text| ensures AtomChar(text[i]) && text[i] != '\0' && text[i] != '"' && text[i] != '\\' {
      assert PlainChar(text[i]);
    }
  }

  lemma ValueReads(text: string, level: nat, rest: string)
    requires '"' !in text && '\\' !in text
    ensures ParseExpr(Text(Value(text), level) + rest) == Some((Denote(Value(text)), rest))
  {
    var s := Text(Value(text), level) + rest;
    if NeedsQuoting(text) {
      var inner := "\"" + (text + "\"" + (")" + rest));
      assert s == "(" + inner;
      ParseQuotedOf(text, ")" + rest);
      assert inner[1..] == text + "\"" + (")" + rest);
      assert SkipWs(inner) == inner;
      OneItem(inner, Atom(text), rest);
      ListOf(inner, [Atom(text)], rest);
    } else if text == "" {
      assert s == "(" + (")" + rest);
      ItemsEnd(rest);
      ListOf(")" + rest, [], rest);
    } else {
      PlainIsAtom(text);
      var inner := text + (")" + rest);
      assert s == "(" + inner;
      ParseAtomOf(text, ")" + rest);
      assert inner[0] == text[0];
      OneItem(inner, Atom(text), rest);
      ListOf(inner, [Atom(text)], rest);
    }
  }

  // ---- whole trees ----

  lemma {:induction false} SkipTabs(level: nat, rest: string)
    requires rest != "" && !IsSpace(rest[0])
    ensures SkipWs(Tabs(level) + rest) == rest
    decreases level
  {
    if level == 0 {
      assert Tabs(level) + rest == rest;
    } else {
      TabFirst(level);
      SkipTabs(level - 1, rest);
      assert (Tabs(level) + rest)[1..] == Tabs(level - 1) + rest;
    }
  }

  lemma {:induction false} TabFirst(level: nat)
    requires level > 0
    ensures Tabs(level) == "\t" + Tabs(level - 1)
  {
    if level > 1 {
      TabFirst(level - 1);
    }
  }

  /** Items behind blanks are the same items. */
  lemma ItemsBehindBlanks(s: string, t: string)
    requires SkipWs(s) == SkipWs(t)
    ensures ParseItems(s) == ParseItems(t)
  {
  }

  lemma FirstItem(s: string, e: Sexpr, rest: string)
    requires s != "" && s[0] != ')' && !IsSpace(s[0]) && ParseExpr(s) == Some((e, rest))
    ensures ParseItems(s) == Prepend([e], ParseItems(rest))
  {
    assert SkipWs(s) == s;
  }

  lemma TextStartsList(w: Writer, level: nat)
    ensures Text(w, level) != "" && Text(w, level)[0] == '('
  {
  }

  lemma KeyReads(key: string, level: nat, behind: string)
    requires AllAtomChars(key) && Delimited(behind)
    ensures ParseItems("\n" + Tabs(level) + ":" + key + behind)
            == Prepend([Atom(":" + key)], ParseItems(behind))
  {
    hide ParseItems, ParseExpr, AtomLength;
    var colon := ":" + key;
    var line := "\n" + Tabs(level) + ":" + key + behind;
    var shown := colon + behind;
    assert shown[0] == ':';
    assert line[0] == '\n' && line[1..] == Tabs(level) + shown;
    SkipTabs(level, shown);
    assert SkipWs(line) == shown && SkipWs(shown) == shown;
    ItemsBehindBlanks(line, shown);
    ParseAtomOf(colon, behind);
    FirstItem(shown, Atom(colon), behind);
  }

  lemma BlankThenList(text: string, value: Sexpr, rest: string)
    requires text != "" && text[0] == '(' && ParseExpr(text) == Some((value, rest))
    ensures ParseItems(" " + text) == Prepend([value], ParseItems(rest))
  {
    hide ParseItems, ParseExpr;
    assert (" " + text)[1..] == text && SkipWs(text) == text;
    ItemsBehindBlanks(" " + text, text);
    FirstItem(text, value, rest);
  }

  /** One field: the line break, the tabs and the blank are skipped, key and value are read. */
  lemma FieldReads(key: string, level: nat, valueText: string, value: Sexpr, rest: string)
    requires AllAtomChars(key) && valueText != "" && valueText[0] == '('
    requires ParseExpr(valueText + rest) == Some((value, rest))
    ensures ParseItems("\n" + Tabs(level) + ":" + key + " " + valueText + rest)
            == Prepend([Atom(":" + key), value], ParseItems(rest))
  {
    hide ParseItems, ParseExpr, SkipWs, Tabs;
    var behind := " " + (valueText + rest);
    assert "\n" + Tabs(level) + ":" + key + " " + valueText + rest == "\n" + Tabs(level) + ":" + key + behind;
    KeyReads(key, level, behind);
    assert (valueText + rest)[0] == '(';
    BlankThenList(valueText + rest, value, rest);
    PrependTwice([Atom(":" + key)], [value], ParseItems(rest));
    assert [Atom(":" + key)] + [value] == [Atom(":" + key), value];
  }

  lemma FieldsTextStep(fields: seq<Field>, level: nat, rest: string)
    requires fields != []
    ensures FieldsText(fields, level) + ")" + rest
            == "\n" + Tabs(level) + ":" + fields[0].key + " " + Text(fields[0].value, level)
               + (FieldsText(fields[1..], level) + ")" + rest)
  {
    hide Text, Tabs;
  }

  lemma FieldsTextDelimited(fields: seq<Field>, level: nat, rest: string)
    ensures Delimited(FieldsText(fields, level) + ")" + rest)
  {
  }

  lemma {:induction false} FieldsRead(fields: seq<Field>, level: nat, rest: string)
    requires CleanFields(fields)
    ensures ParseItems(FieldsText(fields, level) + ")" + rest) == Some((DenoteFields(fields), rest))
    decreases fields, 1
  {
    if fields == [] {
      assert FieldsText(fields, level) + ")" + rest == ")" + rest;
      ItemsEnd(rest);
    } else {
      hide ParseItems, ParseExpr, SkipWs, Tabs, Text, Denote, Clean;
      var f := fields[0];
      var text := Text(f.value, level);
      var behind := FieldsText(fields[1..], level) + ")" + rest;
      TreeReads(f.value, level, behind);
      FieldsRead(fields[1..], level, rest);
      TextStartsList(f.value, level);
      FieldReads(f.key, level, text, Denote(f.value), behind);
      FieldsTextStep(fields, level, rest);
    }
  }

  /** The text of a clean tree, at any indent level, is read back as the tree it denotes. */
  lemma {:induction false} TreeReads(w: Writer, level: nat, rest: string)
    requires Clean(w)
    ensures ParseExpr(Text(w, level) + rest) == Some((Denote(w), rest))
    decreases w, 0
  {
    hide ParseItems, ParseExpr, ParseQuoted, SkipWs, Tabs, FieldsText, DenoteFields, CleanFields;
    match w
    case Value(text) =>
      ValueReads(text, level, rest);
    case Object(name, fields) =>
      var behind := FieldsText(fields, level + 1) + ")" + rest;
      FieldsRead(fields, level + 1, rest);
      if name.None? {
        assert Text(w, level) + rest == "(" + behind;
        assert [] + DenoteFields(fields) == DenoteFields(fields);
        ListOf(behind, DenoteFields(fields), rest);
      } else {
        var inner := name.value + behind;
        assert Text(w, level) + rest == "(" + inner;
        FieldsTextDelimited(fields, level + 1, rest);
        ParseAtomOf(name.value, behind);
        assert inner[0] == name.value[0];
        FirstItem(inner, Atom(name.value), behind);
        ListOf(inner, [Atom(name.value)] + DenoteFields(fields), rest);
      }
  }

  /** Writing a clean tree and parsing the text gives exactly the tree, and consumes all of it. */
  lemma RoundTrip(w: Writer, level: nat)
    requires Clean(w)
    ensures Parse(Text(w, level)) == Some(Denote(w))
  {
    TreeReads(w, level, "");
    assert Text(w, level) + "" == Text(w, level);
  }

  // ---- the exact domain for values: the writer does not escape ----

  function Backslashes(k: nat): string
  {
    if k == 0 then "" else "\\" + Backslashes(k - 1)
  }

  /** Escapes make the reader fall behind: it never recovers the backslashes it has lost. */
  lemma {:induction false} ReaderFallsBehind(x: string, t: string, k: nat, r: string)
    requires k >= 1
    ensures ParseQuoted(x + "\"" + t) != Some((Backslashes(k) + x, r))
    decreases |x|
  {
    var s := x + "\"" + t;
    if x == "" {
      assert s[0] == '"';
    } else if x[0] == '\\' {
      if |x| == 1 {
        assert s[1] == '"';
        if ParseQuoted(s).Some? {
          assert ParseQuoted(s).value.0[0] == '"';
        }
      } else if x[1] == '\\' {
        ReaderFallsBehind(x[2..], t, k + 1, r);
        assert s[2..] == x[2..] + "\"" + t;
        if ParseQuoted(s) == Some((Backslashes(k) + x, r)) {
          var later := ParseQuoted(s[2..]).value.0;
          assert Backslashes(k) + x == ['\\'] + later;
          assert (['\\'] + later)[1..] == later;
          BackslashesMove(k, x);
          assert false;
        }
      } else {
        assert s[1] == x[1];
        if ParseQuoted(s).Some? {
          assert ParseQuoted(s).value.0[0] == Unescape(x[1]);
        }
      }
    } else if x[0] != '"' && ParseQuoted(s).Some? {
      assert ParseQuoted(s).value.0[0] == x[0];
    }
  }

  lemma BackslashesMove(k: nat, x: string)
    requires k >= 1 && |x| >= 2 && x[0] == '\\' && x[1] == '\\'
    ensures (Backslashes(k) + x)[1..] == Backslashes(k + 1) + x[2..]
  {
    BackslashesEnd(k);
    assert Backslashes(k + 1) == Backslashes(k) + "\\";
    BackslashesEnd(k - 1);
    assert Backslashes(k) == "\\" + Backslashes(k - 1);
    assert x == "\\" + "\\" + x[2..];
  }

  lemma {:induction false} BackslashesEnd(k: nat)
    ensures Backslashes(k + 1) == Backslashes(k) + "\\"
  {
    if k > 0 {
      BackslashesEnd(k - 1);
    }
  }

  lemma {:induction false} QuotedIsExact(v: string, t: string, r: string)
    ensures ParseQuoted(v + "\"" + t) == Some((v, r)) ==> '"' !in v && '\\' !in v
  {
    var s := v + "\"" + t;
    if v != "" {
      if v[0] == '\\' {
        EscapeIsLost(v, t, r);
      } else {
        assert s[1..] == v[1..] + "\"" + t;
        QuotedIsExact(v[1..], t, r);
        if v[0] != '"' && ParseQuoted(s[1..]).Some? {
          var later := ParseQuoted(s[1..]).value.0;
          assert ([v[0]] + later)[1..] == later;
        }
        assert v == [v[0]] + v[1..];
      }
    }
  }

  lemma EscapeIsLost(v: string, t: string, r: string)
    requires v != "" && v[0] == '\\'
    ensures ParseQuoted(v + "\"" + t) != Some((v, r))
  {
    var s := v + "\"" + t;
    assert s[1] == if |v| >= 2 then v[1] else '"';
    var after := ParseQuoted(s[2..]);
    if after.Some? && |v| >= 2 {
      ReaderFallsBehind(v[2..], t, 1, r);
      assert s[2..] == v[2..] + "\"" + t;
      assert ([Unescape(s[1])] + after.value.0)[1..] == after.value.0;
      assert v[1] == '\\' ==> v[1..] == Backslashes(1) + v[2..];
    }
    if after.Some? {
      assert ([Unescape(s[1])] + after.value.0)[0] == Unescape(s[1]);
    }
  }

  /**
    Values are written without escaping, so a value survives if and only if it holds neither
    a quote nor a backslash.
   */
  lemma ValueRoundTripExact(text: string, level: nat)
    ensures Parse(Text(Value(text), level)) == Some(Denote(Value(text))) <==> '"' !in text && '\\' !in text
  {
    var s := Text(Value(text), level);
    if '"' !in text && '\\' !in text {
      ValueReads(text, level, "");
      assert s + "" == s;
    } else {
      if !NeedsQuoting(text) {
        PlainIsAtom(text);
        assert false;
      }
      QuotedValueFails(text);
    }
  }

  lemma QuotedValueFails(text: string)
    requires '"' in text || '\\' in text
    ensures Parse("(\"" + text + "\")") != Some(List([Atom(text)]))
  {
    hide ParseItems, ParseQuoted;
    var behind := text + "\"" + ")";
    var inner := "\"" + behind;
    var s := "(\"" + text + "\")";
    assert s == "(" + inner && s[1..] == inner && inner[1..] == behind;
    assert SkipWs(inner) == inner;
    var quoted := ParseQuoted(behind);
    if quoted.Some? {
      var (value, rest) := quoted.value;
      QuotedIsExact(text, ")", rest);
      FirstItem(inner, Atom(value), rest);
      if ParseItems(rest).Some? {
        var items := [Atom(value)] + ParseItems(rest).value.0;
        assert items[0] == Atom(value);
        ListOf(inner, items, ParseItems(rest).value.1);
      } else {
        ListFails(inner);
      }
    } else {
      ItemFails(inner);
      ListFails(inner);
    }
  }

  lemma ItemFails(inner: string)
    requires inner != "" && inner[0] == '"' && ParseExpr(inner).None?
    ensures ParseItems(inner).None?
  {
    assert SkipWs(inner) == inner;
  }

  lemma ListFails(inner: string)
    requires ParseItems(inner).None?
    ensures ParseExpr("(" + inner).None?
  {
    assert ("(" + inner)[1..] == inner;
  }

  // ---- looking fields up in what was read back ----

  /** The value of the first field with this key. */
  function Lookup(fields: seq<Field>, key: string): Option<Writer>
  {
    if fields == [] then None
    else if fields[0].key == key then Some(fields[0].value)
    else Lookup(fields[1..], key)
  }

  /** A name the reader does not take for a key. */
  predicate FieldsVisible(w: Writer)
  {
    w.Object? && (w.name.Some? ==> w.name.value != "" && w.name.value[0] != ':')
  }

  lemma {:induction false} FieldAt(fields: seq<Field>, i: nat)
    requires i < |fields|
    ensures |DenoteFields(fields)| == 2 * |fields|
    ensures DenoteFields(fields)[2 * i] == Atom(":" + fields[i].key)
    ensures DenoteFields(fields)[2 * i + 1] == Denote(fields[i].value)
    decreases fields
  {
    hide Denote;
    FieldsLength(fields);
    if i > 0 {
      FieldAt(fields[1..], i - 1);
    }
  }

  lemma {:induction false} FieldsLength(fields: seq<Field>)
    ensures |DenoteFields(fields)| == 2 * |fields|
  {
    if fields != [] {
      FieldsLength(fields[1..]);
    }
  }

  /** The i-th key and value, as the accessors see them. */
  lemma FieldsSeen(w: Writer, i: nat)
    requires FieldsVisible(w)
    ensures FieldCount(Some(Denote(w))) == |w.fields|
    ensures i < |w.fields| ==> FieldKey(Some(Denote(w)), i) == Some(w.fields[i].key)
    ensures i < |w.fields| ==> FieldValue(Some(Denote(w)), i) == Some(Denote(w.fields[i].value))
  {
    hide Denote, DenoteFields;
    var e, d := Some(Denote(w)), DenoteFields(w.fields);
    FieldsLength(w.fields);
    ItemsOf(w);
    if w.fields != [] {
      FieldAt(w.fields, 0);
      assert FieldStart(e) == if w.name.Some? then 1 else 0;
      if i < |w.fields| {
        FieldAt(w.fields, i);
        assert Child(e, FieldStart(e) + 2 * i) == Some(d[2 * i]);
        assert Child(e, FieldStart(e) + 2 * i + 1) == Some(d[2 * i + 1]);
        assert (":" + w.fields[i].key)[1..] == w.fields[i].key;
      }
    }
  }

  lemma ItemsOf(w: Writer)
    requires w.Object?
    ensures var items, d := Denote(w).children, DenoteFields(w.fields);
            && Denote(w).List?
            && (w.name.None? ==> items == d)
            && (w.name.Some? ==> items == [Atom(w.name.value)] + d)
  {
    assert [] + DenoteFields(w.fields) == DenoteFields(w.fields);
  }

  lemma {:induction false} FindsFrom(w: Writer, key: string, i: nat)
    requires FieldsVisible(w) && i <= |w.fields|
    ensures FindFrom(Some(Denote(w)), key, i)
            == match Lookup(w.fields[i..], key) case None => None case Some(v) => Some(Denote(v))
    decreases |w.fields| - i
  {
    hide Denote, FieldKey, FieldValue, FieldCount;
    FieldsSeen(w, i);
    if i < |w.fields| {
      FindsFrom(w, key, i + 1);
      assert w.fields[i..][0] == w.fields[i] && w.fields[i..][1..] == w.fields[i + 1..];
    }
  }

  /** Searching the tree that was read back finds what was written under the key first. */
  lemma FindsField(w: Writer, key: string)
    requires FieldsVisible(w)
    ensures FindFrom(Some(Denote(w)), key, 0)
            == match Lookup(w.fields, key) case None => None case Some(v) => Some(Denote(v))
  {
    FindsFrom(w, key, 0);
    assert w.fields[0..] == w.fields;
  }

  lemma ValueStringOf(text: string)
    ensures ValueString(Some(Denote(Value(text)))) == if text == "" then None else Some(text)
  {
  }

  lemma NoValue()
    ensures ValueString(None) == None
  {
  }

  /** The text written under a key: nothing if there is none or it is empty. */
  function Written(data: Writer, key: string): Option<string>
    requires data.Object?
  {
    match Lookup(data.fields, key)
    case Some(Value(text)) => if text == "" then None else Some(text)
    case _ => None
  }

  predicate Plain(data: Writer, key: string)
    requires data.Object?
  {
    var found := Lookup(data.fields, key);
    found.Some? ==> found.value.Value?
  }

  /** What a search finds is, as a string, what was written. */
  lemma ValueFound(data: Writer, key: string)
    requires FieldsVisible(data) && Plain(data, key)
    ensures ValueString(FindFrom(Some(Denote(data)), key, 0)) == Written(data, key)
  {
    hide Denote, FindFrom, ValueString, Lookup;
    FindsField(data, key);
    var found := Lookup(data.fields, key);
    if found.Some? {
      ValueStringOf(found.value.text);
    } else {
      NoValue();
    }
  }

  // ---- writer nodes ----

  /** A writer node; child nodes are referred to by their place in the store. */
  datatype Node = ValueNode(text: string) | ObjectNode(name: Option<string>, keys: seq<string>, values: seq<nat>)

  ghost predicate Linked(nodes: seq<Node>)
  {
    forall i :: 0 <= i < |nodes| && nodes[i].ObjectNode?
                ==> |nodes[i].keys| == |nodes[i].values|
                    && forall j :: 0 <= j < |nodes[i].values| ==> i < nodes[i].values[j] < |nodes|
  }

  /** The tree a node stands for. */
  ghost function Tree(nodes: seq<Node>, id: nat): Writer
    requires Linked(nodes) && id < |nodes|
    decreases |nodes| - id, 0
  {
    match nodes[id]
    case ValueNode(text) => Value(text)
    case ObjectNode(name, keys, values) => Object(name, TreeFields(nodes, id, 0))
  }

  /** The fields of a node from the `i`-th on. */
  ghost function TreeFields(nodes: seq<Node>, id: nat, i: nat): seq<Field>
    requires Linked(nodes) && id < |nodes| && nodes[id].ObjectNode? && i <= |nodes[id].keys|
    decreases |nodes| - id - 1, |nodes[id].keys| - i + 1
  {
    if i == |nodes[id].keys| then []
    else [Field(nodes[id].keys[i], Tree(nodes, nodes[id].values[i]))] + TreeFields(nodes, id, i + 1)
  }

  /** The nodes allocated by the writer, and the string it serializes into. */
  class NodeStore {
    var nodes: seq<Node>
    var out: string

    ghost predicate Valid() reads this { Linked(nodes) }

    constructor ()
      ensures Valid() && nodes == [] && out == ""
    {
      nodes, out := [], "";
    }

    method NewObject(name: Option<string>) returns (id: nat)
      requires Valid()
      modifies this`nodes
      ensures Valid() && id == |old(nodes)| && nodes == old(nodes) + [ObjectNode(name, [], [])]
    {
      id := |nodes|;
      nodes := nodes + [ObjectNode(name, [], [])];
    }

    /** A value node has no fields: adding one to it does nothing. */
    method AddField(writer: nat, key: string, value: nat)
      requires Valid() && writer < value < |nodes|
      modifies this`nodes
      ensures Valid()
      ensures nodes == match old(nodes)[writer]
                       case ValueNode(_) => old(nodes)
                       case ObjectNode(name, keys, values) =>
                         old(nodes)[writer := ObjectNode(name, keys + [key], values + [value])]
    {
      if nodes[writer].ObjectNode? {
        var n := nodes[writer];
        nodes := nodes[writer := n.(keys := n.keys + [key], values := n.values + [value])];
      }
    }

    /** A missing value is not written at all. */
    method SetString(writer: nat, key: string, value: Option<string>)
      requires Valid() && writer < |nodes| && nodes[writer].ObjectNode?
      modifies this`nodes
      ensures Valid()
      ensures nodes == if value.None? then old(nodes)
                       else var n := old(nodes)[writer];
                            old(nodes)[writer := n.(keys := n.keys + [key], values := n.values + [|old(nodes)|])]
                            + [ValueNode(value.value)]
    {
      if value.None? {
        return;
      }
      var id := |nodes|;
      nodes := nodes + [ValueNode(value.value)];
      AddField(writer, key, id);
    }

    method AddObject(writer: nat, key: string, name: Option<string>) returns (child: nat)
      requires Valid() && writer < |nodes| && nodes[writer].ObjectNode?
      modifies this`nodes
      ensures Valid() && child == |old(nodes)|
      ensures var n := old(nodes)[writer];
              nodes == old(nodes)[writer := n.(keys := n.keys + [key], values := n.values + [child])]
                       + [ObjectNode(name, [], [])]
    {
      child := NewObject(name);
      AddField(writer, key, child);
    }

    method SerializeNode(id: nat, level: nat)
      requires Valid() && id < |nodes|
      modifies this`out
      ensures out == old(out) + Text(Tree(nodes, id), level)
      decreases |nodes| - id
    {
      match nodes[id]
      case ValueNode(text) =>
        if NeedsQuoting(text) {
          out := out + "(\"" + text + "\")";
        } else {
          out := out + "(" + text + ")";
        }
      case ObjectNode(name, keys, values) =>
        out := out + "(";
        if name.Some? {
          out := out + name.value;
        }
        ghost var head := out;
        var i := 0;
        hide Text, Tabs, Tree, TreeFields, FieldsText;
        while i < |keys|
          invariant 0 <= i <= |keys|
          invariant out + FieldsText(TreeFields(nodes, id, i), level + 1)
                    == head + FieldsText(TreeFields(nodes, id, 0), level + 1)
        {
          ghost var before := out;
          out := out + "\n" + Tabs(level + 1) + ":" + keys[i] + " ";
          SerializeNode(values[i], level + 1);
          SerializedField(nodes, id, i, level + 1, before, out);
          i := i + 1;
        }
        SerializedObject(nodes, id, level, old(out), head, out);
        out := out + ")";
    }
  }

  lemma SerializedObject(nodes: seq<Node>, id: nat, level: nat, start: string, head: string, after: string)
    requires Linked(nodes) && id < |nodes| && nodes[id].ObjectNode?
    requires head == start + "(" + if nodes[id].name.Some? then nodes[id].name.value else ""
    requires after + FieldsText(TreeFields(nodes, id, |nodes[id].keys|), level + 1)
             == head + FieldsText(TreeFields(nodes, id, 0), level + 1)
    ensures after + ")" == start + Text(Tree(nodes, id), level)
  {
    assert after + "" == after;
    var fields := FieldsText(TreeFields(nodes, id, 0), level + 1);
    var shown := if nodes[id].name.Some? then nodes[id].name.value else "";
    assert start + "(" + shown + fields + ")" == start + ("(" + shown + fields + ")");
  }

  lemma SerializedField(nodes: seq<Node>, id: nat, i: nat, level: nat, before: string, after: string)
    requires Linked(nodes) && id < |nodes| && nodes[id].ObjectNode? && i < |nodes[id].keys|
    requires after == before + "\n" + Tabs(level) + ":" + nodes[id].keys[i] + " "
                      + Text(Tree(nodes, nodes[id].values[i]), level)
    ensures before + FieldsText(TreeFields(nodes, id, i), level)
            == after + FieldsText(TreeFields(nodes, id, i + 1), level)
  {
    hide Text, Tree, Tabs;
    var fs := TreeFields(nodes, id, i);
    assert fs[1..] == TreeFields(nodes, id, i + 1);
  }
}
