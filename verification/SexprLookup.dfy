/** What the lookups of `snx-sexpr.c` find, told by positions in a list and by paths as lists. */
module SexprLookup {
  import opened Wrappers
  import opened Sexpr

  /** Whether a list starts with a name: an atom that is not the key of a field. */
  function NameLength(children: seq<Sexpr>): nat
  {
    if children != [] && children[0].Atom? && (children[0].text == "" || children[0].text[0] != ':') then 1 else 0
  }

  /** The `i`-th key behind the name is this one, and has a value behind it. */
  predicate KeyAt(children: seq<Sexpr>, key: string, i: nat)
  {
    var at := NameLength(children) + 2 * i;
    at + 1 < |children| && children[at] == Atom(":" + key)
  }

  /** The value is behind the first such key. */
  predicate FirstAt(children: seq<Sexpr>, key: string, i: nat, v: Sexpr)
  {
    && KeyAt(children, key, i) && v == children[NameLength(children) + 2 * i + 1]
    && forall j :: 0 <= j < i ==> !KeyAt(children, key, j)
  }

  lemma FieldsCount(children: seq<Sexpr>, key: string, i: nat)
    ensures var e := Some(List(children));
            && FieldStart(e) == NameLength(children)
            && (i < FieldCount(e) <==> NameLength(children) + 2 * i + 1 < |children|)
            && (i < FieldCount(e) ==> (FieldKey(e, i) == Some(key) <==> KeyAt(children, key, i)))
  {
    var e := Some(List(children));
    if i < FieldCount(e) {
      var c := children[NameLength(children) + 2 * i];
      assert Child(e, FieldStart(e) + i * 2) == Some(c);
      if c.Atom? && c.text != "" {
        assert c.text == [c.text[0]] + c.text[1..];
        assert ":" + key == [':'] + key && (":" + key)[1..] == key;
      }
    }
  }

  lemma {:induction false} FindsFromFirst(children: seq<Sexpr>, key: string, i: nat, v: Sexpr)
    requires forall j :: 0 <= j < i ==> !KeyAt(children, key, j)
    ensures FindFrom(Some(List(children)), key, i) == Some(v) <==> exists k: nat :: FirstAt(children, key, k, v)
    decreases |children| - i
  {
    hide FieldStart, FieldKey, FieldCount, KeyAt;
    var e := Some(List(children));
    FieldsCount(children, key, i);
    if i >= FieldCount(e) {
      forall k: nat ensures !KeyAt(children, key, k) {
        NoKeyBehind(children, key, i, k);
      }
    } else if KeyAt(children, key, i) {
      assert FieldValue(e, i) == Some(children[NameLength(children) + 2 * i + 1]);
      assert FirstAt(children, key, i, children[NameLength(children) + 2 * i + 1]);
      forall k: nat, w | FirstAt(children, key, k, w) ensures k == i {
      }
    } else {
      InsideList(children, i);
      FindsFromFirst(children, key, i + 1, v);
    }
  }

  lemma InsideList(children: seq<Sexpr>, i: nat)
    requires i < FieldCount(Some(List(children)))
    ensures i < |children|
  {
  }

  lemma NoKeyBehind(children: seq<Sexpr>, key: string, i: nat, k: nat)
    requires NameLength(children) + 2 * i + 1 >= |children| && forall j :: 0 <= j < i ==> !KeyAt(children, key, j)
    ensures !KeyAt(children, key, k)
  {
  }

  /** A field is found if and only if the list has the key; the first one counts. */
  lemma FindsFirst(children: seq<Sexpr>, key: string, v: Sexpr)
    ensures FindFrom(Some(List(children)), key, 0) == Some(v) <==> exists i: nat :: FirstAt(children, key, i, v)
  {
    hide FindFrom;
    FindsFromFirst(children, key, 0, v);
  }

  // ---- paths ----

  /** Parts with a colon between each two. */
  function Joined(parts: seq<string>): string
    requires parts != []
    decreases |parts|
  {
    if |parts| == 1 then parts[0] else Joined(parts[..|parts| - 1]) + ":" + parts[|parts| - 1]
  }

  /** One field after the other. */
  function Down(e: Option<Sexpr>, parts: seq<string>): Option<Sexpr>
    decreases |parts|
  {
    if parts == [] then e
    else if Down(e, parts[..|parts| - 1]).None? then None
    else FindFrom(Down(e, parts[..|parts| - 1]), parts[|parts| - 1], 0)
  }

  predicate PathParts(parts: seq<string>)
  {
    parts != [] && forall i :: 0 <= i < |parts| ==> parts[i] != "" && ':' !in parts[i]
  }

  lemma SplitStep(path: string, c: char)
    ensures SplitPath(path + [c])
            == var init := SplitPath(path);
               if init == [] then (if c == ':' then ["", ""] else [[c]])
               else if c == ':' then init + [""]
               else init[..|init| - 1] + [init[|init| - 1] + [c]]
  {
    assert (path + [c])[..|path|] == path;
  }

  lemma {:induction false} SplitGrows(path: string, p: string)
    requires SplitPath(path) != [] && ':' !in p
    ensures var init := SplitPath(path); SplitPath(path + p) == init[..|init| - 1] + [init[|init| - 1] + p]
    decreases |p|
  {
    hide SplitPath;
    var init := SplitPath(path);
    if p == "" {
      assert path + p == path && init[|init| - 1] + p == init[|init| - 1];
    } else {
      var front, c := p[..|p| - 1], p[|p| - 1];
      assert c in p;
      SplitGrows(path, front);
      SplitStep(path + front, c);
      assert path + p == path + front + [c];
      assert init[|init| - 1] + p == init[|init| - 1] + front + [c];
    }
  }

  lemma {:induction false} SplitOfJoined(parts: seq<string>)
    requires PathParts(parts)
    ensures SplitPath(Joined(parts)) == parts
    decreases |parts|
  {
    hide SplitPath;
    var last := parts[|parts| - 1];
    if |parts| == 1 {
      NothingSplit();
      SplitStep("", last[0]);
      assert "" + [last[0]] == [last[0]];
      SplitGrows([last[0]], last[1..]);
      assert [last[0]] + last[1..] == last;
    } else {
      var front := parts[..|parts| - 1];
      SplitOfJoined(front);
      SplitStep(Joined(front), ':');
      assert Joined(front) + [':'] == Joined(front) + ":";
      SplitGrows(Joined(front) + ":", last);
      assert "" + last == last;
      assert front + [last] == parts;
    }
  }

  lemma NothingSplit()
    ensures SplitPath("") == []
  {
  }

  lemma {:induction false} FollowsDown(e: Option<Sexpr>, parts: seq<string>, n: nat)
    requires n <= |parts| && (parts != [] ==> PathParts(parts))
    ensures Follow(e, parts) == Follow(Down(e, parts[..n]), parts[n..])
    decreases n
  {
    hide FindFrom;
    if n == 0 {
      assert parts[..0] == [] && parts[0..] == parts;
    } else {
      FollowsDown(e, parts, n - 1);
      assert parts[..n][..n - 1] == parts[..n - 1] && parts[n - 1..][1..] == parts[n..];
    }
  }

  /** A path of any length leads from field to field. */
  lemma PathLeadsDown(e: Option<Sexpr>, parts: seq<string>)
    requires PathParts(parts)
    ensures Get(e, Joined(parts)) == Down(e, parts)
  {
    hide FindFrom, SplitPath, Down;
    SplitOfJoined(parts);
    FollowsDown(e, parts, |parts|);
    assert parts[..|parts|] == parts && parts[|parts|..] == [];
  }
}
