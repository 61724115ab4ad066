/**
  The CCC login request of `snx-ccc.c`, and what becomes of the credentials in it: writer,
  reader, path lookup and scrambler put together.
 */
module Ccc {
  import opened Wrappers
  import opened Bits
  import opened Decimal
  import opened Sexpr
  import opened SexprWriter
  import opened Obfuscate

  // ---- the request as a tree ----

  function OptionalField(key: string, value: Option<string>): seq<Field>
  {
    if value.Some? then [Field(key, Value(value.value))] else []
  }

  function HeaderTree(id: nat): Writer
  {
    Object(None, [Field("id", Value(Dec(id))), Field("type", Value("UserPass"))])
  }

  function LoggingTree(machineId: Option<string>): Writer
  {
    Object(None, [Field("os_name", Value("Linux"))] + OptionalField("device_id", machineId))
  }

  function DataTree(loginType: Option<string>, user: string, pass: string, machineId: Option<string>): Writer
  {
    Object(None,
      [Field("client_type", Value("TRAC")), Field("username", Value(user)), Field("password", Value(pass))]
      + OptionalField("selectedLoginOption", loginType)
      + [Field("client_logging_data", LoggingTree(machineId))])
  }

  function AuthTree(id: nat, loginType: Option<string>, user: string, pass: string, machineId: Option<string>): Writer
  {
    Object(Some("CCCclientRequest"),
      [Field("RequestHeader", HeaderTree(id)), Field("RequestData", DataTree(loginType, user, pass, machineId))])
  }

  // ---- the request as the builder allocates it ----

  function OptionalNode(value: Option<string>): seq<Node>
  {
    if value.Some? then [ValueNode(value.value)] else []
  }

  function OptionalEntry<T>(value: Option<string>, entry: T): seq<T>
  {
    if value.Some? then [entry] else []
  }

  /** The nodes once the login fields are in place, in the order of their allocation. */
  function LoginNodes(id: nat, loginType: Option<string>, user: string, pass: string): seq<Node>
  {
    [ObjectNode(Some("CCCclientRequest"), ["RequestHeader", "RequestData"], [1, 2]),
     ObjectNode(None, ["id", "type"], [3, 4]),
     ObjectNode(None,
       ["client_type", "username", "password"] + OptionalEntry(loginType, "selectedLoginOption"),
       [5, 6, 7] + OptionalEntry(loginType, 8)),
     ValueNode(Dec(id)), ValueNode("UserPass"), ValueNode("TRAC"), ValueNode(user), ValueNode(pass)]
    + OptionalNode(loginType)
  }

  /** The nodes after `add_client_logging_data`. */
  function WithLogging(nodes: seq<Node>, data: nat, machineId: Option<string>): seq<Node>
    requires data < |nodes| && nodes[data].ObjectNode?
  {
    var n, logging := nodes[data], |nodes|;
    nodes[data := n.(keys := n.keys + ["client_logging_data"], values := n.values + [logging])]
    + [ObjectNode(None, ["os_name"] + OptionalEntry(machineId, "device_id"),
                  [logging + 1] + OptionalEntry(machineId, logging + 2)),
       ValueNode("Linux")]
    + OptionalNode(machineId)
  }

  lemma {:induction false} FieldsAre(nodes: seq<Node>, id: nat, fields: seq<Field>, i: nat)
    requires Linked(nodes) && id < |nodes| && nodes[id].ObjectNode? && i <= |fields| == |nodes[id].keys|
    requires forall j :: 0 <= j < |fields| ==> fields[j] == Field(nodes[id].keys[j], Tree(nodes, nodes[id].values[j]))
    ensures TreeFields(nodes, id, i) == fields[i..]
    decreases |fields| - i
  {
    hide Tree;
    if i < |fields| {
      FieldsAre(nodes, id, fields, i + 1);
    }
  }

  lemma TreeIs(nodes: seq<Node>, id: nat, w: Writer)
    requires Linked(nodes) && id < |nodes| && nodes[id].ObjectNode? && w.Object?
    requires nodes[id].name == w.name && |w.fields| == |nodes[id].keys|
    requires forall j :: 0 <= j < |w.fields| ==>
               w.fields[j] == Field(nodes[id].keys[j], Tree(nodes, nodes[id].values[j]))
    ensures Tree(nodes, id) == w
  {
    FieldsAre(nodes, id, w.fields, 0);
    assert w.fields[0..] == w.fields;
  }

  lemma ValueTreeIs(nodes: seq<Node>, id: nat)
    requires Linked(nodes) && id < |nodes| && nodes[id].ValueNode?
    ensures Tree(nodes, id) == Value(nodes[id].text)
  {
  }

  lemma LoggingLinked(before: seq<Node>, data: nat, machineId: Option<string>)
    requires Linked(before) && data < |before| && before[data].ObjectNode?
    ensures Linked(WithLogging(before, data, machineId))
  {
    var nodes := WithLogging(before, data, machineId);
    forall i | 0 <= i < |nodes| && nodes[i].ObjectNode?
      ensures |nodes[i].keys| == |nodes[i].values|
      ensures forall j :: 0 <= j < |nodes[i].values| ==> i < nodes[i].values[j] < |nodes|
    {
      if i < |before| && i != data {
        assert nodes[i] == before[i];
      }
    }
  }

  lemma LoggingIs(nodes: seq<Node>, logging: nat, machineId: Option<string>)
    requires Linked(nodes) && logging + 1 + |OptionalNode(machineId)| < |nodes|
    requires nodes[logging] == ObjectNode(None, ["os_name"] + OptionalEntry(machineId, "device_id"),
                                          [logging + 1] + OptionalEntry(machineId, logging + 2))
    requires nodes[logging + 1] == ValueNode("Linux")
    requires machineId.Some? ==> nodes[logging + 2] == ValueNode(machineId.value)
    ensures Tree(nodes, logging) == LoggingTree(machineId)
  {
    hide Tree, Linked;
    ValueTreeIs(nodes, logging + 1);
    if machineId.Some? {
      ValueTreeIs(nodes, logging + 2);
    }
    TreeIs(nodes, logging, LoggingTree(machineId));
  }

  lemma HeaderIs(nodes: seq<Node>, id: nat)
    requires Linked(nodes) && |nodes| > 4 && nodes[1] == ObjectNode(None, ["id", "type"], [3, 4])
    requires nodes[3] == ValueNode(Dec(id)) && nodes[4] == ValueNode("UserPass")
    ensures Tree(nodes, 1) == HeaderTree(id)
  {
    hide Tree, Dec;
    ValueTreeIs(nodes, 3);
    ValueTreeIs(nodes, 4);
    TreeIs(nodes, 1, HeaderTree(id));
  }

  lemma DataIs(nodes: seq<Node>, loginType: Option<string>, user: string, pass: string, machineId: Option<string>,
               logging: nat)
    requires Linked(nodes) && 8 <= logging < |nodes| && Tree(nodes, logging) == LoggingTree(machineId)
    requires nodes[2] == ObjectNode(None,
               ["client_type", "username", "password"] + OptionalEntry(loginType, "selectedLoginOption")
               + ["client_logging_data"],
               [5, 6, 7] + OptionalEntry(loginType, 8) + [logging])
    requires nodes[5] == ValueNode("TRAC") && nodes[6] == ValueNode(user) && nodes[7] == ValueNode(pass)
    requires loginType.Some? ==> nodes[8] == ValueNode(loginType.value)
    ensures Tree(nodes, 2) == DataTree(loginType, user, pass, machineId)
  {
    hide Tree, LoggingTree;
    ValueTreeIs(nodes, 5);
    ValueTreeIs(nodes, 6);
    ValueTreeIs(nodes, 7);
    if loginType.Some? {
      ValueTreeIs(nodes, 8);
    }
    TreeIs(nodes, 2, DataTree(loginType, user, pass, machineId));
  }

  lemma LoginNodesLinked(id: nat, loginType: Option<string>, user: string, pass: string)
    ensures Linked(LoginNodes(id, loginType, user, pass))
  {
    hide Dec;
  }

  /** What logging adds to the nodes, and what it leaves alone. */
  lemma LoggingBehind(before: seq<Node>, data: nat, machineId: Option<string>)
    requires data < |before| && before[data].ObjectNode?
    ensures var nodes, n, end := WithLogging(before, data, machineId), before[data], |before|;
            && |nodes| == end + 2 + |OptionalNode(machineId)|
            && (forall i :: 0 <= i < end && i != data ==> nodes[i] == before[i])
            && nodes[data] == n.(keys := n.keys + ["client_logging_data"], values := n.values + [end])
            && nodes[end] == ObjectNode(None, ["os_name"] + OptionalEntry(machineId, "device_id"),
                                        [end + 1] + OptionalEntry(machineId, end + 2))
            && nodes[end + 1] == ValueNode("Linux")
            && (machineId.Some? ==> nodes[end + 2] == ValueNode(machineId.value))
  {
  }

  /** Header and data were hooked into the root before they were filled; the tree is complete. */
  lemma AuthNodesTree(id: nat, loginType: Option<string>, user: string, pass: string, machineId: Option<string>)
    ensures var nodes := WithLogging(LoginNodes(id, loginType, user, pass), 2, machineId);
            Linked(nodes) && Tree(nodes, 0) == AuthTree(id, loginType, user, pass, machineId)
  {
    hide Tree, Dec, HeaderTree, DataTree, LoggingTree, Linked, WithLogging;
    var before := LoginNodes(id, loginType, user, pass);
    LoginNodesLinked(id, loginType, user, pass);
    LoggingLinked(before, 2, machineId);
    var nodes := WithLogging(before, 2, machineId);
    LoggingBehind(before, 2, machineId);
    LoggingIs(nodes, |before|, machineId);
    HeaderIs(nodes, id);
    DataIs(nodes, loginType, user, pass, machineId, |before|);
    TreeIs(nodes, 0, AuthTree(id, loginType, user, pass, machineId));
  }

  /** The machine id, read from a file elsewhere, is absent when that file cannot be read. */
  method AddClientLoggingData(store: NodeStore, data: nat, machineId: Option<string>)
    requires store.Valid() && data < |store.nodes| && store.nodes[data].ObjectNode?
    modifies store`nodes
    ensures store.Valid() && store.nodes == WithLogging(old(store.nodes), data, machineId)
  {
    var logging := store.AddObject(data, "client_logging_data", None);
    store.SetString(logging, "os_name", Some("Linux"));
    store.SetString(logging, "device_id", machineId);
    ghost var all := WithLogging(old(store.nodes), data, machineId);
    assert store.nodes[logging].keys == all[logging].keys && store.nodes[logging].values == all[logging].values;
    assert store.nodes[logging] == all[logging];
  }

  function StartNodes(id: nat): seq<Node>
  {
    [ObjectNode(Some("CCCclientRequest"), ["RequestHeader", "RequestData"], [1, 2]),
     ObjectNode(None, ["id", "type"], [3, 4]), ObjectNode(None, [], []),
     ValueNode(Dec(id)), ValueNode("UserPass")]
  }

  /** `build_auth_request` up to the header fields; the request number is a parameter. */
  method StartLogin(store: NodeStore, id: nat) returns (data: nat)
    requires store.Valid() && store.nodes == []
    modifies store`nodes
    ensures store.Valid() && data == 2 && store.nodes == StartNodes(id)
  {
    hide Dec;
    var root := store.NewObject(Some("CCCclientRequest"));
    var header := store.AddObject(root, "RequestHeader", None);
    data := store.AddObject(root, "RequestData", None);
    assert store.nodes[0].keys == ["RequestHeader", "RequestData"] && store.nodes[0].values == [1, 2];
    store.SetString(header, "id", Some(Dec(id)));
    store.SetString(header, "type", Some("UserPass"));
    assert store.nodes[1].keys == ["id", "type"] && store.nodes[1].values == [3, 4];
  }

  /** The login fields of `build_auth_request`. */
  method AddLogin(store: NodeStore, id: nat, loginType: Option<string>, user: string, pass: string)
    requires store.Valid() && store.nodes == StartNodes(id)
    modifies store`nodes
    ensures store.Valid() && store.nodes == LoginNodes(id, loginType, user, pass)
  {
    hide Dec;
    store.SetString(2, "client_type", Some("TRAC"));
    store.SetString(2, "username", Some(user));
    store.SetString(2, "password", Some(pass));
    assert store.nodes[2].keys == ["client_type", "username", "password"] && store.nodes[2].values == [5, 6, 7];
    store.SetString(2, "selectedLoginOption", loginType);
    ghost var all := LoginNodes(id, loginType, user, pass);
    assert store.nodes[2].keys == all[2].keys && store.nodes[2].values == all[2].values;
    assert store.nodes[2] == all[2];
  }

  /** `build_auth_request`. */
  method BuildAuthRequest(id: nat, loginType: Option<string>, username: seq<byte>, password: seq<byte>,
                          machineId: Option<string>) returns (text: string)
    ensures text == Text(AuthTree(id, loginType, Obfuscated(username), Obfuscated(password), machineId), 0)
  {
    hide Text, Tree, Dec, Obfuscated, LoggingTree, DataTree, HeaderTree;
    var store := new NodeStore();
    var userHex := ObfuscateData(username);
    var passHex := ObfuscateData(password);
    var data := StartLogin(store, id);
    AddLogin(store, id, loginType, userHex, passHex);
    AuthNodesTree(id, loginType, userHex, passHex, machineId);
    AddClientLoggingData(store, data, machineId);
    store.SerializeNode(0, 0);
    text := store.out;
  }

  // ---- what the receiver gets out of the request ----

  /** `deobfuscate_or_null` of the string at a path. */
  function DecodeField(e: Option<Sexpr>, path: string): Option<seq<byte>>
  {
    match GetString(e, path)
    case None => None
    case Some(hex) => Deobfuscated(hex)
  }

  lemma {:induction false} SplitOne(s: string)
    requires s != "" && ':' !in s
    ensures SplitPath(s) == [s]
  {
    var init, c := s[..|s| - 1], s[|s| - 1];
    assert s == init + [c];
    if init == "" {
      assert SplitPath(init) == [];
    } else {
      hide SplitPath;
      SplitOne(init);
      SplitStep(init, [init], c);
      assert [init][..0] + [init + [c]] == [s];
    }
  }

  lemma SplitStep(path: string, init: seq<string>, c: char)
    requires SplitPath(path) == init && init != []
    ensures SplitPath(path + [c])
            == if c == ':' then init + [""] else init[..|init| - 1] + [init[|init| - 1] + [c]]
  {
    assert (path + [c])[..|path|] == path;
  }

  lemma {:induction false} SplitTwo(a: string, b: string)
    requires a != "" && ':' !in a && ':' !in b
    ensures SplitPath(a + ":" + b) == [a, b]
  {
    hide SplitPath;
    if b == "" {
      SplitOne(a);
      SplitStep(a, [a], ':');
      assert a + ":" + b == a + [':'];
    } else {
      var init, c := b[..|b| - 1], b[|b| - 1];
      SplitTwo(a, init);
      SplitStep(a + ":" + init, [a, init], c);
      assert init + [c] == b;
      assert a + ":" + b == (a + ":" + init) + [c];
      assert [a, init][..1] + [init + [c]] == [a, b];
    }
  }

  lemma GetTwo(e: Option<Sexpr>, a: string, b: string)
    requires e.Some? && a != "" && ':' !in a && b != "" && ':' !in b
    ensures Get(e, a + ":" + b)
            == match FindFrom(e, a, 0) case None => None case Some(x) => FindFrom(Some(x), b, 0)
  {
    hide FindFrom, SplitPath;
    SplitTwo(a, b);
    var found := FindFrom(e, a, 0);
    assert [a, b][1..] == [b] && [b][1..] == [];
    assert Follow(e, [a, b]) == Follow(found, [b]);
    if found.Some? {
      assert Follow(found, [b]) == Follow(FindFrom(found, b, 0), []);
    }
  }

  lemma {:induction false} HexIsClean(s: seq<byte>)
    ensures CleanValue(Hex(s)) && (Hex(s) == "" <==> s == [])
  {
    if s != [] {
      HexIsClean(s[..|s| - 1]);
    }
  }

  predicate CleanOption(s: Option<string>) { s.Some? ==> CleanValue(s.value) }

  lemma DecIsClean(n: nat)
    ensures CleanValue(Dec(n))
  {
    DecIsDigits(n);
  }

  predicate CleanField(f: Field) { AllAtomChars(f.key) && Clean(f.value) }

  lemma ValueField(key: string, text: string)
    requires AllAtomChars(key) && CleanValue(text)
    ensures CleanField(Field(key, Value(text)))
  {
  }

  lemma {:induction false} CleanFieldsAre(fields: seq<Field>)
    requires forall f :: f in fields ==> CleanField(f)
    ensures CleanFields(fields)
  {
    hide Clean, AllAtomChars;
    if fields != [] {
      CleanFieldsAre(fields[1..]);
      assert fields[0] in fields;
    }
  }

  /** A key of letters and underscores is an atom. */
  lemma PlainKey(s: string)
    requires forall i :: 0 <= i < |s| ==> PlainChar(s[i])
    ensures AllAtomChars(s)
  {
  }

  lemma RequestKeys()
    ensures AllAtomChars("id") && AllAtomChars("type") && AllAtomChars("username") && AllAtomChars("password")
    ensures AllAtomChars("client_type") && AllAtomChars("selectedLoginOption") && AllAtomChars("client_logging_data")
    ensures AllAtomChars("os_name") && AllAtomChars("device_id")
    ensures AllAtomChars("RequestHeader") && AllAtomChars("RequestData") && PlainName("CCCclientRequest")
  {
    hide AllAtomChars;
    PlainKey("id");
    PlainKey("type");
    PlainKey("username");
    PlainKey("password");
    PlainKey("client_type");
    PlainKey("selectedLoginOption");
    PlainKey("client_logging_data");
    PlainKey("os_name");
    PlainKey("device_id");
    PlainKey("RequestHeader");
    PlainKey("RequestData");
    PlainKey("CCCclientRequest");
  }

  lemma LoggingIsClean(machineId: Option<string>)
    requires CleanOption(machineId)
    ensures Clean(LoggingTree(machineId))
  {
    hide AllAtomChars;
    RequestKeys();
    var fields := LoggingTree(machineId).fields;
    forall f | f in fields ensures CleanField(f) {
    }
    CleanFieldsAre(fields);
  }

  lemma DataIsClean(loginType: Option<string>, user: string, pass: string, machineId: Option<string>)
    requires CleanOption(loginType) && CleanOption(machineId) && CleanValue(user) && CleanValue(pass)
    ensures Clean(DataTree(loginType, user, pass, machineId))
  {
    hide AllAtomChars, LoggingTree;
    RequestKeys();
    LoggingIsClean(machineId);
    var fields := DataTree(loginType, user, pass, machineId).fields;
    forall f | f in fields ensures CleanField(f) {
    }
    CleanFieldsAre(fields);
  }

  lemma AuthIsClean(id: nat, loginType: Option<string>, user: string, pass: string, machineId: Option<string>)
    requires CleanOption(loginType) && CleanOption(machineId) && CleanValue(user) && CleanValue(pass)
    ensures Clean(AuthTree(id, loginType, user, pass, machineId))
  {
    hide AllAtomChars, DataTree, Dec;
    RequestKeys();
    DecIsClean(id);
    DataIsClean(loginType, user, pass, machineId);
    var header := HeaderTree(id);
    forall f | f in header.fields ensures CleanField(f) {
    }
    CleanFieldsAre(header.fields);
    var fields := AuthTree(id, loginType, user, pass, machineId).fields;
    forall f | f in fields ensures CleanField(f) {
    }
    CleanFieldsAre(fields);
  }

  lemma DataFields(loginType: Option<string>, user: string, pass: string, machineId: Option<string>)
    ensures var fields := DataTree(loginType, user, pass, machineId).fields;
            Lookup(fields, "username") == Some(Value(user)) && Lookup(fields, "password") == Some(Value(pass))
  {
    var fields := DataTree(loginType, user, pass, machineId).fields;
    assert fields[1..][0] == fields[1] && fields[1..][1..][0] == fields[2];
    assert Lookup(fields, "username") == Lookup(fields[1..], "username");
    assert Lookup(fields[1..], "password") == Lookup(fields[1..][1..], "password");
  }

  lemma DataFound(id: nat, loginType: Option<string>, user: string, pass: string, machineId: Option<string>)
    ensures FindFrom(Some(Denote(AuthTree(id, loginType, user, pass, machineId))), "RequestData", 0)
            == Some(Denote(DataTree(loginType, user, pass, machineId)))
  {
    hide Denote, FindFrom, DataTree, HeaderTree;
    var w := AuthTree(id, loginType, user, pass, machineId);
    FindsField(w, "RequestData");
    assert w.fields[1..][0] == w.fields[1];
  }

  /** The string at a path of two parts is what was written under the second in the object of the first. */
  lemma ReadsAtPath(e: Option<Sexpr>, a: string, b: string, data: Writer)
    requires a != "" && ':' !in a && b != "" && ':' !in b
    requires e.Some? && FindFrom(e, a, 0) == Some(Denote(data)) && FieldsVisible(data) && Plain(data, b)
    ensures GetString(e, a + ":" + b) == Written(data, b)
  {
    hide Denote, FindFrom, Get, ValueString, Lookup, Written, Plain;
    GetTwo(e, a, b);
    ValueFound(data, b);
  }

  lemma CredentialAt(id: nat, loginType: Option<string>, user: string, pass: string,
                     machineId: Option<string>, key: string)
    requires key == "username" || key == "password"
    ensures GetString(Some(Denote(AuthTree(id, loginType, user, pass, machineId))), "RequestData:" + key)
            == var value := if key == "username" then user else pass; if value == "" then None else Some(value)
  {
    hide Denote, FindFrom, Get, GetString, Lookup, AuthTree;
    var data := DataTree(loginType, user, pass, machineId);
    DataFound(id, loginType, user, pass, machineId);
    DataFields(loginType, user, pass, machineId);
    ReadsAtPath(Some(Denote(AuthTree(id, loginType, user, pass, machineId))), "RequestData", key, data);
    assert "RequestData" + ":" + key == "RequestData:" + key;
  }

  lemma DataLookup(id: nat, loginType: Option<string>, user: string, pass: string, machineId: Option<string>)
    ensures var e := Some(Denote(AuthTree(id, loginType, user, pass, machineId)));
            && GetString(e, "RequestData:username") == (if user == "" then None else Some(user))
            && GetString(e, "RequestData:password") == (if pass == "" then None else Some(pass))
  {
    hide Denote, GetString, AuthTree;
    CredentialAt(id, loginType, user, pass, machineId, "username");
    CredentialAt(id, loginType, user, pass, machineId, "password");
    assert "RequestData:" + "username" == "RequestData:username";
    assert "RequestData:" + "password" == "RequestData:password";
  }

  /** A credential arrives unchanged exactly if it is not empty and all its bytes survive. */
  predicate Transmissible(data: seq<byte>)
  {
    data != [] && forall i :: 0 <= i < |data| ==> Survives(i, data[i])
  }

  /**
    The whole way of a credential: scrambled, written into the request, parsed, found by its
    path, and unscrambled.
   */
  lemma CredentialPipeline(id: nat, loginType: Option<string>, username: seq<byte>, password: seq<byte>,
                           machineId: Option<string>)
    requires CleanOption(loginType) && CleanOption(machineId)
    ensures var tree := AuthTree(id, loginType, Obfuscated(username), Obfuscated(password), machineId);
            var parsed := Parse(Text(tree, 0));
            && parsed.Some?
            && (DecodeField(parsed, "RequestData:username") == Some(username) <==> Transmissible(username))
            && (DecodeField(parsed, "RequestData:password") == Some(password) <==> Transmissible(password))
  {
    hide Text, Parse, Denote, GetString, AuthTree, Clean, Hex, Translated, Unhex, Survives;
    var user, pass := Obfuscated(username), Obfuscated(password);
    var w := AuthTree(id, loginType, user, pass, machineId);
    HexIsClean(Reversed(Translated(username)));
    HexIsClean(Reversed(Translated(password)));
    AuthIsClean(id, loginType, user, pass, machineId);
    RoundTrip(w, 0);
    DataLookup(id, loginType, user, pass, machineId);
    InverseExactly(username);
    InverseExactly(password);
  }

  /** Non-empty ASCII credentials always arrive unchanged. */
  lemma AsciiIsTransmissible(data: seq<byte>)
    requires data != [] && forall i :: 0 <= i < |data| ==> 0 < data[i] < 128
    ensures Transmissible(data)
  {
    hide Survives;
    forall i | 0 <= i < |data| ensures Survives(i, data[i]) {
      AsciiSurvives(i, data[i]);
    }
  }
}
