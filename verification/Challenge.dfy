/**
  The CCC challenge request of `snx-ccc.c`: the answer to an MFA prompt, with the session id of
  the reply that asked for it.
 */
module Challenge {
  import opened Wrappers
  import opened Bits
  import opened Decimal
  import opened Sexpr
  import opened SexprWriter
  import opened Obfuscate
  import opened Ccc

  function ChallengeHeader(id: nat, sid: Option<string>): Writer
  {
    Object(None, [Field("id", Value(Dec(id))), Field("type", Value("MultiChallange"))]
           + OptionalField("session_id", sid))
  }

  function ChallengeData(sid: Option<string>, input: string): Writer
  {
    Object(None, [Field("client_type", Value("TRAC"))] + OptionalField("auth_session_id", sid)
                 + [Field("user_input", Value(input))])
  }

  function ChallengeTree(id: nat, sid: Option<string>, input: string): Writer
  {
    Object(Some("CCCclientRequest"),
           [Field("RequestHeader", ChallengeHeader(id, sid)), Field("RequestData", ChallengeData(sid, input))])
  }

  // ---- the nodes, in the order of their allocation ----

  function Empty(): seq<Node>
  {
    [ObjectNode(Some("CCCclientRequest"), ["RequestHeader", "RequestData"], [1, 2]),
     ObjectNode(None, [], []), ObjectNode(None, [], [])]
  }

  function HeaderNode(sid: Option<string>): Node
  {
    ObjectNode(None, ["id", "type"] + OptionalEntry(sid, "session_id"), [3, 4] + OptionalEntry(sid, 5))
  }

  /** Where the node of the client type is. */
  function DataAt(sid: Option<string>): nat { if sid.Some? then 6 else 5 }

  function DataNode(sid: Option<string>): Node
  {
    var k := DataAt(sid);
    ObjectNode(None, ["client_type"] + OptionalEntry(sid, "auth_session_id") + ["user_input"],
               [k] + OptionalEntry(sid, k + 1) + [if sid.Some? then k + 2 else k + 1])
  }

  function WithHeader(id: nat, sid: Option<string>): seq<Node>
  {
    Empty()[1 := HeaderNode(sid)] + [ValueNode(Dec(id)), ValueNode("MultiChallange")] + OptionalNode(sid)
  }

  function ChallengeNodes(id: nat, sid: Option<string>, input: string): seq<Node>
  {
    WithHeader(id, sid)[2 := DataNode(sid)] + [ValueNode("TRAC")] + OptionalNode(sid) + [ValueNode(input)]
  }

  lemma ChallengeLinked(id: nat, sid: Option<string>, input: string)
    ensures Linked(ChallengeNodes(id, sid, input)) && Linked(WithHeader(id, sid))
  {
    hide Dec;
  }

  lemma ChallengeHeaderIs(nodes: seq<Node>, id: nat, sid: Option<string>)
    requires Linked(nodes) && |nodes| > 5 && nodes[1] == HeaderNode(sid)
    requires nodes[3] == ValueNode(Dec(id)) && nodes[4] == ValueNode("MultiChallange")
    requires sid.Some? ==> nodes[5] == ValueNode(sid.value)
    ensures Tree(nodes, 1) == ChallengeHeader(id, sid)
  {
    hide Tree, Dec;
    ValueTreeIs(nodes, 3);
    ValueTreeIs(nodes, 4);
    if sid.Some? {
      ValueTreeIs(nodes, 5);
    }
    TreeIs(nodes, 1, ChallengeHeader(id, sid));
  }

  lemma ChallengeDataIs(nodes: seq<Node>, sid: Option<string>, input: string)
    requires Linked(nodes) && |nodes| > DataAt(sid) + (if sid.Some? then 2 else 1) && nodes[2] == DataNode(sid)
    requires var k := DataAt(sid);
             && nodes[k] == ValueNode("TRAC") && (sid.Some? ==> nodes[k + 1] == ValueNode(sid.value))
             && nodes[if sid.Some? then k + 2 else k + 1] == ValueNode(input)
    ensures Tree(nodes, 2) == ChallengeData(sid, input)
  {
    hide Tree;
    var k := DataAt(sid);
    ValueTreeIs(nodes, k);
    ValueTreeIs(nodes, k + 1);
    if sid.Some? {
      ValueTreeIs(nodes, k + 2);
    }
    TreeIs(nodes, 2, ChallengeData(sid, input));
  }

  /** The nodes the builder leaves behind stand for the whole request. */
  lemma ChallengeNodesTree(id: nat, sid: Option<string>, input: string)
    ensures var nodes := ChallengeNodes(id, sid, input);
            nodes != [] && Linked(nodes) && Tree(nodes, 0) == ChallengeTree(id, sid, input)
  {
    hide Tree, Dec, Linked, ChallengeHeader, ChallengeData;
    var nodes := ChallengeNodes(id, sid, input);
    ChallengeLinked(id, sid, input);
    ChallengeHeaderIs(nodes, id, sid);
    ChallengeDataIs(nodes, sid, input);
    TreeIs(nodes, 0, ChallengeTree(id, sid, input));
  }

  const EMPTY_REQUEST: seq<Node> :=
    [ObjectNode(Some("CCCclientRequest"), ["RequestHeader", "RequestData"], [1, 2]),
     ObjectNode(None, [], []), ObjectNode(None, [], [])]

  /** `build_challenge_request` up to the three objects. */
  method StartRequest(store: NodeStore) returns (header: nat)
    requires store.Valid() && store.nodes == []
    modifies store`nodes
    ensures store.Valid() && header == 1 && store.nodes == EMPTY_REQUEST
  {
    var root := store.NewObject(Some("CCCclientRequest"));
    header := store.AddObject(root, "RequestHeader", None);
    var data := store.AddObject(root, "RequestData", None);
    assert store.nodes[0].keys == ["RequestHeader", "RequestData"] && store.nodes[0].values == [1, 2];
  }

  /** `build_challenge_request` up to the header fields. */
  method StartChallenge(store: NodeStore, id: nat, sid: Option<string>)
    requires store.Valid() && store.nodes == []
    modifies store`nodes
    ensures store.Valid() && store.nodes == WithHeader(id, sid)
  {
    hide Dec;
    var header := StartRequest(store);
    store.SetString(header, "id", Some(Dec(id)));
    store.SetString(header, "type", Some("MultiChallange"));
    assert store.nodes[1].keys == ["id", "type"] && store.nodes[1].values == [3, 4];
    store.SetString(header, "session_id", sid);
    assert store.nodes[1].keys == HeaderNode(sid).keys && store.nodes[1].values == HeaderNode(sid).values;
    assert store.nodes[1] == HeaderNode(sid);
  }

  method AddAnswer(store: NodeStore, id: nat, sid: Option<string>, input: string)
    requires store.Valid() && store.nodes == WithHeader(id, sid)
    modifies store`nodes
    ensures store.Valid() && store.nodes == ChallengeNodes(id, sid, input)
  {
    hide Dec;
    store.SetString(2, "client_type", Some("TRAC"));
    assert store.nodes[2].keys == ["client_type"] && store.nodes[2].values == [DataAt(sid)];
    store.SetString(2, "auth_session_id", sid);
    store.SetString(2, "user_input", Some(input));
    assert store.nodes[2].keys == DataNode(sid).keys && store.nodes[2].values == DataNode(sid).values;
    assert store.nodes[2] == DataNode(sid);
  }

  /** `build_challenge_request`. */
  method BuildChallengeRequest(id: nat, sid: Option<string>, input: seq<byte>) returns (text: string)
    ensures text == Text(ChallengeTree(id, sid, Obfuscated(input)), 0)
  {
    hide Text, Tree, Dec, Obfuscated, ChallengeNodes, WithHeader, ChallengeTree;
    var store := new NodeStore();
    var hex := ObfuscateData(input);
    StartChallenge(store, id, sid);
    AddAnswer(store, id, sid, hex);
    ChallengeNodesTree(id, sid, hex);
    store.SerializeNode(0, 0);
    text := store.out;
  }

  // ---- what the receiver gets out of the request ----

  lemma HeaderIsClean(id: nat, sid: Option<string>)
    requires CleanOption(sid)
    ensures Clean(ChallengeHeader(id, sid))
  {
    hide AllAtomChars, Dec, CleanField, CleanFields;
    RequestKeys();
    ChallengeKeys();
    DecIsClean(id);
    ValueField("id", Dec(id));
    ValueField("type", "MultiChallange");
    if sid.Some? {
      ValueField("session_id", sid.value);
    }
    CleanFieldsAre(ChallengeHeader(id, sid).fields);
  }

  lemma DataIsCleanToo(sid: Option<string>, input: string)
    requires CleanOption(sid) && CleanValue(input)
    ensures Clean(ChallengeData(sid, input))
  {
    hide AllAtomChars;
    RequestKeys();
    ChallengeKeys();
    var fields := ChallengeData(sid, input).fields;
    forall f | f in fields ensures CleanField(f) {
    }
    CleanFieldsAre(fields);
  }

  lemma ChallengeKeys()
    ensures AllAtomChars("session_id") && AllAtomChars("auth_session_id") && AllAtomChars("user_input")
  {
    hide AllAtomChars;
    PlainKey("session_id");
    PlainKey("auth_session_id");
    PlainKey("user_input");
  }

  lemma ChallengeIsClean(id: nat, sid: Option<string>, input: string)
    requires CleanOption(sid) && CleanValue(input)
    ensures Clean(ChallengeTree(id, sid, input))
  {
    hide AllAtomChars, ChallengeHeader, ChallengeData;
    RequestKeys();
    HeaderIsClean(id, sid);
    DataIsCleanToo(sid, input);
    var fields := ChallengeTree(id, sid, input).fields;
    forall f | f in fields ensures CleanField(f) {
    }
    CleanFieldsAre(fields);
  }

  lemma ChallengeFields(id: nat, sid: Option<string>, input: string)
    ensures Lookup(ChallengeHeader(id, sid).fields, "session_id") == if sid.Some? then Some(Value(sid.value)) else None
    ensures Lookup(ChallengeData(sid, input).fields, "auth_session_id")
            == if sid.Some? then Some(Value(sid.value)) else None
    ensures Lookup(ChallengeData(sid, input).fields, "user_input") == Some(Value(input))
  {
    hide Dec;
    var h, d := ChallengeHeader(id, sid).fields, ChallengeData(sid, input).fields;
    assert h[1..][1..] == OptionalField("session_id", sid);
    var last := [Field("user_input", Value(input))];
    assert last[1..] == [];
    assert Lookup(last, "auth_session_id") == None && Lookup(last, "user_input") == Some(Value(input));
    assert d[1..] == OptionalField("auth_session_id", sid) + last;
    if sid.Some? {
      assert d[1..][0] == Field("auth_session_id", Value(sid.value)) && d[1..][1..] == last;
    } else {
      assert d[1..] == last;
    }
    assert Lookup(h, "session_id") == Lookup(h[1..][1..], "session_id");
    assert Lookup(d, "user_input") == Lookup(d[1..], "user_input");
    assert Lookup(d, "auth_session_id") == Lookup(d[1..], "auth_session_id");
  }

  lemma ChallengeParts(id: nat, sid: Option<string>, input: string)
    ensures var e := Some(Denote(ChallengeTree(id, sid, input)));
            && FindFrom(e, "RequestHeader", 0) == Some(Denote(ChallengeHeader(id, sid)))
            && FindFrom(e, "RequestData", 0) == Some(Denote(ChallengeData(sid, input)))
  {
    hide Denote, FindFrom, ChallengeHeader, ChallengeData;
    var w := ChallengeTree(id, sid, input);
    FindsField(w, "RequestHeader");
    FindsField(w, "RequestData");
    assert w.fields[1..][0] == w.fields[1];
  }

  /** What an optional value is after it was written and read: an empty one is gone. */
  function Kept(sid: Option<string>): Option<string> { if sid == Some("") then None else sid }

  lemma SessionInHeader(id: nat, sid: Option<string>, input: string)
    ensures GetString(Some(Denote(ChallengeTree(id, sid, input))), "RequestHeader:session_id") == Kept(sid)
  {
    hide Denote, FindFrom, GetString, Lookup, ChallengeTree;
    ChallengeParts(id, sid, input);
    ChallengeFields(id, sid, input);
    ReadsAtPath(Some(Denote(ChallengeTree(id, sid, input))), "RequestHeader", "session_id", ChallengeHeader(id, sid));
    assert "RequestHeader" + ":" + "session_id" == "RequestHeader:session_id";
  }

  lemma SessionInData(id: nat, sid: Option<string>, input: string)
    ensures GetString(Some(Denote(ChallengeTree(id, sid, input))), "RequestData:auth_session_id") == Kept(sid)
  {
    hide Denote, FindFrom, GetString, Lookup, ChallengeTree;
    ChallengeParts(id, sid, input);
    ChallengeFields(id, sid, input);
    ReadsAtPath(Some(Denote(ChallengeTree(id, sid, input))),
                "RequestData", "auth_session_id", ChallengeData(sid, input));
    assert "RequestData" + ":" + "auth_session_id" == "RequestData:auth_session_id";
  }

  lemma InputInData(id: nat, sid: Option<string>, input: string)
    ensures GetString(Some(Denote(ChallengeTree(id, sid, input))), "RequestData:user_input")
            == if input == "" then None else Some(input)
  {
    hide Denote, FindFrom, GetString, Lookup, ChallengeTree;
    ChallengeParts(id, sid, input);
    ChallengeFields(id, sid, input);
    ReadsAtPath(Some(Denote(ChallengeTree(id, sid, input))), "RequestData", "user_input", ChallengeData(sid, input));
    assert "RequestData" + ":" + "user_input" == "RequestData:user_input";
  }

  /**
    The request carries the session id in both places, and the answer comes back from it if
    and only if it is not empty and all its bytes survive.
   */
  lemma ChallengePipeline(id: nat, sid: Option<string>, input: seq<byte>)
    requires CleanOption(sid)
    ensures var parsed := Parse(Text(ChallengeTree(id, sid, Obfuscated(input)), 0));
            && parsed.Some?
            && GetString(parsed, "RequestHeader:session_id") == Kept(sid)
            && GetString(parsed, "RequestData:auth_session_id") == Kept(sid)
            && (DecodeField(parsed, "RequestData:user_input") == Some(input) <==> Transmissible(input))
  {
    hide Text, Parse, Denote, GetString, ChallengeTree, Clean, Hex, Translated, Unhex, Survives;
    var hex := Obfuscated(input);
    HexIsClean(Reversed(Translated(input)));
    ChallengeIsClean(id, sid, hex);
    RoundTrip(ChallengeTree(id, sid, hex), 0);
    SessionInHeader(id, sid, hex);
    SessionInData(id, sid, hex);
    InputInData(id, sid, hex);
    InverseExactly(input);
  }
}
