/**
  The requests of `snx-ccc.c` character by character: what the gateway is sent for a login and
  for the answer to a challenge.
 */
module RequestTexts {
  import opened Wrappers
  import opened Bits
  import opened Decimal
  import opened SexprWriter
  import opened Obfuscate
  import opened Ccc
  import opened Challenge

  function Paren(v: string): string { "(" + v + ")" }

  /** A value in parentheses, quoted unless it is letters, digits and underscores alone. */
  function Shown(v: string): string
  {
    if forall i :: 0 <= i < |v| ==>
         'a' <= v[i] <= 'z' || 'A' <= v[i] <= 'Z' || '0' <= v[i] <= '9' || v[i] == '_'
    then "(" + v + ")" else "(\"" + v + "\")"
  }

  lemma ValueText(v: string, level: nat)
    ensures Text(Value(v), level) == Shown(v)
  {
  }

  /** One field, and those behind it. */
  lemma FieldText(key: string, w: Writer, more: seq<Field>, level: nat, front: string)
    requires front == "\n" + Tabs(level) + ":" + key + " "
    ensures FieldsText([Field(key, w)] + more, level) == front + Text(w, level) + FieldsText(more, level)
  {
    hide Text;
    var all := [Field(key, w)] + more;
    assert all[1..] == more;
  }

  lemma NoFields(level: nat)
    ensures FieldsText([], level) == ""
  {
  }

  lemma Indents()
    ensures Tabs(1) == "\t" && Tabs(2) == "\t\t" && Tabs(3) == "\t\t\t"
  {
    assert Tabs(0) == "";
    assert Tabs(1) == "\t";
    assert Tabs(2) == "\t\t";
  }

  lemma PlainIsShown(v: string)
    requires forall i :: 0 <= i < |v| ==> PlainChar(v[i])
    ensures Shown(v) == Paren(v)
  {
  }

  lemma {:induction false} HexIsPlain(s: seq<byte>)
    ensures forall i :: 0 <= i < |Hex(s)| ==> PlainChar(Hex(s)[i])
  {
    if s != [] {
      HexIsPlain(s[..|s| - 1]);
    }
  }

  lemma ObjectText(fields: seq<Field>, level: nat)
    ensures Text(Object(None, fields), level) == "(" + FieldsText(fields, level + 1) + ")"
  {
    hide FieldsText;
    assert "(" + "" == "(";
  }

  lemma NamedText(name: string, fields: seq<Field>, level: nat)
    ensures Text(Object(Some(name), fields), level) == "(" + name + FieldsText(fields, level + 1) + ")"
  {
  }

  // ---- the texts ----

  /** How a field starts: its own line, as many tabs as it is deep, and its key. */
  function Mark(level: nat, key: string): string
  {
    (if level == 1 then "\n\t:" else if level == 2 then "\n\t\t:" else "\n\t\t\t:") + key + " "
  }

  lemma StartIsMark(level: nat, key: string)
    requires 1 <= level <= 3
    ensures "\n" + Tabs(level) + ":" + key + " " == Mark(level, key)
  {
    hide Tabs;
    Indents();
    var tabs := Tabs(level);
    assert "\n" + tabs + ":" == if level == 1 then "\n\t:" else if level == 2 then "\n\t\t:" else "\n\t\t\t:";
  }

  function OptionalPart(level: nat, key: string, v: Option<string>): string
  {
    if v.Some? then Mark(level, key) + Shown(v.value) else ""
  }

  function LoggingShown(machineId: Option<string>): string
  {
    "(" + (Mark(3, "os_name") + Paren("Linux") + OptionalPart(3, "device_id", machineId)) + ")"
  }

  /** The login request, with both credentials as they are sent. */
  function LoginText(id: nat, loginType: Option<string>, userHex: string, passHex: string, machineId: Option<string>)
    : string
  {
    var header := "(" + (Mark(2, "id") + Paren(Dec(id)) + (Mark(2, "type") + Paren("UserPass"))) + ")";
    var data := "(" + (Mark(2, "client_type") + Paren("TRAC")
                       + (Mark(2, "username") + Paren(userHex)
                          + (Mark(2, "password") + Paren(passHex)
                             + (OptionalPart(2, "selectedLoginOption", loginType)
                                + (Mark(2, "client_logging_data") + LoggingShown(machineId)))))) + ")";
    "(" + "CCCclientRequest" + (Mark(1, "RequestHeader") + header + (Mark(1, "RequestData") + data)) + ")"
  }

  /** The answer to a challenge, with the code as it is sent. */
  function AnswerText(id: nat, sid: Option<string>, inputHex: string): string
  {
    var header := "(" + (Mark(2, "id") + Paren(Dec(id))
                         + (Mark(2, "type") + Paren("MultiChallange") + OptionalPart(2, "session_id", sid))) + ")";
    var data := "(" + (Mark(2, "client_type") + Paren("TRAC")
                       + (OptionalPart(2, "auth_session_id", sid)
                          + (Mark(2, "user_input") + Paren(inputHex)))) + ")";
    "(" + "CCCclientRequest" + (Mark(1, "RequestHeader") + header + (Mark(1, "RequestData") + data)) + ")"
  }

  // ---- fields one by one ----

  lemma OneField(key: string, w: Writer, more: seq<Field>, level: nat)
    requires 1 <= level <= 3
    ensures FieldsText([Field(key, w)] + more, level) == Mark(level, key) + Text(w, level) + FieldsText(more, level)
  {
    hide Text, FieldsText, Mark, Tabs;
    StartIsMark(level, key);
    FieldText(key, w, more, level, Mark(level, key));
  }

  lemma LastField(key: string, w: Writer, level: nat)
    requires 1 <= level <= 3
    ensures FieldsText([Field(key, w)], level) == Mark(level, key) + Text(w, level)
  {
    hide Text, FieldsText, Mark;
    OneField(key, w, [], level);
    NoFields(level);
    assert [Field(key, w)] + [] == [Field(key, w)];
    var text := Mark(level, key) + Text(w, level);
    assert text + "" == text;
  }

  lemma PlainField(key: string, v: string, more: seq<Field>, level: nat)
    requires 1 <= level <= 3 && AllPlain(v)
    ensures FieldsText([Field(key, Value(v))] + more, level)
            == Mark(level, key) + Paren(v) + FieldsText(more, level)
  {
    hide Text, FieldsText, Mark, Shown;
    OneField(key, Value(v), more, level);
    ValueText(v, level);
    PlainIsShown(v);
  }

  lemma LastPlain(key: string, v: string, level: nat)
    requires 1 <= level <= 3 && AllPlain(v)
    ensures FieldsText([Field(key, Value(v))], level) == Mark(level, key) + Paren(v)
  {
    hide Text, FieldsText, Mark, Shown;
    LastField(key, Value(v), level);
    ValueText(v, level);
    PlainIsShown(v);
  }

  lemma SomeField(key: string, v: Option<string>, more: seq<Field>, level: nat)
    requires 1 <= level <= 3
    ensures FieldsText(OptionalField(key, v) + more, level) == OptionalPart(level, key, v) + FieldsText(more, level)
  {
    hide Text, FieldsText, Mark, Shown;
    if v.Some? {
      OneField(key, Value(v.value), more, level);
      ValueText(v.value, level);
    } else {
      assert [] + more == more;
      assert "" + FieldsText(more, level) == FieldsText(more, level);
    }
  }

  lemma LastSome(key: string, v: Option<string>, level: nat)
    requires 1 <= level <= 3
    ensures FieldsText(OptionalField(key, v), level) == OptionalPart(level, key, v)
  {
    hide FieldsText, OptionalPart, OptionalField;
    SomeField(key, v, [], level);
    NoFields(level);
    assert OptionalField(key, v) + [] == OptionalField(key, v);
    assert OptionalPart(level, key, v) + "" == OptionalPart(level, key, v);
  }

  predicate AllPlain(v: string) { forall i :: 0 <= i < |v| ==> PlainChar(v[i]) }

  lemma ConstantsArePlain(id: nat)
    ensures AllPlain(Dec(id)) && AllPlain("UserPass") && AllPlain("MultiChallange") && AllPlain("TRAC")
    ensures AllPlain("Linux")
  {
    hide Dec;
    DecIsDigits(id);
  }

  // ---- the login ----

  lemma LoggingText(machineId: Option<string>, os: string)
    requires os == "Linux"
    ensures Text(LoggingTree(machineId), 2)
            == "(" + (Mark(3, "os_name") + Paren(os) + OptionalPart(3, "device_id", machineId)) + ")"
  {
    hide FieldsText, Text, Mark, OptionalPart, OptionalField;
    ConstantsArePlain(0);
    ObjectText([Field("os_name", Value(os))] + OptionalField("device_id", machineId), 2);
    PlainField("os_name", os, OptionalField("device_id", machineId), 3);
    LastSome("device_id", machineId, 3);
  }

  lemma LoginDataText(loginType: Option<string>, user: string, pass: string, machineId: Option<string>)
    requires AllPlain(user) && AllPlain(pass)
    ensures Text(DataTree(loginType, user, pass, machineId), 1)
            == "(" + (Mark(2, "client_type") + Paren("TRAC")
                      + (Mark(2, "username") + Paren(user)
                         + (Mark(2, "password") + Paren(pass)
                            + (OptionalPart(2, "selectedLoginOption", loginType)
                               + (Mark(2, "client_logging_data") + Text(LoggingTree(machineId), 2)))))) + ")"
  {
    hide FieldsText, Text, Mark, OptionalPart, OptionalField, LoggingTree, Paren;
    ConstantsArePlain(0);
    var logging := [Field("client_logging_data", LoggingTree(machineId))];
    var option := OptionalField("selectedLoginOption", loginType) + logging;
    var password := [Field("password", Value(pass))] + option;
    var username := [Field("username", Value(user))] + password;
    var all := [Field("client_type", Value("TRAC"))] + username;
    ObjectText(all, 1);
    PlainField("client_type", "TRAC", username, 2);
    PlainField("username", user, password, 2);
    PlainField("password", pass, option, 2);
    SomeField("selectedLoginOption", loginType, logging, 2);
    LastField("client_logging_data", LoggingTree(machineId), 2);
    DataFields(loginType, user, pass, machineId, all);
  }

  lemma DataFields(loginType: Option<string>, user: string, pass: string, machineId: Option<string>, all: seq<Field>)
    requires all == [Field("client_type", Value("TRAC"))]
                    + ([Field("username", Value(user))]
                       + ([Field("password", Value(pass))]
                          + (OptionalField("selectedLoginOption", loginType)
                             + [Field("client_logging_data", LoggingTree(machineId))])))
    ensures DataTree(loginType, user, pass, machineId) == Object(None, all)
  {
    hide OptionalField, LoggingTree;
  }

  lemma HeaderText(id: nat)
    ensures Text(HeaderTree(id), 1)
            == "(" + (Mark(2, "id") + Paren(Dec(id)) + (Mark(2, "type") + Paren("UserPass"))) + ")"
  {
    hide FieldsText, Text, Mark, Paren, Dec;
    ConstantsArePlain(id);
    var second := [Field("type", Value("UserPass"))];
    var all := [Field("id", Value(Dec(id)))] + second;
    assert all == [Field("id", Value(Dec(id))), Field("type", Value("UserPass"))];
    ObjectText(all, 1);
    PlainField("id", Dec(id), second, 2);
    LastPlain("type", "UserPass", 2);
  }

  lemma RootText(header: Writer, data: Writer)
    ensures Text(Object(Some("CCCclientRequest"), [Field("RequestHeader", header), Field("RequestData", data)]), 0)
            == "(" + "CCCclientRequest"
               + (Mark(1, "RequestHeader") + Text(header, 1) + (Mark(1, "RequestData") + Text(data, 1))) + ")"
  {
    hide FieldsText, Text, Mark;
    var second := [Field("RequestData", data)];
    var all := [Field("RequestHeader", header)] + second;
    assert all == [Field("RequestHeader", header), Field("RequestData", data)];
    NamedText("CCCclientRequest", all, 0);
    OneField("RequestHeader", header, second, 1);
    LastField("RequestData", data, 1);
  }

  /** The login request that is sent is this text, whatever the credentials and options. */
  lemma LoginRequestIs(id: nat, loginType: Option<string>, username: seq<byte>, password: seq<byte>,
                       machineId: Option<string>)
    ensures Text(AuthTree(id, loginType, Obfuscated(username), Obfuscated(password), machineId), 0)
            == LoginText(id, loginType, Obfuscated(username), Obfuscated(password), machineId)
  {
    hide Text, Mark, Paren, OptionalPart, HeaderTree, DataTree, LoggingTree, Hex, Reversed, Translated, Dec;
    var user, pass := Obfuscated(username), Obfuscated(password);
    HexIsPlain(Reversed(Translated(username)));
    HexIsPlain(Reversed(Translated(password)));
    RootText(HeaderTree(id), DataTree(loginType, user, pass, machineId));
    HeaderText(id);
    LoginDataText(loginType, user, pass, machineId);
    LoggingText(machineId, "Linux");
  }

  // ---- the answer to a challenge ----

  lemma AnswerHeaderText(id: nat, sid: Option<string>)
    ensures Text(ChallengeHeader(id, sid), 1)
            == "(" + (Mark(2, "id") + Paren(Dec(id))
                      + (Mark(2, "type") + Paren("MultiChallange") + OptionalPart(2, "session_id", sid))) + ")"
  {
    hide FieldsText, Text, Mark, Paren, Dec, OptionalPart, OptionalField;
    ConstantsArePlain(id);
    var session := OptionalField("session_id", sid);
    var second := [Field("type", Value("MultiChallange"))] + session;
    var all := [Field("id", Value(Dec(id)))] + second;
    assert all == [Field("id", Value(Dec(id))), Field("type", Value("MultiChallange"))] + session;
    ObjectText(all, 1);
    PlainField("id", Dec(id), second, 2);
    PlainField("type", "MultiChallange", session, 2);
    LastSome("session_id", sid, 2);
  }

  lemma AnswerDataText(sid: Option<string>, input: string)
    requires AllPlain(input)
    ensures Text(ChallengeData(sid, input), 1)
            == "(" + (Mark(2, "client_type") + Paren("TRAC")
                      + (OptionalPart(2, "auth_session_id", sid) + (Mark(2, "user_input") + Paren(input)))) + ")"
  {
    hide FieldsText, Text, Mark, Paren, OptionalPart, OptionalField;
    ConstantsArePlain(0);
    var last := [Field("user_input", Value(input))];
    var session := OptionalField("auth_session_id", sid);
    var all := [Field("client_type", Value("TRAC"))] + (session + last);
    assert all == [Field("client_type", Value("TRAC"))] + session + last;
    ObjectText(all, 1);
    PlainField("client_type", "TRAC", session + last, 2);
    SomeField("auth_session_id", sid, last, 2);
    LastPlain("user_input", input, 2);
  }

  /** The answer that is sent is this text, whatever the code and the session. */
  lemma AnswerIs(id: nat, sid: Option<string>, input: seq<byte>)
    ensures Text(ChallengeTree(id, sid, Obfuscated(input)), 0) == AnswerText(id, sid, Obfuscated(input))
  {
    hide Text, Mark, Paren, OptionalPart, ChallengeHeader, ChallengeData, Hex, Reversed, Translated, Dec;
    HexIsPlain(Reversed(Translated(input)));
    RootText(ChallengeHeader(id, sid), ChallengeData(sid, Obfuscated(input)));
    AnswerHeaderText(id, sid);
    AnswerDataText(sid, Obfuscated(input));
  }
}
