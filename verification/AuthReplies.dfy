/**
  Reading the reply to a login or challenge (`parse_auth_result` of `snx-ccc.c`), for replies
  written the way this side writes its requests.
 */
module AuthReplies {
  import opened Wrappers
  import opened Bits
  import opened Sexpr
  import opened SexprWriter
  import opened Obfuscate
  import opened Ccc

  /** What is taken from a reply; the key and both texts arrive scrambled. */
  datatype AuthResult = AuthResult(
    status: Option<string>, sessionId: Option<string>, username: Option<string>,
    activeKey: Option<seq<byte>>, prompt: Option<seq<byte>>, errorMessage: Option<seq<byte>>, authenticated: bool)

  method ParseAuthResult(response: Option<Sexpr>) returns (result: Option<AuthResult>)
    ensures result == ResultOf(response)
  {
    var data := GetByPath(response, "ResponseData");
    if data.None? {
      return None;
    }
    var status := GetString(data, "authn_status");
    var sessionId := GetString(data, "session_id");
    var username := GetString(data, "username");
    var activeKey := DecodeField(data, "active_key");
    var prompt := DecodeField(data, "prompt");
    var errorMessage := DecodeField(data, "error_message");
    var authenticated := GetString(data, "is_authenticated") == Some("true");
    return Some(AuthResult(status, sessionId, username, activeKey, prompt, errorMessage, authenticated));
  }

  function ResultOf(response: Option<Sexpr>): Option<AuthResult>
  {
    var data := Get(response, "ResponseData");
    if data.None? then None
    else
      Some(AuthResult(
        GetString(data, "authn_status"), GetString(data, "session_id"), GetString(data, "username"),
        DecodeField(data, "active_key"), DecodeField(data, "prompt"), DecodeField(data, "error_message"),
        GetString(data, "is_authenticated") == Some("true")))
  }

  // ---- what the gateway wrote ----

  /** A reply with an object of data whose own entries are simple values. */
  predicate ReplyTree(w: Writer, data: Writer)
  {
    && Clean(w) && FieldsVisible(w) && FieldsVisible(data) && Lookup(w.fields, "ResponseData") == Some(data)
    && Plain(data, "authn_status") && Plain(data, "session_id") && Plain(data, "username") && Plain(data, "active_key")
    && Plain(data, "prompt") && Plain(data, "error_message") && Plain(data, "is_authenticated")
  }

  /** A key that is one part of a path. */
  predicate SinglePart(key: string) { key != "" && ':' !in key }

  lemma GetOne(e: Option<Sexpr>, key: string)
    requires e.Some? && SinglePart(key)
    ensures Get(e, key) == FindFrom(e, key, 0)
  {
    hide FindFrom, SplitPath;
    SplitOne(key);
    assert [key][1..] == [];
    assert Follow(e, [key]) == Follow(FindFrom(e, key, 0), []);
  }

  lemma ReadsWritten(data: Writer, key: string)
    requires FieldsVisible(data) && Plain(data, key) && SinglePart(key)
    ensures GetString(Some(Denote(data)), key) == Written(data, key)
  {
    hide Denote, Get, GetString, Lookup, Written, Plain;
    GetOne(Some(Denote(data)), key);
    ValueFound(data, key);
    StringAt(Some(Denote(data)), key);
  }

  lemma StringAt(e: Option<Sexpr>, path: string)
    ensures GetString(e, path) == ValueString(Get(e, path))
  {
  }

  lemma KeyParts()
    ensures SinglePart("ResponseData") && SinglePart("authn_status")
        && SinglePart("session_id") && SinglePart("username")
    ensures SinglePart("active_key") && SinglePart("prompt")
        && SinglePart("error_message") && SinglePart("is_authenticated")
  {
  }

  lemma DataIsFound(w: Writer, data: Writer)
    requires ReplyTree(w, data)
    ensures Get(Some(Denote(w)), "ResponseData") == Some(Denote(data))
  {
    hide Denote, FindFrom, Get, Lookup, Clean;
    KeyParts();
    GetOne(Some(Denote(w)), "ResponseData");
    FindsField(w, "ResponseData");
  }

  /** Reading the text of a reply gives, field by field, what the gateway wrote first under the key. */
  lemma ReplyIsRead(w: Writer, data: Writer, level: nat)
    requires ReplyTree(w, data)
    ensures var r := ResultOf(Parse(Text(w, level)));
            && r.Some?
            && r.value.status == Written(data, "authn_status")
            && r.value.sessionId == Written(data, "session_id")
            && r.value.username == Written(data, "username")
            && (r.value.authenticated <==> Written(data, "is_authenticated") == Some("true"))
  {
    hide Text, Parse, Denote, Get, GetString, DecodeField, Lookup, Clean, Written;
    KeyParts();
    RoundTrip(w, level);
    DataIsFound(w, data);
    ReadsWritten(data, "authn_status");
    ReadsWritten(data, "session_id");
    ReadsWritten(data, "username");
    ReadsWritten(data, "is_authenticated");
  }

  /** The three values that arrive scrambled, and where each of them goes. */
  lemma SecretsAreRead(w: Writer, data: Writer, level: nat, secret: seq<byte>)
    requires ReplyTree(w, data)
    ensures var r := ResultOf(Parse(Text(w, level)));
            && r.Some?
            && (Lookup(data.fields, "active_key") == Some(Value(Obfuscated(secret))) ==>
                  (r.value.activeKey == Some(secret) <==> Transmissible(secret)))
            && (Lookup(data.fields, "prompt") == Some(Value(Obfuscated(secret))) ==>
                  (r.value.prompt == Some(secret) <==> Transmissible(secret)))
            && (Lookup(data.fields, "error_message") == Some(Value(Obfuscated(secret))) ==>
                  (r.value.errorMessage == Some(secret) <==> Transmissible(secret)))
  {
    hide Text, Parse, Denote, Get, GetString, Lookup, Clean, Hex, Translated, Unhex, Survives, Plain;
    KeyParts();
    RoundTrip(w, level);
    DataIsFound(w, data);
    var e := Some(Denote(data));
    SecretField(data, "active_key", secret);
    SecretField(data, "prompt", secret);
    SecretField(data, "error_message", secret);
  }

  lemma SecretField(data: Writer, key: string, secret: seq<byte>)
    requires FieldsVisible(data) && Plain(data, key) && SinglePart(key)
    ensures Lookup(data.fields, key) == Some(Value(Obfuscated(secret))) ==>
              (DecodeField(Some(Denote(data)), key) == Some(secret) <==> Transmissible(secret))
  {
    hide Denote, Get, GetString, Lookup, Clean, Hex, Translated, Unhex, Survives;
    ReadsWritten(data, key);
    HexIsClean(Reversed(Translated(secret)));
    InverseExactly(secret);
  }

  /** A reply without data has no result. */
  lemma NoDataNoResult(w: Writer, level: nat)
    requires Clean(w) && FieldsVisible(w) && Lookup(w.fields, "ResponseData") == None
    ensures ResultOf(Parse(Text(w, level))) == None
  {
    hide Text, Parse, Denote, FindFrom, Get, Lookup, Clean;
    KeyParts();
    RoundTrip(w, level);
    GetOne(Some(Denote(w)), "ResponseData");
    FindsField(w, "ResponseData");
  }

  /** The session key comes out of the reply if and only if it can be scrambled and back. */
  lemma KeyIsRead(w: Writer, data: Writer, level: nat, key: seq<byte>)
    requires ReplyTree(w, data) && Lookup(data.fields, "active_key") == Some(Value(Obfuscated(key)))
    ensures var r := ResultOf(Parse(Text(w, level)));
            r.Some? && (r.value.activeKey == Some(key) <==> Transmissible(key))
  {
    hide Text, Parse, Denote, Get, GetString, Lookup, Clean, Hex, Translated, Unhex, Survives;
    KeyParts();
    RoundTrip(w, level);
    DataIsFound(w, data);
    ReadsWritten(data, "active_key");
    HexIsClean(Reversed(Translated(key)));
    InverseExactly(key);
  }
}
