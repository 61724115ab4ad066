/** SLIM framing (`snx-slim.c`): a length, a type, and the payload. */
module Slim {
  import opened Wrappers
  import opened Bits

  /** Control text is a C string: it holds no NUL. */
  datatype Packet = Control(text: seq<byte>) | Data(payload: seq<byte>)

  const HEADER: nat := 8

  /** `put_be32`. */
  function Be32(v: word): (b: seq<byte>)
    ensures |b| == 4
  {
    [v / 256 / 256 / 256, v / 256 / 256 % 256, v / 256 % 256, v % 256]
  }

  /** `get_be32`: the four bytes do not overlap, so or-ing them is adding them. */
  function GetBe32(b: seq<byte>, at: nat): word
    requires at + 4 <= |b|
  {
    var b0: int, b1: int, b2: int, b3: int := b[at], b[at + 1], b[at + 2], b[at + 3];
    ((b0 * 256 + b1) * 256 + b2) * 256 + b3
  }

  lemma Be32RoundTrip(v: word)
    ensures GetBe32(Be32(v), 0) == v
  {
  }

  function Payload(p: Packet): seq<byte>
  {
    match p
    case Control(text) => text + [0]
    case Data(payload) => payload
  }

  function TypeOf(p: Packet): word { if p.Control? then 1 else 2 }

  /** `snx_slim_encode`; the length field takes the low 32 bits of the length. */
  function Encode(p: Packet): (b: seq<byte>)
    ensures |b| == HEADER + |Payload(p)|
  {
    Be32(|Payload(p)| % WORD) + Be32(TypeOf(p)) + Payload(p)
  }

  datatype Decoded = NeedMore | UnknownType(tag: word) | Complete(packet: Packet, consumed: nat)

  /** What `g_strndup` keeps: the bytes in front of the first NUL. */
  function UpToNul(b: seq<byte>): seq<byte>
  {
    if b == [] || b[0] == 0 then [] else [b[0]] + UpToNul(b[1..])
  }

  /** Drops the one NUL the encoder appends. */
  function ControlText(payload: seq<byte>): seq<byte>
  {
    UpToNul(if payload != [] && payload[|payload| - 1] == 0 then payload[..|payload| - 1] else payload)
  }

  /** `snx_slim_decode`; `consumed` is computed in 32 bits. */
  function Decode(b: seq<byte>): Decoded
  {
    if |b| < HEADER then NeedMore
    else
      var length := GetBe32(b, 0);
      if |b| < HEADER + length then NeedMore
      else
        var tag := GetBe32(b, 4);
        var payload := b[HEADER..HEADER + length];
        var consumed := (HEADER + length) % WORD;
        if tag == 1 then Complete(Control(ControlText(payload)), consumed)
        else if tag == 2 then Complete(Data(payload), consumed)
        else UnknownType(tag)
  }

  method PutBe32(out: array<byte>, at: nat, value: word)
    requires at + 4 <= out.Length
    modifies out
    ensures out[..] == old(out[..at]) + Be32(value) + old(out[at + 4..])
  {
    out[at] := value / 256 / 256 / 256;
    out[at + 1] := value / 256 / 256 % 256;
    out[at + 2] := value / 256 % 256;
    out[at + 3] := value % 256;
  }

  method SlimEncode(packet: Packet) returns (out: array<byte>)
    ensures fresh(out) && out[..] == Encode(packet)
  {
    var payload := match packet case Control(text) => text + [0] case Data(data) => data;
    out := new byte[HEADER + |payload|];
    PutBe32(out, 0, |payload| % WORD);
    PutBe32(out, 4, TypeOf(packet));
    assert out[..HEADER] == Be32(|payload| % WORD) + Be32(TypeOf(packet));
    forall i | 0 <= i < |payload| {
      out[HEADER + i] := payload[i];
    }
    assert out[..] == out[..HEADER] + payload;
  }

  // ---- decoding what was encoded ----

  predicate ValidPacket(p: Packet) { p.Control? ==> 0 !in p.text }

  lemma {:induction false} UpToNulOf(b: seq<byte>)
    requires 0 !in b
    ensures UpToNul(b) == b
  {
    if b != [] {
      UpToNulOf(b[1..]);
    }
  }

  lemma ControlTextOf(text: seq<byte>)
    requires 0 !in text
    ensures ControlText(text + [0]) == text
  {
    UpToNulOf(text);
    assert (text + [0])[..|text|] == text;
  }

  lemma HeaderFields(p: Packet, rest: seq<byte>)
    ensures GetBe32(Encode(p) + rest, 0) == |Payload(p)| % WORD
    ensures GetBe32(Encode(p) + rest, 4) == TypeOf(p)
    ensures |Payload(p)| < WORD ==> (Encode(p) + rest)[HEADER..HEADER + |Payload(p)|] == Payload(p)
  {
    hide Be32;
    var a, b := Be32(|Payload(p)| % WORD), Be32(TypeOf(p));
    Be32RoundTrip(|Payload(p)| % WORD);
    Be32RoundTrip(TypeOf(p));
    var all := Encode(p) + rest;
    assert forall i :: 0 <= i < 4 ==> all[i] == a[i] && all[4 + i] == b[i];
  }

  /** A frame is decoded as its packet and its own length exactly if it is under 4 GiB. */
  lemma DecodeInverse(p: Packet, rest: seq<byte>)
    requires ValidPacket(p)
    ensures Decode(Encode(p) + rest) == Complete(p, |Encode(p)|) <==> |Encode(p)| < WORD
  {
    hide Encode, GetBe32, Be32, ControlText;
    HeaderFields(p, rest);
    if p.Control? {
      ControlTextOf(p.text);
    }
    if |Encode(p)| < WORD {
      assert |Payload(p)| % WORD == |Payload(p)|;
    }
  }

  /** A frame that is cut short is not decoded at all. */
  lemma DecodePrefix(p: Packet, k: nat)
    requires |Encode(p)| < WORD && k < |Encode(p)|
    ensures Decode(Encode(p)[..k]) == NeedMore
  {
    HeaderFields(p, []);
    assert Encode(p) + [] == Encode(p);
    var b := Encode(p)[..k];
    if k >= HEADER {
      assert GetBe32(b, 0) == GetBe32(Encode(p), 0);
      assert |Payload(p)| % WORD == |Payload(p)|;
    }
  }

  method SlimDecode(buffer: seq<byte>) returns (packet: Option<Packet>, consumed: nat, unknown: Option<word>)
    ensures match Decode(buffer)
            case NeedMore => packet == None && consumed == 0 && unknown == None
            case UnknownType(tag) => packet == None && consumed == 0 && unknown == Some(tag)
            case Complete(p, n) => packet == Some(p) && consumed == n && unknown == None
  {
    packet, consumed, unknown := None, 0, None;
    if |buffer| < HEADER {
      return;
    }
    var payloadLen := GetBe32(buffer, 0);
    if |buffer| < HEADER + payloadLen {
      return;
    }
    var tag := GetBe32(buffer, 4);
    var payload := buffer[HEADER..HEADER + payloadLen];
    if tag == 1 {
      packet := Some(Control(ControlText(payload)));
    } else if tag == 2 {
      packet := Some(Data(payload));
    } else {
      unknown := Some(tag);
      return;
    }
    consumed := (HEADER + payloadLen) % WORD;
  }

  // ---- the bytes of a frame ----

  /**
    The header of a frame: the length of the payload, which counts the NUL behind control text,
    and 1 for control text or 2 for data, most significant byte first.
   */
  lemma FrameBytes(p: Packet)
    ensures var payload := match p case Control(text) => text + [0] case Data(data) => data;
            var b, n := Encode(p), |payload|;
            && |b| == 8 + n && b[8..] == payload
            && b[4..8] == [0, 0, 0, if p.Control? then 1 else 2]
            && (n < 0x1_0000_0000 ==>
                  n == 0x100_0000 * b[0] as int + 0x1_0000 * b[1] as int + 0x100 * b[2] as int + b[3] as int)
  {
    var b, n := Encode(p), |Payload(p)|;
    assert b[8..] == Payload(p);
    assert b[4..8] == Be32(TypeOf(p));
    assert b[..4] == Be32(n % WORD);
    Be32RoundTrip(n % WORD);
  }

  /** Frames of any other type are refused, and wait like the others until they are complete. */
  lemma OtherTypesRefused(b: seq<byte>)
    requires |b| >= 8 && (b[4] != 0 || b[5] != 0 || b[6] != 0 || (b[7] != 1 && b[7] != 2))
    ensures Decode(b).UnknownType? || Decode(b).NeedMore?
    ensures Decode(b).NeedMore?
            <==> |b| < 8 + 0x100_0000 * b[0] as int + 0x1_0000 * b[1] as int + 0x100 * b[2] as int + b[3] as int
  {
  }
}
