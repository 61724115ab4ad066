/**
  The credential scrambler of `snx-obfuscate.c`: every byte is masked with a table entry
  that depends on its place, the order is reversed, and the result is written in hex.
 */
module Obfuscate {
  import opened Wrappers
  import opened Glib
  import opened Bits

  type mask = m: int | 0 < m < 128 witness 1

  const TABLE: seq<mask> :=
    [45, 79, 68, 73, 70, 73, 69, 68, 38, 87, 48, 82, 79, 80, 69, 82, 84, 89, 51, 72, 69, 69, 84]
    + [55, 73, 84, 72, 47, 43, 52, 72, 69, 51, 72, 69, 69, 84, 41, 36, 51, 63, 44, 36, 33, 48, 63]
    + [33, 53, 63, 48, 50, 47, 48, 37, 50, 52, 41, 37, 51, 46, 53, 44, 44, 16, 38, 55, 63, 55, 48]
    + [63, 47, 34, 42, 37, 35, 52, 51]

  /** The table entry for a place in the data; there are 77 entries. */
  function MaskAt(i: nat): mask
  {
    TABLE[i % 77]
  }

  /** The byte arithmetic of `translate_byte` for one table entry. */
  function Masked(m: mask, c: byte): byte
  {
    XorBound(c % 255, m, 8);
    var v := Xor(c % 255, m);
    if v == 0 then 255 else v
  }

  function TranslateByte(i: nat, c: byte): byte
  {
    Masked(MaskAt(i), c)
  }

  function Reversed(s: seq<byte>): (r: seq<byte>)
    ensures |r| == |s|
  {
    seq(|s|, i requires 0 <= i < |s| => s[|s| - 1 - i])
  }

  function Translated(s: seq<byte>): (r: seq<byte>)
    ensures |r| == |s|
  {
    seq(|s|, i requires 0 <= i < |s| => TranslateByte(i, s[i]))
  }

  // ---- hex ----

  function Hex(s: seq<byte>): (h: string)
    ensures |h| == 2 * |s|
  {
    if s == [] then ""
    else Hex(s[..|s| - 1]) + [HexDigit(s[|s| - 1] / 16), HexDigit(s[|s| - 1] % 16)]
  }

  function Unhex(h: string): (s: Option<seq<byte>>)
    requires |h| % 2 == 0
    ensures s.Some? ==> 2 * |s.value| == |h|
  {
    if h == "" then Some([])
    else
      var n := |h| - 2;
      var front, hi, lo := Unhex(h[..n]), XDigit(h[n]), XDigit(h[n + 1]);
      if front.None? || hi.None? || lo.None? then None
      else Some(front.value + [hi.value * 16 + lo.value])
  }

  function Obfuscated(data: seq<byte>): string
  {
    Hex(Reversed(Translated(data)))
  }

  function Deobfuscated(hex: string): Option<seq<byte>>
  {
    if |hex| % 2 != 0 then None
    else
      match Unhex(hex)
      case None => None
      case Some(bytes) => Some(Translated(Reversed(bytes)))
  }

  // ---- the loops of the source ----

  method Translate(data: seq<byte>) returns (out: array<byte>)
    ensures fresh(out) && out[..] == Reversed(Translated(data))
  {
    hide TranslateByte;
    var n := |data|;
    var tmp := new byte[n];
    out := new byte[n];
    for i := 0 to n
      invariant forall j :: 0 <= j < i ==> tmp[j] == TranslateByte(j, data[j])
    {
      tmp[i] := TranslateByte(i, data[i]);
    }
    for i := 0 to n
      invariant tmp[..] == Translated(data)
      invariant forall j :: 0 <= j < i ==> out[j] == tmp[n - 1 - j]
    {
      out[i] := tmp[n - 1 - i];
    }
  }

  method ObfuscateData(data: seq<byte>) returns (hex: string)
    ensures hex == Obfuscated(data)
  {
    hide HexDigit, Translated, Reversed;
    var translated := Translate(data);
    hex := "";
    for i := 0 to |data|
      invariant hex == Hex(translated[..i])
    {
      assert translated[..i + 1][..i] == translated[..i];
      hex := hex + [HexDigit(translated[i] / 16), HexDigit(translated[i] % 16)];
    }
    assert translated[..|data|] == translated[..];
  }

  method UnhexText(hex: string) returns (r: Option<seq<byte>>)
    requires |hex| % 2 == 0
    ensures r == Unhex(hex)
  {
    hide XDigit, Unhex;
    var len := |hex| / 2;
    var unhexed := new byte[len];
    NothingToRead();
    assert hex[..0] == "" && unhexed[..0] == [];
    for i := 0 to len
      invariant Unhex(hex[..2 * i]) == Some(unhexed[..i])
    {
      var hi, lo := XDigit(hex[2 * i]), XDigit(hex[2 * i + 1]);
      UnhexStep(hex, i);
      if hi.None? || lo.None? {
        UnhexFails(hex, i + 1);
        return None;
      }
      unhexed[i] := hi.value * 16 + lo.value;
      assert unhexed[..i + 1] == unhexed[..i] + [hi.value * 16 + lo.value];
    }
    assert hex[..2 * len] == hex && unhexed[..len] == unhexed[..];
    return Some(unhexed[..]);
  }

  method Reverse(s: seq<byte>) returns (out: array<byte>)
    ensures fresh(out) && out[..] == Reversed(s)
  {
    out := new byte[|s|];
    for i := 0 to |s|
      invariant forall j :: 0 <= j < i ==> out[j] == s[|s| - 1 - j]
    {
      out[i] := s[|s| - 1 - i];
    }
  }

  /** `snx_deobfuscate`: reversed before and after the translation. */
  method DeobfuscateHex(hex: string) returns (r: Option<seq<byte>>)
    ensures r == Deobfuscated(hex)
  {
    if |hex| % 2 != 0 {
      return None;
    }
    var unhexed := UnhexText(hex);
    if unhexed.None? {
      return None;
    }
    var reversed := Reverse(unhexed.value);
    var decoded := Translate(reversed[..]);
    var data := Reverse(decoded[..]);
    ReversedTwice(Translated(Reversed(unhexed.value)));
    return Some(data[..]);
  }

  lemma ReversedTwice(s: seq<byte>)
    ensures Reversed(Reversed(s)) == s
  {
  }

  lemma UnhexStep(h: string, i: nat)
    requires 2 * i + 2 <= |h|
    ensures Unhex(h[..2 * i + 2])
            == var front, hi, lo := Unhex(h[..2 * i]), XDigit(h[2 * i]), XDigit(h[2 * i + 1]);
               if front.None? || hi.None? || lo.None? then None
               else Some(front.value + [hi.value * 16 + lo.value])
  {
    assert h[..2 * i + 2][..2 * i] == h[..2 * i];
  }

  lemma {:induction false} UnhexFails(h: string, i: nat)
    requires |h| % 2 == 0 && 2 * i <= |h| && Unhex(h[..2 * i]).None?
    ensures Unhex(h).None?
    decreases |h| - i
  {
    if 2 * i < |h| {
      UnhexStep(h, i);
      UnhexFails(h, i + 1);
    } else {
      assert h[..2 * i] == h;
    }
  }

  // ---- the inverse ----

  lemma HexLast(s: seq<byte>, b: byte)
    ensures Hex(s + [b]) == Hex(s) + [HexDigit(b / 16), HexDigit(b % 16)]
  {
    hide HexDigit;
    assert (s + [b])[..|s|] == s;
  }

  lemma NothingToRead()
    ensures Hex([]) == "" && Unhex("") == Some([])
  {
  }

  lemma {:induction false} UnhexOfHex(s: seq<byte>)
    ensures Unhex(Hex(s)) == Some(s)
  {
    hide XDigit, HexDigit, Hex, Unhex;
    if s == [] {
      NothingToRead();
    } else {
      var init, b := s[..|s| - 1], s[|s| - 1];
      UnhexOfHex(init);
      HexDigitReads(b / 16);
      HexDigitReads(b % 16);
      assert init + [b] == s;
      HexLast(init, b);
      var all, n := Hex(s), |init|;
      assert all[..2 * n] == Hex(init) && all[..2 * n + 2] == all;
      UnhexStep(all, n);
    }
  }

  /** The bytes that survive the scrambler at a place: two values of 256 do not. */
  predicate Survives(i: nat, c: byte)
  {
    c != 0 && c != Xor(255, MaskAt(i))
  }

  /** Masking twice with the same entry gives the byte back unless it was lost on the way. */
  lemma MaskedTwice(m: mask, c: byte)
    ensures Masked(m, Masked(m, c)) == c <==> c != 0 && c != Xor(255, m)
    ensures Masked(m, c) != 0
  {
    hide Xor;
    var x := c % 255;
    var y := Xor(x, m);
    XorBound(x, m, 8);
    XorSelfInverse(x, m);
    XorSelfInverse(255, m);
    XorZero(m);
    XorOnes(8, m);
    assert Pow2(8) == 256;
    assert Xor(255, m) == 255 - m;
    assert y == 0 ==> x == m;
    assert y == 255 ==> x == 255 - m;
  }

  lemma TranslatedTwice(i: nat, c: byte)
    ensures TranslateByte(i, TranslateByte(i, c)) == c <==> Survives(i, c)
  {
    hide Masked, Xor;
    MaskedTwice(MaskAt(i), c);
  }

  /** The decoder undoes the encoder exactly on data whose bytes all survive. */
  lemma InverseExactly(data: seq<byte>)
    ensures Deobfuscated(Obfuscated(data)).Some?
    ensures Deobfuscated(Obfuscated(data)) == Some(data)
            <==> forall i :: 0 <= i < |data| ==> Survives(i, data[i])
  {
    hide TranslateByte, Survives, Hex, Unhex;
    var t := Translated(data);
    UnhexOfHex(Reversed(t));
    ReversedTwice(t);
    var back := Translated(t);
    forall i | 0 <= i < |data| ensures back[i] == data[i] <==> Survives(i, data[i]) {
      TranslatedTwice(i, data[i]);
    }
    assert back == data <==> forall i :: 0 <= i < |data| ==> back[i] == data[i];
  }

  /** Every ASCII byte but NUL survives everywhere. */
  lemma AsciiSurvives(i: nat, c: byte)
    requires 0 < c < 128
    ensures Survives(i, c)
  {
    hide Xor;
    XorOnes(8, MaskAt(i));
    assert Pow2(8) == 256;
  }

  /** Decoded text holds no NUL, so taking it as a C string never shortens it. */
  lemma DecodedHasNoNul(hex: string)
    ensures Deobfuscated(hex).Some? ==> 0 !in Deobfuscated(hex).value
  {
    hide Masked, Unhex;
    if Deobfuscated(hex).Some? {
      var bytes := Reversed(Unhex(hex).value);
      forall i | 0 <= i < |bytes| ensures Translated(bytes)[i] != 0 {
        MaskedTwice(MaskAt(i), bytes[i]);
      }
    }
  }

  // ---- byte by byte ----

  lemma {:induction false} HexAt(s: seq<byte>, j: nat)
    requires j < |s|
    ensures Hex(s)[2 * j] == HexDigit(s[j] / 16) && Hex(s)[2 * j + 1] == HexDigit(s[j] % 16)
    decreases |s|
  {
    hide HexDigit;
    if j < |s| - 1 {
      HexAt(s[..|s| - 1], j);
    }
  }

  /**
    What is sent for the byte at a place: the byte modulo 255 xor the entry of the table for that
    place, with 255 in place of 0, as two digits; the places come in reverse order.
   */
  lemma ByteAt(data: seq<byte>, i: nat)
    requires i < |data|
    ensures var hex, x, at := Obfuscated(data), Xor(data[i] % 255, TABLE[i % 77]), 2 * (|data| - 1 - i);
            var v := if x == 0 then 255 else x;
            && |hex| == 2 * |data| && v < 256
            && XDigit(hex[at]) == Some(v / 16) && XDigit(hex[at + 1]) == Some(v % 16)
  {
    hide Hex, HexDigit, XDigit, Xor;
    var t := Translated(data);
    var v: byte := t[i];
    assert t[i] == Masked(TABLE[i % 77], data[i]);
    HexAt(Reversed(t), |data| - 1 - i);
    HexDigitReads(v / 16);
    HexDigitReads(v % 16);
  }

  predicate HexChar(c: char) { '0' <= c <= '9' || 'a' <= c <= 'f' || 'A' <= c <= 'F' }

  /** What can be decoded: an even number of hexadecimal digits, in either letter case. */
  lemma DecodesExactly(hex: string)
    ensures Deobfuscated(hex).Some? <==> |hex| % 2 == 0 && forall i :: 0 <= i < |hex| ==> HexChar(hex[i])
  {
    hide Unhex, Translated, Reversed;
    if |hex| % 2 == 0 {
      UnhexExactly(hex);
    }
  }

  lemma {:induction false} UnhexExactly(h: string)
    requires |h| % 2 == 0
    ensures Unhex(h).Some? <==> forall i :: 0 <= i < |h| ==> HexChar(h[i])
    decreases |h|
  {
    if h != "" {
      var n := |h| - 2;
      UnhexExactly(h[..n]);
      assert forall i :: 0 <= i < n ==> h[..n][i] == h[i];
    }
  }

  /** "a" is sent as 4c, and the 78th place uses the table from its beginning again. */
  lemma KnownVector()
    ensures Obfuscated([97]) == "4c" && MaskAt(77) == MaskAt(0) == 45 && MaskAt(76) == 51
  {
    hide Xor, Hex;
    XorOfA();
    var data: seq<byte> := [97];
    assert TABLE[0] == 45 && TABLE[76] == 51;
    assert TranslateByte(0, 97) == 0x4c;
    assert Translated(data)[0] == 0x4c;
    assert Reversed(Translated(data)) == [0x4c];
    HexLast([], 0x4c);
    NothingToRead();
    assert [] + [0x4c] == [0x4c];
  }

  lemma XorOfA()
    ensures Xor(97, 45) == 0x4c
  {
    assert Xor(1, 0) == 1;
    assert Xor(3, 1) == 2;
    assert Xor(6, 2) == 4;
    assert Xor(12, 5) == 9;
    assert Xor(24, 11) == 19;
    assert Xor(48, 22) == 38;
  }
}
