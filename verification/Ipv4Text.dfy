/**
  IPv4 addresses as dotted quads. `inet_ntop` and `inet_pton` belong to the C library:
  `Pton` is the strict reader (four decimal octets, no leading zero, nothing else).
  An address is its value in host order; byte swapping is not part of this model.
 */
module Ipv4Text {
  import opened Wrappers
  import opened Bits
  import opened Decimal

  /** How far `inet_pton` has read: the octets closed by a dot, and the one being read. */
  datatype Progress = Progress(closed: seq<byte>, current: Option<byte>)

  function PtonStep(p: Progress, c: char): Option<Progress>
  {
    if IsDigit(c) then
      match p.current
      case None => if |p.closed| < 4 then Some(p.(current := Some(DigitValue(c)))) else None
      case Some(v) =>
        var w := v * 10 + DigitValue(c);
        if v == 0 || w > 255 then None else Some(p.(current := Some(w)))
    else if c == '.' && p.current.Some? && |p.closed| + 1 < 4 then
      Some(Progress(p.closed + [p.current.value], None))
    else None
  }

  function PtonRun(s: string): Option<Progress>
  {
    if s == [] then Some(Progress([], None))
    else
      var before := PtonRun(s[..|s| - 1]);
      if before.None? then None else PtonStep(before.value, s[|s| - 1])
  }

  function Address(a: byte, b: byte, c: byte, d: byte): word
  {
    ((a * 256 + b) * 256 + c) * 256 + d
  }

  /** `inet_pton(AF_INET, s, ...)`. */
  function Pton(s: string): Option<word>
  {
    match PtonRun(s)
    case Some(Progress(closed, Some(last))) =>
      if |closed| == 3 then Some(Address(closed[0], closed[1], closed[2], last)) else None
    case _ => None
  }

  /** `inet_ntop(AF_INET, a, ...)`. */
  function Ntop(a: word): string
  {
    Quad(HighBytes(a), a % 256)
  }

  /** The first three octets of an address. */
  function HighBytes(a: word): seq<byte>
  {
    [a / 256 / 256 / 256, a / 256 / 256 % 256, a / 256 % 256]
  }

  function Quad(closed: seq<byte>, last: byte): string
  {
    ClosedText(closed) + Dec(last)
  }

  function ClosedText(closed: seq<byte>): string
  {
    if closed == [] then ""
    else ClosedText(closed[..|closed| - 1]) + Dec(closed[|closed| - 1]) + "."
  }

  function ProgressText(p: Progress): string
  {
    ClosedText(p.closed) + if p.current.Some? then Dec(p.current.value) else ""
  }

  lemma StepExtendsText(p: Progress, c: char)
    requires PtonStep(p, c).Some?
    ensures ProgressText(PtonStep(p, c).value) == ProgressText(p) + [c]
  {
    var q := PtonStep(p, c).value;
    if IsDigit(c) {
      var d := DigitValue(c);
      assert DigitChar(d) == c;
      if p.current.Some? {
        DecAppendDigit(p.current.value, d);
      }
    } else {
      assert q.closed[..|q.closed| - 1] == p.closed;
    }
  }

  /** Whatever has been read is the canonical text of the progress made. */
  lemma {:induction false} RunIsCanonical(s: string)
    requires PtonRun(s).Some?
    ensures ProgressText(PtonRun(s).value) == s
  {
    if s != [] {
      var t := s[..|s| - 1];
      RunIsCanonical(t);
      StepExtendsText(PtonRun(t).value, s[|s| - 1]);
    }
  }

  lemma RunStep(s: string, c: char)
    requires PtonRun(s).Some?
    ensures PtonRun(s + [c]) == PtonStep(PtonRun(s).value, c)
  {
    assert (s + [c])[..|s|] == s;
  }

  lemma {:induction false} RunReadsOctet(s: string, closed: seq<byte>, v: byte)
    requires PtonRun(s) == Some(Progress(closed, None)) && |closed| < 4
    ensures PtonRun(s + Dec(v)) == Some(Progress(closed, Some(v)))
  {
    if v < 10 {
      RunStep(s, DigitChar(v));
    } else {
      RunReadsOctet(s, closed, v / 10);
      RunStep(s + Dec(v / 10), DigitChar(v % 10));
      assert s + Dec(v) == (s + Dec(v / 10)) + [DigitChar(v % 10)];
    }
  }

  lemma ClosedTextStep(closed: seq<byte>, v: byte)
    ensures ClosedText(closed + [v]) == ClosedText(closed) + Dec(v) + "."
  {
    hide Dec;
    assert (closed + [v])[..|closed|] == closed;
  }

  lemma DotCloses(closed: seq<byte>, v: byte)
    requires |closed| < 3
    ensures PtonStep(Progress(closed, Some(v)), '.') == Some(Progress(closed + [v], None))
  {
  }

  lemma RunReadsNothing()
    ensures PtonRun(ClosedText([])) == Some(Progress([], None))
  {
  }

  lemma {:induction false} RunReadsClosed(closed: seq<byte>)
    requires |closed| < 4
    ensures PtonRun(ClosedText(closed)) == Some(Progress(closed, None))
  {
    hide Dec, PtonRun, PtonStep, ClosedText;
    if closed == [] {
      RunReadsNothing();
    } else {
      var init, v := closed[..|closed| - 1], closed[|closed| - 1];
      RunReadsClosed(init);
      RunReadsOctet(ClosedText(init), init, v);
      RunStep(ClosedText(init) + Dec(v), '.');
      DotCloses(init, v);
      assert init + [v] == closed;
      ClosedTextStep(init, v);
    }
  }

  lemma AddressOfBytes(a: word)
    ensures var h := HighBytes(a); Address(h[0], h[1], h[2], a % 256) == a
  {
  }

  lemma BytesOfAddress(a: byte, b: byte, c: byte, d: byte)
    ensures HighBytes(Address(a, b, c, d)) == [a, b, c] && Address(a, b, c, d) % 256 == d
  {
    var x := Address(a, b, c, d);
    assert x / 256 == (a * 256 + b) * 256 + c && x % 256 == d;
    assert x / 256 / 256 == a * 256 + b && x / 256 % 256 == c;
    assert x / 256 / 256 / 256 == a && x / 256 / 256 % 256 == b;
  }

  /** An address is four numbers, the most significant first, with dots between them. */
  lemma NtopIsQuad(address: word, a: byte, b: byte, c: byte, d: byte)
    requires address == 0x100_0000 * a + 0x1_0000 * b + 0x100 * c + d
    ensures Ntop(address) == Dec(a) + "." + Dec(b) + "." + Dec(c) + "." + Dec(d)
  {
    hide Dec, ClosedText, HighBytes, Address;
    AddressIs(a, b, c, d);
    BytesOfAddress(a, b, c, d);
    ThreeClosed(a, b, c);
  }

  lemma AddressIs(a: byte, b: byte, c: byte, d: byte)
    ensures Address(a, b, c, d) == 0x100_0000 * a + 0x1_0000 * b + 0x100 * c + d
  {
  }

  lemma ThreeClosed(a: byte, b: byte, c: byte)
    ensures ClosedText([a, b, c]) == Dec(a) + "." + Dec(b) + "." + Dec(c) + "."
  {
    hide Dec;
    assert [a, b, c][..2] == [a, b] && [a, b][..1] == [a] && [a][..0] == [];
    assert ClosedText([]) == "";
    assert ClosedText([a]) == Dec(a) + ".";
    assert ClosedText([a, b]) == Dec(a) + "." + Dec(b) + ".";
  }

  /** Printing an address and reading it back gives the same address. */
  lemma PtonOfNtop(a: word)
    ensures Pton(Ntop(a)) == Some(a)
  {
    var closed: seq<byte> := HighBytes(a);
    RunReadsClosed(closed);
    RunReadsOctet(ClosedText(closed), closed, a % 256);
    AddressOfBytes(a);
  }

  /** The reader accepts nothing but the printed form: an address has one spelling. */
  lemma PtonOnlyNtop(s: string)
    requires Pton(s).Some?
    ensures s == Ntop(Pton(s).value)
  {
    RunIsCanonical(s);
    var p := PtonRun(s).value;
    BytesOfAddress(p.closed[0], p.closed[1], p.closed[2], p.current.value);
    assert p.closed == [p.closed[0], p.closed[1], p.closed[2]];
  }

  predicate QuadChars(s: string)
  {
    forall i :: 0 <= i < |s| ==> IsDigit(s[i]) || s[i] == '.'
  }

  lemma {:induction false} ClosedTextChars(closed: seq<byte>)
    ensures QuadChars(ClosedText(closed))
  {
    if closed != [] {
      ClosedTextChars(closed[..|closed| - 1]);
      DecIsDigits(closed[|closed| - 1]);
    }
  }

  lemma NtopChars(a: word)
    ensures QuadChars(Ntop(a)) && |Ntop(a)| > 0
  {
    ClosedTextChars(HighBytes(a));
    DecIsDigits(a % 256);
  }
}
