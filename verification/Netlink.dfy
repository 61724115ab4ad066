/**
  Netlink messages of `snx-netlink.c`: attributes are appended to a request in a fixed
  buffer, and replies are walked attribute by attribute. The message starts with its length
  (section 2.3.2 of RFC 3549); an attribute is its length, its type and its data, and starts
  on a four byte boundary. Numbers are in little-endian host order.
 */
module Netlink {
  import opened Bits

  const BUF_SIZE: nat := 512
  const NLMSG_HDRLEN: nat := 16
  const RTA_HDRLEN: nat := 4

  type half = x: int | 0 <= x < 0x1_0000

  datatype Attr = Attr(tag: half, data: seq<byte>)

  /** `NLMSG_ALIGN` and `RTA_ALIGN`. */
  function Align(n: nat): (r: nat)
    ensures n <= r < n + 4 && r % 4 == 0
  {
    (n + 3) / 4 * 4
  }

  function Le16(v: half): (b: seq<byte>)
    ensures |b| == 2
  {
    [v % 256, v / 256]
  }

  function Le32(v: word): (b: seq<byte>)
    ensures |b| == 4
  {
    [v % 256, v / 256 % 256, v / 256 / 256 % 256, v / 256 / 256 / 256]
  }

  function Get16(b: seq<byte>, at: nat): half
    requires at + 2 <= |b|
  {
    var b0: int, b1: int := b[at], b[at + 1];
    b0 + 256 * b1
  }

  function Get32(b: seq<byte>, at: nat): word
    requires at + 4 <= |b|
  {
    var b0: int, b1: int, b2: int, b3: int := b[at], b[at + 1], b[at + 2], b[at + 3];
    b0 + 256 * (b1 + 256 * (b2 + 256 * b3))
  }

  lemma LittleEndian(v: half, w: word)
    ensures Get16(Le16(v), 0) == v && Get32(Le32(w), 0) == w
  {
  }

  function AttrLength(data: seq<byte>): nat { RTA_HDRLEN + |data| }

  /** The bytes of an attribute; its length field takes the low 16 bits. */
  function AttrBytes(a: Attr): (b: seq<byte>)
    ensures |b| == AttrLength(a.data)
  {
    Le16(AttrLength(a.data) % 0x1_0000) + Le16(a.tag) + a.data
  }

  /** The `nlmsg_len` field. */
  function Length(b: seq<byte>): word
    requires |b| >= NLMSG_HDRLEN
  {
    Get32(b, 0)
  }

  predicate Valid(b: seq<byte>)
  {
    |b| == BUF_SIZE && NLMSG_HDRLEN <= Length(b) && Align(Length(b)) <= BUF_SIZE
  }

  predicate HasRoom(b: seq<byte>, a: Attr)
    requires Valid(b)
  {
    Align(Length(b)) + Align(AttrLength(a.data)) <= BUF_SIZE
  }

  /** The buffer after `nl_put_attr`; an attribute that does not fit leaves it alone. */
  function Put(b: seq<byte>, a: Attr): (c: seq<byte>)
    requires Valid(b)
    ensures |c| == |b|
  {
    var at, end := Align(Length(b)), Align(Length(b)) + AttrLength(a.data);
    if !HasRoom(b, a) then b
    else Le32(end) + b[4..at] + AttrBytes(a) + b[end..]
  }

  method Store(buf: array<byte>, at: nat, bytes: seq<byte>)
    requires at + |bytes| <= buf.Length
    modifies buf
    ensures buf[..] == Stored(old(buf[..]), at, bytes)
  {
    for i := 0 to |bytes|
      invariant buf[..] == old(buf[..at]) + bytes[..i] + old(buf[at + i..])
    {
      buf[at + i] := bytes[i];
      assert bytes[..i + 1] == bytes[..i] + [bytes[i]];
    }
    assert bytes[..|bytes|] == bytes;
  }

  function Stored(b: seq<byte>, at: nat, bytes: seq<byte>): (c: seq<byte>)
    requires at + |bytes| <= |b|
    ensures |c| == |b|
  {
    b[..at] + bytes + b[at + |bytes|..]
  }

  lemma FieldByField(b: seq<byte>, at: nat, x: seq<byte>, y: seq<byte>, z: seq<byte>)
    requires |x| == |y| == 2 && at + 4 + |z| <= |b|
    ensures Stored(Stored(Stored(b, at + 2, y), at, x), at + 4, z) == Stored(b, at, x + y + z)
  {
    hide Stored;
    StoredBefore(b, at, x, y);
    StoredBehind(b, at, x + y, z);
  }

  lemma StoredBefore(b: seq<byte>, at: nat, x: seq<byte>, y: seq<byte>)
    requires at + |x| + |y| <= |b|
    ensures Stored(Stored(b, at + |x|, y), at, x) == Stored(b, at, x + y)
  {
    var c, d := Stored(b, at + |x|, y), Stored(b, at, x + y);
    assert c[..at] == b[..at] && c[at + |x|..] == y + b[at + |x| + |y|..];
    assert b[..at] + x + (y + b[at + |x| + |y|..]) == d;
  }

  lemma StoredBehind(b: seq<byte>, at: nat, x: seq<byte>, y: seq<byte>)
    requires at + |x| + |y| <= |b|
    ensures Stored(Stored(b, at, x), at + |x|, y) == Stored(b, at, x + y)
  {
    var c, d := Stored(b, at, x), Stored(b, at, x + y);
    assert c[..at + |x|] == b[..at] + x && c[at + |x| + |y|..] == b[at + |x| + |y|..];
    assert (b[..at] + x) + y + b[at + |x| + |y|..] == d;
  }

  lemma LengthLast(b: seq<byte>, at: nat, bytes: seq<byte>, length: seq<byte>)
    requires |length| == 4 <= at && at + |bytes| <= |b|
    ensures Stored(Stored(b, at, bytes), 0, length) == length + b[4..at] + bytes + b[at + |bytes|..]
  {
    var c := Stored(b, at, bytes);
    assert c[4..] == b[4..at] + bytes + b[at + |bytes|..];
    assert length + (b[4..at] + bytes + b[at + |bytes|..]) == length + b[4..at] + bytes + b[at + |bytes|..];
  }

  /** The four stores of a put: tag, length, data and then the length of the message. */
  lemma StoresPut(b: seq<byte>, a: Attr)
    requires Valid(b) && HasRoom(b, a)
    ensures var at, end := Align(Length(b)), Align(Length(b)) + AttrLength(a.data);
            && at + Align(AttrLength(a.data)) <= |b| && end < 0x1_0000_0000
            && var c := Stored(Stored(b, at + 2, Le16(a.tag)), at, Le16(AttrLength(a.data) % 0x1_0000));
               Stored(Stored(c, at + RTA_HDRLEN, a.data), 0, Le32(end)) == Put(b, a)
  {
    hide Get32, Le32, Le16, Align, Stored;
    var at, end := Align(Length(b)), Align(Length(b)) + AttrLength(a.data);
    FieldByField(b, at, Le16(AttrLength(a.data) % 0x1_0000), Le16(a.tag), a.data);
    LengthLast(b, at, AttrBytes(a), Le32(end));
  }

  lemma PutRefused(b: seq<byte>, a: Attr)
    requires Valid(b) && !HasRoom(b, a)
    ensures Put(b, a) == b
  {
  }

  /** `nl_put_attr`. */
  method PutAttr(buf: array<byte>, tag: half, data: seq<byte>) returns (ok: bool)
    requires Valid(buf[..])
    modifies buf
    ensures ok == old(HasRoom(buf[..], Attr(tag, data)))
    ensures buf[..] == Put(old(buf[..]), Attr(tag, data))
  {
    hide Get32, Le32, Le16, Align, Stored, Put;
    var attrOffset := Align(Length(buf[..]));
    var attrLen := RTA_HDRLEN + |data|;
    if attrOffset + Align(attrLen) > buf.Length {
      PutRefused(buf[..], Attr(tag, data));
      return false;
    }
    StoresPut(buf[..], Attr(tag, data));
    Store(buf, attrOffset + 2, Le16(tag));
    Store(buf, attrOffset, Le16(attrLen % 0x1_0000));
    Store(buf, attrOffset + RTA_HDRLEN, data);
    Store(buf, 0, Le32(attrOffset + attrLen));
    return true;
  }

  // ---- the walk over a reply ----

  /** `RTA_OK`. */
  predicate AttrOk(b: seq<byte>, at: nat, remaining: int)
    requires at + remaining <= |b|
  {
    remaining >= RTA_HDRLEN && RTA_HDRLEN <= Get16(b, at) <= remaining
  }

  /** The attributes from an offset on; `remaining` drops below zero behind an unpadded end. */
  function Walk(b: seq<byte>, at: nat, remaining: int): seq<Attr>
    requires at + remaining <= |b|
    decreases remaining
  {
    if !AttrOk(b, at, remaining) then []
    else
      var n := Get16(b, at);
      [Attr(Get16(b, at + 2), b[at + RTA_HDRLEN..at + n])] + Walk(b, at + Align(n), remaining - Align(n))
  }

  /** All attributes of a message whose first one is at `start`. */
  function Attrs(b: seq<byte>, start: nat): seq<Attr>
    requires |b| >= NLMSG_HDRLEN && Length(b) <= |b|
  {
    Walk(b, start, Length(b) - start)
  }

  /** The attributes lie one behind the other from `at` on, and the last one ends at `end`. */
  predicate Placed(b: seq<byte>, at: nat, attrs: seq<Attr>, end: nat)
    decreases |attrs|
  {
    if attrs == [] then Align(end) == at
    else
      var n := AttrLength(attrs[0].data);
      && n < 0x1_0000 && at + n <= end <= |b|
      && b[at..at + n] == AttrBytes(attrs[0])
      && Placed(b, at + Align(n), attrs[1..], end)
  }

  lemma HeaderReads(b: seq<byte>, at: nat, a: Attr)
    requires AttrLength(a.data) < 0x1_0000 && at + AttrLength(a.data) <= |b|
    requires b[at..at + AttrLength(a.data)] == AttrBytes(a)
    ensures Get16(b, at) == AttrLength(a.data) && Get16(b, at + 2) == a.tag
    ensures b[at + RTA_HDRLEN..at + AttrLength(a.data)] == a.data
  {
    hide Le16, Get16;
    var n := AttrLength(a.data);
    LittleEndian(n, 0);
    LittleEndian(a.tag, 0);
    Windowed(b, at, n);
    ThreeParts(Le16(n), Le16(a.tag), a.data);
  }

  lemma Windowed(b: seq<byte>, at: nat, n: nat)
    requires RTA_HDRLEN <= n && at + n <= |b|
    ensures Get16(b, at) == Get16(b[at..at + n], 0) && Get16(b, at + 2) == Get16(b[at..at + n], 2)
    ensures b[at + RTA_HDRLEN..at + n] == b[at..at + n][RTA_HDRLEN..]
  {
  }

  lemma ThreeParts(x: seq<byte>, y: seq<byte>, z: seq<byte>)
    requires |x| == |y| == 2
    ensures Get16(x + y + z, 0) == Get16(x, 0) && Get16(x + y + z, 2) == Get16(y, 0) && (x + y + z)[RTA_HDRLEN..] == z
  {
  }

  lemma {:induction false} WalkReads(b: seq<byte>, at: nat, attrs: seq<Attr>, end: nat)
    requires end <= |b| && Placed(b, at, attrs, end)
    ensures Walk(b, at, end - at) == attrs
    decreases |attrs|
  {
    hide AttrBytes, Get16, Align;
    if attrs != [] {
      var n := AttrLength(attrs[0].data);
      HeaderReads(b, at, attrs[0]);
      WalkReads(b, at + Align(n), attrs[1..], end);
      assert attrs == [attrs[0]] + attrs[1..];
    }
  }

  lemma AlignSum(a: nat, n: nat)
    requires a % 4 == 0
    ensures Align(a + n) == a + Align(n)
  {
  }

  lemma SlicesAgree(b: seq<byte>, c: seq<byte>, from: nat, to: nat)
    requires from <= to <= |b| == |c| && forall i :: from <= i < to ==> b[i] == c[i]
    ensures c[from..to] == b[from..to]
  {
  }

  lemma PlacedFirst(c: seq<byte>, at: nat, a: Attr)
    requires at % 4 == 0 && AttrLength(a.data) < 0x1_0000 && at + AttrLength(a.data) <= |c|
    requires c[at..at + AttrLength(a.data)] == AttrBytes(a)
    ensures Placed(c, at, [a], at + AttrLength(a.data))
  {
    hide AttrBytes, Align;
    AlignSum(at, AttrLength(a.data));
    assert [a][1..] == [];
  }

  lemma {:induction false} PlacedAppend(b: seq<byte>, c: seq<byte>, at: nat, attrs: seq<Attr>, end: nat, a: Attr)
    requires |b| == |c| && at % 4 == 0 && at <= Align(end) && Placed(b, at, attrs, end)
    requires AttrLength(a.data) < 0x1_0000 && Align(end) + AttrLength(a.data) <= |c|
    requires forall i :: at <= i < end && i < |b| ==> b[i] == c[i]
    requires c[Align(end)..Align(end) + AttrLength(a.data)] == AttrBytes(a)
    ensures Placed(c, at, attrs + [a], Align(end) + AttrLength(a.data))
    decreases |attrs|
  {
    hide AttrBytes, Align, Placed;
    var last := Align(end) + AttrLength(a.data);
    PlacedStep(b, at, attrs, end);
    if attrs == [] {
      PlacedFirst(c, at, a);
      assert attrs + [a] == [a];
    } else {
      var n := AttrLength(attrs[0].data);
      SlicesAgree(b, c, at, at + n);
      AlignKeeps(at, n);
      PlacedEnd(b, at + Align(n), attrs[1..], end);
      PlacedAppend(b, c, at + Align(n), attrs[1..], end, a);
      AlignKeeps(end, 0);
      PlacedCons(c, at, attrs, a, last);
    }
  }

  /** Aligning moves up to a multiple of four, by at most three. */
  lemma AlignKeeps(at: nat, n: nat)
    ensures n <= Align(n) && (at % 4 == 0 ==> (at + Align(n)) % 4 == 0) && at <= Align(at) <= at + 3
  {
  }

  lemma PlacedCons(c: seq<byte>, at: nat, attrs: seq<Attr>, a: Attr, last: nat)
    requires attrs != [] && AttrLength(attrs[0].data) < 0x1_0000 && at + AttrLength(attrs[0].data) <= last <= |c|
    requires c[at..at + AttrLength(attrs[0].data)] == AttrBytes(attrs[0])
    requires Placed(c, at + Align(AttrLength(attrs[0].data)), attrs[1..] + [a], last)
    ensures Placed(c, at, attrs + [a], last)
  {
    hide AttrBytes, Align, Placed;
    assert (attrs + [a])[1..] == attrs[1..] + [a] && (attrs + [a])[0] == attrs[0];
    PlacedStep(c, at, attrs + [a], last);
  }

  lemma PlacedStep(b: seq<byte>, at: nat, attrs: seq<Attr>, end: nat)
    ensures attrs == [] ==> (Placed(b, at, attrs, end) <==> Align(end) == at)
    ensures attrs != [] ==>
              var n := AttrLength(attrs[0].data);
              (Placed(b, at, attrs, end)
               <==> n < 0x1_0000 && at + n <= end <= |b| && b[at..at + n] == AttrBytes(attrs[0])
                    && Placed(b, at + Align(n), attrs[1..], end))
  {
    hide AttrBytes, Align;
  }

  lemma {:induction false} PlacedEnd(b: seq<byte>, at: nat, attrs: seq<Attr>, end: nat)
    requires Placed(b, at, attrs, end)
    ensures at <= Align(end)
    decreases |attrs|
  {
    hide AttrBytes;
    if attrs != [] {
      PlacedEnd(b, at + Align(AttrLength(attrs[0].data)), attrs[1..], end);
    }
  }

  // ---- what a put does ----

  /** A message whose attributes, all laid out properly, start at `start`. */
  predicate Holds(b: seq<byte>, start: nat, attrs: seq<Attr>)
  {
    Valid(b) && NLMSG_HDRLEN <= start && start % 4 == 0 && start <= Align(Length(b))
    && Placed(b, start, attrs, Length(b))
  }

  /**
    An accepted put leaves every byte in front of the new attribute alone except the length
    field, and stays in the buffer; a refused put changes nothing.
   */
  lemma PutKeeps(b: seq<byte>, a: Attr)
    requires Valid(b)
    ensures Valid(Put(b, a))
    ensures !HasRoom(b, a) ==> Put(b, a) == b
    ensures HasRoom(b, a) ==>
              var c, at := Put(b, a), Align(Length(b)); var end := at + AttrLength(a.data);
              && Length(c) == end && c[4..at] == b[4..at] && c[at..end] == AttrBytes(a) && c[end..] == b[end..]
  {
    hide Get32, Le32, AttrBytes;
    if HasRoom(b, a) {
      var at := Align(Length(b));
      var end := at + AttrLength(a.data);
      LittleEndian(0, end);
      FourParts(Le32(end), b[4..at], AttrBytes(a), b[end..]);
      SameWord(Put(b, a), Le32(end));
      AlignSum(at, AttrLength(a.data));
    }
  }

  lemma FourParts(x: seq<byte>, y: seq<byte>, z: seq<byte>, rest: seq<byte>)
    ensures var c, i, j := x + y + z + rest, |x| + |y|, |x| + |y| + |z|;
            c[..|x|] == x && c[|x|..i] == y && c[i..j] == z && c[j..] == rest
  {
  }

  lemma SameWord(c: seq<byte>, d: seq<byte>)
    requires |c| >= 4 && |d| == 4 && c[..4] == d
    ensures Get32(c, 0) == Get32(d, 0)
  {
    assert forall i :: 0 <= i < 4 ==> c[i] == d[i];
  }

  lemma PutHolds(b: seq<byte>, start: nat, attrs: seq<Attr>, a: Attr)
    requires Holds(b, start, attrs)
    ensures Holds(Put(b, a), start, if HasRoom(b, a) then attrs + [a] else attrs)
  {
    hide Put, AttrBytes, Placed, Length;
    PutKeeps(b, a);
    if HasRoom(b, a) {
      var c, at := Put(b, a), Align(Length(b));
      forall i | start <= i < Length(b) && i < |b| ensures b[i] == c[i] {
        assert b[i] == b[4..at][i - 4] && c[i] == c[4..at][i - 4];
      }
      PlacedAppend(b, c, start, attrs, Length(b), a);
    }
  }

  /** A whole sequence of puts: the buffer, and the attributes that were accepted. */
  function PutAll(b: seq<byte>, attrs: seq<Attr>): (r: (seq<byte>, seq<Attr>))
    requires Valid(b)
    ensures Valid(r.0)
    decreases |attrs|
  {
    if attrs == [] then (b, [])
    else
      PutKeeps(b, attrs[0]);
      var more := PutAll(Put(b, attrs[0]), attrs[1..]);
      (more.0, (if HasRoom(b, attrs[0]) then [attrs[0]] else []) + more.1)
  }

  /**
    After any sequence of puts on a fresh message, the reply walk finds exactly the accepted
    attributes, in order, and the aligned length is within the buffer.
   */
  lemma {:induction false} PutsAreWalked(b: seq<byte>, start: nat, before: seq<Attr>, attrs: seq<Attr>)
    requires Holds(b, start, before)
    ensures var (c, accepted) := PutAll(b, attrs);
            && Align(Length(c)) <= BUF_SIZE && Attrs(c, start) == before + accepted
    decreases |attrs|
  {
    hide Put, Placed, HasRoom, Length, Walk;
    if attrs == [] {
      WalkReads(b, start, before, Length(b));
      assert before + [] == before;
    } else {
      PutKeeps(b, attrs[0]);
      PutHolds(b, start, before, attrs[0]);
      var room := HasRoom(b, attrs[0]);
      var c := Put(b, attrs[0]);
      var first := if room then [attrs[0]] else [];
      assert before + first == if room then before + [attrs[0]] else before;
      PutsAreWalked(c, start, before + first, attrs[1..]);
      var more := PutAll(c, attrs[1..]);
      assert before + first + more.1 == before + (first + more.1);
    }
  }

  // ---- route requests ----

  const RTA_DST: half := 1
  const RTA_OIF: half := 4
  const RTA_GATEWAY: half := 5

  /** Where the attributes behind a `struct rtmsg` start. */
  const RTM_START: nat := 28
  const RTM_NEWROUTE: half := 24
  const RTM_DELROUTE: half := 25

  type quad = b: seq<byte> | |b| == 4 witness [0, 0, 0, 0]

  const ZERO: quad := [0, 0, 0, 0]

  /** The fields of `struct rtmsg` that both requests set alike. */
  function RouteFields(prefix: byte, gateway: quad): (f: seq<byte>)
    ensures |f| == 12
  {
    [2, prefix, 0, 0, 254, 4, if gateway != ZERO then 0 else 253, 1, 0, 0, 0, 0]
  }

  /** Length, type, flags, sequence number and port of a request without attributes. */
  function RequestHeader(kind: half, flags: half): (h: seq<byte>)
    ensures |h| == NLMSG_HDRLEN
  {
    Le32(RTM_START) + Le16(kind) + Le16(flags) + Le32(1) + Le32(0)
  }

  function EmptyRequest(kind: half, flags: half, prefix: byte, gateway: quad): (b: seq<byte>)
    ensures |b| == BUF_SIZE
  {
    RequestHeader(kind, flags) + RouteFields(prefix, gateway) + seq(BUF_SIZE - RTM_START, i => 0)
  }

  lemma EmptyHolds(kind: half, flags: half, prefix: byte, gateway: quad)
    ensures var b := EmptyRequest(kind, flags, prefix, gateway);
            Length(b) == RTM_START && Holds(b, RTM_START, [])
  {
    hide Get32, Le32, Le16;
    var b := EmptyRequest(kind, flags, prefix, gateway);
    LittleEndian(0, RTM_START);
    assert b[..4] == Le32(RTM_START);
    SameWord(b, Le32(RTM_START));
  }

  lemma FrontOf(b: seq<byte>, at: nat)
    requires RTM_START <= at <= |b|
    ensures b[4..RTM_START] == b[4..at][..RTM_START - 4]
  {
  }

  lemma QuadHasRoom(b: seq<byte>, attrs: seq<Attr>, a: Attr)
    requires Holds(b, RTM_START, attrs) && Length(b) <= 52 && |a.data| == 4
    ensures HasRoom(b, a) && Length(Put(b, a)) <= Align(Length(b)) + 8
    ensures Holds(Put(b, a), RTM_START, attrs + [a]) && Put(b, a)[4..RTM_START] == b[4..RTM_START]
  {
    hide Put, Placed, Length;
    PutKeeps(b, a);
    PutHolds(b, RTM_START, attrs, a);
    var at, c := Align(Length(b)), Put(b, a);
    FrontOf(b, at);
    FrontOf(c, at);
  }

  /** Flags of the two requests: request, and for an add also create and replace. */
  const ADD_FLAGS: half := 0x501
  const DEL_FLAGS: half := 0x001

  // ---- the finished bytes ----

  /** What one more attribute of four bytes does to the part of the buffer that is in use. */
  lemma QuadBytes(b: seq<byte>, at: nat, a: Attr)
    requires Valid(b) && HasRoom(b, a) && Length(b) == at && at % 4 == 0 && 28 <= at && |a.data| == 4
    ensures at + 8 <= |b| && Length(Put(b, a)) == at + 8
    ensures Put(b, a)[..at + 8]
            == Le32(at + 8) + b[4..at] + ([8, 0, a.tag % 256, a.tag / 256] + a.data)
  {
    hide Length, Put, HasRoom, Le32, Get32;
    assert Align(at) == at;
    PutKeeps(b, a);
    var c := Put(b, a);
    LengthBytes(c, at + 8);
    QuadAttr(a);
    CutTwice(c, 4, at, at + 8);
  }

  lemma QuadAttr(a: Attr)
    requires |a.data| == 4
    ensures AttrBytes(a) == [8, 0, a.tag % 256, a.tag / 256] + a.data && AttrLength(a.data) == 8
  {
    SmallBytes();
  }

  lemma CutTwice(c: seq<byte>, i: nat, j: nat, k: nat)
    requires i <= j <= k <= |c|
    ensures c[..k] == c[..i] + c[i..j] + c[j..k]
  {
  }

  /** The length field read back gives the first four bytes. */
  lemma LengthBytes(b: seq<byte>, n: word)
    requires |b| >= NLMSG_HDRLEN && Length(b) == n
    ensures b[..4] == Le32(n)
  {
    var b0: int, b1: int, b2: int, b3: int := b[0], b[1], b[2], b[3];
    var x := b1 + 256 * (b2 + 256 * b3);
    assert n == b0 + 256 * x;
    assert n % 256 == b0 && n / 256 == x;
    assert x % 256 == b1 && x / 256 == b2 + 256 * b3;
  }

  lemma SmallBytes()
    ensures Le16(8) == [8, 0] && Le16(1) == [1, 0] && Le16(4) == [4, 0] && Le16(5) == [5, 0]
    ensures Le32(0) == [0, 0, 0, 0] && Le32(1) == [1, 0, 0, 0] && Le32(28) == [28, 0, 0, 0] && Le32(36) == [36, 0, 0, 0]
    ensures Le32(44) == [44, 0, 0, 0] && Le32(52) == [52, 0, 0, 0]
  {
  }

  /** Type, flags, sequence number and port of a request, and the fields of its `struct rtmsg`. */
  lemma FrontBytes(kind: half, flags: half, prefix: byte, gateway: quad)
    ensures EmptyRequest(kind, flags, prefix, gateway)[4..28]
            == [kind % 256, kind / 256, flags % 256, flags / 256] + [1, 0, 0, 0] + [0, 0, 0, 0]
               + [2, prefix, 0, 0, 254, 4, if gateway != [0, 0, 0, 0] then 0 else 253, 1, 0, 0, 0, 0]
  {
    hide Le32;
    SmallBytes();
    var e := EmptyRequest(kind, flags, prefix, gateway);
    assert e[..28] == RequestHeader(kind, flags) + RouteFields(prefix, gateway);
    assert RequestHeader(kind, flags)[4..] == Le16(kind) + Le16(flags) + Le32(1) + Le32(0);
    assert e[4..28] == e[..28][4..];
  }

  lemma Behind(front: seq<byte>, length: seq<byte>, more: seq<byte>, c: seq<byte>, at: nat)
    requires 4 <= at == 4 + |front| && |length| == 4 && |c| >= at + |more|
    requires c[..at + |more|] == length + front + more
    ensures c[4..at + |more|] == front + more
  {
    assert c[4..at + |more|] == c[..at + |more|][4..];
  }

  /** A destination, an interface, and a gateway if there is one, put on a fresh request. */
  lemma ThreePuts(b: seq<byte>, front: seq<byte>, dest: quad, oif: quad, gateway: quad)
    requires Holds(b, RTM_START, []) && Length(b) == 28 && b[4..28] == front
    ensures HasRoom(b, Attr(1, dest))
    ensures var c := Put(b, Attr(1, dest));
            && Valid(c) && HasRoom(c, Attr(4, oif))
            && var d := Put(c, Attr(4, oif));
               && Valid(d) && d[..44] == [44, 0, 0, 0] + front + [8, 0, 1, 0] + dest + [8, 0, 4, 0] + oif
               && HasRoom(d, Attr(5, gateway))
               && Put(d, Attr(5, gateway))[..52]
                  == [52, 0, 0, 0] + front + [8, 0, 1, 0] + dest + [8, 0, 4, 0] + oif + [8, 0, 5, 0] + gateway
  {
    hide Put, Length, Placed, HasRoom, Le32;
    SmallBytes();
    var x, y, z := Attr(1, dest), Attr(4, oif), Attr(5, gateway);
    QuadHasRoom(b, [], x);
    QuadBytes(b, 28, x);
    var c := Put(b, x);
    var first := front + ([8, 0, 1, 0] + dest);
    Behind(front, Le32(36), [8, 0, 1, 0] + dest, c, 28);
    QuadHasRoom(c, [] + [x], y);
    QuadBytes(c, 36, y);
    var d := Put(c, y);
    var second := first + ([8, 0, 4, 0] + oif);
    Behind(first, Le32(44), [8, 0, 4, 0] + oif, d, 36);
    QuadHasRoom(d, [] + [x] + [y], z);
    QuadBytes(d, 44, z);
    assert d[..44] == [44, 0, 0, 0] + front + [8, 0, 1, 0] + dest + [8, 0, 4, 0] + oif;
    assert Put(d, z)[..52] == [52, 0, 0, 0] + second + ([8, 0, 5, 0] + gateway);
  }

  /** The common part of `snx_netlink_route_add` and `snx_netlink_route_del`. */
  method BuildRouteRequest(kind: half, flags: half, dest: quad, prefix: byte, oif: quad, gateway: quad)
    returns (buf: array<byte>, ok: bool)
    ensures fresh(buf) && ok && buf.Length == BUF_SIZE && Valid(buf[..])
    ensures var front := [kind % 256, kind / 256, flags % 256, flags / 256] + [1, 0, 0, 0] + [0, 0, 0, 0]
                         + [2, prefix, 0, 0, 254, 4, if gateway != [0, 0, 0, 0] then 0 else 253, 1, 0, 0, 0, 0];
            var attrs := [8, 0, 1, 0] + dest + [8, 0, 4, 0] + oif;
            if gateway != [0, 0, 0, 0] then buf[..52] == [52, 0, 0, 0] + front + attrs + [8, 0, 5, 0] + gateway
            else buf[..44] == [44, 0, 0, 0] + front + attrs
    ensures Attrs(buf[..], 28)
            == [Attr(1, dest), Attr(4, oif)] + if gateway == [0, 0, 0, 0] then [] else [Attr(5, gateway)]
  {
    hide Put, Holds, Length, EmptyRequest, HasRoom, Walk;
    buf := new byte[BUF_SIZE];
    var blank := EmptyRequest(kind, flags, prefix, gateway);
    forall i | 0 <= i < BUF_SIZE {
      buf[i] := blank[i];
    }
    assert buf[..] == blank;
    EmptyHolds(kind, flags, prefix, gateway);
    FrontBytes(kind, flags, prefix, gateway);
    ThreePuts(blank, blank[4..28], dest, oif, gateway);
    ok := PutRoute(buf, dest, oif, gateway);
    PutsAre(blank, dest, oif, gateway);
    assert buf[..44] == buf[..][..44] && buf[..52] == buf[..][..52];
  }

  /** The attributes of a route request; a route without a gateway has none for it. */
  method PutRoute(buf: array<byte>, dest: quad, oif: quad, gateway: quad) returns (ok: bool)
    requires Holds(buf[..], RTM_START, []) && Length(buf[..]) == RTM_START
    modifies buf
    ensures ok && buf[..] == RoutePuts(old(buf[..]), dest, oif, gateway)
  {
    hide Put, Holds, Length, HasRoom;
    HoldsIsValid(buf[..]);
    ThreePuts(buf[..], buf[..][4..28], dest, oif, gateway);
    ok := PutAttr(buf, RTA_DST, dest);
    if ok {
      ok := PutAttr(buf, RTA_OIF, oif);
    }
    if ok && gateway != ZERO {
      ok := PutAttr(buf, RTA_GATEWAY, gateway);
    }
  }

  lemma HoldsIsValid(b: seq<byte>)
    requires Holds(b, RTM_START, [])
    ensures Valid(b)
  {
  }

  ghost function RoutePuts(b: seq<byte>, dest: quad, oif: quad, gateway: quad): seq<byte>
    requires Holds(b, RTM_START, []) && Length(b) == RTM_START
  {
    ThreePuts(b, b[4..28], dest, oif, gateway);
    var c := Put(Put(b, Attr(RTA_DST, dest)), Attr(RTA_OIF, oif));
    if gateway == ZERO then c else Put(c, Attr(RTA_GATEWAY, gateway))
  }

  lemma PutsAre(b: seq<byte>, dest: quad, oif: quad, gateway: quad)
    requires Holds(b, RTM_START, []) && Length(b) == RTM_START
    ensures var c := RoutePuts(b, dest, oif, gateway);
            && Valid(c)
            && Attrs(c, 28) == [Attr(1, dest), Attr(4, oif)] + if gateway == ZERO then [] else [Attr(5, gateway)]
  {
    hide Put, Length, HasRoom, Placed;
    var x, y, z := Attr(RTA_DST, dest), Attr(RTA_OIF, oif), Attr(RTA_GATEWAY, gateway);
    ThreePuts(b, b[4..28], dest, oif, gateway);
    QuadHasRoom(b, [], x);
    QuadHasRoom(Put(b, x), [] + [x], y);
    var c := Put(Put(b, x), y);
    var two := [] + [x] + [y];
    assert two == [x, y];
    if gateway == ZERO {
      WalkReads(c, RTM_START, two, Length(c));
    } else {
      QuadHasRoom(c, two, z);
      WalkReads(Put(c, z), RTM_START, two + [z], Length(Put(c, z)));
    }
  }

  /**
    Whoever reads a request attribute by attribute finds the destination, the interface and,
    if there is one, the gateway, each under its own type and nothing else.
   */
  lemma RequestIsRead(b: seq<byte>, dest: quad, oif: quad, gateway: quad, tag: half)
    requires |b| >= NLMSG_HDRLEN && Length(b) <= |b|
    requires Attrs(b, 28) == [Attr(1, dest), Attr(4, oif)] + if gateway == ZERO then [] else [Attr(5, gateway)]
    ensures LastOf(Attrs(b, 28), 1, ZERO) == dest && LastOf(Attrs(b, 28), 4, ZERO) == oif
    ensures LastOf(Attrs(b, 28), 5, ZERO) == gateway
    ensures (exists a :: a in Attrs(b, 28) && a.tag == tag) <==> tag == 1 || tag == 4 || (tag == 5 && gateway != ZERO)
  {
    hide Walk, Length, LastOf;
    var all := Attrs(b, 28);
    var two: seq<Attr> := [Attr(1, dest), Attr(4, oif)];
    forall t: half ensures LastOf(two, t, ZERO) == if t == 4 then oif else if t == 1 then dest else ZERO {
      LastIs([Attr(1, dest)], Attr(4, oif), t);
      LastIs([], Attr(1, dest), t);
      NothingLast(t, ZERO);
      assert [Attr(1, dest)] + [Attr(4, oif)] == two && [] + [Attr(1, dest)] == [Attr(1, dest)];
    }
    if gateway == ZERO {
      assert all == two;
    } else {
      LastIs(two, Attr(5, gateway), 1);
      LastIs(two, Attr(5, gateway), 4);
      LastIs(two, Attr(5, gateway), 5);
      assert all[2] == Attr(5, gateway);
    }
    assert all[0] == Attr(1, dest) && all[1] == Attr(4, oif);
    assert tag == 1 ==> all[0] in all && all[0].tag == tag;
    assert tag == 4 ==> all[1] in all && all[1].tag == tag;
    assert tag == 5 && gateway != ZERO ==> all[2] in all && all[2].tag == tag;
  }

  lemma LastIs(attrs: seq<Attr>, a: Attr, tag: half)
    requires |a.data| == 4
    ensures LastOf(attrs + [a], tag, ZERO) == if a.tag == tag then a.data else LastOf(attrs, tag, ZERO)
  {
    assert (attrs + [a])[..|attrs|] == attrs;
    assert a.data[..4] == a.data;
  }

  /** The two requests differ in type and flags only: a deletion names the route that was added. */
  method AddAndDelete(dest: quad, prefix: byte, oif: quad, gateway: quad) returns (add: array<byte>, del: array<byte>)
    ensures fresh(add) && fresh(del) && add.Length == del.Length == BUF_SIZE
    ensures Valid(add[..]) && Valid(del[..])
    ensures Attrs(add[..], 28) == Attrs(del[..], 28)
            == [Attr(1, dest), Attr(4, oif)] + if gateway == [0, 0, 0, 0] then [] else [Attr(5, gateway)]
    ensures add[4..8] == [24, 0, 1, 5] && del[4..8] == [25, 0, 1, 0]
    ensures add[8..28] == del[8..28] == [1, 0, 0, 0] + [0, 0, 0, 0]
              + [2, prefix, 0, 0, 254, 4, if gateway != [0, 0, 0, 0] then 0 else 253, 1, 0, 0, 0, 0]
  {
    hide Valid, Attrs;
    var ok;
    ghost var n := if gateway != ZERO then 52 else 44;
    add, ok := BuildRouteRequest(RTM_NEWROUTE, ADD_FLAGS, dest, prefix, oif, gateway);
    del, ok := BuildRouteRequest(RTM_DELROUTE, DEL_FLAGS, dest, prefix, oif, gateway);
    SameSlices(add[..], n);
    SameSlices(del[..], n);
    assert add[..][..n] == add[..n] && del[..][..n] == del[..n];
    assert add[..][4..8] == add[4..8] && del[..][4..8] == del[4..8];
    assert add[..][8..28] == add[8..28] && del[..][8..28] == del[8..28];
  }

  lemma SameSlices(b: seq<byte>, n: nat)
    requires 28 <= n <= |b|
    ensures b[4..8] == b[..n][4..8] && b[8..28] == b[..n][8..28]
  {
  }

  // ---- the gateway lookup ----

  /** Four bytes can be read where the data of each attribute of a type starts. */
  predicate ReadsInside(b: seq<byte>, at: nat, remaining: int, tag: half)
    requires at + remaining <= |b|
    decreases remaining
  {
    AttrOk(b, at, remaining) ==>
      && (Get16(b, at + 2) == tag ==> at + RTA_HDRLEN + 4 <= |b|)
      && ReadsInside(b, at + Align(Get16(b, at)), remaining - Align(Get16(b, at)), tag)
  }

  /**
    What the lookup copies for a type: always four bytes from where the data of an attribute
    starts, also when the attribute is shorter, and the last one counts.
   */
  function LastFour(b: seq<byte>, at: nat, remaining: int, tag: half, found: quad): quad
    requires at + remaining <= |b| && ReadsInside(b, at, remaining, tag)
    decreases remaining
  {
    if !AttrOk(b, at, remaining) then found
    else
      var n := Get16(b, at);
      LastFour(b, at + Align(n), remaining - Align(n), tag,
               if Get16(b, at + 2) == tag then b[at + RTA_HDRLEN..at + RTA_HDRLEN + 4] else found)
  }

  /**
    The loop of `snx_netlink_get_route_gateway` over the reply to a route lookup, where what
    it copies lies inside the receive buffer.
   */
  method RouteGateway(buffer: seq<byte>) returns (gateway: quad, oif: quad)
    requires |buffer| >= NLMSG_HDRLEN && Length(buffer) <= |buffer|
    requires ReadsInside(buffer, RTM_START, Length(buffer) - RTM_START, RTA_GATEWAY)
    requires ReadsInside(buffer, RTM_START, Length(buffer) - RTM_START, RTA_OIF)
    ensures gateway == LastFour(buffer, RTM_START, Length(buffer) - RTM_START, RTA_GATEWAY, ZERO)
    ensures oif == LastFour(buffer, RTM_START, Length(buffer) - RTM_START, RTA_OIF, ZERO)
  {
    hide Get16, Length, Align;
    gateway, oif := ZERO, ZERO;
    var at: nat, remaining: int := RTM_START, Length(buffer) - RTM_START;
    ghost var gatewayIs := LastFour(buffer, at, remaining, RTA_GATEWAY, ZERO);
    ghost var oifIs := LastFour(buffer, at, remaining, RTA_OIF, ZERO);
    while AttrOk(buffer, at, remaining)
      invariant at + remaining <= |buffer|
      invariant ReadsInside(buffer, at, remaining, RTA_GATEWAY) && ReadsInside(buffer, at, remaining, RTA_OIF)
      invariant gatewayIs == LastFour(buffer, at, remaining, RTA_GATEWAY, gateway)
      invariant oifIs == LastFour(buffer, at, remaining, RTA_OIF, oif)
      decreases remaining
    {
      var n, tag := Get16(buffer, at), Get16(buffer, at + 2);
      if tag == RTA_GATEWAY {
        gateway := buffer[at + RTA_HDRLEN..at + RTA_HDRLEN + 4];
      } else if tag == RTA_OIF {
        oif := buffer[at + RTA_HDRLEN..at + RTA_HDRLEN + 4];
      }
      at, remaining := at + Align(n), remaining - Align(n);
    }
  }

  /** The first four data bytes of the last attribute of a type. */
  function LastOf(attrs: seq<Attr>, tag: half, otherwise: quad): quad
  {
    if attrs == [] then otherwise
    else
      var a := attrs[|attrs| - 1];
      if a.tag == tag && |a.data| >= 4 then a.data[..4]
      else LastOf(attrs[..|attrs| - 1], tag, otherwise)
  }

  lemma {:induction false} LastOfFirst(a: Attr, attrs: seq<Attr>, tag: half, otherwise: quad)
    ensures LastOf([a] + attrs, tag, otherwise)
            == LastOf(attrs, tag, if a.tag == tag && |a.data| >= 4 then a.data[..4] else otherwise)
    decreases |attrs|
  {
    var all := [a] + attrs;
    if attrs == [] {
      assert all == [a] && [a][..0] == [];
    } else {
      assert all[..|all| - 1] == [a] + attrs[..|attrs| - 1];
      LastOfFirst(a, attrs[..|attrs| - 1], tag, otherwise);
    }
  }

  lemma {:induction false} FourAreData(b: seq<byte>, at: nat, remaining: int, tag: half, found: quad)
    requires at + remaining <= |b|
    requires forall a :: a in Walk(b, at, remaining) && a.tag == tag ==> |a.data| >= 4
    ensures ReadsInside(b, at, remaining, tag)
    ensures LastFour(b, at, remaining, tag, found) == LastOf(Walk(b, at, remaining), tag, found)
    decreases remaining
  {
    hide Get16, Align, LastOf, LastFour, Walk;
    if AttrOk(b, at, remaining) {
      WalkStep(b, at, remaining);
      var n := Get16(b, at);
      var a := Attr(Get16(b, at + 2), b[at + RTA_HDRLEN..at + n]);
      var later := Walk(b, at + Align(n), remaining - Align(n));
      assert a in Walk(b, at, remaining) && forall x :: x in later ==> x in Walk(b, at, remaining);
      assert a.tag == tag ==> a.data[..4] == b[at + RTA_HDRLEN..at + RTA_HDRLEN + 4];
      LastOfFirst(a, later, tag, found);
      FourAreData(b, at + Align(n), remaining - Align(n), tag, if a.tag == tag then a.data[..4] else found);
      FourStep(b, at, remaining, tag, found);
    } else {
      FourStep(b, at, remaining, tag, found);
      WalkEnds(b, at, remaining);
      NothingLast(tag, found);
    }
  }

  lemma FourStep(b: seq<byte>, at: nat, remaining: int, tag: half, found: quad)
    requires at + remaining <= |b| && ReadsInside(b, at, remaining, tag)
    ensures !AttrOk(b, at, remaining) ==> LastFour(b, at, remaining, tag, found) == found
    ensures AttrOk(b, at, remaining) ==>
              var n := Get16(b, at);
              LastFour(b, at, remaining, tag, found)
              == LastFour(b, at + Align(n), remaining - Align(n), tag,
                          if Get16(b, at + 2) == tag then b[at + RTA_HDRLEN..at + RTA_HDRLEN + 4] else found)
  {
    hide Get16, Align;
  }

  lemma WalkStep(b: seq<byte>, at: nat, remaining: int)
    requires at + remaining <= |b| && AttrOk(b, at, remaining)
    ensures var n := Get16(b, at);
            RTA_HDRLEN <= n <= remaining && Walk(b, at, remaining)
            == [Attr(Get16(b, at + 2), b[at + RTA_HDRLEN..at + n])] + Walk(b, at + Align(n), remaining - Align(n))
  {
    hide Get16, Align;
  }

  lemma WalkEnds(b: seq<byte>, at: nat, remaining: int)
    requires at + remaining <= |b| && !AttrOk(b, at, remaining)
    ensures Walk(b, at, remaining) == []
  {
  }

  lemma NothingLast(tag: half, found: quad)
    ensures LastOf([], tag, found) == found
  {
  }

  /**
    On a reply whose gateway and interface attributes have their four bytes, the lookup stays
    inside the reply and gives the last gateway and the last interface among its attributes.
   */
  lemma LookupGivesLast(buffer: seq<byte>, tag: half)
    requires |buffer| >= NLMSG_HDRLEN && Length(buffer) <= |buffer|
    requires forall a :: a in Attrs(buffer, RTM_START) && a.tag == tag ==> |a.data| >= 4
    ensures ReadsInside(buffer, RTM_START, Length(buffer) - RTM_START, tag)
    ensures LastFour(buffer, RTM_START, Length(buffer) - RTM_START, tag, ZERO)
            == LastOf(Attrs(buffer, RTM_START), tag, ZERO)
  {
    hide Length, LastFour, LastOf, Walk, ReadsInside;
    FourAreData(buffer, RTM_START, Length(buffer) - RTM_START, tag, ZERO);
  }
}
