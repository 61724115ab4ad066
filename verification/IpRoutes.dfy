/**
  Route specs "a.b.c.d/N": the two readers the service runs on every spec, for netlink and for
  NetworkManager, and the conversion between netmasks and prefixes.
 */
module IpRoutes {
  import opened Wrappers
  import opened Glib
  import opened Bits
  import opened Decimal
  import opened Ipv4Text
  import opened IpRange

  // ---- text helpers of GLib ----

  function StripLeft(s: string): string
  {
    if s != [] && IsSpace(s[0]) then StripLeft(s[1..]) else s
  }

  function StripRight(s: string): string
  {
    if s != [] && IsSpace(s[|s| - 1]) then StripRight(s[..|s| - 1]) else s
  }

  /** `g_strstrip`. */
  function Strip(s: string): string { StripRight(StripLeft(s)) }

  /** Index of the first `c`, or the length. */
  function IndexOf(s: string, c: char): (i: nat)
    ensures i <= |s|
  {
    if s == [] || s[0] == c then 0 else 1 + IndexOf(s[1..], c)
  }

  lemma {:induction false} IndexOfBehind(s: string, c: char, t: string)
    requires c !in s
    ensures IndexOf(s + [c] + t, c) == |s|
  {
    if s == [] {
      assert s + [c] + t == [c] + t;
    } else {
      assert (s + [c] + t)[1..] == s[1..] + [c] + t;
      IndexOfBehind(s[1..], c, t);
    }
  }

  // ---- reading a spec ----

  /** `G_MAXUINT32 << (32 - prefix)` in 32 bits, and 0 for prefix 0. */
  function Mask(prefix: nat): (m: word)
    requires prefix <= 32
  {
    if prefix == 0 then 0 else ((WORD - 1) * Pow2(32 - prefix)) % WORD
  }

  /** An address with the bits behind the prefix cleared. */
  function Network(a: word, prefix: nat): word
    requires prefix <= 32
  {
    AndMaskIsWord(a, prefix);
    And(a, Mask(prefix))
  }

  function ParsePrefix(text: string): Option<nat>
  {
    var n := Strtoul(text);
    if n.overflow || !n.found || n.rest != [] || n.value > 32 then None else Some(n.value)
  }

  /** The destination as text again, without its host bits. */
  function NormalizeDestination(address: string, prefix: nat): Option<string>
    requires prefix <= 32
  {
    match Pton(address)
    case None => None
    case Some(a) => Some(Ntop(Network(a, prefix)))
  }

  /** The two sides of the only slash, both non-empty, in text without blanks. */
  function SplitSpec(copy: string): Option<(string, string)>
  {
    var slash := IndexOf(copy, '/');
    if copy == [] || ' ' in copy || '\t' in copy then None
    else if slash == |copy| || slash == 0 || slash + 1 == |copy| || '/' in copy[slash + 1..] then None
    else Some((copy[..slash], copy[slash + 1..]))
  }

  function RouteOf(address: string, prefixText: string): Option<Cidr>
  {
    match ParsePrefix(prefixText)
    case None => None
    case Some(prefix) =>
      match NormalizeDestination(address, prefix)
      case None => None
      case Some(dest) => if Pton(dest).None? then None else Some(Cidr(Pton(dest).value, prefix))
  }

  /** The NetworkManager reader. */
  function ParseRouteSpec(spec: string): Option<Cidr>
  {
    match SplitSpec(Strip(spec))
    case None => None
    case Some((address, prefixText)) => RouteOf(address, prefixText)
  }

  /** The netlink reader: no stripping, no normalizing, and the prefix cut to 8 bits. */
  function NetlinkRoute(spec: string): Option<Cidr>
  {
    var slash := IndexOf(spec, '/');
    if slash == |spec| then None
    else
      match Pton(spec[..slash])
      case None => None
      case Some(a) => Some(Cidr(a, Strtoul(spec[slash + 1..]).value % WORD % 256))
  }

  function RoutesFrom(specs: seq<string>): Option<seq<Cidr>>
  {
    if specs == [] then Some([])
    else
      var init := RoutesFrom(specs[..|specs| - 1]);
      var last := ParseRouteSpec(specs[|specs| - 1]);
      if init.None? || last.None? then None else Some(init.value + [last.value])
  }

  /** `snx_ip4_routes_from_strings`: all routes, or nothing if one spec is invalid. */
  method RoutesFromStrings(specs: seq<string>) returns (routes: Option<seq<Cidr>>)
    ensures routes == RoutesFrom(specs)
  {
    var out: seq<Cidr> := [];
    var i := 0;
    while i < |specs|
      invariant 0 <= i <= |specs|
      invariant RoutesFrom(specs[..i]) == Some(out)
    {
      var route := ParseRouteSpec(specs[i]);
      assert specs[..i + 1][..i] == specs[..i];
      if route.None? {
        RoutesFromFails(specs, i);
        return None;
      }
      out := out + [route.value];
      i := i + 1;
    }
    assert specs[..i] == specs;
    return Some(out);
  }

  lemma {:induction false} RoutesFromFails(specs: seq<string>, i: nat)
    requires i < |specs| && ParseRouteSpec(specs[i]).None?
    ensures RoutesFrom(specs).None?
    decreases |specs|
  {
    if i < |specs| - 1 {
      RoutesFromFails(specs[..|specs| - 1], i);
    }
  }

  // ---- masks ----

  lemma MaskValue(prefix: nat)
    requires 0 < prefix <= 32
    ensures Pow2(32 - prefix) <= WORD && Mask(prefix) == WORD - Pow2(32 - prefix)
  {
    hide Pow2;
    var m := Pow2(32 - prefix);
    Pow2Values();
    Pow2Monotonic(32 - prefix, 31);
    assert (WORD - 1) * m == (m - 1) * WORD + (WORD - m);
    DivModUnique((WORD - 1) * m, WORD, m - 1, WORD - m);
  }

  /** The `p` bits in front of a word are ones, and the next one is not. */
  predicate LeadingOnes(x: word, p: nat)
  {
    p <= 32 && x / Pow2(32 - p) == Pow2(p) - 1 && (p < 32 ==> (x / Pow2(31 - p)) % 2 == 0)
  }

  /** `netmask_to_prefix`: the ones in front; 32 if there is no mask or it cannot be read. */
  method NetmaskToPrefix(netmask: Option<string>) returns (prefix: nat)
    ensures if netmask.None? || Pton(netmask.value).None? then prefix == 32
            else LeadingOnes(Pton(netmask.value).value, prefix)
  {
    hide Pton, And, Pow2;
    if netmask.None? || Pton(netmask.value).None? {
      return 32;
    }
    var hostOrder := Pton(netmask.value).value;
    prefix := 0;
    NoOnes(hostOrder);
    while prefix < 32 && And(hostOrder, Pow2(31 - prefix)) != 0
      invariant prefix <= 32 && hostOrder / Pow2(32 - prefix) == Pow2(prefix) - 1
    {
      AndBit(hostOrder, 31 - prefix);
      OneMore(hostOrder, prefix);
      prefix := prefix + 1;
    }
    if prefix < 32 {
      AndBit(hostOrder, 31 - prefix);
    }
  }

  lemma NoOnes(x: word)
    ensures x / Pow2(32) == Pow2(0) - 1
  {
    Pow2Values();
  }

  lemma OneMore(x: word, p: nat)
    requires p < 32 && x / Pow2(32 - p) == Pow2(p) - 1 && (x / Pow2(31 - p)) % 2 == 1
    ensures x / Pow2(31 - p) == Pow2(p + 1) - 1
  {
    hide Pow2;
    Pow2Step(31 - p);
    Pow2Step(p);
    DivThenHalf(x, Pow2(31 - p));
  }

  lemma OneLess(k: nat, m: nat)
    requires k > 0 && m > 0
    ensures (k * m - m) / m == k - 1
  {
    assert k * m - m == (k - 1) * m;
    DivModUnique(k * m - m, m, k - 1, 0);
  }

  lemma OneLessHalved(k: nat, h: nat)
    requires k > 0 && h > 0
    ensures (k * (2 * h) - 2 * h) / h == 2 * (k - 1)
  {
    assert k * (2 * h) - 2 * h == (2 * (k - 1)) * h;
    DivModUnique(k * (2 * h) - 2 * h, h, 2 * (k - 1), 0);
  }

  lemma MaskQuotient(p: nat)
    requires 0 < p <= 32
    ensures Mask(p) / Pow2(32 - p) == Pow2(p) - 1
  {
    hide Pow2, Mask;
    Pow2Values();
    MaskValue(p);
    Pow2Product(p, 32 - p);
    OneLess(Pow2(p), Pow2(32 - p));
  }

  lemma MaskHalfQuotient(p: nat)
    requires 0 < p < 32
    ensures Mask(p) / Pow2(31 - p) == 2 * (Pow2(p) - 1)
  {
    hide Pow2, Mask;
    Pow2Values();
    MaskValue(p);
    Pow2Product(p, 32 - p);
    Pow2Step(31 - p);
    OneLessHalved(Pow2(p), Pow2(31 - p));
  }

  lemma NoMaskLeads()
    ensures LeadingOnes(Mask(0), 0)
  {
    hide Pow2;
    Pow2Step(0);
    NoOnes(0);
  }

  lemma MaskLeads(p: nat)
    requires p <= 32
    ensures LeadingOnes(Mask(p), p)
  {
    hide Pow2, Mask;
    if p == 0 {
      NoMaskLeads();
    } else {
      MaskQuotient(p);
      if p < 32 {
        MaskHalfQuotient(p);
      }
    }
  }

  lemma {:induction false} LeadsDown(x: word, q: nat, p: nat)
    requires p <= q <= 32 && x / Pow2(32 - q) == Pow2(q) - 1
    ensures x / Pow2(32 - p) == Pow2(p) - 1
    decreases q - p
  {
    hide Pow2;
    if p < q {
      Pow2Step(32 - q);
      Pow2Step(q - 1);
      DivThenHalf(x, Pow2(32 - q));
      LeadsDown(x, q - 1, p);
    }
  }

  lemma LeadsOnce(x: word, p: nat, q: nat)
    requires LeadingOnes(x, p) && LeadingOnes(x, q)
    ensures p >= q
  {
    hide Pow2;
    if p < q {
      LeadsDown(x, q, p + 1);
      Pow2Step(p);
      assert false;
    }
  }

  /** A proper mask is read back as its prefix, and as no other. */
  lemma MaskToPrefix(p: nat, q: nat)
    requires p <= 32
    ensures LeadingOnes(Mask(p), q) <==> q == p
  {
    hide LeadingOnes, Mask;
    MaskLeads(p);
    if LeadingOnes(Mask(p), q) {
      LeadsOnce(Mask(p), p, q);
      LeadsOnce(Mask(p), q, p);
    }
  }

  /** Masking an address clears the host bits. */
  lemma MaskClearsHostBits(a: word, prefix: nat)
    requires prefix <= 32
    ensures And(a, Mask(prefix)) == a - a % Pow2(32 - prefix)
  {
    hide And;
    Pow2Values();
    if prefix > 0 {
      MaskValue(prefix);
      AndHighMask(a, 32, 32 - prefix);
    } else {
      AndZero(a);
    }
  }

  lemma AndMaskIsWord(a: word, prefix: nat)
    requires prefix <= 32
    ensures And(a, Mask(prefix)) < WORD
  {
    MaskClearsHostBits(a, prefix);
  }

  lemma RoundDown(a: nat, m: nat)
    requires m > 0
    ensures (a - a % m) % m == 0 && a - a % m <= a < a - a % m + m
  {
    assert a == (a / m) * m + a % m;
    DivModUnique(a - a % m, m, a / m, 0);
  }

  /** The network of an address is the aligned block of that size around it. */
  lemma NetworkContains(a: word, prefix: nat)
    requires prefix <= 32
    ensures Cidr(Network(a, prefix), prefix).Valid(0)
    ensures Cidr(Network(a, prefix), prefix).Contains(a)
    ensures Network(a, prefix) == a <==> Multiple(a, 32 - prefix)
  {
    hide And, Multiple, Mask, Pow2;
    var e := 32 - prefix;
    RoundDown(a, Pow2(e));
    MaskClearsHostBits(a, prefix);
    MultipleIsMod(Network(a, prefix), e);
    MultipleIsMod(a, e);
  }

  // ---- both readers on printed specs ----

  predicate NoSpaces(s: string) { forall i :: 0 <= i < |s| ==> !IsSpace(s[i]) }

  lemma StripNothing(s: string)
    requires NoSpaces(s)
    ensures Strip(s) == s
  {
  }

  /** Clean text around one slash is taken apart there, by both readers. */
  lemma SplitAtSlash(address: string, prefixText: string)
    requires address != [] && prefixText != [] && NoSpaces(address) && NoSpaces(prefixText)
    requires '/' !in address && '/' !in prefixText
    ensures var spec := address + "/" + prefixText;
            && SplitSpec(Strip(spec)) == Some((address, prefixText))
            && IndexOf(spec, '/') == |address|
            && spec[..|address|] == address && spec[|address| + 1..] == prefixText
  {
    var spec := address + "/" + prefixText;
    assert spec == address + ['/'] + prefixText;
    IndexOfBehind(address, '/', prefixText);
    assert spec[..|address|] == address && spec[|address| + 1..] == prefixText;
    forall i | 0 <= i < |spec| ensures !IsSpace(spec[i]) {
      assert spec[i] == if i < |address| then address[i]
                        else if i == |address| then '/'
                        else prefixText[i - |address| - 1];
    }
    StripNothing(spec);
  }

  lemma PrefixOfDec(prefix: nat)
    requires prefix <= 32
    ensures ParsePrefix(Dec(prefix)) == Some(prefix) && Strtoul(Dec(prefix)).value == prefix
  {
    StrtoulOfDec(prefix, []);
    assert Dec(prefix) + [] == Dec(prefix);
  }

  lemma QuadHasNoSeparators(s: string)
    requires QuadChars(s)
    ensures NoSpaces(s) && '/' !in s
  {
  }

  /** The common end of the NetworkManager reader: the host bits are cleared. */
  lemma RouteOfAddress(address: string, a: word, prefixText: string, prefix: nat)
    requires prefix <= 32 && Pton(address) == Some(a) && ParsePrefix(prefixText) == Some(prefix)
    ensures RouteOf(address, prefixText) == Some(Cidr(Network(a, prefix), prefix))
  {
    hide Ntop, Pton, Network, ParsePrefix;
    PtonOfNtop(Network(a, prefix));
  }

  /**
    A printed spec through both readers: NetworkManager clears the host bits, netlink keeps
    them.
   */
  lemma PrintedSpec(address: string, a: word, prefix: nat)
    requires prefix <= 32 && Pton(address) == Some(a)
    ensures var spec := address + "/" + Dec(prefix);
            && ParseRouteSpec(spec) == Some(Cidr(Network(a, prefix), prefix))
            && NetlinkRoute(spec) == Some(Cidr(a, prefix))
  {
    hide Ntop, Pton, Dec, Network, Strtoul, ParsePrefix, RouteOf, SplitSpec, Strip;
    PtonOnlyNtop(address);
    NtopChars(a);
    DecIsDigits(prefix);
    var p := Dec(prefix);
    QuadHasNoSeparators(address);
    QuadHasNoSeparators(p);
    SplitAtSlash(address, p);
    PrefixOfDec(prefix);
    RouteOfAddress(address, a, p, prefix);
  }

  /** A printed block is read back as that block, by both readers. */
  lemma BlockThroughText(b: Cidr)
    requires b.Valid(0)
    ensures ParseRouteSpec(PrintCidr(b)) == Some(b) && NetlinkRoute(PrintCidr(b)) == Some(b)
  {
    hide Ntop, Pton, Dec, Network, ParseRouteSpec, NetlinkRoute;
    PtonOfNtop(b.base);
    PrintedSpec(Ntop(b.base), b.base, b.prefix);
    NetworkContains(b.base, b.prefix);
  }

  // ---- both readers on any spec ----

  predicate AllSpaces(s: string) { forall i :: 0 <= i < |s| ==> IsSpace(s[i]) }

  lemma {:induction false} StripLeftSplits(s: string) returns (lead: string)
    ensures s == lead + StripLeft(s) && AllSpaces(lead)
  {
    lead := "";
    if s != [] && IsSpace(s[0]) {
      var l := StripLeftSplits(s[1..]);
      lead := [s[0]] + l;
      assert s == [s[0]] + s[1..];
    }
  }

  lemma {:induction false} StripRightSplits(s: string) returns (trail: string)
    ensures s == StripRight(s) + trail && AllSpaces(trail)
  {
    trail := "";
    if s != [] && IsSpace(s[|s| - 1]) {
      var t := StripRightSplits(s[..|s| - 1]);
      trail := t + [s[|s| - 1]];
      assert s == s[..|s| - 1] + [s[|s| - 1]];
    }
  }

  lemma {:induction false} IndexOfFinds(s: string, c: char)
    ensures IndexOf(s, c) < |s| ==> s[IndexOf(s, c)] == c
    ensures c !in s[..IndexOf(s, c)]
  {
    if s != [] && s[0] != c {
      IndexOfFinds(s[1..], c);
      var i := IndexOf(s[1..], c);
      assert s[..1 + i] == [s[0]] + s[1..][..i];
    }
  }

  lemma {:induction false} SkipCSpaceKeeps(s: string, t: string)
    requires SkipCSpace(s) != []
    ensures SkipCSpace(s + t) == SkipCSpace(s) + t
  {
    if s != [] && IsCSpace(s[0]) {
      SkipCSpaceKeeps(s[1..], t);
      assert (s + t)[1..] == s[1..] + t;
    }
  }

  /** Blanks behind a number that fills its text do not change its value. */
  lemma StrtoulIgnoresTrail(s: string, trail: string)
    requires AllSpaces(trail)
    requires Strtoul(s).found && Strtoul(s).rest == []
    ensures Strtoul(s + trail).value == Strtoul(s).value
  {
    hide DecValue, SkipCSpace, DigitPrefix;
    var t := SkipCSpace(s);
    assert t != [];
    SkipCSpaceKeeps(s, trail);
    var signed := t[0] == '-' || t[0] == '+';
    var u := if signed then t[1..] else t;
    assert DigitPrefix(u) == |u|;
    assert u[..|u|] == u;
    DigitPrefixOf(u, trail);
    assert (if signed then (t + trail)[1..] else t + trail) == u + trail;
    assert (u + trail)[..|u|] == u;
  }

  lemma PtonHasNoSlash(s: string)
    requires Pton(s).Some?
    ensures '/' !in s
  {
    PtonOnlyNtop(s);
    NtopChars(Pton(s).value);
  }

  /** The shape of a spec that NetworkManager accepts. */
  lemma AcceptedSpec(spec: string) returns (lead: string, address: string, prefixText: string, trail: string)
    requires ParseRouteSpec(spec).Some?
    ensures AllSpaces(lead) && AllSpaces(trail)
    ensures spec == lead + (address + "/" + prefixText) + trail
    ensures ' ' !in prefixText && '\t' !in prefixText && '/' !in prefixText
    ensures Pton(address).Some? && ParsePrefix(prefixText) == Some(ParseRouteSpec(spec).value.prefix)
    ensures ParseRouteSpec(spec).value
            == Cidr(Network(Pton(address).value, ParseRouteSpec(spec).value.prefix), ParseRouteSpec(spec).value.prefix)
  {
    hide Pton, Ntop, Network, Strtoul;
    lead := StripLeftSplits(spec);
    trail := StripRightSplits(StripLeft(spec));
    var copy := Strip(spec);
    var slash := IndexOf(copy, '/');
    IndexOfFinds(copy, '/');
    address, prefixText := copy[..slash], copy[slash + 1..];
    assert copy == address + "/" + prefixText;
    RouteOfAddress(address, Pton(address).value, prefixText, ParsePrefix(prefixText).value);
  }

  /** The text in front of the first slash is an address. */
  predicate HasAddress(spec: string)
  {
    IndexOf(spec, '/') < |spec| && Pton(spec[..IndexOf(spec, '/')]).Some?
  }

  /** The number behind the first slash. */
  function PrefixNumber(spec: string): nat
  {
    if IndexOf(spec, '/') < |spec| then Strtoul(spec[IndexOf(spec, '/') + 1..]).value else 0
  }

  /** A spec that starts with an address whose bits behind the prefix are clear. */
  predicate Canonical(spec: string)
  {
    && HasAddress(spec) && PrefixNumber(spec) <= 32
    && Multiple(Pton(spec[..IndexOf(spec, '/')]).value, 32 - PrefixNumber(spec))
  }

  /**
    The source says the two readers always agree. On a spec that NetworkManager accepts they
    do if and only if an address stands in front, without a blank, and has no bits behind the
    prefix. On a spec that it rejects they agree if netlink finds no address either.
   */
  lemma ReadersAgree(spec: string)
    ensures NetlinkRoute(spec) == ParseRouteSpec(spec)
            <==> if ParseRouteSpec(spec).Some? then Canonical(spec) else !HasAddress(spec)
  {
    hide Pton, Ntop, Network, ParseRouteSpec, Strtoul;
    if ParseRouteSpec(spec).Some? {
      AcceptedAgree(spec);
    }
  }

  lemma AcceptedAgree(spec: string)
    requires ParseRouteSpec(spec).Some?
    ensures NetlinkRoute(spec) == ParseRouteSpec(spec) <==> Canonical(spec)
    ensures HasAddress(spec) ==> PrefixNumber(spec) == ParseRouteSpec(spec).value.prefix
  {
    hide Pton, Ntop, Network, ParseRouteSpec, Strtoul, Multiple;
    var lead, address, prefixText, trail := AcceptedSpec(spec);
    var front := lead + address;
    NetlinkReads(spec, lead, address, prefixText, trail);
    if Pton(front).Some? {
      NoLead(lead, address);
      assert front == address;
      NetworkContains(Pton(front).value, ParseRouteSpec(spec).value.prefix);
    }
  }

  /** An address read with something in front of it is the address read without it: nothing is. */
  lemma NoLead(lead: string, address: string)
    requires AllSpaces(lead) && Pton(lead + address).Some?
    ensures lead == ""
  {
    hide Pton, Ntop;
    var front := lead + address;
    assert lead != "" ==> IsSpace(front[0]);
    PtonOnlyNtop(front);
    NtopChars(Pton(front).value);
  }

  /** On a route of the user, which is stored without blanks around it, only host bits matter. */
  lemma UserRoutesAgree(spec: string)
    requires ParseRouteSpec(spec).Some? && Strip(spec) == spec
    ensures HasAddress(spec) && PrefixNumber(spec) <= 32
    ensures NetlinkRoute(spec) == ParseRouteSpec(spec)
            <==> Multiple(Pton(spec[..IndexOf(spec, '/')]).value, 32 - PrefixNumber(spec))
  {
    hide Pton, Ntop, Network, Strtoul, Multiple, Strip;
    AcceptedAgree(spec);
  }

  /** A route with host bits: netlink asks the kernel for 10.1.2.3/16, NetworkManager for 10.1.0.0/16. */
  lemma HostBitsDisagree()
    ensures NetlinkRoute("10.1.2.3/16") == Some(Cidr(0x0a01_0203, 16))
    ensures ParseRouteSpec("10.1.2.3/16") == Some(Cidr(0x0a01_0000, 16))
  {
    hide Ntop, Pton, Network, ParseRouteSpec, NetlinkRoute, Dec;
    HostBitsText();
    PtonOfNtop(0x0a01_0203);
    PrintedSpec("10.1.2.3", 0x0a01_0203, 16);
    assert "10.1.2.3" + "/" + "16" == "10.1.2.3/16";
    HostBitsCleared();
  }

  lemma HostBitsText()
    ensures Ntop(0x0a01_0203) == "10.1.2.3" && Dec(16) == "16"
  {
    var closed: seq<byte> := [10, 1, 2];
    assert HighBytes(0x0a01_0203) == closed;
    assert Dec(10) == Dec(1) + [DigitChar(0)] == "10" && Dec(16) == Dec(1) + [DigitChar(6)];
    assert closed[..2] == [10, 1] && closed[..2][..1] == [10] && closed[..2][..1][..0] == [];
    assert ClosedText(closed[..2][..1]) == "10.";
    assert ClosedText(closed[..2]) == "10.1.";
    assert ClosedText(closed) == "10.1.2.";
  }

  lemma HostBitsCleared()
    ensures Network(0x0a01_0203, 16) == 0x0a01_0000
  {
    hide Pow2, And, Mask;
    MaskClearsHostBits(0x0a01_0203, 16);
    Pow2Values();
  }

  lemma PlainPrefix(prefixText: string, trail: string)
    requires ParsePrefix(prefixText).Some? && AllSpaces(trail)
    ensures var p := Strtoul(prefixText + trail).value;
            p == ParsePrefix(prefixText).value && p <= 32 && p % WORD % 256 == p
  {
    hide Strtoul;
    StrtoulIgnoresTrail(prefixText, trail);
  }

  lemma NetlinkReads(spec: string, lead: string, address: string, prefixText: string, trail: string)
    requires AllSpaces(lead) && AllSpaces(trail) && spec == lead + (address + "/" + prefixText) + trail
    requires Pton(address).Some? && ParsePrefix(prefixText).Some?
    ensures var front := lead + address;
            && IndexOf(spec, '/') < |spec| && spec[..IndexOf(spec, '/')] == front
            && PrefixNumber(spec) == ParsePrefix(prefixText).value
            && NetlinkRoute(spec) == if Pton(front).None? then None
                                     else Some(Cidr(Pton(front).value, ParsePrefix(prefixText).value))
  {
    hide Pton, Strtoul, IndexOf, ParsePrefix;
    var front, rest := lead + address, prefixText + trail;
    PtonHasNoSlash(address);
    assert '/' !in front;
    assert spec == front + ['/'] + rest;
    IndexOfBehind(front, '/', rest);
    assert spec[..|front|] == front && spec[|front| + 1..] == rest;
    PlainPrefix(prefixText, trail);
  }

  // ---- exactly which specs are accepted ----

  lemma {:induction false} StripAround(lead: string, core: string, trail: string)
    requires AllSpaces(lead) && AllSpaces(trail)
    requires core != "" && !IsSpace(core[0]) && !IsSpace(core[|core| - 1])
    ensures Strip(lead + core + trail) == core
  {
    LeftAround(lead, core + trail);
    assert lead + core + trail == lead + (core + trail);
    RightAround(core, trail);
  }

  lemma {:induction false} LeftAround(lead: string, s: string)
    requires AllSpaces(lead) && s != "" && !IsSpace(s[0])
    ensures StripLeft(lead + s) == s
  {
    if lead == "" {
      assert lead + s == s;
    } else {
      assert (lead + s)[0] == lead[0] && (lead + s)[1..] == lead[1..] + s;
      LeftAround(lead[1..], s);
    }
  }

  lemma {:induction false} RightAround(s: string, trail: string)
    requires AllSpaces(trail) && s != "" && !IsSpace(s[|s| - 1])
    ensures StripRight(s + trail) == s
    decreases |trail|
  {
    var all := s + trail;
    if trail == "" {
      assert all == s;
    } else {
      assert all[|all| - 1] == trail[|trail| - 1] && all[..|all| - 1] == s + trail[..|trail| - 1];
      RightAround(s, trail[..|trail| - 1]);
    }
  }

  lemma {:induction false} SkipsToEnd(s: string)
    ensures var t := SkipCSpace(s); |t| <= |s| && s[|s| - |t|..] == t
  {
    if s != [] && IsCSpace(s[0]) {
      SkipsToEnd(s[1..]);
    }
  }

  /** A number that is read to its end ends with a digit. */
  lemma EndsWithDigit(s: string)
    requires Strtoul(s).found && Strtoul(s).rest == []
    ensures s != "" && IsDigit(s[|s| - 1])
  {
    hide SkipCSpace, DecValue;
    SkipsToEnd(s);
    var t := SkipCSpace(s);
    var u := if t != [] && (t[0] == '-' || t[0] == '+') then t[1..] else t;
    var n := DigitPrefix(u);
    assert n == |u| > 0;
    assert u[..n][n - 1] == u[|u| - 1] == t[|t| - 1] == s[|s| - 1];
  }

  /** Blanks, an address, a slash, a number without a space, a tab or another slash, and blanks. */
  predicate Shape(spec: string, lead: string, address: string, number: string, trail: string)
  {
    && AllSpaces(lead) && AllSpaces(trail) && spec == lead + (address + "/" + number) + trail
    && ' ' !in number && '\t' !in number && '/' !in number && Pton(address).Some?
  }

  /**
    NetworkManager's reader accepts exactly the specs of this shape whose number is at most 32,
    and clears the host bits.
   */
  lemma SpecExactly(spec: string, dest: word, prefix: nat)
    ensures ParseRouteSpec(spec) == Some(Cidr(dest, prefix))
            <==> prefix <= 32
                 && exists lead, address, number, trail ::
                      && Shape(spec, lead, address, number, trail)
                      && ParsePrefix(number) == Some(prefix) && dest == Network(Pton(address).value, prefix)
  {
    hide Pton, Ntop, Network, Strtoul, AllSpaces, ParseRouteSpec, ParsePrefix;
    if ParseRouteSpec(spec) == Some(Cidr(dest, prefix)) {
      var lead, address, number, trail := AcceptedSpec(spec);
      NumberIsSmall(number);
      assert Shape(spec, lead, address, number, trail);
    }
    if prefix <= 32 {
      if lead, address, number, trail :|
        && Shape(spec, lead, address, number, trail)
        && ParsePrefix(number) == Some(prefix) && dest == Network(Pton(address).value, prefix)
      {
        AcceptsShape(lead, address, number, trail, prefix);
      }
    }
  }

  lemma NumberIsSmall(number: string)
    ensures ParsePrefix(number).Some? ==> ParsePrefix(number).value <= 32
  {
  }

  lemma AcceptsShape(lead: string, address: string, number: string, trail: string, prefix: nat)
    requires AllSpaces(lead) && AllSpaces(trail) && ' ' !in number && '\t' !in number && '/' !in number
    requires Pton(address).Some? && ParsePrefix(number) == Some(prefix)
    ensures prefix <= 32
    ensures ParseRouteSpec(lead + (address + "/" + number) + trail)
            == Some(Cidr(Network(Pton(address).value, prefix), prefix))
  {
    hide Pton, Ntop, Network, Strtoul, Strip, RouteOf, AllSpaces, IndexOf;
    EndsWithDigit(number);
    PtonOnlyNtop(address);
    NtopChars(Pton(address).value);
    QuadHasNoSeparators(address);
    var core := address + "/" + number;
    assert core == address + ['/'] + number;
    StripAround(lead, core, trail);
    IndexOfBehind(address, '/', number);
    assert core[..|address|] == address && core[|address| + 1..] == number;
    assert ' ' !in core && '\t' !in core;
    RouteOfAddress(address, Pton(address).value, number, prefix);
  }

  /** On any printed number: netlink takes its low eight bits, NetworkManager only up to 32. */
  lemma PrintedNumber(a: word, n: nat)
    requires n < ULONG
    ensures NetlinkRoute(Ntop(a) + "/" + Dec(n)) == Some(Cidr(a, n % 256))
    ensures ParseRouteSpec(Ntop(a) + "/" + Dec(n)).Some? <==> n <= 32
  {
    hide Ntop, Pton, Dec, Network, Strtoul, RouteOf, Strip, SplitSpec, ParsePrefix, NetlinkRoute;
    var address, number := Ntop(a), Dec(n);
    PtonOfNtop(a);
    NtopChars(a);
    DecIsDigits(n);
    QuadHasNoSeparators(address);
    QuadHasNoSeparators(number);
    SplitAtSlash(address, number);
    StrtoulOfDec(n, []);
    assert number + [] == number;
    NumberDecides(address, a, number, n);
  }

  lemma NumberDecides(address: string, a: word, number: string, n: nat)
    requires Pton(address) == Some(a) && Strtoul(number) == Number(n, [], true, false)
    requires var spec := address + "/" + number;
             && SplitSpec(Strip(spec)) == Some((address, number)) && IndexOf(spec, '/') == |address| < |spec|
             && spec[..|address|] == address && spec[|address| + 1..] == number
    requires n < ULONG
    ensures NetlinkRoute(address + "/" + number) == Some(Cidr(a, n % 256))
    ensures ParseRouteSpec(address + "/" + number).Some? <==> n <= 32
  {
    hide Pton, Network, Strtoul, RouteOf, Strip, SplitSpec, IndexOf;
    if n <= 32 {
      RouteOfAddress(address, a, number, n);
    } else {
      NoRouteOf(address, number);
    }
  }

  lemma NoRouteOf(address: string, number: string)
    requires ParsePrefix(number) == None
    ensures RouteOf(address, number) == None
  {
  }
}
