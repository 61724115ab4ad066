/**
  `snx_ip4_range_to_cidrs`: cutting an inclusive address range into CIDR blocks
  (section 3.1 of RFC 4632). The greedy loop is related to `Blocks`, and `Blocks` is shown
  to be an exact, ordered partition with the fewest possible members.
 */
module IpRange {
  import opened Wrappers
  import opened Bits
  import opened Decimal
  import opened Ipv4Text

  datatype Cidr = Cidr(base: word, prefix: nat) {
    /** The block holds `2^Exp()` addresses. */
    function Exp(): nat { if prefix <= 32 then 32 - prefix else 0 }
    function Size(): nat { Pow2(Exp()) }
    function End(): nat { base + Size() }
    predicate Aligned() { Multiple(base, Exp()) }
    predicate Contains(x: int) { base <= x < End() }
    /** A block as the routing code can name it, with a prefix between `least` and 32. */
    predicate Valid(least: nat) { least <= prefix <= 32 && Aligned() }

    function Text(): string { Ntop(base) + "/" + Dec(prefix) }
  }

  /** An aligned block of `2^e` addresses starts at `lo` and ends no later than `hi`. */
  predicate Fits(lo: nat, hi: nat, e: nat)
  {
    Multiple(lo, e) && lo + Pow2(e) <= hi
  }

  /** Doubles a block from `2^e` addresses for as long as it fits, up to `2^cap`. */
  function Widest(cap: nat, lo: nat, hi: nat, e: nat): (w: nat)
    requires e <= cap && Fits(lo, hi, e)
    ensures w <= cap
    decreases cap - e, hi
  {
    if e < cap && Fits(lo, hi, e + 1) then Widest(cap, lo, hi, e + 1) else e
  }

  function First(cap: nat, lo: nat, hi: nat): (e: nat)
    requires cap <= 32 && lo < hi
    ensures e <= cap
  {
    Widest(cap, lo, hi, 0)
  }

  lemma {:induction false} WidestFits(cap: nat, lo: nat, hi: nat, e: nat)
    requires e <= cap && Fits(lo, hi, e)
    ensures Fits(lo, hi, Widest(cap, lo, hi, e))
    ensures Widest(cap, lo, hi, e) < cap ==> !Fits(lo, hi, Widest(cap, lo, hi, e) + 1)
    decreases cap - e
  {
    if e < cap && Fits(lo, hi, e + 1) {
      WidestFits(cap, lo, hi, e + 1);
    }
  }

  /** The first block fits, and one twice as wide does not (or would not be allowed). */
  lemma FirstFits(cap: nat, lo: nat, hi: nat)
    requires cap <= 32 && lo < hi
    ensures var e := First(cap, lo, hi); Fits(lo, hi, e) && (e < cap ==> !Fits(lo, hi, e + 1))
  {
    WidestFits(cap, lo, hi, 0);
  }

  /** The greedy cut of `[lo, hi)` into blocks of at most `2^cap` addresses. */
  function Blocks(cap: nat, lo: nat, hi: nat): (bs: seq<Cidr>)
    requires cap <= 32 && hi <= WORD
    decreases hi - lo
  {
    if lo >= hi then []
    else
      var e := First(cap, lo, hi);
      [Cidr(lo, 32 - e)] + Blocks(cap, lo + Pow2(e), hi)
  }

  /** The widest block the C loop can represent: its 32-bit size wraps at `2^32`. */
  const CAP: nat := 31

  const PrintCidr: Cidr -> string := (b: Cidr) => b.Text()

  lemma {:induction false} BasesInRange(cap: nat, lo: nat, hi: nat)
    requires cap <= 32 && hi <= WORD
    ensures forall b :: b in Blocks(cap, lo, hi) ==> lo <= b.base < hi && b.End() <= hi
    ensures forall b :: b in Blocks(cap, lo, hi) ==> b.Valid(32 - cap)
    decreases hi - lo
  {
    hide First, Pow2, Multiple;
    if lo < hi {
      var e := First(cap, lo, hi);
      FirstFits(cap, lo, hi);
      BasesInRange(cap, lo + Pow2(e), hi);
    }
  }

  /**
    The inner loop of the source, in its 32-bit arithmetic: it stops doubling where the
    size would wrap, the start is not aligned, or the block would pass the end.
   */
  method WidestBlock(from: word, to: word) returns (prefix: nat, size: word)
    requires from <= to
    ensures 1 <= prefix <= 32 && size == Pow2(32 - prefix)
    ensures 32 - prefix == First(CAP, from, to + 1)
  {
    hide And, Multiple, Pow2, First;
    StartsNarrow(from, to);
    prefix, size := 32, 1;
    while true
      invariant 1 <= prefix <= 32 && size == Pow2(32 - prefix)
      invariant Fits(from, to + 1, 32 - prefix)
      invariant Widest(CAP, from, to + 1, 32 - prefix) == First(CAP, from, to + 1)
      decreases prefix
    {
      var nextSize: word := (size * 2) % WORD;
      SizeDoubles(32 - prefix, size);
      if nextSize == 0 {
        break;
      }
      MaskTestsAlignment(from, 33 - prefix);
      if And(from, nextSize - 1) != 0 {
        break;
      }
      if from + nextSize - 1 > to {
        break;
      }
      prefix := prefix - 1;
      size := nextSize;
    }
  }

  lemma StartsNarrow(from: word, to: word)
    requires from <= to
    ensures Pow2(0) == 1 && Fits(from, to + 1, 0) && Widest(CAP, from, to + 1, 0) == First(CAP, from, to + 1)
  {
  }

  /**
    The loop of the source prints the greedy cut; no addition in it wraps. `show` is the
    printing of one block, `PrintCidr` in the source.
   */
  method RangeToCidrs(show: Cidr -> string, start: word, to: word) returns (specs: seq<string>)
    ensures specs == Map(show, Blocks(CAP, start, to + 1))
  {
    hide Blocks, First, Map;
    var from: word := start;
    specs := [];
    if from > to {
      EmptyCut(show, from, to);
      return;
    }
    ghost var all := Map(show, Blocks(CAP, start, to + 1));
    ghost var rest := all;
    while true
      invariant from <= to
      invariant rest == Map(show, Blocks(CAP, from, to + 1))
      invariant specs + rest == all
      decreases WORD - from
    {
      var prefix, size := WidestBlock(from, to);
      var spec := show(Cidr(from, prefix));
      rest := PrintStep(CAP, show, from, to, prefix, size, rest);
      specs := specs + [spec];
      if from + size > to {
        break;
      }
      from := from + size;
    }
  }

  lemma EmptyCut(show: Cidr -> string, from: word, to: word)
    requires from > to
    ensures Map(show, Blocks(CAP, from, to + 1)) == []
  {
  }

  lemma PrintStep(cap: nat, show: Cidr -> string, from: word, to: word, prefix: nat, size: word,
                  rest: seq<string>) returns (later: seq<string>)
    requires cap <= 32 && from <= to && prefix <= 32 && 32 - prefix == First(cap, from, to + 1)
    requires size == Pow2(32 - prefix)
    requires rest == Map(show, Blocks(cap, from, to + 1))
    ensures later == Map(show, Blocks(cap, from + size, to + 1))
    ensures rest == [show(Cidr(from, prefix))] + later
    ensures from + size > to ==> later == []
  {
    hide Blocks, First, Map, Pow2;
    if from + size > to {
      NothingToCut(cap, from + size, to + 1);
      MapNothing(show);
    }
    var bs := Blocks(cap, from + size, to + 1);
    later := Map(show, bs);
    BlocksStep(cap, from, to + 1, 32 - prefix);
    MapSplit(show, Cidr(from, prefix), bs);
  }

  lemma MapNothing(show: Cidr -> string)
    ensures Map(show, []) == []
  {
  }

  lemma BlocksStep(cap: nat, lo: nat, hi: nat, e: nat)
    requires cap <= 32 && lo < hi <= WORD && e == First(cap, lo, hi)
    ensures Blocks(cap, lo, hi) == [Cidr(lo, 32 - e)] + Blocks(cap, lo + Pow2(e), hi)
  {
  }

  lemma MaskTestsAlignment(x: nat, e: nat)
    ensures And(x, Pow2(e) - 1) == 0 <==> Multiple(x, e)
  {
    AndLowMask(x, e);
    MultipleIsMod(x, e);
  }

  lemma SizeDoubles(e: nat, size: nat)
    requires e <= 31 && size == Pow2(e)
    ensures (size * 2) % WORD == if e == 31 then 0 else Pow2(e + 1)
    ensures e < 31 ==> Pow2(e + 1) < WORD
  {
    Pow2Values();
    if e < 31 {
      Pow2Monotonic(e + 1, 31);
    }
  }

  // ---- exact partition ----

  ghost predicate Covered(bs: seq<Cidr>, x: int)
  {
    exists i :: 0 <= i < |bs| && bs[i].Contains(x)
  }

  ghost predicate Ascending(bs: seq<Cidr>)
  {
    forall i, j :: 0 <= i < j < |bs| ==> bs[i].End() <= bs[j].base
  }

  /** Aligned, ascending, disjoint blocks whose union is exactly `[lo, hi)`. */
  lemma ExactPartition(cap: nat, lo: nat, hi: nat)
    requires cap <= 32 && hi <= WORD
    ensures forall b :: b in Blocks(cap, lo, hi) ==> b.Valid(32 - cap)
    ensures Ascending(Blocks(cap, lo, hi))
    ensures forall x :: Covered(Blocks(cap, lo, hi), x) <==> lo <= x < hi
  {
    BasesInRange(cap, lo, hi);
    BlocksAscend(cap, lo, hi);
    BlocksCover(cap, lo, hi);
  }

  lemma {:induction false} BlocksAscend(cap: nat, lo: nat, hi: nat)
    requires cap <= 32 && hi <= WORD
    ensures Ascending(Blocks(cap, lo, hi))
    decreases hi - lo
  {
    if lo < hi {
      var e := First(cap, lo, hi);
      BlocksStep(cap, lo, hi, e);
      BlocksAscend(cap, lo + Pow2(e), hi);
      StartsLater(cap, lo + Pow2(e), hi, Cidr(lo, 32 - e));
      AscendingCons(Cidr(lo, 32 - e), Blocks(cap, lo + Pow2(e), hi));
    }
  }

  lemma StartsLater(cap: nat, mid: nat, hi: nat, b: Cidr)
    requires cap <= 32 && hi <= WORD && b.End() == mid
    ensures forall c :: c in Blocks(cap, mid, hi) ==> b.End() <= c.base
  {
    BasesInRange(cap, mid, hi);
  }

  lemma {:induction false} BlocksCover(cap: nat, lo: nat, hi: nat)
    requires cap <= 32 && hi <= WORD
    ensures forall x :: Covered(Blocks(cap, lo, hi), x) <==> lo <= x < hi
    decreases hi - lo
  {
    if lo < hi {
      var e := First(cap, lo, hi);
      FirstFits(cap, lo, hi);
      BlocksStep(cap, lo, hi, e);
      BlocksCover(cap, lo + Pow2(e), hi);
      CoveredCons(Cidr(lo, 32 - e), Blocks(cap, lo + Pow2(e), hi));
    }
  }

  lemma AscendingCons(b: Cidr, bs: seq<Cidr>)
    requires Ascending(bs) && forall c :: c in bs ==> b.End() <= c.base
    ensures Ascending([b] + bs)
  {
  }

  lemma CoveredCons(b: Cidr, bs: seq<Cidr>)
    ensures forall x :: Covered([b] + bs, x) <==> b.Contains(x) || Covered(bs, x)
  {
    var cs := [b] + bs;
    forall x ensures Covered(cs, x) <==> b.Contains(x) || Covered(bs, x) {
      if b.Contains(x) {
        assert cs[0].Contains(x);
      }
      if Covered(bs, x) {
        var i :| 0 <= i < |bs| && bs[i].Contains(x);
        assert cs[i + 1].Contains(x);
      }
    }
  }

  // ---- fewest blocks ----

  ghost predicate InSome(s: set<Cidr>, x: int)
  {
    exists b :: b in s && b.Contains(x)
  }

  /** A set of blocks with prefixes `least..32` whose union is exactly `[lo, hi)`. */
  ghost predicate Covers(s: set<Cidr>, least: nat, lo: nat, hi: nat)
  {
    && (forall b :: b in s ==> b.Valid(least))
    && (forall x :: InSome(s, x) <==> lo <= x < hi)
  }

  /** No aligned block that starts at `lo` and fits is wider than the greedy one. */
  lemma FirstIsWidest(cap: nat, lo: nat, hi: nat, e: nat)
    requires cap <= 32 && lo < hi && e <= cap && Fits(lo, hi, e)
    ensures e <= First(cap, lo, hi)
  {
    var w := First(cap, lo, hi);
    FirstFits(cap, lo, hi);
    if e > w {
      MultipleOfSmaller(lo, w + 1, e);
      Pow2Monotonic(w + 1, e);
      assert false;
    }
  }

  /** Every block of a cover that starts before the first greedy block ends, ends in it too. */
  lemma BlockStaysInside(cap: nat, s: set<Cidr>, lo: nat, hi: nat, b: Cidr)
    requires cap <= 32 && lo < hi && Covers(s, 32 - cap, lo, hi)
    requires b in s && b.base < lo + Pow2(First(cap, lo, hi))
    ensures lo <= b.base && b.End() <= lo + Pow2(First(cap, lo, hi))
  {
    hide First, Multiple, Pow2;
    var w := First(cap, lo, hi);
    FirstFits(cap, lo, hi);
    assert b.Contains(b.base) && b.Contains(b.End() - 1);
    assert InSome(s, b.base) && InSome(s, b.End() - 1);
    if b.Exp() <= w {
      MultipleNext(lo, w);
      MultipleOfSmaller(lo + Pow2(w), b.Exp(), w);
      MultiplesAreApart(b.base, lo + Pow2(w), b.Exp());
    } else {
      MultipleOfSmaller(b.base, w, b.Exp());
      if lo < b.base {
        MultiplesAreApart(lo, b.base, w);
      }
      FirstIsWidest(cap, lo, hi, b.Exp());
    }
  }

  /** The blocks of a cover behind the first greedy block cover what that block leaves. */
  lemma RestIsCovered(cap: nat, s: set<Cidr>, lo: nat, hi: nat, rest: set<Cidr>)
    requires cap <= 32 && lo < hi && Covers(s, 32 - cap, lo, hi)
    requires rest == set b | b in s && b.base >= lo + Pow2(First(cap, lo, hi))
    ensures Covers(rest, 32 - cap, lo + Pow2(First(cap, lo, hi)), hi)
  {
    var mid := lo + Pow2(First(cap, lo, hi));
    FirstFits(cap, lo, hi);
    forall x ensures InSome(rest, x) <==> mid <= x < hi {
      if InSome(rest, x) {
        var b :| b in rest && b.Contains(x);
        assert b in s;
        assert InSome(s, x);
      }
      if mid <= x < hi {
        assert InSome(s, x);
        var b :| b in s && b.Contains(x);
        if b.base < mid {
          BlockStaysInside(cap, s, lo, hi, b);
        }
        assert b in rest;
      }
    }
  }

  /** No set of blocks with prefixes `32 - cap .. 32` covers the range with fewer members. */
  lemma {:induction false} FewestBlocks(cap: nat, s: set<Cidr>, lo: nat, hi: nat)
    requires cap <= 32 && hi <= WORD && Covers(s, 32 - cap, lo, hi)
    ensures |Blocks(cap, lo, hi)| <= |s|
    decreases hi - lo
  {
    if lo < hi {
      var mid := lo + Pow2(First(cap, lo, hi));
      var rest := set b | b in s && b.base >= mid;
      RestIsCovered(cap, s, lo, hi, rest);
      FewestBlocks(cap, rest, mid, hi);
      assert InSome(s, lo);
      var b :| b in s && b.Contains(lo);
      assert b !in rest;
      assert rest + {b} <= s;
      SubsetSize(rest + {b}, s);
    }
  }

  lemma SubsetSize<T>(a: set<T>, b: set<T>)
    requires a <= b
    ensures |a| <= |b|
  {
    assert b == a + (b - a);
  }

  /** The blocks of the greedy cut, as a set: no two are equal, and they are a cover. */
  lemma GreedyIsCover(cap: nat, lo: nat, hi: nat) returns (s: set<Cidr>)
    requires cap <= 32 && hi <= WORD
    ensures s == set b | b in Blocks(cap, lo, hi)
    ensures |s| == |Blocks(cap, lo, hi)| && Covers(s, 32 - cap, lo, hi)
  {
    var bs := Blocks(cap, lo, hi);
    s := set b | b in bs;
    ExactPartition(cap, lo, hi);
    AscendingHasNoDuplicates(bs);
    forall x ensures InSome(s, x) <==> lo <= x < hi {
      assert Covered(bs, x) <==> lo <= x < hi;
      if InSome(s, x) {
        var b :| b in s && b.Contains(x);
        var i :| 0 <= i < |bs| && bs[i] == b;
        assert Covered(bs, x);
      }
      if Covered(bs, x) {
        var i :| 0 <= i < |bs| && bs[i].Contains(x);
        assert bs[i] in s;
      }
    }
  }

  lemma {:induction false} AscendingHasNoDuplicates(bs: seq<Cidr>)
    requires Ascending(bs)
    ensures |set b | b in bs| == |bs|
  {
    if bs != [] {
      var rest := bs[1..];
      AscendingHasNoDuplicates(rest);
      var s := set b | b in rest;
      assert bs[0] !in s;
      assert (set b | b in bs) == {bs[0]} + s;
    }
  }

  /**
    The 32-bit size counter costs a block on one range only: the whole address space,
    which a single block of prefix 0 would cover.
   */
  lemma PrefixZeroOnlyHelpsFullRange(start: word, to: word)
    requires start <= to
    ensures (exists s :: Covers(s, 0, start, to + 1) && |s| < |Blocks(CAP, start, to + 1)|)
            <==> start == 0 && to == WORD - 1
    ensures start == 0 && to == WORD - 1
            ==> Blocks(CAP, start, to + 1) == [Cidr(0, 1), Cidr(0x8000_0000, 1)]
  {
    var lo, hi := start, to + 1;
    if start == 0 && to == WORD - 1 {
      FullRangeTwoHalves();
      OneBlockCoversAll();
      var one := {Cidr(0, 0)};
      assert Covers(one, 0, lo, hi) && |one| == 1;
    } else {
      SameBelowFullRange(lo, hi);
      forall s | Covers(s, 0, lo, hi) ensures |s| >= |Blocks(CAP, lo, hi)| {
        FewestBlocks(32, s, lo, hi);
      }
    }
  }

  lemma OneBlockCoversAll()
    ensures Covers({Cidr(0, 0)}, 0, 0, WORD)
  {
    Pow2Values();
    var all := Cidr(0, 0);
    MultipleZero(32);
    assert all.Valid(0) && all.End() == WORD;
    forall x ensures InSome({all}, x) <==> 0 <= x < WORD {
      assert all.Contains(x) <==> 0 <= x < WORD;
    }
  }

  lemma FullRangeTwoHalves()
    ensures Blocks(CAP, 0, WORD) == [Cidr(0, 1), Cidr(0x8000_0000, 1)]
  {
    Pow2Values();
    MultipleZero(31);
    FirstIsWidest(CAP, 0, WORD, 31);
    BlocksStep(CAP, 0, WORD, 31);
    UpperHalf();
  }

  lemma UpperHalf()
    ensures Blocks(CAP, 0x8000_0000, WORD) == [Cidr(0x8000_0000, 1)]
  {
    Pow2Values();
    MultipleZero(31);
    MultipleNext(0, 31);
    FirstIsWidest(CAP, 0x8000_0000, WORD, 31);
    BlocksStep(CAP, 0x8000_0000, WORD, 31);
    assert Blocks(CAP, WORD, WORD) == [];
  }

  lemma {:induction false} SameBelowFullRange(lo: nat, hi: nat)
    requires hi <= WORD && (lo > 0 || hi < WORD)
    ensures Blocks(31, lo, hi) == Blocks(32, lo, hi)
    decreases hi - lo
  {
    if lo < hi {
      FirstAgrees(lo, hi);
      SameBelowFullRange(lo + Pow2(First(32, lo, hi)), hi);
    }
  }

  lemma FirstAgrees(lo: nat, hi: nat)
    requires lo < hi <= WORD && (lo > 0 || hi < WORD)
    ensures First(31, lo, hi) == First(32, lo, hi)
  {
    var e := First(32, lo, hi);
    FirstFits(32, lo, hi);
    FirstFits(31, lo, hi);
    FirstIsWidest(32, lo, hi, First(31, lo, hi));
    if e == 32 {
      Pow2Values();
      assert false;
    }
    FirstIsWidest(31, lo, hi, e);
  }

  // ---- shape: sizes rise, then fall ----

  ghost predicate Rising(bs: seq<Cidr>)
  {
    forall i, j :: 0 <= i < j < |bs| ==> bs[i].Exp() < bs[j].Exp()
  }

  ghost predicate Falling(bs: seq<Cidr>)
  {
    forall i, j :: 0 <= i < j < |bs| ==> bs[i].Exp() > bs[j].Exp()
  }

  /** Once the end of the range is what limits a block, every later block is smaller. */
  lemma {:induction false} FallsToTheEnd(lo: nat, hi: nat, m: nat)
    requires m <= 32 && hi <= WORD && Multiple(lo, m) && hi < lo + Pow2(m)
    ensures Falling(Blocks(CAP, lo, hi))
    ensures forall b :: b in Blocks(CAP, lo, hi) ==> b.Exp() < m
    decreases hi - lo
  {
    hide Blocks, First, Multiple, Pow2, Falling;
    if lo < hi {
      var e := First(CAP, lo, hi);
      FallStep(lo, hi, m);
      FallsToTheEnd(lo + Pow2(e), hi, e);
      FallingCons(Cidr(lo, 32 - e), Blocks(CAP, lo + Pow2(e), hi));
      BlocksStep(CAP, lo, hi, e);
    } else {
      NothingToCut(CAP, lo, hi);
      NothingFalls();
    }
  }

  lemma NothingFalls()
    ensures Falling([])
  {
  }

  lemma FallingCons(b: Cidr, bs: seq<Cidr>)
    requires Falling(bs) && forall c :: c in bs ==> c.Exp() < b.Exp()
    ensures Falling([b] + bs)
  {
  }

  lemma FallStep(lo: nat, hi: nat, m: nat)
    requires m <= 32 && lo < hi && Multiple(lo, m) && hi < lo + Pow2(m)
    ensures var e := First(CAP, lo, hi);
            e < m && Multiple(lo + Pow2(e), e) && hi < lo + Pow2(e) + Pow2(e)
  {
    hide First, Multiple, Pow2;
    var e := First(CAP, lo, hi);
    FirstFits(CAP, lo, hi);
    if m <= e {
      Pow2Monotonic(m, e);
      assert false;
    }
    Pow2Step(e);
    MultipleNext(lo, e);
    MultipleOfSmaller(lo, e + 1, m);
  }

  /** Either the end of the range limits every later block to `2^m`, or the next one is wider. */
  lemma NextBlock(lo: nat, hi: nat) returns (last: bool, m: nat)
    requires lo < hi <= WORD && (lo > 0 || hi < WORD)
    ensures var e := First(CAP, lo, hi);
            var mid := lo + Pow2(e);
            if last then m in {e, e + 1} && Multiple(mid, m) && hi < mid + Pow2(m)
            else mid < hi && e < First(CAP, mid, hi)
  {
    hide First, Multiple, Pow2;
    var e := First(CAP, lo, hi);
    var mid := lo + Pow2(e);
    FirstFits(CAP, lo, hi);
    Pow2Step(e);
    last, m := true, e;
    if hi < lo + Pow2(e + 1) {
      MultipleNext(lo, e);
    } else {
      StoppedByAlignment(lo, hi, e);
      MultipleOdd(lo, e);
      m := e + 1;
      if mid + Pow2(e + 1) <= hi {
        last := false;
        WidthBound(mid, hi, e + 1);
        FirstIsWidest(CAP, mid, hi, e + 1);
      }
    }
  }

  lemma StoppedByAlignment(lo: nat, hi: nat, e: nat)
    requires lo < hi <= WORD && (lo > 0 || hi < WORD)
    requires e == First(CAP, lo, hi) && lo + Pow2(e + 1) <= hi
    ensures !Multiple(lo, e + 1)
  {
    FirstFits(CAP, lo, hi);
    if Multiple(lo, e + 1) {
      assert e == 31;
      Pow2Values();
      assert false;
    }
  }

  lemma WidthBound(mid: nat, hi: nat, k: nat)
    requires 0 < mid && mid + Pow2(k) <= hi <= WORD
    ensures k <= 31
  {
    Pow2Values();
    var j := if k < 32 then 32 else k;
    Pow2Monotonic(32, j);
  }

  /** Sizes strictly rise for `p` blocks and strictly fall after; only the peak may repeat. */
  ghost predicate PeaksAt(bs: seq<Cidr>, p: nat)
  {
    && p <= |bs|
    && Rising(bs[..p]) && Falling(bs[p..])
    && (0 < p < |bs| ==> bs[p - 1].Exp() >= bs[p].Exp())
  }

  lemma FullRangePeaks()
    ensures PeaksAt(Blocks(CAP, 0, WORD), 1)
  {
    hide Blocks;
    FullRangeTwoHalves();
  }

  lemma {:induction false} RisesThenFalls(lo: nat, hi: nat) returns (p: nat)
    requires lo < hi <= WORD
    ensures 1 <= p && PeaksAt(Blocks(CAP, lo, hi), p)
    decreases hi - lo
  {
    hide PeaksAt, Blocks, First, Multiple, Pow2;
    p := 1;
    if lo == 0 && hi == WORD {
      FullRangePeaks();
      return;
    }
    var e := First(CAP, lo, hi);
    var mid := lo + Pow2(e);
    var last, m := NextBlock(lo, hi);
    if last {
      FallsToTheEnd(mid, hi, m);
      PeakFirst(CAP, lo, hi);
    } else {
      var q := RisesThenFalls(mid, hi);
      PeakLater(CAP, lo, hi, q);
      p := q + 1;
    }
  }

  lemma PeakFirst(cap: nat, lo: nat, hi: nat)
    requires cap <= 32 && lo < hi <= WORD
    requires var e := First(cap, lo, hi);
             var rest := Blocks(cap, lo + Pow2(e), hi);
             Falling(rest) && forall c :: c in rest ==> c.Exp() <= e
    ensures PeaksAt(Blocks(cap, lo, hi), 1)
  {
    var e := First(cap, lo, hi);
    BlocksStep(cap, lo, hi, e);
    PeakCons(Cidr(lo, 32 - e), Blocks(cap, lo + Pow2(e), hi));
  }

  lemma PeakCons(b: Cidr, rest: seq<Cidr>)
    requires Falling(rest) && forall c :: c in rest ==> c.Exp() <= b.Exp()
    ensures PeaksAt([b] + rest, 1)
  {
    assert ([b] + rest)[1..] == rest;
  }

  lemma PeakLater(cap: nat, lo: nat, hi: nat, q: nat)
    requires cap <= 32 && lo < hi <= WORD && 1 <= q
    requires var mid := lo + Pow2(First(cap, lo, hi));
             mid < hi && First(cap, lo, hi) < First(cap, mid, hi) && PeaksAt(Blocks(cap, mid, hi), q)
    ensures PeaksAt(Blocks(cap, lo, hi), q + 1)
  {
    var e := First(cap, lo, hi);
    var mid := lo + Pow2(e);
    BlocksStep(cap, lo, hi, e);
    BlocksStep(cap, mid, hi, First(cap, mid, hi));
    PeakRises(Cidr(lo, 32 - e), Blocks(cap, mid, hi), q);
  }

  lemma PeakRises(b: Cidr, rest: seq<Cidr>, q: nat)
    requires rest != [] && b.Exp() < rest[0].Exp() && PeaksAt(rest, q) && 1 <= q
    ensures PeaksAt([b] + rest, q + 1)
  {
    var bs := [b] + rest;
    RisingCons(b, rest[..q]);
    assert bs[..q + 1] == [b] + rest[..q] && bs[q + 1..] == rest[q..];
  }

  lemma RisingCons(b: Cidr, bs: seq<Cidr>)
    requires bs != [] && b.Exp() < bs[0].Exp() && Rising(bs)
    ensures Rising([b] + bs)
  {
    var cs := [b] + bs;
    forall i, j | 0 <= i < j < |cs| ensures cs[i].Exp() < cs[j].Exp() {
      if i == 0 && j > 1 {
        assert bs[0].Exp() < bs[j - 1].Exp();
      }
    }
  }

  lemma {:induction false} RisingLength(bs: seq<Cidr>)
    requires bs != [] && Rising(bs)
    ensures |bs| <= bs[|bs| - 1].Exp() + 1
  {
    if |bs| > 1 {
      var init := bs[..|bs| - 1];
      RisingLength(init);
      assert bs[|bs| - 2].Exp() < bs[|bs| - 1].Exp();
    }
  }

  lemma {:induction false} FallingLength(bs: seq<Cidr>)
    requires bs != [] && Falling(bs)
    ensures |bs| <= bs[0].Exp() + 1
  {
    if |bs| > 1 {
      FallingLength(bs[1..]);
      assert bs[0].Exp() > bs[1].Exp();
    }
  }

  /** The part up to the peak: no two sizes are equal, and none exceeds the peak. */
  lemma RisingPart(bs: seq<Cidr>, p: nat)
    requires 1 <= p <= |bs| && PeaksAt(bs, p)
    ensures p <= bs[p - 1].Exp() + 1
  {
    hide Falling;
    RisingLength(bs[..p]);
    assert bs[..p][p - 1] == bs[p - 1];
  }

  /** The part behind it, which starts no wider than the peak. */
  lemma FallingPart(bs: seq<Cidr>, p: nat)
    requires 1 <= p < |bs| && PeaksAt(bs, p)
    ensures |bs| - p <= bs[p].Exp() + 1 <= bs[p - 1].Exp() + 1
  {
    hide Rising;
    FallingLength(bs[p..]);
  }

  /** At most 62 routes come out of one gateway range. */
  lemma AtMost62(start: word, to: word)
    ensures |Blocks(CAP, start, to + 1)| <= 62
  {
    hide Blocks, PeaksAt, Multiple;
    if start <= to {
      var lo, hi := start, to + 1;
      var bs := Blocks(CAP, lo, hi);
      var p := RisesThenFalls(lo, hi);
      PeakInside(bs, p);
      AtMostHalfSpace(lo, hi);
      assert bs != [] ==> bs[p - 1] in bs;
      RisingPart(bs, p);
      if p < |bs| {
        FallingPart(bs, p);
        if bs[p - 1].Exp() == 31 {
          HalfSpacePeak(lo, hi, p);
        }
      }
    } else {
      NothingToCut(CAP, start, to + 1);
    }
  }

  lemma PeakInside(bs: seq<Cidr>, p: nat)
    requires PeaksAt(bs, p)
    ensures p <= |bs|
  {
  }

  lemma AtMostHalfSpace(lo: nat, hi: nat)
    requires hi <= WORD
    ensures forall b :: b in Blocks(CAP, lo, hi) ==> b.Exp() <= 31
  {
    hide Blocks, Multiple;
    BasesInRange(CAP, lo, hi);
  }

  lemma NothingToCut(cap: nat, lo: nat, hi: nat)
    requires hi <= lo && hi <= WORD && cap <= 32
    ensures Blocks(cap, lo, hi) == []
  {
  }

  /** A peak of `2^31` addresses that is not the last block starts at address 0. */
  lemma HalfSpacePeak(lo: nat, hi: nat, p: nat)
    requires hi <= WORD && 1 <= p < |Blocks(CAP, lo, hi)|
    requires Blocks(CAP, lo, hi)[p - 1].Exp() == 31
    ensures p == 1
  {
    Pow2Values();
    var bs := Blocks(CAP, lo, hi);
    ExactPartition(CAP, lo, hi);
    BasesInRange(CAP, lo, hi);
    var b := bs[p - 1];
    assert b in bs && bs[p] in bs;
    assert b.End() <= bs[p].base < WORD;
    if b.base > 0 {
      MultipleZero(31);
      MultiplesAreApart(0, b.base, 31);
      assert false;
    }
    assert bs[0].End() > 0;
  }
}
