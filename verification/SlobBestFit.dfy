/**
 best_fit: the search over the partially free pages of one size class, and what
 slob_page_alloc does when it is started at the block found.
 */
module SlobBestFit {
  import opened Common
  import opened SlobBlocks
  import opened SlobSpec
  import opened SlobPage

  /** One free block met by the search: its page, its index there, its size, and the alignment skip. */
  datatype Cand = Cand(page: nat, k: nat, avail: nat, delta: nat) {
    predicate Fits(units: nat) { avail >= units + delta }
    predicate Exact(units: nat) { avail == units + delta }
  }

  ghost function CandAt(s: PageState, page: nat, align: nat, k: nat): Cand
    requires align == 0 || IsPow2(align)
    requires k < |s.blocks|
  {
    Cand(page, k, s.blocks[k].size, Delta(s.base, s.blocks[k].off, align))
  }

  /** The first m blocks of a page. */
  ghost function PageCands(s: PageState, page: nat, align: nat, m: nat): seq<Cand>
    requires align == 0 || IsPow2(align)
    requires m <= |s.blocks|
  {
    if m == 0 then [] else PageCands(s, page, align, m - 1) + [CandAt(s, page, align, m - 1)]
  }

  /** Every block of the first i pages, in the order the search meets them. */
  ghost function Cands(ss: seq<PageState>, align: nat, i: nat): seq<Cand>
    requires align == 0 || IsPow2(align)
    requires i <= |ss|
  {
    if i == 0 then [] else Cands(ss, align, i - 1) + PageCands(ss[i - 1], i - 1, align, |ss[i - 1].blocks|)
  }

  /** The search so far: the block held as best, and whether it stopped at an exact fit. */
  datatype Pick = Pick(best: Option<Cand>, stopped: bool)

  function Consider(p: Pick, c: Cand, units: nat): Pick {
    if p.stopped then p
    else if c.Fits(units) && (p.best.None? || c.avail < p.best.value.avail) then Pick(Some(c), c.Exact(units))
    else p
  }

  ghost function PickFrom(cs: seq<Cand>, units: nat): Pick {
    if cs == [] then Pick(None, false) else Consider(PickFrom(cs[..|cs| - 1], units), cs[|cs| - 1], units)
  }

  /** b is at position i and fits, every block before it that fits is larger, and none after is smaller unless b is exact. */
  ghost predicate BestAt(cs: seq<Cand>, units: nat, b: Cand, i: nat) {
    && i < |cs| && cs[i] == b && b.Fits(units)
    && (forall j :: 0 <= j < i && cs[j].Fits(units) ==> cs[j].avail > b.avail)
    && (b.Exact(units) || forall j :: 0 <= j < |cs| && cs[j].Fits(units) ==> cs[j].avail >= b.avail)
  }

  /** What the picked block is: independent of how the search holds its best so far. */
  ghost predicate BestAmong(cs: seq<Cand>, units: nat, best: Option<Cand>) {
    match best
    case None => forall c :: c in cs ==> !c.Fits(units)
    case Some(b) => exists i :: BestAt(cs, units, b, i)
  }

  /** A block no better than the best leaves it the best. */
  lemma BestKept(l: seq<Cand>, c: Cand, units: nat, b: Cand, i: nat)
    requires BestAt(l, units, b, i)
    requires b.Exact(units) || (c.Fits(units) ==> c.avail >= b.avail)
    ensures BestAt(l + [c], units, b, i)
  {
  }

  /** A smaller block that fits is the best so far. */
  lemma BestTaken(l: seq<Cand>, c: Cand, units: nat)
    requires c.Fits(units) && forall j :: 0 <= j < |l| && l[j].Fits(units) ==> c.avail < l[j].avail
    ensures BestAt(l + [c], units, c, |l|)
  {
  }

  lemma PickStep(l: seq<Cand>, c: Cand, units: nat, p: Pick)
    requires BestAmong(l, units, p.best)
    requires p.stopped <==> p.best.Some? && p.best.value.Exact(units)
    ensures BestAmong(l + [c], units, Consider(p, c, units).best)
  {
    if p.best.None? {
      if c.Fits(units) { BestTaken(l, c, units); }
    } else {
      var i :| BestAt(l, units, p.best.value, i);
      if Consider(p, c, units) == p {
        BestKept(l, c, units, p.best.value, i);
      } else {
        BestTaken(l, c, units);
      }
    }
  }

  /** Fails only when nothing fits; otherwise an exact fit, or the smallest block that fits. */
  lemma {:induction false} PickIsBest(cs: seq<Cand>, units: nat)
    ensures BestAmong(cs, units, PickFrom(cs, units).best)
    ensures PickFrom(cs, units).stopped <==>
              PickFrom(cs, units).best.Some? && PickFrom(cs, units).best.value.Exact(units)
  {
    if cs != [] {
      var l, c := cs[..|cs| - 1], cs[|cs| - 1];
      PickIsBest(l, units);
      PickStep(l, c, units, PickFrom(l, units));
      assert cs == l + [c];
    }
  }

  /** Without an alignment the picked block is always a smallest one that fits. */
  lemma UnalignedPickIsLeast(cs: seq<Cand>, units: nat)
    requires forall c :: c in cs ==> c.delta == 0
    requires PickFrom(cs, units).best.Some?
    ensures forall c :: c in cs && c.Fits(units) ==> c.avail >= PickFrom(cs, units).best.value.avail
  {
    PickIsBest(cs, units);
  }

  /** Once stopped, the rest of the list is not looked at. */
  lemma {:induction false} StoppedStays(a: seq<Cand>, b: seq<Cand>, units: nat)
    requires PickFrom(a, units).stopped
    ensures PickFrom(a + b, units) == PickFrom(a, units)
    decreases |b|
  {
    if b == [] {
      assert a + b == a;
    } else {
      var l := b[..|b| - 1];
      StoppedStays(a, l, units);
      assert (a + b)[..|a + b| - 1] == a + l;
    }
  }

  ghost function States(pages: seq<SlobPage>): (ss: seq<PageState>)
    reads pages
    ensures |ss| == |pages| && forall i :: 0 <= i < |pages| ==> ss[i] == pages[i].state
  {
    seq(|pages|, i requires 0 <= i < |pages| reads pages => pages[i].state)
  }

  /** The cands of a prefix of the search begin the cands of the whole. */
  lemma {:induction false} CandsPrefix(ss: seq<PageState>, align: nat, i: nat, m: nat)
    requires align == 0 || IsPow2(align)
    requires i < |ss| && m <= |ss[i].blocks|
    ensures Cands(ss, align, i) + PageCands(ss[i], i, align, m) <= Cands(ss, align, |ss|)
    decreases |ss| - i, |ss[i].blocks| - m
  {
    if m < |ss[i].blocks| {
      CandsPrefix(ss, align, i, m + 1);
    } else if i + 1 < |ss| {
      CandsPrefix(ss, align, i + 1, 0);
      assert Cands(ss, align, i + 1) + [] == Cands(ss, align, i + 1);
    }
  }

  lemma {:induction false} PageCandIn(s: PageState, page: nat, align: nat, m: nat, k: nat)
    requires align == 0 || IsPow2(align)
    requires k < m <= |s.blocks|
    ensures CandAt(s, page, align, k) in PageCands(s, page, align, m)
  {
    if k < m - 1 {
      PageCandIn(s, page, align, m - 1, k);
    }
  }

  /** Every block of every page is met. */
  lemma {:induction false} CandIn(ss: seq<PageState>, align: nat, i: nat, page: nat, k: nat)
    requires align == 0 || IsPow2(align)
    requires page < i <= |ss| && k < |ss[page].blocks|
    ensures CandAt(ss[page], page, align, k) in Cands(ss, align, i)
  {
    if page < i - 1 {
      CandIn(ss, align, i - 1, page, k);
    } else {
      PageCandIn(ss[page], page, align, |ss[page].blocks|, k);
    }
  }

  lemma {:induction false} PageCandFrom(s: PageState, page: nat, align: nat, m: nat, c: Cand) returns (k: nat)
    requires align == 0 || IsPow2(align)
    requires m <= |s.blocks| && c in PageCands(s, page, align, m)
    ensures k < |s.blocks| && c == CandAt(s, page, align, k)
  {
    if c == CandAt(s, page, align, m - 1) {
      k := m - 1;
    } else {
      k := PageCandFrom(s, page, align, m - 1, c);
    }
  }

  /** Nothing else is. */
  lemma {:induction false} CandFrom(ss: seq<PageState>, align: nat, i: nat, c: Cand) returns (page: nat, k: nat)
    requires align == 0 || IsPow2(align)
    requires i <= |ss| && c in Cands(ss, align, i)
    ensures page < |ss| && k < |ss[page].blocks| && c == CandAt(ss[page], page, align, k)
  {
    if c in Cands(ss, align, i - 1) {
      page, k := CandFrom(ss, align, i - 1, c);
    } else {
      page := i - 1;
      k := PageCandFrom(ss[page], page, align, |ss[page].blocks|, c);
    }
  }

  /** Block k of a page can take the request. */
  ghost predicate FitsOn(ss: seq<PageState>, page: nat, k: nat, units: nat, align: nat)
    requires align == 0 || IsPow2(align)
  {
    page < |ss| && ss[page].Fits(k, units, align)
  }

  /** The search fails exactly when no block of any listed page fits. */
  lemma FailsIffNothingFits(ss: seq<PageState>, align: nat, units: nat)
    requires align == 0 || IsPow2(align)
    ensures PickFrom(Cands(ss, align, |ss|), units).best.None? <==> forall page: nat, k: nat :: !FitsOn(ss, page, k, units, align)
  {
    var cs := Cands(ss, align, |ss|);
    PickIsBest(cs, units);
    if PickFrom(cs, units).best.None? {
      forall page: nat, k: nat ensures !FitsOn(ss, page, k, units, align) {
        if page < |ss| && k < |ss[page].blocks| {
          CandIn(ss, align, |ss|, page, k);
        }
      }
    } else {
      var b := PickFrom(cs, units).best.value;
      var i: nat :| BestAt(cs, units, b, i);
      var page, k := CandFrom(ss, align, |ss|, cs[i]);
      assert FitsOn(ss, page, k, units, align);
    }
  }

  /** When it succeeds the block fits, exactly or as tightly as any block; without alignment always the latter. */
  lemma PickIsTightest(ss: seq<PageState>, align: nat, units: nat, page: nat, k: nat)
    requires align == 0 || IsPow2(align)
    requires page < |ss| && k < |ss[page].blocks|
    requires PickFrom(Cands(ss, align, |ss|), units).best == Some(CandAt(ss[page], page, align, k))
    ensures FitsOn(ss, page, k, units, align)
    ensures var size := ss[page].blocks[k].size;
      || (align != 0 && size == units + Delta(ss[page].base, ss[page].blocks[k].off, align))
      || forall page': nat, k': nat :: FitsOn(ss, page', k', units, align) ==> size <= ss[page'].blocks[k'].size
  {
    var cs := Cands(ss, align, |ss|);
    PickIsBest(cs, units);
    forall page': nat, k': nat | FitsOn(ss, page', k', units, align)
      ensures CandAt(ss[page'], page', align, k') in cs
    {
      CandIn(ss, align, |ss|, page', k');
    }
    if align == 0 {
      forall c | c in cs ensures c.delta == 0 {
        var page', k' := CandFrom(ss, align, |ss|, c);
      }
      UnalignedPickIsLeast(cs, units);
    }
  }

  /** struct best_slob, without the next pointer it records and nobody reads. */
  datatype BestSlob = BestSlob(page: nat, prev: Option<nat>, slob: Option<nat>, size: nat)

  /** The record holds the picked block, which is number k of its page. */
  ghost predicate Holds(ss: seq<PageState>, align: nat, pick: Option<Cand>, bs: BestSlob, k: nat)
    requires align == 0 || IsPow2(align)
  {
    if bs.slob.Some? then
      && bs.page < |ss| && k < |ss[bs.page].blocks|
      && pick == Some(CandAt(ss[bs.page], bs.page, align, k))
      && bs.slob == Some(ss[bs.page].blocks[k].off)
      && bs.prev == PrevOf(ss[bs.page].blocks, k)
      && bs.size == ss[bs.page].blocks[k].size > 0
    else pick.None? && bs.size == 0
  }

  /** The result is the pick over every block of every page, with its true predecessor. */
  method BestFit(pages: seq<SlobPage>, size: nat, align: nat) returns (bs: BestSlob)
    requires forall p :: p in pages ==> p.Valid() && p.listed
    requires align == 0 || IsPow2(align)
    ensures exists k :: Holds(States(pages), align, PickFrom(Cands(States(pages), align, |pages|), SlobUnits(size)).best, bs, k)
  {
    var units := SlobUnits(size);
    bs := BestSlob(0, None, None, 0);
    ghost var k: nat := 0;
    ghost var ss := States(pages);
    ghost var p := Pick(None, false);
    var i, stop := 0, false;
    while i < |pages| && !stop
      invariant i <= |pages|
      invariant p == PickFrom(Cands(ss, align, if stop then |pages| else i), units)
      invariant (!stop ==> !p.stopped) && Holds(ss, align, p.best, bs, k)
    {
      stop, bs, k, p := SearchPage(pages[i], i, units, align, ss, bs, k, p);
      i := i + 1;
    }
    assert States(pages) == ss;
    assert Holds(States(pages), align, PickFrom(Cands(States(pages), align, |pages|), SlobUnits(size)).best, bs, k);
  }

  method SearchPage(sp: SlobPage, i: nat, units: nat, align: nat, ghost ss: seq<PageState>,
                    bs0: BestSlob, ghost k0: nat, ghost p0: Pick)
    returns (stop: bool, bs: BestSlob, ghost k: nat, ghost p: Pick)
    requires sp.Valid() && sp.listed && i < |ss| && sp.state == ss[i]
    requires align == 0 || IsPow2(align)
    requires p0 == PickFrom(Cands(ss, align, i), units) && !p0.stopped && Holds(ss, align, p0.best, bs0, k0)
    ensures p == PickFrom(Cands(ss, align, if stop then |ss| else i + 1), units)
    ensures Holds(ss, align, p.best, bs, k) && (!stop ==> !p.stopped)
  {
    bs, k, p := bs0, k0, p0;
    ghost var blocks := sp.state.blocks;
    var prevSlob: Option<nat>, cur := None, sp.free;
    ghost var m := 0;
    SeenNone(ss, align, i, units);
    while true
      invariant m < |blocks| && cur == blocks[m].off && prevSlob == PrevOf(blocks, m)
      invariant p == Seen(ss, align, i, m, units) && !p.stopped && Holds(ss, align, p.best, bs, k)
      decreases |blocks| - m
    {
      sp.ReadsAt(m);
      stop, bs, k, p := WeighBlock(cur, prevSlob, sp.Units(cur), Delta(sp.base, cur, align), units, i, ss, align, m, bs, k, p);
      if stop {
        SeenStopped(ss, align, i, m + 1, units);
        return;
      }
      if sp.Last(cur) {
        SeenAll(ss, align, i, units);
        return;
      }
      prevSlob, cur, m := Some(cur), sp.Next(cur), m + 1;
    }
  }

  /** Keep the block if it fits more tightly than the one held; an exact fit ends the search. */
  method WeighBlock(cur: nat, prevSlob: Option<nat>, avail: nat, delta: nat, units: nat, i: nat,
                    ghost ss: seq<PageState>, ghost align: nat, ghost m: nat,
                    bs0: BestSlob, ghost k0: nat, ghost p0: Pick)
    returns (stop: bool, bs: BestSlob, ghost k: nat, ghost p: Pick)
    requires align == 0 || IsPow2(align)
    requires i < |ss| && m < |ss[i].blocks| && cur == ss[i].blocks[m].off && prevSlob == PrevOf(ss[i].blocks, m)
    requires avail == ss[i].blocks[m].size > 0 && delta == Delta(ss[i].base, cur, align)
    requires p0 == Seen(ss, align, i, m, units) && !p0.stopped && Holds(ss, align, p0.best, bs0, k0)
    ensures p == Seen(ss, align, i, m + 1, units) && stop == p.stopped
    ensures Holds(ss, align, p.best, bs, k)
  {
    Weighs(ss, align, i, m, units, bs0, k0);
    p := Seen(ss, align, i, m + 1, units);
    bs, k, stop := bs0, k0, false;
    if avail >= units + delta && (avail < bs.size || bs.size == 0) {
      bs, k := BestSlob(i, prevSlob, Some(cur), avail), m;
      stop := avail == units + delta;
    }
  }

  /** The pick after all blocks of the pages before i and the first m blocks of page i. */
  ghost function Seen(ss: seq<PageState>, align: nat, i: nat, m: nat, units: nat): Pick
    requires align == 0 || IsPow2(align)
    requires i < |ss| && m <= |ss[i].blocks|
  {
    PickFrom(Cands(ss, align, i) + PageCands(ss[i], i, align, m), units)
  }

  lemma SeenNone(ss: seq<PageState>, align: nat, i: nat, units: nat)
    requires align == 0 || IsPow2(align)
    requires i < |ss|
    ensures Seen(ss, align, i, 0, units) == PickFrom(Cands(ss, align, i), units)
  {
    assert Cands(ss, align, i) + [] == Cands(ss, align, i);
  }

  lemma SeenAll(ss: seq<PageState>, align: nat, i: nat, units: nat)
    requires align == 0 || IsPow2(align)
    requires i < |ss|
    ensures Seen(ss, align, i, |ss[i].blocks|, units) == PickFrom(Cands(ss, align, i + 1), units)
  {
  }

  /** The test on the record is the test on the pick. */
  lemma Weighs(ss: seq<PageState>, align: nat, i: nat, m: nat, units: nat, bs: BestSlob, k: nat)
    requires align == 0 || IsPow2(align)
    requires i < |ss| && m < |ss[i].blocks|
    requires !Seen(ss, align, i, m, units).stopped && Holds(ss, align, Seen(ss, align, i, m, units).best, bs, k)
    ensures var c := CandAt(ss[i], i, align, m);
      Seen(ss, align, i, m + 1, units) ==
        if c.avail >= units + c.delta && (c.avail < bs.size || bs.size == 0)
        then Pick(Some(c), c.avail == units + c.delta)
        else Seen(ss, align, i, m, units)
  {
    PickNext(Cands(ss, align, i), ss[i], i, align, m, units);
  }

  lemma SeenStopped(ss: seq<PageState>, align: nat, i: nat, m: nat, units: nat)
    requires align == 0 || IsPow2(align)
    requires i < |ss| && m <= |ss[i].blocks|
    requires Seen(ss, align, i, m, units).stopped
    ensures Seen(ss, align, i, m, units) == PickFrom(Cands(ss, align, |ss|), units)
  {
    CandsPrefix(ss, align, i, m);
    var seen, all := Cands(ss, align, i) + PageCands(ss[i], i, align, m), Cands(ss, align, |ss|);
    assert seen + all[|seen|..] == all;
    StoppedStays(seen, all[|seen|..], units);
  }

  lemma PickNext(cs: seq<Cand>, s: PageState, i: nat, align: nat, m: nat, units: nat)
    requires align == 0 || IsPow2(align)
    requires m < |s.blocks|
    ensures PickFrom(cs + PageCands(s, i, align, m + 1), units)
         == Consider(PickFrom(cs + PageCands(s, i, align, m), units), CandAt(s, i, align, m), units)
  {
    var a, b := cs + PageCands(s, i, align, m + 1), cs + PageCands(s, i, align, m);
    assert a[..|a| - 1] == b;
  }

  /** slob_page_alloc started at the picked block takes an aligned part of that block: it never scans on. */
  lemma StartedAtBest(ss: seq<PageState>, page: nat, k: nat, align: nat, units: nat, k': nat)
    requires align == 0 || IsPow2(align)
    requires page < |ss| && k < |ss[page].blocks|
    requires PickFrom(Cands(ss, align, |ss|), units).best == Some(CandAt(ss[page], page, align, k))
    requires ss[page].FirstFit(k, units, align, k')
    ensures k' == k
    ensures forall u :: Block(ss[page].Place(k', align), units).Has(u) ==> ss[page].blocks[k].Has(u)
    ensures align != 0 && ss[page].base % 2 == 0 ==> (ss[page].base + SLOB_UNIT * ss[page].Place(k', align)) % align == 0
  {
    if align != 0 && ss[page].base % 2 == 0 {
      DeltaAligns(ss[page].base, ss[page].blocks[k].off, align);
    }
    PickIsBest(Cands(ss, align, |ss|), units);
    assert ss[page].Fits(k, units, align);
  }
}
