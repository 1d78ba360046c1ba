/**
 One SLOB page as a value: the live blocks handed out and the free list, and the
 steps that slob_page_alloc and slob_free take on them. SlobPage.dfy proves the
 encoded page refines these steps; here are the properties of any run of them.
 */
module SlobSpec {
  import opened Arith
  import opened Common
  import opened SlobBlocks

  // --- alignment ---

  predicate IsPow2(a: nat) {
    a == 1 || (a > 0 && a % 2 == 0 && IsPow2(a / 2))
  }

  /** ALIGN for a power of two, as arithmetic. */
  function AlignUp(x: nat, align: nat): (r: nat)
    requires align > 0
    ensures x <= r < x + align && r % align == 0
  {
    var m := x % align;
    if m == 0 then x
    else
      assert x - m == x / align * align;
      ModUnique(x - m + align, align, x / align + 1, 0);
      x - m + align
  }

  /** Units skipped at the front of a block at offset off so that the address is aligned. */
  function Delta(base: nat, off: nat, align: nat): nat
    requires align == 0 || IsPow2(align)
  {
    if align == 0 then 0 else (AlignUp(base + SLOB_UNIT * off, align) - (base + SLOB_UNIT * off)) / SLOB_UNIT
  }

  /** Skipping Delta units lands exactly on the aligned address. */
  lemma DeltaAligns(base: nat, off: nat, align: nat)
    requires IsPow2(align) && base % 2 == 0
    ensures base + SLOB_UNIT * (off + Delta(base, off, align)) == AlignUp(base + SLOB_UNIT * off, align)
    ensures (base + SLOB_UNIT * (off + Delta(base, off, align))) % align == 0
  {
    AlignUpEven(base + SLOB_UNIT * off, align);
    EvenHalf(AlignUp(base + SLOB_UNIT * off, align) - (base + SLOB_UNIT * off));
  }

  lemma EvenHalf(d: nat)
    requires d % 2 == 0
    ensures d / 2 * 2 == d
  {
  }

  lemma EvenDifference(x: nat, y: nat)
    requires x % 2 == 0 && y % 2 == 0 && x <= y
    ensures (y - x) % 2 == 0
  {
  }

  lemma AlignUpEven(x: nat, align: nat)
    requires IsPow2(align) && x % 2 == 0
    ensures (AlignUp(x, align) - x) % 2 == 0
  {
    var y := AlignUp(x, align);
    if align > 1 {
      EvenMultiple(y, align);
      EvenDifference(x, y);
    }
  }

  lemma EvenMultiple(y: nat, a: nat)
    requires a > 0 && a % 2 == 0 && y % a == 0
    ensures y % 2 == 0
  {
    var q, h := y / a, a / 2;
    assert y == q * (h * 2) == (q * h) * 2;
    ModUnique(y, 2, q * h, 0);
  }

  /** No smaller skip is aligned: the head left behind is as short as it can be. */
  lemma DeltaLeast(base: nat, off: nat, align: nat, d: nat)
    requires IsPow2(align) && base % 2 == 0 && d < Delta(base, off, align)
    ensures (base + SLOB_UNIT * (off + d)) % align != 0
  {
    DeltaAligns(base, off, align);
    var z := base + SLOB_UNIT * (off + d);
    var y := AlignUp(base + SLOB_UNIT * off, align);
    var i, j := z / align, y / align;
    assert z == i * align + z % align;
    assert y == j * align;
    MulOrder(i, j, align);
  }

  // --- the state of a page ---

  datatype PageState = PageState(n: nat, base: nat, live: map<nat, nat>, blocks: seq<Block>) {
    ghost predicate LiveAt(u: int) {
      exists b :: b in live && Block(b, live[b]).Has(u)
    }

    /** Free and live blocks tile the page; the free list is sorted and coalesced. */
    ghost predicate Inv() {
      && WellFormed(n, blocks)
      && (forall b :: b in live ==> live[b] > 0 && b + live[b] <= n)
      && (forall b, c :: b in live && c in live && b < c ==> b + live[b] <= c)
      && (forall u :: Covers(blocks, u) <==> 0 <= u < n && !LiveAt(u))
    }

    ghost predicate Fits(k: int, units: nat, align: nat)
      requires align == 0 || IsPow2(align)
    {
      0 <= k < |blocks| && blocks[k].size >= units + Delta(base, blocks[k].off, align)
    }

    /** Block k is the first at or after start with room. */
    ghost predicate FirstFit(start: nat, units: nat, align: nat, k: nat)
      requires align == 0 || IsPow2(align)
    {
      start <= k && Fits(k, units, align) && forall i :: start <= i < k ==> !Fits(i, units, align)
    }

    /** The offset handed out from block k. */
    function Place(k: nat, align: nat): nat
      requires k < |blocks| && (align == 0 || IsPow2(align))
    {
      blocks[k].off + Delta(base, blocks[k].off, align)
    }

    /** A live block at p holds size bytes with less than a unit to spare, at an aligned address. */
    ghost predicate HoldsBytes(p: nat, size: nat, align: nat) {
      && p in live && size <= SLOB_UNIT * live[p] < size + SLOB_UNIT
      && (align != 0 ==> (base + SLOB_UNIT * p) % align == 0)
    }

    /** p is the first aligned place of block k. */
    ghost predicate FirstAligned(k: nat, p: nat, align: nat)
      requires k < |blocks|
    {
      && blocks[k].off <= p && (align != 0 ==> (base + SLOB_UNIT * p) % align == 0)
      && forall u :: blocks[k].off <= u < p ==> align != 0 && (base + SLOB_UNIT * u) % align != 0
    }

    ghost function Taken(k: nat, units: nat, align: nat): PageState
      requires align == 0 || IsPow2(align)
      requires Fits(k, units, align)
    {
      this.(live := live[Place(k, align) := units],
            blocks := Carve(blocks, k, Delta(base, blocks[k].off, align), units))
    }

    ghost function Returned(b: nat, j: nat): PageState
      requires b in live && j <= |blocks|
    {
      this.(live := live - {b}, blocks := Insert(blocks, j, Block(b, live[b])))
    }
  }

  // --- both operations keep the invariant ---

  lemma TakenUnits(s: PageState, k: nat, units: nat, align: nat)
    requires s.Inv() && units > 0 && (align == 0 || IsPow2(align)) && s.Fits(k, units, align)
    ensures forall u :: Block(s.Place(k, align), units).Has(u) ==> Covers(s.blocks, u)
    ensures s.Place(k, align) !in s.live
  {
    var p := s.Place(k, align);
    forall u | Block(p, units).Has(u) ensures Covers(s.blocks, u) {
      assert s.blocks[k].Has(u);
    }
    assert Block(p, units).Has(p);
    if p in s.live {
      assert Block(p, s.live[p]).Has(p);
      assert s.LiveAt(p);
    }
  }

  /** An allocation of size bytes from block k, the first with room, hands out p. */
  ghost predicate TakenFrom(s: PageState, t: PageState, start: nat, size: nat, align: nat, p: nat, k: nat) {
    && (align == 0 || IsPow2(align))
    && s.FirstFit(start, SlobUnits(size), align, k)
    && t == s.Taken(k, SlobUnits(size), align) && p == s.Place(k, align)
    && s.FirstAligned(k, p, align) && p !in s.live && t.HoldsBytes(p, size, align)
  }

  /** What an allocation of size bytes hands out. */
  lemma HandedOut(s: PageState, start: nat, k: nat, size: nat, align: nat)
    requires s.Inv() && size > 0 && (align == 0 || IsPow2(align)) && s.base % 2 == 0
    requires s.FirstFit(start, SlobUnits(size), align, k)
    ensures TakenFrom(s, s.Taken(k, SlobUnits(size), align), start, size, align, s.Place(k, align), k)
  {
    TakenUnits(s, k, SlobUnits(size), align);
    if align != 0 {
      DeltaAligns(s.base, s.blocks[k].off, align);
      forall u | s.blocks[k].off <= u < s.Place(k, align) ensures (s.base + SLOB_UNIT * u) % align != 0 {
        DeltaLeast(s.base, s.blocks[k].off, align, u - s.blocks[k].off);
      }
    }
  }

  lemma LiveDisjointFromFree(s: PageState, b: nat, lo: nat, size: nat)
    requires s.Inv() && b in s.live && size > 0
    requires forall u :: Block(lo, size).Has(u) ==> Covers(s.blocks, u)
    ensures b + s.live[b] <= lo || lo + size <= b
  {
    var c := Block(b, s.live[b]);
    if b <= lo < b + s.live[b] {
      assert c.Has(lo) && Block(lo, size).Has(lo);
      assert s.LiveAt(lo);
    } else if lo <= b < lo + size {
      assert c.Has(b) && Block(lo, size).Has(b);
      assert s.LiveAt(b);
    }
  }

  lemma AllocKeepsInv(s: PageState, k: nat, units: nat, align: nat)
    requires s.Inv() && units > 0 && (align == 0 || IsPow2(align)) && s.Fits(k, units, align)
    ensures s.Taken(k, units, align).Inv()
  {
    var t := s.Taken(k, units, align);
    var p := s.Place(k, align);
    var delta := Delta(s.base, s.blocks[k].off, align);
    TakenUnits(s, k, units, align);
    CarveWellFormed(s.n, s.blocks, k, delta, units);
    forall b | b in s.live ensures b + s.live[b] <= p || p + units <= b {
      LiveDisjointFromFree(s, b, p, units);
    }
    forall u ensures Covers(t.blocks, u) <==> 0 <= u < t.n && !t.LiveAt(u) {
      CarveCovers(s.n, s.blocks, k, delta, units, u);
      LiveAfterTake(s, t, p, units, u);
    }
  }

  lemma LiveAfterTake(s: PageState, t: PageState, p: nat, units: nat, u: int)
    requires p !in s.live && t.live == s.live[p := units]
    ensures t.LiveAt(u) <==> s.LiveAt(u) || Block(p, units).Has(u)
  {
    if s.LiveAt(u) {
      var b :| b in s.live && Block(b, s.live[b]).Has(u);
      assert b in t.live && Block(b, t.live[b]).Has(u);
    }
    if Block(p, units).Has(u) {
      assert p in t.live && Block(p, t.live[p]).Has(u);
    }
  }

  lemma LiveNotFree(s: PageState, b: nat, i: nat)
    requires s.Inv() && b in s.live && i < |s.blocks|
    ensures s.blocks[i].off != b
  {
    assert Block(b, s.live[b]).Has(b);
    assert s.LiveAt(b);
    assert !s.blocks[i].Has(b);
  }

  /** A live block lies between two consecutive free blocks. */
  lemma LiveInGap(s: PageState, b: nat, j: nat)
    requires s.Inv() && b in s.live && j <= |s.blocks|
    requires forall i :: 0 <= i < j ==> s.blocks[i].off < b
    requires forall i :: j <= i < |s.blocks| ==> b <= s.blocks[i].off
    ensures InsertAt(s.n, s.blocks, j, Block(b, s.live[b]))
  {
    if j > 0 {
      var l := s.blocks[j - 1];
      forall u | l.Has(u) ensures Covers(s.blocks, u) {}
      LiveDisjointFromFree(s, b, l.off, l.size);
    }
    if j < |s.blocks| {
      var r := s.blocks[j];
      forall u | r.Has(u) ensures Covers(s.blocks, u) {}
      LiveDisjointFromFree(s, b, r.off, r.size);
    }
  }

  lemma LiveAfterReturn(s: PageState, t: PageState, b: nat, u: int)
    requires s.Inv() && b in s.live && t.live == s.live - {b}
    ensures t.LiveAt(u) <==> s.LiveAt(u) && !Block(b, s.live[b]).Has(u)
  {
    if t.LiveAt(u) {
      var c :| c in t.live && Block(c, t.live[c]).Has(u);
      assert c in s.live && Block(c, s.live[c]).Has(u);
    }
    if s.LiveAt(u) && !Block(b, s.live[b]).Has(u) {
      var c :| c in s.live && Block(c, s.live[c]).Has(u);
      assert c in t.live && Block(c, t.live[c]).Has(u);
    }
  }

  lemma FreeKeepsInv(s: PageState, b: nat, j: nat)
    requires s.Inv() && b in s.live && InsertAt(s.n, s.blocks, j, Block(b, s.live[b]))
    ensures s.Returned(b, j).Inv()
  {
    var t := s.Returned(b, j);
    var c := Block(b, s.live[b]);
    InsertWellFormed(s.n, s.blocks, j, c);
    forall u ensures Covers(t.blocks, u) <==> 0 <= u < t.n && !t.LiveAt(u) {
      InsertCovers(s.n, s.blocks, j, c, u);
      LiveAfterReturn(s, t, b, u);
      if c.Has(u) { assert s.LiveAt(u); }
    }
  }

  // --- the free list is a function of the live set ---

  /** However a page got there, the same live blocks leave the same free list. */
  lemma FreeListDetermined(s: PageState, t: PageState)
    requires s.Inv() && t.Inv() && s.n == t.n && s.live == t.live
    ensures s.blocks == t.blocks
  {
    forall u ensures Covers(s.blocks, u) <==> Covers(t.blocks, u) {
      assert s.LiveAt(u) <==> t.LiveAt(u);
    }
    CoverDeterminesList(s.n, s.blocks, t.blocks);
  }

  /** Freeing what was just allocated, at any alignment, restores the page exactly. */
  lemma AllocThenFreeRestores(s: PageState, k: nat, units: nat, align: nat, j: nat)
    requires s.Inv() && units > 0 && (align == 0 || IsPow2(align)) && s.Fits(k, units, align)
    requires InsertAt(s.n, s.Taken(k, units, align).blocks, j, Block(s.Place(k, align), units))
    ensures s.Taken(k, units, align).Returned(s.Place(k, align), j) == s
  {
    var t := s.Taken(k, units, align);
    var p := s.Place(k, align);
    AllocKeepsInv(s, k, units, align);
    TakenUnits(s, k, units, align);
    FreeKeepsInv(t, p, j);
    assert t.Returned(p, j).live == s.live;
    FreeListDetermined(s, t.Returned(p, j));
  }

  // --- the free-unit count, and when the page goes back ---

  lemma TakenTotal(s: PageState, k: nat, units: nat, align: nat)
    requires s.Inv() && units > 0 && (align == 0 || IsPow2(align)) && s.Fits(k, units, align)
    ensures Total(s.blocks) == Total(s.Taken(k, units, align).blocks) + units
  {
    var t := s.Taken(k, units, align);
    var b := Block(s.Place(k, align), units);
    var delta := Delta(s.base, s.blocks[k].off, align);
    AllocKeepsInv(s, k, units, align);
    TakenUnits(s, k, units, align);
    forall u ensures Covers(t.blocks, u) <==> Covers(s.blocks, u) && !b.Has(u) {
      CarveCovers(s.n, s.blocks, k, delta, units, u);
    }
    TotalMoves(s.n, t.blocks, s.blocks, b);
  }

  lemma ReturnedTotal(s: PageState, b: nat, j: nat)
    requires s.Inv() && b in s.live && InsertAt(s.n, s.blocks, j, Block(b, s.live[b]))
    ensures Total(s.Returned(b, j).blocks) == Total(s.blocks) + s.live[b]
  {
    var t := s.Returned(b, j);
    var c := Block(b, s.live[b]);
    FreeKeepsInv(s, b, j);
    forall u ensures Covers(t.blocks, u) <==> Covers(s.blocks, u) || c.Has(u) {
      InsertCovers(s.n, s.blocks, j, c, u);
    }
    forall u | c.Has(u) ensures !Covers(s.blocks, u) {
      assert s.LiveAt(u);
    }
    TotalMoves(s.n, s.blocks, t.blocks, c);
  }

  /** slob_free's test for giving the page back is true of the last live block and no other. */
  lemma LastBlockTest(s: PageState, b: nat)
    requires s.Inv() && b in s.live
    ensures Total(s.blocks) + s.live[b] == s.n <==> s.live.Keys == {b}
  {
    var mine := Interval(Block(b, s.live[b]));
    var f := UnitsOf(s.n, s.blocks);
    var page := Interval(Block(0, s.n));
    TotalIsCover(s.n, s.blocks);
    IntervalSize(Block(b, s.live[b]));
    IntervalSize(Block(0, s.n));
    LiveUnits(s, b);
    assert |f + mine| == |f| + |mine|;
    if s.live.Keys == {b} {
      OnlyLive(s, b);
    } else {
      var d := AnotherLive(s, b);
      NotOnlyLive(s, b, d);
    }
  }

  lemma AnotherLive(s: PageState, b: nat) returns (d: nat)
    requires b in s.live && s.live.Keys != {b}
    ensures d in s.live && d != b
  {
    assert exists d :: d in s.live && d != b;
    d :| d in s.live && d != b;
  }

  lemma NotOnlyLive(s: PageState, b: nat, d: nat)
    requires s.Inv() && b in s.live && d in s.live && d != b
    ensures |UnitsOf(s.n, s.blocks) + Interval(Block(b, s.live[b]))| < |Interval(Block(0, s.n))|
  {
    LiveUnits(s, b);
    OtherUnit(s, b, d);
    SmallerSet(UnitsOf(s.n, s.blocks) + Interval(Block(b, s.live[b])), Interval(Block(0, s.n)), d);
  }

  lemma OtherUnit(s: PageState, b: nat, d: nat)
    requires s.Inv() && b in s.live && d in s.live && d != b
    ensures d !in UnitsOf(s.n, s.blocks) + Interval(Block(b, s.live[b])) && d in Interval(Block(0, s.n))
  {
    assert Block(d, s.live[d]).Has(d) && Block(0, s.n).Has(d);
    assert s.LiveAt(d);
  }

  /** The units of a live block are on the page and not free. */
  lemma LiveUnits(s: PageState, b: nat)
    requires s.Inv() && b in s.live
    ensures Interval(Block(b, s.live[b])) !! UnitsOf(s.n, s.blocks)
    ensures Interval(Block(b, s.live[b])) + UnitsOf(s.n, s.blocks) <= Interval(Block(0, s.n))
  {
    forall u: int | u in Interval(Block(b, s.live[b]))
      ensures u !in UnitsOf(s.n, s.blocks) && u in Interval(Block(0, s.n))
    {
      assert s.LiveAt(u);
      assert Block(0, s.n).Has(u);
    }
    forall u: int | u in UnitsOf(s.n, s.blocks)
      ensures u in Interval(Block(0, s.n))
    {
      assert Block(0, s.n).Has(u);
    }
  }

  lemma OnlyLive(s: PageState, b: nat)
    requires s.Inv() && s.live.Keys == {b}
    ensures UnitsOf(s.n, s.blocks) + Interval(Block(b, s.live[b])) == Interval(Block(0, s.n))
  {
    LiveUnits(s, b);
    forall u: int | u in Interval(Block(0, s.n)) && u !in UnitsOf(s.n, s.blocks)
      ensures u in Interval(Block(b, s.live[b]))
    {
      assert s.LiveAt(u);
    }
  }

  lemma SmallerSet(a: set<int>, b: set<int>, x: int)
    requires a <= b && x in b && x !in a
    ensures |a| < |b|
  {
    assert b == a + (b - a);
    assert x in b - a;
  }

  /** A full page has no free block, and only a full page has none. */
  lemma EmptyListIffNoUnits(n: nat, bs: seq<Block>)
    requires WellFormed(n, bs)
    ensures Total(bs) == 0 <==> bs == []
  {
  }

  // --- runs ---

  /** Request size in bytes; where the scan of the free list starts. */
  datatype Op =
    | Fresh(n: nat, base: nat)
    | Alloc(size: nat, align: nat, start: nat)
    | Free(off: nat, size: nat)

  /** A page not owned by the allocator is None. */
  ghost predicate Step(s: Option<PageState>, op: Op, t: Option<PageState>) {
    match op
    case Fresh(n, base) =>
      && s.None? && n > 0
      && t == Some(PageState(n, base, map[], [Block(0, n)]))
    case Alloc(size, align, start) =>
      && s.Some? && size > 0 && (align == 0 || IsPow2(align))
      && ((t == s && forall k :: start <= k ==> !s.value.Fits(k, SlobUnits(size), align))
          || (t.Some? && exists k :: s.value.FirstFit(start, SlobUnits(size), align, k)
                                  && t.value == s.value.Taken(k, SlobUnits(size), align)))
    case Free(b, size) =>
      && s.Some? && size > 0 && b in s.value.live && s.value.live[b] == SlobUnits(size)
      && if Total(s.value.blocks) + SlobUnits(size) == s.value.n
         then t.None?
         else t.Some? && exists j: nat :: InsertAt(s.value.n, s.value.blocks, j, Block(b, SlobUnits(size)))
                                       && t.value == s.value.Returned(b, j)
  }

  ghost predicate Run(ss: seq<Option<PageState>>, ops: seq<Op>) {
    && |ss| == |ops| + 1
    && ss[0].None?
    && forall i :: 0 <= i < |ops| ==> Step(ss[i], ops[i], ss[i + 1])
  }

  lemma StepKeepsInv(s: Option<PageState>, op: Op, t: Option<PageState>)
    requires s.Some? ==> s.value.Inv()
    requires Step(s, op, t) && t.Some?
    ensures t.value.Inv()
  {
    match op
    case Fresh(n, base) =>
      assert forall u :: Covers([Block(0, n)], u) <==> Block(0, n).Has(u) by {
        forall u ensures Covers([Block(0, n)], u) <==> Block(0, n).Has(u) { CoversOne(Block(0, n), u); }
      }
    case Alloc(size, align, start) =>
      if t != s {
        var k :| s.value.FirstFit(start, SlobUnits(size), align, k)
              && t.value == s.value.Taken(k, SlobUnits(size), align);
        AllocKeepsInv(s.value, k, SlobUnits(size), align);
      }
    case Free(b, size) =>
      var j: nat :| InsertAt(s.value.n, s.value.blocks, j, Block(b, SlobUnits(size)))
                 && t.value == s.value.Returned(b, j);
      FreeKeepsInv(s.value, b, j);
  }

  /** Every page of every run is tiled by its free and live blocks. */
  lemma {:induction false} RunKeepsInv(ss: seq<Option<PageState>>, ops: seq<Op>, i: nat)
    requires Run(ss, ops) && i < |ss| && ss[i].Some?
    ensures ss[i].value.Inv()
  {
    if i > 0 {
      assert Step(ss[i - 1], ops[i - 1], ss[i]);
      if ss[i - 1].Some? {
        RunKeepsInv(ss, ops, i - 1);
      }
      StepKeepsInv(ss[i - 1], ops[i - 1], ss[i]);
    }
  }

  /** Any two runs that leave the same live blocks leave the same free list. */
  lemma RunOrderIrrelevant(ss: seq<Option<PageState>>, ops: seq<Op>, i: nat,
                           tt: seq<Option<PageState>>, ops': seq<Op>, j: nat)
    requires Run(ss, ops) && i < |ss| && ss[i].Some?
    requires Run(tt, ops') && j < |tt| && tt[j].Some?
    requires ss[i].value.n == tt[j].value.n && ss[i].value.live == tt[j].value.live
    ensures ss[i].value.blocks == tt[j].value.blocks
  {
    RunKeepsInv(ss, ops, i);
    RunKeepsInv(tt, ops', j);
    FreeListDetermined(ss[i].value, tt[j].value);
  }

  /** In every run a free gives the page back exactly when it frees the last live block. */
  lemma RunGivesBackExactly(ss: seq<Option<PageState>>, ops: seq<Op>, i: nat)
    requires Run(ss, ops) && i < |ops| && ops[i].Free?
    ensures ss[i].Some?
    ensures ss[i + 1].None? <==> ss[i].value.live.Keys == {ops[i].off}
  {
    assert Step(ss[i], ops[i], ss[i + 1]);
    RunKeepsInv(ss, ops, i);
    LastBlockTest(ss[i].value, ops[i].off);
  }

  /**
   Allocating and then freeing with the same size: back to the identical page when
   another block was live, and back to the page allocator when none was.
   */
  lemma RoundTrip(s: PageState, size: nat, align: nat, start: nat, k: nat, u: Option<PageState>)
    requires s.Inv() && size > 0 && (align == 0 || IsPow2(align))
    requires s.FirstFit(start, SlobUnits(size), align, k)
    requires Step(Some(s.Taken(k, SlobUnits(size), align)), Free(s.Place(k, align), size), u)
    ensures u == if s.live == map[] then None else Some(s)
  {
    var units, p := SlobUnits(size), s.Place(k, align);
    var t := s.Taken(k, units, align);
    AllocKeepsInv(s, k, units, align);
    TakenUnits(s, k, units, align);
    LastBlockTest(t, p);
    OnlyNew(s.live, p, units);
    if s.live != map[] {
      var j: nat :| InsertAt(t.n, t.blocks, j, Block(p, units)) && u.value == t.Returned(p, j);
      AllocThenFreeRestores(s, k, units, align, j);
    }
  }

  lemma OnlyNew(live: map<nat, nat>, p: nat, units: nat)
    requires p !in live
    ensures live[p := units].Keys == {p} <==> live == map[]
  {
    if b :| b in live {
      assert b in live[p := units].Keys && b != p;
    }
  }
}
