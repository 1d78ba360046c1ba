/**
 slob_alloc as written. best_fit receives its result pointers by value, so the caller's
 copies stay NULL and every allocation takes the fresh-page path.
 */
module SlobAlloc {
  import opened Arith
  import opened Common
  import opened SlobBlocks
  import opened SlobSpec
  import opened SlobPage
  import SlobBestFit

  ghost function FreshPage(n: nat, base: nat): PageState {
    PageState(n, base, map[], [Block(0, n)])
  }

  lemma FreshFits(n: nat, base: nat, units: nat, align: nat)
    requires align == 0 || IsPow2(align)
    ensures forall k :: FreshPage(n, base).Fits(k, units, align) <==> k == 0 && units + Delta(base, 0, align) <= n
  {
  }

  /**
   The search runs, its answer is dropped, and the block comes from a new page. newBase is
   the page allocator's answer. bug says that BUG_ON(!b) fires: the request, with its
   alignment skip, does not fit an empty page.
   */
  method Alloc(list: seq<SlobPage>, size: nat, align: nat, n: nat, newBase: Option<nat>)
    returns (page: SlobPage?, b: nat, bug: bool)
    requires forall p :: p in list ==> p.Valid() && p.listed
    requires size > 0 && (align == 0 || IsPow2(align)) && 0 < n < 0x8000
    requires newBase.Some? ==> newBase.value % 2 == 0
    ensures bug <==> newBase.Some? && SlobUnits(size) + Delta(newBase.value, 0, align) > n
    ensures page == null <==> newBase.None? || bug
    ensures page != null ==>
              fresh(page) && page.Valid() && b == Delta(newBase.value, 0, align)
              && FreshPage(n, newBase.value).Fits(0, SlobUnits(size), align)
              && page.state == FreshPage(n, newBase.value).Taken(0, SlobUnits(size), align)
    ensures forall p :: p in list ==> p.Valid() && p.state == old(p.state)
  {
    var bestPage: SlobPage? := null;
    var bs := SlobBestFit.BestFit(list, size, align);
    page, b, bug := null, 0, false;
    // bs is best_fit's own copy; bestPage is still NULL, so the list is skipped.
    if bestPage == null && newBase.Some? {
      page, b := FromNewPage(size, align, n, newBase.value);
      bug := page == null;
    }
  }

  /** The fresh-page path of slob_alloc, from the page allocator's answer on. */
  method FromNewPage(size: nat, align: nat, n: nat, base: nat) returns (page: SlobPage?, b: nat)
    requires size > 0 && (align == 0 || IsPow2(align)) && 0 < n < 0x8000 && base % 2 == 0
    ensures page == null <==> SlobUnits(size) + Delta(base, 0, align) > n
    ensures page != null ==>
              fresh(page) && page.Valid() && b == Delta(base, 0, align)
              && FreshPage(n, base).Fits(0, SlobUnits(size), align)
              && page.state == FreshPage(n, base).Taken(0, SlobUnits(size), align)
  {
    page := new SlobPage(base, n);
    ghost var s := page.state;
    FreshFits(n, base, SlobUnits(size), align);
    var r := page.PageAlloc(size, align, None, None, 0);
    assert r.None? <==> !s.Fits(0, SlobUnits(size), align);
    if r.None? {
      return null, 0;
    }
    b := r.value;
  }

  // --- when BUG_ON(!b) fires ---

  lemma {:induction false} Pow2Divides(a: nat, b: nat)
    requires IsPow2(a) && IsPow2(b) && a <= b
    ensures b % a == 0
  {
    if a > 1 {
      Pow2Divides(a / 2, b / 2);
      var q := b / 2 / (a / 2);
      assert b / 2 == q * (a / 2);
      assert b == 2 * (q * (a / 2)) == q * (2 * (a / 2));
      ModUnique(b, a, q, 0);
    }
  }

  lemma MultipleOf(x: nat, y: nat, a: nat)
    requires a > 0 && y > 0 && x % y == 0 && y % a == 0
    ensures x % a == 0
  {
    var q, p := x / y, y / a;
    assert x == q * y && y == p * a;
    assert q * (p * a) == (q * p) * a;
    ModUnique(x, a, q * p, 0);
  }

  /**
   On a page-aligned page of 2 * n bytes no alignment up to a page skips anything, so BUG_ON(!b)
   fires exactly for requests longer than a page. kmalloc and the object caches ask for less.
   */
  lemma BugOnlyBeyondPage(n: nat, base: nat, size: nat, align: nat)
    requires n > 0 && IsPow2(SLOB_UNIT * n) && base % (SLOB_UNIT * n) == 0
    requires align == 0 || (IsPow2(align) && align <= SLOB_UNIT * n)
    ensures SlobUnits(size) + Delta(base, 0, align) > n <==> size > SLOB_UNIT * n
  {
    if align != 0 {
      Pow2Divides(align, SLOB_UNIT * n);
      MultipleOf(base, SLOB_UNIT * n, align);
    }
  }

  // --- consequences for the heap ---

  datatype HeapOp =
    | Alloc(id: nat, n: nat, base: nat, size: nat, align: nat)
    | Free(id: nat, off: nat, size: nat)

  ghost predicate HeapStep(h: map<nat, PageState>, op: HeapOp, h': map<nat, PageState>) {
    match op
    case Alloc(id, n, base, size, align) =>
      && id !in h && size > 0 && (align == 0 || IsPow2(align))
      && FreshPage(n, base).Fits(0, SlobUnits(size), align)
      && h' == h[id := FreshPage(n, base).Taken(0, SlobUnits(size), align)]
    case Free(id, off, size) =>
      && id in h
      && exists t :: Step(Some(h[id]), SlobSpec.Free(off, size), t)
                  && h' == if t.None? then h - {id} else h[id := t.value]
  }

  ghost predicate OneLive(s: PageState) {
    exists b :: b in s.live && s.live.Keys == {b}
  }

  /** Each page holds one live block. */
  ghost predicate OnePerPage(h: map<nat, PageState>) {
    forall id :: id in h ==> h[id].Inv() && OneLive(h[id])
  }

  lemma FirstAllocLeavesOne(n: nat, base: nat, units: nat, align: nat)
    requires units > 0 && (align == 0 || IsPow2(align))
    requires FreshPage(n, base).Fits(0, units, align)
    ensures FreshPage(n, base).Taken(0, units, align).Inv()
    ensures OneLive(FreshPage(n, base).Taken(0, units, align))
  {
    FreshOk(n, base);
    AllocKeepsInv(FreshPage(n, base), 0, units, align);
    var t := FreshPage(n, base).Taken(0, units, align);
    var p := FreshPage(n, base).Place(0, align);
    assert p in t.live && t.live.Keys == {p};
  }

  lemma FreeTakesLast(s: PageState, off: nat, size: nat, t: Option<PageState>)
    requires s.Inv() && OneLive(s) && Step(Some(s), SlobSpec.Free(off, size), t)
    ensures t.None?
  {
    var b :| b in s.live && s.live.Keys == {b};
    assert off in s.live.Keys;
    assert off == b;
    LastBlockTest(s, off);
  }

  lemma HeapStepKeepsOne(h: map<nat, PageState>, op: HeapOp, h': map<nat, PageState>)
    requires OnePerPage(h) && HeapStep(h, op, h')
    ensures OnePerPage(h')
    ensures op.Free? ==> h' == h - {op.id}
  {
    match op
    case Alloc(id, n, base, size, align) =>
      FirstAllocLeavesOne(n, base, SlobUnits(size), align);
    case Free(id, off, size) =>
      var t :| Step(Some(h[id]), SlobSpec.Free(off, size), t) && h' == if t.None? then h - {id} else h[id := t.value];
      FreeTakesLast(h[id], off, size, t);
  }

  /**
   In every run of slob_alloc and slob_free each page holds exactly one live block, so a
   free always gives its page back: the partly used pages best_fit searches are never refilled.
   */
  lemma {:induction false} HeapRunOnePerPage(hs: seq<map<nat, PageState>>, ops: seq<HeapOp>, i: nat)
    requires |hs| == |ops| + 1 && hs[0] == map[] && i < |hs|
    requires forall j :: 0 <= j < |ops| ==> HeapStep(hs[j], ops[j], hs[j + 1])
    ensures OnePerPage(hs[i])
    ensures i < |ops| && ops[i].Free? ==> hs[i + 1] == hs[i] - {ops[i].id}
  {
    if i > 0 {
      HeapRunOnePerPage(hs, ops, i - 1);
      HeapStepKeepsOne(hs[i - 1], ops[i - 1], hs[i]);
    }
    if i < |ops| {
      HeapStepKeepsOne(hs[i], ops[i], hs[i + 1]);
    }
  }
}
