/**
 The free list of one SLOB page as a value: a sequence of blocks, measured in
 units of two bytes and addressed by their offset from the start of the page.
 */
module SlobBlocks {
  /** slobidx_t for a page of at most 32767 units: a signed 16-bit integer. */
  newtype slobidx = x: int | -0x8000 <= x < 0x8000

  const SLOB_UNIT: nat := 2

  /** SLOB_UNITS: the fewest whole units that hold size bytes. */
  function SlobUnits(size: nat): (units: nat)
    ensures size <= SLOB_UNIT * units < size + SLOB_UNIT
  {
    (size + SLOB_UNIT - 1) / SLOB_UNIT
  }

  datatype Block = Block(off: nat, size: nat) {
    ghost predicate Has(u: int) {
      off <= u < off + size
    }
  }

  /** Address order, inside the page, no empty block, and no two blocks touching. */
  ghost predicate WellFormed(n: nat, bs: seq<Block>) {
    && (forall i :: 0 <= i < |bs| ==> bs[i].size > 0 && bs[i].off + bs[i].size <= n)
    && (forall i, j :: 0 <= i < j < |bs| ==> bs[i].off + bs[i].size < bs[j].off)
  }

  ghost predicate Covers(bs: seq<Block>, u: int) {
    exists i :: 0 <= i < |bs| && bs[i].Has(u)
  }

  function Total(bs: seq<Block>): nat {
    if bs == [] then 0 else bs[0].size + Total(bs[1..])
  }

  /** A free list is determined by the units it covers. */
  lemma {:induction false} CoverDeterminesList(n: nat, a: seq<Block>, b: seq<Block>)
    requires WellFormed(n, a) && WellFormed(n, b)
    requires forall u :: Covers(a, u) <==> Covers(b, u)
    ensures a == b
    decreases |a| + |b|
  {
    if a == [] || b == [] {
      if a != [] {
        assert a[0].Has(a[0].off);
        assert Covers(a, a[0].off);
      }
      if b != [] {
        assert b[0].Has(b[0].off);
        assert Covers(b, b[0].off);
      }
    } else {
      SameHead(n, a, b);
      forall u ensures Covers(a[1..], u) <==> Covers(b[1..], u) {
        TailCovers(n, a, u);
        TailCovers(n, b, u);
      }
      CoverDeterminesList(n, a[1..], b[1..]);
    }
  }

  lemma TailCovers(n: nat, bs: seq<Block>, u: int)
    requires WellFormed(n, bs) && bs != []
    ensures WellFormed(n, bs[1..])
    ensures Covers(bs[1..], u) <==> Covers(bs, u) && !bs[0].Has(u)
  {
    if Covers(bs[1..], u) {
      var i :| 0 <= i < |bs[1..]| && bs[1..][i].Has(u);
      assert bs[i + 1].Has(u);
    }
    if Covers(bs, u) && !bs[0].Has(u) {
      var i :| 0 <= i < |bs| && bs[i].Has(u);
      assert bs[1..][i - 1].Has(u);
    }
  }

  lemma SameHead(n: nat, a: seq<Block>, b: seq<Block>)
    requires WellFormed(n, a) && WellFormed(n, b) && a != [] && b != []
    requires forall u :: Covers(a, u) <==> Covers(b, u)
    ensures a[0] == b[0]
  {
    assert a[0].Has(a[0].off) && b[0].Has(b[0].off);
    assert Covers(a, a[0].off) && Covers(b, b[0].off);
    assert Covers(b, a[0].off) && Covers(a, b[0].off);
    assert a[0].off == b[0].off;
    HeadEnds(n, a, b);
    HeadEnds(n, b, a);
  }

  lemma HeadEnds(n: nat, a: seq<Block>, b: seq<Block>)
    requires WellFormed(n, a) && WellFormed(n, b) && a != [] && b != []
    requires forall u :: Covers(a, u) <==> Covers(b, u)
    requires a[0].off == b[0].off
    ensures a[0].size <= b[0].size
  {
    // The unit just past b's first block is covered by no block of b, hence by none of a.
    var e := b[0].off + b[0].size;
    assert !Covers(b, e);
    if a[0].size > b[0].size {
      assert a[0].Has(e);
      assert false;
    }
  }

  ghost function UnitsOf(n: nat, bs: seq<Block>): set<int> {
    set u: int | 0 <= u < n && Covers(bs, u)
  }

  ghost function Interval(b: Block): set<int> {
    set u: int | b.off <= u < b.off + b.size && b.Has(u)
  }

  lemma {:induction false} IntervalSize(b: Block)
    ensures |Interval(b)| == b.size
    decreases b.size
  {
    if b.size == 0 {
      assert Interval(b) == {};
    } else {
      var c := Block(b.off, b.size - 1);
      IntervalSize(c);
      forall u ensures u in Interval(b) <==> u in Interval(c) + {b.off + c.size} {
      }
      assert Interval(b) == Interval(c) + {b.off + c.size};
    }
  }

  /** The recorded total is the number of covered units. */
  lemma {:induction false} TotalIsCover(n: nat, bs: seq<Block>)
    requires WellFormed(n, bs)
    ensures Total(bs) == |UnitsOf(n, bs)|
  {
    if bs == [] {
      assert UnitsOf(n, bs) == {};
    } else {
      TailCovers(n, bs, 0);
      TotalIsCover(n, bs[1..]);
      IntervalSize(bs[0]);
      UnitsSplit(n, bs);
    }
  }

  lemma UnitsSplit(n: nat, bs: seq<Block>)
    requires WellFormed(n, bs) && bs != []
    ensures UnitsOf(n, bs) == Interval(bs[0]) + UnitsOf(n, bs[1..])
    ensures Interval(bs[0]) !! UnitsOf(n, bs[1..])
  {
    forall u: int
      ensures u in UnitsOf(n, bs) <==> u in Interval(bs[0]) || u in UnitsOf(n, bs[1..])
      ensures !(u in Interval(bs[0]) && u in UnitsOf(n, bs[1..]))
    {
      TailCovers(n, bs, u);
      if bs[0].Has(u) {
        assert Covers(bs, u);
      }
    }
  }

  /** Adding the units of b to the cover changes the total by their number. */
  lemma TotalMoves(n: nat, small: seq<Block>, big: seq<Block>, b: Block)
    requires WellFormed(n, small) && WellFormed(n, big) && b.off + b.size <= n
    requires forall u :: b.Has(u) ==> !Covers(small, u)
    requires forall u :: Covers(big, u) <==> Covers(small, u) || b.Has(u)
    ensures Total(big) == Total(small) + b.size
  {
    TotalIsCover(n, small);
    TotalIsCover(n, big);
    IntervalSize(b);
    assert UnitsOf(n, big) == UnitsOf(n, small) + Interval(b);
    assert UnitsOf(n, small) !! Interval(b);
  }

  // --- cover and form of a concatenation ---

  lemma CoversConcat(a: seq<Block>, b: seq<Block>, u: int)
    ensures Covers(a + b, u) <==> Covers(a, u) || Covers(b, u)
  {
    if Covers(a + b, u) {
      var i :| 0 <= i < |a + b| && (a + b)[i].Has(u);
      assert i < |a| ==> a[i].Has(u);
      assert i >= |a| ==> b[i - |a|].Has(u);
    }
    if Covers(a, u) {
      var i :| 0 <= i < |a| && a[i].Has(u);
      assert (a + b)[i].Has(u);
    }
    if Covers(b, u) {
      var i :| 0 <= i < |b| && b[i].Has(u);
      assert (a + b)[i + |a|].Has(u);
    }
  }

  lemma CoversOne(b: Block, u: int)
    ensures Covers([b], u) <==> b.Has(u)
  {
    assert [b][0] == b;
  }

  lemma CoversBelow(n: nat, bs: seq<Block>, i: nat, u: int)
    requires WellFormed(n, bs) && i < |bs| && Covers(bs[..i], u)
    ensures u < bs[i].off
  {
    var k :| 0 <= k < i && bs[..i][k].Has(u);
    assert bs[k].Has(u);
  }

  lemma CoversAbove(n: nat, bs: seq<Block>, j: nat, u: int)
    requires WellFormed(n, bs) && 0 < j <= |bs| && Covers(bs[j..], u)
    ensures u > bs[j - 1].off + bs[j - 1].size
  {
    var k :| 0 <= k < |bs| - j && bs[j..][k].Has(u);
    assert bs[j + k].Has(u);
  }

  /** The list seen as what precedes, sits at, and follows the positions i..j. */
  lemma CoversSplit(n: nat, bs: seq<Block>, i: nat, j: nat, u: int)
    requires WellFormed(n, bs) && i <= j <= |bs|
    ensures Covers(bs, u) <==> Covers(bs[..i], u) || Covers(bs[i..j], u) || Covers(bs[j..], u)
    ensures i < |bs| && Covers(bs[..i], u) ==> u < bs[i].off
    ensures j > 0 && Covers(bs[j..], u) ==> u > bs[j - 1].off + bs[j - 1].size
  {
    assert bs == bs[..i] + bs[i..j] + bs[j..];
    CoversConcat(bs[..i] + bs[i..j], bs[j..], u);
    CoversConcat(bs[..i], bs[i..j], u);
    if i < |bs| && Covers(bs[..i], u) {
      CoversBelow(n, bs, i, u);
    }
    if j > 0 && Covers(bs[j..], u) {
      CoversAbove(n, bs, j, u);
    }
  }

  /** Two lists join into a well-formed one when the first ends below the second. */
  lemma WellFormedConcat(n: nat, a: seq<Block>, b: seq<Block>)
    requires WellFormed(n, a) && WellFormed(n, b)
    requires a != [] && b != [] ==> a[|a| - 1].off + a[|a| - 1].size < b[0].off
    ensures WellFormed(n, a + b)
  {
    forall i, j | 0 <= i < j < |a + b|
      ensures (a + b)[i].off + (a + b)[i].size < (a + b)[j].off
    {
      if i < |a| <= j {
        assert a[i].off + a[i].size <= a[|a| - 1].off + a[|a| - 1].size;
        assert b[0].off <= b[j - |a|].off;
      }
    }
  }

  lemma WellFormedJoin(n: nat, a: seq<Block>, m: seq<Block>, b: seq<Block>)
    requires WellFormed(n, a) && WellFormed(n, m) && WellFormed(n, b)
    requires a != [] && m != [] ==> a[|a| - 1].off + a[|a| - 1].size < m[0].off
    requires a != [] && b != [] ==> a[|a| - 1].off + a[|a| - 1].size < b[0].off
    requires m != [] && b != [] ==> m[|m| - 1].off + m[|m| - 1].size < b[0].off
    ensures WellFormed(n, a + m + b)
  {
    WellFormedConcat(n, a, m);
    if m == [] {
      assert a + m == a;
    } else {
      assert (a + m)[|a + m| - 1] == m[|m| - 1];
    }
    WellFormedConcat(n, a + m, b);
  }

  // --- what slob_page_alloc does to the list ---

  /** What is left of a free block b once [b.off+delta, b.off+delta+units) is taken. */
  ghost function Remainders(b: Block, delta: nat, units: nat): (r: seq<Block>)
    requires delta + units <= b.size
  {
    (if delta > 0 then [Block(b.off, delta)] else [])
    + (if delta + units < b.size then [Block(b.off + delta + units, b.size - delta - units)] else [])
  }

  lemma RemaindersCover(b: Block, delta: nat, units: nat, u: int)
    requires delta + units <= b.size
    ensures Covers(Remainders(b, delta, units), u) <==> b.Has(u) && !Block(b.off + delta, units).Has(u)
  {
    var l := if delta > 0 then [Block(b.off, delta)] else [];
    var r := if delta + units < b.size then [Block(b.off + delta + units, b.size - delta - units)] else [];
    CoversConcat(l, r, u);
    CoversOne(Block(b.off, delta), u);
    CoversOne(Block(b.off + delta + units, b.size - delta - units), u);
  }

  /** Block k loses the units [off+delta, off+delta+units); the remainders stay. */
  ghost function Carve(bs: seq<Block>, k: nat, delta: nat, units: nat): seq<Block>
    requires k < |bs| && delta + units <= bs[k].size
  {
    bs[..k] + Remainders(bs[k], delta, units) + bs[k + 1..]
  }

  lemma CarveCovers(n: nat, bs: seq<Block>, k: nat, delta: nat, units: nat, u: int)
    requires WellFormed(n, bs) && k < |bs| && 0 < units && delta + units <= bs[k].size
    ensures Covers(Carve(bs, k, delta, units), u)
       <==> Covers(bs, u) && !Block(bs[k].off + delta, units).Has(u)
  {
    CoversSplit(n, bs, k, k + 1, u);
    assert bs[k..k + 1] == [bs[k]];
    CoversOne(bs[k], u);
    var rs := Remainders(bs[k], delta, units);
    RemaindersCover(bs[k], delta, units, u);
    CoversConcat(bs[..k] + rs, bs[k + 1..], u);
    CoversConcat(bs[..k], rs, u);
  }

  lemma RemaindersWellFormed(n: nat, b: Block, delta: nat, units: nat)
    requires 0 < units && delta + units <= b.size && b.off + b.size <= n
    ensures var rs := Remainders(b, delta, units);
      && WellFormed(n, rs)
      && (rs != [] ==> b.off <= rs[0].off && rs[|rs| - 1].off + rs[|rs| - 1].size <= b.off + b.size)
  {
  }

  lemma CarveWellFormed(n: nat, bs: seq<Block>, k: nat, delta: nat, units: nat)
    requires WellFormed(n, bs) && k < |bs| && 0 < units && delta + units <= bs[k].size
    ensures WellFormed(n, Carve(bs, k, delta, units))
  {
    RemaindersWellFormed(n, bs[k], delta, units);
    WellFormedJoin(n, bs[..k], Remainders(bs[k], delta, units), bs[k + 1..]);
  }

  // --- what slob_free does to the list ---

  /** Block b may go back at position j: it lies between the neighbours j-1 and j. */
  ghost predicate InsertAt(n: nat, bs: seq<Block>, j: nat, b: Block) {
    && j <= |bs|
    && 0 < b.size && b.off + b.size <= n
    && (j > 0 ==> bs[j - 1].off + bs[j - 1].size <= b.off)
    && (j < |bs| ==> b.off + b.size <= bs[j].off)
  }

  ghost predicate TouchesLeft(bs: seq<Block>, j: nat, b: Block) {
    0 < j <= |bs| && bs[j - 1].off + bs[j - 1].size == b.off
  }

  ghost predicate TouchesRight(bs: seq<Block>, j: nat, b: Block) {
    j < |bs| && b.off + b.size == bs[j].off
  }

  /** b together with the neighbours it touches. */
  ghost function Merged(bs: seq<Block>, j: nat, b: Block): Block
    requires j <= |bs|
  {
    var r := if TouchesRight(bs, j, b) then Block(b.off, b.size + bs[j].size) else b;
    if TouchesLeft(bs, j, b) then Block(bs[j - 1].off, bs[j - 1].size + r.size) else r
  }

  ghost function Insert(bs: seq<Block>, j: nat, b: Block): seq<Block>
    requires j <= |bs|
  {
    bs[..if TouchesLeft(bs, j, b) then j - 1 else j]
    + [Merged(bs, j, b)]
    + bs[if TouchesRight(bs, j, b) then j + 1 else j..]
  }

  lemma InsertCovers(n: nat, bs: seq<Block>, j: nat, b: Block, u: int)
    requires WellFormed(n, bs) && InsertAt(n, bs, j, b)
    ensures Covers(Insert(bs, j, b), u) <==> Covers(bs, u) || b.Has(u)
  {
    var lo := if TouchesLeft(bs, j, b) then j - 1 else j;
    var hi := if TouchesRight(bs, j, b) then j + 1 else j;
    CoversSplit(n, bs, lo, hi, u);
    CoversSplit(n, bs[lo..hi], j - lo, j - lo, u);
    assert lo < j ==> bs[lo..hi][..j - lo] == [bs[j - 1]];
    assert j < hi ==> bs[lo..hi][j - lo..] == [bs[j]];
    if lo < j { CoversOne(bs[j - 1], u); }
    if j < hi { CoversOne(bs[j], u); }
    CoversOne(Merged(bs, j, b), u);
    CoversConcat(bs[..lo] + [Merged(bs, j, b)], bs[hi..], u);
    CoversConcat(bs[..lo], [Merged(bs, j, b)], u);
  }

  /** Once merged, the block touches neither neighbour left. */
  lemma MergedFits(n: nat, bs: seq<Block>, j: nat, b: Block, lo: nat, hi: nat)
    requires WellFormed(n, bs) && InsertAt(n, bs, j, b)
    requires lo == (if TouchesLeft(bs, j, b) then j - 1 else j) && hi == if TouchesRight(bs, j, b) then j + 1 else j
    ensures var m := Merged(bs, j, b);
      && m.size > 0 && m.off + m.size <= n
      && (lo > 0 ==> bs[lo - 1].off + bs[lo - 1].size < m.off)
      && (hi < |bs| ==> m.off + m.size < bs[hi].off)
  {
  }

  lemma InsertWellFormed(n: nat, bs: seq<Block>, j: nat, b: Block)
    requires WellFormed(n, bs) && InsertAt(n, bs, j, b)
    ensures WellFormed(n, Insert(bs, j, b))
  {
    var lo := if TouchesLeft(bs, j, b) then j - 1 else j;
    var hi := if TouchesRight(bs, j, b) then j + 1 else j;
    MergedFits(n, bs, j, b, lo, hi);
    Rejoin(n, bs, lo, Merged(bs, j, b), hi);
  }

  lemma Rejoin(n: nat, bs: seq<Block>, lo: nat, m: Block, hi: nat)
    requires WellFormed(n, bs) && lo <= hi <= |bs| && m.size > 0 && m.off + m.size <= n
    requires lo > 0 ==> bs[lo - 1].off + bs[lo - 1].size < m.off
    requires hi < |bs| ==> m.off + m.size < bs[hi].off
    ensures WellFormed(n, bs[..lo] + [m] + bs[hi..])
  {
    WellFormedJoin(n, bs[..lo], [m], bs[hi..]);
  }
}
