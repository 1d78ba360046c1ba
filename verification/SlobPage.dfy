/**
 A SLOB page as the kernel keeps it: a raw array of 16-bit units whose free list
 is written into the free blocks themselves. Pointers into the page are unit
 offsets; the offset n is the address just past the page.
 */
module SlobPage {
  import opened Arith
  import opened Common
  import opened SlobBlocks
  import opened SlobSpec

  /** Block b followed by the block at offset next, as set_slob writes it. */
  ghost predicate Encoded(mem: seq<slobidx>, b: Block, next: nat) {
    && b.size > 0 && b.off + b.size <= |mem|
    && if b.size > 1
       then mem[b.off] as int == b.size && mem[b.off + 1] as int == next
       else -(mem[b.off] as int) == next
  }

  ghost function HeadOff(bs: seq<Block>, next: nat): nat {
    if bs == [] then next else bs[0].off
  }

  /** Block i of the chain bs, which continues at next after its last block. */
  ghost predicate EncodedAt(mem: seq<slobidx>, bs: seq<Block>, i: nat, next: nat)
    requires i < |bs|
  {
    Encoded(mem, bs[i], if i + 1 < |bs| then bs[i + 1].off else next)
  }

  /** bs is encoded as a chain that continues at next. */
  ghost predicate Segment(mem: seq<slobidx>, bs: seq<Block>, next: nat) {
    forall i :: 0 <= i < |bs| ==> EncodedAt(mem, bs, i, next)
  }

  /** Following the encoded offsets from free visits exactly the blocks bs. */
  ghost predicate Represents(mem: seq<slobidx>, free: nat, bs: seq<Block>) {
    free == HeadOff(bs, |mem|) && Segment(mem, bs, |mem|)
  }

  lemma SegmentConcat(mem: seq<slobidx>, a: seq<Block>, b: seq<Block>, next: nat)
    ensures Segment(mem, a + b, next) <==> Segment(mem, a, HeadOff(b, next)) && Segment(mem, b, next)
    ensures HeadOff(a + b, next) == HeadOff(a, HeadOff(b, next))
  {
    var c := a + b;
    forall i | 0 <= i < |a|
      ensures EncodedAt(mem, c, i, next) <==> EncodedAt(mem, a, i, HeadOff(b, next))
    {
      assert c[i] == a[i];
      assert i + 1 < |c| ==> c[i + 1] == if i + 1 < |a| then a[i + 1] else b[0];
    }
    forall i | 0 <= i < |b|
      ensures EncodedAt(mem, c, |a| + i, next) <==> EncodedAt(mem, b, i, next)
    {
      assert c[|a| + i] == b[i];
      assert i + 1 < |b| ==> c[|a| + i + 1] == b[i + 1];
    }
    if Segment(mem, a, HeadOff(b, next)) && Segment(mem, b, next) {
      forall i | 0 <= i < |c| ensures EncodedAt(mem, c, i, next) {
        assert i < |a| ==> EncodedAt(mem, a, i, HeadOff(b, next));
        assert i >= |a| ==> EncodedAt(mem, b, i - |a|, next);
        assert i >= |a| ==> EncodedAt(mem, c, |a| + (i - |a|), next);
      }
    }
  }

  lemma SegmentFrame(mem0: seq<slobidx>, mem1: seq<slobidx>, bs: seq<Block>, next: nat)
    requires Segment(mem0, bs, next) && |mem0| == |mem1|
    requires forall i, u :: 0 <= i < |bs| && 0 <= u < |mem0| && bs[i].Has(u) ==> mem1[u] == mem0[u]
    ensures Segment(mem1, bs, next)
  {
    forall i | 0 <= i < |bs| ensures EncodedAt(mem1, bs, i, next) {
      assert EncodedAt(mem0, bs, i, next);
      assert bs[i].Has(bs[i].off);
      assert bs[i].size > 1 ==> bs[i].Has(bs[i].off + 1);
    }
  }

  lemma EncodedFrame(mem0: seq<slobidx>, mem1: seq<slobidx>, b: Block, next: nat)
    requires Encoded(mem0, b, next) && |mem0| == |mem1|
    requires forall i :: 0 <= i < |mem0| && b.Has(i) ==> mem1[i] == mem0[i]
    ensures Encoded(mem1, b, next)
  {
    assert b.Has(b.off) && (b.size > 1 ==> b.Has(b.off + 1));
  }

  lemma SegmentOne(mem: seq<slobidx>, b: Block, next: nat)
    ensures Segment(mem, [b], next) <==> Encoded(mem, b, next)
  {
    assert EncodedAt(mem, [b], 0, next) <==> Encoded(mem, b, next);
  }

  /** The chain a, whose last block is rewritten to continue elsewhere. */
  lemma Relink(mem0: seq<slobidx>, mem1: seq<slobidx>, a: seq<Block>, next0: nat, next1: nat)
    requires a != [] && Segment(mem0, a, next0) && |mem0| == |mem1|
    requires forall i, u :: 0 <= i < |a| - 1 && 0 <= u < |mem0| && a[i].Has(u) ==> mem1[u] == mem0[u]
    requires Encoded(mem1, a[|a| - 1], next1)
    ensures Segment(mem1, a, next1)
    ensures HeadOff(a, next0) == HeadOff(a, next1)
  {
    var l, z := a[..|a| - 1], a[|a| - 1];
    assert a == l + [z];
    SegmentConcat(mem0, l, [z], next0);
    SegmentConcat(mem1, l, [z], next1);
    SegmentOne(mem1, z, next1);
    SegmentFrame(mem0, mem1, l, z.off);
  }

  /** The predecessor pointer a scan holds when it stands at block k. */
  ghost function PrevOf(bs: seq<Block>, k: nat): Option<nat>
    requires k <= |bs|
  {
    if k == 0 then None else Some(bs[k - 1].off)
  }

  /** Standing at block k: what it encodes, and what its predecessor encodes. */
  lemma BlockAt(mem: seq<slobidx>, bs: seq<Block>, k: nat, next: nat)
    requires k < |bs| && Segment(mem, bs, next)
    ensures Encoded(mem, bs[k], HeadOff(bs[k + 1..], next))
    ensures k > 0 ==> Encoded(mem, bs[k - 1], bs[k].off)
  {
    assert EncodedAt(mem, bs, k, next);
    assert k > 0 ==> EncodedAt(mem, bs, k - 1, next);
  }

  lemma RemaindersEncoded(mem: seq<slobidx>, b: Block, delta: nat, units: nat, next: nat)
    requires delta + units <= b.size
    requires delta + units < b.size ==> Encoded(mem, Block(b.off + delta + units, b.size - delta - units), next)
    requires delta > 0 ==>
               Encoded(mem, Block(b.off, delta), if delta + units == b.size then next else b.off + delta + units)
    ensures Segment(mem, Remainders(b, delta, units), next)
  {
    var l := if delta > 0 then [Block(b.off, delta)] else [];
    var r := if delta + units < b.size then [Block(b.off + delta + units, b.size - delta - units)] else [];
    SegmentConcat(mem, l, r, next);
    SegmentOne(mem, Block(b.off, delta), HeadOff(r, next));
    SegmentOne(mem, Block(b.off + delta + units, b.size - delta - units), next);
  }

  /**
   Rewriting only the blocks lo..hi, now m, and the link into them, turns the encoding
   of bs into that of the list with m in their place.
   */
  lemma SpliceRepresents(n: nat, mem0: seq<slobidx>, free0: nat, mem1: seq<slobidx>, free1: nat,
                         bs: seq<Block>, lo: nat, hi: nat, m: seq<Block>)
    requires |mem0| == |mem1| == n && Represents(mem0, free0, bs) && lo <= hi <= |bs|
    requires Segment(mem1, m, HeadOff(bs[hi..], n))
    requires var link := HeadOff(m, HeadOff(bs[hi..], n));
      if lo == 0 then free1 == link
      else free1 == free0 && Encoded(mem1, bs[lo - 1], link)
    requires forall x, i :: (0 <= x < lo - 1 || hi <= x < |bs|) && 0 <= i < n && bs[x].Has(i) ==> mem1[i] == mem0[i]
    ensures Represents(mem1, free1, bs[..lo] + m + bs[hi..])
  {
    var l, c, r := bs[..lo], bs[lo..hi], bs[hi..];
    assert bs == l + c + r;
    SegmentConcat(mem0, l + c, r, n);
    SegmentConcat(mem0, l, c, HeadOff(r, n));
    SegmentFrame(mem0, mem1, r, n);
    if lo > 0 {
      Relink(mem0, mem1, l, HeadOff(c, HeadOff(r, n)), HeadOff(m, HeadOff(r, n)));
    }
    SegmentConcat(mem1, l, m, HeadOff(r, n));
    SegmentConcat(mem1, l + m, r, n);
  }

  lemma AroundBlock(n: nat, mem: seq<slobidx>, bs: seq<Block>, k: nat)
    requires |mem| == n && WellFormed(n, bs) && Segment(mem, bs, n) && k < |bs|
    ensures 0 < HeadOff(bs[k + 1..], n) <= n
    ensures Encoded(mem, bs[k], HeadOff(bs[k + 1..], n))
    ensures k > 0 ==> Encoded(mem, bs[k - 1], bs[k].off) && bs[k - 1].off + bs[k - 1].size <= bs[k].off
  {
    BlockAt(mem, bs, k, n);
  }

  /** The memory after block k has been carved encodes the list with the remainders in its place. */
  lemma CarveRepresents(n: nat, mem0: seq<slobidx>, free0: nat, mem1: seq<slobidx>, free1: nat,
                        bs: seq<Block>, k: nat, delta: nat, want: nat)
    requires |mem0| == |mem1| == n && WellFormed(n, bs) && Represents(mem0, free0, bs)
    requires k < |bs| && delta + want <= bs[k].size
    requires Segment(mem1, Remainders(bs[k], delta, want), HeadOff(bs[k + 1..], n))
    requires var link := HeadOff(Remainders(bs[k], delta, want), HeadOff(bs[k + 1..], n));
      if k == 0 then free1 == link else free1 == free0 && Encoded(mem1, bs[k - 1], link)
    requires forall i :: 0 <= i < n && !bs[k].Has(i) && !(k > 0 && bs[k - 1].Has(i)) ==> mem1[i] == mem0[i]
    ensures Represents(mem1, free1, Carve(bs, k, delta, want))
  {
    SpliceRepresents(n, mem0, free0, mem1, free1, bs, k, k + 1, Remainders(bs[k], delta, want));
  }

  /** The memory after an insertion above the head encodes the list with the block inserted. */
  lemma InsertRepresents(n: nat, mem0: seq<slobidx>, free: nat, mem1: seq<slobidx>,
                         bs: seq<Block>, j: nat, b: Block, rest: nat)
    requires |mem0| == |mem1| == n && WellFormed(n, bs) && Represents(mem0, free, bs)
    requires 0 < j <= |bs| && InsertAt(n, bs, j, b)
    requires rest == HeadOff(bs[if TouchesRight(bs, j, b) then j + 1 else j..], n)
    requires Encoded(mem1, Merged(bs, j, b), rest)
    requires !TouchesLeft(bs, j, b) ==> Encoded(mem1, bs[j - 1], b.off)
    requires forall i :: 0 <= i < n && !bs[j - 1].Has(i) && !Merged(bs, j, b).Has(i) ==> mem1[i] == mem0[i]
    ensures Represents(mem1, free, Insert(bs, j, b))
  {
    var left, m := TouchesLeft(bs, j, b), Merged(bs, j, b);
    var lo, hi := if left then j - 1 else j, if TouchesRight(bs, j, b) then j + 1 else j;
    SegmentOne(mem1, m, rest);
    if left && lo > 0 {
      assert EncodedAt(mem0, bs, lo - 1, n);
      assert bs[lo - 1].Has(bs[lo - 1].off);
      assert bs[lo - 1].size > 1 ==> bs[lo - 1].Has(bs[lo - 1].off + 1);
    }
    SpliceRepresents(n, mem0, free, mem1, free, bs, lo, hi, [m]);
  }

  /** Around the gap at j: what the neighbours encode, and what b becomes. */
  lemma GapFacts(n: nat, mem: seq<slobidx>, free: nat, bs: seq<Block>, j: nat, b: Block, bb: Block, rest: nat)
    requires |mem| == n && WellFormed(n, bs) && Represents(mem, free, bs) && 0 < j && InsertAt(n, bs, j, b)
    requires bb == if TouchesRight(bs, j, b) then Block(b.off, b.size + bs[j].size) else b
    requires rest == HeadOff(bs[if TouchesRight(bs, j, b) then j + 1 else j..], n)
    ensures var next := HeadOff(bs[j..], n);
      && b.off + b.size <= next <= n && 0 < rest <= n
      && bs[j - 1].off + bs[j - 1].size <= b.off && Encoded(mem, bs[j - 1], next)
      && if next < n && b.off + b.size == next
         then Encoded(mem, Block(next, bb.size - b.size), rest) && b.size <= bb.size
         else bb.size == b.size && rest == next
    ensures Merged(bs, j, b) == if TouchesLeft(bs, j, b) then Block(bs[j - 1].off, bs[j - 1].size + bb.size) else bb
  {
    BlockAt(mem, bs, j - 1, n);
    if j < |bs| {
      BlockAt(mem, bs, j, n);
    }
  }

  /** The fields of a page agree with its blocks. */
  ghost predicate PageOk(s: PageState, mem: seq<slobidx>, units: nat, free: nat, listed: bool) {
    && |mem| == s.n
    && s.Inv()
    && units == Total(s.blocks)
    && listed == (units > 0)
    && (listed ==> Represents(mem, free, s.blocks))
  }

  /** Carving the list and subtracting the units keeps the page in order. */
  lemma CarveKeepsOk(s: PageState, mem0: seq<slobidx>, free0: nat, mem1: seq<slobidx>, free1: nat, units: nat,
                     k: nat, want: nat, align: nat)
    requires PageOk(s, mem0, units, free0, true) && |mem1| == s.n
    requires want > 0 && (align == 0 || IsPow2(align)) && s.Fits(k, want, align)
    requires Represents(mem1, free1, Carve(s.blocks, k, Delta(s.base, s.blocks[k].off, align), want))
    ensures want <= units
    ensures PageOk(s.Taken(k, want, align), mem1, units - want, free1, units != want)
  {
    AllocKeepsInv(s, k, want, align);
    TakenTotal(s, k, want, align);
  }

  /** Putting a live block back in the list, and adding its units, keeps the page in order. */
  lemma FreeKeepsOk(s: PageState, mem: seq<slobidx>, free: nat, b: nat, j: nat)
    requires s.Inv() && |mem| == s.n
    requires b in s.live && InsertAt(s.n, s.blocks, j, Block(b, s.live[b]))
    requires Represents(mem, free, Insert(s.blocks, j, Block(b, s.live[b])))
    ensures PageOk(s.Returned(b, j), mem, Total(s.blocks) + s.live[b], free, true)
  {
    FreeKeepsInv(s, b, j);
    ReturnedTotal(s, b, j);
  }

  lemma LiveOnPage(s: PageState, u: nat)
    requires s.Inv() && s.LiveAt(u)
    ensures u < s.n && forall i :: 0 <= i < |s.blocks| ==> !s.blocks[i].Has(u)
  {
    assert !Covers(s.blocks, u);
  }

  lemma FreshOk(n: nat, base: nat)
    requires n > 0
    ensures PageState(n, base, map[], [Block(0, n)]).Inv()
    ensures Total([Block(0, n)]) == n
  {
    StepKeepsInv(None, Fresh(n, base), Some(PageState(n, base, map[], [Block(0, n)])));
  }

  class SlobPage {
    const base: nat
    const n: nat
    const mem: array<slobidx>
    var units: nat     // sp->units
    var free: nat      // sp->free
    var listed: bool   // PageSlobFree: on one of the free-page lists
    var owned: bool    // PageSlab: not yet given back to the page allocator
    ghost var state: PageState

    ghost predicate Valid()
      reads this, mem
    {
      && owned
      && 0 < n < 0x8000 && mem.Length == n && base % 2 == 0
      && state.n == n && state.base == base
      && PageOk(state, mem[..], units, free, listed)
    }

    // --- the encoding ---

    method SetSlob(s: nat, size: nat, next: nat)
      requires n < 0x8000 && mem.Length == n && next <= n
      requires 0 < size && s + size <= n
      modifies mem
      ensures Encoded(mem[..], Block(s, size), next)
      ensures forall i :: 0 <= i < n && i != s && !(size > 1 && i == s + 1) ==> mem[i] == old(mem[i])
    {
      if size > 1 {
        mem[s] := size as slobidx;
        mem[s + 1] := next as slobidx;
      } else {
        mem[s] := -(next as slobidx);
      }
    }

    function Units(s: nat): nat
      requires s < mem.Length
      reads mem
    {
      if mem[s] > 0 then mem[s] as nat else 1
    }

    /** The second unit is read only when the first does not hold the negated offset. */
    ghost predicate Readable(s: nat)
      reads mem
    {
      s < mem.Length && (mem[s] >= 0 ==> s + 1 < mem.Length && mem[s + 1] >= 0)
    }

    function Next(s: nat): nat
      requires Readable(s)
      reads mem
    {
      if mem[s] < 0 then -(mem[s] as int) else mem[s + 1] as nat
    }

    /** slob_last: the next pointer is page aligned. */
    function Last(s: nat): bool
      requires n > 0 && Readable(s)
      reads mem
    {
      Next(s) % n == 0
    }

    /** Decoding undoes SetSlob; the next pointer is page aligned exactly when it points past the page. */
    lemma Decodes(b: Block, next: nat)
      requires mem.Length == n && 0 < next <= n && Encoded(mem[..], b, next)
      ensures Readable(b.off)
      ensures Units(b.off) == b.size && Next(b.off) == next
      ensures Last(b.off) <==> next == n
    {
      if next == n {
        ModUnique(next, n, 1, 0);
      } else {
        ModUnique(next, n, 0, next);
      }
    }

    /** Standing at block k of the list. */
    lemma ReadsAt(k: nat)
      requires Valid() && listed && k < |state.blocks|
      ensures var off := state.blocks[k].off;
        && Readable(off) && Units(off) == state.blocks[k].size
        && (Last(off) <==> k + 1 == |state.blocks|)
        && (k + 1 < |state.blocks| ==> Next(off) == state.blocks[k + 1].off)
    {
      BlockAt(mem[..], state.blocks, k, n);
      Decodes(state.blocks[k], HeadOff(state.blocks[k + 1..], n));
    }

    // --- a fresh page ---

    constructor (base: nat, n: nat)
      requires 0 < n < 0x8000 && base % 2 == 0
      ensures Valid() && fresh(mem)
      ensures this.base == base && this.n == n
      ensures state == PageState(n, base, map[], [Block(0, n)])
    {
      this.base, this.n := base, n;
      mem := new slobidx[n];
      units, free, listed, owned := n, 0, true, true;
      state := PageState(n, base, map[], [Block(0, n)]);
      new;
      SetSlob(0, n, n);
      SegmentOne(mem[..], Block(0, n), n);
      FreshOk(n, base);
    }

    // --- slob_page_alloc ---

    /**
     First fit from the given block on. Nothing changes when no block has room; otherwise
     the first one that has is carved: the block handed out is new, holds size bytes with less
     than a unit to spare, and is aligned.
     */
    method PageAlloc(size: nat, align: nat, best: Option<nat>, prevSlob: Option<nat>, ghost start: nat)
      returns (r: Option<nat>)
      requires Valid() && listed && size > 0 && (align == 0 || IsPow2(align))
      requires start < |state.blocks| && prevSlob == PrevOf(state.blocks, start)
      requires best == if start == 0 && best.None? then None else Some(state.blocks[start].off)
      modifies this, mem
      ensures Valid()
      ensures r.None? <==> forall k :: start <= k ==> !old(state).Fits(k, SlobUnits(size), align)
      ensures r.None? ==> unchanged(this) && unchanged(mem)
      ensures r.Some? ==> exists k :: TakenFrom(old(state), state, start, size, align, r.value, k)
    {
      var want := SlobUnits(size);
      var found, cur, prev, avail, delta, k := Scan(want, align, best, prevSlob, start);
      if !found {
        return None;
      }
      ghost var s := state;
      HandedOut(s, start, k, size, align);
      CarveBlock(cur, prev, avail, want, delta, align, k);
      r := Some(cur + delta);
      assert TakenFrom(s, state, start, size, align, r.value, k);
    }

    /** Walk the encoded list for the first block with room for want units after alignment. */
    method Scan(want: nat, align: nat, best: Option<nat>, prevSlob: Option<nat>, ghost start: nat)
      returns (found: bool, cur: nat, prev: Option<nat>, avail: nat, delta: nat, ghost k: nat)
      requires Valid() && listed && (align == 0 || IsPow2(align))
      requires start < |state.blocks| && prevSlob == PrevOf(state.blocks, start)
      requires best == if start == 0 && best.None? then None else Some(state.blocks[start].off)
      ensures if found
              then state.FirstFit(start, want, align, k) && cur == state.blocks[k].off && prev == PrevOf(state.blocks, k)
                && avail == state.blocks[k].size && delta == Delta(base, cur, align)
              else forall i :: start <= i ==> !state.Fits(i, want, align)
    {
      prev := prevSlob;
      cur := if best.Some? then best.value else free;
      k := start;
      while true
        invariant start <= k < |state.blocks| && cur == state.blocks[k].off && prev == PrevOf(state.blocks, k)
        invariant forall i :: start <= i < k ==> !state.Fits(i, want, align)
        decreases |state.blocks| - k
      {
        ReadsAt(k);
        avail := Units(cur);
        delta := Delta(base, cur, align);
        if avail >= want + delta {
          found := true;
          return;
        }
        if Last(cur) {
          found := false;
          return;
        }
        prev := Some(cur);
        cur := Next(cur);
        k := k + 1;
      }
    }

    /** The successful branch of the scan: rewrite the list, then account for the units. */
    method CarveBlock(cur: nat, prev: Option<nat>, avail: nat, want: nat, delta: nat, align: nat, ghost k: nat)
      requires Valid() && listed && want > 0 && (align == 0 || IsPow2(align))
      requires k < |state.blocks| && cur == state.blocks[k].off && prev == PrevOf(state.blocks, k)
      requires avail == state.blocks[k].size && delta == Delta(base, cur, align) && want + delta <= avail
      modifies this, mem
      ensures Valid()
      ensures state == old(state).Taken(k, want, align)
    {
      ghost var mem0, free0 := mem[..], free;
      Rewrite(cur, prev, avail, want, delta, state.blocks, k);
      CarveKeepsOk(state, mem0, free0, mem[..], free, units, k, want, align);
      AccountFor(want, state.Taken(k, want, align));
    }

    /** Subtract the units taken; a page with none left goes off the list. */
    method AccountFor(want: nat, ghost t: PageState)
      requires owned && listed && 0 < n < 0x8000 && mem.Length == n && base % 2 == 0
      requires want <= units && t.n == n && t.base == base && PageOk(t, mem[..], units - want, free, units != want)
      modifies this
      ensures Valid() && state == t
    {
      state := t;
      units := units - want;
      if units == 0 {
        listed := false;
      }
    }

    /** Split the head off to align, then unlink the block or shrink it from the front. */
    method Rewrite(cur: nat, prev: Option<nat>, avail: nat, want: nat, delta: nat, ghost bs: seq<Block>, ghost k: nat)
      requires 0 < n < 0x8000 && mem.Length == n && WellFormed(n, bs) && Represents(mem[..], free, bs)
      requires k < |bs| && cur == bs[k].off && prev == PrevOf(bs, k)
      requires avail == bs[k].size && 0 < want && want + delta <= avail
      modifies `free, mem
      ensures Represents(mem[..], free, Carve(bs, k, delta, want))
    {
      ghost var mem0, free0, nx := mem[..], free, HeadOff(bs[k + 1..], n);
      ghost var pb := if k > 0 then bs[k - 1] else bs[k];
      AroundBlock(n, mem0, bs, k);
      SplitAndTake(cur, prev, avail, want, delta, nx, pb);
      CarveRepresents(n, mem0, free0, mem[..], free, bs, k, delta, want);
    }

    method SplitAndTake(cur: nat, prev: Option<nat>, avail: nat, want: nat, delta: nat, ghost nx: nat, ghost pb: Block)
      requires 0 < n < 0x8000 && mem.Length == n && 0 < nx <= n && 0 < want && want + delta <= avail
      requires Encoded(mem[..], Block(cur, avail), nx)
      requires prev.Some? ==> prev.value == pb.off && Encoded(mem[..], pb, cur) && pb.off + pb.size <= cur
      requires prev.None? ==> free == cur
      modifies `free, mem
      ensures Segment(mem[..], Remainders(Block(cur, avail), delta, want), nx)
      ensures var link := HeadOff(Remainders(Block(cur, avail), delta, want), nx);
        if prev.None? then free == link else free == old(free) && Encoded(mem[..], pb, link)
      ensures forall i :: 0 <= i < n && !Block(cur, avail).Has(i) && !(prev.Some? && pb.Has(i)) ==> mem[i] == old(mem[i])
    {
      if delta > 0 {
        ghost var mem0 := mem[..];
        var rest := SplitHead(cur, avail, delta, nx);
        TakeFront(cur + delta, Some(cur), rest, want, nx, Block(cur, delta));
        if prev.Some? {
          EncodedFrame(mem0, mem[..], pb, cur);
        }
      } else {
        TakeFront(cur, prev, avail, want, nx, pb);
      }
      RemaindersEncoded(mem[..], Block(cur, avail), delta, want, nx);
    }

    /** Cut the block in two after delta units. */
    method SplitHead(cur: nat, avail: nat, delta: nat, ghost nx: nat) returns (rest: nat)
      requires 0 < n < 0x8000 && mem.Length == n && 0 < nx <= n && 0 < delta < avail
      requires Encoded(mem[..], Block(cur, avail), nx)
      modifies mem
      ensures rest == avail - delta
      ensures Encoded(mem[..], Block(cur, delta), cur + delta)
      ensures Encoded(mem[..], Block(cur + delta, rest), nx)
      ensures forall i :: 0 <= i < n && !Block(cur, avail).Has(i) ==> mem[i] == old(mem[i])
    {
      Decodes(Block(cur, avail), nx);
      var next := Next(cur);
      SetSlob(cur + delta, avail - delta, next);
      SetSlob(cur, delta, cur + delta);
      Decodes(Block(cur + delta, avail - delta), nx);
      rest := Units(cur + delta);
    }

    /** Take want units from the front of block cur; its predecessor, or free, links to what follows. */
    method TakeFront(cur: nat, prev: Option<nat>, avail: nat, want: nat, ghost nx: nat, ghost pb: Block)
      requires 0 < n < 0x8000 && mem.Length == n && 0 < nx <= n && 0 < want <= avail
      requires Encoded(mem[..], Block(cur, avail), nx)
      requires prev.Some? ==> prev.value == pb.off && Encoded(mem[..], pb, cur) && pb.off + pb.size <= cur
      modifies `free, mem
      ensures avail != want ==> Encoded(mem[..], Block(cur + want, avail - want), nx)
      ensures var link := if avail == want then nx else cur + want;
        if prev.None? then free == link else free == old(free) && Encoded(mem[..], pb, link)
      ensures forall i :: 0 <= i < n && !Block(cur, avail).Has(i) && !(prev.Some? && pb.Has(i)) ==> mem[i] == old(mem[i])
    {
      Decodes(Block(cur, avail), nx);
      var next := Next(cur);
      var link := if avail == want then next else cur + want;
      if prev.Some? {
        Decodes(pb, cur);
        SetSlob(prev.value, Units(prev.value), link);
      } else {
        free := link;
      }
      if avail != want {
        SetSlob(cur + want, avail - want, next);
      }
    }

    /** The owner of a live block may store anything in it: the free list does not notice. */
    method WriteLive(u: nat, v: slobidx)
      requires Valid() && state.LiveAt(u)
      modifies mem
      ensures Valid() && mem[u] == v
    {
      ghost var mem0 := mem[..];
      LiveOnPage(state, u);
      mem[u] := v;
      if listed {
        SegmentFrame(mem0, mem[..], state.blocks, n);
      }
    }

    // --- slob_free ---

    /**
     Give a live block back. The page itself goes back to the page allocator exactly when
     no other block is live; otherwise the block rejoins the list, coalesced on both sides.
     */
    method Free(block: Option<nat>, size: nat)
      requires Valid() && size > 0
      requires block.Some? ==> block.value in state.live && state.live[block.value] == SlobUnits(size)
      modifies this, mem
      ensures block.None? ==> unchanged(this) && unchanged(mem)
      ensures block.Some? && old(state).live.Keys == {block.value} ==> !owned && !listed
      ensures block.Some? && old(state).live.Keys != {block.value} ==>
                Valid() && listed
                && exists j: nat :: InsertAt(n, old(state).blocks, j, Block(block.value, SlobUnits(size)))
                                 && state == old(state).Returned(block.value, j)
    {
      if block.None? {
        return;
      }
      var b, u := block.value, SlobUnits(size);
      LastBlockTest(state, b);
      if units + u == n {
        listed := false;
        owned := false;
        return;
      }
      ghost var mem0, free0, j := mem[..], free, 0;
      if !listed {
        EmptyListIffNoUnits(n, state.blocks);
        ModUnique(b + n, n, 1, b);
        units := u;
        free := b;
        SetSlob(b, u, b + n - (b + n) % n);
        listed := true;
        SegmentOne(mem[..], Block(b, u), n);
      } else {
        units := units + u;
        j := Reinsert(b, u);
      }
      ghost var mem1 := mem[..];
      FreeKeepsOk(state, mem1, free, b, j);
      state := state.Returned(b, j);
      assert mem[..] == mem1;
    }

    /** Address-ordered insertion with merging, on a page that already has free blocks. */
    method Reinsert(b: nat, u: nat) returns (ghost j: nat)
      requires 0 < n < 0x8000 && mem.Length == n && state.n == n && state.Inv() && state.blocks != []
      requires Represents(mem[..], free, state.blocks)
      requires b in state.live && u == state.live[b]
      modifies `free, mem
      ensures InsertAt(n, state.blocks, j, Block(b, u))
      ensures Represents(mem[..], free, Insert(state.blocks, j, Block(b, u)))
    {
      ghost var bs := state.blocks;
      BlockAt(mem[..], bs, 0, n);
      if b < free {
        j := 0;
        LiveInGap(state, b, 0);
        InsertFirst(b, u, bs);
      } else {
        var prev, next;
        prev, next, j := FindGap(b);
        InsertAfter(b, u, prev, next, bs, j);
      }
    }

    /** Walk to the last free block below b. */
    method FindGap(b: nat) returns (prev: nat, next: nat, ghost j: nat)
      requires 0 < n < 0x8000 && mem.Length == n && state.n == n && state.Inv() && state.blocks != []
      requires Represents(mem[..], free, state.blocks)
      requires b in state.live && free <= b
      ensures 0 < j <= |state.blocks| && InsertAt(n, state.blocks, j, Block(b, state.live[b]))
      ensures prev == state.blocks[j - 1].off && next == HeadOff(state.blocks[j..], n)
    {
      ghost var bs, m := state.blocks, mem[..];
      BlockAt(m, bs, 0, n);
      LiveNotFree(state, b, 0);
      Decodes(bs[0], HeadOff(bs[1..], n));
      prev := free;
      next := Next(prev);
      j := 1;
      while b > next
        invariant 1 <= j <= |bs| && prev == bs[j - 1].off < b
        invariant next == HeadOff(bs[j..], n)
        decreases |bs| - j
      {
        BlockAt(m, bs, j, n);
        Decodes(bs[j], HeadOff(bs[j + 1..], n));
        prev := next;
        next := Next(prev);
        j := j + 1;
      }
      LiveInGap(state, b, j);
    }

    /** The block lies below the whole list: it becomes the head, swallowing the old head if they touch. */
    method InsertFirst(b: nat, u: nat, ghost bs: seq<Block>)
      requires 0 < n < 0x8000 && mem.Length == n && WellFormed(n, bs) && bs != []
      requires Represents(mem[..], free, bs) && InsertAt(n, bs, 0, Block(b, u))
      modifies `free, mem
      ensures Represents(mem[..], free, Insert(bs, 0, Block(b, u)))
    {
      ghost var mem0, free0 := mem[..], free;
      ghost var hi := if TouchesRight(bs, 0, Block(b, u)) then 1 else 0;
      ghost var rest := HeadOff(bs[1..], n);
      BlockAt(mem0, bs, 0, n);
      var units := u;
      if b + units == free {
        Decodes(bs[0], rest);
        units := units + Units(free);
        free := Next(free);
      }
      SetSlob(b, units, free);
      free := b;
      SegmentOne(mem[..], Block(b, units), HeadOff(bs[hi..], n));
      SpliceRepresents(n, mem0, free0, mem[..], free, bs, 0, hi, [Block(b, units)]);
    }

    /** The block goes between prev and next: join it to next if they touch, then to prev. */
    method InsertAfter(b: nat, u: nat, prev: nat, next: nat, ghost bs: seq<Block>, ghost j: nat)
      requires 0 < n < 0x8000 && mem.Length == n && WellFormed(n, bs) && 0 < j <= |bs|
      requires Represents(mem[..], free, bs) && InsertAt(n, bs, j, Block(b, u))
      requires prev == bs[j - 1].off && next == HeadOff(bs[j..], n)
      modifies mem
      ensures Represents(mem[..], free, Insert(bs, j, Block(b, u)))
    {
      ghost var mem0 := mem[..];
      ghost var right := TouchesRight(bs, j, Block(b, u));
      ghost var rest := HeadOff(bs[if right then j + 1 else j..], n);
      ghost var bb := if right then Block(b, u + bs[j].size) else Block(b, u);
      GapFacts(n, mem0, free, bs, j, Block(b, u), bb, rest);
      JoinNext(b, u, prev, next, bs[j - 1], bb, rest);
      JoinPrev(prev, b, bs[j - 1], bb, next, rest);
      InsertRepresents(n, mem0, free, mem[..], bs, j, Block(b, u), rest);
    }

    /** Write b, extended over the block at next when they touch. */
    method JoinNext(b: nat, u: nat, prev: nat, next: nat, ghost pb: Block, ghost bb: Block, ghost rest: nat)
      requires 0 < n < 0x8000 && mem.Length == n && 0 < u && b + u <= next <= n && 0 < rest <= n
      requires prev == pb.off && Encoded(mem[..], pb, next) && bb.off == b && bb.size >= u
      requires if next < n && b + u == next
               then Encoded(mem[..], Block(next, bb.size - u), rest)
               else bb.size == u && rest == next
      modifies mem
      ensures Encoded(mem[..], bb, rest)
      ensures forall i :: 0 <= i < n && !bb.Has(i) ==> mem[i] == old(mem[i])
    {
      Decodes(pb, next);
      if !Last(prev) && b + u == next {
        Decodes(Block(next, bb.size - u), rest);
        SetSlob(b, u + Units(next), Next(next));
      } else {
        SetSlob(b, u, next);
      }
    }

    /** Extend prev over b when they touch; otherwise link prev to b. */
    method JoinPrev(prev: nat, b: nat, ghost pb: Block, ghost bb: Block, ghost x: nat, ghost rest: nat)
      requires 0 < n < 0x8000 && mem.Length == n && 0 < rest <= n
      requires prev == pb.off && b == bb.off && pb.off + pb.size <= b
      requires Encoded(mem[..], bb, rest)
      requires 0 < x <= n && Encoded(mem[..], pb, x)
      modifies mem
      ensures if pb.off + pb.size == b
              then Encoded(mem[..], Block(pb.off, pb.size + bb.size), rest)
              else Encoded(mem[..], pb, b) && Encoded(mem[..], bb, rest)
      ensures forall i :: 0 <= i < n && !pb.Has(i) && !bb.Has(i) ==> mem[i] == old(mem[i])
    {
      Decodes(pb, x);
      if prev + Units(prev) == b {
        Decodes(bb, rest);
        SetSlob(prev, Units(b) + Units(prev), Next(b));
      } else {
        SetSlob(prev, Units(prev), b);
      }
    }
  }
}
