/**
 The runtime of one task group on each CPU of its root domain: borrowing from neighbours,
 taking back what was lent when a CPU goes away, and coming back.
 */
module RtBorrow {
  import opened Arith
  import opened Common

  const S64: nat := 0x8000_0000_0000_0000

  /** What the enabled runqueues hold together. */
  function Sum(s: seq<nat>): nat {
    if s == [] then 0 else (if s[0] == INF then 0 else s[0]) + Sum(s[1..])
  }

  function Count(s: seq<nat>): nat {
    if s == [] then 0 else (if s[0] == INF then 0 else 1) + Count(s[1..])
  }

  function Off(v: nat, runtime: nat): int { if v == INF then 0 else v - runtime }

  /** What the enabled runqueues hold beyond their own runtime, summed with sign. */
  function Excess(s: seq<nat>, runtime: nat): int {
    if s == [] then 0 else Off(s[0], runtime) + Excess(s[1..], runtime)
  }

  /** The enabled runqueues together hold exactly what they were given. */
  ghost predicate Conserved(runtime: nat, rq: seq<nat>) {
    if runtime == INF then forall i :: 0 <= i < |rq| ==> rq[i] == INF
    else Excess(rq, runtime) == 0
  }

  lemma {:induction false} ExcessIsSum(s: seq<nat>, runtime: nat)
    ensures Excess(s, runtime) == Sum(s) - Count(s) * runtime
  {
    if s != [] {
      ExcessIsSum(s[1..], runtime);
      assert (1 + Count(s[1..])) * runtime == runtime + Count(s[1..]) * runtime;
    }
  }

  /** With a finite runtime: n enabled runqueues hold n times the runtime. */
  lemma ConservedMeans(runtime: nat, rq: seq<nat>)
    requires runtime != INF
    ensures Conserved(runtime, rq) <==> Sum(rq) == Count(rq) * runtime
  {
    ExcessIsSum(rq, runtime);
  }

  /** A runqueue that borrowed and is enabled again without being disabled first: 50 units are gone. */
  lemma EnableLeaks()
    ensures Conserved(950, [1000, 900]) && !Conserved(950, [1000, 900][0 := 950])
  {
    assert [1000, 900][0 := 950] == [950, 900];
    assert [1000, 900][1..] == [950, 900][1..] == [900] && [900][1..] == [];
  }

  lemma {:induction false} Update(s: seq<nat>, i: nat, v: nat, runtime: nat)
    requires i < |s|
    ensures Excess(s[i := v], runtime) == Excess(s, runtime) - Off(s[i], runtime) + Off(v, runtime)
  {
    if i == 0 {
      assert s[i := v][1..] == s[1..];
    } else {
      assert s[i := v][1..] == s[1..][i - 1 := v];
      Update(s[1..], i - 1, v, runtime);
    }
  }

  lemma {:induction false} PartOfSum(s: seq<nat>, i: nat)
    requires i < |s| && s[i] != INF
    ensures s[i] <= Sum(s)
  {
    if i > 0 {
      PartOfSum(s[1..], i - 1);
    }
  }

  lemma {:induction false} CountBound(s: seq<nat>)
    ensures Count(s) <= |s|
  {
    if s != [] {
      CountBound(s[1..]);
    }
  }

  lemma {:induction false} AllEqual(s: seq<nat>, v: nat)
    requires forall i :: 0 <= i < |s| ==> s[i] == v
    ensures Excess(s, v) == 0
  {
    if s != [] {
      AllEqual(s[1..], v);
    }
  }

  /** No runqueue holds more than all of them were given, so no 64-bit sum or difference wraps. */
  lemma NoWrap(runtime: nat, rq: seq<nat>, i: nat)
    requires Conserved(runtime, rq) && i < |rq| && rq[i] != INF && |rq| * runtime < S64
    ensures rq[i] <= |rq| * runtime
  {
    ConservedMeans(runtime, rq);
    PartOfSum(rq, i);
    CountBound(rq);
    MulOrder(Count(rq), |rq|, runtime);
  }

  /** When the others hold nothing, or are all disabled, what is missing at r is at most nothing. */
  lemma {:induction false} OthersGiveNothing(s: seq<nat>, r: nat, runtime: nat)
    requires r < |s| && forall j :: 0 <= j < |s| && j != r ==> s[j] == INF || s[j] == 0
    ensures Excess(s, runtime) <= Off(s[r], runtime)
    ensures (forall j :: 0 <= j < |s| && j != r ==> s[j] == INF) ==> Excess(s, runtime) == Off(s[r], runtime)
  {
    if r == 0 {
      NothingIn(s[1..], runtime);
    } else {
      assert s[1..][r - 1] == s[r];
      OthersGiveNothing(s[1..], r - 1, runtime);
    }
  }

  lemma {:induction false} NothingIn(s: seq<nat>, runtime: nat)
    requires forall j :: 0 <= j < |s| ==> s[j] == INF || s[j] == 0
    ensures Excess(s, runtime) <= 0
    ensures (forall j :: 0 <= j < |s| ==> s[j] == INF) ==> Excess(s, runtime) == 0
  {
    if s != [] {
      NothingIn(s[1..], runtime);
    }
  }

  lemma ShareBound(x: nat, n: nat)
    requires n > 0
    ensures x / n <= x && x / n * n <= x < x / n * n + n
    ensures x / n == 0 <==> x < n
  {
    var q := x / n;
    assert x == q * n + x % n;
    MulOrder(1, n, x);
    DivLe(x, n, x);
    MulOrder(1, q, n);
  }

  /** All of it fits: every enabled entry is below 2^63. */
  lemma AllBelow(runtime: nat, rq: seq<nat>)
    requires Conserved(runtime, rq) && (runtime != INF ==> |rq| * runtime < S64)
    ensures forall i :: 0 <= i < |rq| && rq[i] != INF ==> rq[i] < S64
  {
    forall i | 0 <= i < |rq| && rq[i] != INF ensures rq[i] < S64 {
      NoWrap(runtime, rq, i);
    }
  }

  /** Moving runtime between two enabled runqueues conserves it. */
  lemma TransferKeeps(runtime: nat, rq: seq<nat>, i: nat, r: nat, diff: int)
    requires Conserved(runtime, rq) && |rq| * runtime < S64 && i < |rq| && r < |rq| && i != r
    requires rq[i] != INF && rq[r] != INF && -rq[r] <= diff <= rq[i]
    ensures rq[i] - diff != INF && rq[r] + diff != INF
    ensures Conserved(runtime, rq[i := rq[i] - diff][r := rq[r] + diff])
  {
    NoWrap(runtime, rq, i);
    NoWrap(runtime, rq, r);
    Update(rq, i, rq[i] - diff, runtime);
    Update(rq[i := rq[i] - diff], r, rq[r] + diff, runtime);
  }

  /** An enabled CPU with runtime left over. */
  ghost predicate HasSpare(rq: seq<nat>, time: seq<nat>, i: nat)
    requires i < |rq| && i < |time|
  {
    rq[i] != INF && rq[i] > time[i]
  }

  /** s is the n-th part, rounded down, of what CPU i has left over. */
  ghost predicate NthPart(rq: seq<nat>, time: seq<nat>, i: nat, s: int)
    requires i < |rq| && i < |time|
  {
    if HasSpare(rq, time, i) then s * |rq| <= rq[i] - time[i] < s * |rq| + |rq| else s == 0
  }

  /** What CPU i can spare for another. It is nothing unless a whole unit is left for each CPU. */
  function Share(rq: seq<nat>, time: seq<nat>, i: nat): (s: nat)
    requires i < |rq| && i < |time|
    ensures s <= rq[i] && NthPart(rq, time, i, s)
    ensures s == 0 <==> rq[i] == INF || rq[i] < time[i] + |rq|
  {
    if rq[i] != INF && rq[i] > time[i] then
      ShareBound(rq[i] - time[i], |rq|);
      (rq[i] - time[i]) / |rq|
    else 0
  }

  /** The CPUs before k have lent r their shares; those after k have not been asked. */
  ghost predicate Lent(rq0: seq<nat>, rq: seq<nat>, time: seq<nat>, r: nat, k: nat)
    requires |rq0| == |rq| <= |time|
  {
    forall j :: 0 <= j < |rq| && j != r ==>
      && (rq[j] == INF <==> rq0[j] == INF)
      && (j < k ==> rq[j] == rq0[j] - Share(rq0, time, j))
      && (j > k ==> rq[j] == rq0[j])
  }

  lemma LentParts(rq0: seq<nat>, rq: seq<nat>, time: seq<nat>, r: nat, k: nat)
    requires |rq0| == |rq| <= |time| && Lent(rq0, rq, time, r, k)
    ensures forall j :: 0 <= j < k && j < |rq| && j != r ==> NthPart(rq0, time, j, rq0[j] - rq[j])
  {
    forall j | 0 <= j < k && j < |rq| && j != r ensures NthPart(rq0, time, j, rq0[j] - rq[j]) {
      assert rq0[j] - rq[j] == Share(rq0, time, j);
    }
  }

  /** The same in the middle of the loop, with CPU k itself still to be asked. */
  ghost predicate Lending(rq0: seq<nat>, rq: seq<nat>, time: seq<nat>, r: nat, k: nat)
    requires |rq0| == |rq| <= |time|
  {
    Lent(rq0, rq, time, r, k) && (k < |rq| && k != r ==> rq[k] == rq0[k])
  }

  /** Someone other than r, before CPU i, had runtime to spare. */
  ghost predicate SpareBefore(rq0: seq<nat>, time: seq<nat>, r: nat, i: nat)
    requires |rq0| <= |time|
  {
    exists j :: 0 <= j < i && j < |rq0| && j != r && HasSpare(rq0, time, j)
  }

  /** do_balance_runtime before it asks CPU i. */
  ghost predicate Balancing(rq0: seq<nat>, rq: seq<nat>, time: seq<nat>, r: nat, period: nat, i: nat, more: bool)
    requires |rq0| == |rq| <= |time|
  {
    && i <= |rq| && r < |rq| && rq[r] != INF
    && Lending(rq0, rq, time, r, i)
    && (more <==> SpareBefore(rq0, time, r, i))
    && (if more then rq0[r] <= rq[r] < period else rq[r] == rq0[r])
  }

  lemma LendNothing(rq0: seq<nat>, rq: seq<nat>, time: seq<nat>, r: nat, period: nat, i: nat, more: bool)
    requires |rq0| == |rq| <= |time| && Balancing(rq0, rq, time, r, period, i, more)
    requires i < |rq| && (i == r || !HasSpare(rq, time, i))
    ensures Balancing(rq0, rq, time, r, period, i + 1, more)
  {
  }

  /** CPU i lends diff: the search goes on, or r has a full period and it stops there. */
  lemma LendStep(rq0: seq<nat>, rq: seq<nat>, time: seq<nat>, r: nat, period: nat, i: nat, more: bool, diff: int)
    requires |rq0| == |rq| <= |time| && Balancing(rq0, rq, time, r, period, i, more)
    requires i < |rq| && i != r && HasSpare(rq, time, i)
    requires diff == if rq[r] + Share(rq, time, i) > period then period - rq[r] else Share(rq, time, i)
    requires 0 <= rq[i] - diff != INF && 0 <= rq[r] + diff != INF
    ensures var rq' := rq[i := rq[i] - diff][r := rq[r] + diff];
      if rq'[r] == period then Filled(rq0, rq', time, r, period, i) else Balancing(rq0, rq', time, r, period, i + 1, true)
  {
    assert HasSpare(rq0, time, i);
  }

  /** CPU k brought r to a full period: it gave only what was missing, or took the excess. */
  ghost predicate Filled(rq0: seq<nat>, rq: seq<nat>, time: seq<nat>, r: nat, period: nat, k: nat)
    requires |rq0| == |rq| <= |time|
  {
    && k < |rq| && r < |rq| && k != r && rq[r] == period != INF && HasSpare(rq0, time, k)
    && Lent(rq0, rq, time, r, k)
    && (rq0[r] <= period ==> rq0[k] - Share(rq0, time, k) <= rq[k] <= rq0[k])
    && (rq0[r] > period ==> rq[k] == rq0[k] + (rq0[r] - period))
  }

  /** CPUs before k gave all they had, or were disabled; those after k were not asked. */
  ghost predicate Greedy(rq0: seq<nat>, rq: seq<nat>, r: nat, runtime: nat, k: nat) {
    && |rq0| == |rq| && r < |rq|
    && (forall j :: 0 <= j < k && j < |rq| && j != r ==> rq[j] == INF || (rq0[r] < runtime && rq[j] == 0))
    && (forall j :: k < j < |rq| && j != r ==> rq[j] == rq0[j])
  }

  /** CPU r is going away: what the CPUs before i give or take back leaves want to be found. */
  ghost predicate Reclaiming(rq0: seq<nat>, rq: seq<nat>, r: nat, runtime: nat, i: nat, want: int) {
    && i <= |rq| == |rq0| && r < |rq| && rq[r] == rq0[r] != INF
    && (forall j :: 0 <= j < |rq| ==> (rq[j] == INF <==> rq0[j] == INF) && (rq0[j] == INF || rq0[j] < S64))
    && (forall j :: i <= j < |rq| ==> rq[j] == rq0[j])
    && Excess(rq, runtime) == want + (rq[r] - runtime)
    && (want > 0 ==> forall j :: 0 <= j < i && j != r ==> rq[j] == INF || rq[j] == 0)
    && (want < 0 ==> forall j :: 0 <= j < i && j != r ==> rq[j] == INF)
    && (want == 0 ==> i > 0 && Greedy(rq0, rq, r, runtime, i - 1))
    && (if rq[r] < runtime then want >= 0 else runtime - rq[r] <= want <= 0)
    && (forall j :: 0 <= j < |rq| && j != r ==> if rq[r] < runtime then rq[j] <= rq0[j] else rq[j] >= rq0[j])
  }

  lemma ReclaimStarts(rq: seq<nat>, r: nat, runtime: nat)
    requires Conserved(runtime, rq) && (runtime != INF ==> |rq| * runtime < S64)
    requires r < |rq| && rq[r] != INF && rq[r] != runtime
    ensures Reclaiming(rq, rq, r, runtime, 0, runtime - rq[r])
  {
    AllBelow(runtime, rq);
  }

  lemma ReclaimSkips(rq0: seq<nat>, rq: seq<nat>, r: nat, runtime: nat, i: nat, want: int)
    requires Reclaiming(rq0, rq, r, runtime, i, want) && want != 0 && i < |rq| && (i == r || rq[i] == INF)
    ensures Reclaiming(rq0, rq, r, runtime, i + 1, want)
  {
  }

  lemma ReclaimStep(rq0: seq<nat>, rq: seq<nat>, r: nat, runtime: nat, i: nat, want: int, diff: int)
    requires Reclaiming(rq0, rq, r, runtime, i, want) && want != 0 && i < |rq| && i != r && rq[i] != INF
    requires diff == if want > 0 then (if rq[i] < want then rq[i] else want) else want
    ensures rq[i] - diff >= 0 && Reclaiming(rq0, rq[i := rq[i] - diff], r, runtime, i + 1, want - diff)
  {
    Update(rq, i, rq[i] - diff, runtime);
  }

  lemma ReclaimEnds(rq0: seq<nat>, rq: seq<nat>, r: nat, runtime: nat, i: nat, want: int)
    requires Reclaiming(rq0, rq, r, runtime, i, want) && (i == |rq| || want == 0)
    ensures want == 0
  {
    if want != 0 {
      OthersGiveNothing(rq, r, runtime);
    }
  }

  class RtBandwidth {
    var period: nat        // rt_b->rt_period
    var runtime: nat       // rt_b->rt_runtime
    var rq: seq<nat>       // rt_rq->rt_runtime, per CPU
    var time: seq<nat>     // rt_rq->rt_time, per CPU

    ghost predicate Valid()
      reads this
    {
      && |rq| == |time| > 0
      && (runtime != INF ==> |rq| * runtime < S64)
      && Conserved(runtime, rq)
    }

    /** All CPUs enabled with the group's own runtime. */
    constructor (cpus: nat, period: nat, runtime: nat)
      requires cpus > 0 && (runtime != INF ==> cpus * runtime < S64)
      ensures Valid() && this.period == period && this.runtime == runtime
      ensures |rq| == cpus && forall i :: 0 <= i < cpus ==> rq[i] == runtime
    {
      this.period, this.runtime := period, runtime;
      rq, time := seq(cpus, i => runtime), seq(cpus, i => 0);
      AllEqual(seq(cpus, i => runtime), runtime);
    }

    /** tg_set_bandwidth once admitted: every CPU, disabled ones too, gets the new runtime. */
    method SetBandwidth(period: nat, runtime: nat)
      requires Valid() && (runtime != INF ==> |rq| * runtime < S64)
      modifies this
      ensures Valid() && this.period == period && this.runtime == runtime && time == old(time)
      ensures |rq| == old(|rq|) && forall i :: 0 <= i < |rq| ==> rq[i] == runtime
    {
      this.period, this.runtime := period, runtime;
      var i := 0;
      while i < |rq|
        invariant i <= |rq| == old(|rq|) && time == old(time) && this.period == period && this.runtime == runtime
        invariant forall j :: 0 <= j < i ==> rq[j] == runtime
      {
        rq := rq[i := runtime];
        i := i + 1;
      }
      AllEqual(rq, runtime);
    }

    /**
     do_balance_runtime for CPU r. Lenders are met in CPU order and each gives the n-th part of
     what it has left over until one, CPU k, brings r to a full period; that one gives only what is missing (or, when r held
     more than a period, takes the excess), and nobody after it is touched.
     */
    method Balance(r: nat) returns (more: bool, ghost k: nat)
      requires Valid() && r < |rq| && rq[r] != INF
      modifies `rq
      ensures Valid() && |rq| == old(|rq|)
      ensures rq[r] != INF && Lent(old(rq), rq, time, r, k)
      ensures forall j :: 0 <= j < k && j < |rq| && j != r ==> NthPart(old(rq), time, j, old(rq)[j] - rq[j])
      ensures k < |rq| ==> k != r && rq[r] == period && HasSpare(old(rq), time, k)
      ensures k < |rq| && old(rq)[r] <= period ==> old(rq)[k] - Share(old(rq), time, k) <= rq[k] <= old(rq)[k]
      ensures k < |rq| && old(rq)[r] > period ==> rq[k] == old(rq)[k] + (old(rq)[r] - period)
      ensures k >= |rq| ==> if more then old(rq)[r] <= rq[r] < period else rq[r] == old(rq)[r]
      ensures more <==> exists i :: 0 <= i < |rq| && i != r && old(rq)[i] != INF && old(rq)[i] > time[i]
    {
      more, k := false, |rq|;
      ghost var rq0 := rq;
      var i, full := 0, false;
      while i < |rq| && !full
        invariant Valid() && |rq| == |rq0| == |time|
        invariant if full then Filled(rq0, rq, time, r, period, k) && more else k == |rq| && Balancing(rq0, rq, time, r, period, i, more)
        decreases |rq| - i, !full
      {
        k := i;
        more, full := AskCpu(i, r, more, rq0);
        if !full {
          i, k := i + 1, |rq|;
        }
      }
      assert full ==> k < |rq0| && k != r && HasSpare(rq0, time, k);
      LentParts(rq0, rq, time, r, k);
    }

    /** CPU i's turn: lend its share if it has one; full says that r now has a full period. */
    method AskCpu(i: nat, r: nat, more0: bool, ghost rq0: seq<nat>) returns (more: bool, full: bool)
      requires Valid() && |rq| == |rq0| && Balancing(rq0, rq, time, r, period, i, more0) && i < |rq|
      modifies `rq
      ensures Valid() && |rq| == |rq0|
      ensures if full then Filled(rq0, rq, time, r, period, i) && more else Balancing(rq0, rq, time, r, period, i + 1, more)
    {
      more, full := more0, false;
      if i != r && rq[i] != INF && rq[i] > time[i] {
        var diff: int := Share(rq, time, i);
        if rq[r] + diff > period {
          diff := period - rq[r];
        }
        ghost var rq1 := rq;
        Transfer(i, r, diff);
        LendStep(rq0, rq1, time, r, period, i, more, diff);
        more := true;
        full := rq[r] == period;
      } else {
        LendNothing(rq0, rq, time, r, period, i, more);
      }
    }

    /** Move diff units of runtime from CPU i to CPU r; a negative diff moves them back. */
    method Transfer(i: nat, r: nat, diff: int)
      requires Valid() && i < |rq| && r < |rq| && i != r
      requires rq[i] != INF && rq[r] != INF && -rq[r] <= diff <= rq[i]
      modifies `rq
      ensures Valid() && rq == old(rq)[i := old(rq)[i] - diff][r := old(rq)[r] + diff]
      ensures rq[i] != INF && rq[r] != INF
    {
      TransferKeeps(runtime, rq, i, r, diff);
      rq := rq[i := rq[i] - diff];
      rq := rq[r := rq[r] + diff];
    }

    /**
     __disable_runtime for CPU r. Taking back what was lent, or returning what was borrowed,
     always comes out even: the BUG_ON is the assert in Reclaim.
     */
    method Disable(r: nat)
      requires Valid() && r < |rq|
      modifies `rq
      ensures Valid() && |rq| == old(|rq|) && rq[r] == INF
      ensures forall i :: 0 <= i < |rq| && i != r ==> (rq[i] == INF <==> old(rq)[i] == INF)
      ensures if old(rq)[r] == INF || old(rq)[r] == runtime then rq == old(rq)[r := INF]
              else exists k :: Greedy(old(rq), rq, r, runtime, k)
      ensures old(rq)[r] <= runtime ==> forall i :: 0 <= i < |rq| && i != r ==> rq[i] <= old(rq)[i]
      ensures old(rq)[r] >= runtime ==> forall i :: 0 <= i < |rq| && i != r ==> rq[i] >= old(rq)[i]
    {
      if rq[r] != INF && rq[r] != runtime {
        ghost var rq0, i := rq, 0;
        i := Reclaim(r);
        assert Greedy(rq0, rq[r := INF], r, runtime, i - 1);
      }
      Update(rq, r, INF, runtime);
      rq := rq[r := INF];
    }

    /** Greedy reclaim, CPU after CPU, until nothing is wanted. */
    method Reclaim(r: nat) returns (ghost i: nat)
      requires Valid() && r < |rq| && rq[r] != INF && rq[r] != runtime
      modifies `rq
      ensures Reclaiming(old(rq), rq, r, runtime, i, 0)
    {
      ghost var rq0 := rq;
      var want: int := runtime - rq[r];
      ReclaimStarts(rq, r, runtime);
      var cpu := 0;
      while cpu < |rq| && want != 0
        invariant Reclaiming(rq0, rq, r, runtime, cpu, want)
      {
        if cpu != r && rq[cpu] != INF {
          var diff: int := if want > 0 then (if rq[cpu] < want then rq[cpu] else want) else want;
          ReclaimStep(rq0, rq, r, runtime, cpu, want, diff);
          rq := rq[cpu := rq[cpu] - diff];
          want := want - diff;
        } else {
          ReclaimSkips(rq0, rq, r, runtime, cpu, want);
        }
        cpu := cpu + 1;
      }
      ReclaimEnds(rq0, rq, r, runtime, cpu, want);
      assert want == 0;  // BUG_ON(want)
      i := cpu;
    }

    /** __enable_runtime for CPU r, which does not look at what the CPU held before. */
    method Enable(r: nat)
      requires Valid() && r < |rq|
      modifies this
      ensures rq == old(rq)[r := runtime] && time == old(time)[r := 0] && period == old(period) && runtime == old(runtime)
      ensures Valid() <==> old(rq)[r] == INF || old(rq)[r] == runtime
    {
      Update(rq, r, runtime, runtime);
      rq := rq[r := runtime];
      time := time[r := 0];
    }

    /** Running and the period timer move rt_time only. */
    method SetTime(r: nat, t: nat)
      requires Valid() && r < |rq|
      modifies `time
      ensures Valid() && time == old(time)[r := t]
    {
      time := time[r := t];
    }
  }
}
