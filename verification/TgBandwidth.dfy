/**
 Real-time bandwidth of task groups: the admission test run over the hierarchy, in the
 code's own ratios, and what it guarantees of the CPU time the groups may use.
 */
module TgBandwidth {
  import opened Arith
  import opened Common
  import opened TgTree
  import opened TgWalk

  const U64: nat := 0x1_0000_0000_0000_0000
  const SCALE: nat := 0x10_0000
  const EINVAL: int := 22
  const EBUSY: int := 16

  /** rt_period and rt_runtime, in nanoseconds. */
  datatype Bw = Bw(period: nat, runtime: nat)

  /** to_ratio; the shift is on 64 bits. */
  function Ratio(b: Bw): nat
    requires b.period > 0
  {
    if b.runtime == INF then SCALE else (b.runtime * SCALE % U64) / b.period
  }

  /** The share of the CPU a budget stands for, exactly, in units of 1 / SCALE. */
  function Share(b: Bw): real
    requires b.period > 0
  {
    if b.runtime == INF then SCALE as real else (b.runtime * SCALE) as real / b.period as real
  }

  /** Below about 4.9 hours: the shift by 20 bits keeps every bit of the runtime. */
  predicate Modest(b: Bw) {
    b.runtime == INF || b.runtime < 0x1000_0000_0000
  }

  /** Nothing is rounded either: the share is a whole number of units. */
  predicate Exact(b: Bw)
    requires b.period > 0
  {
    Modest(b) && (b.runtime == INF || b.runtime * SCALE % b.period == 0)
  }

  lemma RealOrder(u: real, v: real, d: real)
    requires d > 0.0
    ensures u <= v <==> u * d <= v * d
  {
  }

  /** Comparing a quotient of whole numbers with a whole number. */
  lemma RealQuotient(p: nat, d: nat, q: nat)
    requires d > 0
    ensures q as real <= p as real / d as real <==> q * d <= p
    ensures p as real / d as real <= q as real <==> p <= q * d
  {
    var x := p as real / d as real;
    assert x * d as real == p as real;
    assert (q * d) as real == q as real * d as real;
    RealOrder(q as real, x, d as real);
    RealOrder(x, q as real, d as real);
  }

  /** Dividing what p leaves modulo u: how far that is below the exact quotient of p. */
  lemma Rounding(p: nat, d: nat, u: nat)
    requires 0 < d < u
    ensures var q, x := p % u / d, p as real / d as real;
      && q as real <= x
      && (p < u <==> x < q as real + 1.0)
      && (p < u && p % d == 0 <==> q as real == x)
  {
    var q := p % u / d;
    RoundedOff(p % u, d);
    Excess(p, u);
    RealQuotient(p, d, q);
    RealQuotient(p, d, q + 1);
  }

  lemma RoundedOff(m: nat, d: nat)
    requires d > 0
    ensures m / d * d <= m < (m / d + 1) * d
    ensures m == m / d * d <==> m % d == 0
  {
    assert m == m / d * d + m % d;
    assert (m / d + 1) * d == m / d * d + d;
  }

  lemma Excess(p: nat, u: nat)
    requires u > 0
    ensures if p < u then p % u == p else p % u + u <= p
  {
    var k := p / u;
    assert p == k * u + p % u;
    MulOrder(1, k, u);
  }

  lemma ModestProduct(r: nat)
    ensures r * SCALE < U64 <==> r < 0x1000_0000_0000
  {
  }

  /**
   The ratio is never above the share. It is the share rounded down, less than one unit below,
   exactly for modest runtimes, and the share itself exactly when nothing is rounded.
   */
  lemma RatioIsShare(b: Bw)
    requires 0 < b.period < U64
    ensures Ratio(b) as real <= Share(b)
    ensures Share(b) < Ratio(b) as real + 1.0 <==> Modest(b)
    ensures Ratio(b) as real == Share(b) <==> Exact(b)
  {
    if b.runtime != INF {
      ModestProduct(b.runtime);
      Rounding(b.runtime * SCALE, b.period, U64);
    }
  }

  /** The ratio is that of what is left of the runtime: its share, rounded down, without the bits from 44 up. */
  lemma RatioLosesTop(b: Bw)
    requires 0 < b.period < U64 && b.runtime != INF
    ensures var c := Bw(b.period, b.runtime % 0x1000_0000_0000);
      Ratio(b) as real <= Share(c) < Ratio(b) as real + 1.0
  {
    var r := b.runtime % 0x1000_0000_0000;
    TopLost(b.runtime);
    ModestProduct(r);
    NoRemainder(r * SCALE, U64);
    Rounding(r * SCALE, b.period, U64);
  }

  lemma TopLost(r: nat)
    ensures r * SCALE % U64 == r % 0x1000_0000_0000 * SCALE
  {
  }

  ghost predicate Keyed(t: Tree, bw: map<nat, Bw>) {
    && t.id in bw && bw[t.id].period > 0
    && forall k :: k in t.kids ==> Keyed(k, bw)
  }

  /** The ratio of a group, as the test looks it up. */
  function RatioAt(bw: map<nat, Bw>, id: nat): nat {
    if id in bw && bw[id].period > 0 then Ratio(bw[id]) else 0
  }

  function RatioSum(ts: seq<Tree>, bw: map<nat, Bw>): nat {
    if ts == [] then 0 else RatioAt(bw, ts[0].id) + RatioSum(ts[1..], bw)
  }

  /** What the global settings allow. */
  predicate GlobalOk(g: Bw) {
    g.period > 0 && (g.runtime == INF || g.runtime <= g.period < 0x1000_0000_0000)
  }

  lemma GlobalRatio(g: Bw)
    requires GlobalOk(g)
    ensures Ratio(g) <= SCALE
  {
    if g.runtime != INF {
      ModestProduct(g.runtime);
      NoRemainder(g.runtime * SCALE, U64);
      MulOrder(g.runtime, g.period, SCALE);
      DivLe(g.runtime * SCALE, g.period, SCALE);
    }
  }

  lemma NoRemainder(x: nat, u: nat)
    requires x < u
    ensures x % u == x
  {
  }

  /** One group's budget respects its period, its tasks, the global limit and its children. */
  ghost predicate NodeOk(t: Tree, bw: map<nat, Bw>, tasks: set<nat>, g: Bw)
    requires Keyed(t, bw) && g.period > 0
  {
    var b := bw[t.id];
    && (b.runtime == INF || b.runtime <= b.period)
    && !(g.runtime != INF && b.runtime == 0 && t.id in tasks)
    && Ratio(b) <= Ratio(g)
    && RatioSum(t.kids, bw) <= Ratio(b)
  }

  ghost predicate Schedulable(t: Tree, bw: map<nat, Bw>, tasks: set<nat>, g: Bw)
    requires Keyed(t, bw) && g.period > 0
  {
    NodeOk(t, bw, tasks, g) && forall k :: k in t.kids ==> Schedulable(k, bw, tasks, g)
  }

  // --- what schedulability is for ---

  type Weights = nat -> real

  /** The weights of the chosen groups of a hierarchy. */
  ghost function Chosen(t: Tree, w: Weights, s: set<nat>): real
    decreases t, 1
  {
    (if t.id in s then w(t.id) else 0.0) + ChosenAll(t.kids, w, s)
  }

  ghost function ChosenAll(ts: seq<Tree>, w: Weights, s: set<nat>): real
    decreases ts, 0
  {
    if ts == [] then 0.0 else Chosen(ts[0], w, s) + ChosenAll(ts[1..], w, s)
  }

  ghost function WeightSum(ts: seq<Tree>, w: Weights): real {
    if ts == [] then 0.0 else w(ts[0].id) + WeightSum(ts[1..], w)
  }

  /** Everywhere in the hierarchy the children weigh no more than their parent. */
  ghost predicate Dominates(t: Tree, w: Weights) {
    WeightSum(t.kids, w) <= w(t.id) && forall k :: k in t.kids ==> Dominates(k, w)
  }

  /** No chosen group lies inside another. */
  ghost predicate NonNested(t: Tree, s: set<nat>) {
    && (t.id in s ==> forall k :: k in t.kids ==> Ids(k) !! s)
    && forall k :: k in t.kids ==> NonNested(k, s)
  }

  lemma {:induction false} NoneChosen(t: Tree, w: Weights, s: set<nat>)
    requires Ids(t) !! s
    ensures Chosen(t, w, s) == 0.0
    decreases t, 1
  {
    assert t.id in Ids(t);
    forall k | k in t.kids ensures Ids(k) !! s {
      assert Ids(k) <= Ids(t);
    }
    NoneChosenAll(t.kids, w, s);
  }

  lemma {:induction false} NoneChosenAll(ts: seq<Tree>, w: Weights, s: set<nat>)
    requires forall k :: k in ts ==> Ids(k) !! s
    ensures ChosenAll(ts, w, s) == 0.0
    decreases ts, 0
  {
    if ts != [] {
      NoneChosen(ts[0], w, s);
      NoneChosenAll(ts[1..], w, s);
    }
  }

  lemma {:induction false} ChosenWeighLess(t: Tree, w: Weights, s: set<nat>)
    requires Dominates(t, w) && NonNested(t, s)
    ensures Chosen(t, w, s) <= w(t.id)
    decreases t, 1
  {
    if t.id in s {
      NoneChosenAll(t.kids, w, s);
    } else {
      ChosenAllWeighLess(t.kids, w, s);
    }
  }

  lemma {:induction false} ChosenAllWeighLess(ts: seq<Tree>, w: Weights, s: set<nat>)
    requires forall k :: k in ts ==> Dominates(k, w) && NonNested(k, s)
    ensures ChosenAll(ts, w, s) <= WeightSum(ts, w)
    decreases ts, 0
  {
    if ts != [] {
      ChosenWeighLess(ts[0], w, s);
      ChosenAllWeighLess(ts[1..], w, s);
    }
  }

  /** A weight of one: Chosen then counts. */
  function One(): Weights {
    (id: nat) => 1.0
  }

  ghost function IdsAll(ts: seq<Tree>): set<nat> {
    set k, x | k in ts && x in Ids(k) :: x
  }

  ghost predicate Disjoint(ts: seq<Tree>) {
    && (forall k :: k in ts ==> Distinct(k))
    && forall i, j :: 0 <= i < j < |ts| ==> Ids(ts[i]) !! Ids(ts[j])
  }

  lemma {:induction false} CountChosen(t: Tree, s: set<nat>)
    requires Distinct(t)
    ensures Chosen(t, One(), s) == |Ids(t) * s| as real
    decreases t, 1
  {
    CountChosenAll(t.kids, s);
    CountOne(t.id, IdsAll(t.kids), s);
    assert Ids(t) == {t.id} + IdsAll(t.kids);
  }

  lemma CountOne(x: nat, rest: set<nat>, s: set<nat>)
    requires x !in rest
    ensures |({x} + rest) * s| == (if x in s then 1 else 0) + |rest * s|
  {
    assert ({x} + rest) * s == if x in s then {x} + rest * s else rest * s;
  }

  lemma CountBoth(a: set<nat>, b: set<nat>, s: set<nat>)
    requires a !! b
    ensures |(a + b) * s| == |a * s| + |b * s|
  {
    assert (a + b) * s == a * s + b * s;
  }

  lemma {:induction false} CountChosenAll(ts: seq<Tree>, s: set<nat>)
    requires Disjoint(ts)
    ensures ChosenAll(ts, One(), s) == |IdsAll(ts) * s| as real
    decreases ts, 0
  {
    if ts == [] {
      assert IdsAll(ts) * s == {};
    } else {
      SplitIds(ts);
      CountChosen(ts[0], s);
      CountChosenAll(ts[1..], s);
      CountBoth(Ids(ts[0]), IdsAll(ts[1..]), s);
    }
  }

  lemma SplitIds(ts: seq<Tree>)
    requires ts != [] && Disjoint(ts)
    ensures Distinct(ts[0]) && Disjoint(ts[1..])
    ensures IdsAll(ts) == Ids(ts[0]) + IdsAll(ts[1..]) && Ids(ts[0]) !! IdsAll(ts[1..])
  {
    assert forall k :: k in ts <==> k == ts[0] || k in ts[1..];
    forall k | k in ts[1..] ensures Ids(ts[0]) !! Ids(k) {
      var i :| 0 <= i < |ts[1..]| && ts[1..][i] == k;
      assert Ids(ts[0]) !! Ids(ts[i + 1]);
    }
  }

  // --- ratios and exact shares over a hierarchy ---

  function Ratios(bw: map<nat, Bw>): Weights {
    (id: nat) => RatioAt(bw, id) as real
  }

  function ShareAt(bw: map<nat, Bw>, id: nat): real {
    if id in bw && bw[id].period > 0 then Share(bw[id]) else 0.0
  }

  function Shares(bw: map<nat, Bw>): Weights {
    (id: nat) => ShareAt(bw, id)
  }

  ghost predicate AllModest(t: Tree, bw: map<nat, Bw>)
    requires Keyed(t, bw)
  {
    Modest(bw[t.id]) && bw[t.id].period < U64 && forall k :: k in t.kids ==> AllModest(k, bw)
  }

  ghost predicate AllExact(t: Tree, bw: map<nat, Bw>)
    requires Keyed(t, bw)
  {
    Exact(bw[t.id]) && bw[t.id].period < U64 && forall k :: k in t.kids ==> AllExact(k, bw)
  }

  lemma {:induction false} RatioSumIs(ts: seq<Tree>, bw: map<nat, Bw>)
    ensures RatioSum(ts, bw) as real == WeightSum(ts, Ratios(bw))
  {
    if ts != [] {
      RatioSumIs(ts[1..], bw);
    }
  }

  lemma {:induction false} RatiosDominate(t: Tree, bw: map<nat, Bw>, tasks: set<nat>, g: Bw)
    requires Keyed(t, bw) && g.period > 0 && Schedulable(t, bw, tasks, g)
    ensures Dominates(t, Ratios(bw))
  {
    RatioSumIs(t.kids, bw);
    forall k | k in t.kids ensures Dominates(k, Ratios(bw)) { RatiosDominate(k, bw, tasks, g); }
  }

  /** Rounding loses less than a unit a group. */
  lemma {:induction false} ModestSum(ts: seq<Tree>, bw: map<nat, Bw>)
    requires forall k :: k in ts ==> Keyed(k, bw) && AllModest(k, bw)
    ensures RatioSum(ts, bw) as real <= WeightSum(ts, Shares(bw)) <= (RatioSum(ts, bw) + |ts|) as real
  {
    if ts != [] {
      assert Keyed(ts[0], bw) && AllModest(ts[0], bw);
      RatioIsShare(bw[ts[0].id]);
      ModestSum(ts[1..], bw);
    }
  }

  lemma {:induction false} ExactSum(ts: seq<Tree>, bw: map<nat, Bw>)
    requires forall k :: k in ts ==> Keyed(k, bw) && AllExact(k, bw)
    ensures RatioSum(ts, bw) as real == WeightSum(ts, Shares(bw))
  {
    if ts != [] {
      assert Keyed(ts[0], bw) && AllExact(ts[0], bw);
      RatioIsShare(bw[ts[0].id]);
      ExactSum(ts[1..], bw);
    }
  }

  lemma {:induction false} ChosenNear(t: Tree, bw: map<nat, Bw>, s: set<nat>)
    requires Keyed(t, bw) && AllModest(t, bw)
    ensures Chosen(t, Shares(bw), s) <= Chosen(t, Ratios(bw), s) + Chosen(t, One(), s)
    decreases t, 1
  {
    RatioIsShare(bw[t.id]);
    ChosenAllNear(t.kids, bw, s);
  }

  lemma {:induction false} ChosenAllNear(ts: seq<Tree>, bw: map<nat, Bw>, s: set<nat>)
    requires forall k :: k in ts ==> Keyed(k, bw) && AllModest(k, bw)
    ensures ChosenAll(ts, Shares(bw), s) <= ChosenAll(ts, Ratios(bw), s) + ChosenAll(ts, One(), s)
    decreases ts, 0
  {
    if ts != [] {
      ChosenNear(ts[0], bw, s);
      ChosenAllNear(ts[1..], bw, s);
    }
  }

  /** What the limits ask of one group's exact share, up to slack units for the sum and one for the limit. */
  ghost predicate NodeFair(t: Tree, bw: map<nat, Bw>, tasks: set<nat>, g: Bw, slack: nat)
    requires Keyed(t, bw) && g.period > 0
  {
    var b := bw[t.id];
    && (b.runtime == INF || b.runtime <= b.period)
    && !(g.runtime != INF && b.runtime == 0 && t.id in tasks)
    && (if slack == 0 then Share(b) <= Share(g) else Share(b) < Share(g) + 1.0)
    && WeightSum(t.kids, Shares(bw)) <= Share(b) + (slack * |t.kids|) as real
  }

  ghost predicate FairWithin(t: Tree, bw: map<nat, Bw>, tasks: set<nat>, g: Bw, slack: nat)
    requires Keyed(t, bw) && g.period > 0
  {
    NodeFair(t, bw, tasks, g, slack) && forall k :: k in t.kids ==> FairWithin(k, bw, tasks, g, slack)
  }

  /** The exact shares keep every limit. */
  ghost predicate Fair(t: Tree, bw: map<nat, Bw>, tasks: set<nat>, g: Bw)
    requires Keyed(t, bw) && g.period > 0
  {
    FairWithin(t, bw, tasks, g, 0)
  }

  /** They keep every limit but for rounding: a unit for each group. */
  ghost predicate NearlyFair(t: Tree, bw: map<nat, Bw>, tasks: set<nat>, g: Bw)
    requires Keyed(t, bw) && g.period > 0
  {
    FairWithin(t, bw, tasks, g, 1)
  }

  /** The global ratio is the global share, rounded down. */
  lemma GlobalShare(g: Bw)
    requires GlobalOk(g)
    ensures Ratio(g) <= SCALE && Ratio(g) as real <= Share(g) < Ratio(g) as real + 1.0
  {
    GlobalRatio(g);
    if g.runtime != INF {
      RatioIsShare(g);
    }
  }

  lemma NodeBetween(t: Tree, bw: map<nat, Bw>, tasks: set<nat>, g: Bw)
    requires Keyed(t, bw) && GlobalOk(g) && AllModest(t, bw)
    ensures NodeFair(t, bw, tasks, g, 0) ==> NodeOk(t, bw, tasks, g)
    ensures NodeOk(t, bw, tasks, g) ==> NodeFair(t, bw, tasks, g, 1)
    ensures AllExact(t, bw) ==> (NodeOk(t, bw, tasks, g) <==> NodeFair(t, bw, tasks, g, 0))
  {
    RatioIsShare(bw[t.id]);
    GlobalShare(g);
    ModestSum(t.kids, bw);
    if AllExact(t, bw) {
      ExactSum(t.kids, bw);
    }
  }

  /**
   With modest budgets the test never rejects a hierarchy whose exact shares keep the limits,
   and accepts only such as keep them but for rounding; when no budget is rounded, exactly
   those that keep them.
   */
  lemma {:induction false} SchedulableIsFair(t: Tree, bw: map<nat, Bw>, tasks: set<nat>, g: Bw)
    requires Keyed(t, bw) && GlobalOk(g) && AllModest(t, bw)
    ensures Fair(t, bw, tasks, g) ==> Schedulable(t, bw, tasks, g)
    ensures Schedulable(t, bw, tasks, g) ==> NearlyFair(t, bw, tasks, g)
    ensures AllExact(t, bw) ==> (Schedulable(t, bw, tasks, g) <==> Fair(t, bw, tasks, g))
  {
    NodeBetween(t, bw, tasks, g);
    forall k | k in t.kids
      ensures Fair(k, bw, tasks, g) ==> Schedulable(k, bw, tasks, g)
      ensures Schedulable(k, bw, tasks, g) ==> NearlyFair(k, bw, tasks, g)
      ensures AllExact(k, bw) ==> (Schedulable(k, bw, tasks, g) <==> Fair(k, bw, tasks, g))
    {
      SchedulableIsFair(k, bw, tasks, g);
    }
  }

  lemma {:induction false} ExactIsModest(t: Tree, bw: map<nat, Bw>)
    requires Keyed(t, bw) && AllExact(t, bw)
    ensures AllModest(t, bw)
  {
    forall k | k in t.kids ensures AllModest(k, bw) { ExactIsModest(k, bw); }
  }

  lemma {:induction false} SharesDominate(t: Tree, bw: map<nat, Bw>, tasks: set<nat>, g: Bw)
    requires Keyed(t, bw) && g.period > 0 && Fair(t, bw, tasks, g)
    ensures Dominates(t, Shares(bw))
  {
    forall k | k in t.kids ensures Dominates(k, Shares(bw)) { SharesDominate(k, bw, tasks, g); }
  }

  /**
   Groups none of which contains another have at most their ancestor's ratio together. With
   modest budgets their exact shares exceed it by at most one unit for each of them, and with
   none rounded they fit in the ancestor's exact share.
   */
  lemma NonNestedShare(t: Tree, bw: map<nat, Bw>, tasks: set<nat>, g: Bw, s: set<nat>)
    requires Keyed(t, bw) && GlobalOk(g) && Schedulable(t, bw, tasks, g) && NonNested(t, s) && Distinct(t)
    ensures Chosen(t, Ratios(bw), s) <= Ratio(bw[t.id]) as real <= Ratio(g) as real
    ensures AllModest(t, bw) ==> Chosen(t, Shares(bw), s) <= (Ratio(bw[t.id]) + |Ids(t) * s|) as real
    ensures AllExact(t, bw) ==> Chosen(t, Shares(bw), s) <= Share(bw[t.id]) <= Share(g)
  {
    RatiosDominate(t, bw, tasks, g);
    ChosenWeighLess(t, Ratios(bw), s);
    if AllModest(t, bw) {
      ChosenNear(t, bw, s);
      CountChosen(t, s);
    }
    if AllExact(t, bw) {
      ExactIsModest(t, bw);
      SchedulableIsFair(t, bw, tasks, g);
      SharesDominate(t, bw, tasks, g);
      ChosenWeighLess(t, Shares(bw), s);
    }
  }

  // --- where the test lets too much through ---

  /** A root with budget a and one child with budget b. */
  function Pair(a: Bw, b: Bw): map<nat, Bw> {
    map[0 := a, 1 := b]
  }

  const TwoGroups := Node(0, [Node(1, [])])

  lemma PairSchedulable(a: Bw, b: Bw, g: Bw)
    requires a.period > 0 && b.period > 0 && GlobalOk(g)
    requires a.runtime != INF && b.runtime != INF && a.runtime <= a.period && b.runtime <= b.period
    requires Ratio(b) <= Ratio(a) <= Ratio(g)
    ensures Keyed(TwoGroups, Pair(a, b)) && Schedulable(TwoGroups, Pair(a, b), {}, g)
  {
    var t, k, bw := TwoGroups, Node(1, []), Pair(a, b);
    assert t.kids == [k] && k.kids == [] && bw[0] == a && bw[1] == b;
    assert Keyed(k, bw);
    assert t.kids[1..] == [];
    assert RatioSum(t.kids, bw) == Ratio(b) + RatioSum(t.kids[1..], bw);
    assert NodeOk(k, bw, {}, g);
  }

  /** b is admitted under a parent a and a global limit g. */
  ghost predicate AdmittedUnder(a: Bw, b: Bw, g: Bw)
    requires b.period > 0
  {
    0 < a.period < U64 && GlobalOk(g) && Keyed(TwoGroups, Pair(a, b)) && Schedulable(TwoGroups, Pair(a, b), {}, g)
  }

  lemma PairRatios(a: Bw, b: Bw, g: Bw)
    requires 0 < b.period < U64 && AdmittedUnder(a, b, g)
    ensures Ratio(b) as real <= Share(a) && Ratio(b) as real <= Share(g)
  {
    var t, k, bw := TwoGroups, Node(1, []), Pair(a, b);
    assert t.kids == [k] && k.kids == [] && bw[0] == a && bw[1] == b;
    assert Schedulable(k, bw, {}, g);
    assert RatioSum(t.kids, bw) == Ratio(b) + RatioSum(t.kids[1..], bw);
    RatioIsShare(a);
    GlobalShare(g);
  }

  /** A parent and a global limit with just b's ratio admit b. */
  lemma LeastParent(b: Bw) returns (a: Bw)
    requires 0 < b.period < U64 && b.runtime <= b.period && b.runtime != INF
    ensures a == Bw(SCALE, Ratio(b)) && AdmittedUnder(a, b, a) && Share(a) == Ratio(b) as real
  {
    a := Bw(SCALE, Ratio(b));
    RatioAtMostOne(b);
    RatioOverScale(Ratio(b));
    RatioIsShare(a);
    PairSchedulable(a, b, a);
  }

  lemma RatioAtMostOne(b: Bw)
    requires b.period > 0 && b.runtime <= b.period && b.runtime != INF
    ensures Ratio(b) <= SCALE
  {
    MulOrder(b.runtime, b.period, SCALE);
    DivLe(b.runtime * SCALE % U64, b.period, SCALE);
  }

  /** A runtime over a period of SCALE is its own ratio. */
  lemma RatioOverScale(r: nat)
    requires r <= SCALE
    ensures Ratio(Bw(SCALE, r)) == r && Exact(Bw(SCALE, r))
  {
    ModUnique(r * SCALE, SCALE, r, 0);
  }

  /** Wherever b is admitted, its exact share is at most its parent's and the global one. */
  ghost predicate NeverAbove(b: Bw)
    requires b.period > 0
  {
    forall a, g :: AdmittedUnder(a, b, g) ==> Share(b) <= Share(a) && Share(b) <= Share(g)
  }

  /** Wherever b is admitted, its exact share is less than a unit above either. */
  ghost predicate NeverAboveByOne(b: Bw)
    requires b.period > 0
  {
    forall a, g :: AdmittedUnder(a, b, g) ==> Share(b) < Share(a) + 1.0 && Share(b) < Share(g) + 1.0
  }

  /** The test keeps b's share in its place exactly when nothing of b is lost in its ratio. */
  lemma TrustedIffExact(b: Bw)
    requires 0 < b.period < U64 && (b.runtime == INF || b.runtime <= b.period)
    ensures NeverAbove(b) <==> Exact(b)
  {
    RatioIsShare(b);
    if Exact(b) {
      forall a, g | AdmittedUnder(a, b, g) ensures Share(b) <= Share(a) && Share(b) <= Share(g) {
        PairRatios(a, b, g);
      }
    } else {
      var a := LeastParent(b);
    }
  }

  /** And to within one unit exactly when b is modest. */
  lemma TrustedIffModest(b: Bw)
    requires 0 < b.period < U64 && (b.runtime == INF || b.runtime <= b.period)
    ensures NeverAboveByOne(b) <==> Modest(b)
  {
    RatioIsShare(b);
    if Modest(b) {
      forall a, g | AdmittedUnder(a, b, g) ensures Share(b) < Share(a) + 1.0 && Share(b) < Share(g) + 1.0 {
        PairRatios(a, b, g);
      }
    } else {
      var a := LeastParent(b);
    }
  }

  /** For one, 17592186045 microseconds out of as many pass under a parent with no runtime and a 95% limit. */
  lemma WholeCpuAdmitted()
    ensures var a, b, g := Bw(1000000000, 0), Bw(17592186045000, 17592186045000), Bw(1000000000, 950000000);
      AdmittedUnder(a, b, g) && Share(a) == 0.0 && Share(b) == SCALE as real && Share(g) < Share(b)
  {
    PairSchedulable(Bw(1000000000, 0), Bw(17592186045000, 17592186045000), Bw(1000000000, 950000000));
  }

  /** A root with budget a and n children with budget b each. */
  function Flat(n: nat): Tree {
    Node(0, seq(n, i requires 0 <= i < n => Node(i + 1, [])))
  }

  function Level(a: Bw, b: Bw, n: nat): (bw: map<nat, Bw>)
    ensures 0 in bw && bw[0] == a && forall i :: 1 <= i <= n ==> i in bw && bw[i] == b
  {
    if n == 0 then map[0 := a] else Level(a, b, n - 1)[n := b]
  }

  lemma {:induction false} LevelSums(ts: seq<Tree>, bw: map<nat, Bw>, b: Bw)
    requires b.period > 0 && forall k :: k in ts ==> k.id in bw && bw[k.id] == b
    ensures Ratio(b) == 0 ==> RatioSum(ts, bw) == 0
    ensures WeightSum(ts, Shares(bw)) == Times(|ts|, Share(b))
  {
    if ts != [] {
      LevelSums(ts[1..], bw, b);
      OneMore(|ts[1..]|, Share(b));
    }
  }

  lemma OneMore(n: nat, x: real)
    ensures Times(n + 1, x) == x + Times(n, x)
  {
  }

  function Times(n: nat, x: real): real { n as real * x }

  /** A sensible budget with a period that fits its type. */
  predicate Sensible(b: Bw) {
    0 < b.period < U64 && b.runtime <= b.period && b.runtime != INF
  }

  lemma LeafPasses(k: Tree, bw: map<nat, Bw>, g: Bw)
    requires k.kids == [] && k.id in bw && Sensible(bw[k.id]) && Modest(bw[k.id]) && GlobalOk(g) && Ratio(bw[k.id]) <= Ratio(g)
    ensures Keyed(k, bw) && AllModest(k, bw) && Schedulable(k, bw, {}, g)
  {
    assert NodeOk(k, bw, {}, g);
  }

  /** Budgets so small that their ratio is zero pass in any number. */
  lemma FlatPasses(a: Bw, b: Bw, g: Bw, n: nat)
    requires Sensible(a) && Sensible(b) && Modest(a) && Modest(b) && GlobalOk(g) && Ratio(b) == 0 && Ratio(a) <= Ratio(g)
    ensures var t, bw := Flat(n), Level(a, b, n);
      && Keyed(t, bw) && AllModest(t, bw) && Schedulable(t, bw, {}, g)
      && WeightSum(t.kids, Shares(bw)) == Times(n, Share(b))
  {
    var t, bw := Flat(n), Level(a, b, n);
    FlatKids(n);
    forall k | k in t.kids ensures Keyed(k, bw) && AllModest(k, bw) && Schedulable(k, bw, {}, g) {
      LeafPasses(k, bw, g);
    }
    LevelSums(t.kids, bw, b);
    RootPasses(t, bw, g);
  }

  lemma FlatKids(n: nat)
    ensures Flat(n).id == 0 && |Flat(n).kids| == n
    ensures forall k :: k in Flat(n).kids ==> 1 <= k.id <= n && k.kids == []
  {
  }

  lemma RootPasses(t: Tree, bw: map<nat, Bw>, g: Bw)
    requires forall k :: k in t.kids ==> Keyed(k, bw) && AllModest(k, bw) && GlobalOk(g) && Schedulable(k, bw, {}, g)
    requires t.id in bw && Sensible(bw[t.id]) && Modest(bw[t.id]) && GlobalOk(g) && Ratio(bw[t.id]) <= Ratio(g)
    requires RatioSum(t.kids, bw) == 0
    ensures Keyed(t, bw) && AllModest(t, bw) && Schedulable(t, bw, {}, g)
  {
  }

  /**
   Modest budgets slip through by rounding: however many groups of 1 microsecond in 1.1 seconds
   there are, they pass under a parent with no runtime. 2^20 of them use about 95% of the CPU.
   */
  lemma SmallSharesSlip(n: nat)
    ensures var a, b, g, t := Bw(1000000000, 0), Bw(1100000000, 1000), Bw(1000000000, 950000000), Flat(n);
      && GlobalOk(g) && Keyed(t, Level(a, b, n)) && AllModest(t, Level(a, b, n))
      && Schedulable(t, Level(a, b, n), {}, g)
      && Share(a) == 0.0 && WeightSum(t.kids, Shares(Level(a, b, n))) == Times(n, Share(b))
      && 0.95 < Share(b) < 0.96
  {
    FlatPasses(Bw(1000000000, 0), Bw(1100000000, 1000), Bw(1000000000, 950000000), n);
  }

  // --- the admission test as the walk runs it ---

  /** What tg_schedulable reads: budgets with the proposed one already in place. */
  datatype Env = Env(children: map<nat, seq<nat>>, bw: map<nat, Bw>, tasks: set<nat>, g: Bw)

  /** The children's ratios, added up in 64 bits. */
  function WrappedSum(e: Env, ids: seq<nat>): nat {
    if ids == [] then 0 else (WrappedSum(e, ids[..|ids| - 1]) + RatioAt(e.bw, ids[|ids| - 1])) % U64
  }

  /** What tg_schedulable returns. */
  function Code(e: Env, id: nat): int {
    if id !in e.bw || id !in e.children || e.g.period == 0 then 0
    else
      var b := e.bw[id];
      if b.runtime > b.period && b.runtime != INF then -EINVAL
      else if e.g.runtime != INF && b.runtime == 0 && id in e.tasks then -EBUSY
      else if RatioAt(e.bw, id) > Ratio(e.g) then -EINVAL
      else if WrappedSum(e, e.children[id]) > RatioAt(e.bw, id) then -EINVAL
      else 0
  }

  /** tg_schedulable as written, adding up the children in a loop. */
  method TgSchedulable(e: Env, id: nat) returns (code: int)
    requires id in e.bw && id in e.children && e.g.period > 0
    ensures code == Code(e, id)
  {
    var b, ids := e.bw[id], e.children[id];
    if b.runtime > b.period && b.runtime != INF {
      return -EINVAL;
    }
    if e.g.runtime != INF && b.runtime == 0 && id in e.tasks {
      return -EBUSY;
    }
    if RatioAt(e.bw, id) > Ratio(e.g) {
      return -EINVAL;
    }
    var sum, i := 0, 0;
    while i < |ids|
      invariant i <= |ids| && sum == WrappedSum(e, ids[..i])
    {
      sum := (sum + RatioAt(e.bw, ids[i])) % U64;
      assert ids[..i + 1][..i] == ids[..i];
      i := i + 1;
    }
    assert ids[..i] == ids;
    code := if sum > RatioAt(e.bw, id) then -EINVAL else 0;
  }

  lemma {:induction false} RatioSumSnoc(ts: seq<Tree>, t: Tree, bw: map<nat, Bw>)
    ensures RatioSum(ts + [t], bw) == RatioSum(ts, bw) + RatioAt(bw, t.id)
  {
    if ts == [] {
      assert ts + [t] == [t];
      assert [t][1..] == [];
    } else {
      assert (ts + [t])[1..] == ts[1..] + [t];
      RatioSumSnoc(ts[1..], t, bw);
    }
  }

  lemma AddWraps(x: nat, y: nat, u: nat)
    requires u > 0
    ensures (x % u + y) % u == (x + y) % u
  {
    var k, m := x / u, (x % u + y) / u;
    assert x == k * u + x % u;
    assert x % u + y == m * u + (x % u + y) % u;
    assert (k + m) * u == k * u + m * u;
    ModUnique(x + y, u, k + m, (x % u + y) % u);
  }

  /** The 64-bit sum is the true sum modulo 2^64. */
  lemma {:induction false} WrappedIsSum(e: Env, ts: seq<Tree>)
    ensures WrappedSum(e, KidIds(ts)) == RatioSum(ts, e.bw) % U64
  {
    if ts != [] {
      var l, z := ts[..|ts| - 1], ts[|ts| - 1];
      assert ts == l + [z];
      RatioSumSnoc(l, z, e.bw);
      WrappedIsSum(e, l);
      assert KidIds(ts)[..|ts| - 1] == KidIds(l);
      AddWraps(RatioSum(l, e.bw), RatioAt(e.bw, z.id), U64);
    }
  }

  /**
   What is to be said of one group, limit by limit: a runtime above its period and a ratio out of
   bounds are invalid (-22), and taking the runtime from real-time tasks is busy (-16).
   */
  ghost function Refusal(t: Tree, bw: map<nat, Bw>, tasks: set<nat>, g: Bw): int
    requires Keyed(t, bw) && g.period > 0
  {
    var b := bw[t.id];
    if b.runtime != INF && b.runtime > b.period then -22
    else if g.runtime != INF && b.runtime == 0 && t.id in tasks then -16
    else if Ratio(b) > Ratio(g) || RatioSum(t.kids, bw) % U64 > Ratio(b) then -22
    else 0
  }

  /** The code says just that. */
  lemma CodeIsRefusal(e: Env, t: Tree)
    requires Keyed(t, e.bw) && e.g.period > 0 && t.id in e.children && e.children[t.id] == KidIds(t.kids)
    ensures Code(e, t.id) == Refusal(t, e.bw, e.tasks, e.g)
  {
    WrappedIsSum(e, t.kids);
  }

  /** A group before its descendants, and those of a child before the next child. */
  ghost function PreOrder(t: Tree): seq<Tree>
    decreases t, 1
  {
    [t] + PreOrderAll(t.kids)
  }

  ghost function PreOrderAll(ts: seq<Tree>): seq<Tree>
    decreases ts, 0
  {
    if ts == [] then [] else PreOrder(ts[0]) + PreOrderAll(ts[1..])
  }

  /** err is what is to be said of the first group of ts about which there is something to say. */
  ghost predicate FirstRefusal(ts: seq<Tree>, bw: map<nat, Bw>, tasks: set<nat>, g: Bw, err: int)
    requires g.period > 0
  {
    && (forall t :: t in ts ==> Keyed(t, bw))
    && if err == 0 then forall i :: 0 <= i < |ts| ==> Refusal(ts[i], bw, tasks, g) == 0
       else exists k :: 0 <= k < |ts| && Refusal(ts[k], bw, tasks, g) == err
                     && forall i :: 0 <= i < k ==> Refusal(ts[i], bw, tasks, g) == 0
  }

  lemma RefusalAppend(a: seq<Tree>, b: seq<Tree>, bw: map<nat, Bw>, tasks: set<nat>, g: Bw, ra: int, rb: int)
    requires g.period > 0 && FirstRefusal(a, bw, tasks, g, ra) && (forall t :: t in b ==> Keyed(t, bw))
    requires ra == 0 ==> FirstRefusal(b, bw, tasks, g, rb)
    ensures FirstRefusal(a + b, bw, tasks, g, if ra != 0 then ra else rb)
  {
    if ra != 0 {
      var k :| 0 <= k < |a| && Refusal(a[k], bw, tasks, g) == ra
            && forall i :: 0 <= i < k ==> Refusal(a[i], bw, tasks, g) == 0;
      assert (a + b)[k] == a[k];
    } else if rb != 0 {
      var k :| 0 <= k < |b| && Refusal(b[k], bw, tasks, g) == rb
            && forall i :: 0 <= i < k ==> Refusal(b[i], bw, tasks, g) == 0;
      assert (a + b)[|a| + k] == b[k];
    }
  }

  lemma RefusalOne(t: Tree, bw: map<nat, Bw>, tasks: set<nat>, g: Bw)
    requires g.period > 0 && Keyed(t, bw)
    ensures FirstRefusal([t], bw, tasks, g, Refusal(t, bw, tasks, g))
  {
    assert [t][0] == t;
  }

  lemma {:induction false} PreOrderKeyed(t: Tree, bw: map<nat, Bw>)
    requires Keyed(t, bw)
    ensures forall k :: k in PreOrder(t) ==> Keyed(k, bw)
    decreases t, 1
  {
    PreOrderAllKeyed(t.kids, bw);
  }

  lemma {:induction false} PreOrderAllKeyed(ts: seq<Tree>, bw: map<nat, Bw>)
    requires forall k :: k in ts ==> Keyed(k, bw)
    ensures forall k :: k in PreOrderAll(ts) ==> Keyed(k, bw)
    decreases ts, 0
  {
    if ts != [] {
      PreOrderKeyed(ts[0], bw);
      PreOrderAllKeyed(ts[1..], bw);
    }
  }

  /** Every group's children's ratios add up without wrapping. */
  ghost predicate SumsFit(t: Tree, bw: map<nat, Bw>)
    requires Keyed(t, bw)
  {
    RatioSum(t.kids, bw) < U64 && forall k :: k in t.kids ==> SumsFit(k, bw)
  }

  /** A code of zero at one group says that group is in order. */
  lemma CodeMeansNodeOk(e: Env, t: Tree)
    requires Keyed(t, e.bw) && GlobalOk(e.g) && t.id in e.children && e.children[t.id] == KidIds(t.kids)
    requires RatioSum(t.kids, e.bw) < U64
    ensures Code(e, t.id) == 0 <==> NodeOk(t, e.bw, e.tasks, e.g)
  {
    CodeIsRefusal(e, t);
    NoRemainder(RatioSum(t.kids, e.bw), U64);
  }

  /**
   In exact shares, with modest budgets: zero if the group keeps its limits, and only if it does
   but for rounding; exactly if it does, when nothing is rounded.
   */
  lemma CodeMeansNodeFair(e: Env, t: Tree)
    requires Keyed(t, e.bw) && GlobalOk(e.g) && t.id in e.children && e.children[t.id] == KidIds(t.kids)
    requires RatioSum(t.kids, e.bw) < U64 && AllModest(t, e.bw)
    ensures NodeFair(t, e.bw, e.tasks, e.g, 0) ==> Code(e, t.id) == 0
    ensures Code(e, t.id) == 0 ==> NodeFair(t, e.bw, e.tasks, e.g, 1)
    ensures AllExact(t, e.bw) ==> (Code(e, t.id) == 0 <==> NodeFair(t, e.bw, e.tasks, e.g, 0))
  {
    CodeMeansNodeOk(e, t);
    NodeBetween(t, e.bw, e.tasks, e.g);
  }

  function Down(e: Env): Visitor<()> {
    (id: nat, u: ()) => (Code(e, id), u)
  }

  function Nop(): Visitor<()> {
    (id: nat, u: ()) => (0, u)
  }

  lemma VisitIs(e: Env, t: Tree)
    ensures Visit(t, Down(e), Nop(), ()).0 == if Code(e, t.id) != 0 then Code(e, t.id) else VisitAll(t.kids, Down(e), Nop(), ()).0
  {
    assert Down(e)(t.id, ()) == (Code(e, t.id), ());
  }

  /** The walk returns what is to be said of the first group, in its order, that is not in order. */
  lemma {:induction false} WalkFindsFirst(e: Env, l: Links, t: Tree, par: Option<nat>)
    requires Keyed(t, e.bw) && e.g.period > 0 && Represents(l, t, par) && l.children == e.children
    ensures FirstRefusal(PreOrder(t), e.bw, e.tasks, e.g, Visit(t, Down(e), Nop(), ()).0)
    decreases t, 1
  {
    CodeIsRefusal(e, t);
    WalkAllFindsFirst(e, l, t.kids, t.id);
    PreOrderAllKeyed(t.kids, e.bw);
    RefusalOne(t, e.bw, e.tasks, e.g);
    VisitIs(e, t);
    RefusalAppend([t], PreOrderAll(t.kids), e.bw, e.tasks, e.g, Code(e, t.id), VisitAll(t.kids, Down(e), Nop(), ()).0);
  }

  lemma {:induction false} WalkAllFindsFirst(e: Env, l: Links, ts: seq<Tree>, par: nat)
    requires e.g.period > 0 && l.children == e.children
    requires forall k :: k in ts ==> Keyed(k, e.bw) && Represents(l, k, Some(par))
    ensures FirstRefusal(PreOrderAll(ts), e.bw, e.tasks, e.g, VisitAll(ts, Down(e), Nop(), ()).0)
    decreases ts, 0
  {
    if ts != [] {
      WalkFindsFirst(e, l, ts[0], Some(par));
      assert Visit(ts[0], Down(e), Nop(), ()).1 == ();
      WalkAllFindsFirst(e, l, ts[1..], par);
      PreOrderAllKeyed(ts[1..], e.bw);
      RefusalAppend(PreOrder(ts[0]), PreOrderAll(ts[1..]), e.bw, e.tasks, e.g,
                    Visit(ts[0], Down(e), Nop(), ()).0, VisitAll(ts[1..], Down(e), Nop(), ()).0);
    }
  }

  /** The walk returns zero exactly when every group is in order. */
  lemma {:induction false} WalkMeansSchedulable(e: Env, l: Links, t: Tree, par: Option<nat>)
    requires Keyed(t, e.bw) && GlobalOk(e.g) && Represents(l, t, par) && l.children == e.children && SumsFit(t, e.bw)
    ensures Visit(t, Down(e), Nop(), ()).0 == 0 <==> Schedulable(t, e.bw, e.tasks, e.g)
    decreases t, 1
  {
    CodeMeansNodeOk(e, t);
    WalkAllMeansSchedulable(e, l, t.kids, t.id);
  }

  lemma {:induction false} WalkAllMeansSchedulable(e: Env, l: Links, ts: seq<Tree>, par: nat)
    requires GlobalOk(e.g) && l.children == e.children
    requires forall k :: k in ts ==> Keyed(k, e.bw) && Represents(l, k, Some(par)) && SumsFit(k, e.bw)
    ensures VisitAll(ts, Down(e), Nop(), ()).0 == 0 <==> forall k :: k in ts ==> Schedulable(k, e.bw, e.tasks, e.g)
    decreases ts, 0
  {
    if ts != [] {
      WalkMeansSchedulable(e, l, ts[0], Some(par));
      assert Visit(ts[0], Down(e), Nop(), ()).1 == ();
      WalkAllMeansSchedulable(e, l, ts[1..], par);
      assert forall k :: k in ts <==> k == ts[0] || k in ts[1..];
    }
  }
}
