/**
 Taking two runqueue locks: any number of CPUs, each using double_rq_lock and either form
 of _double_lock_balance, one lock operation a step. Locks are ordered by address.
 */
module RqLock {
  import opened Common

  datatype Cpu =
    | Free
    | First(lo: nat, hi: Option<nat>)   // spinning on lo with nothing held; hi, if any, comes next
    | Second(held: nat, want: nat)      // spinning on want
    | One(a: nat)
    | Two(a: nat, b: nat)
    | Failed(held: nat, want: nat)      // a trylock of want, which lies below held, has failed
  {
    function Held(): set<nat> {
      match this
      case Second(h, _) => {h}
      case One(a) => {a}
      case Two(a, b) => {a, b}
      case Failed(h, _) => {h}
      case _ => {}
    }

    function Wants(): Option<nat> {
      match this
      case First(lo, _) => Some(lo)
      case Second(_, w) => Some(w)
      case _ => None
    }
  }

  /** owner has an entry for each lock that is taken. */
  datatype State = State(cpus: map<nat, Cpu>, owner: map<nat, nat>)

  datatype Action =
    | Lock(a: nat)                     // raw_spin_lock on one runqueue
    | DoubleLock(r1: nat, r2: nat)     // double_rq_lock
    | Acquire                          // the lock being spun on is free
    | BalanceFair(busiest: nat)        // _double_lock_balance, CONFIG_PREEMPT
    | BalanceTry(busiest: nat)         // _double_lock_balance otherwise
    | LetGo                            // and after its failed trylock of a lower lock
    | Unlock(a: nat)

  /** The lower address first, and once when both are the same runqueue. */
  function InOrder(r1: nat, r2: nat): Cpu {
    if r1 == r2 then First(r1, None) else if r1 < r2 then First(r1, Some(r2)) else First(r2, Some(r1))
  }

  predicate Enabled(s: State, c: nat, a: Action) {
    && c in s.cpus
    && var p := s.cpus[c];
       match a
       case Lock(_) => p.Free?
       case DoubleLock(_, _) => p.Free?
       case Acquire => p.Wants().Some? && p.Wants().value !in s.owner
       case BalanceFair(busiest) => p.One? && p.a != busiest
       case BalanceTry(busiest) => p.One? && p.a != busiest
       case LetGo => p.Failed?
       case Unlock(x) => (p.One? || p.Two?) && x in p.Held()
  }

  function Apply(s: State, c: nat, a: Action): State
    requires Enabled(s, c, a)
  {
    var p := s.cpus[c];
    match a
    case Lock(x) => s.(cpus := s.cpus[c := First(x, None)])
    case DoubleLock(r1, r2) => s.(cpus := s.cpus[c := InOrder(r1, r2)])
    case Acquire =>
      var l := p.Wants().value;
      var q := match p
        case First(lo, hi) => (if hi.None? then One(lo) else Second(lo, hi.value))
        case Second(h, _) => Two(h, l)
        case _ => p;
      State(s.cpus[c := q], s.owner[l := c])
    case BalanceFair(busiest) =>
      State(s.cpus[c := InOrder(p.a, busiest)], s.owner - {p.a})
    case BalanceTry(busiest) =>
      if busiest !in s.owner then State(s.cpus[c := Two(p.a, busiest)], s.owner[busiest := c])
      else if busiest < p.a then s.(cpus := s.cpus[c := Failed(p.a, busiest)])
      else s.(cpus := s.cpus[c := Second(p.a, busiest)])
    case LetGo =>
      State(s.cpus[c := First(p.want, Some(p.held))], s.owner - {p.held})
    case Unlock(x) =>
      var q := if p.One? then Free else if x == p.a then One(p.b) else One(p.a);
      State(s.cpus[c := q], s.owner - {x})
  }

  /** A spinning CPU wants a lock above everything it holds or has still to take. */
  predicate Ordered(p: Cpu) {
    match p
    case First(lo, hi) => hi.Some? ==> lo < hi.value
    case Second(h, w) => h < w
    case Two(a, b) => a != b
    case Failed(h, w) => w < h
    case _ => true
  }

  ghost predicate Inv(s: State) {
    && (forall c :: c in s.cpus ==> Ordered(s.cpus[c]))
    && (forall c, l :: c in s.cpus && l in s.cpus[c].Held() ==> l in s.owner && s.owner[l] == c)
    && (forall l :: l in s.owner ==> s.owner[l] in s.cpus && l in s.cpus[s.owner[l]].Held())
  }

  /** CPU c moves on with the locks it has. */
  lemma MovesOn(s: State, c: nat, q: Cpu)
    requires Inv(s) && c in s.cpus && Ordered(q) && q.Held() == s.cpus[c].Held()
    ensures Inv(s.(cpus := s.cpus[c := q]))
  {
  }

  /** CPU c takes the free lock l. */
  lemma Takes(s: State, c: nat, q: Cpu, l: nat)
    requires Inv(s) && c in s.cpus && Ordered(q) && l !in s.owner && q.Held() == s.cpus[c].Held() + {l}
    ensures Inv(State(s.cpus[c := q], s.owner[l := c]))
  {
  }

  /** CPU c drops the lock l. */
  lemma Drops(s: State, c: nat, q: Cpu, l: nat)
    requires Inv(s) && c in s.cpus && Ordered(q) && l in s.cpus[c].Held() && q.Held() == s.cpus[c].Held() - {l}
    ensures Inv(State(s.cpus[c := q], s.owner - {l}))
  {
    var t := State(s.cpus[c := q], s.owner - {l});
    forall d, m | d in t.cpus && m in t.cpus[d].Held() ensures m in t.owner && t.owner[m] == d {
      assert m in s.cpus[d].Held();
      assert m in s.owner && s.owner[m] == d;
      assert l in s.owner && s.owner[l] == c;
      assert m != l;
    }
    forall m | m in t.owner ensures t.owner[m] in t.cpus && m in t.cpus[t.owner[m]].Held() {
      assert m in s.owner && m != l;
    }
  }

  lemma StepKeeps(s: State, c: nat, a: Action)
    requires Inv(s) && Enabled(s, c, a)
    ensures Inv(Apply(s, c, a))
  {
    var p, q := s.cpus[c], Apply(s, c, a).cpus[c];
    match a
    case Lock(_) => MovesOn(s, c, q);
    case DoubleLock(_, _) => MovesOn(s, c, q);
    case Acquire => Takes(s, c, q, p.Wants().value);
    case BalanceFair(_) => Drops(s, c, q, p.a);
    case BalanceTry(busiest) =>
      if busiest !in s.owner {
        Takes(s, c, q, busiest);
      } else {
        MovesOn(s, c, q);
      }
    case LetGo => Drops(s, c, q, p.held);
    case Unlock(x) => Drops(s, c, q, x);
  }

  ghost predicate Init(s: State) {
    s.owner == map[] && forall c :: c in s.cpus ==> s.cpus[c].Free?
  }

  ghost predicate Run(ss: seq<State>, acts: seq<(nat, Action)>) {
    && |ss| == |acts| + 1 && Init(ss[0])
    && forall i :: 0 <= i < |acts| ==> Enabled(ss[i], acts[i].0, acts[i].1) && ss[i + 1] == Apply(ss[i], acts[i].0, acts[i].1)
  }

  lemma {:induction false} RunKeeps(ss: seq<State>, acts: seq<(nat, Action)>, i: nat)
    requires Run(ss, acts) && i < |ss|
    ensures Inv(ss[i])
  {
    if i > 0 {
      RunKeeps(ss, acts, i - 1);
      StepKeeps(ss[i - 1], acts[i - 1].0, acts[i - 1].1);
    }
  }

  /** CPU c spins on a lock that CPU d holds. */
  ghost predicate WaitsFor(s: State, c: nat, d: nat) {
    && c in s.cpus && d in s.cpus
    && s.cpus[c].Wants().Some? && s.cpus[c].Wants().value in s.cpus[d].Held()
  }

  /** In every reachable state a CPU waits only for a lock above all it holds. */
  lemma WaitsUpward(ss: seq<State>, acts: seq<(nat, Action)>, i: nat, c: nat, l: nat)
    requires Run(ss, acts) && i < |ss| && c in ss[i].cpus && ss[i].cpus[c].Wants().Some?
    requires l in ss[i].cpus[c].Held()
    ensures l < ss[i].cpus[c].Wants().value
  {
    RunKeeps(ss, acts, i);
  }

  /** Among CPUs that all wait, one wants the highest lock. */
  lemma {:induction false} HighestWant(s: State, d: set<nat>) returns (c: nat)
    requires d != {} && forall c :: c in d ==> c in s.cpus && s.cpus[c].Wants().Some?
    ensures c in d && forall c' :: c' in d ==> s.cpus[c'].Wants().value <= s.cpus[c].Wants().value
  {
    c :| c in d;
    if d != {c} {
      var c' := HighestWant(s, d - {c});
      if s.cpus[c].Wants().value < s.cpus[c'].Wants().value {
        c := c';
      }
    }
  }

  /** No reachable state has a set of CPUs each waiting for another of the set: no deadlock. */
  lemma NoDeadlock(ss: seq<State>, acts: seq<(nat, Action)>, i: nat, d: set<nat>)
    requires Run(ss, acts) && i < |ss| && d != {}
    ensures exists c :: c in d && forall c' :: c' in d ==> !WaitsFor(ss[i], c, c')
  {
    var s := ss[i];
    RunKeeps(ss, acts, i);
    if c :| c in d && (c !in s.cpus || s.cpus[c].Wants().None?) {
      assert forall c' :: c' in d ==> !WaitsFor(s, c, c');
    } else {
      var c := HighestWant(s, d);
      forall c' | c' in d ensures !WaitsFor(s, c, c') {
        if WaitsFor(s, c, c') {
          WaitsUpward(ss, acts, i, c', s.cpus[c].Wants().value);
        }
      }
    }
  }

  /** Whenever some CPU spins, some CPU can go on: one gets its lock, or one that does not spin can let a lock go. */
  lemma SomeoneCanGoOn(ss: seq<State>, acts: seq<(nat, Action)>, i: nat, w: nat)
    requires Run(ss, acts) && i < |ss| && w in ss[i].cpus && ss[i].cpus[w].Wants().Some?
    ensures exists c, a: Action :: (a.Acquire? || a.LetGo? || a.Unlock?) && Enabled(ss[i], c, a)
  {
    var s := ss[i];
    RunKeeps(ss, acts, i);
    var d := set c | c in s.cpus && s.cpus[c].Wants().Some?;
    assert w in d;
    var c := HighestWant(s, d);
    var l := s.cpus[c].Wants().value;
    if l !in s.owner {
      assert Enabled(s, c, Acquire);
    } else {
      var o := s.owner[l];
      if o in d {
        WaitsUpward(ss, acts, i, o, l);
      }
      assert o !in d;
      assert Enabled(s, o, if s.cpus[o].Failed? then LetGo else Unlock(l));
    }
  }

  // --- which locks an operation ends with ---

  /** Between two operations a CPU neither spins nor has a failed trylock to act on. */
  predicate Resting(p: Cpu) {
    p.Free? || p.One? || p.Two?
  }

  /** The locks held, wanted and still to come. */
  function Goal(p: Cpu): set<nat> {
    match p
    case Free => {}
    case First(lo, hi) => if hi.Some? then {lo, hi.value} else {lo}
    case Second(h, w) => {h, w}
    case One(a) => {a}
    case Two(a, b) => {a, b}
    case Failed(h, w) => {h, w}
  }

  /** What an action sets out to hold. */
  function Aim(p: Cpu, a: Action): set<nat> {
    match a
    case Lock(x) => {x}
    case DoubleLock(r1, r2) => {r1, r2}
    case BalanceFair(busiest) => p.Held() + {busiest}
    case BalanceTry(busiest) => p.Held() + {busiest}
    case Unlock(x) => p.Held() - {x}
    case _ => Goal(p)
  }

  lemma StepAims(s: State, c: nat, a: Action)
    requires Inv(s) && Enabled(s, c, a)
    ensures Goal(Apply(s, c, a).cpus[c]) == Aim(s.cpus[c], a)
    ensures forall d :: d in s.cpus && d != c ==> d in Apply(s, c, a).cpus && Apply(s, c, a).cpus[d] == s.cpus[d]
  {
  }

  /** While CPU c is at work between i and j it keeps its goal. */
  lemma {:induction false} GoalStays(ss: seq<State>, acts: seq<(nat, Action)>, i: nat, j: nat, c: nat)
    requires Run(ss, acts) && i <= j < |ss| && c in ss[i].cpus
    requires forall k :: i <= k < j ==> c in ss[k].cpus && !Resting(ss[k].cpus[c])
    ensures c in ss[j].cpus && Goal(ss[j].cpus[c]) == Goal(ss[i].cpus[c])
    decreases j - i
  {
    if i < j {
      RunKeeps(ss, acts, i);
      StepAims(ss[i], acts[i].0, acts[i].1);
      GoalStays(ss, acts, i + 1, j, c);
    }
  }

  /** CPU c starts an operation at i and first rests again at j. */
  ghost predicate Completes(ss: seq<State>, acts: seq<(nat, Action)>, i: nat, j: nat, c: nat, a: Action) {
    && Run(ss, acts) && i < j < |ss| && acts[i] == (c, a) && c in ss[i].cpus && Resting(ss[i].cpus[c])
    && (forall k :: i < k < j ==> c in ss[k].cpus && !Resting(ss[k].cpus[c]))
    && c in ss[j].cpus && Resting(ss[j].cpus[c])
  }

  lemma EndsWithAim(ss: seq<State>, acts: seq<(nat, Action)>, i: nat, j: nat, c: nat, a: Action)
    requires Completes(ss, acts, i, j, c, a)
    ensures ss[j].cpus[c].Held() == Aim(ss[i].cpus[c], a)
  {
    RunKeeps(ss, acts, i);
    StepAims(ss[i], c, a);
    GoalStays(ss, acts, i + 1, j, c);
  }

  /** double_rq_lock returns with exactly the two locks asked for. */
  lemma DoubleLockTakesBoth(ss: seq<State>, acts: seq<(nat, Action)>, i: nat, j: nat, c: nat, r1: nat, r2: nat)
    requires Completes(ss, acts, i, j, c, DoubleLock(r1, r2))
    ensures ss[j].cpus[c].Held() == {r1, r2}
    ensures r1 in ss[j].owner && ss[j].owner[r1] == c && r2 in ss[j].owner && ss[j].owner[r2] == c
  {
    EndsWithAim(ss, acts, i, j, c, DoubleLock(r1, r2));
    RunKeeps(ss, acts, j);
  }

  /** Either _double_lock_balance returns with exactly the caller's own lock and the other. */
  lemma BalanceTakesBoth(ss: seq<State>, acts: seq<(nat, Action)>, i: nat, j: nat, c: nat, own: nat, busiest: nat, fair: bool)
    requires Completes(ss, acts, i, j, c, if fair then BalanceFair(busiest) else BalanceTry(busiest))
    requires ss[i].cpus[c] == One(own)
    ensures ss[j].cpus[c].Held() == {own, busiest}
  {
    EndsWithAim(ss, acts, i, j, c, if fair then BalanceFair(busiest) else BalanceTry(busiest));
  }

  /** A single lock is taken, and an unlock drops that one lock. */
  lemma LockAndUnlock(ss: seq<State>, acts: seq<(nat, Action)>, i: nat, j: nat, c: nat, x: nat, up: bool)
    requires Completes(ss, acts, i, j, c, if up then Unlock(x) else Lock(x))
    ensures ss[j].cpus[c].Held() == if up then ss[i].cpus[c].Held() - {x} else {x}
  {
    EndsWithAim(ss, acts, i, j, c, if up then Unlock(x) else Lock(x));
  }

  /** The fair form first gives up the caller's lock; the other keeps it, unless it must wait for a lower one. */
  lemma BalanceForms(s: State, c: nat, busiest: nat)
    requires c in s.cpus && s.cpus[c].One? && s.cpus[c].a != busiest
    ensures var f := Apply(s, c, BalanceFair(busiest)); f.cpus[c].Held() == {} && s.cpus[c].a !in f.owner
    ensures var t := Apply(s, c, BalanceTry(busiest));
      if busiest !in s.owner then t.cpus[c].Held() == {s.cpus[c].a, busiest} && Resting(t.cpus[c])
      else t.cpus[c].Held() == {s.cpus[c].a} && t.owner == s.owner
           && (t.cpus[c].Wants() == Some(busiest) <==> s.cpus[c].a < busiest)
  {
  }
}
