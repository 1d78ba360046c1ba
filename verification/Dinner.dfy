/**
 The shared list of turkey dinners: any number of searchers, inserters and deleters, one
 memory access or lock operation a step. Dereferencing a pointer that is null or freed,
 or freeing such a pointer, crashes the thread.
 */
module Dinner {
  import opened Common

  type Ptr = Option<nat>

  /** Where a thread stands; each kind of thread stays within its own group. */
  datatype Pc =
    // searcher, find_dinner
    | SIdle | SCheck | SDraw | SHead(target: nat) | SWalk(cur: Ptr, at: nat, target: nat) | SUnlock
    // inserter, add_dinner, find_last_dinner
    | IIdle | ILock(node: nat) | IFirst(node: nat) | IWalk(node: nat, last: Ptr) | IAdvance(node: nat, last: Ptr)
    | ILink(node: nat, last: Ptr) | ILoad | IStore(seen: int) | IUnlock
    // deleter, cancel_dinner
    | DIdle | DLockIns | DCheck | DLockDel | DDraw | DHead(target: nat)
    | DWalk(prev: Ptr, cur: Ptr, at: nat, target: nat) | DSnip(prev: Ptr, cur: Ptr, at: nat)
    | DWrite(prev: Ptr, cur: Ptr, after: Ptr, at: nat)
    | DLoad(cur: Ptr) | DStore(cur: Ptr, seen: int) | DFree(cur: Ptr) | DUnlockDel | DUnlockIns | DUnlockList
    | Crashed

  /** born and gone record history: the nodes linked in, and which of them have been cancelled. */
  datatype Mem = Mem(head: Ptr, next: map<nat, Ptr>, count: int, born: seq<nat>, gone: set<nat>)

  datatype Locks = Locks(readers: set<nat>, writer: Option<nat>, ins: Option<nat>, del: Option<nat>)

  datatype State = State(mem: Mem, locks: Locks, pc: map<nat, Pc>)

  datatype After = After(mem: Mem, locks: Locks, pc: Pc)

  // --- the list as history tells it ---

  /** What was inserted, in that order, less what was cancelled. */
  function Kept(born: seq<nat>, gone: set<nat>): seq<nat> {
    if born == [] then []
    else
      var rest := Kept(born[..|born| - 1], gone);
      if |born| - 1 in gone then rest else rest + [born[|born| - 1]]
  }

  /** Which insertion the k-th kept dinner came from. */
  function Birth(born: seq<nat>, gone: set<nat>, k: nat): (i: nat)
    requires k < |Kept(born, gone)|
    ensures i < |born| && i !in gone && born[i] == Kept(born, gone)[k]
  {
    var rest := Kept(born[..|born| - 1], gone);
    if k < |rest| then Birth(born[..|born| - 1], gone, k) else |born| - 1
  }

  lemma {:induction false} FarGone(born: seq<nat>, gone: set<nat>, i: nat)
    requires i >= |born|
    ensures Kept(born, gone + {i}) == Kept(born, gone)
  {
    if born != [] {
      FarGone(born[..|born| - 1], gone, i);
    }
  }

  /** Cancelling the k-th takes just that one out. */
  lemma {:induction false} KeptMinus(born: seq<nat>, gone: set<nat>, k: nat)
    requires k < |Kept(born, gone)|
    ensures Kept(born, gone + {Birth(born, gone, k)}) == Without(Kept(born, gone), k)
  {
    var front := born[..|born| - 1];
    var rest := Kept(front, gone);
    if k < |rest| {
      KeptMinus(front, gone, k);
    } else {
      FarGone(front, gone, |born| - 1);
    }
  }

  lemma KeptPlus(born: seq<nat>, gone: set<nat>, n: nat)
    requires |born| !in gone
    ensures Kept(born + [n], gone) == Kept(born, gone) + [n]
  {
    assert (born + [n])[..|born|] == born;
  }

  // --- the steps ---

  function Kind(p: Pc): nat {
    if p.SIdle? || p.SCheck? || p.SDraw? || p.SHead? || p.SWalk? || p.SUnlock? then 0
    else if p.IIdle? || p.ILock? || p.IFirst? || p.IWalk? || p.IAdvance? || p.ILink? || p.ILoad? || p.IStore? || p.IUnlock? then 1
    else if p.Crashed? then 3 else 2
  }

  /** x is the node malloc returns, or the number random_range(1, dinner_count) draws. */
  predicate Enabled(m: Mem, k: Locks, p: Pc, x: nat) {
    match p
    case SIdle => k.writer.None?
    case SDraw => 1 <= x <= m.count
    case IIdle => x !in m.next
    case ILock(_) => k.ins.None?
    case DIdle => k.writer.None? && k.readers == {}
    case DLockIns => k.ins.None?
    case DLockDel => k.del.None?
    case DDraw => 1 <= x <= m.count
    case Crashed => false
    case _ => true
  }

  predicate Live(m: Mem, p: Ptr) {
    p.Some? && p.value in m.next
  }

  function SearcherStep(m: Mem, k: Locks, t: nat, p: Pc, x: nat): After
    requires Kind(p) == 0
  {
    match p
    case SIdle => After(m, k.(readers := k.readers + {t}), SCheck)
    case SCheck => After(m, k, if m.count > 0 then SDraw else SUnlock)
    case SDraw => After(m, k, SHead(x))
    case SHead(target) => After(m, k, SWalk(m.head, 1, target))
    case SWalk(cur, at, target) =>
      if at == target then After(m, k, SUnlock)
      else if Live(m, cur) then After(m, k, SWalk(m.next[cur.value], at + 1, target))
      else After(m, k, Crashed)
    case SUnlock => After(m, k.(readers := k.readers - {t}), SIdle)
  }

  function InserterStep(m: Mem, k: Locks, t: nat, p: Pc, x: nat): After
    requires Kind(p) == 1
  {
    match p
    case IIdle => After(m.(next := m.next[x := None]), k, ILock(x))
    case ILock(n) => After(m, k.(ins := Some(t)), IFirst(n))
    case IFirst(n) => After(m, k, if m.head.None? then ILink(n, None) else IWalk(n, m.head))
    case IWalk(n, last) =>
      if !Live(m, last) then After(m, k, Crashed)
      else if m.next[last.value].Some? then After(m, k, IAdvance(n, last))
      else After(m, k, ILink(n, last))
    case IAdvance(n, last) =>
      if Live(m, last) then After(m, k, IWalk(n, m.next[last.value])) else After(m, k, Crashed)
    case ILink(n, last) =>
      var m' := m.(born := m.born + [n]);
      if last.None? then After(m'.(head := Some(n)), k, ILoad)
      else if Live(m, last) then After(m'.(next := m.next[last.value := Some(n)]), k, ILoad)
      else After(m, k, Crashed)
    case ILoad => After(m, k, IStore(m.count))
    case IStore(v) => After(m.(count := v + 1), k, IUnlock)
    case IUnlock => After(m, k.(ins := None), IIdle)
  }

  /** History marks as gone the dinner at the place the walk stopped. */
  function Cancelled(m: Mem, at: nat): Mem {
    if 1 <= at <= |Kept(m.born, m.gone)| then m.(gone := m.gone + {Birth(m.born, m.gone, at - 1)}) else m
  }

  /** cancel_dinner up to the point where the node is unlinked. */
  function CancelWalk(m: Mem, k: Locks, p: Pc): After
    requires p.DHead? || p.DWalk? || p.DSnip?
  {
    match p
    case DHead(target) => After(m, k, DWalk(None, m.head, 1, target))
    case DWalk(prev, cur, at, target) =>
      if at == target then After(m, k, DSnip(prev, cur, at))
      else if Live(m, cur) then After(m, k, DWalk(cur, m.next[cur.value], at + 1, target))
      else After(m, k, Crashed)
    case DSnip(prev, cur, at) =>
      if Live(m, cur) then After(m, k, DWrite(prev, cur, m.next[cur.value], at)) else After(m, k, Crashed)
  }

  function Unlink(m: Mem, k: Locks, p: Pc): After
    requires p.DWrite?
  {
    var m' := Cancelled(m, p.at);
    if p.prev.None? then After(m'.(head := p.after), k, DLoad(p.cur))
    else if Live(m, p.prev) then After(m'.(next := m.next[p.prev.value := p.after]), k, DLoad(p.cur))
    else After(m, k, Crashed)
  }

  /** The rest of deleter, and of cancel_dinner once the node is unlinked. */
  function DeleterRest(m: Mem, k: Locks, t: nat, p: Pc, x: nat): After
    requires Kind(p) == 2 && !p.DHead? && !p.DWalk? && !p.DSnip? && !p.DWrite?
  {
    match p
    case DIdle => After(m, k.(writer := Some(t)), DLockIns)
    case DLockIns => After(m, k.(ins := Some(t)), DCheck)
    case DCheck => After(m, k, if m.count > 0 then DLockDel else DUnlockIns)
    case DLockDel => After(m, k.(del := Some(t)), DDraw)
    case DDraw => After(m, k, DHead(x))
    case DLoad(cur) => After(m, k, DStore(cur, m.count))
    case DStore(cur, v) => After(m.(count := v - 1), k, DFree(cur))
    case DFree(cur) =>
      if Live(m, cur) then After(m.(next := m.next - {cur.value}), k, DUnlockDel) else After(m, k, Crashed)
    case DUnlockDel => After(m, k.(del := None), DUnlockIns)
    case DUnlockIns => After(m, k.(ins := None), DUnlockList)
    case DUnlockList => After(m, k.(writer := None), DIdle)
  }

  function DeleterStep(m: Mem, k: Locks, t: nat, p: Pc, x: nat): After
    requires Kind(p) == 2
  {
    if p.DHead? || p.DWalk? || p.DSnip? then CancelWalk(m, k, p)
    else if p.DWrite? then Unlink(m, k, p)
    else DeleterRest(m, k, t, p, x)
  }

  function Step(m: Mem, k: Locks, t: nat, p: Pc, x: nat): After
    requires Kind(p) < 3
  {
    if Kind(p) == 0 then SearcherStep(m, k, t, p, x)
    else if Kind(p) == 1 then InserterStep(m, k, t, p, x)
    else DeleterStep(m, k, t, p, x)
  }

  // --- the invariant ---

  /** The list q, from head to its null pointer, none of it freed. */
  ghost predicate Chain(head: Ptr, next: map<nat, Ptr>, q: seq<nat>) {
    && head == (if q == [] then None else Some(q[0]))
    && (forall i :: 0 <= i < |q| ==> q[i] in next && next[q[i]] == After1(q, i))
    && AllApart(q)
  }

  function After1(q: seq<nat>, i: nat): Ptr {
    if i + 1 < |q| then Some(q[i + 1]) else None
  }

  function Before1(q: seq<nat>, i: nat): Ptr
    requires i <= |q|
  {
    if i == 0 then None else Some(q[i - 1])
  }

  /** The node a thread has to itself: not yet linked in, or unlinked and not yet freed. */
  function Own(p: Pc): Ptr {
    match p
    case ILock(n) => Some(n)
    case IFirst(n) => Some(n)
    case IWalk(n, _) => Some(n)
    case IAdvance(n, _) => Some(n)
    case ILink(n, _) => Some(n)
    case DLoad(cur) => cur
    case DStore(cur, _) => cur
    case DFree(cur) => cur
    case _ => None
  }

  predicate HoldsRead(p: Pc) {
    Kind(p) == 0 && !p.SIdle?
  }

  predicate HoldsWrite(p: Pc) {
    Kind(p) == 2 && !p.DIdle?
  }

  predicate HoldsIns(p: Pc) {
    || (Kind(p) == 1 && !p.IIdle? && !p.ILock?)
    || (Kind(p) == 2 && !p.DIdle? && !p.DLockIns? && !p.DUnlockList?)
  }

  predicate HoldsDel(p: Pc) {
    HoldsWrite(p) && HoldsIns(p) && !p.DCheck? && !p.DLockDel? && !p.DUnlockIns?
  }

  /** How far the list is longer than dinner_count while this thread has the inserters' lock. */
  function Lag(p: Pc): int {
    if p.ILoad? || p.IStore? then 1 else if p.DLoad? || p.DStore? then -1 else 0
  }

  predicate LocksOk(k: Locks, t: nat, p: Pc) {
    && (HoldsRead(p) <==> t in k.readers)
    && (HoldsWrite(p) <==> k.writer == Some(t))
    && (HoldsIns(p) <==> k.ins == Some(t))
    && (HoldsDel(p) <==> k.del == Some(t))
  }

  /** What a thread at p may rely on, q being the list. */
  ghost predicate Knows(m: Mem, q: seq<nat>, p: Pc) {
    && (Own(p).Some? ==> Own(p).value in m.next && Own(p).value !in q)
    && (Kind(p) == 1 && Own(p).Some? ==> m.next[Own(p).value].None?)
    && match p
       case SDraw => m.count >= 1
       case SHead(target) => 1 <= target <= |q|
       case SWalk(cur, at, target) => 1 <= at <= target <= |q| && cur == Some(q[at - 1])
       case IWalk(_, last) => last.Some? && last.value in q
       case IAdvance(_, last) => last.Some? && exists i :: 0 <= i < |q| - 1 && q[i] == last.value
       case ILink(_, last) => last == Before1(q, |q|)
       case IStore(seen) => seen == m.count
       case DLockDel => m.count >= 1
       case DDraw => m.count >= 1
       case DHead(target) => 1 <= target <= |q|
       case DWalk(prev, cur, at, target) => 1 <= at <= target <= |q| && cur == Some(q[at - 1]) && prev == Before1(q, at - 1)
       case DSnip(prev, cur, at) => 1 <= at <= |q| && cur == Some(q[at - 1]) && prev == Before1(q, at - 1)
       case DWrite(prev, cur, after, at) =>
         1 <= at <= |q| && cur == Some(q[at - 1]) && prev == Before1(q, at - 1) && after == After1(q, at - 1)
       case DLoad(cur) => cur.Some?
       case DStore(cur, seen) => cur.Some? && seen == m.count
       case DFree(cur) => cur.Some?
       case Crashed => false
       case _ => true
  }

  /** What other threads' steps leave alone for a thread at p. */
  ghost predicate Rely(m: Mem, k: Locks, q: seq<nat>, m': Mem, q': seq<nat>, t: nat, p: Pc) {
    && (t in k.readers ==> q <= q' && m.count <= m'.count)
    && (k.ins == Some(t) ==> q == q' && m.count == m'.count)
    && (Own(p).Some? && Own(p).value in m.next && Own(p).value !in q ==>
          Own(p).value in m'.next && m'.next[Own(p).value] == m.next[Own(p).value] && Own(p).value !in q')
  }

  lemma KnowsStays(m: Mem, k: Locks, q: seq<nat>, m': Mem, q': seq<nat>, t: nat, p: Pc)
    requires LocksOk(k, t, p) && Knows(m, q, p) && Rely(m, k, q, m', q', t, p)
    ensures Knows(m', q', p)
  {
  }

  /** dinner_count against the list, e being the lag of whoever has the inserters' lock. */
  ghost predicate Counted(m: Mem, q: seq<nat>, e: int) {
    |q| == m.count + e
  }

  function LagOf(k: Locks, pc: map<nat, Pc>): int {
    if k.ins.Some? && k.ins.value in pc then Lag(pc[k.ins.value]) else 0
  }

  function List(m: Mem): seq<nat> {
    Kept(m.born, m.gone)
  }

  ghost predicate HistoryOk(m: Mem) {
    forall i :: i in m.gone ==> i < |m.born|
  }

  ghost predicate ThreadsOk(m: Mem, k: Locks, q: seq<nat>, pc: map<nat, Pc>) {
    forall t :: t in pc ==> LocksOk(k, t, pc[t]) && Knows(m, q, pc[t])
  }

  /** No node is private to two threads. */
  ghost predicate OwnedOnce(pc: map<nat, Pc>) {
    forall t, u :: t in pc && u in pc && t != u && Own(pc[t]).Some? ==> Own(pc[t]) != Own(pc[u])
  }

  /** Everything that holds between steps, q being the list. */
  ghost predicate InvOn(s: State, q: seq<nat>) {
    && HistoryOk(s.mem)
    && Chain(s.mem.head, s.mem.next, q)
    && Counted(s.mem, q, LagOf(s.locks, s.pc))
    && ThreadsOk(s.mem, s.locks, q, s.pc)
    && OwnedOnce(s.pc)
    && Owners(s.locks, s.pc.Keys)
  }

  ghost predicate Inv(s: State) {
    InvOn(s, List(s.mem))
  }

  /** Locks are held by threads of the program; a writer excludes readers. */
  ghost predicate Owners(k: Locks, threads: set<nat>) {
    && k.readers <= threads
    && (k.writer.Some? ==> k.writer.value in threads && k.readers == {})
    && (k.ins.Some? ==> k.ins.value in threads)
    && (k.del.Some? ==> k.del.value in threads)
  }

  // --- what a thread's step does for itself ---

  /** The step's own results, e being the lag of the inserters' lock holder before it. */
  ghost predicate Done(m: Mem, k: Locks, q: seq<nat>, t: nat, p: Pc, e: int, r: After, q': seq<nat>) {
    && Chain(r.mem.head, r.mem.next, q')
    && LocksOk(r.locks, t, r.pc) && Knows(r.mem, q', r.pc)
    && Counted(r.mem, q', if r.locks.ins == Some(t) then Lag(r.pc) else if k.ins == Some(t) then 0 else e)
    && HistoryOk(r.mem)
    && (Own(r.pc).Some? ==> Own(r.pc) == Own(p) || Own(r.pc).value !in m.next || Own(r.pc).value in q)
  }

  /** And what it leaves alone for every other thread. */
  ghost predicate Spares(m: Mem, k: Locks, q: seq<nat>, t: nat, p: Pc, r: After, q': seq<nat>) {
    && (forall u {:trigger u in k.readers} :: u != t ==> (u in k.readers <==> u in r.locks.readers))
    && (r.locks.writer == k.writer || (k.writer.None? && r.locks.writer == Some(t)) || (k.writer == Some(t) && r.locks.writer.None?))
    && (r.locks.ins == k.ins || (k.ins.None? && r.locks.ins == Some(t)) || (k.ins == Some(t) && r.locks.ins.None?))
    && (r.locks.del == k.del || (k.del.None? && r.locks.del == Some(t)) || (k.del == Some(t) && r.locks.del.None?))
    && (r.locks.writer.Some? ==> r.locks.readers == {})
    && (k.ins != Some(t) ==> q' == q && r.mem.count == m.count)
    && ((q <= q' && m.count <= r.mem.count) || k.writer == Some(t))
    && (forall n {:trigger n in m.next} :: n in m.next && n !in q && Own(p) != Some(n) ==>
          n in r.mem.next && r.mem.next[n] == m.next[n] && n !in q')
  }

  ghost predicate Ready(m: Mem, k: Locks, q: seq<nat>, t: nat, p: Pc, e: int) {
    && HistoryOk(m) && Chain(m.head, m.next, q) && LocksOk(k, t, p) && Knows(m, q, p)
    && Counted(m, q, e)
    && (k.ins == Some(t) ==> e == Lag(p))
    && (k.writer.Some? ==> k.readers == {})
    && (k.readers != {} ==> e >= 0)
    && (k.ins.None? ==> e == 0)
  }

  lemma SearcherKeeps(m: Mem, k: Locks, q: seq<nat>, t: nat, p: Pc, x: nat, e: int)
    requires Ready(m, k, q, t, p, e) && Kind(p) == 0 && Enabled(m, k, p, x)
    ensures Done(m, k, q, t, p, e, SearcherStep(m, k, t, p, x), q)
    ensures Spares(m, k, q, t, p, SearcherStep(m, k, t, p, x), q)
  {
  }

  /** Linking n in at the end. */
  lemma AppendChain(m: Mem, q: seq<nat>, n: nat)
    requires Chain(m.head, m.next, q) && n in m.next && n !in q && m.next[n].None?
    ensures Chain(if q == [] then Some(n) else m.head,
                  if q == [] then m.next else m.next[q[|q| - 1] := Some(n)], q + [n])
  {
    forall i, j | 0 <= i < j < |q| + 1 ensures Apart(q + [n], i, j) {
      assert j < |q| ==> Apart(q, i, j);
    }
    forall i | 0 <= i < |q| - 1 ensures q[i] != q[|q| - 1] {
      assert Apart(q, i, |q| - 1);
    }
  }

  lemma WithoutApart(q: seq<nat>, k: nat)
    requires AllApart(q) && k < |q|
    ensures AllApart(Without(q, k)) && q[k] !in Without(q, k)
  {
    var q' := Without(q, k);
    forall i, j | 0 <= i < j < |q'| ensures Apart(q', i, j) {
      WithoutAt(q, k, i);
      WithoutAt(q, k, j);
      assert Apart(q, if i < k then i else i + 1, if j < k then j else j + 1);
    }
    forall i | 0 <= i < |q'| ensures q'[i] != q[k] {
      WithoutAt(q, k, i);
      assert if i < k then Apart(q, i, k) else Apart(q, k, i + 1);
    }
  }

  /** Snipping out the k-th. */
  lemma SnipChain(m: Mem, q: seq<nat>, k: nat)
    requires Chain(m.head, m.next, q) && k < |q|
    ensures q[k] !in Without(q, k)
    ensures Chain(if k == 0 then After1(q, k) else m.head,
                  if k == 0 then m.next else m.next[q[k - 1] := After1(q, k)], Without(q, k))
  {
    var q' := Without(q, k);
    WithoutApart(q, k);
    forall i | 0 <= i < |q'|
      ensures q'[i] == q[if i < k then i else i + 1] && (k > 0 && i != k - 1 ==> q'[i] != q[k - 1])
    {
      WithoutAt(q, k, i);
      if k > 0 && i != k - 1 {
        assert if i < k then Apart(q, i, k - 1) else Apart(q, k - 1, i + 1);
      }
    }
  }

  lemma InserterKeeps(m: Mem, k: Locks, t: nat, p: Pc, x: nat, e: int)
    requires Ready(m, k, List(m), t, p, e) && Kind(p) == 1 && Enabled(m, k, p, x)
    ensures var r := InserterStep(m, k, t, p, x);
            Done(m, k, List(m), t, p, e, r, List(r.mem)) && Spares(m, k, List(m), t, p, r, List(r.mem))
  {
    if p.ILink? {
      KeptPlus(m.born, m.gone, p.node);
      AppendChain(m, List(m), p.node);
      LinkKeeps(m, k, List(m), t, p, e, InserterStep(m, k, t, p, x));
    } else {
      if p.IWalk? || p.IAdvance? || p.IFirst? {
        FindsLast(m, k, List(m), t, p, e);
      } else {
        ListStands(m, k, List(m), t, p, x, e);
      }
    }
  }

  lemma LinkKeeps(m: Mem, k: Locks, q: seq<nat>, t: nat, p: Pc, e: int, r: After)
    requires Ready(m, k, q, t, p, e) && p.ILink? && r == InserterStep(m, k, t, p, 0)
    requires Chain(if q == [] then Some(p.node) else m.head,
                   if q == [] then m.next else m.next[q[|q| - 1] := Some(p.node)], q + [p.node])
    ensures Done(m, k, q, t, p, e, r, q + [p.node]) && Spares(m, k, q, t, p, r, q + [p.node])
  {
  }

  lemma FindsLast(m: Mem, k: Locks, q: seq<nat>, t: nat, p: Pc, e: int)
    requires Ready(m, k, q, t, p, e) && (p.IFirst? || p.IWalk? || p.IAdvance?)
    ensures var r := InserterStep(m, k, t, p, 0);
            Done(m, k, q, t, p, e, r, q) && Spares(m, k, q, t, p, r, q)
  {
  }

  lemma ListStands(m: Mem, k: Locks, q: seq<nat>, t: nat, p: Pc, x: nat, e: int)
    requires Ready(m, k, q, t, p, e) && Kind(p) == 1 && Enabled(m, k, p, x)
    requires p.IIdle? || p.ILock? || p.ILoad? || p.IStore? || p.IUnlock?
    ensures var r := InserterStep(m, k, t, p, x);
            Done(m, k, q, t, p, e, r, q) && Spares(m, k, q, t, p, r, q)
  {
  }

  /** A step that only moves a thread on within the locks it holds. */
  lemma MovesOn(m: Mem, k: Locks, q: seq<nat>, t: nat, p: Pc, e: int, p': Pc)
    requires Ready(m, k, q, t, p, e) && Knows(m, q, p')
    requires HoldsRead(p) == HoldsRead(p') && HoldsWrite(p) == HoldsWrite(p')
    requires HoldsIns(p) == HoldsIns(p') && HoldsDel(p) == HoldsDel(p')
    requires Lag(p) == Lag(p') && Own(p) == Own(p')
    ensures Done(m, k, q, t, p, e, After(m, k, p'), q) && Spares(m, k, q, t, p, After(m, k, p'), q)
  {
  }

  lemma DeleterKeeps(m: Mem, k: Locks, t: nat, p: Pc, x: nat, e: int)
    requires Ready(m, k, List(m), t, p, e) && Kind(p) == 2 && Enabled(m, k, p, x)
    ensures var r := DeleterStep(m, k, t, p, x);
            Done(m, k, List(m), t, p, e, r, List(r.mem)) && Spares(m, k, List(m), t, p, r, List(r.mem))
  {
    if p.DWrite? {
      Unlinks(m, k, t, p, e);
    } else if p.DHead? || p.DWalk? || p.DSnip? {
      Walks(m, k, List(m), t, p, e);
    } else {
      Rests(m, k, List(m), t, p, x, e);
    }
  }

  lemma Unlinks(m: Mem, k: Locks, t: nat, p: Pc, e: int)
    requires Ready(m, k, List(m), t, p, e) && p.DWrite?
    ensures var r := Unlink(m, k, p);
            Done(m, k, List(m), t, p, e, r, List(r.mem)) && Spares(m, k, List(m), t, p, r, List(r.mem))
  {
    UnlinkIs(m, k, p);
    Snips(m, k, List(m), t, p, e, Unlink(m, k, p).mem, List(Unlink(m, k, p).mem));
  }

  lemma UnlinkIs(m: Mem, k: Locks, p: Pc)
    requires HistoryOk(m) && Chain(m.head, m.next, List(m)) && Knows(m, List(m), p) && p.DWrite?
    ensures var q, r := List(m), Unlink(m, k, p);
      && r == After(r.mem, k, DLoad(p.cur)) && HistoryOk(r.mem) && r.mem.count == m.count
      && r.mem.next == (if p.at == 1 then m.next else m.next[q[p.at - 2] := p.after])
      && List(r.mem) == Without(q, p.at - 1) && |List(r.mem)| == |q| - 1 && q[p.at - 1] !in List(r.mem)
      && (forall n :: n in List(r.mem) ==> n in q)
      && Chain(r.mem.head, r.mem.next, List(r.mem))
  {
    KeptMinus(m.born, m.gone, p.at - 1);
    SnipChain(m, List(m), p.at - 1);
    assert p.prev.Some? ==> Live(m, p.prev);
  }

  lemma Snips(m: Mem, k: Locks, q: seq<nat>, t: nat, p: Pc, e: int, m': Mem, q': seq<nat>)
    requires Ready(m, k, q, t, p, e) && p.DWrite?
    requires |q'| == |q| - 1 && q[p.at - 1] !in q' && (forall n :: n in q' ==> n in q)
    requires m'.next == (if p.at == 1 then m.next else m.next[q[p.at - 2] := p.after])
    requires HistoryOk(m') && m'.count == m.count && Chain(m'.head, m'.next, q')
    ensures Done(m, k, q, t, p, e, After(m', k, DLoad(p.cur)), q')
    ensures Spares(m, k, q, t, p, After(m', k, DLoad(p.cur)), q')
  {
  }

  lemma WalkKnows(m: Mem, q: seq<nat>, p: Pc, p': Pc)
    requires p.DWalk? && Chain(m.head, m.next, q) && Knows(m, q, p) && Live(m, p.cur)
    requires p' == if p.at == p.target then DSnip(p.prev, p.cur, p.at) else DWalk(p.cur, m.next[p.cur.value], p.at + 1, p.target)
    ensures Knows(m, q, p')
  {
  }

  lemma WalksOn(m: Mem, k: Locks, q: seq<nat>, t: nat, p: Pc, e: int)
    requires Ready(m, k, q, t, p, e) && p.DWalk?
    ensures var r := CancelWalk(m, k, p);
            Done(m, k, q, t, p, e, r, q) && Spares(m, k, q, t, p, r, q)
  {
    assert Live(m, p.cur);
    WalkKnows(m, q, p, CancelWalk(m, k, p).pc);
    MovesOn(m, k, q, t, p, e, CancelWalk(m, k, p).pc);
  }

  lemma Snipping(m: Mem, k: Locks, q: seq<nat>, t: nat, p: Pc, e: int)
    requires Ready(m, k, q, t, p, e) && p.DSnip?
    ensures var r := CancelWalk(m, k, p);
            Done(m, k, q, t, p, e, r, q) && Spares(m, k, q, t, p, r, q)
  {
    assert Live(m, p.cur);
    MovesOn(m, k, q, t, p, e, CancelWalk(m, k, p).pc);
  }

  lemma Counting(m: Mem, k: Locks, q: seq<nat>, t: nat, p: Pc, x: nat, e: int)
    requires Ready(m, k, q, t, p, e) && Enabled(m, k, p, x)
    requires p.DCheck? || p.DDraw? || p.DLoad?
    ensures var r := DeleterRest(m, k, t, p, x);
            Done(m, k, q, t, p, e, r, q) && Spares(m, k, q, t, p, r, q)
  {
    MovesOn(m, k, q, t, p, e, DeleterRest(m, k, t, p, x).pc);
  }

  lemma Counts(m: Mem, k: Locks, q: seq<nat>, t: nat, p: Pc, e: int)
    requires Ready(m, k, q, t, p, e) && p.DStore?
    ensures var r := After(m.(count := p.seen - 1), k, DFree(p.cur));
            Done(m, k, q, t, p, e, r, q) && Spares(m, k, q, t, p, r, q)
  {
  }

  lemma Frees(m: Mem, k: Locks, q: seq<nat>, t: nat, p: Pc, e: int)
    requires Ready(m, k, q, t, p, e) && p.DFree?
    ensures Live(m, p.cur)
    ensures var r := After(m.(next := m.next - {p.cur.value}), k, DUnlockDel);
            Done(m, k, q, t, p, e, r, q) && Spares(m, k, q, t, p, r, q)
  {
  }

  lemma DeleterTakes(m: Mem, k: Locks, q: seq<nat>, t: nat, p: Pc, e: int)
    requires Ready(m, k, q, t, p, e) && Enabled(m, k, p, 0)
    requires p.DIdle? || p.DLockIns? || p.DLockDel?
    ensures var r := DeleterRest(m, k, t, p, 0);
            Done(m, k, q, t, p, e, r, q) && Spares(m, k, q, t, p, r, q)
  {
  }

  lemma DeleterReleases(m: Mem, k: Locks, q: seq<nat>, t: nat, p: Pc, e: int)
    requires Ready(m, k, q, t, p, e) && (p.DUnlockDel? || p.DUnlockIns? || p.DUnlockList?)
    ensures var r := DeleterRest(m, k, t, p, 0);
            Done(m, k, q, t, p, e, r, q) && Spares(m, k, q, t, p, r, q)
  {
  }

  lemma Walks(m: Mem, k: Locks, q: seq<nat>, t: nat, p: Pc, e: int)
    requires Ready(m, k, q, t, p, e) && (p.DHead? || p.DWalk? || p.DSnip?)
    ensures var r := CancelWalk(m, k, p);
            Done(m, k, q, t, p, e, r, q) && Spares(m, k, q, t, p, r, q)
  {
    match p
    case DHead(target) => MovesOn(m, k, q, t, p, e, DWalk(None, m.head, 1, target));
    case DWalk(_, _, _, _) => WalksOn(m, k, q, t, p, e);
    case DSnip(_, _, _) => Snipping(m, k, q, t, p, e);
  }

  lemma Rests(m: Mem, k: Locks, q: seq<nat>, t: nat, p: Pc, x: nat, e: int)
    requires Ready(m, k, q, t, p, e) && Enabled(m, k, p, x) && Kind(p) == 2
    requires !p.DHead? && !p.DWalk? && !p.DSnip? && !p.DWrite?
    ensures var r := DeleterRest(m, k, t, p, x);
            Done(m, k, q, t, p, e, r, q) && Spares(m, k, q, t, p, r, q)
  {
    if p.DCheck? || p.DDraw? || p.DLoad? {
      Counting(m, k, q, t, p, x, e);
    } else if p.DStore? {
      Counts(m, k, q, t, p, e);
    } else if p.DFree? {
      Frees(m, k, q, t, p, e);
    } else if p.DIdle? || p.DLockIns? || p.DLockDel? {
      DeleterTakes(m, k, q, t, p, e);
    } else {
      DeleterReleases(m, k, q, t, p, e);
    }
  }

  // --- every run keeps the invariant ---

  ghost predicate CanStep(s: State, t: nat, x: nat) {
    t in s.pc && Enabled(s.mem, s.locks, s.pc[t], x)
  }

  function Next(s: State, t: nat, x: nat): State
    requires t in s.pc && Kind(s.pc[t]) < 3
  {
    var r := Step(s.mem, s.locks, t, s.pc[t], x);
    State(r.mem, r.locks, s.pc[t := r.pc])
  }

  lemma StepDone(m: Mem, k: Locks, t: nat, p: Pc, x: nat, e: int)
    requires Ready(m, k, List(m), t, p, e) && Enabled(m, k, p, x)
    ensures var r := Step(m, k, t, p, x);
            Done(m, k, List(m), t, p, e, r, List(r.mem)) && Spares(m, k, List(m), t, p, r, List(r.mem))
  {
    if Kind(p) == 0 {
      SearcherKeeps(m, k, List(m), t, p, x, e);
    } else if Kind(p) == 1 {
      InserterKeeps(m, k, t, p, x, e);
    } else {
      DeleterKeeps(m, k, t, p, x, e);
    }
  }

  /** Thread u, at pu, is no worse off for t's step. */
  lemma OtherFine(m: Mem, k: Locks, q: seq<nat>, t: nat, p: Pc, r: After, q': seq<nat>, u: nat, pu: Pc)
    requires Spares(m, k, q, t, p, r, q') && u != t
    requires k.writer.Some? ==> k.readers == {}
    requires LocksOk(k, u, pu) && Knows(m, q, pu)
    requires Own(pu).Some? ==> Own(pu) != Own(p)
    ensures LocksOk(r.locks, u, pu) && Knows(r.mem, q', pu)
  {
    KnowsStays(m, k, q, r.mem, q', u, pu);
  }

  lemma InvReady(s: State, t: nat)
    requires Inv(s) && t in s.pc
    ensures Ready(s.mem, s.locks, List(s.mem), t, s.pc[t], LagOf(s.locks, s.pc))
  {
  }

  lemma LagAfter(k: Locks, pc: map<nat, Pc>, t: nat, r: Locks, p': Pc)
    requires t in pc && (k.ins.Some? ==> k.ins.value in pc)
    requires r.ins == k.ins || (k.ins.None? && r.ins == Some(t)) || (k.ins == Some(t) && r.ins.None?)
    ensures LagOf(r, pc[t := p']) == if r.ins == Some(t) then Lag(p') else if k.ins == Some(t) then 0 else LagOf(k, pc)
  {
  }

  lemma StepKeeps(s: State, t: nat, x: nat)
    requires Inv(s) && CanStep(s, t, x)
    ensures Inv(Next(s, t, x))
  {
    InvReady(s, t);
    var r := Step(s.mem, s.locks, t, s.pc[t], x);
    StepDone(s.mem, s.locks, t, s.pc[t], x, LagOf(s.locks, s.pc));
    Together(s, List(s.mem), t, r, List(r.mem));
  }

  lemma Others(s: State, q: seq<nat>, t: nat, r: After, q': seq<nat>)
    requires InvOn(s, q) && t in s.pc && Spares(s.mem, s.locks, q, t, s.pc[t], r, q')
    requires Own(r.pc).Some? ==> Own(r.pc) == Own(s.pc[t]) || Own(r.pc).value !in s.mem.next || Own(r.pc).value in q
    requires LocksOk(r.locks, t, r.pc) && Knows(r.mem, q', r.pc)
    ensures ThreadsOk(r.mem, r.locks, q', s.pc[t := r.pc]) && OwnedOnce(s.pc[t := r.pc])
  {
    forall u | u in s.pc && u != t
      ensures LocksOk(r.locks, u, s.pc[u]) && Knows(r.mem, q', s.pc[u])
      ensures Own(s.pc[u]).Some? ==> Own(s.pc[u]) != Own(r.pc)
    {
      OtherFine(s.mem, s.locks, q, t, s.pc[t], r, q', u, s.pc[u]);
    }
  }

  lemma Together(s: State, q: seq<nat>, t: nat, r: After, q': seq<nat>)
    requires InvOn(s, q) && t in s.pc
    requires Done(s.mem, s.locks, q, t, s.pc[t], LagOf(s.locks, s.pc), r, q')
    requires Spares(s.mem, s.locks, q, t, s.pc[t], r, q')
    ensures InvOn(State(r.mem, r.locks, s.pc[t := r.pc]), q')
  {
    LagAfter(s.locks, s.pc, t, r.locks, r.pc);
    Others(s, q, t, r, q');
    OwnersKept(s.locks, s.pc.Keys, t, r, s.mem, s.pc[t], q, q');
    assert s.pc[t := r.pc].Keys == s.pc.Keys;
  }

  lemma OwnersKept(k: Locks, threads: set<nat>, t: nat, r: After, m: Mem, p: Pc, q: seq<nat>, q': seq<nat>)
    requires Owners(k, threads) && t in threads && Spares(m, k, q, t, p, r, q')
    ensures Owners(r.locks, threads)
  {
    forall u | u in r.locks.readers ensures u in threads {
      if u != t {
        assert u in k.readers;
      }
    }
  }

  ghost predicate Init(s: State) {
    && s.mem == Mem(None, map[], 0, [], {})
    && s.locks == Locks({}, None, None, None)
    && forall t :: t in s.pc ==> s.pc[t].SIdle? || s.pc[t].IIdle? || s.pc[t].DIdle?
  }

  ghost predicate Run(ss: seq<State>, acts: seq<(nat, nat)>) {
    && |ss| == |acts| + 1 && Init(ss[0])
    && forall i :: 0 <= i < |acts| ==> CanStep(ss[i], acts[i].0, acts[i].1) && ss[i + 1] == Next(ss[i], acts[i].0, acts[i].1)
  }

  lemma {:induction false} RunKeeps(ss: seq<State>, acts: seq<(nat, nat)>, i: nat)
    requires Run(ss, acts) && i < |ss|
    ensures Inv(ss[i])
  {
    if i > 0 {
      RunKeeps(ss, acts, i - 1);
      StepKeeps(ss[i - 1], acts[i - 1].0, acts[i - 1].1);
    }
  }

  // --- what that buys ---

  /** No walk runs off the list or onto a freed node, and nothing is freed twice. */
  lemma NoCrash(ss: seq<State>, acts: seq<(nat, nat)>, i: nat, t: nat)
    requires Run(ss, acts) && i < |ss| && t in ss[i].pc
    ensures ss[i].pc[t] != Crashed
  {
    RunKeeps(ss, acts, i);
  }

  /** Following the pointers visits the inserted dinners in order, less the cancelled ones. */
  lemma ListIsHistory(ss: seq<State>, acts: seq<(nat, nat)>, i: nat)
    requires Run(ss, acts) && i < |ss|
    ensures Chain(ss[i].mem.head, ss[i].mem.next, Kept(ss[i].mem.born, ss[i].mem.gone))
  {
    RunKeeps(ss, acts, i);
  }

  /** Only a link and an unlink change the list: one appends, the other takes out the node held. */
  lemma ListMoves(ss: seq<State>, acts: seq<(nat, nat)>, i: nat)
    requires Run(ss, acts) && i < |acts|
    ensures var p, q, q' := ss[i].pc[acts[i].0], List(ss[i].mem), List(ss[i + 1].mem);
            match p
            case ILink(n, _) => q' == q + [n]
            case DWrite(_, cur, _, at) => 1 <= at <= |q| && cur == Some(q[at - 1]) && q' == Without(q, at - 1)
            case _ => q' == q
  {
    RunKeeps(ss, acts, i);
    var m, p := ss[i].mem, ss[i].pc[acts[i].0];
    if p.ILink? {
      ListGrows(m, ss[i].locks, acts[i].0, p);
    } else if p.DWrite? {
      ListShrinks(m, ss[i].locks, p);
    } else {
      ListStill(m, ss[i].locks, acts[i].0, p, acts[i].1);
    }
  }

  lemma ListGrows(m: Mem, k: Locks, t: nat, p: Pc)
    requires HistoryOk(m) && Chain(m.head, m.next, List(m)) && Knows(m, List(m), p) && p.ILink?
    ensures List(InserterStep(m, k, t, p, 0).mem) == List(m) + [p.node]
  {
    KeptPlus(m.born, m.gone, p.node);
    assert p.last.Some? ==> Live(m, p.last);
  }

  lemma ListShrinks(m: Mem, k: Locks, p: Pc)
    requires Chain(m.head, m.next, List(m)) && Knows(m, List(m), p) && p.DWrite?
    ensures List(Unlink(m, k, p).mem) == Without(List(m), p.at - 1)
  {
    KeptMinus(m.born, m.gone, p.at - 1);
    assert p.prev.Some? ==> Live(m, p.prev);
  }

  lemma ListStill(m: Mem, k: Locks, t: nat, p: Pc, x: nat)
    requires Kind(p) < 3 && !p.ILink? && !p.DWrite?
    ensures Step(m, k, t, p, x).mem.born == m.born && Step(m, k, t, p, x).mem.gone == m.gone
  {
  }

  /** A search stops at the dinner it drew, counting from the head. */
  lemma SearchFinds(ss: seq<State>, acts: seq<(nat, nat)>, i: nat, t: nat)
    requires Run(ss, acts) && i < |ss| && t in ss[i].pc && ss[i].pc[t].SWalk? && ss[i].pc[t].at == ss[i].pc[t].target
    ensures var p, q := ss[i].pc[t], List(ss[i].mem);
            1 <= p.target <= |q| && p.cur == Some(q[p.target - 1])
  {
    RunKeeps(ss, acts, i);
  }

  lemma OwnStep(ss: seq<State>, acts: seq<(nat, nat)>, i: nat, t: nat)
    requires Run(ss, acts) && i < |acts| && t in ss[i].pc
    ensures t in ss[i + 1].pc && ss[i + 1].pc[t] != Crashed
    ensures acts[i].0 != t ==> ss[i + 1].pc[t] == ss[i].pc[t]
    ensures acts[i].0 == t ==> Kind(ss[i].pc[t]) < 3
                               && ss[i + 1].pc[t] == Step(ss[i].mem, ss[i].locks, t, ss[i].pc[t], acts[i].1).pc
  {
    NoCrash(ss, acts, i, t);
    NoCrash(ss, acts, i + 1, t);
    NextPc(ss[i], acts[i].0, acts[i].1, t);
  }

  lemma NextPc(s: State, u: nat, x: nat, t: nat)
    requires u in s.pc && Kind(s.pc[u]) < 3 && t in s.pc
    ensures t in Next(s, u, x).pc
    ensures Next(s, u, x).pc[t] == if u == t then Step(s.mem, s.locks, t, s.pc[t], x).pc else s.pc[t]
  {
  }

  /** The number a thread has drawn, while it is looking for that dinner. */
  function Drawn(p: Pc): Option<nat> {
    match p
    case SHead(target) => Some(target)
    case SWalk(_, _, target) => Some(target)
    case DHead(target) => Some(target)
    case DWalk(_, _, _, target) => Some(target)
    case DSnip(_, _, at) => Some(at)
    case DWrite(_, _, _, at) => Some(at)
    case _ => None
  }

  lemma DrawStep(m: Mem, k: Locks, t: nat, p: Pc, x: nat)
    requires p.SDraw? || p.DDraw?
    ensures Drawn(Step(m, k, t, p, x).pc) == Some(x)
  {
  }

  /** A walk goes on until it stands on the dinner drawn. */
  lemma WalkStep(m: Mem, k: Locks, t: nat, p: Pc, x: nat)
    requires Drawn(p).Some? && Step(m, k, t, p, x).pc != Crashed
    ensures var p' := Step(m, k, t, p, x).pc;
      && (Drawn(p').Some? ==> Drawn(p') == Drawn(p))
      && (p'.SUnlock? ==> p.SWalk? && p.at == p.target)
      && (p'.DSnip? ==> p.DWalk? && p.at == p.target)
  {
  }

  /** Thread t draws x at i, and at every step after it, up to j, is looking for that dinner. */
  ghost predicate LooksFor(ss: seq<State>, acts: seq<(nat, nat)>, i: nat, j: nat, t: nat, x: nat) {
    && Run(ss, acts) && i < j < |ss| && t in ss[i].pc && acts[i] == (t, x)
    && (ss[i].pc[t].SDraw? || ss[i].pc[t].DDraw?)
    && forall n :: i < n <= j ==> t in ss[n].pc && Drawn(ss[n].pc[t]).Some?
  }

  lemma {:induction false} DrawnStays(ss: seq<State>, acts: seq<(nat, nat)>, i: nat, j: nat, t: nat, x: nat)
    requires LooksFor(ss, acts, i, j, t, x)
    ensures Drawn(ss[j].pc[t]) == Some(x)
    decreases j
  {
    if j == i + 1 {
      OwnStep(ss, acts, i, t);
      DrawStep(ss[i].mem, ss[i].locks, t, ss[i].pc[t], x);
    } else {
      DrawnStays(ss, acts, i, j - 1, t, x);
      OwnStep(ss, acts, j - 1, t);
      if acts[j - 1].0 == t {
        WalkStep(ss[j - 1].mem, ss[j - 1].locks, t, ss[j - 1].pc[t], acts[j - 1].1);
      }
    }
  }

  /** A search ends on the dinner it drew, counted from the head, and nowhere else. */
  lemma SearchEndsAtDrawn(ss: seq<State>, acts: seq<(nat, nat)>, i: nat, j: nat, t: nat, x: nat)
    requires LooksFor(ss, acts, i, j, t, x) && ss[i].pc[t].SDraw?
    requires j < |acts| && acts[j].0 == t && t in ss[j + 1].pc && ss[j + 1].pc[t].SUnlock?
    ensures var p, q := ss[j].pc[t], List(ss[j].mem);
            p.SWalk? && p.at == x && 1 <= x <= |q| && p.cur == Some(q[x - 1])
  {
    DrawnStays(ss, acts, i, j, t, x);
    OwnStep(ss, acts, j, t);
    WalkStep(ss[j].mem, ss[j].locks, t, ss[j].pc[t], acts[j].1);
    RunKeeps(ss, acts, j);
  }

  /** A cancel unlinks the dinner it drew, from the list as it was when it drew. */
  lemma CancelTakesDrawn(ss: seq<State>, acts: seq<(nat, nat)>, i: nat, j: nat, t: nat, x: nat)
    requires LooksFor(ss, acts, i, j, t, x) && ss[i].pc[t].DDraw?
    requires j < |acts| && acts[j].0 == t && ss[j].pc[t].DWrite?
    ensures List(ss[j].mem) == List(ss[i].mem) && 1 <= x <= |List(ss[j].mem)|
    ensures List(ss[j + 1].mem) == Without(List(ss[j].mem), x - 1)
  {
    DrawnStays(ss, acts, i, j, t, x);
    ListMoves(ss, acts, j);
    ListMoves(ss, acts, i);
    ListHeldStill(ss, acts, i + 1, j, t);
  }

  /** While t looks for a dinner to cancel, its locks keep the list as it is. */
  lemma {:induction false} ListHeldStill(ss: seq<State>, acts: seq<(nat, nat)>, i: nat, j: nat, t: nat)
    requires Run(ss, acts) && i <= j < |ss| && t in ss[i].pc && HoldsIns(ss[i].pc[t])
    requires forall n :: i <= n <= j ==> t in ss[n].pc && Drawn(ss[n].pc[t]).Some?
    ensures List(ss[j].mem) == List(ss[i].mem)
    decreases j - i
  {
    if i < j {
      OwnStep(ss, acts, i, t);
      ListHeldOne(ss, acts, i, t);
      if acts[i].0 == t {
        StillHolds(ss[i].mem, ss[i].locks, t, ss[i].pc[t], acts[i].1);
      }
      ListHeldStill(ss, acts, i + 1, j, t);
    }
  }

  lemma ListHeldOne(ss: seq<State>, acts: seq<(nat, nat)>, i: nat, t: nat)
    requires Run(ss, acts) && i < |acts| && t in ss[i].pc && HoldsIns(ss[i].pc[t]) && Drawn(ss[i].pc[t]).Some?
    requires t in ss[i + 1].pc && Drawn(ss[i + 1].pc[t]).Some?
    ensures List(ss[i + 1].mem) == List(ss[i].mem)
  {
    ListMoves(ss, acts, i);
    OwnStep(ss, acts, i, t);
    if acts[i].0 == t {
      StillHolds(ss[i].mem, ss[i].locks, t, ss[i].pc[t], acts[i].1);
    } else {
      Exclusion(ss, acts, i, t, acts[i].0);
    }
  }

  lemma StillHolds(m: Mem, k: Locks, t: nat, p: Pc, x: nat)
    requires Kind(p) < 3 && HoldsIns(p) && Drawn(p).Some? && Drawn(Step(m, k, t, p, x).pc).Some?
    ensures HoldsIns(Step(m, k, t, p, x).pc) && !p.DWrite?
  {
  }

  // --- every round does its whole work ---

  /** What a thread's step amounts to in its round. */
  datatype Event =
    | Starts | Ends
    | SeesDinners | SeesNone | Finds
    | Mallocs | Links | CountsUp
    | SnipsOut | CountsDown | Releases
    | Nothing

  function EventOf(m: Mem, p: Pc): Event {
    match p
    case SIdle => Starts
    case SCheck => if m.count > 0 then SeesDinners else SeesNone
    case SWalk(_, at, target) => if at == target then Finds else Nothing
    case SUnlock => Ends
    case IIdle => Mallocs
    case ILink(_, _) => Links
    case IStore(_) => CountsUp
    case IUnlock => Ends
    case DIdle => Starts
    case DCheck => if m.count > 0 then SeesDinners else SeesNone
    case DWrite(_, _, _, _) => SnipsOut
    case DStore(_, _) => CountsDown
    case DFree(_) => Releases
    case DUnlockList => Ends
    case _ => Nothing
  }

  /** How often a thread has done each. */
  datatype Tally = Tally(starts: nat, ends: nat, sees: nat, none: nat, finds: nat,
                         mallocs: nat, links: nat, ups: nat, snips: nat, downs: nat, frees: nat)

  function Noted(n: Tally, e: Event): Tally {
    match e
    case Starts => n.(starts := n.starts + 1)
    case Ends => n.(ends := n.ends + 1)
    case SeesDinners => n.(sees := n.sees + 1)
    case SeesNone => n.(none := n.none + 1)
    case Finds => n.(finds := n.finds + 1)
    case Mallocs => n.(mallocs := n.mallocs + 1)
    case Links => n.(links := n.links + 1)
    case CountsUp => n.(ups := n.ups + 1)
    case SnipsOut => n.(snips := n.snips + 1)
    case CountsDown => n.(downs := n.downs + 1)
    case Releases => n.(frees := n.frees + 1)
    case Nothing => n
  }

  /** Thread t in the first i steps. */
  function TallyOf(ss: seq<State>, acts: seq<(nat, nat)>, i: nat, t: nat): Tally
    requires i <= |acts| < |ss|
  {
    if i == 0 then Tally(0, 0, 0, 0, 0, 0, 0, 0, 0, 0, 0)
    else
      var n := TallyOf(ss, acts, i - 1, t);
      if acts[i - 1].0 == t && t in ss[i - 1].pc then Noted(n, EventOf(ss[i - 1].mem, ss[i - 1].pc[t])) else n
  }

  function Unit(b: bool): nat {
    if b then 1 else 0
  }

  /** Each malloc is followed by one link, that by one count, and that by the end of the round. */
  ghost predicate InsertsWhole(p: Pc, n: Tally) {
    && n.mallocs == n.links + Unit(p.ILock? || p.IFirst? || p.IWalk? || p.IAdvance? || p.ILink?)
    && n.links == n.ups + Unit(p.ILoad? || p.IStore?)
    && n.ups == n.ends + Unit(p.IUnlock?)
  }

  /** Each round of a deleter that sees dinners unlinks, counts down and frees one; no other does. */
  ghost predicate CancelsWhole(p: Pc, n: Tally) {
    && n.starts == n.sees + n.none + Unit(p.DLockIns? || p.DCheck?)
    && n.sees == n.snips + Unit(p.DLockDel? || p.DDraw? || p.DHead? || p.DWalk? || p.DSnip? || p.DWrite?)
    && n.snips == n.downs + Unit(p.DLoad? || p.DStore?)
    && n.downs == n.frees + Unit(p.DFree?)
    && n.starts == n.ends + Unit(!p.DIdle?)
  }

  /** Each round of a searcher that sees dinners finds one; no other does. */
  ghost predicate SearchesWhole(p: Pc, n: Tally) {
    && n.starts == n.sees + n.none + Unit(p.SCheck?)
    && n.sees == n.finds + Unit(p.SDraw? || p.SHead? || p.SWalk?)
    && n.starts == n.ends + Unit(!p.SIdle?)
  }

  /** A thread stays what it is, and does whole rounds. */
  ghost predicate RoundsWhole(p: Pc, n: Tally) {
    if Kind(p) == 0 then SearchesWhole(p, n) else if Kind(p) == 1 then InsertsWhole(p, n) else CancelsWhole(p, n)
  }

  lemma SearchMoves(m: Mem, k: Locks, t: nat, p: Pc, x: nat, n: Tally)
    requires Kind(p) == 0 && SearchesWhole(p, n) && SearcherStep(m, k, t, p, x).pc != Crashed
    ensures var p' := SearcherStep(m, k, t, p, x).pc; Kind(p') == 0 && SearchesWhole(p', Noted(n, EventOf(m, p)))
  {
  }

  lemma InsertMoves(m: Mem, k: Locks, t: nat, p: Pc, x: nat, n: Tally)
    requires Kind(p) == 1 && InsertsWhole(p, n) && InserterStep(m, k, t, p, x).pc != Crashed
    ensures var p' := InserterStep(m, k, t, p, x).pc; Kind(p') == 1 && InsertsWhole(p', Noted(n, EventOf(m, p)))
  {
  }

  lemma CancelMoves(m: Mem, k: Locks, t: nat, p: Pc, x: nat, n: Tally)
    requires Kind(p) == 2 && CancelsWhole(p, n) && DeleterStep(m, k, t, p, x).pc != Crashed
    ensures var p' := DeleterStep(m, k, t, p, x).pc; Kind(p') == 2 && CancelsWhole(p', Noted(n, EventOf(m, p)))
  {
  }

  lemma RoundMoves(m: Mem, k: Locks, t: nat, p: Pc, x: nat, n: Tally)
    requires Kind(p) < 3 && RoundsWhole(p, n) && Step(m, k, t, p, x).pc != Crashed
    ensures var p' := Step(m, k, t, p, x).pc; Kind(p') == Kind(p) && RoundsWhole(p', Noted(n, EventOf(m, p)))
  {
    if Kind(p) == 0 {
      SearchMoves(m, k, t, p, x, n);
    } else if Kind(p) == 1 {
      InsertMoves(m, k, t, p, x, n);
    } else {
      CancelMoves(m, k, t, p, x, n);
    }
  }

  /**
   In every run each thread does whole rounds of its kind: what an inserter allocates it links and
   counts once, and a deleter or searcher that sees dinners takes out, or finds, one.
   */
  lemma {:induction false} RoundsAreWhole(ss: seq<State>, acts: seq<(nat, nat)>, i: nat, t: nat)
    requires Run(ss, acts) && i < |ss| && t in ss[0].pc
    ensures t in ss[i].pc && Kind(ss[i].pc[t]) == Kind(ss[0].pc[t])
    ensures RoundsWhole(ss[i].pc[t], TallyOf(ss, acts, i, t))
  {
    if i > 0 {
      RoundsAreWhole(ss, acts, i - 1, t);
      OwnStep(ss, acts, i - 1, t);
      if acts[i - 1].0 == t {
        RoundMoves(ss[i - 1].mem, ss[i - 1].locks, t, ss[i - 1].pc[t], acts[i - 1].1, TallyOf(ss, acts, i - 1, t));
      }
    }
  }

  /** While a search is under way nothing is being cancelled; count and list have one updater at most. */
  lemma Exclusion(ss: seq<State>, acts: seq<(nat, nat)>, i: nat, t: nat, u: nat)
    requires Run(ss, acts) && i < |ss| && t in ss[i].pc && u in ss[i].pc && t != u
    ensures HoldsRead(ss[i].pc[t]) ==> !HoldsWrite(ss[i].pc[u])
    ensures HoldsIns(ss[i].pc[t]) ==> !HoldsIns(ss[i].pc[u])
  {
    RunKeeps(ss, acts, i);
  }

  /** Some thread has linked or unlinked a node and not yet updated dinner_count. */
  ghost predicate Inserting(s: State) {
    exists t :: t in s.pc && (s.pc[t].ILoad? || s.pc[t].IStore?)
  }

  ghost predicate Cancelling(s: State) {
    exists t :: t in s.pc && (s.pc[t].DLoad? || s.pc[t].DStore?)
  }

  /** The list has dinner_count nodes, one more inside an insert, one fewer inside a cancel. */
  lemma LengthLaw(ss: seq<State>, acts: seq<(nat, nat)>, i: nat)
    requires Run(ss, acts) && i < |ss|
    ensures var s, n := ss[i], |List(ss[i].mem)|;
            && !(Inserting(s) && Cancelling(s))
            && n == s.mem.count + (if Inserting(s) then 1 else if Cancelling(s) then -1 else 0)
            && (n >= s.mem.count <==> !Cancelling(s))
  {
    RunKeeps(ss, acts, i);
    var s := ss[i];
    forall t | t in s.pc && Lag(s.pc[t]) != 0 ensures s.locks.ins == Some(t) {
    }
    if s.locks.ins.Some? {
      var t := s.locks.ins.value;
      assert Lag(s.pc[t]) == 1 ==> Inserting(s);
      assert Lag(s.pc[t]) == -1 ==> Cancelling(s);
    }
  }

  /** A number no live node has. */
  lemma {:induction false} FreshNode(used: set<nat>) returns (x: nat)
    ensures forall n :: n in used ==> n < x
  {
    if used == {} {
      x := 0;
    } else {
      var n :| n in used;
      var y := FreshNode(used - {n});
      x := if n < y then y else n + 1;
      assert forall k :: k in used ==> k == n || k in used - {n};
    }
  }

  ghost predicate CanGoOn(s: State, t: nat) {
    exists x: nat :: CanStep(s, t, x)
  }

  predicate HoldsAny(p: Pc) {
    HoldsRead(p) || HoldsWrite(p) || HoldsIns(p)
  }

  /** A thread at p, its locks free or its own, can go on. */
  lemma GoesOn(s: State, t: nat)
    requires Inv(s) && t in s.pc
    requires s.pc[t].SIdle? ==> s.locks.writer.None?
    requires s.pc[t].DIdle? ==> s.locks.writer.None? && s.locks.readers == {}
    requires s.pc[t].ILock? || s.pc[t].DLockIns? ==> s.locks.ins.None?
    requires s.pc[t].DLockDel? ==> s.locks.del.None?
    ensures CanGoOn(s, t)
  {
    if s.pc[t].IIdle? {
      var x := FreshNode(s.mem.next.Keys);
      assert CanStep(s, t, x);
    } else {
      assert CanStep(s, t, 1);
    }
  }

  /** No deadlock: while locks are held, one of their holders can go on; when none are, all threads can. */
  lemma NoDeadlock(ss: seq<State>, acts: seq<(nat, nat)>, i: nat, t: nat)
    requires Run(ss, acts) && i < |ss| && t in ss[i].pc
    ensures if forall u :: u in ss[i].pc ==> !HoldsAny(ss[i].pc[u]) then CanGoOn(ss[i], t)
            else exists u :: u in ss[i].pc && HoldsAny(ss[i].pc[u]) && CanGoOn(ss[i], u)
  {
    RunKeeps(ss, acts, i);
    var s := ss[i];
    if s.locks.ins.Some? {
      GoesOn(s, s.locks.ins.value);
    } else if s.locks.writer.Some? {
      GoesOn(s, s.locks.writer.value);
    } else if s.locks.readers != {} {
      var u :| u in s.locks.readers;
      GoesOn(s, u);
    } else {
      GoesOn(s, t);
    }
  }

  // --- the list really is shorter than dinner_count while a cancel is between its two writes ---

  ghost predicate Reachable(s: State) {
    exists ss, acts :: Run(ss, acts) && ss[|acts|] == s
  }

  /** States that no step leaves. */
  ghost predicate Closed(r: iset<State>) {
    forall s, t, x {:trigger Next(s, t, x)} :: s in r && CanStep(s, t, x) ==> Next(s, t, x) in r
  }

  lemma ReachableClosed()
    ensures Closed(iset s | Reachable(s))
  {
    forall s, t: nat, x: nat | Reachable(s) && CanStep(s, t, x) ensures Reachable(Next(s, t, x)) {
      var ss, acts :| Run(ss, acts) && ss[|acts|] == s;
      var ss', acts' := ss + [Next(s, t, x)], acts + [(t, x)];
      assert Run(ss', acts') && ss'[|acts'|] == Next(s, t, x);
    }
  }

  /** A program of one inserter and one deleter. */
  function Two(m: Mem, k: Locks, p: Pc, q: Pc): State {
    State(m, k, map[1 := p, 2 := q])
  }

  lemma Inserts(r: iset<State>, m: Mem, k: Locks, p: Pc, x: nat, a: After)
    requires Closed(r) && Two(m, k, p, DIdle) in r && Kind(p) == 1 && Enabled(m, k, p, x)
    requires InserterStep(m, k, 1, p, x) == a
    ensures Two(a.mem, a.locks, a.pc, DIdle) in r
  {
    assert map[1 := p, 2 := DIdle][1 := a.pc] == map[1 := a.pc, 2 := DIdle];
    assert Next(Two(m, k, p, DIdle), 1, x) == Two(a.mem, a.locks, a.pc, DIdle);
  }

  lemma Deletes(r: iset<State>, m: Mem, k: Locks, p: Pc, x: nat, a: After)
    requires Closed(r) && Two(m, k, IIdle, p) in r && Kind(p) == 2 && Enabled(m, k, p, x)
    requires DeleterStep(m, k, 2, p, x) == a
    ensures Two(a.mem, a.locks, IIdle, a.pc) in r
  {
    assert map[1 := IIdle, 2 := p][2 := a.pc] == map[1 := IIdle, 2 := a.pc];
    assert Next(Two(m, k, IIdle, p), 2, x) == Two(a.mem, a.locks, IIdle, a.pc);
  }

  const NoLocks := Locks({}, None, None, None)

  /** One dinner, at node 7. */
  const OneDinner := Mem(Some(7), map[7 := None], 1, [7], {})

  lemma OneInserted(r: iset<State>)
    requires Closed(r) && Two(Mem(None, map[], 0, [], {}), NoLocks, IIdle, DIdle) in r
    ensures Two(OneDinner, NoLocks, IIdle, DIdle) in r
  {
    var m0, m1, m2, k := Mem(None, map[], 0, [], {}), Mem(None, map[7 := None], 0, [], {}), OneDinner.(count := 0), NoLocks.(ins := Some(1));
    Inserts(r, m0, NoLocks, IIdle, 7, After(m1, NoLocks, ILock(7)));
    Inserts(r, m1, NoLocks, ILock(7), 0, After(m1, k, IFirst(7)));
    Inserts(r, m1, k, IFirst(7), 0, After(m1, k, ILink(7, None)));
    Inserts(r, m1, k, ILink(7, None), 0, After(m2, k, ILoad));
    Inserts(r, m2, k, ILoad, 0, After(m2, k, IStore(0)));
    Inserts(r, m2, k, IStore(0), 0, After(OneDinner, k, IUnlock));
    Inserts(r, OneDinner, k, IUnlock, 0, After(OneDinner, NoLocks, IIdle));
  }

  /** The deleter up to drawing that dinner, and then up to unlinking it. */
  lemma OneDrawn(r: iset<State>, k: Locks)
    requires Closed(r) && Two(OneDinner, NoLocks, IIdle, DIdle) in r && k == Locks({}, Some(2), Some(2), Some(2))
    ensures Two(OneDinner, k, IIdle, DHead(1)) in r
  {
    var m, k1, k2 := OneDinner, Locks({}, Some(2), None, None), Locks({}, Some(2), Some(2), None);
    Deletes(r, m, NoLocks, DIdle, 0, After(m, k1, DLockIns));
    Deletes(r, m, k1, DLockIns, 0, After(m, k2, DCheck));
    Deletes(r, m, k2, DCheck, 0, After(m, k2, DLockDel));
    Deletes(r, m, k2, DLockDel, 0, After(m, k, DDraw));
    Deletes(r, m, k, DDraw, 1, After(m, k, DHead(1)));
  }

  lemma OneUnlinked(r: iset<State>, k: Locks) returns (m': Mem)
    requires Closed(r) && Two(OneDinner, k, IIdle, DHead(1)) in r
    ensures Two(m', k, IIdle, DLoad(Some(7))) in r
  {
    var m := OneDinner;
    Deletes(r, m, k, DHead(1), 0, After(m, k, DWalk(None, Some(7), 1, 1)));
    Deletes(r, m, k, DWalk(None, Some(7), 1, 1), 0, After(m, k, DSnip(None, Some(7), 1)));
    Deletes(r, m, k, DSnip(None, Some(7), 1), 0, After(m, k, DWrite(None, Some(7), None, 1)));
    m' := Unlink(m, k, DWrite(None, Some(7), None, 1)).mem;
    Deletes(r, m, k, DWrite(None, Some(7), None, 1), 0, After(m', k, DLoad(Some(7))));
  }

  lemma ListRunsShort() returns (s: State)
    ensures Reachable(s) && |List(s.mem)| < s.mem.count
  {
    var s0 := Two(Mem(None, map[], 0, [], {}), NoLocks, IIdle, DIdle);
    var r := iset s | Reachable(s);
    ReachableClosed();
    assert Run([s0], []) && [s0][0] == s0;
    OneInserted(r);
    OneDrawn(r, Locks({}, Some(2), Some(2), Some(2)));
    var m' := OneUnlinked(r, Locks({}, Some(2), Some(2), Some(2)));
    s := Two(m', Locks({}, Some(2), Some(2), Some(2)), IIdle, DLoad(Some(7)));
    var ss, acts :| Run(ss, acts) && ss[|acts|] == s;
    LengthLaw(ss, acts, |acts|);
    assert Cancelling(s) by {
      assert s.pc[2].DLoad?;
    }
  }
}
