/**
 SCHED_RR (section 2.8.4 of IEEE Std 1003.1, System Interfaces) at the top priority of one
 runqueue: the tick that spends the running task's slice, and the turns that follow from
 it. The running task is the front of the queue.
 */
module RoundRobin {
  import opened Common

  /** The run list of that priority, and each task's time_slice. */
  datatype State = State(queue: seq<nat>, slice: map<nat, nat>)

  /** size is DEF_TIMESLICE. */
  ghost predicate Valid(s: State, size: nat) {
    && s.queue != []
    && AllApart(s.queue)
    && (forall i :: 0 <= i < |s.queue| ==> s.queue[i] in s.slice)
    && (forall p :: p in s.slice ==> 1 <= s.slice[p] <= size)
  }

  function Rotated(q: seq<nat>, k: nat): seq<nat>
    requires k <= |q|
  {
    q[k..] + q[..k]
  }

  /** What a tick does to a SCHED_RR task at the front. */
  function Ticked(s: State, size: nat): State
    requires s.queue != [] && s.queue[0] in s.slice
  {
    var p := s.queue[0];
    if s.slice[p] > 1 then s.(slice := s.slice[p := s.slice[p] - 1])
    else State(Rotated(s.queue, 1), s.slice[p := size])
  }

  lemma RotatedApart(q: seq<nat>)
    requires q != [] && AllApart(q)
    ensures AllApart(Rotated(q, 1))
  {
    forall i, j | 0 <= i < j < |q| ensures Apart(Rotated(q, 1), i, j) {
      assert if j < |q| - 1 then Apart(q, i + 1, j + 1) else Apart(q, 0, i + 1);
    }
  }

  lemma TickedValid(s: State, size: nat)
    requires Valid(s, size)
    ensures Valid(Ticked(s, size), size) && |Ticked(s, size).queue| == |s.queue|
  {
    RotatedApart(s.queue);
    assert forall i :: 0 <= i < |s.queue| ==> Rotated(s.queue, 1)[i] in s.queue;
  }

  class RunQueue {
    var queue: seq<nat>
    var slice: map<nat, nat>
    const fifo: set<nat>      // tasks of policy SCHED_FIFO
    const size: nat           // DEF_TIMESLICE

    ghost function View(): State
      reads this
    {
      State(queue, slice)
    }

    /** task_tick_rt for the running task; resched says that another is to be picked. */
    method Tick() returns (resched: bool)
      requires Valid(View(), size)
      modifies this
      ensures Valid(View(), size)
      ensures View() == if old(queue)[0] in fifo then old(View()) else Ticked(old(View()), size)
      ensures resched <==> queue[0] != old(queue)[0]
    {
      TickedValid(View(), size);
      var p := queue[0];
      resched := false;
      if p in fifo {
        return;
      }
      ghost var s := View();
      slice := slice[p := slice[p] - 1];
      if slice[p] != 0 {
        return;
      }
      slice := slice[p := size];
      assert slice == s.slice[p := size];
      assert |queue| == 1 ==> Rotated(queue, 1) == queue;
      if |queue| != 1 {
        assert Apart(queue, 0, 1);
        queue := queue[1..] + [p];
        resched := true;
      }
      assert View() == Ticked(s, size);
    }
  }

  // --- many ticks ---

  function Ticks(s: State, size: nat, n: nat): (r: State)
    requires Valid(s, size)
    ensures Valid(r, size) && |r.queue| == |s.queue|
    decreases n
  {
    TickedValid(s, size);
    if n == 0 then s else Ticks(Ticked(s, size), size, n - 1)
  }

  lemma {:induction false} TicksAdd(s: State, size: nat, a: nat, b: nat)
    requires Valid(s, size)
    ensures Ticks(s, size, a + b) == Ticks(Ticks(s, size, a), size, b)
    decreases a
  {
    TickedValid(s, size);
    if a > 0 {
      TicksAdd(Ticked(s, size), size, a - 1, b);
    }
  }

  lemma TicksSplit(s: State, size: nat, a: nat, b: nat, n: nat)
    requires Valid(s, size) && n == a + b
    ensures Ticks(s, size, n) == Ticks(Ticks(s, size, a), size, b)
  {
    TicksAdd(s, size, a, b);
  }

  /** The front keeps running while its slice lasts. */
  lemma {:induction false} SliceLasts(s: State, size: nat, n: nat)
    requires Valid(s, size) && n < s.slice[s.queue[0]]
    ensures Ticks(s, size, n) == s.(slice := s.slice[s.queue[0] := s.slice[s.queue[0]] - n])
    decreases n
  {
    TickedValid(s, size);
    if n == 0 {
      assert s.slice[s.queue[0] := s.slice[s.queue[0]]] == s.slice;
    } else {
      var s' := Ticked(s, size);
      SliceLasts(s', size, n - 1);
      assert s'.slice[s.queue[0] := s'.slice[s.queue[0]] - (n - 1)] == s.slice[s.queue[0] := s.slice[s.queue[0]] - n];
    }
  }

  /** And then goes to the back with a new one. */
  lemma SliceEnds(s: State, size: nat)
    requires Valid(s, size)
    ensures Ticks(s, size, s.slice[s.queue[0]]) == State(Rotated(s.queue, 1), s.slice[s.queue[0] := size])
  {
    var p := s.queue[0];
    var n := s.slice[p] - 1;
    SliceLasts(s, size, n);
    TicksAdd(s, size, n, 1);
    var s' := Ticks(s, size, n);
    assert Ticks(s', size, 1) == Ticked(s', size) by {
      TickedValid(s', size);
      assert Ticks(Ticked(s', size), size, 0) == Ticked(s', size);
    }
    assert s'.slice[p := size] == s.slice[p := size];
  }

  /** The ticks before position k gets to the front: the slices of those ahead of it. */
  function Wait(s: State, k: nat): nat
    requires k <= |s.queue| && forall i :: 0 <= i < |s.queue| ==> s.queue[i] in s.slice
  {
    if k == 0 then 0 else Wait(s, k - 1) + s.slice[s.queue[k - 1]]
  }

  /** The first k have had their turn. */
  ghost predicate Turned(s: State, size: nat, k: nat, r: State)
    requires k <= |s.queue|
  {
    && r.queue == Rotated(s.queue, k)
    && r.slice.Keys == s.slice.Keys
    && forall p :: p in s.slice ==> r.slice[p] == if p in s.queue[..k] then size else s.slice[p]
  }

  lemma TurnStep(s: State, size: nat, k: nat, r: State)
    requires Valid(s, size) && k < |s.queue| && Turned(s, size, k, r) && Valid(r, size)
    ensures r.queue[0] == s.queue[k] && r.slice[s.queue[k]] == s.slice[s.queue[k]]
    ensures Turned(s, size, k + 1, State(Rotated(r.queue, 1), r.slice[s.queue[k] := size]))
  {
    var q := s.queue;
    forall i | 0 <= i < k ensures q[..k][i] != q[k] {
      assert Apart(q, i, k);
    }
    assert q[..k + 1] == q[..k] + [q[k]];
    assert Rotated(Rotated(q, k), 1) == Rotated(q, k + 1);
  }

  lemma TurnTaken(s: State, size: nat, k: nat, r: State, r': State)
    requires Valid(s, size) && k < |s.queue| && Turned(s, size, k, r) && Valid(r, size)
    requires r' == Ticks(r, size, s.slice[s.queue[k]])
    ensures Turned(s, size, k + 1, r')
  {
    TurnStep(s, size, k, r);
    SliceEnds(r, size);
  }

  lemma TurnRuns(s: State, size: nat, k: nat, r: State, d: nat)
    requires Valid(s, size) && k < |s.queue| && Turned(s, size, k, r) && Valid(r, size)
    requires d < s.slice[s.queue[k]]
    ensures Ticks(r, size, d).queue[0] == s.queue[k]
  {
    TurnStep(s, size, k, r);
    SliceLasts(r, size, d);
  }

  lemma NoTurns(s: State, size: nat)
    requires Valid(s, size)
    ensures Turned(s, size, 0, Ticks(s, size, 0)) && Ticks(s, size, 0) == s
  {
    assert Rotated(s.queue, 0) == s.queue;
  }

  lemma TurnAfter(s: State, size: nat, k: nat, w: nat, w': nat)
    requires Valid(s, size) && k < |s.queue| && Turned(s, size, k, Ticks(s, size, w))
    requires w' == w + s.slice[s.queue[k]]
    ensures Turned(s, size, k + 1, Ticks(s, size, w'))
  {
    TicksSplit(s, size, w, s.slice[s.queue[k]], w');
    TurnTaken(s, size, k, Ticks(s, size, w), Ticks(s, size, w'));
  }

  lemma {:induction false} TurnComes(s: State, size: nat, k: nat)
    requires Valid(s, size) && k <= |s.queue|
    ensures Turned(s, size, k, Ticks(s, size, Wait(s, k)))
    decreases k
  {
    if k == 0 {
      NoTurns(s, size);
    } else {
      TurnComes(s, size, k - 1);
      TurnAfter(s, size, k - 1, Wait(s, k - 1), Wait(s, k));
    }
  }

  lemma {:induction false} WaitBound(s: State, size: nat, k: nat)
    requires Valid(s, size) && k <= |s.queue|
    ensures Wait(s, k) <= k * size
  {
    if k > 0 {
      WaitBound(s, size, k - 1);
    }
  }

  /** During the turn of position j it is at the front. */
  lemma RunsThrough(s: State, size: nat, j: nat, d: nat)
    requires Valid(s, size) && j < |s.queue| && d < s.slice[s.queue[j]]
    ensures Ticks(s, size, Wait(s, j) + d).queue[0] == s.queue[j]
  {
    TurnComes(s, size, j);
    TurnRuns(s, size, j, Ticks(s, size, Wait(s, j)), d);
    TicksAdd(s, size, Wait(s, j), d);
  }

  lemma {:induction false} NotBefore(s: State, size: nat, k: nat, t: nat)
    requires Valid(s, size) && k < |s.queue| && t < Wait(s, k)
    ensures exists j :: 0 <= j < k && Ticks(s, size, t).queue[0] == s.queue[j]
  {
    if t < Wait(s, k - 1) {
      NotBefore(s, size, k - 1, t);
    } else {
      RunsThrough(s, size, k - 1, t - Wait(s, k - 1));
    }
  }

  /** The task at position k runs after Wait(s, k) ticks, at most k slices, and not a tick sooner. */
  lemma RunsWithin(s: State, size: nat, k: nat)
    requires Valid(s, size) && k < |s.queue|
    ensures Wait(s, k) <= k * size && Ticks(s, size, Wait(s, k)).queue[0] == s.queue[k]
    ensures forall t: nat :: t < Wait(s, k) ==> Ticks(s, size, t).queue[0] != s.queue[k]
  {
    WaitBound(s, size, k);
    RunsThrough(s, size, k, 0);
    forall t: nat | t < Wait(s, k) ensures Ticks(s, size, t).queue[0] != s.queue[k] {
      NotBefore(s, size, k, t);
      var j :| 0 <= j < k && Ticks(s, size, t).queue[0] == s.queue[j];
      assert Apart(s.queue, j, k);
    }
  }

  /** One full round brings back the order, every slice full; nothing else has changed. */
  lemma FullRound(s: State, size: nat)
    requires Valid(s, size)
    ensures var r := Ticks(s, size, Wait(s, |s.queue|));
            && r.queue == s.queue && r.slice.Keys == s.slice.Keys
            && (forall p :: p in s.slice ==> r.slice[p] == if p in s.queue then size else s.slice[p])
  {
    TurnComes(s, size, |s.queue|);
    assert s.queue[..|s.queue|] == s.queue;
  }

  lemma {:induction false} FullWait(s: State, size: nat, k: nat)
    requires Valid(s, size) && k <= |s.queue| && forall i :: 0 <= i < |s.queue| ==> s.slice[s.queue[i]] == size
    ensures Wait(s, k) == k * size
  {
    if k > 0 {
      FullWait(s, size, k - 1);
    }
  }

  /** From then on the rounds repeat: n slices bring the whole state back. */
  lemma RoundsRepeat(s: State, size: nat)
    requires Valid(s, size) && forall i :: 0 <= i < |s.queue| ==> s.slice[s.queue[i]] == size
    ensures Ticks(s, size, |s.queue| * size) == s
  {
    FullWait(s, size, |s.queue|);
    FullRound(s, size);
    var r := Ticks(s, size, Wait(s, |s.queue|));
    assert r.slice == s.slice;
  }
}
