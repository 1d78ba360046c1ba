/**
 The I/O scheduler of project 2: requests kept in sector order, served sweeping in one
 direction until nothing lies ahead.
 */
module Elevator {
  import opened Arith
  import opened Common

  datatype Request = Request(id: nat, pos: nat)

  /** SSTF_NEXT or SSTF_PREV; the sector last served; the pending requests. */
  datatype State = State(up: bool, prevsec: nat, queue: seq<Request>)

  ghost predicate Sorted(q: seq<Request>) {
    forall i, j :: 0 <= i < j < |q| ==> q[i].pos <= q[j].pos
  }

  /** Strictly ahead of the head in the current direction. */
  ghost predicate Ahead(s: State, r: Request) {
    if s.up then r.pos > s.prevsec else r.pos < s.prevsec
  }

  ghost predicate AnyAhead(s: State) {
    exists i :: 0 <= i < |s.queue| && Ahead(s, s.queue[i])
  }

  // --- what each operation does ---

  function Inserted(q: seq<Request>, k: nat, rq: Request): seq<Request>
    requires k <= |q|
  {
    q[..k] + [rq] + q[k..]
  }

  /** rq stands at k, and the others in their order around it. */
  lemma InsertedAt(q: seq<Request>, k: nat, rq: Request, i: nat)
    requires k <= |q| && i <= |q|
    ensures |Inserted(q, k, rq)| == |q| + 1
    ensures Inserted(q, k, rq)[i] == if i < k then q[i] else if i == k then rq else q[i - 1]
  {
  }

  /** Position k is after every request of a lower sector and before the others. */
  ghost predicate GoesAt(q: seq<Request>, k: nat, rq: Request) {
    && k <= |q|
    && (forall i :: 0 <= i < k ==> q[i].pos < rq.pos)
    && (forall i :: k <= i < |q| ==> q[i].pos >= rq.pos)
  }

  /** rq goes in there. */
  ghost predicate Added(s: State, rq: Request, s': State) {
    && s'.up == s.up && s'.prevsec == s.prevsec
    && exists k :: GoesAt(s.queue, k, rq) && s'.queue == Inserted(s.queue, k, rq)
  }

  /** k is what a dispatch takes: the nearest ahead, or the far end when nothing is ahead. */
  ghost predicate Chosen(s: State, k: nat)
    requires k < |s.queue|
  {
    if AnyAhead(s) then
      && Ahead(s, s.queue[k])
      && (forall i :: 0 <= i < |s.queue| && Ahead(s, s.queue[i]) ==>
            if s.up then s.queue[k].pos <= s.queue[i].pos else s.queue[i].pos <= s.queue[k].pos)
      && (forall i :: 0 <= i < |s.queue| && s.queue[i].pos == s.queue[k].pos ==> if s.up then k <= i else i <= k)
    else
      k == if s.up then |s.queue| - 1 else 0
  }

  /** The direction turns exactly when nothing is ahead. */
  ghost predicate Dispatched(s: State, k: nat, s': State) {
    && k < |s.queue| && Chosen(s, k)
    && s'.queue == Without(s.queue, k)
    && s'.prevsec == s.queue[k].pos
    && (s'.up == s.up <==> AnyAhead(s))
  }

  lemma WithoutSorted(q: seq<Request>, k: nat)
    requires Sorted(q) && k < |q|
    ensures Sorted(Without(q, k))
  {
    forall i, j | 0 <= i < j < |q| - 1 ensures Without(q, k)[i].pos <= Without(q, k)[j].pos {
      assert Without(q, k)[i] == q[if i < k then i else i + 1];
      assert Without(q, k)[j] == q[if j < k then j else j + 1];
    }
  }

  lemma AddedSorted(s: State, rq: Request, s': State)
    requires Sorted(s.queue) && Added(s, rq, s')
    ensures Sorted(s'.queue)
  {
  }

  lemma ScanUp(s: State, k: nat)
    requires s.up && Sorted(s.queue) && k <= |s.queue| && s.queue != []
    requires forall i :: 0 <= i < k ==> s.queue[i].pos <= s.prevsec
    requires k < |s.queue| ==> s.queue[k].pos > s.prevsec
    ensures AnyAhead(s) <==> k < |s.queue|
    ensures Chosen(s, if k < |s.queue| then k else |s.queue| - 1)
  {
    if k < |s.queue| {
      assert Ahead(s, s.queue[k]);
    }
  }

  lemma ScanDown(s: State, k: nat)
    requires !s.up && Sorted(s.queue) && k <= |s.queue| && s.queue != []
    requires forall i :: k <= i < |s.queue| ==> s.queue[i].pos >= s.prevsec
    requires k > 0 ==> s.queue[k - 1].pos < s.prevsec
    ensures AnyAhead(s) <==> k > 0
    ensures Chosen(s, if k > 0 then k - 1 else 0)
  {
    if k > 0 {
      assert Ahead(s, s.queue[k - 1]);
    }
  }

  class Sstf {
    var up: bool
    var prevsec: nat
    var queue: seq<Request>

    ghost function View(): State
      reads this
    {
      State(up, prevsec, queue)
    }

    constructor ()
      ensures View() == State(true, 0, [])
    {
      up, prevsec, queue := true, 0, [];
    }

    /** sstf_add_request: scan from the tail for a lower sector. */
    method Add(rq: Request)
      requires Sorted(queue)
      modifies `queue
      ensures Sorted(queue) && Added(old(View()), rq, View())
    {
      var lo := |queue|;
      while lo > 0 && !(queue[lo - 1].pos < rq.pos)
        invariant 0 <= lo <= |queue|
        invariant forall i :: lo <= i < |queue| ==> queue[i].pos >= rq.pos
      {
        lo := lo - 1;
      }
      assert GoesAt(queue, lo, rq);
      ghost var s := View();
      queue := Inserted(queue, lo, rq);
      AddedSorted(s, rq, View());
    }

    /** sstf_dispatch. */
    method Dispatch() returns (r: Option<Request>)
      requires Sorted(queue)
      modifies this
      ensures Sorted(queue)
      ensures old(queue) == [] ==> r.None? && View() == old(View())
      ensures old(queue) != [] ==> exists k :: 0 <= k < |old(queue)| && r == Some(old(queue)[k]) && Dispatched(old(View()), k, View())
    {
      if queue == [] {
        return None;
      }
      ghost var s := View();
      var k: nat;
      if up {
        k := 0;
        while k < |queue| && !(queue[k].pos > prevsec)
          invariant k <= |queue|
          invariant forall i :: 0 <= i < k ==> queue[i].pos <= prevsec
        {
          k := k + 1;
        }
        ScanUp(s, k);
        if k == |queue| {
          up := false;
          k := |queue| - 1;
        }
      } else {
        k := |queue|;
        while k > 0 && !(queue[k - 1].pos < prevsec)
          invariant k <= |queue|
          invariant forall i :: k <= i < |queue| ==> queue[i].pos >= prevsec
        {
          k := k - 1;
        }
        ScanDown(s, k);
        if k == 0 {
          up := true;
        } else {
          k := k - 1;
        }
      }
      WithoutSorted(s.queue, k);
      r := Some(queue[k]);
      prevsec := queue[k].pos;
      queue := Without(queue, k);
      assert Dispatched(s, k, View());
    }

    /** sstf_merged_requests: the request merged away leaves the queue. */
    method Merged(k: nat)
      requires Sorted(queue) && k < |queue|
      modifies `queue
      ensures Sorted(queue) && queue == Without(old(queue), k)
    {
      WithoutSorted(queue, k);
      queue := Without(queue, k);
    }
  }

  // --- runs ---

  datatype Op = Add(rq: Request) | Dispatch(k: nat) | Merge(k: nat)

  /** No other pending request is for the sector of r. */
  ghost predicate Alone(q: seq<Request>, r: Request) {
    forall i, j :: 0 <= i < j < |q| ==> q[i].pos != r.pos || q[j].pos != r.pos
  }

  ghost predicate Step(s: State, op: Op, s': State) {
    match op
    case Add(rq) => Added(s, rq, s')
    case Dispatch(k) => Dispatched(s, k, s')
    case Merge(k) => k < |s.queue| && s' == s.(queue := Without(s.queue, k))
  }

  /** Requests come, go and are merged in any order. */
  ghost predicate Run(ss: seq<State>, ops: seq<Op>) {
    && |ss| == |ops| + 1 && Sorted(ss[0].queue)
    && forall i :: 0 <= i < |ops| ==> Step(ss[i], ops[i], ss[i + 1])
  }

  lemma StepSorted(s: State, op: Op, s': State)
    requires Sorted(s.queue) && Step(s, op, s')
    ensures Sorted(s'.queue)
  {
    match op
    case Add(rq) => AddedSorted(s, rq, s');
    case Dispatch(k) => WithoutSorted(s.queue, k);
    case Merge(k) => WithoutSorted(s.queue, k);
  }

  lemma {:induction false} RunSorted(ss: seq<State>, ops: seq<Op>, i: nat)
    requires Run(ss, ops) && i < |ss|
    ensures Sorted(ss[i].queue)
  {
    if i > 0 {
      RunSorted(ss, ops, i - 1);
      assert Step(ss[i - 1], ops[i - 1], ss[i]);
      StepSorted(ss[i - 1], ops[i - 1], ss[i]);
    }
  }

  /** While r waits: once ahead it stays ahead and the direction holds; a turn puts it ahead. */
  lemma WaitingStep(s: State, op: Op, s': State, r: Request)
    requires Sorted(s.queue) && Alone(s.queue, r) && Step(s, op, s')
    requires r in s.queue && r in s'.queue
    ensures Ahead(s, r) ==> Ahead(s', r) && s'.up == s.up
    ensures s'.up != s.up ==> Ahead(s', r)
  {
    if op.Dispatch? {
      var m :| 0 <= m < |s.queue| && s.queue[m] == r;
      var j :| 0 <= j < |s'.queue| && s'.queue[j] == r;
      assert m != op.k by {
        assert s'.queue[j] == s.queue[if j < op.k then j else j + 1];
      }
    }
  }

  lemma RunWaiting(ss: seq<State>, ops: seq<Op>, i: nat, r: Request)
    requires Run(ss, ops) && i < |ops| && r in ss[i].queue && r in ss[i + 1].queue && Alone(ss[i].queue, r)
    ensures Ahead(ss[i], r) ==> Ahead(ss[i + 1], r) && ss[i + 1].up == ss[i].up
    ensures ss[i + 1].up != ss[i].up ==> Ahead(ss[i + 1], r)
  {
    RunSorted(ss, ops, i);
    assert Step(ss[i], ops[i], ss[i + 1]);
    WaitingStep(ss[i], ops[i], ss[i + 1], r);
  }

  ghost function Turns(ss: seq<State>, i: nat, j: nat): nat
    requires i <= j < |ss|
    decreases j - i
  {
    if i == j then 0 else (if ss[i].up != ss[i + 1].up then 1 else 0) + Turns(ss, i + 1, j)
  }

  /**
   However requests keep arriving, a pending request is served, or merged away, before the
   direction turns twice: while it waits there is at most one turn, and none if it lies ahead.
   */
  lemma {:induction false} AtMostOneTurn(ss: seq<State>, ops: seq<Op>, i: nat, j: nat, r: Request)
    requires Run(ss, ops) && i <= j < |ss|
    requires forall m :: i <= m <= j ==> r in ss[m].queue && Alone(ss[m].queue, r)
    ensures Turns(ss, i, j) <= if Ahead(ss[i], r) then 0 else 1
    decreases j - i
  {
    if i < j {
      RunWaiting(ss, ops, i, r);
      AtMostOneTurn(ss, ops, i + 1, j, r);
    }
  }

  // --- how long a request can wait ---

  /** Sectors are below size. */
  ghost predicate OnDisk(s: State, size: nat) {
    s.prevsec < size && forall i :: 0 <= i < |s.queue| ==> s.queue[i].pos < size
  }

  /** How much head travel is left before r: to r, or to the edge of the disk and back. */
  ghost function Distance(s: State, r: Request, size: nat): nat
    requires s.prevsec < size
  {
    if s.up then
      if r.pos > s.prevsec then r.pos - s.prevsec else size + (size - 1 - s.prevsec)
    else
      if r.pos < s.prevsec then s.prevsec - r.pos else size + s.prevsec
  }

  ghost function Dispatches(ops: seq<Op>, i: nat, j: nat): nat
    requires i <= j <= |ops|
    decreases j - i
  {
    if i == j then 0 else (if ops[i].Dispatch? then 1 else 0) + Dispatches(ops, i + 1, j)
  }

  /** Each dispatch that passes r over brings the head nearer; nothing moves it away. */
  lemma WaitingShrinks(s: State, op: Op, s': State, r: Request, size: nat)
    requires Sorted(s.queue) && Alone(s.queue, r) && Step(s, op, s')
    requires OnDisk(s, size) && OnDisk(s', size)
    requires r in s.queue && r in s'.queue
    ensures Distance(s', r, size) + (if op.Dispatch? then 1 else 0) <= Distance(s, r, size)
  {
    if op.Dispatch? {
      var m :| 0 <= m < |s.queue| && s.queue[m] == r;
      var j :| 0 <= j < |s'.queue| && s'.queue[j] == r;
      assert m != op.k by {
        assert s'.queue[j] == s.queue[if j < op.k then j else j + 1];
      }
      assert s.queue[m].pos != s.queue[op.k].pos;
    }
  }

  /** On a disk of size sectors a request waits for fewer than 2 * size dispatches. */
  lemma {:induction false} WaitIsBounded(ss: seq<State>, ops: seq<Op>, i: nat, j: nat, r: Request, size: nat)
    requires Run(ss, ops) && i <= j < |ss|
    requires OnDisk(ss[i], size) && OnDisk(ss[j], size)
    requires forall m :: i <= m <= j ==> r in ss[m].queue && Alone(ss[m].queue, r) && OnDisk(ss[m], size)
    ensures Dispatches(ops, i, j) + Distance(ss[j], r, size) <= Distance(ss[i], r, size) < 2 * size
    decreases j - i
  {
    if i < j {
      RunSorted(ss, ops, i);
      assert Step(ss[i], ops[i], ss[i + 1]);
      WaitingShrinks(ss[i], ops[i], ss[i + 1], r, size);
      WaitIsBounded(ss, ops, i + 1, j, r, size);
    }
  }

  // --- requests that share a sector ---

  function SameSector(q: seq<Request>, pos: nat): nat {
    if q == [] then 0 else (if q[0].pos == pos then 1 else 0) + SameSector(q[1..], pos)
  }

  /** How many requests for the sector of r came before it: they stand behind it in the queue. */
  function Older(q: seq<Request>, r: Request): nat {
    if q == [] then 0 else if q[0] == r then SameSector(q[1..], r.pos) else Older(q[1..], r)
  }

  /** A request is on the queue once. */
  ghost predicate Once(q: seq<Request>, r: Request) {
    r in q && forall i, j :: 0 <= i < j < |q| ==> q[i] != r || q[j] != r
  }

  lemma {:induction false} SameWithout(q: seq<Request>, k: nat, pos: nat)
    requires k < |q|
    ensures SameSector(Without(q, k), pos) + (if q[k].pos == pos then 1 else 0) == SameSector(q, pos)
  {
    if k == 0 {
      assert Without(q, k) == q[1..];
    } else {
      SameWithout(q[1..], k - 1, pos);
      assert Without(q, k) == [q[0]] + Without(q[1..], k - 1);
    }
  }

  lemma InsertedHead(q: seq<Request>, rq: Request)
    ensures Inserted(q, 0, rq) == [rq] + q && Inserted(q, 0, rq)[1..] == q
  {
  }

  lemma InsertedTail(q: seq<Request>, k: nat, rq: Request)
    requires 0 < k <= |q|
    ensures Inserted(q, k, rq)[0] == q[0] && Inserted(q, k, rq)[1..] == Inserted(q[1..], k - 1, rq)
  {
  }

  lemma {:induction false} SameInserted(q: seq<Request>, k: nat, rq: Request, pos: nat)
    requires k <= |q| && rq.pos != pos
    ensures SameSector(Inserted(q, k, rq), pos) == SameSector(q, pos)
  {
    if k == 0 {
      assert Inserted(q, k, rq) == [rq] + q;
    } else {
      SameInserted(q[1..], k - 1, rq, pos);
      assert Inserted(q, k, rq) == [q[0]] + Inserted(q[1..], k - 1, rq);
    }
  }

  lemma OnceTail(q: seq<Request>, r: Request)
    requires q != [] && Once(q, r)
    ensures if q[0] == r then r !in q[1..] else Once(q[1..], r)
  {
  }

  /** A removal leaves no more older requests, and one fewer if it takes one of them. */
  lemma {:induction false} OlderWithout(q: seq<Request>, k: nat, r: Request, m: nat)
    requires k < |q| && m < |q| && q[m] == r && Once(q, r) && m != k
    ensures Older(Without(q, k), r) <= Older(q, r)
    ensures m < k && q[k].pos == r.pos ==> Older(Without(q, k), r) < Older(q, r)
  {
    OnceTail(q, r);
    if k == 0 {
      assert Without(q, k) == q[1..];
    } else {
      assert Without(q, k) == [q[0]] + Without(q[1..], k - 1);
      assert Without(q, k)[1..] == Without(q[1..], k - 1);
      if m == 0 {
        SameWithout(q[1..], k - 1, r.pos);
      } else {
        OlderWithout(q[1..], k - 1, r, m - 1);
      }
    }
  }

  /** A newcomer goes in before the requests of its sector, so it is older than none of them. */
  lemma {:induction false} OlderInserted(q: seq<Request>, k: nat, rq: Request, r: Request)
    requires GoesAt(q, k, rq) && r in q && Once(Inserted(q, k, rq), r)
    ensures Older(Inserted(q, k, rq), r) <= Older(q, r)
  {
    var q' := Inserted(q, k, rq);
    OnceTail(q', r);
    if k == 0 {
      InsertedHead(q, rq);
    } else {
      InsertedTail(q, k, rq);
      if q[0] == r {
        SameInserted(q[1..], k - 1, rq, r.pos);
      } else {
        OlderInserted(q[1..], k - 1, rq, r);
      }
    }
  }

  /** The turns r may still have to wait through. */
  ghost function TurnsLeft(s: State, r: Request): nat {
    2 * Older(s.queue, r) + if s.up then 1 else if Ahead(s, r) then 0 else 2
  }

  ghost function Turned(s: State, s': State): nat {
    if s.up != s'.up then 1 else 0
  }

  /** What is still there was not the one taken. */
  lemma Stays(q: seq<Request>, k: nat, r: Request) returns (m: nat)
    requires k < |q| && Once(q, r) && r in Without(q, k)
    ensures m < |q| && q[m] == r && m != k
  {
    m :| 0 <= m < |q| && q[m] == r;
    var j :| 0 <= j < |q| - 1 && Without(q, k)[j] == r;
    assert Without(q, k)[j] == q[if j < k then j else j + 1];
  }

  lemma DispatchTurns(s: State, k: nat, s': State, r: Request)
    requires Sorted(s.queue) && Dispatched(s, k, s') && Once(s.queue, r) && Once(s'.queue, r)
    ensures TurnsLeft(s', r) + Turned(s, s') <= TurnsLeft(s, r)
  {
    var m := Stays(s.queue, k, r);
    OlderWithout(s.queue, k, r, m);
  }

  lemma StepTurns(s: State, op: Op, s': State, r: Request)
    requires Sorted(s.queue) && Step(s, op, s') && Once(s.queue, r) && Once(s'.queue, r)
    ensures TurnsLeft(s', r) + Turned(s, s') <= TurnsLeft(s, r)
  {
    match op
    case Add(rq) =>
      var k :| GoesAt(s.queue, k, rq) && s'.queue == Inserted(s.queue, k, rq);
      OlderInserted(s.queue, k, rq, r);
    case Dispatch(k) => DispatchTurns(s, k, s', r);
    case Merge(k) =>
      var m := Stays(s.queue, k, r);
      OlderWithout(s.queue, k, r, m);
  }

  lemma RunTurns(ss: seq<State>, ops: seq<Op>, i: nat, r: Request)
    requires Run(ss, ops) && i < |ops| && Once(ss[i].queue, r) && Once(ss[i + 1].queue, r)
    ensures TurnsLeft(ss[i + 1], r) + Turned(ss[i], ss[i + 1]) <= TurnsLeft(ss[i], r)
  {
    RunSorted(ss, ops, i);
    assert Step(ss[i], ops[i], ss[i + 1]);
    StepTurns(ss[i], ops[i], ss[i + 1], r);
  }

  /** Whatever arrives, a request waits through at most two turns for each older one of its sector, and two more. */
  lemma {:induction false} TurnsAreBounded(ss: seq<State>, ops: seq<Op>, i: nat, j: nat, r: Request)
    requires Run(ss, ops) && i <= j < |ss|
    requires forall m :: i <= m <= j ==> Once(ss[m].queue, r)
    ensures Turns(ss, i, j) + TurnsLeft(ss[j], r) <= TurnsLeft(ss[i], r) <= 2 * Older(ss[i].queue, r) + 2
    decreases j - i
  {
    if i < j {
      RunTurns(ss, ops, i, r);
      TurnsAreBounded(ss, ops, i + 1, j, r);
    }
  }

  /** What is left of this sweep. */
  function SweepLeft(s: State, size: nat): nat
    requires s.prevsec < size
  {
    if s.up then size - 1 - s.prevsec else s.prevsec
  }

  /** A dispatch without a turn moves the head on. */
  lemma SweepShrinks(s: State, op: Op, s': State, size: nat)
    requires Step(s, op, s') && OnDisk(s, size) && OnDisk(s', size) && s.up == s'.up
    ensures SweepLeft(s', size) + (if op.Dispatch? then 1 else 0) <= SweepLeft(s, size)
  {
  }

  /** On a disk of size sectors that is fewer than (2 * older + 3) * size dispatches. */
  lemma {:induction false} SharedWaitIsBounded(ss: seq<State>, ops: seq<Op>, i: nat, j: nat, r: Request, size: nat)
    requires Run(ss, ops) && i <= j < |ss| && OnDisk(ss[i], size) && OnDisk(ss[j], size)
    requires forall m :: i <= m <= j ==> Once(ss[m].queue, r) && OnDisk(ss[m], size)
    ensures Dispatches(ops, i, j) + TurnsLeft(ss[j], r) * size + SweepLeft(ss[j], size)
         <= TurnsLeft(ss[i], r) * size + SweepLeft(ss[i], size) < (2 * Older(ss[i].queue, r) + 3) * size
    decreases j - i
  {
    Within(TurnsLeft(ss[i], r), 2 * Older(ss[i].queue, r) + 2, SweepLeft(ss[i], size), size);
    if i < j {
      SharedWaitIsBounded(ss, ops, i + 1, j, r, size);
      RunTurns(ss, ops, i, r);
      assert Step(ss[i], ops[i], ss[i + 1]);
      if ss[i].up == ss[i + 1].up {
        SweepShrinks(ss[i], ops[i], ss[i + 1], size);
        MulOrder(TurnsLeft(ss[i + 1], r), TurnsLeft(ss[i], r), size);
      } else {
        Within(TurnsLeft(ss[i + 1], r), TurnsLeft(ss[i], r) - 1, SweepLeft(ss[i + 1], size), size);
      }
    }
  }

  lemma Within(a: nat, b: nat, rest: nat, size: nat)
    requires a <= b && rest < size
    ensures a * size + rest < (b + 1) * size
  {
    MulOrder(a, b + 1, size);
  }
}
