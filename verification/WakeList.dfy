/**
 The lock-free list of remotely woken tasks: any number of wakers push onto a runqueue's
 wake_list while the interrupt on its CPU takes the whole list and activates it. Each step
 is one access to shared memory.
 */
module WakeList {
  import opened Common

  /** Where a CPU stands in ttwu_queue_remote. */
  datatype Waker =
    | Idle
    | Claimed(p: nat)                     // has set p to TASK_WAKING, has not read the list head
    | Got(p: nat, next: Option<nat>)      // has read the list head, or got it back from cmpxchg
    | Linked(p: nat, seen: Option<nat>)   // has stored it in p->wake_entry
    | MustSend                            // pushed onto an empty list, has not sent the interrupt

  /** Where the list's own CPU stands in scheduler_ipi or sched_ttwu_pending. */
  datatype Handler =
    | Off
    | Entered                             // before the xchg
    | Draining(list: Option<nat>)
    | Fetched(p: nat, list: Option<nat>)  // has read p->wake_entry, has not activated p

  /** claims to batches record history; shared and detached spell out the two chains. */
  datatype State = State(
    head: Option<nat>,               // rq->wake_list
    entry: map<nat, Option<nat>>,    // p->wake_entry
    waking: set<nat>,                // tasks some waker has claimed: TASK_WAKING
    wakers: map<nat, Waker>,
    handler: Handler,
    ipi: bool,                       // a reschedule interrupt is on its way
    shared: seq<nat>, detached: seq<nat>,
    claims: seq<nat>, pushes: seq<nat>, activations: seq<nat>,
    sent: nat,                       // interrupts sent
    batches: nat)                    // times the handler found something to take

  datatype Action =
    | Claim(i: nat, p: nat) | Read(i: nat) | Link(i: nat) | Cas(i: nat) | Send(i: nat)
    | Interrupt | Hotplug | Xchg | Fetch | Activate | Finish

  predicate Enabled(s: State, a: Action) {
    match a
    case Claim(i, p) => i in s.wakers && s.wakers[i].Idle? && p !in s.waking
    case Read(i) => i in s.wakers && s.wakers[i].Claimed?
    case Link(i) => i in s.wakers && s.wakers[i].Got?
    case Cas(i) => i in s.wakers && s.wakers[i].Linked?
    case Send(i) => i in s.wakers && s.wakers[i].MustSend?
    case Interrupt => s.ipi && s.handler.Off?
    case Hotplug => s.handler.Off?
    case Xchg => s.handler.Entered?
    case Fetch => s.handler.Draining? && s.handler.list.Some? && s.handler.list.value in s.entry
    case Activate => s.handler.Fetched?
    case Finish => s.handler == Draining(None)
  }

  function Apply(s: State, a: Action): State
    requires Enabled(s, a)
  {
    match a
    case Claim(i, p) =>
      s.(wakers := s.wakers[i := Claimed(p)], waking := s.waking + {p}, claims := s.claims + [p])
    case Read(i) =>
      s.(wakers := s.wakers[i := Got(s.wakers[i].p, s.head)])
    case Link(i) =>
      var w := s.wakers[i];
      s.(wakers := s.wakers[i := Linked(w.p, w.next)], entry := s.entry[w.p := w.next])
    case Cas(i) =>
      var w := s.wakers[i];
      if s.head == w.seen then
        s.(head := Some(w.p), shared := [w.p] + s.shared, pushes := s.pushes + [w.p],
           wakers := s.wakers[i := if w.seen.None? then MustSend else Idle])
      else
        s.(wakers := s.wakers[i := Got(w.p, s.head)])
    case Send(i) =>
      s.(wakers := s.wakers[i := Idle], ipi := true, sent := s.sent + 1)
    case Interrupt =>
      s.(ipi := false, handler := Entered)
    case Hotplug =>
      s.(handler := Entered)
    case Xchg =>
      s.(head := None, handler := if s.head.None? then Off else Draining(s.head),
         detached := s.shared, shared := [],
         batches := s.batches + if s.head.None? then 0 else 1)
    case Fetch =>
      var p := s.handler.list.value;
      s.(handler := Fetched(p, s.entry[p]), detached := if s.detached == [] then [] else s.detached[1..])
    case Activate =>
      s.(handler := Draining(s.handler.list), activations := s.activations + [s.handler.p],
         waking := s.waking - {s.handler.p})
    case Finish =>
      s.(handler := Off)
  }

  // --- the invariant ---

  /** The tasks q, in order, starting at h and following wake_entry to its end. */
  ghost predicate Chain(entry: map<nat, Option<nat>>, h: Option<nat>, q: seq<nat>)
    decreases q
  {
    if q == [] then h.None? else h == Some(q[0]) && q[0] in entry && Chain(entry, entry[q[0]], q[1..])
  }

  function Held(w: Waker): Option<nat> {
    match w
    case Claimed(p) => Some(p)
    case Got(p, _) => Some(p)
    case Linked(p, _) => Some(p)
    case _ => None
  }

  /** The task between leaving the detached list and its activation. */
  function InHand(h: Handler): seq<nat> {
    if h.Fetched? then [h.p] else []
  }

  /** Every task pushed and not yet activated, in one sequence. */
  function Pending(s: State): seq<nat> {
    s.shared + s.detached + InHand(s.handler)
  }

  /** The drain's pointer into the detached list. */
  function Cursor(h: Handler): Option<nat> {
    if h.Draining? || h.Fetched? then h.list else None
  }

  ghost predicate NoneTwice(q: seq<nat>) {
    forall p :: multiset(q)[p] <= 1
  }

  ghost predicate ListsOk(s: State) {
    Chain(s.entry, s.head, s.shared) && Chain(s.entry, Cursor(s.handler), s.detached) && NoneTwice(Pending(s))
  }

  ghost function PendingSet(s: State): set<nat> {
    set p | p in Pending(s)
  }

  /** Claimed tasks have one owner each: a waker, or the lists; and a linked task's entry is what its waker wrote. */
  ghost predicate Claims(wakers: map<nat, Waker>, waking: set<nat>, entry: map<nat, Option<nat>>, pend: set<nat>) {
    && (forall i, j, p :: i in wakers && j in wakers && Held(wakers[i]) == Some(p) && Held(wakers[j]) == Some(p) ==> i == j)
    && (forall i, p :: i in wakers && Held(wakers[i]) == Some(p) ==> p in waking && p !in pend)
    && (forall i :: i in wakers && wakers[i].Linked? ==> wakers[i].p in entry && entry[wakers[i].p] == wakers[i].seen)
    && pend <= waking
  }

  ghost predicate WakersOk(s: State) {
    Claims(s.wakers, s.waking, s.entry, PendingSet(s))
  }

  /** A non-empty list has an interrupt coming: pending, about to be sent, or not yet at its xchg. */
  ghost predicate Kicked(s: State) {
    s.head.Some? ==> s.ipi || s.handler.Entered? || exists i :: i in s.wakers && s.wakers[i].MustSend?
  }

  ghost predicate Conserved(s: State) {
    multiset(s.pushes) == multiset(s.activations) + multiset(Pending(s))
  }

  ghost predicate Inv(s: State) {
    ListsOk(s) && WakersOk(s) && Kicked(s) && Conserved(s)
  }

  /** Writing the wake_entry of a task off the chain leaves the chain alone. */
  lemma {:induction false} ChainFrame(entry: map<nat, Option<nat>>, h: Option<nat>, q: seq<nat>, p: nat, v: Option<nat>)
    requires Chain(entry, h, q) && p !in q
    ensures Chain(entry[p := v], h, q)
    decreases q
  {
    if q != [] {
      ChainFrame(entry, entry[q[0]], q[1..], p, v);
    }
  }

  ghost predicate Init(s: State) {
    && s.head.None? && s.waking == {} && s.handler.Off? && !s.ipi
    && s.shared == s.detached == s.claims == s.pushes == s.activations == [] && s.sent == s.batches == 0
    && forall i :: i in s.wakers ==> s.wakers[i].Idle?
  }

  lemma InitInv(s: State)
    requires Init(s)
    ensures Inv(s)
  {
  }

  lemma PutOne(q: seq<nat>, p: nat)
    requires NoneTwice(q) && p !in q
    ensures NoneTwice([p] + q) && multiset([p] + q) == multiset{p} + multiset(q)
  {
    assert multiset(q)[p] == 0;
  }

  lemma TakeOne(q: seq<nat>, p: nat)
    requires NoneTwice(q + [p])
    ensures NoneTwice(q) && p !in q && multiset(q + [p]) == multiset(q) + multiset{p}
  {
    assert multiset(q + [p])[p] == multiset(q)[p] + 1;
    forall x ensures multiset(q)[x] <= 1 {
      assert multiset(q + [p])[x] >= multiset(q)[x];
    }
  }

  /** Kicked survives a step that fills no empty list and loses no interrupt on its way. */
  lemma KickedStays(s: State, t: State)
    requires Kicked(s) && (t.head.Some? ==> s.head.Some?)
    requires s.ipi || s.handler.Entered? ==> t.ipi || t.handler.Entered?
    requires forall j :: j in s.wakers && s.wakers[j].MustSend? ==> (j in t.wakers && t.wakers[j].MustSend?) || t.ipi
    ensures Kicked(t)
  {
    if t.head.Some? && !s.ipi && !s.handler.Entered? {
      var i :| i in s.wakers && s.wakers[i].MustSend?;
    }
  }

  /** One waker moved on, holding its task as before or letting it go. */
  lemma ClaimsStay(wakers: map<nat, Waker>, waking: set<nat>, entry: map<nat, Option<nat>>, pend: set<nat>,
                   i: nat, w: Waker, entry': map<nat, Option<nat>>)
    requires Claims(wakers, waking, entry, pend) && i in wakers
    requires Held(w) == Held(wakers[i]) || Held(w).None?
    requires w.Linked? ==> w.p in entry' && entry'[w.p] == w.seen
    requires forall j :: j in wakers && j != i && wakers[j].Linked? ==>
               wakers[j].p in entry' && wakers[j].p in entry && entry'[wakers[j].p] == entry[wakers[j].p]
    ensures Claims(wakers[i := w], waking, entry', pend)
  {
  }

  lemma ClaimKeeps(s: State, i: nat, p: nat)
    requires Inv(s) && Enabled(s, Claim(i, p))
    ensures Inv(Apply(s, Claim(i, p)))
  {
    var t := Apply(s, Claim(i, p));
    assert Pending(t) == Pending(s);
    KickedStays(s, t);
    ClaimNew(s.wakers, s.waking, s.entry, PendingSet(s), i, p);
  }

  lemma ClaimNew(wakers: map<nat, Waker>, waking: set<nat>, entry: map<nat, Option<nat>>, pend: set<nat>, i: nat, p: nat)
    requires Claims(wakers, waking, entry, pend) && i in wakers && p !in waking
    ensures Claims(wakers[i := Claimed(p)], waking + {p}, entry, pend)
  {
  }

  lemma ReadKeeps(s: State, i: nat)
    requires Inv(s) && Enabled(s, Read(i))
    ensures Inv(Apply(s, Read(i)))
  {
    var t := Apply(s, Read(i));
    assert Pending(t) == Pending(s);
    KickedStays(s, t);
    ClaimsStay(s.wakers, s.waking, s.entry, PendingSet(s), i, t.wakers[i], s.entry);
  }

  lemma LinkKeeps(s: State, i: nat)
    requires Inv(s) && Enabled(s, Link(i))
    ensures Inv(Apply(s, Link(i)))
  {
    var t := Apply(s, Link(i));
    var p, v := s.wakers[i].p, s.wakers[i].next;
    LinkPending(s, t, i);
    LinkLists(s, t, p, v);
    LinkClaims(s.wakers, s.waking, s.entry, PendingSet(s), i);
    KickedStays(s, t);
  }

  lemma LinkPending(s: State, t: State, i: nat)
    requires WakersOk(s) && i in s.wakers && s.wakers[i].Got?
    requires t.shared == s.shared && t.detached == s.detached && t.handler == s.handler
    ensures Pending(t) == Pending(s) && PendingSet(t) == PendingSet(s) && s.wakers[i].p !in Pending(s)
  {
    assert Held(s.wakers[i]) == Some(s.wakers[i].p);
    assert s.wakers[i].p !in PendingSet(s);
  }

  lemma LinkLists(s: State, t: State, p: nat, v: Option<nat>)
    requires ListsOk(s) && p !in Pending(s) && Pending(t) == Pending(s)
    requires t.entry == s.entry[p := v] && t.head == s.head && t.shared == s.shared
    requires t.handler == s.handler && t.detached == s.detached
    ensures ListsOk(t)
  {
    assert forall x :: x in s.shared || x in s.detached ==> x in Pending(s);
    ChainFrame(s.entry, s.head, s.shared, p, v);
    ChainFrame(s.entry, Cursor(s.handler), s.detached, p, v);
  }

  lemma LinkClaims(wakers: map<nat, Waker>, waking: set<nat>, entry: map<nat, Option<nat>>, pend: set<nat>, i: nat)
    requires Claims(wakers, waking, entry, pend) && i in wakers && wakers[i].Got?
    ensures var p, v := wakers[i].p, wakers[i].next;
      Claims(wakers[i := Linked(p, v)], waking, entry[p := v], pend)
  {
    var p, v := wakers[i].p, wakers[i].next;
    assert Held(wakers[i]) == Some(p);
    forall j | j in wakers && j != i && wakers[j].Linked? ensures wakers[j].p != p {
      assert Held(wakers[j]) == Some(wakers[j].p);
    }
    ClaimsStay(wakers, waking, entry, pend, i, Linked(p, v), entry[p := v]);
  }

  lemma CasKeeps(s: State, i: nat)
    requires Inv(s) && Enabled(s, Cas(i))
    ensures Inv(Apply(s, Cas(i)))
  {
    var t, w := Apply(s, Cas(i)), s.wakers[i];
    assert Held(w) == Some(w.p);
    if s.head == w.seen {
      PushKeeps(s, i, t);
    } else {
      assert Pending(t) == Pending(s);
      ClaimsStay(s.wakers, s.waking, s.entry, PendingSet(s), i, Got(w.p, s.head), t.entry);
      KickedStays(s, t);
    }
  }

  lemma PushKeeps(s: State, i: nat, t: State)
    requires Inv(s) && Enabled(s, Cas(i)) && s.head == s.wakers[i].seen && t == Apply(s, Cas(i))
    ensures Inv(t)
  {
    var p := s.wakers[i].p;
    PushPending(s, t, i, p);
    PushLists(s, t, p);
    ClaimMoves(s.wakers, s.waking, s.entry, PendingSet(s), i, t.wakers[i], p);
    PushKicks(s, i, t);
  }

  lemma PushPending(s: State, t: State, i: nat, p: nat)
    requires WakersOk(s) && i in s.wakers && Held(s.wakers[i]) == Some(p)
    requires t.shared == [p] + s.shared && t.detached == s.detached && t.handler == s.handler
    ensures Pending(t) == [p] + Pending(s) && PendingSet(t) == PendingSet(s) + {p} && p !in Pending(s)
  {
    assert p !in PendingSet(s);
    assert Pending(t) == [p] + Pending(s);
  }

  lemma PushLists(s: State, t: State, p: nat)
    requires ListsOk(s) && Conserved(s) && p !in Pending(s) && p in s.entry && s.entry[p] == s.head
    requires t.entry == s.entry && t.head == Some(p) && t.shared == [p] + s.shared
    requires t.handler == s.handler && t.detached == s.detached
    requires t.pushes == s.pushes + [p] && t.activations == s.activations
    requires Pending(t) == [p] + Pending(s)
    ensures ListsOk(t) && Conserved(t)
  {
    assert t.shared[1..] == s.shared;
    PutOne(Pending(s), p);
    assert multiset(t.pushes) == multiset(s.pushes) + multiset{p};
  }

  lemma PushKicks(s: State, i: nat, t: State)
    requires Kicked(s) && Enabled(s, Cas(i)) && s.head == s.wakers[i].seen && t == Apply(s, Cas(i))
    ensures Kicked(t)
  {
    if s.wakers[i].seen.None? {
      assert t.wakers[i].MustSend?;
    } else {
      KickedStays(s, t);
    }
  }

  /** The waker lets its task go to the list. */
  lemma ClaimMoves(wakers: map<nat, Waker>, waking: set<nat>, entry: map<nat, Option<nat>>, pend: set<nat>, i: nat, w: Waker, p: nat)
    requires Claims(wakers, waking, entry, pend) && i in wakers && Held(wakers[i]) == Some(p) && Held(w).None? && !w.Linked?
    ensures Claims(wakers[i := w], waking, entry, pend + {p})
  {
  }

  lemma SendKeeps(s: State, i: nat)
    requires Inv(s) && Enabled(s, Send(i))
    ensures Inv(Apply(s, Send(i)))
  {
    var t := Apply(s, Send(i));
    assert Pending(t) == Pending(s);
    ClaimsStay(s.wakers, s.waking, s.entry, PendingSet(s), i, Idle, t.entry);
  }

  lemma EnterKeeps(s: State, a: Action)
    requires Inv(s) && Enabled(s, a) && (a.Interrupt? || a.Hotplug?)
    ensures Inv(Apply(s, a))
  {
    SameLists(s, Apply(s, a));
  }

  /** A step of the handler that touches no list. */
  lemma SameLists(s: State, t: State)
    requires t.shared == s.shared && t.detached == s.detached && InHand(t.handler) == InHand(s.handler) == []
    ensures Pending(t) == Pending(s) && PendingSet(t) == PendingSet(s)
  {
  }

  lemma XchgKeeps(s: State)
    requires Inv(s) && Enabled(s, Xchg)
    ensures Inv(Apply(s, Xchg))
  {
    assert s.detached == [];
    assert Pending(Apply(s, Xchg)) == Pending(s);
  }

  lemma FetchKeeps(s: State)
    requires Inv(s) && Enabled(s, Fetch)
    ensures Inv(Apply(s, Fetch))
  {
    var t, p := Apply(s, Fetch), s.handler.list.value;
    CursorHead(s, p);
    FetchPending(s, t, p);
    FetchLists(s, t, p);
    KickedStays(s, t);
  }

  lemma CursorHead(s: State, p: nat)
    requires ListsOk(s) && Cursor(s.handler) == Some(p)
    ensures s.detached != [] && s.detached[0] == p
  {
  }

  lemma FetchPending(s: State, t: State, p: nat)
    requires InHand(s.handler) == [] && InHand(t.handler) == [p] && t.shared == s.shared
    requires s.detached != [] && s.detached[0] == p && t.detached == s.detached[1..]
    ensures multiset(Pending(t)) == multiset(Pending(s)) && PendingSet(t) == PendingSet(s)
  {
    Rotate(s.shared, s.detached, p);
  }

  lemma Rotate(a: seq<nat>, b: seq<nat>, p: nat)
    requires b != [] && b[0] == p
    ensures multiset(a + b[1..] + [p]) == multiset(a + b + [])
    ensures (set x | x in a + b[1..] + [p]) == (set x | x in a + b + [])
  {
    assert b == [p] + b[1..];
    assert multiset(a + b + []) == multiset(a) + multiset([p]) + multiset(b[1..]);
    forall x ensures x in a + b[1..] + [p] <==> x in a + b + [] {
      assert x in multiset(a + b[1..] + [p]) <==> x in multiset(a + b + []);
    }
  }

  lemma FetchLists(s: State, t: State, p: nat)
    requires ListsOk(s) && Conserved(s) && s.handler == Draining(Some(p)) && p in s.entry && s.detached != []
    requires t.entry == s.entry && t.head == s.head && t.shared == s.shared && t.detached == s.detached[1..]
    requires t.handler == Fetched(p, s.entry[p]) && t.pushes == s.pushes && t.activations == s.activations
    requires multiset(Pending(t)) == multiset(Pending(s))
    ensures ListsOk(t) && Conserved(t)
  {
  }

  lemma ActivateKeeps(s: State)
    requires Inv(s) && Enabled(s, Activate)
    ensures Inv(Apply(s, Activate))
  {
    var t, p := Apply(s, Activate), s.handler.p;
    PendingShrinks(s, t, p);
    ActivateLists(s, t, p);
    ClaimEnds(s.wakers, s.waking, s.entry, PendingSet(s), p);
    KickedStays(s, t);
  }

  lemma PendingShrinks(s: State, t: State, p: nat)
    requires InHand(s.handler) == [p] && InHand(t.handler) == [] && t.shared == s.shared && t.detached == s.detached
    requires NoneTwice(Pending(s))
    ensures Pending(s) == Pending(t) + [p] && p in PendingSet(s) && PendingSet(t) == PendingSet(s) - {p}
  {
    assert Pending(s) == Pending(t) + [p];
    TakeOne(Pending(t), p);
    assert p in Pending(s);
  }

  lemma ClaimEnds(wakers: map<nat, Waker>, waking: set<nat>, entry: map<nat, Option<nat>>, pend: set<nat>, p: nat)
    requires Claims(wakers, waking, entry, pend) && p in pend
    ensures Claims(wakers, waking - {p}, entry, pend - {p})
  {
  }

  lemma ActivateLists(s: State, t: State, p: nat)
    requires ListsOk(s) && Conserved(s) && Pending(s) == Pending(t) + [p]
    requires t.entry == s.entry && t.head == s.head && t.shared == s.shared && t.detached == s.detached
    requires Cursor(t.handler) == Cursor(s.handler)
    requires t.pushes == s.pushes && t.activations == s.activations + [p]
    ensures ListsOk(t) && Conserved(t) && p !in Pending(t)
  {
    TakeOne(Pending(t), p);
    assert multiset(t.activations) == multiset(s.activations) + multiset{p};
  }

  lemma FinishKeeps(s: State)
    requires Inv(s) && Enabled(s, Finish)
    ensures Inv(Apply(s, Finish))
  {
    SameLists(s, Apply(s, Finish));
  }

  lemma StepKeeps(s: State, a: Action)
    requires Inv(s) && Enabled(s, a)
    ensures Inv(Apply(s, a))
  {
    match a
    case Claim(i, p) => ClaimKeeps(s, i, p);
    case Read(i) => ReadKeeps(s, i);
    case Link(i) => LinkKeeps(s, i);
    case Cas(i) => CasKeeps(s, i);
    case Send(i) => SendKeeps(s, i);
    case Interrupt => EnterKeeps(s, a);
    case Hotplug => EnterKeeps(s, a);
    case Xchg => XchgKeeps(s);
    case Fetch => FetchKeeps(s);
    case Activate => ActivateKeeps(s);
    case Finish => FinishKeeps(s);
  }

  ghost predicate Run(ss: seq<State>, acts: seq<Action>) {
    && |ss| == |acts| + 1 && Init(ss[0])
    && forall i :: 0 <= i < |acts| ==> Enabled(ss[i], acts[i]) && ss[i + 1] == Apply(ss[i], acts[i])
  }

  lemma {:induction false} RunKeeps(ss: seq<State>, acts: seq<Action>, i: nat)
    requires Run(ss, acts) && i < |ss|
    ensures Inv(ss[i])
  {
    if i == 0 {
      InitInv(ss[0]);
    } else {
      RunKeeps(ss, acts, i - 1);
      StepKeeps(ss[i - 1], acts[i - 1]);
    }
  }

  /**
   In every interleaving the two lists, with the task in hand, hold exactly the pushed tasks
   not yet activated, none twice; and a non-empty shared list has an interrupt coming.
   */
  lemma ListsHoldThePending(ss: seq<State>, acts: seq<Action>, i: nat)
    requires Run(ss, acts) && i < |ss|
    ensures multiset(Pending(ss[i])) == multiset(ss[i].pushes) - multiset(ss[i].activations)
    ensures multiset(ss[i].activations) <= multiset(ss[i].pushes)
    ensures NoneTwice(Pending(ss[i]))
    ensures Kicked(ss[i])
  {
    RunKeeps(ss, acts, i);
  }

  // --- every claimed task gets there ---

  ghost predicate HeldBySome(wakers: map<nat, Waker>, p: nat) {
    exists i :: i in wakers && Held(wakers[i]) == Some(p)
  }

  /** A claimed task is in some waker's hands or on the lists, and one claim is one activation or one task waking. */
  ghost predicate Ledger(s: State) {
    && (forall p :: p in s.waking ==> p in Pending(s) || HeldBySome(s.wakers, p))
    && multiset(s.claims) == multiset(s.activations) + multiset(s.waking)
  }

  /** What a waker held it still holds, or has put on the list. */
  lemma StillHeld(wakers: map<nat, Waker>, i: nat, w: Waker, p: nat)
    requires i in wakers && HeldBySome(wakers, p) && (Held(wakers[i]) == Held(w) || Held(wakers[i]) != Some(p))
    ensures HeldBySome(wakers[i := w], p)
  {
    var j :| j in wakers && Held(wakers[j]) == Some(p);
    assert j in wakers[i := w] && Held(wakers[i := w][j]) == Some(p);
  }

  lemma WakerLedger(s: State, i: nat, t: State)
    requires Ledger(s) && i in s.wakers && i in t.wakers && t.wakers == s.wakers[i := t.wakers[i]]
    requires t.waking == s.waking && t.claims == s.claims && t.activations == s.activations
    requires forall p :: p in Pending(s) ==> p in Pending(t)
    requires Held(s.wakers[i]) == Held(t.wakers[i]) || (Held(s.wakers[i]).Some? ==> Held(s.wakers[i]).value in Pending(t))
    ensures Ledger(t)
  {
    forall p | p in t.waking && p !in Pending(t) ensures HeldBySome(t.wakers, p) {
      StillHeld(s.wakers, i, t.wakers[i], p);
    }
  }

  lemma ClaimLedger(s: State, i: nat, p: nat)
    requires Ledger(s) && Enabled(s, Claim(i, p))
    ensures Ledger(Apply(s, Claim(i, p)))
  {
    var t := Apply(s, Claim(i, p));
    forall x | x in t.waking && x !in Pending(t) ensures HeldBySome(t.wakers, x) {
      if x == p {
        assert Held(t.wakers[i]) == Some(p);
      } else {
        StillHeld(s.wakers, i, t.wakers[i], x);
      }
    }
    assert multiset(t.claims) == multiset(s.claims) + multiset{p};
    assert multiset(t.waking) == multiset(s.waking) + multiset{p};
  }

  lemma ActivateLedger(s: State)
    requires Inv(s) && Ledger(s) && Enabled(s, Activate)
    ensures Ledger(Apply(s, Activate))
  {
    var t, p := Apply(s, Activate), s.handler.p;
    PendingShrinks(s, t, p);
    assert p in PendingSet(s) && p in s.waking;
    assert multiset(t.activations) == multiset(s.activations) + multiset{p};
    assert multiset(s.waking) == multiset(t.waking) + multiset{p};
  }

  /** The handler's steps on the lists lose no task. */
  lemma DrainLedger(s: State, t: State)
    requires Ledger(s) && PendingSet(t) == PendingSet(s) && t.wakers == s.wakers
    requires t.waking == s.waking && t.claims == s.claims && t.activations == s.activations
    ensures Ledger(t)
  {
    forall p | p in t.waking && p !in Pending(t) ensures HeldBySome(t.wakers, p) {
      assert p !in PendingSet(t);
    }
  }

  lemma FetchLedger(s: State)
    requires Inv(s) && Ledger(s) && Enabled(s, Fetch)
    ensures Ledger(Apply(s, Fetch))
  {
    var t, p := Apply(s, Fetch), s.handler.list.value;
    CursorHead(s, p);
    FetchPending(s, t, p);
    DrainLedger(s, t);
  }

  lemma XchgLedger(s: State)
    requires Inv(s) && Ledger(s) && Enabled(s, Xchg)
    ensures Ledger(Apply(s, Xchg))
  {
    assert s.detached == [];
    assert Pending(Apply(s, Xchg)) == Pending(s);
    DrainLedger(s, Apply(s, Xchg));
  }

  lemma CasLedger(s: State, i: nat)
    requires Ledger(s) && Enabled(s, Cas(i))
    ensures Ledger(Apply(s, Cas(i)))
  {
    var t := Apply(s, Cas(i));
    if s.head == s.wakers[i].seen {
      assert Held(s.wakers[i]) == Some(s.wakers[i].p);
      assert t.shared == [s.wakers[i].p] + s.shared;
    }
    WakerLedger(s, i, t);
  }

  lemma StepKeepsLedger(s: State, a: Action)
    requires Inv(s) && Ledger(s) && Enabled(s, a)
    ensures Ledger(Apply(s, a))
  {
    var t := Apply(s, a);
    match a
    case Claim(i, p) => ClaimLedger(s, i, p);
    case Read(i) => WakerLedger(s, i, t);
    case Link(i) => WakerLedger(s, i, t);
    case Cas(i) => CasLedger(s, i);
    case Send(i) => WakerLedger(s, i, t);
    case Xchg => XchgLedger(s);
    case Fetch => FetchLedger(s);
    case Activate => ActivateLedger(s);
    case _ => SameLists(s, t);
  }

  lemma {:induction false} RunKeepsLedger(ss: seq<State>, acts: seq<Action>, i: nat)
    requires Run(ss, acts) && i < |ss|
    ensures Ledger(ss[i])
  {
    if i > 0 {
      RunKeepsLedger(ss, acts, i - 1);
      RunKeeps(ss, acts, i - 1);
      StepKeepsLedger(ss[i - 1], acts[i - 1]);
    }
  }

  /** In every interleaving the tasks waking are exactly those in a waker's hands and those on the lists. */
  lemma WakingIsHeldOrPending(ss: seq<State>, acts: seq<Action>, i: nat, p: nat)
    requires Run(ss, acts) && i < |ss|
    ensures p in ss[i].waking <==> p in Pending(ss[i]) || HeldBySome(ss[i].wakers, p)
    ensures !(p in Pending(ss[i]) && HeldBySome(ss[i].wakers, p))
    ensures multiset(ss[i].claims) == multiset(ss[i].activations) + multiset(ss[i].waking)
  {
    RunKeeps(ss, acts, i);
    RunKeepsLedger(ss, acts, i);
    assert p in Pending(ss[i]) <==> p in PendingSet(ss[i]);
  }

  /** No wakeup is lost: once nothing is in flight, every claimed task has been pushed and activated. */
  lemma QuietMeansAllActivated(ss: seq<State>, acts: seq<Action>, i: nat)
    requires Run(ss, acts) && i < |ss|
    requires !ss[i].ipi && ss[i].handler.Off? && forall w :: w in ss[i].wakers ==> ss[i].wakers[w].Idle?
    ensures multiset(ss[i].claims) == multiset(ss[i].pushes) == multiset(ss[i].activations) && ss[i].waking == {}
  {
    RunKeeps(ss, acts, i);
    RunKeepsLedger(ss, acts, i);
    assert Pending(ss[i]) == [];
    assert ss[i].waking == {};
  }

  // --- no interrupt too many ---

  ghost function Senders(wakers: map<nat, Waker>): set<nat> {
    set i | i in wakers && wakers[i].MustSend?
  }

  /** One interrupt, sent or about to be, for each batch taken and one for a batch that waits. */
  ghost predicate OneEach(s: State) {
    s.sent + |Senders(s.wakers)| == s.batches + if s.head.None? then 0 else 1
  }

  function Unit(b: bool): nat {
    if b then 1 else 0
  }

  /** Waker i moves on. */
  lemma SendersMove(s: State, i: nat, t: State)
    requires OneEach(s) && i in s.wakers && i in t.wakers && t.wakers == s.wakers[i := t.wakers[i]] && t.batches == s.batches
    requires t.sent + Unit(t.wakers[i].MustSend?) + Unit(s.head.Some?) == s.sent + Unit(s.wakers[i].MustSend?) + Unit(t.head.Some?)
    ensures OneEach(t)
  {
    var before, after := Senders(s.wakers), Senders(t.wakers);
    assert i in before <==> s.wakers[i].MustSend?;
    assert after == if t.wakers[i].MustSend? then before + {i} else before - {i};
  }

  lemma StepKeepsOneEach(s: State, a: Action)
    requires OneEach(s) && Enabled(s, a)
    ensures OneEach(Apply(s, a))
  {
    var t := Apply(s, a);
    match a
    case Claim(i, _) => SendersMove(s, i, t);
    case Read(i) => SendersMove(s, i, t);
    case Link(i) => SendersMove(s, i, t);
    case Cas(i) => SendersMove(s, i, t);
    case Send(i) => SendersMove(s, i, t);
    case _ => assert t.wakers == s.wakers;
  }

  /** Only the push that fills an empty list sends an interrupt: one for each batch. */
  lemma {:induction false} OneInterruptEach(ss: seq<State>, acts: seq<Action>, i: nat)
    requires Run(ss, acts) && i < |ss|
    ensures OneEach(ss[i])
  {
    if i == 0 {
      assert Senders(ss[0].wakers) == {};
    } else {
      OneInterruptEach(ss, acts, i - 1);
      StepKeepsOneEach(ss[i - 1], acts[i - 1]);
    }
  }

  /** The drain never stalls: whatever it holds, its next step is enabled. */
  lemma DrainNeverStalls(ss: seq<State>, acts: seq<Action>, i: nat)
    requires Run(ss, acts) && i < |ss| && !ss[i].handler.Off?
    ensures Enabled(ss[i], Xchg) || Enabled(ss[i], Fetch) || Enabled(ss[i], Activate) || Enabled(ss[i], Finish)
  {
    RunKeeps(ss, acts, i);
  }
}
