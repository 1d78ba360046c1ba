/** Which task _pick_next_task_rt should choose, stated without its descent. */
module RtPick {
  import opened Common
  import opened RtQueue
  import opened RtTree

  /** No runqueue from q up to, but not including, the root is throttled. */
  ghost predicate Clear(t: Topo, rqs: Rqs, q: nat)
    requires WellKeyed(t, rqs) && q in rqs
    decreases t.depth[q]
  {
    q == ROOT || (!rqs[q].throttled && Clear(t, rqs, t.rqOf[Group(q)]))
  }

  /** A queued task with no throttled group above it. */
  ghost predicate Eligible(t: Topo, rqs: Rqs, on: set<Ent>, p: nat)
    requires WellKeyed(t, rqs)
  {
    Task(p) in on && Task(p) in t.rqOf && Clear(t, rqs, t.rqOf[Task(p)])
  }

  /** e heads the list of its priority, and so does each group above it. */
  ghost predicate Foremost(t: Topo, rqs: Rqs, e: Ent)
    requires WellKeyed(t, rqs) && e in t.rqOf
    decreases t.depth[t.rqOf[e]]
  {
    var q, p := t.rqOf[e], SePrio(t, rqs, e);
    p < |rqs[q].queue| && rqs[q].queue[p] != [] && rqs[q].queue[p][0] == e
    && (q != ROOT ==> Foremost(t, rqs, Group(q)))
  }

  /** A clear runqueue with something queued contributes its best priority at the root. */
  lemma {:induction false} ClearReachesRoot(t: Topo, rqs: Rqs, on: set<Ent>, q: nat)
    requires Inv(t, rqs, on) && q in rqs && Clear(t, rqs, q) && rqs[q].nr > 0
    ensures rqs[ROOT].nr > 0 && rqs[ROOT].curr <= rqs[q].curr
    decreases t.depth[q]
  {
    if q != ROOT {
      var up := t.rqOf[Group(q)];
      assert GroupLink(rqs, on, q);
      QueuedBounds(t, rqs, on, Group(q));
      ClearReachesRoot(t, rqs, on, up);
    }
  }

  /** The cached priority of a runqueue is at most that of anything queued on it. */
  lemma QueuedBounds(t: Topo, rqs: Rqs, on: set<Ent>, e: Ent)
    requires Inv(t, rqs, on) && e in on
    ensures e in t.rqOf && rqs[t.rqOf[e]].nr > 0 && rqs[t.rqOf[e]].curr <= SePrio(t, rqs, e) < MAX_RT_PRIO
  {
    var q, p := t.rqOf[e], SePrio(t, rqs, e);
    assert OkAt(rqs, q) && rqs[q].Has(p, e);
    RemovedOk(rqs[q], e, p);
  }

  lemma EligibleBounds(t: Topo, rqs: Rqs, on: set<Ent>, p: nat)
    requires Inv(t, rqs, on) && Eligible(t, rqs, on, p)
    ensures rqs[ROOT].nr > 0 && rqs[ROOT].curr <= t.prio[p]
  {
    QueuedBounds(t, rqs, on, Task(p));
    ClearReachesRoot(t, rqs, on, t.rqOf[Task(p)]);
  }

  /** The entity at the front of the best list of a non-empty clear runqueue. */
  lemma FrontEntity(t: Topo, rqs: Rqs, on: set<Ent>, q: nat)
    requires Inv(t, rqs, on) && q in rqs && rqs[q].nr > 0
    ensures rqs[q].Shape() && rqs[q].bitmap[MAX_RT_PRIO] && rqs[q].curr < MAX_RT_PRIO
    ensures FirstBit(rqs[q].bitmap, 0) == rqs[q].curr && rqs[q].queue[rqs[q].curr] != []
    ensures var e := rqs[q].queue[rqs[q].curr][0];
      && e in on && e in t.rqOf && t.rqOf[e] == q && SePrio(t, rqs, e) == rqs[q].curr
      && (e.Group? ==> e.q in rqs && e.q != ROOT && rqs[e.q].nr > 0 && !rqs[e.q].throttled)
  {
    assert OkAt(rqs, q);
    RunningHasPrio(rqs[q]);
    var e := rqs[q].queue[rqs[q].curr][0];
    assert rqs[q].Has(rqs[q].curr, e);
    if e.Group? {
      assert GroupLink(rqs, on, e.q);
    }
  }
}
