/**
 The tree of real-time runqueues of one CPU under group scheduling: what must hold
 between a group's queue and the entity that stands for it one level up.
 */
module RtTree {
  import opened Common
  import opened RtQueue

  /** Who belongs where. Fixed while the queues change; rqOf is rt_se->rt_rq. */
  datatype Topo = Topo(rqs: set<nat>, rqOf: map<Ent, nat>, prio: map<nat, nat>, depth: map<nat, nat>, height: nat) {
    ghost predicate Ok() {
      && ROOT in rqs && depth.Keys == rqs && depth[ROOT] == 0
      && (forall q :: q in rqs ==> depth[q] <= height)
      && (forall e :: e in rqOf ==> rqOf[e] in rqs)
      && (forall t :: Task(t) in rqOf ==> t in prio && prio[t] < MAX_RT_PRIO)
      && (forall q :: Group(q) in rqOf <==> q in rqs && q != ROOT)
      && (forall q :: Group(q) in rqOf ==> depth[q] == depth[rqOf[Group(q)]] + 1)
    }
  }

  type Rqs = map<nat, Rq>

  ghost predicate WellKeyed(t: Topo, rqs: Rqs) {
    t.Ok() && rqs.Keys == t.rqs
  }

  /** rt_se_prio: a group counts with the highest priority queued inside it. */
  function SePrio(t: Topo, rqs: Rqs, e: Ent): nat
    requires WellKeyed(t, rqs) && e in t.rqOf
  {
    match e
    case Task(i) => t.prio[i]
    case Group(q) => rqs[q].curr
  }

  /** Queued entities are on their own runqueue, at the priority they have now, and nobody else is on a list. */
  ghost predicate Placed(t: Topo, rqs: Rqs, on: set<Ent>)
    requires WellKeyed(t, rqs)
  {
    && (forall e :: e in on ==> e in t.rqOf && rqs[t.rqOf[e]].Has(SePrio(t, rqs, e), e))
    && (forall q, p, e :: q in rqs && rqs[q].Has(p, e) ==> e in on && t.rqOf[e] == q && p == SePrio(t, rqs, e))
  }

  /** A group's entity is queued exactly when its own queue is non-empty and not throttled. */
  ghost predicate GroupLink(rqs: Rqs, on: set<Ent>, q: nat)
    requires q in rqs
  {
    Group(q) in on <==> rqs[q].nr > 0 && !rqs[q].throttled
  }

  ghost predicate OkAt(rqs: Rqs, q: nat)
    requires q in rqs
  {
    rqs[q].Ok()
  }

  /** The hierarchy invariant, except that the groups in x may be off their queue for now. */
  ghost predicate InvBut(t: Topo, rqs: Rqs, on: set<Ent>, x: set<Ent>) {
    && WellKeyed(t, rqs)
    && (forall q {:trigger OkAt(rqs, q)} :: q in rqs ==> OkAt(rqs, q))
    && Placed(t, rqs, on)
    && (forall q {:trigger GroupLink(rqs, on, q)} :: q in rqs && q != ROOT && Group(q) !in x ==> GroupLink(rqs, on, q))
  }

  ghost predicate Inv(t: Topo, rqs: Rqs, on: set<Ent>) {
    InvBut(t, rqs, on, {})
  }

  /** The entity above e, whose priority depends on the runqueue e sits on, is off its queue. */
  ghost predicate AboveIsOff(t: Topo, on: set<Ent>, x: set<Ent>, e: Ent)
    requires e in t.rqOf
  {
    t.rqOf[e] != ROOT ==> Group(t.rqOf[e]) in x && Group(t.rqOf[e]) !in on
  }

  lemma OnMeansMember(t: Topo, rqs: Rqs, on: set<Ent>, e: Ent)
    requires WellKeyed(t, rqs) && Placed(t, rqs, on) && e in t.rqOf
    ensures e in on <==> e in rqs[t.rqOf[e]].Members()
  {
    var p := rqs[t.rqOf[e]].MemberIff(e);
  }

  /** Changing one runqueue changes the priority of no queued entity, if its group's entity is off. */
  lemma PriosStay(t: Topo, rqs: Rqs, on: set<Ent>, q: nat, r: Rq, e: Ent)
    requires WellKeyed(t, rqs) && q in rqs && Group(q) !in on && e in on && e in t.rqOf
    ensures SePrio(t, rqs[q := r], e) == SePrio(t, rqs, e)
  {
  }

  lemma RemovePlaced(t: Topo, rqs: Rqs, on: set<Ent>, e: Ent, r: Rq)
    requires WellKeyed(t, rqs) && Placed(t, rqs, on) && e in on && Group(t.rqOf[e]) !in on
    requires forall p', e' :: r.Has(p', e') <==> rqs[t.rqOf[e]].Has(p', e') && e' != e
    ensures Placed(t, rqs[t.rqOf[e] := r], on - {e})
  {
    var q := t.rqOf[e];
    var rqs' := rqs[q := r];
    forall e' | e' in on - {e} ensures rqs'[t.rqOf[e']].Has(SePrio(t, rqs', e'), e') {
      PriosStay(t, rqs, on, q, r, e');
    }
    forall q', p, e' | q' in rqs' && rqs'[q'].Has(p, e')
      ensures e' in on - {e} && t.rqOf[e'] == q' && p == SePrio(t, rqs', e')
    {
      assert rqs[q'].Has(p, e');
      PriosStay(t, rqs, on, q, r, e');
    }
  }

  lemma AddPlaced(t: Topo, rqs: Rqs, on: set<Ent>, e: Ent, r: Rq)
    requires WellKeyed(t, rqs) && Placed(t, rqs, on) && e !in on && e in t.rqOf && Group(t.rqOf[e]) !in on
    requires e != Group(t.rqOf[e])
    requires forall p', e' :: r.Has(p', e') <==> rqs[t.rqOf[e]].Has(p', e') || (p' == SePrio(t, rqs, e) && e' == e)
    ensures Placed(t, rqs[t.rqOf[e] := r], on + {e})
  {
    var q := t.rqOf[e];
    var rqs' := rqs[q := r];
    assert SePrio(t, rqs', e) == SePrio(t, rqs, e);
    forall e' | e' in on + {e} ensures e' in t.rqOf && rqs'[t.rqOf[e']].Has(SePrio(t, rqs', e'), e') {
      if e' != e {
        PriosStay(t, rqs, on, q, r, e');
      }
    }
    forall q', p, e' | q' in rqs' && rqs'[q'].Has(p, e')
      ensures e' in on + {e} && t.rqOf[e'] == q' && p == SePrio(t, rqs', e')
    {
      if e' != e {
        assert rqs[q'].Has(p, e');
        PriosStay(t, rqs, on, q, r, e');
      } else {
        assert !rqs[q'].Has(p, e);
      }
    }
  }

  lemma AboveNotOn(t: Topo, rqs: Rqs, on: set<Ent>, x: set<Ent>, e: Ent)
    requires InvBut(t, rqs, on, x) && e in t.rqOf && AboveIsOff(t, on, x, e)
    ensures Group(t.rqOf[e]) !in on && e != Group(t.rqOf[e])
  {
  }

  /** The links of the groups after runqueue q changed to r and e came or went. */
  lemma LinksStay(t: Topo, rqs: Rqs, on: set<Ent>, x: set<Ent>, e: Ent, r: Rq, on': set<Ent>, x': set<Ent>)
    requires InvBut(t, rqs, on, x) && e in t.rqOf && AboveIsOff(t, on, x, e)
    requires on' == on + {e} || on' == on - {e}
    requires x <= x' + {e}
    requires e.Group? && e !in x' ==> e in on' && rqs[e.q].nr > 0 && !rqs[e.q].throttled
    ensures var rqs' := rqs[t.rqOf[e] := r];
      forall q {:trigger GroupLink(rqs', on', q)} :: q in rqs' && q != ROOT && Group(q) !in x' ==> GroupLink(rqs', on', q)
  {
    var rqs' := rqs[t.rqOf[e] := r];
    AboveNotOn(t, rqs, on, x, e);
    forall q | q in rqs' && q != ROOT && Group(q) !in x' ensures GroupLink(rqs', on', q) {
      if Group(q) != e {
        assert GroupLink(rqs, on, q);
      }
    }
  }

  lemma Reassemble(t: Topo, rqs: Rqs, on: set<Ent>, x: set<Ent>, q: nat, r: Rq, rqs': Rqs, on': set<Ent>, x': set<Ent>)
    requires InvBut(t, rqs, on, x) && q in rqs && r.Ok() && rqs' == rqs[q := r]
    requires Placed(t, rqs', on')
    requires forall q {:trigger GroupLink(rqs', on', q)} :: q in rqs' && q != ROOT && Group(q) !in x' ==> GroupLink(rqs', on', q)
    ensures InvBut(t, rqs', on', x')
  {
    forall q' {:trigger OkAt(rqs', q')} | q' in rqs' ensures OkAt(rqs', q') {
      assert q' != q ==> OkAt(rqs, q');
    }
  }

  /** Removing e leaves every other queued entity at the priority it was queued with. */
  lemma RemoveKeeps(t: Topo, rqs: Rqs, on: set<Ent>, x: set<Ent>, e: Ent, p: nat, r: Rq)
    requires InvBut(t, rqs, on, x) && e in on && e in t.rqOf && AboveIsOff(t, on, x, e) && e in x
    requires p == SePrio(t, rqs, e) && r.Ok()
    requires forall p', e' :: r.Has(p', e') <==> rqs[t.rqOf[e]].Has(p', e') && e' != e
    ensures InvBut(t, rqs[t.rqOf[e] := r], on - {e}, x)
  {
    var q := t.rqOf[e];
    AboveNotOn(t, rqs, on, x, e);
    RemovePlaced(t, rqs, on, e, r);
    LinksStay(t, rqs, on, x, e, r, on - {e}, x);
    Reassemble(t, rqs, on, x, q, r, rqs[q := r], on - {e}, x);
  }

  /** Adding e at its present priority does the same. */
  lemma AddKeeps(t: Topo, rqs: Rqs, on: set<Ent>, x: set<Ent>, e: Ent, p: nat, r: Rq)
    requires InvBut(t, rqs, on, x) && e !in on && e in t.rqOf && AboveIsOff(t, on, x, e)
    requires e.Group? ==> rqs[e.q].nr > 0 && !rqs[e.q].throttled
    requires p == SePrio(t, rqs, e) && r.Ok()
    requires forall p', e' :: r.Has(p', e') <==> rqs[t.rqOf[e]].Has(p', e') || (p' == p && e' == e)
    ensures InvBut(t, rqs[t.rqOf[e] := r], on + {e}, x - {e})
  {
    var q := t.rqOf[e];
    AboveNotOn(t, rqs, on, x, e);
    AddPlaced(t, rqs, on, e, r);
    LinksStay(t, rqs, on, x, e, r, on + {e}, x - {e});
    Reassemble(t, rqs, on, x, q, r, rqs[q := r], on + {e}, x - {e});
  }

  /** An entity that may be queued has a real priority. */
  lemma QueueablePrio(t: Topo, rqs: Rqs, on: set<Ent>, x: set<Ent>, e: Ent)
    requires InvBut(t, rqs, on, x) && e in t.rqOf
    requires e.Group? ==> rqs[e.q].nr > 0
    ensures SePrio(t, rqs, e) < MAX_RT_PRIO
  {
    if e.Group? {
      assert OkAt(rqs, e.q);
      RunningHasPrio(rqs[e.q]);
    }
  }

  /** A queue with something on it has a real highest priority. */
  lemma RunningHasPrio(q: Rq)
    requires q.Ok()
    ensures q.nr > 0 <==> q.curr < MAX_RT_PRIO
    ensures q.nr > 0 ==> q.queue[q.curr] != []
  {
    if q.curr < MAX_RT_PRIO {
      assert q.Has(q.curr, q.queue[q.curr][0]);
      assert q.queue[q.curr][0] in q.Members();
    }
    if q.nr > 0 {
      var e :| e in q.Members();
      var p := q.MemberIff(e);
      assert q.bitmap[p];
    }
  }

  lemma InvButMono(t: Topo, rqs: Rqs, on: set<Ent>, x: set<Ent>, y: set<Ent>)
    requires InvBut(t, rqs, on, x) && x <= y
    ensures InvBut(t, rqs, on, y)
  {
  }

  /** A group that must stay off is in order once it is off. */
  lemma SkipKeeps(t: Topo, rqs: Rqs, on: set<Ent>, x: set<Ent>, e: Ent)
    requires InvBut(t, rqs, on, x) && e !in on
    requires e.Group? && e.q in rqs ==> rqs[e.q].throttled || rqs[e.q].nr == 0
    ensures InvBut(t, rqs, on, x - {e})
  {
    forall q {:trigger GroupLink(rqs, on, q)} | q in rqs && q != ROOT && Group(q) !in x - {e}
      ensures GroupLink(rqs, on, q)
    {
    }
  }
}
