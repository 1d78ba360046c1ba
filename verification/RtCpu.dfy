/**
 The hierarchical enqueue and dequeue of sched_rt.c on the runqueues of one CPU, and the
 choice of the next task to run.
 */
module RtCpu {
  import opened Common
  import opened RtQueue
  import opened RtTree
  import opened RtPick

  // --- the chain of entities from a task or group up to the root ---

  ghost function Path(t: Topo, e: Ent): (r: seq<Ent>)
    requires t.Ok() && e in t.rqOf
    ensures |r| > 0 && r[0] == e
    ensures forall i :: 0 <= i < |r| ==> r[i] in t.rqOf
    decreases t.depth[t.rqOf[e]]
  {
    var q := t.rqOf[e];
    if q == ROOT then [e] else [e] + Path(t, Group(q))
  }

  lemma {:induction false} PathSteps(t: Topo, e: Ent, i: nat)
    requires t.Ok() && e in t.rqOf && i < |Path(t, e)|
    ensures var r := Path(t, e);
      && (if i + 1 < |r| then r[i + 1] == Group(t.rqOf[r[i]]) && t.rqOf[r[i]] != ROOT else t.rqOf[r[i]] == ROOT)
      && t.depth[t.rqOf[r[i]]] + i == t.depth[t.rqOf[e]]
    decreases t.depth[t.rqOf[e]]
  {
    var q := t.rqOf[e];
    if q != ROOT {
      var up := Path(t, Group(q));
      assert Path(t, e) == [e] + up;
      if i > 0 {
        PathSteps(t, Group(q), i - 1);
      }
    }
  }

  ghost function PathSet(t: Topo, e: Ent): set<Ent>
    requires t.Ok() && e in t.rqOf
  {
    set a | a in Path(t, e)
  }

  /** on is on0 without the chain from its i-th entity up. */
  ghost predicate OffFrom(path: seq<Ent>, i: nat, on0: set<Ent>, on: set<Ent>)
  {
    && on <= on0
    && (forall a :: a in on0 && a !in on ==> a in path)
    && (forall j :: i <= j < |path| ==> path[j] !in on)
  }

  lemma OffFromStep(path: seq<Ent>, i: nat, on0: set<Ent>, on: set<Ent>, on': set<Ent>)
    requires i < |path| && OffFrom(path, i + 1, on0, on) && on' == on - {path[i]}
    ensures OffFrom(path, i, on0, on')
  {
  }

  /** The part of the chain from its i-th entity up. */
  ghost function From(path: seq<Ent>, i: int): set<Ent>
    requires 0 <= i <= |path|
  {
    set a | a in path[i..]
  }

  lemma FromStep(path: seq<Ent>, i: nat)
    requires i < |path|
    ensures From(path, i) == From(path, i + 1) + {path[i]}
  {
    assert path[i..] == [path[i]] + path[i + 1..];
  }

  lemma PathDistinct(t: Topo, e: Ent, i: nat, j: nat)
    requires t.Ok() && e in t.rqOf && i < j < |Path(t, e)|
    ensures Path(t, e)[i] != Path(t, e)[j]
    ensures t.rqOf[Path(t, e)[i]] != t.rqOf[Path(t, e)[j]]
  {
    PathSteps(t, e, i);
    PathSteps(t, e, j);
  }

  ghost predicate BackAt(back: map<Ent, Option<Ent>>, path: seq<Ent>, i: nat)
    requires i < |path|
  {
    path[i] in back && back[path[i]] == if i == 0 then None else Some(path[i - 1])
  }

  /** Each entity of the first n of a chain points back to the one below it. */
  ghost predicate BackLinked(back: map<Ent, Option<Ent>>, path: seq<Ent>, n: nat)
    requires n <= |path|
  {
    forall i {:trigger BackAt(back, path, i)} :: 0 <= i < n ==> BackAt(back, path, i)
  }

  lemma BackLinkedStep(t: Topo, e: Ent, back: map<Ent, Option<Ent>>, i: nat, back': map<Ent, Option<Ent>>)
    requires t.Ok() && e in t.rqOf && i < |Path(t, e)|
    requires BackLinked(back, Path(t, e), i)
    requires back' == back[Path(t, e)[i] := if i == 0 then None else Some(Path(t, e)[i - 1])]
    ensures BackLinked(back', Path(t, e), i + 1)
  {
    var path := Path(t, e);
    forall j {:trigger BackAt(back', path, j)} | 0 <= j < i + 1 ensures BackAt(back', path, j) {
      if j < i {
        PathDistinct(t, e, j, i);
        assert BackAt(back, path, j);
      }
    }
  }

  // --- what an operation may not disturb ---

  /** Runqueue q keeps its throttle state, and on each list what is outside x, in its order. */
  ghost predicate OrderAt(rqs0: Rqs, rqs1: Rqs, x: set<Ent>, q: nat)
    requires q in rqs0 && q in rqs1
  {
    && rqs1[q].throttled == rqs0[q].throttled
    && |rqs1[q].queue| == |rqs0[q].queue|
    && forall p :: 0 <= p < |rqs0[q].queue| ==> SameOutside(rqs0[q].queue[p], rqs1[q].queue[p], x)
  }

  ghost predicate SameOrder(rqs0: Rqs, rqs1: Rqs, x: set<Ent>) {
    && rqs0.Keys == rqs1.Keys
    && forall q {:trigger OrderAt(rqs0, rqs1, x, q)} :: q in rqs0 ==> OrderAt(rqs0, rqs1, x, q)
  }

  lemma SameOrderTrans(rqs0: Rqs, rqs1: Rqs, rqs2: Rqs, x: set<Ent>)
    requires SameOrder(rqs0, rqs1, x) && SameOrder(rqs1, rqs2, x)
    ensures SameOrder(rqs0, rqs2, x)
  {
    forall q {:trigger OrderAt(rqs0, rqs2, x, q)} | q in rqs0 ensures OrderAt(rqs0, rqs2, x, q) {
      assert OrderAt(rqs0, rqs1, x, q) && OrderAt(rqs1, rqs2, x, q);
    }
  }

  lemma SameOrderRefl(rqs: Rqs, x: set<Ent>)
    ensures SameOrder(rqs, rqs, x)
  {
    forall q {:trigger OrderAt(rqs, rqs, x, q)} | q in rqs ensures OrderAt(rqs, rqs, x, q) {
    }
  }

  lemma RemovedOrder(rqs: Rqs, q: nat, e: Ent, p: nat, x: set<Ent>)
    requires q in rqs && rqs[q].Ok() && rqs[q].Has(p, e) && rqs[q].nr > 0 && e in x
    ensures SameOrder(rqs, rqs[q := Removed(rqs[q], e, p)], x)
  {
    var r := Removed(rqs[q], e, p);
    var rqs' := rqs[q := r];
    assert r.queue == Unlinked(rqs[q], e).queue;
    forall q' {:trigger OrderAt(rqs, rqs', x, q')} | q' in rqs ensures OrderAt(rqs, rqs', x, q') {
      forall p' | 0 <= p' < |rqs[q].queue| ensures SameOutside(rqs[q].queue[p'], r.queue[p'], x) {
        DropSame(rqs[q].queue[p'], {e}, x);
      }
    }
  }

  lemma AddedOrder(rqs: Rqs, q: nat, e: Ent, p: nat, head: bool, x: set<Ent>)
    requires q in rqs && rqs[q].Shape() && p < MAX_RT_PRIO && e in x
    ensures SameOrder(rqs, rqs[q := Added(rqs[q], e, p, head)], x)
  {
    var rqs' := rqs[q := Added(rqs[q], e, p, head)];
    forall q' {:trigger OrderAt(rqs, rqs', x, q')} | q' in rqs ensures OrderAt(rqs, rqs', x, q') {
      LinkedSame(rqs[q].queue[p], e, head, x);
    }
  }

  /** e is first (head) or last on the list of its priority. */
  ghost predicate AtEnd(t: Topo, rqs: Rqs, e: Ent, head: bool)
    requires WellKeyed(t, rqs) && e in t.rqOf
  {
    var q, p := rqs[t.rqOf[e]], SePrio(t, rqs, e);
    p < |q.queue| && q.queue[p] != [] && e == if head then q.queue[p][0] else q.queue[p][|q.queue[p]| - 1]
  }

  /** Only the runqueue of e may have changed, by e going to one end of its list. */
  ghost predicate Relinked(t: Topo, rqs: Rqs, rqs': Rqs, on': set<Ent>, e: Ent, head: bool, path: set<Ent>)
    requires WellKeyed(t, rqs) && e in t.rqOf
  {
    && SameOrder(rqs, rqs', path)
    && (forall q :: q in rqs && q != t.rqOf[e] ==> rqs'[q] == rqs[q])
    && (e in on' ==> AtEnd(t, rqs', e, head))
  }

  /** Top-down dequeueing has dealt with the chain from its i-th entity up. */
  ghost predicate Unstacking(t: Topo, e: Ent, rqs0: Rqs, on0: set<Ent>, rqs: Rqs, on: set<Ent>, i: nat) {
    && t.Ok() && e in t.rqOf && i <= |Path(t, e)|
    && InvBut(t, rqs, on, PathSet(t, e))
    && OffFrom(Path(t, e), i, on0, on)
    && SameOrder(rqs0, rqs, PathSet(t, e))
  }

  lemma UnstackStart(t: Topo, e: Ent, rqs: Rqs, on: set<Ent>)
    requires InvBut(t, rqs, on, {e}) && e in t.rqOf
    ensures Unstacking(t, e, rqs, on, rqs, on, |Path(t, e)|)
  {
    SameOrderRefl(rqs, PathSet(t, e));
    InvButMono(t, rqs, on, {e}, PathSet(t, e));
  }

  lemma UnstackEnd(t: Topo, e: Ent, rqs0: Rqs, on0: set<Ent>, rqs: Rqs, on: set<Ent>)
    requires Unstacking(t, e, rqs0, on0, rqs, on, 0)
    ensures on == on0 - PathSet(t, e)
  {
  }

  /** Bottom-up requeueing has dealt with the first i entities of the chain. */
  ghost predicate Rebuilding(t: Topo, e: Ent, head: bool, rqs0: Rqs, on0: set<Ent>, rqs: Rqs, on: set<Ent>, i: nat) {
    && WellKeyed(t, rqs) && e in t.rqOf && i <= |Path(t, e)|
    && InvBut(t, rqs, on, From(Path(t, e), i))
    && (forall j :: i <= j < |Path(t, e)| ==> Path(t, e)[j] !in on)
    && on - PathSet(t, e) == on0 - PathSet(t, e)
    && SameOrder(rqs0, rqs, PathSet(t, e))
    && forall j :: 0 <= j < i && Path(t, e)[j] in on ==> AtEnd(t, rqs, Path(t, e)[j], head)
  }

  lemma AtEndStays(t: Topo, a: Ent, q: nat, rqs: Rqs, rqs': Rqs, head: bool)
    requires WellKeyed(t, rqs) && WellKeyed(t, rqs') && a in t.rqOf
    requires q != t.rqOf[a] && a != Group(q)
    requires forall q' :: q' in rqs && q' != q ==> rqs'[q'] == rqs[q']
    requires AtEnd(t, rqs, a, head)
    ensures AtEnd(t, rqs', a, head)
  {
    assert SePrio(t, rqs', a) == SePrio(t, rqs, a);
  }

  /** An entity lower in the chain neither sits on a runqueue further up nor stands for it. */
  lemma PathApart(t: Topo, e: Ent, j: nat, i: nat)
    requires t.Ok() && e in t.rqOf && j < i < |Path(t, e)|
    ensures t.rqOf[Path(t, e)[j]] != t.rqOf[Path(t, e)[i]]
    ensures Path(t, e)[j] != Group(t.rqOf[Path(t, e)[i]])
  {
    PathSteps(t, e, i);
    PathSteps(t, e, j);
    if Path(t, e)[j].Group? {
      assert t.depth[Path(t, e)[j].q] == t.depth[t.rqOf[Path(t, e)[j]]] + 1;
    }
  }

  lemma RebuildStep(t: Topo, e: Ent, head: bool, rqs0: Rqs, on0: set<Ent>,
                    rqs: Rqs, on: set<Ent>, rqs': Rqs, on': set<Ent>, i: nat)
    requires Rebuilding(t, e, head, rqs0, on0, rqs, on, i) && i < |Path(t, e)|
    requires var a := Path(t, e)[i];
      && InvBut(t, rqs', on', From(Path(t, e), i) - {a})
      && (on' == on || on' == on + {a})
      && Relinked(t, rqs, rqs', on', a, head, PathSet(t, e))
    ensures Rebuilding(t, e, head, rqs0, on0, rqs', on', i + 1)
  {
    var path := Path(t, e);
    SameOrderTrans(rqs0, rqs, rqs', PathSet(t, e));
    FromMinus(t, e, i);
    forall j | i < j < |path| ensures path[j] !in on' {
      PathDistinct(t, e, i, j);
    }
    forall j | 0 <= j < i + 1 && path[j] in on' ensures AtEnd(t, rqs', path[j], head) {
      if j < i {
        PathDistinct(t, e, j, i);
        PathApart(t, e, j, i);
        AtEndStays(t, path[j], t.rqOf[path[i]], rqs, rqs', head);
      }
    }
  }

  lemma RebuildSkip(t: Topo, e: Ent, head: bool, rqs0: Rqs, on0: set<Ent>, rqs: Rqs, on: set<Ent>, i: nat)
    requires Rebuilding(t, e, head, rqs0, on0, rqs, on, i) && i < |Path(t, e)|
    requires var a := Path(t, e)[i]; a.Group? && a.q in rqs ==> rqs[a.q].nr == 0
    ensures Rebuilding(t, e, head, rqs0, on0, rqs, on, i + 1)
  {
    var a := Path(t, e)[i];
    SkipKeeps(t, rqs, on, From(Path(t, e), i), a);
    SameOrderRefl(rqs, PathSet(t, e));
    RebuildStep(t, e, head, rqs0, on0, rqs, on, rqs, on, i);
  }

  lemma FromMinus(t: Topo, e: Ent, i: nat)
    requires t.Ok() && e in t.rqOf && i < |Path(t, e)|
    ensures From(Path(t, e), i) - {Path(t, e)[i]} == From(Path(t, e), i + 1)
  {
    FromStep(Path(t, e), i);
    forall j | i < j < |Path(t, e)| ensures Path(t, e)[j] != Path(t, e)[i] {
      PathDistinct(t, e, i, j);
    }
  }

  /** The chain is off: requeueing can start. */
  lemma RebuildStart(t: Topo, e: Ent, head: bool, rqs0: Rqs, on0: set<Ent>, rqs: Rqs, on: set<Ent>)
    requires t.Ok() && e in t.rqOf && InvBut(t, rqs, on, PathSet(t, e)) && on == on0 - PathSet(t, e)
    requires SameOrder(rqs0, rqs, PathSet(t, e))
    ensures Rebuilding(t, e, head, rqs0, on0, rqs, on, 0)
  {
    assert Path(t, e)[0..] == Path(t, e);
  }

  lemma RebuildEnd(t: Topo, e: Ent, head: bool, rqs0: Rqs, on0: set<Ent>, rqs: Rqs, on: set<Ent>)
    requires e in t.rqOf && WellKeyed(t, rqs) && Rebuilding(t, e, head, rqs0, on0, rqs, on, |Path(t, e)|)
    ensures Inv(t, rqs, on)
    ensures Requeued(t, e, head, rqs0, on0, rqs, on)
  {
    assert From(Path(t, e), |Path(t, e)|) == {};
  }

  /** Off the chain nothing moved; on the chain, what is queued is at the end asked for. */
  ghost predicate Requeued(t: Topo, e: Ent, head: bool, rqs0: Rqs, on0: set<Ent>, rqs: Rqs, on: set<Ent>)
    requires WellKeyed(t, rqs) && e in t.rqOf
  {
    && SameOrder(rqs0, rqs, PathSet(t, e))
    && on - PathSet(t, e) == on0 - PathSet(t, e)
    && forall a :: a in Path(t, e) && a in on ==> AtEnd(t, rqs, a, head)
  }

  /** What taking e off its queue, as the source does, leaves behind. */
  lemma DequeueFacts(t: Topo, rqs: Rqs, on: set<Ent>, x: set<Ent>, e: Ent)
    requires InvBut(t, rqs, on, x) && e in on && e in t.rqOf && AboveIsOff(t, on, x, e) && e in x
    ensures var q, p := t.rqOf[e], SePrio(t, rqs, e);
      && rqs[q].Ok() && rqs[q].Has(p, e) && rqs[q].nr > 0 && rqs[q].curr <= p
      && InvBut(t, rqs[q := Removed(rqs[q], e, p)], on - {e}, x)
      && SameOrder(rqs, rqs[q := Removed(rqs[q], e, p)], x)
  {
    var q, p := t.rqOf[e], SePrio(t, rqs, e);
    assert OkAt(rqs, q) && rqs[q].Has(p, e);
    RemovedOk(rqs[q], e, p);
    RemovedMembers(rqs[q], e, p);
    RemovedOrder(rqs, q, e, p, x);
    RemoveKeeps(t, rqs, on, x, e, p, Removed(rqs[q], e, p));
  }

  /** What putting e on its queue leaves behind. */
  lemma EnqueueFacts(t: Topo, rqs: Rqs, on: set<Ent>, x: set<Ent>, e: Ent, head: bool, path: set<Ent>)
    requires InvBut(t, rqs, on, x) && e !in on && e in t.rqOf && AboveIsOff(t, on, x, e) && e in path
    requires e.Group? ==> rqs[e.q].nr > 0 && !rqs[e.q].throttled
    ensures var q, p := t.rqOf[e], SePrio(t, rqs, e);
      && rqs[q].Shape() && p < MAX_RT_PRIO
      && InvBut(t, rqs[q := Added(rqs[q], e, p, head)], on + {e}, x - {e})
      && Relinked(t, rqs, rqs[q := Added(rqs[q], e, p, head)], on + {e}, e, head, path)
  {
    var q, p := t.rqOf[e], SePrio(t, rqs, e);
    AddedKeeps(t, rqs, on, x, e, head);
    AddedOrder(rqs, q, e, p, head, path);
    AddedAtEnd(t, rqs, e, head);
  }

  lemma AddedKeeps(t: Topo, rqs: Rqs, on: set<Ent>, x: set<Ent>, e: Ent, head: bool)
    requires InvBut(t, rqs, on, x) && e !in on && e in t.rqOf && AboveIsOff(t, on, x, e)
    requires e.Group? ==> rqs[e.q].nr > 0 && !rqs[e.q].throttled
    ensures var q, p := t.rqOf[e], SePrio(t, rqs, e);
      && rqs[q].Shape() && p < MAX_RT_PRIO
      && InvBut(t, rqs[q := Added(rqs[q], e, p, head)], on + {e}, x - {e})
  {
    var q, p := t.rqOf[e], SePrio(t, rqs, e);
    assert OkAt(rqs, q);
    QueueablePrio(t, rqs, on, x, e);
    OnMeansMember(t, rqs, on, e);
    AddedOk(rqs[q], e, p, head);
    AddedMembers(rqs[q], e, p, head);
    AddKeeps(t, rqs, on, x, e, p, Added(rqs[q], e, p, head));
  }

  lemma AddedAtEnd(t: Topo, rqs: Rqs, e: Ent, head: bool)
    requires WellKeyed(t, rqs) && e in t.rqOf && SePrio(t, rqs, e) < MAX_RT_PRIO && rqs[t.rqOf[e]].Shape()
    ensures AtEnd(t, rqs[t.rqOf[e] := Added(rqs[t.rqOf[e]], e, SePrio(t, rqs, e), head)], e, head)
  {
    var rqs' := rqs[t.rqOf[e] := Added(rqs[t.rqOf[e]], e, SePrio(t, rqs, e), head)];
    assert SePrio(t, rqs', e) == SePrio(t, rqs, e);
  }

  /** Moving e within its list changes no membership, priority or link. */
  lemma MoveFacts(t: Topo, rqs: Rqs, on: set<Ent>, e: Ent, head: bool, path: set<Ent>)
    requires Inv(t, rqs, on) && e in on && e in path
    ensures e in t.rqOf && SePrio(t, rqs, e) < |rqs[t.rqOf[e]].queue|
    ensures var rqs' := rqs[t.rqOf[e] := Moved(rqs[t.rqOf[e]], e, SePrio(t, rqs, e), head)];
      Inv(t, rqs', on) && Relinked(t, rqs, rqs', on, e, head, path)
  {
    var q, p := t.rqOf[e], SePrio(t, rqs, e);
    MovedKeeps(t, rqs, on, e, head);
    MovedOrder(rqs, q, e, p, head, path);
    MovedAtEnd(t, rqs, e, head);
  }

  lemma MovedKeeps(t: Topo, rqs: Rqs, on: set<Ent>, e: Ent, head: bool)
    requires Inv(t, rqs, on) && e in on
    ensures e in t.rqOf && SePrio(t, rqs, e) < |rqs[t.rqOf[e]].queue|
    ensures Inv(t, rqs[t.rqOf[e] := Moved(rqs[t.rqOf[e]], e, SePrio(t, rqs, e), head)], on)
  {
    var q, p := t.rqOf[e], SePrio(t, rqs, e);
    assert OkAt(rqs, q) && rqs[q].Has(p, e);
    MovedOk(rqs[q], e, p, head);
    MovedInv(t, rqs, on, q, Moved(rqs[q], e, p, head));
  }

  lemma MovedAtEnd(t: Topo, rqs: Rqs, e: Ent, head: bool)
    requires WellKeyed(t, rqs) && e in t.rqOf && SePrio(t, rqs, e) < |rqs[t.rqOf[e]].queue|
    ensures AtEnd(t, rqs[t.rqOf[e] := Moved(rqs[t.rqOf[e]], e, SePrio(t, rqs, e), head)], e, head)
  {
    var rqs' := rqs[t.rqOf[e] := Moved(rqs[t.rqOf[e]], e, SePrio(t, rqs, e), head)];
    assert SePrio(t, rqs', e) == SePrio(t, rqs, e);
  }

  lemma MovedInv(t: Topo, rqs: Rqs, on: set<Ent>, q: nat, r: Rq)
    requires Inv(t, rqs, on) && q in rqs && r.Ok() && r == rqs[q].(queue := r.queue)
    requires forall p, e :: r.Has(p, e) <==> rqs[q].Has(p, e)
    ensures Inv(t, rqs[q := r], on)
  {
    var rqs' := rqs[q := r];
    MovedPlaced(t, rqs, on, q, r);
    forall q' {:trigger OkAt(rqs', q')} | q' in rqs' ensures OkAt(rqs', q') {
      assert q' != q ==> OkAt(rqs, q');
    }
    forall q' {:trigger GroupLink(rqs', on, q')} | q' in rqs' && q' != ROOT ensures GroupLink(rqs', on, q') {
      assert GroupLink(rqs, on, q');
    }
  }

  lemma MovedPlaced(t: Topo, rqs: Rqs, on: set<Ent>, q: nat, r: Rq)
    requires WellKeyed(t, rqs) && Placed(t, rqs, on) && q in rqs && r == rqs[q].(queue := r.queue)
    requires forall p, e :: r.Has(p, e) <==> rqs[q].Has(p, e)
    ensures Placed(t, rqs[q := r], on)
  {
    var rqs' := rqs[q := r];
    forall e | e in on ensures rqs'[t.rqOf[e]].Has(SePrio(t, rqs', e), e) {
      assert SePrio(t, rqs', e) == SePrio(t, rqs, e);
    }
    forall q', p, e | q' in rqs' && rqs'[q'].Has(p, e) ensures e in on && t.rqOf[e] == q' && p == SePrio(t, rqs', e) {
      assert rqs[q'].Has(p, e);
    }
  }

  lemma MovedOrder(rqs: Rqs, q: nat, e: Ent, p: nat, head: bool, x: set<Ent>)
    requires q in rqs && p < |rqs[q].queue| && e in x
    ensures SameOrder(rqs, rqs[q := Moved(rqs[q], e, p, head)], x)
  {
    var rqs' := rqs[q := Moved(rqs[q], e, p, head)];
    forall q' {:trigger OrderAt(rqs, rqs', x, q')} | q' in rqs ensures OrderAt(rqs, rqs', x, q') {
      LinkedSame(Drop(rqs[q].queue[p], {e}), e, head, x);
      DropSame(rqs[q].queue[p], {e}, x);
    }
  }

  /** requeue_task_rt has dealt with the first i entities of the chain. */
  ghost predicate Requeueing(t: Topo, e: Ent, head: bool, rqs0: Rqs, rqs: Rqs, on: set<Ent>, i: nat) {
    && Inv(t, rqs, on) && e in t.rqOf && i <= |Path(t, e)|
    && SameOrder(rqs0, rqs, PathSet(t, e))
    && forall j :: 0 <= j < i && Path(t, e)[j] in on ==> AtEnd(t, rqs, Path(t, e)[j], head)
  }

  lemma RequeueStep(t: Topo, e: Ent, head: bool, rqs0: Rqs, rqs: Rqs, on: set<Ent>, rqs': Rqs, i: nat)
    requires Requeueing(t, e, head, rqs0, rqs, on, i) && i < |Path(t, e)| && Inv(t, rqs', on)
    requires Relinked(t, rqs, rqs', on, Path(t, e)[i], head, PathSet(t, e))
    ensures Requeueing(t, e, head, rqs0, rqs', on, i + 1)
  {
    SameOrderTrans(rqs0, rqs, rqs', PathSet(t, e));
    LowersStay(t, e, head, rqs, rqs', on, i);
  }

  lemma LowersStay(t: Topo, e: Ent, head: bool, rqs: Rqs, rqs': Rqs, on: set<Ent>, i: nat)
    requires WellKeyed(t, rqs) && WellKeyed(t, rqs') && e in t.rqOf && i < |Path(t, e)|
    requires forall j :: 0 <= j < i && Path(t, e)[j] in on ==> AtEnd(t, rqs, Path(t, e)[j], head)
    requires Relinked(t, rqs, rqs', on, Path(t, e)[i], head, PathSet(t, e))
    ensures forall j :: 0 <= j < i + 1 && Path(t, e)[j] in on ==> AtEnd(t, rqs', Path(t, e)[j], head)
  {
    forall j | 0 <= j < i && Path(t, e)[j] in on ensures AtEnd(t, rqs', Path(t, e)[j], head) {
      LowerStays(t, e, j, i, rqs, rqs', head);
    }
  }

  lemma LowerStays(t: Topo, e: Ent, j: nat, i: nat, rqs: Rqs, rqs': Rqs, head: bool)
    requires WellKeyed(t, rqs) && WellKeyed(t, rqs') && e in t.rqOf && j < i < |Path(t, e)|
    requires forall q :: q in rqs && q != t.rqOf[Path(t, e)[i]] ==> rqs'[q] == rqs[q]
    requires AtEnd(t, rqs, Path(t, e)[j], head)
    ensures AtEnd(t, rqs', Path(t, e)[j], head)
  {
    PathApart(t, e, j, i);
    AtEndStays(t, Path(t, e)[j], t.rqOf[Path(t, e)[i]], rqs, rqs', head);
  }

  ghost function Tasks(on: set<Ent>): set<nat> {
    set e | e in on && e.Task? :: e.id
  }

  /** Above its first entity a chain holds only groups, so only that one task can come or go. */
  lemma PathTasks(t: Topo, e: Ent, on0: set<Ent>, on: set<Ent>)
    requires t.Ok() && e in t.rqOf && on - PathSet(t, e) == on0 - PathSet(t, e)
    ensures e.Group? ==> Tasks(on) == Tasks(on0)
    ensures e.Task? && e in on ==> Tasks(on) == Tasks(on0) + {e.id}
    ensures e.Task? && e !in on ==> Tasks(on) == Tasks(on0) - {e.id}
  {
    forall p | Task(p) in PathSet(t, e) ensures Task(p) == e {
      var i :| 0 <= i < |Path(t, e)| && Path(t, e)[i] == Task(p);
      if i > 0 { PathSteps(t, e, i - 1); }
    }
    forall p | Task(p) != e ensures Task(p) in on <==> Task(p) in on0 {
      assert Task(p) in on - PathSet(t, e) <==> Task(p) in on0 - PathSet(t, e);
    }
    forall p ensures p in Tasks(on) <==> Task(p) in on {
      assert Task(p).id == p;
    }
    forall p ensures p in Tasks(on0) <==> Task(p) in on0 {
      assert Task(p).id == p;
    }
  }

  /** What throttling or unthrottling q may move: the entities from q's own up. */
  ghost function GroupPath(t: Topo, q: nat): set<Ent>
    requires t.Ok() && q in t.rqs
  {
    if q == ROOT then {} else PathSet(t, Group(q))
  }

  lemma ThrottleKeeps(t: Topo, rqs: Rqs, on: set<Ent>, q: nat, throttled: bool)
    requires Inv(t, rqs, on) && q in rqs
    ensures InvBut(t, rqs[q := rqs[q].(throttled := throttled)], on, {Group(q)})
  {
    var r := rqs[q].(throttled := throttled);
    var rqs' := rqs[q := r];
    assert OkAt(rqs, q);
    ThrottleOk(rqs[q], throttled);
    forall q' {:trigger OkAt(rqs', q')} | q' in rqs' ensures OkAt(rqs', q') {
      assert q' != q ==> OkAt(rqs, q');
    }
    ThrottlePlaced(t, rqs, on, q, r);
    forall q' {:trigger GroupLink(rqs', on, q')} | q' in rqs' && q' != ROOT && Group(q') !in {Group(q)}
      ensures GroupLink(rqs', on, q')
    {
      assert GroupLink(rqs, on, q');
    }
  }

  lemma ThrottleOk(q: Rq, throttled: bool)
    requires q.Ok()
    ensures q.(throttled := throttled).Ok()
  {
    var r := q.(throttled := throttled);
    assert forall p, e :: r.Has(p, e) <==> q.Has(p, e);
    assert r.Members() == q.Members();
  }

  lemma ThrottlePlaced(t: Topo, rqs: Rqs, on: set<Ent>, q: nat, r: Rq)
    requires WellKeyed(t, rqs) && Placed(t, rqs, on) && q in rqs && r == rqs[q].(throttled := r.throttled)
    ensures Placed(t, rqs[q := r], on)
  {
    var rqs' := rqs[q := r];
    forall e | e in on ensures rqs'[t.rqOf[e]].Has(SePrio(t, rqs', e), e) {
      assert SePrio(t, rqs', e) == SePrio(t, rqs, e);
    }
    forall q', p, e | q' in rqs' && rqs'[q'].Has(p, e) ensures e in on && t.rqOf[e] == q' && p == SePrio(t, rqs', e) {
      assert rqs[q'].Has(p, e);
    }
  }

  lemma EmptyInv(t: Topo, rqs: Rqs)
    requires t.Ok() && rqs == map q | q in t.rqs :: EmptyRq()
    ensures Inv(t, rqs, {})
  {
    forall q {:trigger OkAt(rqs, q)} | q in rqs ensures OkAt(rqs, q) && forall p, e :: !rqs[q].Has(p, e) {
      forall p, e ensures !rqs[q].Has(p, e) {
        var p' := EmptyRq().MemberIff(e);
      }
    }
  }

  /** The root has no entity, so its throttle state links to nothing. */
  lemma RootLink(t: Topo, rqs: Rqs, on: set<Ent>)
    requires InvBut(t, rqs, on, {Group(ROOT)})
    ensures Inv(t, rqs, on)
  {
  }

  lemma LinkRestored(t: Topo, rqs: Rqs, on: set<Ent>, q: nat)
    requires InvBut(t, rqs, on, {Group(q)}) && q in rqs && GroupLink(rqs, on, q)
    ensures Inv(t, rqs, on)
  {
  }

  class RtCpu {
    const topo: Topo
    var rqs: map<nat, Rq>
    var on: set<Ent>                   // on_rt_rq: run_list is non-empty
    var back: map<Ent, Option<Ent>>    // rt_se->back

    ghost predicate Valid()
      reads this
    {
      Inv(topo, rqs, on)
    }

    /** All runqueues empty and unthrottled, as init_rt_rq leaves them. */
    constructor (topo: Topo)
      requires topo.Ok()
      ensures Valid() && this.topo == topo && on == {}
    {
      this.topo := topo;
      rqs := map q | q in topo.rqs :: EmptyRq();
      on, back := {}, map[];
      new;
      EmptyInv(topo, rqs);
    }

    /** __dequeue_rt_entity. */
    method DequeueOne(e: Ent, ghost x: set<Ent>)
      requires InvBut(topo, rqs, on, x) && e in on && e in topo.rqOf && AboveIsOff(topo, on, x, e) && e in x
      modifies `rqs, `on
      ensures InvBut(topo, rqs, on, x) && on == old(on) - {e}
      ensures SameOrder(old(rqs), rqs, x)
    {
      var q := topo.rqOf[e];
      DequeueFacts(topo, rqs, on, x, e);
      var rq := ListDel(rqs[q], e, SePrio(topo, rqs, e));
      rqs, on := rqs[q := rq], on - {e};
    }

    /** The field updates of __dequeue_rt_entity and dec_rt_prio. */
    static method ListDel(rq0: Rq, e: Ent, prio: nat) returns (rq: Rq)
      requires rq0.Shape() && rq0.bitmap[MAX_RT_PRIO] && prio < MAX_RT_PRIO && 0 < rq0.nr && rq0.curr <= prio
      ensures rq == Removed(rq0, e, prio)
    {
      rq := Unlinked(rq0, e);
      if rq.queue[prio] == [] {
        rq := rq.(bitmap := rq.bitmap[prio := false]);
      }
      rq := rq.(nr := rq.nr - 1);
      if rq.nr > 0 {
        assert !(prio < rq.curr);  // WARN_ON
        if prio == rq.curr {
          assert rq.bitmap[MAX_RT_PRIO];
          rq := rq.(curr := FirstBit(rq.bitmap, 0));
        }
      } else {
        rq := rq.(curr := MAX_RT_PRIO);
      }
    }

    /** __enqueue_rt_entity: a throttled or empty group stays off. */
    method EnqueueOne(e: Ent, head: bool, ghost x: set<Ent>, ghost path: set<Ent>)
      requires InvBut(topo, rqs, on, x) && e !in on && e in topo.rqOf && AboveIsOff(topo, on, x, e) && e in path
      modifies `rqs, `on
      ensures InvBut(topo, rqs, on, x - {e})
      ensures on == if e.Group? && (old(rqs)[e.q].throttled || old(rqs)[e.q].nr == 0) then old(on) else old(on) + {e}
      ensures Relinked(topo, old(rqs), rqs, on, e, head, path)
    {
      if e.Group? && (rqs[e.q].throttled || rqs[e.q].nr == 0) {
        SameOrderRefl(rqs, path);
        SkipKeeps(topo, rqs, on, x, e);
        return;
      }
      var q := topo.rqOf[e];
      EnqueueFacts(topo, rqs, on, x, e, head, path);
      var rq := ListAdd(rqs[q], e, SePrio(topo, rqs, e), head);
      rqs, on := rqs[q := rq], on + {e};
    }

    /** The field updates of __enqueue_rt_entity and inc_rt_prio. */
    static method ListAdd(rq0: Rq, e: Ent, prio: nat, head: bool) returns (rq: Rq)
      requires rq0.Shape() && prio < MAX_RT_PRIO
      ensures rq == Added(rq0, e, prio, head)
    {
      rq := rq0.(queue := rq0.queue[prio := Linked(rq0.queue[prio], e, head)]);
      rq := rq.(bitmap := rq.bitmap[prio := true]);
      rq := rq.(nr := rq.nr + 1);
      if prio < rq.curr {
        rq := rq.(curr := prio);
      }
    }

    /** The first loop of dequeue_rt_stack: each entity's back pointer is the one below it. */
    method LinkBack(e: Ent) returns (top: Ent)
      requires WellKeyed(topo, rqs) && e in topo.rqOf
      modifies `back
      ensures BackLinked(back, Path(topo, e), |Path(topo, e)|) && top == Path(topo, e)[|Path(topo, e)| - 1]
    {
      ghost var path := Path(topo, e);
      var bk: Option<Ent> := None;
      var se := Some(e);
      ghost var i := 0;
      while se.Some?
        invariant 0 <= i <= |path|
        invariant se == (if i < |path| then Some(path[i]) else None)
        invariant bk == (if i == 0 then None else Some(path[i - 1]))
        invariant BackLinked(back, path, i)
        decreases |path| - i
      {
        PathSteps(topo, e, i);
        ghost var back0 := back;
        back := back[se.value := bk];
        BackLinkedStep(topo, e, back0, i, back);
        bk := se;
        var q := topo.rqOf[se.value];
        se := if q == ROOT then None else Some(Group(q));
        i := i + 1;
      }
      top := bk.value;
    }

    /** dequeue_rt_stack: link the chain through back, then take it off from the top down. */
    method DequeueStack(e: Ent)
      requires InvBut(topo, rqs, on, {e}) && e in topo.rqOf
      modifies this
      ensures InvBut(topo, rqs, on, PathSet(topo, e)) && on == old(on) - PathSet(topo, e)
      ensures SameOrder(old(rqs), rqs, PathSet(topo, e))
    {
      ghost var path, rqs0, on0 := Path(topo, e), rqs, on;
      UnstackStart(topo, e, rqs, on);
      var top := LinkBack(e);
      var se := Some(top);
      ghost var i := |path|;
      while se.Some?
        invariant 0 <= i <= |path| && se == (if i == 0 then None else Some(path[i - 1]))
        invariant Unstacking(topo, e, rqs0, on0, rqs, on, i)
        invariant BackLinked(back, path, |path|)
        decreases i
      {
        i := i - 1;
        se := UnstackNext(se.value, e, i, rqs0, on0);
      }
      UnstackEnd(topo, e, rqs0, on0, rqs, on);
    }

    /** One round of the top-down loop over the chain of e. */
    method UnstackNext(se: Ent, ghost e: Ent, ghost i: nat, ghost rqs0: Rqs, ghost on0: set<Ent>) returns (next: Option<Ent>)
      requires Unstacking(topo, e, rqs0, on0, rqs, on, i + 1) && se == Path(topo, e)[i]
      requires BackLinked(back, Path(topo, e), |Path(topo, e)|)
      modifies `rqs, `on
      ensures Unstacking(topo, e, rqs0, on0, rqs, on, i)
      ensures next == if i == 0 then None else Some(Path(topo, e)[i - 1])
    {
      ghost var all, rqs1, on1 := PathSet(topo, e), rqs, on;
      PathSteps(topo, e, i);
      if se in on {
        DequeueOne(se, all);
        SameOrderTrans(rqs0, rqs1, rqs, all);
      }
      OffFromStep(Path(topo, e), i, on0, on1, on);
      assert BackAt(back, Path(topo, e), i);
      next := back[se];
    }

    /** One round of the bottom-up loop over the chain of e. */
    method RequeueNext(se: Ent, head: bool, ghost e: Ent, ghost i: nat, ghost rqs0: Rqs, ghost on0: set<Ent>)
      requires Rebuilding(topo, e, head, rqs0, on0, rqs, on, i) && i < |Path(topo, e)| && se == Path(topo, e)[i]
      modifies `rqs, `on
      ensures Rebuilding(topo, e, head, rqs0, on0, rqs, on, i + 1)
      ensures forall a :: a != se ==> (a in on <==> a in old(on))
      ensures se.Task? ==> se in on
    {
      ghost var path := Path(topo, e);
      PathSteps(topo, e, i);
      EnqueueOne(se, head, From(path, i), PathSet(topo, e));
      RebuildStep(topo, e, head, rqs0, on0, old(rqs), old(on), rqs, on, i);
    }

    /** enqueue_rt_entity. */
    method EnqueueEntity(e: Ent, head: bool)
      requires InvBut(topo, rqs, on, {e}) && e in topo.rqOf
      modifies this
      ensures Valid() && Requeued(topo, e, head, old(rqs), old(on), rqs, on)
      ensures e.Task? ==> e in on
    {
      ghost var path := Path(topo, e);
      DequeueStack(e);
      RebuildStart(topo, e, head, old(rqs), old(on), rqs, on);
      var se := Some(e);
      ghost var i := 0;
      while se.Some?
        invariant 0 <= i <= |path| && se == (if i < |path| then Some(path[i]) else None)
        invariant Rebuilding(topo, e, head, old(rqs), old(on), rqs, on, i)
        invariant e.Task? && i > 0 ==> e in on
        decreases |path| - i
      {
        PathSteps(topo, e, i);
        RequeueNext(se.value, head, e, i, old(rqs), old(on));
        se := Parent(se.value);
        i := i + 1;
      }
      RebuildEnd(topo, e, head, old(rqs), old(on), rqs, on);
    }

    /** rt_se->parent. */
    function Parent(e: Ent): Option<Ent>
      requires e in topo.rqOf
    {
      if topo.rqOf[e] == ROOT then None else Some(Group(topo.rqOf[e]))
    }

    /** dequeue_rt_entity: groups above that still have something queued go back on. */
    method DequeueEntity(e: Ent)
      requires InvBut(topo, rqs, on, {e}) && e in topo.rqOf
      modifies this
      ensures Valid() && Requeued(topo, e, false, old(rqs), old(on), rqs, on)
      ensures e.Task? ==> e !in on
    {
      ghost var path, rqs0, on0 := Path(topo, e), rqs, on;
      DequeueStack(e);
      RebuildStart(topo, e, false, rqs0, on0, rqs, on);
      var se := Some(e);
      ghost var i := 0;
      while se.Some?
        invariant 0 <= i <= |path| && se == (if i < |path| then Some(path[i]) else None)
        invariant Rebuilding(topo, e, false, rqs0, on0, rqs, on, i)
        invariant e.Task? ==> e !in on
        decreases |path| - i
      {
        se := ReenqueueNext(se.value, e, i, rqs0, on0);
        i := i + 1;
      }
      RebuildEnd(topo, e, false, rqs0, on0, rqs, on);
    }

    /** One round of it. */
    method ReenqueueNext(se: Ent, ghost e: Ent, ghost i: nat, ghost rqs0: Rqs, ghost on0: set<Ent>) returns (next: Option<Ent>)
      requires Rebuilding(topo, e, false, rqs0, on0, rqs, on, i) && i < |Path(topo, e)| && se == Path(topo, e)[i]
      modifies `rqs, `on
      ensures Rebuilding(topo, e, false, rqs0, on0, rqs, on, i + 1)
      ensures forall a: Ent :: a.Task? ==> (a in on <==> a in old(on))
      ensures next == if i + 1 < |Path(topo, e)| then Some(Path(topo, e)[i + 1]) else None
    {
      PathSteps(topo, e, i);
      if se.Group? && rqs[se.q].nr > 0 {
        RequeueNext(se, false, e, i, rqs0, on0);
      } else {
        RebuildSkip(topo, e, false, rqs0, on0, rqs, on, i);
      }
      next := Parent(se);
    }

    // --- the operations that drive the hierarchy ---

    /** enqueue_task_rt. */
    method EnqueueTask(p: nat, head: bool)
      requires Valid() && Task(p) in topo.rqOf
      modifies this
      ensures Valid() && Requeued(topo, Task(p), head, old(rqs), old(on), rqs, on)
      ensures Tasks(on) == Tasks(old(on)) + {p}
    {
      InvButMono(topo, rqs, on, {}, {Task(p)});
      EnqueueEntity(Task(p), head);
      PathTasks(topo, Task(p), old(on), on);
    }

    /** dequeue_task_rt. */
    method DequeueTask(p: nat)
      requires Valid() && Task(p) in topo.rqOf
      modifies this
      ensures Valid() && Requeued(topo, Task(p), false, old(rqs), old(on), rqs, on)
      ensures Tasks(on) == Tasks(old(on)) - {p}
    {
      InvButMono(topo, rqs, on, {}, {Task(p)});
      DequeueEntity(Task(p));
      PathTasks(topo, Task(p), old(on), on);
    }

    /** requeue_task_rt: every queued entity of the task's chain goes to one end of its list. */
    method RequeueTask(p: nat, head: bool)
      requires Valid() && Task(p) in topo.rqOf
      modifies `rqs
      ensures Valid() && Requeued(topo, Task(p), head, old(rqs), on, rqs, on)
    {
      ghost var e, rqs0 := Task(p), rqs;
      SameOrderRefl(rqs, PathSet(topo, e));
      var se := Some(Task(p));
      ghost var i := 0;
      while se.Some?
        invariant 0 <= i <= |Path(topo, e)| && se == (if i < |Path(topo, e)| then Some(Path(topo, e)[i]) else None)
        invariant Requeueing(topo, e, head, rqs0, rqs, on, i)
        decreases |Path(topo, e)| - i
      {
        PathSteps(topo, e, i);
        MoveNext(se.value, head, e, i, rqs0);
        se := Parent(se.value);
        i := i + 1;
      }
    }

    /** requeue_rt_entity. */
    method MoveNext(se: Ent, head: bool, ghost e: Ent, ghost i: nat, ghost rqs0: Rqs)
      requires Requeueing(topo, e, head, rqs0, rqs, on, i) && i < |Path(topo, e)| && se == Path(topo, e)[i]
      modifies `rqs
      ensures Requeueing(topo, e, head, rqs0, rqs, on, i + 1)
    {
      if se in on {
        var q := topo.rqOf[se];
        MoveFacts(topo, rqs, on, se, head, PathSet(topo, e));
        RequeueStep(topo, e, head, rqs0, rqs, on, rqs[q := Moved(rqs[q], se, SePrio(topo, rqs, se), head)], i);
        rqs := rqs[q := Moved(rqs[q], se, SePrio(topo, rqs, se), head)];
      }
    }

    /** sched_rt_runtime_exceeded, once the runtime is used up: throttle and take the group off. */
    method Throttle(q: nat)
      requires Valid() && q in rqs
      modifies this
      ensures Valid() && Tasks(on) == Tasks(old(on))
      ensures SameOrder(old(rqs)[q := old(rqs)[q].(throttled := true)], rqs, GroupPath(topo, q))
      ensures if !old(rqs)[q].throttled && q != ROOT && Group(q) in old(on)
              then Requeued(topo, Group(q), false, old(rqs)[q := old(rqs)[q].(throttled := true)], old(on), rqs, on)
              else rqs == old(rqs)[q := old(rqs)[q].(throttled := true)] && on == old(on)
    {
      SameOrderRefl(rqs[q := rqs[q].(throttled := true)], GroupPath(topo, q));
      if rqs[q].throttled {
        assert rqs[q := rqs[q].(throttled := true)] == rqs;
        return;
      }
      ghost var on0 := on;
      SetThrottled(q, true);
      if q != ROOT && Group(q) in on {
        DequeueEntity(Group(q));
        PathTasks(topo, Group(q), on0, on);
      } else if q != ROOT {
        SkipKeeps(topo, rqs, on, {Group(q)}, Group(q));
        InvButMono(topo, rqs, on, {Group(q)} - {Group(q)}, {});
      } else {
        RootLink(topo, rqs, on);
      }
    }

    /** The unthrottling of do_sched_rt_period_timer, with sched_rt_rq_enqueue. */
    method Unthrottle(q: nat)
      requires Valid() && q in rqs
      modifies this
      ensures Valid() && Tasks(on) == Tasks(old(on))
      ensures SameOrder(old(rqs)[q := old(rqs)[q].(throttled := false)], rqs, GroupPath(topo, q))
      ensures if q != ROOT && old(rqs)[q].nr > 0 && Group(q) !in old(on)
              then Requeued(topo, Group(q), false, old(rqs)[q := old(rqs)[q].(throttled := false)], old(on), rqs, on)
              else rqs == old(rqs)[q := old(rqs)[q].(throttled := false)] && on == old(on)
    {
      ghost var on0 := on;
      assert q != ROOT ==> GroupLink(rqs, on, q);
      SameOrderRefl(rqs[q := rqs[q].(throttled := false)], GroupPath(topo, q));
      SetThrottled(q, false);
      if q == ROOT {
        RootLink(topo, rqs, on);
      } else if rqs[q].nr > 0 && Group(q) !in on {
        EnqueueEntity(Group(q), false);
        PathTasks(topo, Group(q), on0, on);
      } else {
        assert GroupLink(rqs, on, q);
        LinkRestored(topo, rqs, on, q);
      }
    }

    method SetThrottled(q: nat, throttled: bool)
      requires Valid() && q in rqs
      modifies `rqs
      ensures InvBut(topo, rqs, on, {Group(q)})
      ensures rqs == old(rqs)[q := old(rqs)[q].(throttled := throttled)]
    {
      ThrottleKeeps(topo, rqs, on, q, throttled);
      rqs := rqs[q := rqs[q].(throttled := throttled)];
    }

    // --- choosing the next task ---

    /**
     _pick_next_task_rt, with the root unthrottled: a task of least priority number among
     the eligible ones, foremost at every level; none exactly when no task is eligible.
     */
    method PickNext() returns (r: Option<nat>)
      requires Valid()
      ensures rqs[ROOT].throttled ==> r.None?
      ensures !rqs[ROOT].throttled ==> (r.None? <==> forall p :: !Eligible(topo, rqs, on, p))
      ensures r.Some? ==> Eligible(topo, rqs, on, r.value) && Foremost(topo, rqs, Task(r.value))
      ensures r.Some? ==> forall p :: Eligible(topo, rqs, on, p) ==> topo.prio[r.value] <= topo.prio[p]
    {
      var q := ROOT;
      if rqs[q].nr == 0 {
        forall p ensures !Eligible(topo, rqs, on, p) {
          if Eligible(topo, rqs, on, p) { EligibleBounds(topo, rqs, on, p); }
        }
        return None;
      }
      if rqs[q].throttled {
        return None;
      }
      var e := PickEntity(q);
      while e.Group?
        invariant e in on && e in topo.rqOf && Clear(topo, rqs, topo.rqOf[e])
        invariant SePrio(topo, rqs, e) == rqs[ROOT].curr
        invariant e.Group? ==> e.q in rqs && e.q != ROOT && rqs[e.q].nr > 0 && !rqs[e.q].throttled
        invariant Foremost(topo, rqs, e)
        decreases topo.height - topo.depth[topo.rqOf[e]]
      {
        q := e.q;
        e := PickEntity(q);
      }
      forall p | Eligible(topo, rqs, on, p) ensures topo.prio[e.id] <= topo.prio[p] {
        EligibleBounds(topo, rqs, on, p);
      }
      assert Task(e.id) == e && Eligible(topo, rqs, on, e.id);
      r := Some(e.id);
    }

    /** pick_next_rt_entity; its BUG_ON cannot fire on a non-empty runqueue. */
    method PickEntity(q: nat) returns (e: Ent)
      requires Valid() && q in rqs && rqs[q].nr > 0
      ensures e in on && e in topo.rqOf && topo.rqOf[e] == q && SePrio(topo, rqs, e) == rqs[q].curr
      ensures e.Group? ==> e.q in rqs && e.q != ROOT && rqs[e.q].nr > 0 && !rqs[e.q].throttled
      ensures rqs[q].curr < |rqs[q].queue| && rqs[q].queue[rqs[q].curr] != [] && e == rqs[q].queue[rqs[q].curr][0]
    {
      FrontEntity(topo, rqs, on, q);
      var idx := FirstBit(rqs[q].bitmap, 0);
      assert idx < MAX_RT_PRIO;  // BUG_ON
      e := rqs[q].queue[idx][0];
    }
  }
}
