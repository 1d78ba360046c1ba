/** The task-group hierarchy with its real-time budgets, and every operation on them. */
module TgGroups {
  import opened Common
  import opened TgTree
  import opened TgWalk
  import opened TgBandwidth

  // --- the budgets after each kind of change ---

  lemma {:induction false} KeyedUpdate(t: Tree, bw: map<nat, Bw>, id: nat, b: Bw)
    requires Keyed(t, bw) && b.period > 0
    ensures Keyed(t, bw[id := b])
  {
    forall k | k in t.kids ensures Keyed(k, bw[id := b]) { KeyedUpdate(k, bw, id, b); }
  }

  lemma {:induction false} KeyedIds(t: Tree, bw: map<nat, Bw>, x: nat)
    requires Keyed(t, bw) && x in Ids(t)
    ensures x in bw && bw[x].period > 0
  {
    var i := KidWith(t, x);
    if x != t.id { KeyedIds(t.kids[i], bw, x); }
  }

  /** Equal budgets for the heads of two forests give equal sums. */
  lemma {:induction false} RatioSumFrame(ts: seq<Tree>, bw: map<nat, Bw>, ts': seq<Tree>, bw': map<nat, Bw>)
    requires |ts| == |ts'| && (forall k :: k in ts ==> Keyed(k, bw)) && (forall k :: k in ts' ==> Keyed(k, bw'))
    requires forall i :: 0 <= i < |ts| ==> ts[i].id in bw && ts'[i].id in bw' && bw'[ts'[i].id] == bw[ts[i].id]
    ensures RatioSum(ts', bw') == RatioSum(ts, bw)
  {
    if ts != [] {
      assert ts[0] in ts && ts'[0] in ts';
      RatioSumFrame(ts[1..], bw, ts'[1..], bw');
    }
  }

  /** Changing one budget to b can raise a sum over distinct groups by at most b's ratio. */
  lemma {:induction false} RatioSumRaise(ts: seq<Tree>, bw: map<nat, Bw>, id: nat, b: Bw)
    requires b.period > 0 && (forall k :: k in ts ==> Keyed(k, bw) && Keyed(k, bw[id := b]))
    requires forall i, j :: 0 <= i < j < |ts| ==> ts[i].id != ts[j].id
    ensures RatioSum(ts, bw[id := b]) <= RatioSum(ts, bw) + Ratio(b)
  {
    if ts != [] {
      assert ts[0] in ts;
      if ts[0].id == id {
        forall i | 0 <= i < |ts[1..]| ensures ts[1..][i].id in bw && ts[1..][i].id != id {
          assert ts[i + 1] in ts && Keyed(ts[i + 1], bw);
        }
        RatioSumFrame(ts[1..], bw, ts[1..], bw[id := b]);
      } else {
        RatioSumRaise(ts[1..], bw, id, b);
      }
    }
  }

  /** After one sensible change every sum still fits in 64 bits. */
  lemma {:induction false} SumsFitAfter(t: Tree, bw: map<nat, Bw>, tasks: set<nat>, g: Bw, id: nat, b: Bw)
    requires Keyed(t, bw) && GlobalOk(g) && Schedulable(t, bw, tasks, g) && Distinct(t)
    requires b.period > 0 && Ratio(b) <= SCALE
    ensures Keyed(t, bw[id := b]) && SumsFit(t, bw[id := b])
  {
    KeyedUpdate(t, bw, id, b);
    KidIdsApart(t);
    GlobalRatio(g);
    RatioSumRaise(t.kids, bw, id, b);
    forall k | k in t.kids ensures SumsFit(k, bw[id := b]) { SumsFitAfter(k, bw, tasks, g, id, b); }
  }

  lemma {:induction false} SumsFitNow(t: Tree, bw: map<nat, Bw>, tasks: set<nat>, g: Bw)
    requires Keyed(t, bw) && GlobalOk(g) && Schedulable(t, bw, tasks, g)
    ensures SumsFit(t, bw)
  {
    GlobalRatio(g);
    forall k | k in t.kids ensures SumsFit(k, bw) { SumsFitNow(k, bw, tasks, g); }
  }

  /** A walk that returns zero found zero at every group. */
  lemma {:induction false} ZeroWalk(e: Env, t: Tree, x: nat)
    requires Visit(t, Down(e), Nop(), ()).0 == 0 && x in Ids(t)
    ensures Code(e, x) == 0
    decreases t, 1
  {
    if x != t.id {
      var i := KidWith(t, x);
      ZeroWalkAll(e, t.kids, i, x);
    }
  }

  lemma {:induction false} ZeroWalkAll(e: Env, ts: seq<Tree>, i: int, x: nat)
    requires VisitAll(ts, Down(e), Nop(), ()).0 == 0 && 0 <= i < |ts| && x in Ids(ts[i])
    ensures Code(e, x) == 0
    decreases ts, 0
  {
    assert Visit(ts[0], Down(e), Nop(), ()).1 == ();
    if i == 0 {
      ZeroWalk(e, ts[0], x);
    } else {
      assert ts[1..][i - 1] == ts[i];
      ZeroWalkAll(e, ts[1..], i - 1, x);
    }
  }

  lemma {:induction false} SchedulableAt(t: Tree, bw: map<nat, Bw>, tasks: set<nat>, g: Bw, x: nat)
    requires Keyed(t, bw) && g.period > 0 && Schedulable(t, bw, tasks, g) && x in Ids(t)
    ensures x in bw && bw[x].period > 0 && Ratio(bw[x]) <= Ratio(g)
    ensures !(g.runtime != INF && bw[x].runtime == 0 && x in tasks)
  {
    if x != t.id {
      var i := KidWith(t, x);
      assert t.kids[i] in t.kids;
      SchedulableAt(t.kids[i], bw, tasks, g, x);
    }
  }

  /** The proposed budget is admitted exactly when the hierarchy with it in place is schedulable. */
  lemma AdmitsExactly(e: Env, l: Links, t: Tree, bw: map<nat, Bw>, id: nat, b: Bw)
    requires Represents(l, t, None) && Distinct(t) && l.children == e.children && e.bw == bw[id := b]
    requires Keyed(t, bw) && GlobalOk(e.g) && Schedulable(t, bw, e.tasks, e.g)
    requires id in Ids(t) && b.period > 0
    ensures Keyed(t, e.bw)
    ensures Visit(t, Down(e), Nop(), ()).0 == 0 <==> Schedulable(t, e.bw, e.tasks, e.g)
  {
    KeyedUpdate(t, bw, id, b);
    GlobalRatio(e.g);
    if Ratio(b) <= SCALE {
      SumsFitAfter(t, bw, e.tasks, e.g, id, b);
      WalkMeansSchedulable(e, l, t, None);
    } else {
      ChildrenKnown(l, t, None, id);
      if Schedulable(t, e.bw, e.tasks, e.g) { SchedulableAt(t, e.bw, e.tasks, e.g, id); }
      if Visit(t, Down(e), Nop(), ()).0 == 0 { ZeroWalk(e, t, id); }
    }
  }

  /** Budgets outside the tree do not matter. */
  lemma {:induction false} SchedulableFrame(t: Tree, bw: map<nat, Bw>, bw': map<nat, Bw>, tasks: set<nat>, tasks': set<nat>, g: Bw)
    requires Keyed(t, bw) && g.period > 0 && Schedulable(t, bw, tasks, g)
    requires forall x :: x in Ids(t) && x in bw ==> x in bw' && bw'[x] == bw[x]
    requires forall x :: x in Ids(t) && x in tasks' ==> x in tasks
    ensures Keyed(t, bw') && Schedulable(t, bw', tasks', g)
  {
    assert t.id in Ids(t);
    forall k | k in t.kids ensures Keyed(k, bw') && Schedulable(k, bw', tasks', g) && k.id in bw && bw'[k.id] == bw[k.id] {
      KidIn(t, k);
      SchedulableFrame(k, bw, bw', tasks, tasks', g);
    }
    RatioSumFrame(t.kids, bw, t.kids, bw');
  }

  /** A new group starts with no runtime, which takes nothing from anyone. */
  lemma {:induction false} AddKidSchedulable(t: Tree, bw: map<nat, Bw>, tasks: set<nat>, g: Bw, p: nat, n: nat, b: Bw)
    requires Keyed(t, bw) && GlobalOk(g) && Schedulable(t, bw, tasks, g) && Distinct(t)
    requires n !in Ids(t) && n !in tasks && b.period > 0 && b.runtime == 0
    ensures Keyed(AddKid(t, p, n), bw[n := b])
    ensures Schedulable(AddKid(t, p, n), bw[n := b], tasks, g)
  {
    var r, bw' := AddKid(t, p, n), bw[n := b];
    assert t.id in Ids(t);
    forall i | 0 <= i < |t.kids|
      ensures Keyed(AddKid(t.kids[i], p, n), bw') && Schedulable(AddKid(t.kids[i], p, n), bw', tasks, g)
      ensures t.kids[i].id in bw && t.kids[i].id != n
    {
      KidIn(t, t.kids[i]);
      AddKidSchedulable(t.kids[i], bw, tasks, g, p, n, b);
    }
    if t.id == p {
      AddHereSchedulable(t, bw, tasks, g, n, b);
    } else {
      assert Keyed(r, bw');
      RatioSumFrame(t.kids, bw, r.kids, bw');
    }
  }

  lemma AddHereSchedulable(t: Tree, bw: map<nat, Bw>, tasks: set<nat>, g: Bw, n: nat, b: Bw)
    requires Keyed(t, bw) && GlobalOk(g) && Schedulable(t, bw, tasks, g)
    requires n !in Ids(t) && n !in tasks && b.period > 0 && b.runtime == 0
    ensures Keyed(Node(t.id, [Node(n, [])] + t.kids), bw[n := b])
    ensures Schedulable(Node(t.id, [Node(n, [])] + t.kids), bw[n := b], tasks, g)
  {
    var r, bw' := Node(t.id, [Node(n, [])] + t.kids), bw[n := b];
    SchedulableFrame(t, bw, bw', tasks, tasks, g);
    NewLeafOk(bw', tasks, g, n);
    assert forall k :: k in r.kids <==> k == Node(n, []) || k in t.kids;
    assert r.kids[1..] == t.kids;
    assert RatioSum(r.kids, bw') == RatioSum(t.kids, bw');
  }

  lemma NewLeafOk(bw: map<nat, Bw>, tasks: set<nat>, g: Bw, n: nat)
    requires n in bw && bw[n].period > 0 && bw[n].runtime == 0 && n !in tasks && GlobalOk(g)
    ensures Keyed(Node(n, []), bw) && Ratio(bw[n]) == 0
    ensures Schedulable(Node(n, []), bw, tasks, g)
  {
    assert 0 / bw[n].period == 0;
  }

  lemma {:induction false} RatioSumWithout(ts: seq<Tree>, bw: map<nat, Bw>, i: nat)
    requires i < |ts| && forall k :: k in ts ==> Keyed(k, bw)
    ensures (forall k :: k in Without(ts, i) ==> Keyed(k, bw)) && RatioSum(Without(ts, i), bw) <= RatioSum(ts, bw)
  {
    assert forall k :: k in Without(ts, i) ==> k in ts;
    if i == 0 {
      assert Without(ts, i) == ts[1..];
    } else {
      RatioSumWithout(ts[1..], bw, i - 1);
      assert Without(ts, i)[1..] == Without(ts[1..], i - 1);
    }
  }

  /** Taking a group away leaves the rest schedulable. */
  lemma {:induction false} DropKidSchedulable(t: Tree, bw: map<nat, Bw>, tasks: set<nat>, g: Bw, p: nat, i: nat)
    requires Keyed(t, bw) && g.period > 0 && Schedulable(t, bw, tasks, g)
    ensures Keyed(DropKid(t, p, i), bw) && Schedulable(DropKid(t, p, i), bw, tasks, g)
  {
    var r := DropKid(t, p, i);
    if t.id == p {
      if i < |t.kids| { RatioSumWithout(t.kids, bw, i); }
      assert forall k :: k in r.kids ==> k in t.kids;
    } else {
      forall j | 0 <= j < |t.kids|
        ensures Keyed(r.kids[j], bw) && Schedulable(r.kids[j], bw, tasks, g) && t.kids[j].id in bw
      {
        assert t.kids[j] in t.kids;
        DropKidSchedulable(t.kids[j], bw, tasks, g, p, i);
      }
      assert Keyed(r, bw);
      RatioSumFrame(t.kids, bw, r.kids, bw);
    }
  }

  function IndexOf(s: seq<nat>, x: nat): (i: nat)
    requires x in s
    ensures i < |s| && s[i] == x
  {
    if s[0] == x then 0 else 1 + IndexOf(s[1..], x)
  }

  ghost predicate Ok(l: Links, t: Tree, bw: map<nat, Bw>, tasks: set<nat>, g: Bw) {
    && t.id == ROOT && Represents(l, t, None) && Distinct(t)
    && GlobalOk(g) && Keyed(t, bw) && Schedulable(t, bw, tasks, g)
    && tasks <= Ids(t)
  }

  lemma CreateKeeps(l: Links, t: Tree, bw: map<nat, Bw>, tasks: set<nat>, g: Bw, p: nat, n: nat)
    requires Ok(l, t, bw, tasks, g) && p in Ids(t) && n !in Ids(t)
    ensures p in l.children
    ensures Ok(LinkKid(l, p, n), AddKid(t, p, n), bw[n := Bw(g.period, 0)], tasks, g)
  {
    ChildrenKnown(l, t, None, p);
    LinkKidRepresents(l, t, None, p, n);
    AddKidDistinct(t, p, n);
    AddKidIds(t, p, n);
    AddKidSchedulable(t, bw, tasks, g, p, n, Bw(g.period, 0));
    assert AddKid(t, p, n).id == t.id;
  }

  /** Where a group other than the root hangs. */
  lemma HangsAt(l: Links, t: Tree, bw: map<nat, Bw>, tasks: set<nat>, g: Bw, x: nat)
    requires Ok(l, t, bw, tasks, g) && x in Ids(t) && x != ROOT
    ensures x in l.parent && l.parent[x].Some?
    ensures var p := l.parent[x].value; p in Ids(t) && p in l.children && x in l.children[p] && x in l.next
  {
    ParentKnown(l, t, None, x);
    ChildrenKnown(l, t, None, l.parent[x].value);
  }

  lemma DestroyKeeps(l: Links, t: Tree, bw: map<nat, Bw>, tasks: set<nat>, g: Bw, p: nat, i: nat, x: nat)
    requires Ok(l, t, bw, tasks, g) && p in Ids(t) && p in l.children && i < |l.children[p]| && l.children[p][i] == x
    requires x in l.next && x in l.children && l.children[x] == [] && x !in tasks
    ensures Ids(DropKid(t, p, i)) == Ids(t) - {x}
    ensures Ok(UnlinkKid(l, p, i), DropKid(t, p, i), bw, tasks, g)
  {
    ChildrenKnown(l, t, None, p);
    UnlinkKidRepresents(l, t, None, p, i);
    DropKidDistinct(t, p, i);
    DropLeafIds(l, t, None, p, i);
    DropKidSchedulable(t, bw, tasks, g, p, i);
    assert DropKid(t, p, i).id == t.id;
  }

  lemma TrueMeaning(t: Tree, bw: map<nat, Bw>, tasks: set<nat>, g: Bw)
    requires Keyed(t, bw) && GlobalOk(g)
    ensures AllModest(t, bw) && Fair(t, bw, tasks, g) ==> Schedulable(t, bw, tasks, g)
    ensures AllModest(t, bw) && Schedulable(t, bw, tasks, g) ==> NearlyFair(t, bw, tasks, g)
    ensures AllExact(t, bw) ==> (Schedulable(t, bw, tasks, g) <==> Fair(t, bw, tasks, g))
  {
    if AllExact(t, bw) {
      ExactIsModest(t, bw);
    }
    if AllModest(t, bw) {
      SchedulableIsFair(t, bw, tasks, g);
    }
  }

  class TaskGroups {
    var links: Links
    var bw: map<nat, Bw>     // tg->rt_bandwidth
    var tasks: set<nat>      // the groups that have real-time tasks
    var global: Bw           // sysctl_sched_rt_period and sysctl_sched_rt_runtime
    ghost var tree: Tree

    /** The links spell out a tree, and the whole of it passes the admission test. */
    ghost predicate Valid()
      reads this
    {
      Ok(links, tree, bw, tasks, global)
    }

    constructor (global: Bw)
      requires GlobalOk(global)
      ensures Valid() && tree == Node(ROOT, []) && this.global == global
    {
      links := Links(map[ROOT := None], map[ROOT := []], map[]);
      bw, tasks, this.global := map[ROOT := global], {}, global;
      tree := Node(ROOT, []);
    }

    /**
     In any reachable state, groups none of which contains another fit in the global ratio
     together. With modest budgets their exact shares are at most one unit each above it, and
     with none rounded they fit in the exact global share.
     */
    lemma NonNestedFit(s: set<nat>)
      requires Valid() && NonNested(tree, s)
      ensures Chosen(tree, Ratios(bw), s) <= Ratio(global) as real <= SCALE as real
      ensures AllModest(tree, bw) ==> Chosen(tree, Shares(bw), s) <= (Ratio(global) + |Ids(tree) * s|) as real
      ensures AllExact(tree, bw) ==> Chosen(tree, Shares(bw), s) <= Share(global)
    {
      NonNestedShare(tree, bw, tasks, global, s);
      GlobalShare(global);
    }

    /** __rt_schedulable: walk the hierarchy with tg_schedulable. */
    method RtSchedulable(newBw: map<nat, Bw>, newGlobal: Bw) returns (err: int)
      requires tree.id == ROOT && Represents(links, tree, None)
      ensures err == Visit(tree, Down(Env(links.children, newBw, tasks, newGlobal)), Nop(), ()).0
    {
      var e := Env(links.children, newBw, tasks, newGlobal);
      var d;
      err, d := WalkTgTree(links, ROOT, Down(e), Nop(), (), tree);
    }

    /** tg_set_bandwidth: all or nothing, and admitted exactly when the result is schedulable. */
    method SetBandwidth(id: nat, b: Bw) returns (err: int)
      requires Valid() && id in Ids(tree) && b.period > 0
      modifies `bw
      ensures Valid()
      ensures Keyed(tree, old(bw)[id := b])
      ensures err == 0 <==> Schedulable(tree, old(bw)[id := b], tasks, global)
      ensures FirstRefusal(PreOrder(tree), old(bw)[id := b], tasks, global, err)
      ensures AllModest(tree, old(bw)[id := b]) && Fair(tree, old(bw)[id := b], tasks, global) ==> err == 0
      ensures AllModest(tree, old(bw)[id := b]) && err == 0 ==> NearlyFair(tree, old(bw)[id := b], tasks, global)
      ensures AllExact(tree, old(bw)[id := b]) ==> (err == 0 <==> Fair(tree, old(bw)[id := b], tasks, global))
      ensures bw == if err == 0 then old(bw)[id := b] else old(bw)
    {
      AdmitsExactly(Env(links.children, bw[id := b], tasks, global), links, tree, bw, id, b);
      TrueMeaning(tree, bw[id := b], tasks, global);
      WalkFindsFirst(Env(links.children, bw[id := b], tasks, global), links, tree, None);
      err := RtSchedulable(bw[id := b], global);
      if err == 0 {
        bw := bw[id := b];
      }
    }

    /** sched_rt_handler with sched_rt_global_constraints, as one step: keep the new setting or restore the old. */
    method SetGlobal(g: Bw) returns (err: int)
      requires Valid() && g.period < 0x1000_0000_0000
      modifies `global
      ensures Valid()
      ensures err == 0 <==> GlobalOk(g) && Schedulable(tree, bw, tasks, g)
      ensures global == if err == 0 then g else old(global)
      ensures if g.period == 0 || (g.runtime != INF && g.runtime > g.period) then err == -22
              else FirstRefusal(PreOrder(tree), bw, tasks, g, err)
    {
      var before := global;
      global := g;
      if g.period == 0 || (g.runtime > g.period && g.runtime != INF) {
        err := -EINVAL;
      } else {
        SumsFitNow(tree, bw, tasks, before);
        WalkMeansSchedulable(Env(links.children, bw, tasks, g), links, tree, None);
        WalkFindsFirst(Env(links.children, bw, tasks, g), links, tree, None);
        err := RtSchedulable(bw, global);
      }
      if err != 0 {
        global := before;
      }
    }

    /** sched_create_group: first in its parent's list, with the global period and no runtime. */
    method Create(parent: nat, id: nat)
      requires Valid() && parent in Ids(tree) && id !in Ids(tree)
      modifies this
      ensures Valid() && tree == AddKid(old(tree), parent, id)
      ensures bw == old(bw)[id := Bw(global.period, 0)] && tasks == old(tasks) && global == old(global)
      ensures parent in old(links).children && links.parent == old(links).parent[id := Some(parent)]
      ensures links.children == old(links).children[id := []][parent := [id] + old(links).children[parent]]
    {
      CreateKeeps(links, tree, bw, tasks, global, parent, id);
      bw := bw[id := Bw(global.period, 0)];
      links := LinkKid(links, parent, id);
      tree := AddKid(tree, parent, id);
    }

    /** sched_destroy_group on a group with no children and no tasks. */
    method Destroy(id: nat)
      requires Valid() && id in Ids(tree) && id != ROOT && id in links.children && links.children[id] == []
      requires id !in tasks
      modifies `links, `tree
      ensures Valid() && Ids(tree) == Ids(old(tree)) - {id}
      ensures exists p, i :: tree == DropKid(old(tree), p, i)
      ensures links.parent == old(links).parent && id in links.parent && links.parent[id].Some?
      ensures var p, was := links.parent[id].value, old(links).children;
              p in was && exists i :: 0 <= i < |was[p]| && was[p][i] == id && links.children == was[p := Without(was[p], i)]
    {
      HangsAt(links, tree, bw, tasks, global, id);
      var p := links.parent[id].value;
      var i := IndexOf(links.children[p], id);
      DestroyKeeps(links, tree, bw, tasks, global, p, i, id);
      links := UnlinkKid(links, p, i);
      tree := DropKid(tree, p, i);
    }

    /** sched_rt_can_attach, then the attachment: a group without runtime takes no real-time task. */
    method Attach(id: nat) returns (ok: bool)
      requires Valid() && id in Ids(tree)
      modifies `tasks
      ensures Valid() && id in bw && (ok <==> bw[id].runtime != 0)
      ensures tasks == if ok then old(tasks) + {id} else old(tasks)
    {
      KeyedIds(tree, bw, id);
      ok := bw[id].runtime != 0;
      if ok {
        AttachKeeps(tree, bw, tasks, global, id);
        tasks := tasks + {id};
      }
    }

    /** The last real-time task leaves a group. */
    method Detach(id: nat)
      requires Valid() && id in tasks
      modifies `tasks
      ensures Valid() && tasks == old(tasks) - {id}
    {
      SchedulableFrame(tree, bw, bw, tasks, tasks - {id}, global);
      tasks := tasks - {id};
    }
  }

  lemma {:induction false} AttachKeeps(t: Tree, bw: map<nat, Bw>, tasks: set<nat>, g: Bw, id: nat)
    requires Keyed(t, bw) && g.period > 0 && Schedulable(t, bw, tasks, g) && id in bw && bw[id].runtime != 0
    ensures Schedulable(t, bw, tasks + {id}, g)
  {
    forall k | k in t.kids ensures Schedulable(k, bw, tasks + {id}, g) { AttachKeeps(k, bw, tasks, g, id); }
  }
}
