/**
 One real-time runqueue: a list per priority, the bitmap of non-empty lists, the cached
 highest priority and the number of queued entities.
 */
module RtQueue {
  import opened Common

  const MAX_RT_PRIO: nat := 100

  /** A task, or the entity that stands for the group owning runqueue q. */
  datatype Ent = Task(id: nat) | Group(q: nat)

  /** rt_rq; throttled is rt_throttled, with no boosted tasks. */
  datatype Rq = Rq(queue: seq<seq<Ent>>, bitmap: seq<bool>, nr: nat, curr: nat, throttled: bool) {
    predicate Shape() {
      |queue| == MAX_RT_PRIO && |bitmap| == MAX_RT_PRIO + 1
    }

    predicate Has(p: int, e: Ent) {
      0 <= p < |queue| && e in queue[p]
    }

    ghost function Members(): set<Ent> {
      set p, e | 0 <= p < |queue| && e in queue[p] :: e
    }

    lemma MemberIff(e: Ent) returns (p: int)
      ensures e in Members() <==> Has(p, e)
      ensures forall p' :: Has(p', e) ==> e in Members()
    {
      p := -1;
      if e in Members() {
        p :| 0 <= p < |queue| && e in queue[p];
      }
    }

    /** The bitmap mirrors the lists, and the two cached values are right. */
    ghost predicate Ok() {
      && Shape()
      && bitmap[MAX_RT_PRIO]
      && (forall p :: 0 <= p < MAX_RT_PRIO ==> (bitmap[p] <==> queue[p] != []))
      && (forall p, p', e :: Has(p, e) && Has(p', e) ==> p == p')
      && (forall p :: 0 <= p < MAX_RT_PRIO ==> Distinct(queue[p]))
      && curr == FirstBit(bitmap, 0)
      && nr == |Members()|
    }
  }

  ghost predicate Distinct(s: seq<Ent>) {
    forall i, j :: 0 <= i < j < |s| ==> s[i] != s[j]
  }

  /** sched_find_first_bit from position i, given that some bit is set. */
  function FirstBit(b: seq<bool>, i: nat): (r: nat)
    requires exists j :: i <= j < |b| && b[j]
    ensures i <= r < |b| && b[r]
    ensures forall j :: i <= j < r ==> !b[j]
    decreases |b| - i
  {
    if b[i] then i else FirstBit(b, i + 1)
  }

  lemma FirstBitUnique(b: seq<bool>, r: nat)
    requires r < |b| && b[r] && forall j :: 0 <= j < r ==> !b[j]
    ensures FirstBit(b, 0) == r
  {
  }

  /** A list without the entities in x. */
  function Drop(s: seq<Ent>, x: set<Ent>): (r: seq<Ent>)
    ensures forall e :: e in r <==> e in s && e !in x
  {
    if s == [] then [] else (if s[0] in x then [] else [s[0]]) + Drop(s[1..], x)
  }

  lemma {:induction false} DropNone(s: seq<Ent>, e: Ent)
    requires e !in s
    ensures Drop(s, {e}) == s
  {
    if s != [] {
      DropNone(s[1..], e);
    }
  }

  /** Dropping the one entity at k takes out that place and no other. */
  lemma {:induction false} DropOne(s: seq<Ent>, k: nat, e: Ent)
    requires Distinct(s) && k < |s| && s[k] == e
    ensures Drop(s, {e}) == Without(s, k)
  {
    if k == 0 {
      DropNone(s[1..], e);
    } else {
      DropOne(s[1..], k - 1, e);
      assert Without(s, k) == [s[0]] + Without(s[1..], k - 1);
    }
  }

  lemma {:induction false} DropDistinct(s: seq<Ent>, x: set<Ent>)
    requires Distinct(s)
    ensures Distinct(Drop(s, x))
  {
    if s != [] {
      DropDistinct(s[1..], x);
    }
  }

  /** list_add or list_add_tail. */
  function Linked(s: seq<Ent>, e: Ent, head: bool): seq<Ent> {
    if head then [e] + s else s + [e]
  }

  // --- the order of a list ---

  ghost predicate Before(s: seq<Ent>, a: Ent, b: Ent) {
    exists i, j :: 0 <= i < j < |s| && s[i] == a && s[j] == b
  }

  /** Outside x the two lists hold the same entities, in the same order. */
  ghost predicate SameOutside(s: seq<Ent>, t: seq<Ent>, x: set<Ent>) {
    && (forall a :: a !in x ==> (a in s <==> a in t))
    && (forall a, b {:trigger Before(s, a, b)} {:trigger Before(t, a, b)} ::
          a !in x && b !in x ==> (Before(s, a, b) <==> Before(t, a, b)))
  }

  lemma BeforeCons(h: Ent, t: seq<Ent>, a: Ent, b: Ent)
    ensures Before([h] + t, a, b) <==> (h == a && b in t) || Before(t, a, b)
  {
    var s := [h] + t;
    if Before(s, a, b) {
      var i, j :| 0 <= i < j < |s| && s[i] == a && s[j] == b;
      assert t[j - 1] == b && (i > 0 ==> t[i - 1] == a);
    }
    if h == a && b in t {
      var j :| 0 <= j < |t| && t[j] == b;
      assert s[0] == a && s[j + 1] == b;
    }
    if Before(t, a, b) {
      var i, j :| 0 <= i < j < |t| && t[i] == a && t[j] == b;
      assert s[i + 1] == a && s[j + 1] == b;
    }
  }

  lemma BeforeSnoc(t: seq<Ent>, h: Ent, a: Ent, b: Ent)
    ensures Before(t + [h], a, b) <==> (h == b && a in t) || Before(t, a, b)
  {
    var s := t + [h];
    if h == b && a in t {
      var i :| 0 <= i < |t| && t[i] == a;
      assert s[i] == a && s[|t|] == b;
    }
    if Before(t, a, b) {
      var i, j :| 0 <= i < j < |t| && t[i] == a && t[j] == b;
      assert s[i] == a && s[j] == b;
    }
  }

  lemma {:induction false} DropBefore(s: seq<Ent>, y: set<Ent>, a: Ent, b: Ent)
    requires a !in y && b !in y
    ensures Before(Drop(s, y), a, b) <==> Before(s, a, b)
  {
    if s != [] {
      DropBefore(s[1..], y, a, b);
      assert s == [s[0]] + s[1..];
      BeforeCons(s[0], s[1..], a, b);
      if s[0] !in y {
        BeforeCons(s[0], Drop(s[1..], y), a, b);
      } else {
        assert Drop(s, y) == Drop(s[1..], y);
      }
    }
  }

  /** Dropping entities of x is invisible outside x. */
  lemma DropSame(s: seq<Ent>, y: set<Ent>, x: set<Ent>)
    requires y <= x
    ensures SameOutside(s, Drop(s, y), x)
  {
    forall a, b | a !in x && b !in x ensures Before(s, a, b) <==> Before(Drop(s, y), a, b) {
      DropBefore(s, y, a, b);
    }
  }

  /** And so is linking one at either end. */
  lemma LinkedSame(s: seq<Ent>, e: Ent, head: bool, x: set<Ent>)
    requires e in x
    ensures SameOutside(s, Linked(s, e, head), x)
  {
    forall a, b | a !in x && b !in x ensures Before(s, a, b) <==> Before(Linked(s, e, head), a, b) {
      BeforeCons(e, s, a, b);
      BeforeSnoc(s, e, a, b);
    }
  }

  // --- the two updates, field by field as the source makes them ---

  function Added(q: Rq, e: Ent, p: nat, head: bool): Rq
    requires q.Shape() && p < MAX_RT_PRIO
  {
    q.(queue := q.queue[p := Linked(q.queue[p], e, head)],
       bitmap := q.bitmap[p := true],
       nr := q.nr + 1,
       curr := if p < q.curr then p else q.curr)
  }

  /** list_del_init takes e out of whichever list holds it. */
  function Unlinked(q: Rq, e: Ent): (r: Rq)
    ensures r == q.(queue := r.queue) && |r.queue| == |q.queue|
    ensures forall p :: 0 <= p < |q.queue| ==> r.queue[p] == Drop(q.queue[p], {e})
  {
    q.(queue := seq(|q.queue|, p requires 0 <= p < |q.queue| => Drop(q.queue[p], {e})))
  }

  function Removed(q: Rq, e: Ent, p: nat): Rq
    requires q.Shape() && p < MAX_RT_PRIO && q.nr > 0 && q.bitmap[MAX_RT_PRIO]
  {
    var l := Unlinked(q, e);
    var b := if l.queue[p] == [] then l.(bitmap := l.bitmap[p := false]) else l;
    b.(nr := b.nr - 1,
       curr := if b.nr - 1 == 0 then MAX_RT_PRIO
               else if p == q.curr then assert b.bitmap[MAX_RT_PRIO]; FirstBit(b.bitmap, 0)
               else q.curr)
  }

  lemma AddedMembers(q: Rq, e: Ent, p: nat, head: bool)
    requires q.Shape() && p < MAX_RT_PRIO
    ensures forall p', e' :: Added(q, e, p, head).Has(p', e') <==> q.Has(p', e') || (p' == p && e' == e)
    ensures Added(q, e, p, head).Members() == q.Members() + {e}
  {
    var r := Added(q, e, p, head);
    forall p', e' ensures r.Has(p', e') <==> q.Has(p', e') || (p' == p && e' == e) {
    }
    forall e' ensures e' in r.Members() <==> e' in q.Members() + {e} {
      var p' := r.MemberIff(e');
      var p'' := q.MemberIff(e');
      assert r.Has(p, e) && (q.Has(p'', e') ==> r.Has(p'', e'));
      assert r.Has(p', e') ==> q.Has(p', e') || e' == e;
    }
  }

  /** init_rt_rq: empty lists, only the delimiter bit set. */
  function EmptyRq(): (q: Rq)
    ensures q.Ok() && q.nr == 0 && !q.throttled && q.Members() == {}
  {
    var q := Rq(seq(MAX_RT_PRIO, i => []), seq(MAX_RT_PRIO + 1, i => i == MAX_RT_PRIO), 0, MAX_RT_PRIO, false);
    assert forall p, e :: !q.Has(p, e);
    assert q.Members() == {};
    FirstBitUnique(q.bitmap, MAX_RT_PRIO);
    q
  }

  /** Adding an entity that is on no list keeps the runqueue in order. */
  lemma AddedOk(q: Rq, e: Ent, p: nat, head: bool)
    requires q.Ok() && p < MAX_RT_PRIO && e !in q.Members()
    ensures Added(q, e, p, head).Ok()
  {
    var r := Added(q, e, p, head);
    AddedMembers(q, e, p, head);
    forall p', p'', e' | r.Has(p', e') && r.Has(p'', e') ensures p' == p'' {
      assert !q.Has(p', e) && !q.Has(p'', e);
    }
    assert !q.Has(p, e);
    assert Distinct(r.queue[p]);
    FirstBitUnique(r.bitmap, r.curr);
  }

  lemma RemovedMembers(q: Rq, e: Ent, p: nat)
    requires q.Shape() && p < MAX_RT_PRIO && q.nr > 0 && q.bitmap[MAX_RT_PRIO]
    ensures forall p', e' :: Removed(q, e, p).Has(p', e') <==> q.Has(p', e') && e' != e
    ensures Removed(q, e, p).Members() == q.Members() - {e}
  {
    var r := Removed(q, e, p);
    assert r.queue == Unlinked(q, e).queue;
    forall p', e' ensures r.Has(p', e') <==> q.Has(p', e') && e' != e {
    }
    forall e' ensures e' in r.Members() <==> e' in q.Members() - {e} {
      var p' := r.MemberIff(e');
      var p'' := q.MemberIff(e');
      assert q.Has(p'', e') && e' != e ==> r.Has(p'', e');
    }
  }

  /** Removing an entity with the priority of the list it is on keeps the runqueue in order. */
  lemma RemovedOk(q: Rq, e: Ent, p: nat)
    requires q.Ok() && q.Has(p, e)
    ensures q.nr > 0 && q.curr <= p
    ensures Removed(q, e, p).Ok()
  {
    assert e in q.Members();
    assert q.Members() == q.Members() - {e} + {e};
    var r := Removed(q, e, p);
    RemovedMembers(q, e, p);
    RemovedLists(q, e, p);
    RemovedCurr(q, e, p);
  }

  /** The lists afterwards: e's place is gone from its own, and nothing else has moved. */
  lemma RemovedIs(q: Rq, e: Ent, p: nat, k: nat)
    requires q.Ok() && p < MAX_RT_PRIO && k < |q.queue[p]| && q.queue[p][k] == e && q.nr > 0
    ensures Removed(q, e, p).queue == q.queue[p := Without(q.queue[p], k)]
  {
    var r := Removed(q, e, p);
    assert r.queue == Unlinked(q, e).queue;
    forall p' | 0 <= p' < MAX_RT_PRIO
      ensures r.queue[p'] == if p' == p then Without(q.queue[p], k) else q.queue[p']
    {
      if p' == p {
        DropOne(q.queue[p], k, e);
      } else {
        assert q.Has(p, e) && !q.Has(p', e);
        DropNone(q.queue[p'], e);
      }
    }
  }

  lemma RemovedLists(q: Rq, e: Ent, p: nat)
    requires q.Ok() && q.Has(p, e) && q.nr > 0
    ensures forall p' :: 0 <= p' < MAX_RT_PRIO ==> (Removed(q, e, p).bitmap[p'] <==> Removed(q, e, p).queue[p'] != [])
    ensures forall p' :: 0 <= p' < MAX_RT_PRIO ==> Distinct(Removed(q, e, p).queue[p'])
  {
    var r := Removed(q, e, p);
    assert r.queue == Unlinked(q, e).queue;
    forall p' | 0 <= p' < MAX_RT_PRIO
      ensures r.bitmap[p'] <==> r.queue[p'] != []
      ensures Distinct(r.queue[p'])
    {
      DropDistinct(q.queue[p'], {e});
      if p' != p && q.queue[p'] != [] {
        assert q.Has(p', q.queue[p'][0]);
        assert q.queue[p'][0] in r.queue[p'];
      }
    }
  }

  lemma RemovedCurr(q: Rq, e: Ent, p: nat)
    requires q.Ok() && q.Has(p, e) && q.nr > 0
    ensures q.curr <= p
    ensures Removed(q, e, p).bitmap[MAX_RT_PRIO] && Removed(q, e, p).curr == FirstBit(Removed(q, e, p).bitmap, 0)
  {
    var r := Removed(q, e, p);
    RemovedLists(q, e, p);
    assert r.bitmap[MAX_RT_PRIO];
    if q.nr == 1 {
      RemovedLast(q, e, p);
      FirstBitUnique(r.bitmap, MAX_RT_PRIO);
    } else if p != q.curr {
      FirstBitStays(q.bitmap, p, q.curr);
    }
  }

  /** Clearing another bit leaves the first one first. */
  lemma FirstBitStays(b: seq<bool>, p: nat, c: nat)
    requires c < |b| && p < |b| && p != c && b[c] && forall j :: 0 <= j < c ==> !b[j]
    ensures b[p := false][c] && FirstBit(b[p := false], 0) == c == FirstBit(b, 0)
  {
    FirstBitUnique(b[p := false], c);
    FirstBitUnique(b, c);
  }

  lemma RemovedLast(q: Rq, e: Ent, p: nat)
    requires q.Ok() && q.Has(p, e) && q.nr == 1
    ensures forall j :: 0 <= j < MAX_RT_PRIO ==> !Removed(q, e, p).bitmap[j]
  {
    var r := Removed(q, e, p);
    RemovedLists(q, e, p);
    RemovedMembers(q, e, p);
    assert e in q.Members();
    assert |r.Members()| == 0;
    forall j | 0 <= j < MAX_RT_PRIO ensures !r.bitmap[j] {
      ListedIsMember(r, j);
    }
  }

  lemma ListedIsMember(q: Rq, j: nat)
    requires j < |q.queue|
    ensures q.queue[j] != [] ==> q.Members() != {}
  {
    if q.queue[j] != [] {
      assert q.Has(j, q.queue[j][0]);
      assert q.queue[j][0] in q.Members();
    }
  }

  /** list_move or list_move_tail: e goes to one end of the list it is on. */
  function Moved(q: Rq, e: Ent, p: nat, head: bool): Rq
    requires p < |q.queue|
  {
    q.(queue := q.queue[p := Linked(Drop(q.queue[p], {e}), e, head)])
  }

  lemma MovedOk(q: Rq, e: Ent, p: nat, head: bool)
    requires q.Ok() && q.Has(p, e)
    ensures Moved(q, e, p, head).Ok()
    ensures forall p', e' :: Moved(q, e, p, head).Has(p', e') <==> q.Has(p', e')
  {
    var r := Moved(q, e, p, head);
    DropDistinct(q.queue[p], {e});
    assert Distinct(r.queue[p]);
    forall p', e' ensures r.Has(p', e') <==> q.Has(p', e') {
    }
    forall e' ensures e' in r.Members() <==> e' in q.Members() {
      var p' := r.MemberIff(e');
      var p'' := q.MemberIff(e');
    }
    assert r.Members() == q.Members();
  }

  /** rt_nr_running is also the sum of the list lengths. */
  function Length(queue: seq<seq<Ent>>): nat {
    if queue == [] then 0 else |queue[0]| + Length(queue[1..])
  }

  lemma {:induction false} LengthIsMembers(q: Rq)
    requires forall p, p', e :: q.Has(p, e) && q.Has(p', e) ==> p == p'
    requires forall p :: 0 <= p < |q.queue| ==> Distinct(q.queue[p])
    ensures Length(q.queue) == |q.Members()|
    decreases |q.queue|
  {
    if q.queue == [] {
      assert q.Members() == {};
    } else {
      var t := q.(queue := q.queue[1..]);
      var h := set e | e in q.queue[0];
      assert forall p, e :: t.Has(p, e) ==> q.Has(p + 1, e);
      LengthIsMembers(t);
      DistinctSize(q.queue[0]);
      forall e ensures e in q.Members() <==> e in h || e in t.Members() {
        var p := q.MemberIff(e);
        var p' := t.MemberIff(e);
        assert q.Has(p, e) && p > 0 ==> t.Has(p - 1, e);
        assert t.Has(p', e) ==> q.Has(p' + 1, e);
        assert e in h ==> q.Has(0, e);
      }
      assert q.Members() == h + t.Members();
      forall e | e in h ensures e !in t.Members() {
        var p := t.MemberIff(e);
        assert t.Has(p, e) ==> q.Has(p + 1, e) && q.Has(0, e);
      }
    }
  }

  lemma {:induction false} DistinctSize(s: seq<Ent>)
    requires Distinct(s)
    ensures |set e | e in s| == |s|
  {
    if s == [] {
      assert (set e | e in s) == {};
    } else {
      DistinctSize(s[1..]);
      assert (set e | e in s) == {s[0]} + (set e | e in s[1..]);
    }
  }
}
