/** The hierarchy of task groups: as a tree, and as the list links the kernel keeps. */
module TgTree {
  import opened Common

  datatype Tree = Node(id: nat, kids: seq<Tree>)

  ghost function Ids(t: Tree): set<nat> {
    {t.id} + set k, x | k in t.kids && x in Ids(k) :: x
  }

  /** No group appears twice. */
  ghost predicate Distinct(t: Tree) {
    && (forall k :: k in t.kids ==> t.id !in Ids(k) && Distinct(k))
    && (forall i, j :: 0 <= i < j < |t.kids| ==> Ids(t.kids[i]) !! Ids(t.kids[j]))
  }

  function KidIds(kids: seq<Tree>): (r: seq<nat>)
    ensures |r| == |kids| && forall i :: 0 <= i < |kids| ==> r[i] == kids[i].id
  {
    seq(|kids|, i requires 0 <= i < |kids| => kids[i].id)
  }

  /** tg->parent, the list tg->children, and the next pointer of tg->siblings (None at the list head). */
  datatype Links = Links(parent: map<nat, Option<nat>>, children: map<nat, seq<nat>>, next: map<nat, Option<nat>>)

  ghost predicate NextOk(l: Links, kids: seq<Tree>, i: nat)
    requires i < |kids|
  {
    kids[i].id in l.next && l.next[kids[i].id] == if i + 1 < |kids| then Some(kids[i + 1].id) else None
  }

  /** The links spell out the tree t hanging below par. */
  ghost predicate Represents(l: Links, t: Tree, par: Option<nat>) {
    && t.id in l.parent && l.parent[t.id] == par
    && t.id in l.children && l.children[t.id] == KidIds(t.kids)
    && (forall i {:trigger NextOk(l, t.kids, i)} :: 0 <= i < |t.kids| ==> NextOk(l, t.kids, i))
    && (forall k :: k in t.kids ==> Represents(l, k, Some(t.id)))
  }

  function Size(t: Tree): nat {
    1 + SizeAll(t.kids)
  }

  function SizeAll(ts: seq<Tree>): nat {
    if ts == [] then 0 else Size(ts[0]) + SizeAll(ts[1..])
  }

  lemma KidIn(t: Tree, k: Tree)
    requires k in t.kids
    ensures Ids(k) <= Ids(t) && k.id in Ids(t) && k.id in Ids(k)
  {
  }

  lemma IdsSplit(t: Tree, x: nat)
    ensures x in Ids(t) <==> x == t.id || exists k :: k in t.kids && x in Ids(k)
  {
  }

  /** A tree is only about the links of its own groups. */
  lemma {:induction false} Frame(l: Links, l': Links, t: Tree, par: Option<nat>)
    requires Represents(l, t, par)
    requires forall x :: x in Ids(t) ==> x in l'.parent && x in l.parent && l'.parent[x] == l.parent[x]
    requires forall x :: x in Ids(t) ==> x in l'.children && x in l.children && l'.children[x] == l.children[x]
    requires forall x :: x in Ids(t) && x != t.id && x in l.next ==> x in l'.next && l'.next[x] == l.next[x]
    requires Distinct(t)
    ensures Represents(l', t, par)
  {
    forall i {:trigger NextOk(l', t.kids, i)} | 0 <= i < |t.kids| ensures NextOk(l', t.kids, i) {
      assert NextOk(l, t.kids, i);
      KidIn(t, t.kids[i]);
    }
    forall k | k in t.kids ensures Represents(l', k, Some(t.id)) {
      KidIn(t, k);
      Frame(l, l', k, Some(t.id));
    }
  }

  // --- adding a child at the head of a list ---

  function AddKid(t: Tree, p: nat, n: nat): Tree {
    if t.id == p then Node(t.id, [Node(n, [])] + t.kids) else Node(t.id, AddKidAll(t.kids, p, n))
  }

  function AddKidAll(ts: seq<Tree>, p: nat, n: nat): (r: seq<Tree>)
    ensures |r| == |ts| && forall i :: 0 <= i < |ts| ==> r[i] == AddKid(ts[i], p, n)
  {
    if ts == [] then [] else [AddKid(ts[0], p, n)] + AddKidAll(ts[1..], p, n)
  }

  lemma {:induction false} AddKidAbsent(t: Tree, p: nat, n: nat)
    requires p !in Ids(t)
    ensures AddKid(t, p, n) == t
  {
    forall i | 0 <= i < |t.kids| ensures AddKid(t.kids[i], p, n) == t.kids[i] {
      KidIn(t, t.kids[i]);
      AddKidAbsent(t.kids[i], p, n);
    }
    assert AddKidAll(t.kids, p, n) == t.kids;
  }

  lemma {:induction false} AddKidIds(t: Tree, p: nat, n: nat)
    ensures Ids(AddKid(t, p, n)) == Ids(t) + if p in Ids(t) then {n} else {}
  {
    var r := AddKid(t, p, n);
    if p !in Ids(t) {
      AddKidAbsent(t, p, n);
    } else if t.id == p {
      assert Ids(Node(n, [])) == {n};
      forall x ensures x in Ids(r) <==> x in Ids(t) + {n} {
        IdsSplit(t, x);
        IdsSplit(r, x);
        assert r.kids[0] == Node(n, []);
        assert forall k :: k in r.kids <==> k == Node(n, []) || k in t.kids;
      }
    } else {
      forall i | 0 <= i < |t.kids| ensures Ids(r.kids[i]) == Ids(t.kids[i]) + if p in Ids(t.kids[i]) then {n} else {} {
        AddKidIds(t.kids[i], p, n);
      }
      forall x ensures x in Ids(r) <==> x in Ids(t) + {n} {
        IdsSplit(t, x);
        IdsSplit(r, x);
        IdsSplit(t, p);
        AddKidIdAt(t, r, p, n, x);
      }
    }
  }

  lemma AddKidIdAt(t: Tree, r: Tree, p: nat, n: nat, x: nat)
    requires |r.kids| == |t.kids| && r.id == t.id != p && p in Ids(t)
    requires forall i :: 0 <= i < |t.kids| ==> Ids(r.kids[i]) == Ids(t.kids[i]) + if p in Ids(t.kids[i]) then {n} else {}
    ensures x in Ids(r) <==> x in Ids(t) || x == n
  {
    var i := KidWith(r, x);
    var j := KidWith(t, x);
    var m := KidWith(t, p);
    forall i' | 0 <= i' < |t.kids|
      ensures Ids(t.kids[i']) <= Ids(t) && Ids(r.kids[i']) <= Ids(r)
    {
      KidIn(t, t.kids[i']);
      KidIn(r, r.kids[i']);
    }
  }

  /** The child whose subtree holds x. */
  lemma KidWith(t: Tree, x: nat) returns (i: int)
    ensures x in Ids(t) && x != t.id ==> 0 <= i < |t.kids| && x in Ids(t.kids[i])
  {
    i := -1;
    if x in Ids(t) && x != t.id {
      var k :| k in t.kids && x in Ids(k);
      i :| 0 <= i < |t.kids| && t.kids[i] == k;
    }
  }

  lemma {:induction false} AddKidDistinct(t: Tree, p: nat, n: nat)
    requires Distinct(t) && n !in Ids(t)
    ensures Distinct(AddKid(t, p, n))
  {
    var r := AddKid(t, p, n);
    if t.id == p {
      AddKidDistinctHere(t, n);
    } else {
      forall i | 0 <= i < |t.kids|
        ensures Distinct(r.kids[i]) && Ids(r.kids[i]) == Ids(t.kids[i]) + if p in Ids(t.kids[i]) then {n} else {}
      {
        KidIn(t, t.kids[i]);
        AddKidDistinct(t.kids[i], p, n);
        AddKidIds(t.kids[i], p, n);
      }
      AddKidDistinctBelow(t, r, p, n);
    }
  }

  lemma AddKidDistinctHere(t: Tree, n: nat)
    requires Distinct(t) && n !in Ids(t)
    ensures Distinct(Node(t.id, [Node(n, [])] + t.kids))
  {
    var r := Node(t.id, [Node(n, [])] + t.kids);
    assert Ids(Node(n, [])) == {n};
    assert forall i :: 0 < i < |r.kids| ==> r.kids[i] == t.kids[i - 1];
    forall i | 0 <= i < |t.kids| ensures n !in Ids(t.kids[i]) { KidIn(t, t.kids[i]); }
    assert t.id in Ids(t);
  }

  lemma AddKidDistinctBelow(t: Tree, r: Tree, p: nat, n: nat)
    requires Distinct(t) && n !in Ids(t) && r.id == t.id && |r.kids| == |t.kids|
    requires forall i :: 0 <= i < |t.kids| ==>
               Distinct(r.kids[i]) && Ids(r.kids[i]) == Ids(t.kids[i]) + if p in Ids(t.kids[i]) then {n} else {}
    ensures Distinct(r)
  {
    assert t.id in Ids(t);
    forall i | 0 <= i < |t.kids| ensures n !in Ids(t.kids[i]) && t.id !in Ids(t.kids[i]) {
      KidIn(t, t.kids[i]);
      assert t.kids[i] in t.kids;
    }
  }

  /** The links after list_add_rcu of n under p. */
  function LinkKid(l: Links, p: nat, n: nat): Links
    requires p in l.children
  {
    Links(l.parent[n := Some(p)],
          l.children[n := []][p := [n] + l.children[p]],
          l.next[n := if l.children[p] == [] then None else Some(l.children[p][0])])
  }

  lemma {:induction false} LinkKidRepresents(l: Links, t: Tree, par: Option<nat>, p: nat, n: nat)
    requires Represents(l, t, par) && Distinct(t) && n !in Ids(t) && p in l.children && n != p
    ensures Represents(LinkKid(l, p, n), AddKid(t, p, n), par)
  {
    var l', r := LinkKid(l, p, n), AddKid(t, p, n);
    forall k | k in t.kids ensures Represents(l', AddKid(k, p, n), Some(t.id)) {
      KidIn(t, k);
      LinkKidRepresents(l, k, Some(t.id), p, n);
    }
    if t.id == p {
      forall k | k in t.kids ensures AddKid(k, p, n) == k { AddKidAbsent(k, p, n); }
      assert KidIds(r.kids) == [n] + KidIds(t.kids);
      forall i {:trigger NextOk(l', r.kids, i)} | 0 <= i < |r.kids| ensures NextOk(l', r.kids, i) {
        if i > 0 {
          assert NextOk(l, t.kids, i - 1);
          KidIn(t, t.kids[i - 1]);
        }
      }
    } else {
      forall k | k in r.kids ensures Represents(l', k, Some(t.id)) {
        var j :| 0 <= j < |r.kids| && r.kids[j] == k;
        assert t.kids[j] in t.kids;
      }
      assert KidIds(r.kids) == KidIds(t.kids);
      forall i {:trigger NextOk(l', r.kids, i)} | 0 <= i < |r.kids| ensures NextOk(l', r.kids, i) {
        assert NextOk(l, t.kids, i);
        KidIn(t, t.kids[i]);
      }
    }
  }

  // --- taking a childless group out of its parent's list ---

  function DropKid(t: Tree, p: nat, i: nat): Tree {
    if t.id == p then Node(t.id, if i < |t.kids| then Without(t.kids, i) else t.kids)
    else Node(t.id, DropKidAll(t.kids, p, i))
  }

  function DropKidAll(ts: seq<Tree>, p: nat, i: nat): (r: seq<Tree>)
    ensures |r| == |ts| && forall j :: 0 <= j < |ts| ==> r[j] == DropKid(ts[j], p, i)
  {
    if ts == [] then [] else [DropKid(ts[0], p, i)] + DropKidAll(ts[1..], p, i)
  }

  lemma {:induction false} DropKidAbsent(t: Tree, p: nat, i: nat)
    requires p !in Ids(t)
    ensures DropKid(t, p, i) == t
  {
    forall j | 0 <= j < |t.kids| ensures DropKid(t.kids[j], p, i) == t.kids[j] {
      KidIn(t, t.kids[j]);
      DropKidAbsent(t.kids[j], p, i);
    }
    assert DropKidAll(t.kids, p, i) == t.kids;
  }

  /** The links after list_del_rcu of the i-th child of p. */
  function UnlinkKid(l: Links, p: nat, i: nat): Links
    requires p in l.children && i < |l.children[p]| && l.children[p][i] in l.next
  {
    var kids := l.children[p];
    Links(l.parent,
          l.children[p := Without(kids, i)],
          if i == 0 then l.next else l.next[kids[i - 1] := l.next[kids[i]]])
  }

  lemma {:induction false} UnlinkKidRepresents(l: Links, t: Tree, par: Option<nat>, p: nat, i: nat)
    requires Represents(l, t, par) && Distinct(t)
    requires p in l.children && i < |l.children[p]| && l.children[p][i] in l.next
    requires i > 0 ==> l.children[p][i - 1] in l.parent && l.parent[l.children[p][i - 1]] == Some(p)
    ensures Represents(UnlinkKid(l, p, i), DropKid(t, p, i), par)
  {
    var l', r := UnlinkKid(l, p, i), DropKid(t, p, i);
    forall k | k in t.kids ensures Represents(l', DropKid(k, p, i), Some(t.id)) {
      UnlinkKidRepresents(l, k, Some(t.id), p, i);
    }
    if t.id == p {
      forall k | k in t.kids ensures DropKid(k, p, i) == k { DropKidAbsent(k, p, i); }
      assert forall k :: k in r.kids ==> k in t.kids;
      UnlinkNext(l, l', t, i);
    } else {
      forall k | k in r.kids ensures Represents(l', k, Some(t.id)) {
        var j :| 0 <= j < |r.kids| && r.kids[j] == k;
        assert t.kids[j] in t.kids;
      }
      assert KidIds(r.kids) == KidIds(t.kids);
      UnlinkElsewhere(l, l', t, r.kids, p, i);
    }
  }

  /** The one sibling link that changes belongs to a child of p. */
  lemma UnlinkElsewhere(l: Links, l': Links, t: Tree, kids: seq<Tree>, p: nat, i: nat)
    requires p in l.children && i < |l.children[p]| && l.children[p][i] in l.next
    requires i > 0 ==> l.children[p][i - 1] in l.parent && l.parent[l.children[p][i - 1]] == Some(p)
    requires l' == UnlinkKid(l, p, i) && t.id != p && KidIds(kids) == KidIds(t.kids)
    requires forall k :: k in t.kids ==> k.id in l.parent && l.parent[k.id] == Some(t.id)
    requires forall j {:trigger NextOk(l, t.kids, j)} :: 0 <= j < |t.kids| ==> NextOk(l, t.kids, j)
    ensures forall j {:trigger NextOk(l', kids, j)} :: 0 <= j < |kids| ==> NextOk(l', kids, j)
  {
    assert |kids| == |KidIds(kids)| == |t.kids|;
    forall j {:trigger NextOk(l', kids, j)} | 0 <= j < |kids| ensures NextOk(l', kids, j) {
      assert NextOk(l, t.kids, j);
      assert KidIds(kids)[j] == KidIds(t.kids)[j];
      assert j + 1 < |kids| ==> KidIds(kids)[j + 1] == KidIds(t.kids)[j + 1];
      assert t.kids[j] in t.kids;
    }
  }

  lemma UnlinkNext(l: Links, l': Links, t: Tree, i: nat)
    requires Distinct(t) && i < |t.kids| && forall j {:trigger NextOk(l, t.kids, j)} :: 0 <= j < |t.kids| ==> NextOk(l, t.kids, j)
    requires t.kids[i].id in l.next
    requires l'.next == if i == 0 then l.next else l.next[t.kids[i - 1].id := l.next[t.kids[i].id]]
    ensures KidIds(Without(t.kids, i)) == Without(KidIds(t.kids), i)
    ensures var r := Without(t.kids, i);
      forall j {:trigger NextOk(l', r, j)} :: 0 <= j < |r| ==> NextOk(l', r, j)
  {
    var r := Without(t.kids, i);
    KidIdsApart(t);
    forall j {:trigger NextOk(l', r, j)} | 0 <= j < |r| ensures NextOk(l', r, j) {
      UnlinkNextAt(l, l', t.kids, i, j);
    }
  }

  lemma UnlinkNextAt(l: Links, l': Links, kids: seq<Tree>, i: nat, j: nat)
    requires i < |kids| && j < |kids| - 1
    requires forall j {:trigger NextOk(l, kids, j)} :: 0 <= j < |kids| ==> NextOk(l, kids, j)
    requires forall i, j :: 0 <= i < |kids| && 0 <= j < |kids| && i != j ==> kids[i].id != kids[j].id
    requires kids[i].id in l.next
    requires l'.next == if i == 0 then l.next else l.next[kids[i - 1].id := l.next[kids[i].id]]
    ensures NextOk(l', Without(kids, i), j)
  {
    var r := Without(kids, i);
    assert NextOk(l, kids, i);
    if j < i {
      assert NextOk(l, kids, j) && r[j] == kids[j];
      assert j + 1 < |r| ==> r[j + 1] == if j + 1 < i then kids[j + 1] else kids[j + 2];
    } else {
      assert NextOk(l, kids, j + 1) && r[j] == kids[j + 1];
      assert j + 1 < |r| ==> r[j + 1] == kids[j + 2];
      assert i > 0 ==> kids[j + 1].id != kids[i - 1].id;
    }
  }

  lemma KidIdsApart(t: Tree)
    requires Distinct(t)
    ensures forall i, j :: 0 <= i < |t.kids| && 0 <= j < |t.kids| && i != j ==> t.kids[i].id != t.kids[j].id
  {
    forall i | 0 <= i < |t.kids| ensures t.kids[i].id in Ids(t.kids[i]) { KidIn(t, t.kids[i]); }
  }

  lemma {:induction false} DropKidIds(t: Tree, p: nat, i: nat)
    ensures Ids(DropKid(t, p, i)) <= Ids(t)
  {
    var r := DropKid(t, p, i);
    if t.id == p {
      assert forall k :: k in r.kids ==> k in t.kids;
      forall x | x in Ids(r) ensures x in Ids(t) { var j := KidWith(r, x); }
    } else {
      forall x | x in Ids(r) ensures x in Ids(t) {
        var j := KidWith(r, x);
        if x != r.id {
          DropKidIds(t.kids[j], p, i);
          KidIn(t, t.kids[j]);
        }
      }
    }
  }

  lemma {:induction false} DropKidDistinct(t: Tree, p: nat, i: nat)
    requires Distinct(t)
    ensures Distinct(DropKid(t, p, i))
  {
    var r := DropKid(t, p, i);
    if t.id == p {
      assert forall k :: k in r.kids ==> k in t.kids;
    } else {
      forall j | 0 <= j < |t.kids| ensures Distinct(r.kids[j]) && Ids(r.kids[j]) <= Ids(t.kids[j]) {
        assert t.kids[j] in t.kids;
        DropKidDistinct(t.kids[j], p, i);
        DropKidIds(t.kids[j], p, i);
      }
      DropDistinctBelow(t, r);
    }
  }

  lemma DropDistinctBelow(t: Tree, r: Tree)
    requires Distinct(t) && r.id == t.id && |r.kids| == |t.kids|
    requires forall j :: 0 <= j < |t.kids| ==> Distinct(r.kids[j]) && Ids(r.kids[j]) <= Ids(t.kids[j])
    ensures Distinct(r)
  {
    forall j | 0 <= j < |t.kids| ensures t.id !in Ids(t.kids[j]) {
      assert t.kids[j] in t.kids;
    }
  }

  /** Every group's links, read off the tree. */
  lemma {:induction false} ChildrenKnown(l: Links, t: Tree, par: Option<nat>, x: nat)
    requires Represents(l, t, par) && x in Ids(t)
    ensures x in l.children && x in l.parent
    ensures x == t.id ==> l.parent[x] == par
    ensures forall c :: c in l.children[x] ==> c in Ids(t) && c in l.parent && l.parent[c] == Some(x) && c in l.next
  {
    if x != t.id {
      var i := KidWith(t, x);
      KidIn(t, t.kids[i]);
      ChildrenKnown(l, t.kids[i], Some(t.id), x);
    } else {
      forall c | c in l.children[x] ensures c in Ids(t) && c in l.parent && l.parent[c] == Some(x) && c in l.next {
        var i :| 0 <= i < |t.kids| && KidIds(t.kids)[i] == c;
        KidIn(t, t.kids[i]);
        assert NextOk(l, t.kids, i);
      }
    }
  }

  lemma {:induction false} ParentKnown(l: Links, t: Tree, par: Option<nat>, x: nat)
    requires Represents(l, t, par) && x in Ids(t) && x != t.id
    ensures x in l.parent && l.parent[x].Some?
    ensures var p := l.parent[x].value; p in Ids(t) && p in l.children && x in l.children[p]
  {
    var i := KidWith(t, x);
    KidIn(t, t.kids[i]);
    if x == t.kids[i].id {
      assert KidIds(t.kids)[i] == x;
    } else {
      ParentKnown(l, t.kids[i], Some(t.id), x);
    }
  }

  /** Dropping a childless group removes that group and nothing else. */
  lemma {:induction false} DropLeafIds(l: Links, t: Tree, par: Option<nat>, p: nat, i: nat)
    requires Represents(l, t, par) && Distinct(t) && p in Ids(t)
    requires p in l.children && i < |l.children[p]| && l.children[p][i] in l.children && l.children[l.children[p][i]] == []
    ensures l.children[p][i] != t.id && Ids(DropKid(t, p, i)) == Ids(t) - {l.children[p][i]}
  {
    if t.id == p {
      assert t.kids[i] in t.kids;
      assert |KidIds(t.kids[i].kids)| == 0;
      DropHere(t, i);
    } else {
      var m := KidWith(t, p);
      var k := t.kids[m];
      KidIn(t, k);
      ChildrenKnown(l, k, Some(t.id), p);
      DropLeafIds(l, k, Some(t.id), p, i);
      DropBeside(t, m, p, i, l.children[p][i]);
    }
  }

  lemma DropBeside(t: Tree, m: nat, p: nat, i: nat, x: nat)
    requires Distinct(t) && m < |t.kids| && p in Ids(t.kids[m]) && x in Ids(t.kids[m]) && t.id != p
    requires Ids(DropKid(t.kids[m], p, i)) == Ids(t.kids[m]) - {x}
    ensures x != t.id && Ids(DropKid(t, p, i)) == Ids(t) - {x}
  {
    var r := DropKid(t, p, i);
    forall j | 0 <= j < |t.kids| ensures Ids(r.kids[j]) == Ids(t.kids[j]) - {x} {
      if j != m { DropElsewhere(t, j, m, p, i, x); }
    }
    assert t.kids[m] in t.kids;
    DropBelow(t, r, x);
  }

  lemma DropElsewhere(t: Tree, j: nat, m: nat, p: nat, i: nat, x: nat)
    requires Distinct(t) && j < |t.kids| && m < |t.kids| && j != m && p in Ids(t.kids[m]) && x in Ids(t.kids[m])
    ensures Ids(DropKid(t.kids[j], p, i)) == Ids(t.kids[j]) - {x}
  {
    assert Ids(t.kids[j]) !! Ids(t.kids[m]) by {
      if j < m { assert Ids(t.kids[j]) !! Ids(t.kids[m]); } else { assert Ids(t.kids[m]) !! Ids(t.kids[j]); }
    }
    DropKidAbsent(t.kids[j], p, i);
  }

  lemma DropHere(t: Tree, i: nat)
    requires Distinct(t) && i < |t.kids| && t.kids[i].kids == []
    ensures t.kids[i].id != t.id
    ensures Ids(Node(t.id, Without(t.kids, i))) == Ids(t) - {t.kids[i].id}
  {
    var r, x := Node(t.id, Without(t.kids, i)), t.kids[i].id;
    assert Ids(t.kids[i]) == {x} && t.kids[i] in t.kids;
    forall y | y in Ids(r) ensures y in Ids(t) && y != x {
      if y != t.id { DropHereOut(t, i, y); }
    }
    forall y | y in Ids(t) && y != x ensures y in Ids(r) {
      if y != t.id { DropHereIn(t, i, y); }
    }
  }

  lemma DropHereOut(t: Tree, i: nat, y: nat)
    requires Distinct(t) && i < |t.kids| && y in Ids(Node(t.id, Without(t.kids, i))) && y != t.id
    ensures y in Ids(t) && y !in Ids(t.kids[i])
  {
    var r := Node(t.id, Without(t.kids, i));
    var n := KidWith(r, y);
    var j := if n < i then n else n + 1;
    assert r.kids[n] == t.kids[j];
    KidIn(t, t.kids[j]);
    if j < i { assert Ids(t.kids[j]) !! Ids(t.kids[i]); } else { assert Ids(t.kids[i]) !! Ids(t.kids[j]); }
  }

  lemma DropHereIn(t: Tree, i: nat, y: nat)
    requires i < |t.kids| && y in Ids(t) && y != t.id && y !in Ids(t.kids[i])
    ensures y in Ids(Node(t.id, Without(t.kids, i)))
  {
    var r := Node(t.id, Without(t.kids, i));
    var j := KidWith(t, y);
    assert r.kids[if j < i then j else j - 1] == t.kids[j];
    KidIn(r, t.kids[j]);
  }

  lemma DropBelow(t: Tree, r: Tree, x: nat)
    requires r.id == t.id != x && |r.kids| == |t.kids|
    requires forall j :: 0 <= j < |t.kids| ==> Ids(r.kids[j]) == Ids(t.kids[j]) - {x}
    ensures Ids(r) == Ids(t) - {x}
  {
    forall y ensures y in Ids(r) <==> y in Ids(t) && y != x {
      var j := KidWith(t, y);
      var n := KidWith(r, y);
      if y in Ids(t) && y != t.id { KidIn(r, r.kids[j]); }
      if y in Ids(r) && y != t.id { KidIn(t, t.kids[n]); }
    }
  }
}
