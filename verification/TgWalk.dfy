/** walk_tg_tree: the goto-driven walk does what the recursive traversal does. */
module TgWalk {
  import opened Common
  import opened TgTree

  /** A visitor sees a group and the data so far, and returns a code and the data after. */
  type Visitor<!D> = (nat, D) -> (int, D)

  /** Down on entry, the children in order, up on leaving; the first non-zero code ends it. */
  ghost function Visit<D>(t: Tree, down: Visitor<D>, up: Visitor<D>, d: D): (int, D)
    decreases t, 2
  {
    var (r, d1) := down(t.id, d);
    if r != 0 then (r, d1) else Finish(t.id, t.kids, down, up, d1)
  }

  ghost function VisitAll<D>(ts: seq<Tree>, down: Visitor<D>, up: Visitor<D>, d: D): (int, D)
    decreases ts, 0
  {
    if ts == [] then (0, d)
    else
      var (r, d1) := Visit(ts[0], down, up, d);
      if r != 0 then (r, d1) else VisitAll(ts[1..], down, up, d1)
  }

  /** The rest of a group once its first children are done. */
  ghost function Finish<D>(id: nat, rest: seq<Tree>, down: Visitor<D>, up: Visitor<D>, d: D): (int, D)
    decreases rest, 1
  {
    var (r, d1) := VisitAll(rest, down, up, d);
    if r != 0 then (r, d1) else up(id, d1)
  }

  // --- what is left to do, part way through the goto-driven walk ---

  /** A group being visited, and its children still to come. */
  datatype Frame = Frame(id: nat, rest: seq<Tree>)

  /** The result of the whole walk once the current subtree has given r and d. */
  ghost function Resume<D>(stack: seq<Frame>, r: int, d: D, down: Visitor<D>, up: Visitor<D>): (int, D)
    decreases stack
  {
    if r != 0 || stack == [] then (r, d)
    else
      var (r1, d1) := Finish(stack[0].id, stack[0].rest, down, up, d);
      Resume(stack[1..], r1, d1, down, up)
  }

  ghost function WorkLeft(stack: seq<Frame>): nat {
    if stack == [] then 0 else 2 * SizeAll(stack[0].rest) + 1 + WorkLeft(stack[1..])
  }

  ghost function Above(stack: seq<Frame>): Option<nat> {
    if stack == [] then None else Some(stack[0].id)
  }

  /** rest is the tail of the child list that starts with the group `first`, and its links are right. */
  ghost predicate Siblings(l: Links, first: Option<nat>, rest: seq<Tree>, par: nat) {
    && first == (if rest == [] then None else Some(rest[0].id))
    && (forall k :: k in rest ==> Represents(l, k, Some(par)))
    && (forall i {:trigger NextOk(l, rest, i)} :: 0 <= i < |rest| ==> NextOk(l, rest, i))
  }

  /** The links agree with the stack: each frame's group points up to the next frame. */
  ghost predicate StackOk(l: Links, stack: seq<Frame>, current: nat)
    decreases stack
  {
    stack == [] ||
    (var f := stack[0];
     && current in l.next && Siblings(l, l.next[current], f.rest, f.id)
     && f.id in l.parent && l.parent[f.id] == Above(stack[1..])
     && StackOk(l, stack[1..], f.id))
  }

  lemma FirstSibling(l: Links, rest: seq<Tree>, par: nat, first: Option<nat>)
    requires rest != [] && Siblings(l, first, rest, par)
    ensures rest[0].id in l.next && Siblings(l, l.next[rest[0].id], rest[1..], par)
    ensures Represents(l, rest[0], Some(par))
  {
    assert NextOk(l, rest, 0);
    var tail := rest[1..];
    forall i {:trigger NextOk(l, tail, i)} | 0 <= i < |tail| ensures NextOk(l, tail, i) {
      assert NextOk(l, rest, i + 1);
    }
  }

  lemma KidsAreSiblings(l: Links, t: Tree, par: Option<nat>)
    requires Represents(l, t, par)
    ensures Siblings(l, if l.children[t.id] == [] then None else Some(l.children[t.id][0]), t.kids, t.id)
  {
  }

  /**
   The walk over parent, children and sibling links makes exactly the calls of the recursive
   traversal, whatever the visitors do, and returns what it returns.
   */
  method WalkTgTree<D>(l: Links, root: nat, down: Visitor<D>, up: Visitor<D>, d0: D, ghost t: Tree)
    returns (ret: int, d: D)
    requires Represents(l, t, None) && root == t.id
    ensures (ret, d) == Visit(t, down, up, d0)
  {
    d := d0;
    var parent := root;
    // The label the code is about to run: down, or the loop over the remaining children.
    var atDown := true;
    var child: Option<nat> := None;
    ghost var cur, stack: seq<Frame>, rest: seq<Tree> := t, [], [];
    while true
      invariant parent in l.parent && l.parent[parent] == Above(stack) && StackOk(l, stack, parent)
      invariant atDown ==> parent == cur.id && Represents(l, cur, Above(stack))
      invariant !atDown ==> Siblings(l, child, rest, parent)
      invariant Visit(t, down, up, d0) ==
        if atDown then
          (var (r, d1) := Visit(cur, down, up, d); Resume(stack, r, d1, down, up))
        else
          (var (r, d1) := Finish(parent, rest, down, up, d); Resume(stack, r, d1, down, up))
      decreases WorkLeft(stack) + (if atDown then 2 * Size(cur) else 2 * SizeAll(rest) + 1), !atDown
    {
      if atDown {
        var res := down(parent, d);
        ret, d := res.0, res.1;
        if ret != 0 {
          return;
        }
        KidsAreSiblings(l, cur, Above(stack));
        child := if l.children[parent] == [] then None else Some(l.children[parent][0]);
        rest := cur.kids;
        atDown := false;
      } else if child.Some? {
        FirstSibling(l, rest, parent, child);
        cur, stack := rest[0], [Frame(parent, rest[1..])] + stack;
        parent := child.value;
        atDown := true;
      } else {
        var res := up(parent, d);
        ret, d := res.0, res.1;
        if ret != 0 {
          return;
        }
        var left := parent;
        if l.parent[left].None? {
          return;
        }
        parent := l.parent[left].value;
        child := l.next[left];
        rest, stack := stack[0].rest, stack[1..];
      }
    }
  }
}
