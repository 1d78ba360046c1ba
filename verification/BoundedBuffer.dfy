/**
 One producer and one consumer over 32 slots and two counting semaphores, one read, write
 or semaphore operation a step. A slot is free when its b is zero.
 */
module BoundedBuffer {
  datatype Item = Item(a: int, b: int)

  const Slots := 32

  datatype Producer =
    | PTop | PScan(i: nat)
    | PFound(i: nat)                // slot i was seen free
    | PHalf(i: nat, a: int)         // its a is written
    | PPost

  datatype Consumer =
    | CTop | CScan(i: nat)
    | CFound(i: nat)                // slot i was seen full
    | CSleep(i: nat, a: int)        // a printed, about to read b for the sleep
    | CPrint(i: nat, a: int)        // about to read b for printing
    | CClearA(i: nat) | CClearB(i: nat) | CPost

  /** made and eaten record what was drawn for each item and what was printed. */
  datatype State = State(
    buff: seq<Item>, semP: nat, semC: nat,
    prod: Producer, cons: Consumer, pcnt: nat, ccnt: nat,
    made: seq<Item>, eaten: seq<Item>)

  predicate ProducerEnabled(s: State, n: nat, v: int) {
    match s.prod
    case PTop => s.pcnt < n && s.semP > 0
    case PHalf(i, _) => v != 0 && i < |s.buff|
    case PFound(i) => i < |s.buff|
    case PScan(i) => i <= |s.buff|
    case PPost => true
  }

  /** v is the random value drawn, if the step draws one. */
  function ProducerStep(s: State, n: nat, v: int): State
    requires ProducerEnabled(s, n, v)
  {
    match s.prod
    case PTop => s.(semP := s.semP - 1, prod := PScan(0))
    case PScan(i) =>
      if i == |s.buff| then s.(prod := PPost)
      else s.(prod := if s.buff[i].b == 0 then PFound(i) else PScan(i + 1))
    case PFound(i) => s.(buff := s.buff[i := s.buff[i].(a := v)], prod := PHalf(i, v))
    case PHalf(i, a) => s.(buff := s.buff[i := s.buff[i].(b := v)], prod := PPost, made := s.made + [Item(a, v)])
    case PPost => s.(semC := s.semC + 1, prod := PTop, pcnt := s.pcnt + 1)
  }

  predicate ConsumerEnabled(s: State, n: nat) {
    match s.cons
    case CTop => s.ccnt < n && s.semC > 0
    case CScan(i) => i <= |s.buff|
    case CPost => true
    case CFound(i) => i < |s.buff|
    case CSleep(i, _) => i < |s.buff|
    case CPrint(i, _) => i < |s.buff|
    case CClearA(i) => i < |s.buff|
    case CClearB(i) => i < |s.buff|
  }

  function ConsumerStep(s: State, n: nat): State
    requires ConsumerEnabled(s, n)
  {
    match s.cons
    case CTop => s.(semC := s.semC - 1, cons := CScan(0))
    case CScan(i) =>
      if i == |s.buff| then s.(cons := CPost)
      else s.(cons := if s.buff[i].b != 0 then CFound(i) else CScan(i + 1))
    case CFound(i) => s.(cons := CSleep(i, s.buff[i].a))
    case CSleep(i, a) => s.(cons := CPrint(i, a))
    case CPrint(i, a) => s.(cons := CClearA(i), eaten := s.eaten + [Item(a, s.buff[i].b)])
    case CClearA(i) => s.(buff := s.buff[i := s.buff[i].(a := 0)], cons := CClearB(i))
    case CClearB(i) => s.(buff := s.buff[i := s.buff[i].(b := 0)], cons := CPost)
    case CPost => s.(semP := s.semP + 1, cons := CTop, ccnt := s.ccnt + 1)
  }

  // --- what the slots hold ---

  function Slot(x: Item): multiset<Item> {
    if x.b == 0 then multiset{} else multiset{x}
  }

  /** The items in full slots. */
  function Stored(buff: seq<Item>): multiset<Item> {
    if buff == [] then multiset{} else Stored(buff[..|buff| - 1]) + Slot(buff[|buff| - 1])
  }

  lemma StoredLast(buff: seq<Item>, last: Item)
    ensures Stored(buff + [last]) == Stored(buff) + Slot(last)
  {
    assert (buff + [last])[..|buff|] == buff;
  }

  lemma Regroup(a: multiset<Item>, a': multiset<Item>, l: multiset<Item>, o: multiset<Item>, x: multiset<Item>)
    requires a' + o == a + x
    ensures (a' + l) + o == (a + l) + x
  {
    assert (a' + l) + o == (a' + o) + l;
  }

  lemma SetFront(front: seq<Item>, last: Item, i: nat, x: Item)
    requires i < |front| && Stored(front[i := x]) + Slot(front[i]) == Stored(front) + Slot(x)
    ensures Stored(front[i := x] + [last]) + Slot(front[i]) == Stored(front + [last]) + Slot(x)
  {
    StoredLast(front, last);
    StoredLast(front[i := x], last);
    Regroup(Stored(front), Stored(front[i := x]), Slot(last), Slot(front[i]), Slot(x));
  }

  lemma SetLast(front: seq<Item>, last: Item, x: Item)
    ensures Stored(front + [x]) + Slot(last) == Stored(front + [last]) + Slot(x)
  {
    StoredLast(front, last);
    StoredLast(front, x);
  }

  /** Writing slot i takes out what it held and puts in what it holds now. */
  lemma {:induction false} StoredSet(buff: seq<Item>, i: nat, x: Item)
    requires i < |buff|
    ensures Stored(buff[i := x]) + Slot(buff[i]) == Stored(buff) + Slot(x)
  {
    var n := |buff| - 1;
    var front, last := buff[..n], buff[n];
    if i < n {
      StoredSet(front, i, x);
      SetFront(front, last, i, x);
    } else {
      SetLast(front, last, x);
    }
    Sides(buff, i, x);
  }

  lemma Sides(buff: seq<Item>, i: nat, x: Item)
    requires i < |buff|
    ensures var n := |buff| - 1;
            && buff == buff[..n] + [buff[n]]
            && buff[i := x] == if i < n then buff[..n][i := x] + [buff[n]] else buff[..n] + [x]
  {
  }

  lemma {:induction false} SomeFull(buff: seq<Item>) returns (j: nat)
    requires |Stored(buff)| > 0
    ensures j < |buff| && buff[j].b != 0
  {
    if buff[|buff| - 1].b != 0 {
      j := |buff| - 1;
    } else {
      j := SomeFull(buff[..|buff| - 1]);
    }
  }

  lemma {:induction false} SomeFree(buff: seq<Item>) returns (j: nat)
    requires |Stored(buff)| < |buff|
    ensures j < |buff| && buff[j].b == 0
  {
    if buff[|buff| - 1].b == 0 {
      j := |buff| - 1;
    } else {
      j := SomeFree(buff[..|buff| - 1]);
    }
  }

  // --- the invariant ---

  predicate ProducerHasToken(p: Producer) {
    p.PScan? || p.PFound? || p.PHalf?
  }

  predicate ConsumerHasToken(c: Consumer) {
    !c.CTop? && !c.CPost?
  }

  /** The items stored and not yet printed. */
  function Waiting(buff: seq<Item>, c: Consumer): multiset<Item> {
    if (c.CClearA? || c.CClearB?) && c.i < |buff| then Stored(buff[c.i := Item(0, 0)]) else Stored(buff)
  }

  function One(b: bool): nat {
    if b then 1 else 0
  }

  ghost predicate ProducerKnows(buff: seq<Item>, p: Producer) {
    match p
    case PScan(i) => exists j :: i <= j < |buff| && buff[j].b == 0
    case PFound(i) => i < |buff| && buff[i].b == 0
    case PHalf(i, a) => i < |buff| && buff[i] == Item(a, 0)
    case _ => true
  }

  ghost predicate ConsumerKnows(buff: seq<Item>, c: Consumer) {
    match c
    case CScan(i) => exists j :: i <= j < |buff| && buff[j].b != 0
    case CFound(i) => i < |buff| && buff[i].b != 0
    case CSleep(i, a) => i < |buff| && buff[i].b != 0 && buff[i].a == a
    case CPrint(i, a) => i < |buff| && buff[i].b != 0 && buff[i].a == a
    case CClearA(i) => i < |buff| && buff[i].b != 0
    case CClearB(i) => i < |buff| && buff[i].b != 0 && buff[i].a == 0
    case _ => true
  }

  /** The full slots are the tokens in semC and in flight, and the free ones those of semP. */
  ghost predicate Balanced(s: State) {
    && |Stored(s.buff)| == s.semC + One(ConsumerHasToken(s.cons)) + One(s.prod.PPost?)
    && |s.buff| - |Stored(s.buff)| == s.semP + One(ProducerHasToken(s.prod)) + One(s.cons.CPost?)
  }

  ghost predicate Accounted(s: State) {
    && multiset(s.made) == multiset(s.eaten) + Waiting(s.buff, s.cons)
    && |s.made| == s.pcnt + One(s.prod.PPost?)
    && |s.eaten| == s.ccnt + One(s.cons.CClearA? || s.cons.CClearB? || s.cons.CPost?)
  }

  ghost predicate Inv(s: State) {
    && |s.buff| == Slots
    && ProducerKnows(s.buff, s.prod) && ConsumerKnows(s.buff, s.cons)
    && Balanced(s) && Accounted(s)
  }

  lemma StoredFill(buff: seq<Item>, i: nat, x: Item)
    requires i < |buff| && buff[i].b == 0
    ensures Stored(buff[i := x]) == Stored(buff) + Slot(x)
  {
    StoredSet(buff, i, x);
  }

  lemma StoredEmpty(buff: seq<Item>, i: nat, x: Item)
    requires i < |buff| && buff[i].b != 0
    ensures Stored(buff[i := x]) + multiset{buff[i]} == Stored(buff) + Slot(x)
    ensures |Stored(buff[i := x])| + 1 == |Stored(buff)| + |Slot(x)|
  {
    StoredSet(buff, i, x);
    assert |Stored(buff[i := x]) + multiset{buff[i]}| == |Stored(buff) + Slot(x)|;
  }

  /** Writing a free slot adds what it then holds, to what waits for the consumer too. */
  lemma WaitingFill(buff: seq<Item>, i: nat, x: Item, c: Consumer)
    requires i < |buff| && buff[i].b == 0 && ConsumerKnows(buff, c)
    ensures Waiting(buff[i := x], c) == Waiting(buff, c) + Slot(x)
  {
    if c.CClearA? || c.CClearB? {
      var y := Item(0, 0);
      assert buff[c.i].b != 0;
      assert buff[i := x][c.i := y] == buff[c.i := y][i := x];
      StoredFill(buff[c.i := y], i, x);
    } else {
      StoredFill(buff, i, x);
    }
  }

  /** The consumer, elsewhere, sees no change. */
  lemma ConsumerStays(buff: seq<Item>, i: nat, x: Item, c: Consumer)
    requires i < |buff| && buff[i].b == 0 && ConsumerKnows(buff, c)
    ensures ConsumerKnows(buff[i := x], c)
  {
    if c.CScan? {
      var j :| c.i <= j < |buff| && buff[j].b != 0;
      assert buff[i := x][j].b != 0;
    }
  }

  lemma ProducerStays(buff: seq<Item>, i: nat, x: Item, p: Producer)
    requires i < |buff| && buff[i].b != 0 && ProducerKnows(buff, p)
    ensures ProducerKnows(buff[i := x], p)
  {
    if p.PScan? {
      var j :| p.i <= j < |buff| && buff[j].b == 0;
      assert buff[i := x][j].b == 0;
    }
  }

  lemma PrintOne(made: seq<Item>, eaten: seq<Item>, w: multiset<Item>, w': multiset<Item>, x: Item)
    requires multiset(made) == multiset(eaten) + w && w' + multiset{x} == w
    ensures multiset(made) == multiset(eaten + [x]) + w'
  {
    assert multiset(eaten + [x]) == multiset(eaten) + multiset{x};
  }

  lemma MakeOne(made: seq<Item>, eaten: seq<Item>, w: multiset<Item>, x: Item)
    requires multiset(made) == multiset(eaten) + w
    ensures multiset(made + [x]) == multiset(eaten) + (w + multiset{x})
  {
    assert multiset(made + [x]) == multiset(made) + multiset{x};
  }

  /** The producer writes x in the free slot i. */
  lemma WritesHalf(s: State, i: nat, v: int)
    requires Inv(s) && s.prod == PFound(i)
    ensures Inv(s.(buff := s.buff[i := Item(v, 0)], prod := PHalf(i, v)))
  {
    HalfFill(s.buff, i, v, s.cons);
    ConsumerStays(s.buff, i, Item(v, 0), s.cons);
  }

  lemma HalfFill(buff: seq<Item>, i: nat, v: int, c: Consumer)
    requires i < |buff| && buff[i].b == 0 && ConsumerKnows(buff, c)
    ensures Stored(buff[i := Item(v, 0)]) == Stored(buff)
    ensures Waiting(buff[i := Item(v, 0)], c) == Waiting(buff, c)
  {
    StoredFill(buff, i, Item(v, 0));
    WaitingFill(buff, i, Item(v, 0), c);
    assert Stored(buff) + multiset{} == Stored(buff);
    assert Waiting(buff, c) + multiset{} == Waiting(buff, c);
  }

  lemma WritesWhole(s: State, x: Item)
    requires Inv(s) && s.prod.PHalf? && s.prod.a == x.a && x.b != 0
    ensures Inv(s.(buff := s.buff[s.prod.i := x], prod := PPost, made := s.made + [x]))
  {
    var i := s.prod.i;
    StoredFill(s.buff, i, x);
    WaitingFill(s.buff, i, x, s.cons);
    ConsumerStays(s.buff, i, x, s.cons);
    MakeOne(s.made, s.eaten, Waiting(s.buff, s.cons), x);
  }

  lemma ProducerStarts(s: State, n: nat, v: int)
    requires Inv(s) && ProducerEnabled(s, n, v) && s.prod.PTop?
    ensures Inv(ProducerStep(s, n, v))
  {
    var _ := SomeFree(s.buff);
  }

  lemma ProducerScans(s: State, n: nat, v: int)
    requires Inv(s) && s.prod.PScan?
    ensures ProducerEnabled(s, n, v) && Inv(ProducerStep(s, n, v))
  {
  }

  lemma ProducerKeeps(s: State, n: nat, v: int)
    requires Inv(s) && ProducerEnabled(s, n, v)
    ensures Inv(ProducerStep(s, n, v))
  {
    match s.prod
    case PTop => ProducerStarts(s, n, v);
    case PScan(_) => ProducerScans(s, n, v);
    case PFound(i) => WritesHalf(s, i, v);
    case PHalf(i, a) => WritesWhole(s, Item(a, v));
    case _ =>
  }

  lemma StoredOut(buff: seq<Item>, i: nat)
    requires i < |buff| && buff[i].b != 0
    ensures Stored(buff[i := Item(0, 0)]) + multiset{buff[i]} == Stored(buff)
  {
    StoredEmpty(buff, i, Item(0, 0));
    assert Stored(buff) + multiset{} == Stored(buff);
  }

  lemma Prints(s: State, i: nat, a: int)
    requires Inv(s) && s.cons == CPrint(i, a)
    ensures Inv(s.(cons := CClearA(i), eaten := s.eaten + [Item(a, s.buff[i].b)]))
  {
    assert s.buff[i] == Item(a, s.buff[i].b);
    StoredOut(s.buff, i);
    PrintOne(s.made, s.eaten, Stored(s.buff), Stored(s.buff[i := Item(0, 0)]), s.buff[i]);
  }

  lemma StillFull(buff: seq<Item>, i: nat, x: Item)
    requires i < |buff| && buff[i].b != 0 && x.b != 0
    ensures |Stored(buff[i := x])| == |Stored(buff)|
  {
    StoredEmpty(buff, i, x);
  }

  lemma SameWaiting(buff: seq<Item>, i: nat, x: Item)
    requires i < |buff|
    ensures Waiting(buff[i := x], CClearB(i)) == Waiting(buff, CClearA(i))
  {
    assert buff[i := x][i := Item(0, 0)] == buff[i := Item(0, 0)];
  }

  /** A write that changes neither how many slots are full nor what waits. */
  lemma SameTotals(s: State, i: nat, buff: seq<Item>)
    requires Inv(s) && s.cons == CClearA(i) && |buff| == Slots
    requires ProducerKnows(buff, s.prod) && ConsumerKnows(buff, CClearB(i))
    requires |Stored(buff)| == |Stored(s.buff)| && Waiting(buff, CClearB(i)) == Waiting(s.buff, s.cons)
    ensures Inv(s.(buff := buff, cons := CClearB(i)))
  {
  }

  lemma ClearsA(s: State, i: nat)
    requires Inv(s) && s.cons == CClearA(i)
    ensures Inv(s.(buff := s.buff[i := Item(0, s.buff[i].b)], cons := CClearB(i)))
  {
    var x := Item(0, s.buff[i].b);
    StillFull(s.buff, i, x);
    SameWaiting(s.buff, i, x);
    ProducerStays(s.buff, i, x, s.prod);
    SameTotals(s, i, s.buff[i := x]);
  }

  lemma ClearsB(s: State, i: nat)
    requires Inv(s) && s.cons == CClearB(i)
    ensures Inv(s.(buff := s.buff[i := Item(0, 0)], cons := CPost))
  {
    StoredEmpty(s.buff, i, Item(0, 0));
    ProducerStays(s.buff, i, Item(0, 0), s.prod);
  }

  lemma ConsumerStarts(s: State, n: nat)
    requires Inv(s) && ConsumerEnabled(s, n) && s.cons.CTop?
    ensures Inv(ConsumerStep(s, n))
  {
    var _ := SomeFull(s.buff);
  }

  lemma ConsumerScans(s: State, n: nat)
    requires Inv(s) && s.cons.CScan?
    ensures ConsumerEnabled(s, n) && Inv(ConsumerStep(s, n))
  {
  }

  lemma ConsumerKeeps(s: State, n: nat)
    requires Inv(s) && ConsumerEnabled(s, n)
    ensures Inv(ConsumerStep(s, n))
  {
    match s.cons
    case CTop => ConsumerStarts(s, n);
    case CScan(_) => ConsumerScans(s, n);
    case CPrint(i, a) => Prints(s, i, a);
    case CClearA(i) => ClearsA(s, i);
    case CClearB(i) => ClearsB(s, i);
    case _ =>
  }

  // --- runs ---

  datatype Action = Produce(v: int) | Consume

  predicate Enabled(s: State, np: nat, nc: nat, act: Action) {
    if act.Produce? then ProducerEnabled(s, np, act.v) else ConsumerEnabled(s, nc)
  }

  function Apply(s: State, np: nat, nc: nat, act: Action): State
    requires Enabled(s, np, nc, act)
  {
    if act.Produce? then ProducerStep(s, np, act.v) else ConsumerStep(s, nc)
  }

  ghost predicate Init(s: State) {
    s == State(seq(Slots, _ => Item(0, 0)), Slots, 0, PTop, CTop, 0, 0, [], [])
  }

  /** Every interleaving of a producer told to make np items and a consumer told to take nc. */
  ghost predicate Run(np: nat, nc: nat, ss: seq<State>, acts: seq<Action>) {
    && |ss| == |acts| + 1 && Init(ss[0])
    && forall k :: 0 <= k < |acts| ==> Enabled(ss[k], np, nc, acts[k]) && ss[k + 1] == Apply(ss[k], np, nc, acts[k])
  }

  lemma {:induction false} AllFree(n: nat)
    ensures Stored(seq(n, _ => Item(0, 0))) == multiset{}
  {
    if n > 0 {
      AllFree(n - 1);
      assert seq(n, _ => Item(0, 0))[..n - 1] == seq(n - 1, _ => Item(0, 0));
    }
  }

  lemma {:induction false} RunKeeps(np: nat, nc: nat, ss: seq<State>, acts: seq<Action>, k: nat)
    requires Run(np, nc, ss, acts) && k < |ss|
    ensures Inv(ss[k])
  {
    if k == 0 {
      AllFree(Slots);
    } else {
      RunKeeps(np, nc, ss, acts, k - 1);
      if acts[k - 1].Produce? {
        ProducerKeeps(ss[k - 1], np, acts[k - 1].v);
      } else {
        ConsumerKeeps(ss[k - 1], nc);
      }
    }
  }

  // --- what that buys ---

  /** No scan ever comes to the end of the slots without finding one. */
  lemma ScansFind(np: nat, nc: nat, ss: seq<State>, acts: seq<Action>, k: nat)
    requires Run(np, nc, ss, acts) && k < |ss|
    ensures ss[k].prod.PScan? ==> ss[k].prod.i < Slots
    ensures ss[k].cons.CScan? ==> ss[k].cons.i < Slots
  {
    RunKeeps(np, nc, ss, acts, k);
  }

  /** The items printed and the items waiting in slots are together exactly the items made. */
  lemma IntactAndOnce(np: nat, nc: nat, ss: seq<State>, acts: seq<Action>, k: nat)
    requires Run(np, nc, ss, acts) && k < |ss|
    ensures multiset(ss[k].made) == multiset(ss[k].eaten) + Waiting(ss[k].buff, ss[k].cons)
    ensures multiset(ss[k].eaten) <= multiset(ss[k].made)
    ensures |ss[k].made| <= |ss[k].eaten| + Slots
  {
    RunKeeps(np, nc, ss, acts, k);
    var s := ss[k];
    if s.cons.CClearA? || s.cons.CClearB? {
      StoredEmpty(s.buff, s.cons.i, Item(0, 0));
    }
    assert |multiset(s.made)| == |s.made| && |multiset(s.eaten)| == |s.eaten|;
  }

  ghost predicate Stuck(s: State, np: nat, nc: nat) {
    forall act :: !Enabled(s, np, nc, act)
  }

  /** Where the two can stop: as many taken as asked for or made, as many made as asked for or fit. */
  lemma StuckMeans(np: nat, nc: nat, ss: seq<State>, acts: seq<Action>, k: nat)
    requires Run(np, nc, ss, acts) && k < |ss| && Stuck(ss[k], np, nc)
    ensures |ss[k].eaten| == if np < nc then np else nc
    ensures |ss[k].made| == if np < nc + Slots then np else nc + Slots
  {
    RunKeeps(np, nc, ss, acts, k);
    RunCounts(np, nc, ss, acts, k);
    var s := ss[k];
    assert !Enabled(s, np, nc, Produce(1)) && !Enabled(s, np, nc, Consume);
    assert |multiset(s.made)| == |s.made| && |multiset(s.eaten)| == |s.eaten|;
  }

  lemma {:induction false} RunCounts(np: nat, nc: nat, ss: seq<State>, acts: seq<Action>, k: nat)
    requires Run(np, nc, ss, acts) && k < |ss|
    ensures ss[k].pcnt + One(!ss[k].prod.PTop?) <= np && ss[k].ccnt + One(!ss[k].cons.CTop?) <= nc
  {
    if k > 0 {
      RunCounts(np, nc, ss, acts, k - 1);
    }
  }

  /** The most steps the two have left: an item takes 37 to make and 40 to take. */
  ghost function StepsLeft(s: State, np: nat, nc: nat): int {
    ProducerLeft(s.prod) + ConsumerLeft(s.cons) + 37 * (np - s.pcnt) + 40 * (nc - s.ccnt)
  }

  ghost function ProducerLeft(p: Producer): int {
    match p
    case PTop => 0
    case PScan(i) => -1 - i
    case PFound(_) => -Slots - 2
    case PHalf(_, _) => -Slots - 3
    case PPost => -Slots - 4
  }

  ghost function ConsumerLeft(c: Consumer): int {
    match c
    case CTop => 0
    case CScan(i) => -1 - i
    case CFound(_) => -Slots - 2
    case CSleep(_, _) => -Slots - 3
    case CPrint(_, _) => -Slots - 4
    case CClearA(_) => -Slots - 5
    case CClearB(_) => -Slots - 6
    case CPost => -Slots - 7
  }

  lemma StepShortens(s: State, np: nat, nc: nat, act: Action)
    requires Inv(s) && Enabled(s, np, nc, act)
    ensures StepsLeft(Apply(s, np, nc, act), np, nc) < StepsLeft(s, np, nc)
  {
  }

  lemma SomeLeft(s: State, np: nat, nc: nat)
    requires Inv(s) && s.pcnt + One(!s.prod.PTop?) <= np && s.ccnt + One(!s.cons.CTop?) <= nc
    ensures StepsLeft(s, np, nc) >= 0
  {
  }

  lemma RunSomeLeft(np: nat, nc: nat, ss: seq<State>, acts: seq<Action>, k: nat)
    requires Run(np, nc, ss, acts) && k < |ss|
    ensures StepsLeft(ss[k], np, nc) >= 0
  {
    RunKeeps(np, nc, ss, acts, k);
    RunCounts(np, nc, ss, acts, k);
    SomeLeft(ss[k], np, nc);
  }

  lemma RunShortens(np: nat, nc: nat, ss: seq<State>, acts: seq<Action>, k: nat)
    requires Run(np, nc, ss, acts) && k < |acts|
    ensures StepsLeft(ss[k + 1], np, nc) < StepsLeft(ss[k], np, nc)
  {
    RunKeeps(np, nc, ss, acts, k);
    StepShortens(ss[k], np, nc, acts[k]);
  }

  /** Every run ends: each step leaves fewer to come. */
  lemma {:induction false} RunsEnd(np: nat, nc: nat, ss: seq<State>, acts: seq<Action>, k: nat)
    requires Run(np, nc, ss, acts) && k < |ss|
    ensures k + StepsLeft(ss[k], np, nc) <= 37 * np + 40 * nc
    ensures k <= 37 * np + 40 * nc
  {
    if k > 0 {
      RunsEnd(np, nc, ss, acts, k - 1);
      RunShortens(np, nc, ss, acts, k - 1);
    }
    RunSomeLeft(np, nc, ss, acts, k);
  }

  /** The values drawn are the item made: a as the slot is found, b to complete it. */
  lemma MadeAsDrawn(np: nat, nc: nat, ss: seq<State>, acts: seq<Action>, k: nat)
    requires Run(np, nc, ss, acts) && k < |acts|
    ensures acts[k].Produce? && ss[k].prod.PFound? ==> ss[k + 1].prod == PHalf(ss[k].prod.i, acts[k].v)
    ensures acts[k].Produce? && ss[k].prod.PHalf? ==> ss[k + 1].made == ss[k].made + [Item(ss[k].prod.a, acts[k].v)]
    ensures !(acts[k].Produce? && ss[k].prod.PHalf?) ==> ss[k + 1].made == ss[k].made
  {
  }

  // --- the scans take the first slot that will do ---

  /** At some step from i to j, slot m was free, or full. */
  ghost predicate Seen(ss: seq<State>, i: nat, j: nat, m: nat, free: bool) {
    exists n :: i <= n <= j && n < |ss| && m < |ss[n].buff| && (ss[n].buff[m].b == 0 <==> free)
  }

  /** A producer that finds slot m saw every slot below it full on the way, and m free. */
  lemma {:induction false} ProducerScan(np: nat, nc: nat, ss: seq<State>, acts: seq<Action>, i: nat, j: nat)
    requires Run(np, nc, ss, acts) && i <= j < |ss| && ss[i].prod == PScan(0)
    requires forall n :: i <= n < j ==> ss[n].prod.PScan?
    requires ss[j].prod.PScan? || ss[j].prod.PFound?
    ensures forall m :: 0 <= m < ss[j].prod.i ==> Seen(ss, i, j, m, false)
    ensures ss[j].prod.PFound? ==> Seen(ss, i, j, ss[j].prod.i, true)
    decreases j - i
  {
    if i < j {
      ProducerScan(np, nc, ss, acts, i, j - 1);
      RunKeeps(np, nc, ss, acts, j - 1);
      var s := ss[j - 1];
      forall m | 0 <= m < s.prod.i ensures Seen(ss, i, j, m, false) {
        SeenStill(ss, i, j, m, false);
      }
      SeenNow(ss, i, j, s.prod.i);
    }
  }

  /** A consumer that finds slot m saw every slot below it free on the way, and m full. */
  lemma {:induction false} ConsumerScan(np: nat, nc: nat, ss: seq<State>, acts: seq<Action>, i: nat, j: nat)
    requires Run(np, nc, ss, acts) && i <= j < |ss| && ss[i].cons == CScan(0)
    requires forall n :: i <= n < j ==> ss[n].cons.CScan?
    requires ss[j].cons.CScan? || ss[j].cons.CFound?
    ensures forall m :: 0 <= m < ss[j].cons.i ==> Seen(ss, i, j, m, true)
    ensures ss[j].cons.CFound? ==> Seen(ss, i, j, ss[j].cons.i, false)
    decreases j - i
  {
    if i < j {
      ConsumerScan(np, nc, ss, acts, i, j - 1);
      RunKeeps(np, nc, ss, acts, j - 1);
      var s := ss[j - 1];
      forall m | 0 <= m < s.cons.i ensures Seen(ss, i, j, m, true) {
        SeenStill(ss, i, j, m, true);
      }
      SeenNow(ss, i, j, s.cons.i);
    }
  }

  lemma SeenNow(ss: seq<State>, i: nat, j: nat, m: nat)
    requires i < j <= |ss| && m < |ss[j - 1].buff|
    ensures Seen(ss, i, j, m, ss[j - 1].buff[m].b == 0)
  {
  }

  lemma SeenStill(ss: seq<State>, i: nat, j: nat, m: nat, free: bool)
    requires i < j && Seen(ss, i, j - 1, m, free)
    ensures Seen(ss, i, j, m, free)
  {
    var n :| i <= n <= j - 1 && n < |ss| && m < |ss[n].buff| && (ss[n].buff[m].b == 0 <==> free);
    assert i <= n <= j;
  }
}
