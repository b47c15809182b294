/** Reference-counted handles: who owns how many references to which object. */
module Handles {

  /** A raw pointer of the C interface. */
  datatype Ptr = Null | To(obj: nat)

  // ---------- ownership on values ----------

  /** `counts` are the library's reference counts, `slots` the pointers inside the live
      handles, `loose` the references held by client code outside any handle. */
  datatype Own<H> = Own(counts: map<nat, nat>, slots: map<H, Ptr>, loose: multiset<nat>)

  function Count(counts: map<nat, nat>, o: nat): nat { if o in counts then counts[o] else 0 }

  datatype Call = Ref(p: Ptr) | Unref(p: Ptr)

  function Do(counts: map<nat, nat>, c: Call): map<nat, nat> {
    match c
    case Ref(To(o)) => counts[o := Count(counts, o) + 1]
    case Unref(To(o)) => if Count(counts, o) > 0 then counts[o := Count(counts, o) - 1] else counts
    case _ => counts
  }

  /** A call on a live object, or on no object. */
  predicate Safe(counts: map<nat, nat>, c: Call) {
    c.p.To? ==> Count(counts, c.p.obj) > 0
  }

  function DoAll(counts: map<nat, nat>, calls: seq<Call>): map<nat, nat>
    decreases |calls|
  {
    if calls == [] then counts else DoAll(Do(counts, calls[0]), calls[1..])
  }

  predicate AllSafe(counts: map<nat, nat>, calls: seq<Call>)
    decreases |calls|
  {
    calls == [] || (Safe(counts, calls[0]) && AllSafe(Do(counts, calls[0]), calls[1..]))
  }

  /** Attach: a handle takes over a loose reference. Wrap: a handle adds its own reference.
      Obtain and Release: client code gets and gives back a loose reference. */
  datatype Op<H> =
    | Attach(h: H, p: Ptr) | Wrap(h: H, p: Ptr)
    | CopyNew(h: H, from: H) | MoveNew(h: H, from: H)
    | CopyTo(h: H, from: H) | MoveTo(h: H, from: H)
    | Drop(h: H)
    | Obtain(o: nat) | Release(o: nat)

  /** What the language demands: new handles are new, others live, pointers valid. */
  predicate Legal<H>(w: Own<H>, op: Op<H>) {
    match op
    case Attach(h, p) => h !in w.slots && (p.To? ==> p.obj in w.loose)
    case Wrap(h, p) => h !in w.slots && (p.To? ==> Count(w.counts, p.obj) > 0)
    case CopyNew(h, f) => h !in w.slots && f in w.slots
    case MoveNew(h, f) => h !in w.slots && f in w.slots
    case CopyTo(h, f) => h in w.slots && f in w.slots
    case MoveTo(h, f) => h in w.slots && f in w.slots
    case Drop(h) => h in w.slots
    case Obtain(_) => true
    case Release(o) => o in w.loose
  }

  /** The calls an operation makes, in its order. */
  function Calls<H>(w: Own<H>, op: Op<H>): seq<Call>
    requires Legal(w, op)
  {
    match op
    case Attach(_, _) => []
    case Wrap(_, p) => [Ref(p)]
    case CopyNew(_, f) => [Ref(w.slots[f])]
    case MoveNew(_, _) => []
    case CopyTo(h, f) => if h == f then [] else [Unref(w.slots[h]), Ref(w.slots[f])]
    case MoveTo(h, f) => if h == f then [] else [Unref(w.slots[h])]
    case Drop(h) => [Unref(w.slots[h])]
    case Obtain(_) => []
    case Release(o) => [Unref(To(o))]
  }

  function SlotsAfter<H>(w: Own<H>, op: Op<H>): map<H, Ptr>
    requires Legal(w, op)
  {
    match op
    case Attach(h, p) => w.slots[h := p]
    case Wrap(h, p) => w.slots[h := p]
    case CopyNew(h, f) => w.slots[h := w.slots[f]]
    case MoveNew(h, f) => w.slots[h := w.slots[f]][f := Null]
    case CopyTo(h, f) => w.slots[h := w.slots[f]]
    case MoveTo(h, f) => if h == f then w.slots else w.slots[h := w.slots[f]][f := Null]
    case Drop(h) => w.slots - {h}
    case _ => w.slots
  }

  /** The handle an operation writes, if there is one. */
  function Written<H>(op: Op<H>): set<H> {
    match op
    case Attach(h, _) => {h}
    case Wrap(h, _) => {h}
    case CopyNew(h, _) => {h}
    case MoveNew(h, f) => {h, f}
    case CopyTo(h, _) => {h}
    case MoveTo(h, f) => {h, f}
    case Drop(h) => {h}
    case _ => {}
  }

  /** Copies and moves hand on what the source held, a move empties it, and no other handle
      changes. */
  lemma PointersAfter<H>(w: Own<H>, op: Op<H>)
    requires Legal(w, op)
    ensures
      var slots := Apply(w, op).slots;
      && (op.Attach? || op.Wrap? ==> op.h in slots && slots[op.h] == op.p)
      && (op.CopyNew? || op.CopyTo? || op.MoveNew? || op.MoveTo? ==> op.h in slots && slots[op.h] == w.slots[op.from])
      && (op.CopyNew? || op.CopyTo? ==> slots[op.from] == w.slots[op.from])
      && (op.MoveNew? || (op.MoveTo? && op.h != op.from) ==> op.from in slots && slots[op.from] == Null)
      && (op.Drop? ==> op.h !in slots)
      && forall g :: g !in Written(op) ==> (g in slots <==> g in w.slots) && (g in slots ==> slots[g] == w.slots[g])
  {
    hide DoAll, Calls;
  }

  function LooseAfter<H>(w: Own<H>, op: Op<H>): multiset<nat> {
    match op
    case Attach(_, To(o)) => w.loose - multiset{o}
    case Obtain(o) => w.loose + multiset{o}
    case Release(o) => w.loose - multiset{o}
    case _ => w.loose
  }

  /** An illegal operation changes nothing. Obtaining a reference counts it in the library. */
  function Apply<H>(w: Own<H>, op: Op<H>): Own<H> {
    if !Legal(w, op) then w
    else
      var counts := DoAll(w.counts, Calls(w, op));
      Own(if op.Obtain? then counts[op.o := Count(counts, op.o) + 1] else counts, SlotsAfter(w, op), LooseAfter(w, op))
  }

  /** The live handles that hold `o`. */
  function Holders<H>(slots: map<H, Ptr>, o: nat): set<H> {
    set h | h in slots && slots[h] == To(o)
  }

  ghost predicate Conserved<H>(w: Own<H>) {
    forall o: nat :: Count(w.counts, o) == |Holders(w.slots, o)| + w.loose[o]
  }

  function Holds(p: Ptr, o: nat): int { if p == To(o) then 1 else 0 }

  lemma SlotSet<H>(slots: map<H, Ptr>, h: H, p: Ptr, o: nat)
    ensures |Holders(slots[h := p], o)|
            == |Holders(slots, o)| - (if h in slots then Holds(slots[h], o) else 0) + Holds(p, o)
  {
    var before := Holders(slots, o);
    var after := Holders(slots[h := p], o);
    assert after == if p == To(o) then (before - {h}) + {h} else before - {h};
    assert h in before <==> h in slots && slots[h] == To(o);
  }

  lemma SlotRemoved<H>(slots: map<H, Ptr>, h: H, o: nat)
    requires h in slots
    ensures |Holders(slots - {h}, o)| == |Holders(slots, o)| - Holds(slots[h], o)
  {
    assert Holders(slots - {h}, o) == Holders(slots, o) - {h};
    assert h in Holders(slots, o) <==> slots[h] == To(o);
  }

  /** How many handles an operation adds for an object. */
  lemma HoldersAfter<H>(w: Own<H>, op: Op<H>, o: nat)
    requires Legal(w, op)
    ensures
      |Holders(Apply(w, op).slots, o)| - |Holders(w.slots, o)| ==
      match op
      case Attach(_, p) => Holds(p, o)
      case Wrap(_, p) => Holds(p, o)
      case CopyNew(_, f) => Holds(w.slots[f], o)
      case MoveNew(_, _) => 0
      case CopyTo(h, f) => Holds(w.slots[f], o) - Holds(w.slots[h], o)
      case MoveTo(h, f) => if h == f then 0 else -Holds(w.slots[h], o)
      case Drop(h) => -Holds(w.slots[h], o)
      case _ => 0
  {
    hide Holders;
    match op
    case Attach(h, p) => SlotSet(w.slots, h, p, o);
    case Wrap(h, p) => SlotSet(w.slots, h, p, o);
    case CopyNew(h, f) => SlotSet(w.slots, h, w.slots[f], o);
    case MoveNew(h, f) =>
      SlotSet(w.slots, h, w.slots[f], o);
      SlotSet(w.slots[h := w.slots[f]], f, Null, o);
    case CopyTo(h, f) => SlotSet(w.slots, h, w.slots[f], o);
    case MoveTo(h, f) =>
      SlotSet(w.slots, h, w.slots[f], o);
      SlotSet(w.slots[h := w.slots[f]], f, Null, o);
    case Drop(h) => SlotRemoved(w.slots, h, o);
    case _ =>
  }

  /** A handle's object has at least one reference per handle that holds it. */
  lemma HeldIsCounted<H>(w: Own<H>, h: H, f: H)
    requires Conserved(w) && h in w.slots && f in w.slots
    ensures w.slots[h].To? ==> Count(w.counts, w.slots[h].obj) >= 1
    ensures h != f && w.slots[h] == w.slots[f] && w.slots[h].To? ==> Count(w.counts, w.slots[h].obj) >= 2
  {
    if w.slots[h].To? {
      var o := w.slots[h].obj;
      var holders := Holders(w.slots, o);
      assert Count(w.counts, o) == |holders| + w.loose[o];
      assert h in holders && |holders - {h}| == |holders| - 1;
      if h != f && w.slots[h] == w.slots[f] {
        assert f in holders - {h};
      }
    }
  }

  /** Every library call of a legal operation hits a live object. */
  lemma CallsAreSafe<H>(w: Own<H>, op: Op<H>)
    requires Conserved(w) && Legal(w, op)
    ensures AllSafe(w.counts, Calls(w, op))
  {
    hide Conserved, Holders;
    match op
    case CopyNew(_, f) => HeldIsCounted(w, f, f);
    case CopyTo(h, f) =>
      HeldIsCounted(w, h, f);
      HeldIsCounted(w, f, f);
      DoTwo(w.counts, Unref(w.slots[h]), Ref(w.slots[f]));
    case MoveTo(h, _) => HeldIsCounted(w, h, h);
    case Drop(h) => HeldIsCounted(w, h, h);
    case Release(o) => LooseIsCounted(w, o);
    case _ =>
  }

  lemma LooseIsCounted<H>(w: Own<H>, o: nat)
    requires Conserved(w) && o in w.loose
    ensures Count(w.counts, o) > 0
  {
  }

  /** How an operation changes the reference count of an object. */
  lemma CountAfter<H>(w: Own<H>, op: Op<H>, o: nat)
    requires Legal(w, op) && AllSafe(w.counts, Calls(w, op))
    ensures
      Count(Apply(w, op).counts, o) - Count(w.counts, o) ==
      match op
      case Wrap(_, p) => Holds(p, o)
      case CopyNew(_, f) => Holds(w.slots[f], o)
      case CopyTo(h, f) => Holds(w.slots[f], o) - Holds(w.slots[h], o)
      case MoveTo(h, f) => if h == f then 0 else -Holds(w.slots[h], o)
      case Drop(h) => -Holds(w.slots[h], o)
      case Obtain(q) => Holds(To(q), o)
      case Release(q) => -Holds(To(q), o)
      case _ => 0
  {
    match op
    case CopyTo(h, f) =>
      if h != f {
        DoTwo(w.counts, Unref(w.slots[h]), Ref(w.slots[f]));
      }
    case Wrap(_, p) => DoOne(w.counts, Ref(p));
    case CopyNew(_, f) => DoOne(w.counts, Ref(w.slots[f]));
    case MoveTo(h, _) => DoOne(w.counts, Unref(w.slots[h]));
    case Drop(h) => DoOne(w.counts, Unref(w.slots[h]));
    case Release(q) => DoOne(w.counts, Unref(To(q)));
    case Attach(_, _) =>
    case MoveNew(_, _) =>
    case Obtain(_) =>
  }

  lemma DoOne(counts: map<nat, nat>, c: Call)
    ensures DoAll(counts, [c]) == Do(counts, c)
    ensures AllSafe(counts, [c]) <==> Safe(counts, c)
  {
  }

  lemma DoTwo(counts: map<nat, nat>, a: Call, b: Call)
    ensures DoAll(counts, [a, b]) == Do(Do(counts, a), b)
    ensures AllSafe(counts, [a, b]) <==> Safe(counts, a) && Safe(Do(counts, a), b)
  {
    hide Do, Safe;
    assert [a, b][1..] == [b] && [b][1..] == [];
    assert DoAll(Do(counts, a), [b]) == DoAll(Do(Do(counts, a), b), []);
    assert AllSafe(Do(counts, a), [b]) <==> Safe(Do(counts, a), b);
  }

  /** How an operation changes the loose references to an object. */
  lemma LooseDelta<H>(w: Own<H>, op: Op<H>, o: nat)
    requires Legal(w, op)
    ensures
      Apply(w, op).loose[o] as int - w.loose[o] as int ==
      match op
      case Attach(_, p) => -Holds(p, o)
      case Obtain(q) => Holds(To(q), o)
      case Release(q) => -Holds(To(q), o)
      case _ => 0
  {
  }

  /** The reference count of every object stays the number of its holders. */
  lemma StepConserves<H>(w: Own<H>, op: Op<H>)
    requires Conserved(w)
    ensures Conserved(Apply(w, op))
  {
    if Legal(w, op) {
      CallsAreSafe(w, op);
      hide Apply, Holders, Count, Calls, Legal, AllSafe;
      forall o: nat
        ensures Count(Apply(w, op).counts, o) == |Holders(Apply(w, op).slots, o)| + Apply(w, op).loose[o]
      {
        HoldersAfter(w, op, o);
        CountAfter(w, op, o);
        LooseDelta(w, op, o);
        assert Count(w.counts, o) == |Holders(w.slots, o)| + w.loose[o];
      }
    }
  }

  /** Before anything is obtained nothing is counted. */
  lemma NothingOwned<H>()
    ensures
      var none: Own<H> := Own(map[], map[], multiset{});
      Conserved(none)
    ensures forall o: nat :: Count(map[], o) == 0
  {
    forall o: nat
      ensures Holders<H>(map[], o) == {}
    {
    }
  }

  function RunOps<H>(w: Own<H>, ops: seq<Op<H>>): Own<H>
    decreases |ops|
  {
    if ops == [] then w else RunOps(Apply(w, ops[0]), ops[1..])
  }

  /** In every run, each count is the number of holders; it is zero exactly when no handle
      and no client reference is left, and the next operation only touches live objects. */
  lemma {:induction false} RunConserves<H>(w: Own<H>, ops: seq<Op<H>>, next: Op<H>, o: nat)
    requires Conserved(w)
    ensures
      var v := RunOps(w, ops);
      && Conserved(v)
      && (Count(v.counts, o) == 0 <==> Holders(v.slots, o) == {} && o !in v.loose)
      && (Legal(v, next) ==> AllSafe(v.counts, Calls(v, next)))
    decreases |ops|
  {
    hide Apply, Legal;
    if ops == [] {
      assert Count(w.counts, o) == |Holders(w.slots, o)| + w.loose[o];
      if Legal(w, next) {
        CallsAreSafe(w, next);
      }
    } else {
      StepConserves(w, ops[0]);
      RunConserves(Apply(w, ops[0]), ops[1..], next, o);
    }
  }
}
