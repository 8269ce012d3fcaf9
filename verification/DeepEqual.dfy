/**
 Deep equality over a finite, possibly cyclic heap (go/deepequal/deep_equals.go).

 A heap is a sequence of slots.  A reflected value is a slot together with the answer of
 `CanAddr`, which depends on the access path: pointer targets and slice elements are addressable,
 map values and interface contents are not, array cells and struct fields inherit.
 */
module DeepEqual {
  import opened Common

  /******* Values *******/

  datatype Kind = KArray | KSlice | KInterface | KPtr | KStruct | KMap | KFunc | KLeaf

  // `arity` is the array length or the number of fields; it is part of a Go type.
  datatype Type = Type(id: nat, kind: Kind, arity: nat)

  // A key which differs from itself (a NaN) is listed by MapKeys but found by no lookup.
  datatype MapKey = Key(k: nat) | NaNKey

  datatype Content =
    | Array(cells: seq<nat>)
    | Slice(isNil: bool, base: nat, cells: seq<nat>)
    | Interface(elem: Option<nat>)
    | Ptr(target: nat, elem: Option<nat>)
    | Struct(cells: seq<nat>)
    | Map(isNil: bool, base: nat, keys: seq<MapKey>, entries: map<nat, nat>)
    | Func(isNil: bool)
    | Leaf(datum: nat)

  datatype Slot = Slot(typ: Type, addr: nat, content: Content)

  // `leafEq` is Go's == on the remaining kinds: symmetric, not necessarily reflexive.
  datatype Heap = Heap(slots: seq<Slot>, leafEq: set<(nat, nat)>) {
    predicate HasSlot(r: nat) { r < |slots| }

    predicate HasElem(e: Option<nat>) { e.Some? ==> HasSlot(e.value) }

    ghost predicate ValidContent(t: Type, c: Content) {
      match c
      case Array(cells) => t.kind == KArray && |cells| == t.arity && forall r :: r in cells ==> HasSlot(r)
      case Slice(_, _, cells) => t.kind == KSlice && forall r :: r in cells ==> HasSlot(r)
      case Interface(elem) => t.kind == KInterface && HasElem(elem)
      case Ptr(target, elem) => t.kind == KPtr && HasElem(elem) && (elem.None? <==> target == 0)
      case Struct(cells) => t.kind == KStruct && |cells| == t.arity && forall r :: r in cells ==> HasSlot(r)
      case Map(_, _, keys, entries) =>
        && t.kind == KMap
        && (forall k :: k in entries <==> Key(k) in keys)
        && (forall k :: k in entries ==> HasSlot(entries[k]))
        && (forall i, j :: 0 <= i < j < |keys| && keys[i] == keys[j] ==> keys[i] == NaNKey)
      case Func(_) => t.kind == KFunc
      case Leaf(_) => t.kind == KLeaf
    }

    predicate Located(r: nat, s: nat)
      requires HasSlot(r) && HasSlot(s)
    {
      var c := slots[r].content;
      (c.Map? || c.Slice? || c.Ptr? || c.Interface?) && slots[r].addr == slots[s].addr && slots[r].typ == slots[s].typ
    }

    // Slots of the kinds that are recorded have non-zero size, so an address and a type
    // single out one of them.
    ghost predicate Valid() {
      && (forall r :: 0 <= r < |slots| ==> ValidContent(slots[r].typ, slots[r].content))
      && (forall r, s :: 0 <= r < |slots| && 0 <= s < |slots| && Located(r, s) ==> r == s)
      && (forall d, e :: (d, e) in leafEq ==> (e, d) in leafEq)
    }
  }

  predicate Hard(k: Kind) {
    k == KMap || k == KSlice || k == KPtr || k == KInterface
  }

  // The zero reflect.Value is Invalid.
  datatype Value = Invalid | Val(ref: nat, canAddr: bool)

  predicate InHeap(h: Heap, v: Value) { v.Val? ==> h.HasSlot(v.ref) }

  /******* Specification: deep equality as the largest relation closed under the documented rules *******/

  type Relation = set<(nat, nat)>

  ghost predicate Pointwise(R: Relation, xs: seq<nat>, ys: seq<nat>) {
    |xs| == |ys| && forall i :: 0 <= i < |xs| ==> (xs[i], ys[i]) in R
  }

  ghost predicate SameEntries(R: Relation, m: Content, n: Content)
    requires m.Map? && n.Map?
  {
    && NaNKey !in m.keys && NaNKey !in n.keys
    && m.entries.Keys == n.entries.Keys
    && forall k :: k in m.entries ==> (m.entries[k], n.entries[k]) in R
  }

  ghost predicate Agree(h: Heap, R: Relation, s: nat, t: nat) {
    && h.HasSlot(s) && h.HasSlot(t)
    && h.slots[s].typ == h.slots[t].typ
    && match (h.slots[s].content, h.slots[t].content)
       case (Array(xs), Array(ys)) => Pointwise(R, xs, ys)
       case (Struct(xs), Struct(ys)) => Pointwise(R, xs, ys)
       case (Slice(m, b, xs), Slice(n, c, ys)) => m == n && |xs| == |ys| && (b == c || Pointwise(R, xs, ys))
       case (Interface(e), Interface(f)) => e.None? == f.None? && (e.Some? ==> (e.value, f.value) in R)
       case (Ptr(p, e), Ptr(q, f)) => p == q || (e.Some? && f.Some? && (e.value, f.value) in R)
       case (Map(m, b, ks, _), Map(n, c, ls, _)) =>
         m == n && |ks| == |ls| && (b == c || SameEntries(R, h.slots[s].content, h.slots[t].content))
       case (Func(m), Func(n)) => m && n
       case (Leaf(d), Leaf(e)) => (d, e) in h.leafEq
       case _ => false
  }

  ghost predicate Bisimulation(h: Heap, R: Relation) {
    forall s, t :: (s, t) in R ==> Agree(h, R, s, t)
  }

  ghost predicate DeeplyEqual(h: Heap, s: nat, t: nat) {
    exists R: Relation :: (s, t) in R && Bisimulation(h, R)
  }

  /******* The comparison *******/

  // The key of the visited map: two addresses in increasing order and the common type.
  datatype Visit = Visit(a1: nat, a2: nat, typ: Type)

  datatype Goal = Compare(a: Value, b: Value) | Mismatch

  datatype Expansion = Answer(eq: bool) | Subgoals(goals: seq<Goal>)

  predicate Comparable(h: Heap, a: Value, b: Value) {
    && a.Val? && b.Val? && InHeap(h, a) && InHeap(h, b)
    && h.slots[a.ref].typ == h.slots[b.ref].typ
  }

  predicate Recordable(h: Heap, a: Value, b: Value)
    requires Comparable(h, a, b)
  {
    a.canAddr && b.canAddr && Hard(h.slots[a.ref].typ.kind)
  }

  function VisitOf(h: Heap, s: nat, t: nat): Visit
    requires h.HasSlot(s) && h.HasSlot(t)
  {
    var x, y := h.slots[s].addr, h.slots[t].addr;
    if x > y then Visit(y, x, h.slots[s].typ) else Visit(x, y, h.slots[s].typ)
  }

  predicate Seen(h: Heap, a: Value, b: Value, visited: set<Visit>)
    requires Comparable(h, a, b)
  {
    Recordable(h, a, b) && VisitOf(h, a.ref, b.ref) in visited
  }

  function Record(h: Heap, a: Value, b: Value, visited: set<Visit>): set<Visit>
    requires Comparable(h, a, b)
  {
    if Recordable(h, a, b) then visited + {VisitOf(h, a.ref, b.ref)} else visited
  }

  function Elem(e: Option<nat>, canAddr: bool): Value {
    if e.Some? then Val(e.value, canAddr) else Invalid
  }

  function CellGoals(xs: seq<nat>, ys: seq<nat>, c: bool, d: bool): seq<Goal>
    requires |xs| == |ys|
  {
    seq(|xs|, i requires 0 <= i < |xs| => Compare(Val(xs[i], c), Val(ys[i], d)))
  }

  function KeyGoal(k: MapKey, m: map<nat, nat>, n: map<nat, nat>): Goal {
    if k.Key? && k.k in m && k.k in n then Compare(Val(m[k.k], false), Val(n[k.k], false)) else Mismatch
  }

  function KeyGoals(keys: seq<MapKey>, m: map<nat, nat>, n: map<nat, nat>): seq<Goal> {
    seq(|keys|, i requires 0 <= i < |keys| => KeyGoal(keys[i], m, n))
  }

  // What one activation of deepValueEqual does after recording its visit: answer at once, or
  // compare further values in order.
  function Expand(h: Heap, a: Value, b: Value): Expansion
    requires Comparable(h, a, b)
  {
    match (h.slots[a.ref].content, h.slots[b.ref].content)
    case (Array(xs), Array(ys)) =>
      if |xs| == |ys| then Subgoals(CellGoals(xs, ys, a.canAddr, b.canAddr)) else Answer(false)
    case (Struct(xs), Struct(ys)) =>
      if |xs| == |ys| then Subgoals(CellGoals(xs, ys, a.canAddr, b.canAddr)) else Answer(false)
    case (Slice(m, p, xs), Slice(n, q, ys)) =>
      if m != n || |xs| != |ys| then Answer(false)
      else if p == q then Answer(true)
      else Subgoals(CellGoals(xs, ys, true, true))
    case (Interface(e), Interface(f)) =>
      if e.None? || f.None? then Answer(e.None? == f.None?)
      else Subgoals([Compare(Val(e.value, false), Val(f.value, false))])
    case (Ptr(p, e), Ptr(q, f)) =>
      if p == q then Answer(true) else Subgoals([Compare(Elem(e, true), Elem(f, true))])
    case (Map(m, p, ks, entries), Map(n, q, ls, entries')) =>
      if m != n || |ks| != |ls| then Answer(false)
      else if p == q then Answer(true)
      else Subgoals(KeyGoals(ks, entries, entries'))
    case (Func(m), Func(n)) => Answer(m && n)
    case (Leaf(d), Leaf(e)) => Answer((d, e) in h.leafEq)
    case _ => Answer(false)
  }

  // MapKeys lists the keys of a map in an order of its own at each visit.  `at` tells the visits
  // apart: it is the place of the activation in the tree of recursive calls.
  type Order = (seq<nat>, seq<MapKey>) -> seq<MapKey>

  ghost predicate IsOrder(ord: Order) {
    forall at, keys :: multiset(ord(at, keys)) == multiset(keys)
  }

  // The goals in the order in which the activation goes through them.
  function Arranged(h: Heap, ord: Order, at: seq<nat>, a: Value, b: Value): seq<Goal>
    requires Comparable(h, a, b) && Expand(h, a, b).Subgoals?
  {
    match (h.slots[a.ref].content, h.slots[b.ref].content)
    case (Map(_, _, ks, entries), Map(_, _, _, entries')) => KeyGoals(ord(at, ks), entries, entries')
    case _ => Expand(h, a, b).goals
  }

  lemma ArrangedHasAll(h: Heap, ord: Order, at: seq<nat>, a: Value, b: Value)
    requires IsOrder(ord) && Comparable(h, a, b) && Expand(h, a, b).Subgoals?
    ensures forall g :: g in Arranged(h, ord, at, a, b) <==> g in Expand(h, a, b).goals
  {
    var x, y := h.slots[a.ref].content, h.slots[b.ref].content;
    if x.Map? {
      SameGoals(ord(at, x.keys), x.keys, x.entries, y.entries);
      SameGoals(x.keys, ord(at, x.keys), x.entries, y.entries);
    }
  }

  lemma SameGoals(keys: seq<MapKey>, keys': seq<MapKey>, m: map<nat, nat>, n: map<nat, nat>)
    requires multiset(keys) == multiset(keys')
    ensures forall g :: g in KeyGoals(keys, m, n) ==> g in KeyGoals(keys', m, n)
  {
    forall i | 0 <= i < |keys| ensures KeyGoals(keys, m, n)[i] in KeyGoals(keys', m, n) {
      assert keys[i] in multiset(keys');
      var j :| 0 <= j < |keys'| && keys'[j] == keys[i];
      assert KeyGoals(keys', m, n)[j] == KeyGoals(keys, m, n)[i];
    }
  }

  // The outcome of running with a bound on the recursion depth.  `log` lists the comparisons
  // that were carried through, in order of completion.
  datatype Outcome = Running | Unequal | Equal(visited: set<Visit>, log: seq<Goal>)

  ghost function Run(h: Heap, ord: Order, at: seq<nat>, a: Value, b: Value, visited: set<Visit>, fuel: nat): (o: Outcome)
    ensures o.Equal? ==> visited <= o.visited
    decreases fuel, 0
  {
    if fuel == 0 then Running
    else if a.Invalid? || b.Invalid? then
      if a.Invalid? == b.Invalid? then Equal(visited, []) else Unequal
    else if !Comparable(h, a, b) then Unequal
    else if Seen(h, a, b, visited) then Equal(visited, [])
    else
      match RunExpansion(h, ord, at, a, b, Record(h, a, b, visited), fuel - 1)
      case Equal(visited', log) => Equal(visited', log + [Compare(a, b)])
      case other => other
  }

  ghost function RunExpansion(h: Heap, ord: Order, at: seq<nat>, a: Value, b: Value, visited: set<Visit>, fuel: nat): (o: Outcome)
    requires Comparable(h, a, b)
    ensures o.Equal? ==> visited <= o.visited
    decreases fuel, if Expand(h, a, b).Subgoals? then 2 + |Arranged(h, ord, at, a, b)| else 0
  {
    match Expand(h, a, b)
    case Answer(eq) => if eq then Equal(visited, []) else Unequal
    case Subgoals(_) => RunAll(h, ord, at, Arranged(h, ord, at, a, b), visited, fuel)
  }

  ghost function RunAll(h: Heap, ord: Order, at: seq<nat>, goals: seq<Goal>, visited: set<Visit>, fuel: nat): (o: Outcome)
    ensures o.Equal? ==> visited <= o.visited
    decreases fuel, 1 + |goals|
  {
    if goals == [] then Equal(visited, [])
    else if goals[0].Mismatch? then Unequal
    else
      match Run(h, ord, at + [|goals|], goals[0].a, goals[0].b, visited, fuel)
      case Equal(visited', log) =>
        (match RunAll(h, ord, at, goals[1..], visited', fuel)
         case Equal(visited'', log') => Equal(visited'', log + log')
         case other => other)
      case other => other
  }

  /******* An unequal answer is right: no bisimulation relates the two values *******/

  ghost predicate Inside(R: Relation, g: Goal) {
    g.Compare? && g.a.Val? && g.b.Val? && (g.a.ref, g.b.ref) in R
  }

  lemma ExpandInside(h: Heap, R: Relation, a: Value, b: Value)
    requires h.Valid() && Comparable(h, a, b) && Agree(h, R, a.ref, b.ref)
    ensures Expand(h, a, b) == Answer(true)
         || (Expand(h, a, b).Subgoals? && forall g :: g in Expand(h, a, b).goals ==> Inside(R, g))
  {
    var x, y := h.slots[a.ref].content, h.slots[b.ref].content;
    if x.Map? && Expand(h, a, b).Subgoals? {
      assert h.ValidContent(h.slots[a.ref].typ, x);
      forall i | 0 <= i < |x.keys| ensures Inside(R, KeyGoal(x.keys[i], x.entries, y.entries)) {
        assert x.keys[i] in x.keys && SameEntries(R, x, y);
        assert x.keys[i] == Key(x.keys[i].k);
      }
    }
  }

  // Two related values of one type; and what comparing them asks for.
  ghost predicate Related(h: Heap, R: Relation, g: Goal) {
    Inside(R, g) && Comparable(h, g.a, g.b)
  }

  ghost predicate AsksRelated(h: Heap, ord: Order, at: seq<nat>, R: Relation, a: Value, b: Value)
    requires Comparable(h, a, b)
  {
    match Expand(h, a, b)
    case Answer(eq) => eq
    case Subgoals(_) => forall g :: g in Arranged(h, ord, at, a, b) ==> Related(h, R, g)
  }

  ghost predicate StaysRelated(h: Heap, ord: Order, R: Relation) {
    forall at, a, b {:trigger AsksRelated(h, ord, at, R, a, b)} ::
      Related(h, R, Compare(a, b)) ==> AsksRelated(h, ord, at, R, a, b)
  }

  lemma BisimilarStaysRelated(h: Heap, ord: Order, R: Relation)
    requires h.Valid() && IsOrder(ord) && Bisimulation(h, R)
    ensures StaysRelated(h, ord, R)
  {
    forall at, a, b | Related(h, R, Compare(a, b)) ensures AsksRelated(h, ord, at, R, a, b) {
      assert Agree(h, R, a.ref, b.ref);
      ExpandInside(h, R, a, b);
      if Expand(h, a, b).Subgoals? {
        ArrangedHasAll(h, ord, at, a, b);
        forall g | g in Arranged(h, ord, at, a, b) ensures Related(h, R, g) {
          assert Inside(R, g);
          assert Agree(h, R, g.a.ref, g.b.ref);
        }
      }
    }
  }

  // Whatever has been visited, in whatever order, and however deep the recursion may go.
  lemma NeverUnequal(h: Heap, ord: Order, at: seq<nat>, R: Relation, a: Value, b: Value, visited: set<Visit>, fuel: nat)
    requires h.Valid() && IsOrder(ord) && Bisimulation(h, R) && Inside(R, Compare(a, b))
    ensures !Run(h, ord, at, a, b, visited, fuel).Unequal?
  {
    BisimilarStaysRelated(h, ord, R);
    assert Agree(h, R, a.ref, b.ref);
    RelatedNeverUnequal(h, ord, at, R, a, b, visited, fuel);
  }

  lemma {:induction false} RelatedNeverUnequal(h: Heap, ord: Order, at: seq<nat>, R: Relation, a: Value, b: Value,
                                               visited: set<Visit>, fuel: nat)
    requires StaysRelated(h, ord, R) && Related(h, R, Compare(a, b))
    ensures !Run(h, ord, at, a, b, visited, fuel).Unequal?
    decreases fuel, 0
  {
    if fuel > 0 && !Seen(h, a, b, visited) {
      assert AsksRelated(h, ord, at, R, a, b);
      var visited' := Record(h, a, b, visited);
      if Expand(h, a, b).Subgoals? {
        GoalsNeverUnequal(h, ord, at, R, Arranged(h, ord, at, a, b), visited', fuel - 1);
      }
      assert !RunExpansion(h, ord, at, a, b, visited', fuel - 1).Unequal?;
    }
  }

  lemma {:induction false} GoalsNeverUnequal(h: Heap, ord: Order, at: seq<nat>, R: Relation, goals: seq<Goal>,
                                             visited: set<Visit>, fuel: nat)
    requires StaysRelated(h, ord, R) && forall g :: g in goals ==> Related(h, R, g)
    ensures !RunAll(h, ord, at, goals, visited, fuel).Unequal?
    decreases fuel, 1, |goals|
  {
    if goals != [] {
      var g := goals[0];
      assert Related(h, R, g);
      RelatedNeverUnequal(h, ord, at + [|goals|], R, g.a, g.b, visited, fuel);
      var o := Run(h, ord, at + [|goals|], g.a, g.b, visited, fuel);
      if o.Equal? {
        GoalsNeverUnequal(h, ord, at, R, goals[1..], o.visited, fuel);
      }
    }
  }

  /******* What the log of an equal answer shows *******/

  // A comparison which answered true: carried through (and in the log), or found in the visited map.
  ghost predicate Settled(h: Heap, log: seq<Goal>, visited: set<Visit>, g: Goal) {
    && g.Compare?
    && (|| (g.a.Invalid? && g.b.Invalid?)
        || g in log
        || (Comparable(h, g.a, g.b) && Seen(h, g.a, g.b, visited)))
  }

  // Entry i of the log answered true by itself, or because everything it asked for had been
  // settled before it completed.
  ghost predicate Justified(h: Heap, log: seq<Goal>, visited: set<Visit>, i: nat)
    requires i < |log|
  {
    && log[i].Compare? && Comparable(h, log[i].a, log[i].b)
    && match Expand(h, log[i].a, log[i].b)
       case Answer(eq) => eq
       case Subgoals(goals) => forall g :: g in goals ==> Settled(h, log[..i], visited, g)
  }

  ghost predicate Recorded(h: Heap, log: seq<Goal>, v: Visit) {
    exists g :: g in log && g.Compare? && Comparable(h, g.a, g.b) && Recordable(h, g.a, g.b)
             && VisitOf(h, g.a.ref, g.b.ref) == v
  }

  ghost predicate GoodLog(h: Heap, log: seq<Goal>, before: set<Visit>, after: set<Visit>) {
    && (forall i :: 0 <= i < |log| ==> Justified(h, log, after, i))
    && (forall v :: v in after && v !in before ==> Recorded(h, log, v))
  }

  lemma SettledMonotone(h: Heap, log: seq<Goal>, visited: set<Visit>, log': seq<Goal>, visited': set<Visit>, g: Goal)
    requires Settled(h, log, visited, g)
    requires visited <= visited' && forall x :: x in log ==> x in log'
    ensures Settled(h, log', visited', g)
  {
  }

  lemma GoodLogConcat(h: Heap, log: seq<Goal>, log': seq<Goal>, v0: set<Visit>, v1: set<Visit>, v2: set<Visit>)
    requires GoodLog(h, log, v0, v1) && GoodLog(h, log', v1, v2) && v1 <= v2
    ensures GoodLog(h, log + log', v0, v2)
  {
    var all := log + log';
    forall i | 0 <= i < |all| ensures Justified(h, all, v2, i) {
      if i < |log| {
        assert Justified(h, log, v1, i) && all[i] == log[i] && all[..i] == log[..i];
      } else {
        var j := i - |log|;
        assert Justified(h, log', v2, j) && all[i] == log'[j] && all[..i] == log + log'[..j];
      }
    }
    forall v | v in v2 && v !in v0 ensures Recorded(h, all, v) {
      assert Recorded(h, log, v) || Recorded(h, log', v);
    }
  }

  lemma {:induction false} RunLog(h: Heap, ord: Order, at: seq<nat>, a: Value, b: Value, visited: set<Visit>, fuel: nat)
    requires IsOrder(ord) && Run(h, ord, at, a, b, visited, fuel).Equal?
    ensures var o := Run(h, ord, at, a, b, visited, fuel);
      GoodLog(h, o.log, visited, o.visited) && Settled(h, o.log, o.visited, Compare(a, b))
    decreases fuel, 0
  {
    var o := Run(h, ord, at, a, b, visited, fuel);
    if Comparable(h, a, b) && !Seen(h, a, b, visited) {
      var init := RunExpansion(h, ord, at, a, b, Record(h, a, b, visited), fuel - 1).log;
      if Expand(h, a, b).Subgoals? {
        ArrangedHasAll(h, ord, at, a, b);
        RunAllLog(h, ord, at, Arranged(h, ord, at, a, b), Record(h, a, b, visited), fuel - 1);
      }
      forall i | 0 <= i < |o.log| ensures Justified(h, o.log, o.visited, i) {
        assert o.log[..i] == init[..i];
        if i < |init| {
          assert Justified(h, init, o.visited, i);
        }
      }
      forall v | v in o.visited && v !in visited ensures Recorded(h, o.log, v) {
        if v in Record(h, a, b, visited) {
          assert Compare(a, b) in o.log;
        } else {
          assert Recorded(h, init, v);
        }
      }
    }
  }

  lemma {:induction false} RunAllLog(h: Heap, ord: Order, at: seq<nat>, goals: seq<Goal>, visited: set<Visit>, fuel: nat)
    requires IsOrder(ord) && RunAll(h, ord, at, goals, visited, fuel).Equal?
    ensures var o := RunAll(h, ord, at, goals, visited, fuel);
      GoodLog(h, o.log, visited, o.visited) && forall g :: g in goals ==> Settled(h, o.log, o.visited, g)
    decreases fuel, 1 + |goals|
  {
    if goals != [] {
      var o := RunAll(h, ord, at, goals, visited, fuel);
      var o1 := Run(h, ord, at + [|goals|], goals[0].a, goals[0].b, visited, fuel);
      var o2 := RunAll(h, ord, at, goals[1..], o1.visited, fuel);
      RunLog(h, ord, at + [|goals|], goals[0].a, goals[0].b, visited, fuel);
      RunAllLog(h, ord, at, goals[1..], o1.visited, fuel);
      GoodLogConcat(h, o1.log, o2.log, visited, o1.visited, o2.visited);
      SettledMonotone(h, o1.log, o1.visited, o.log, o.visited, goals[0]);
      forall g | g in goals[1..] ensures Settled(h, o.log, o.visited, g) {
        SettledMonotone(h, o2.log, o2.visited, o.log, o.visited, g);
      }
    }
  }

  /******* An equal answer is right *******/

  function Swap(g: Goal): Goal {
    if g.Compare? then Compare(g.b, g.a) else g
  }

  ghost predicate Logged(log: seq<Goal>, g: Goal) {
    g in log || Swap(g) in log
  }

  // Pairs are recorded unordered, so a recorded visit stands for the pair or its mirror image.
  lemma VisitUnordered(h: Heap, s: nat, t: nat, s': nat, t': nat)
    requires h.Valid() && h.HasSlot(s) && h.HasSlot(t) && h.HasSlot(s') && h.HasSlot(t')
    requires h.slots[s].typ == h.slots[t].typ && h.slots[s'].typ == h.slots[t'].typ
    requires Hard(h.slots[s].typ.kind)
    requires VisitOf(h, s, t) == VisitOf(h, s', t')
    ensures (s == s' && t == t') || (s == t' && t == s')
  {
    if h.slots[s].addr == h.slots[s'].addr {
      assert h.Located(s, s') && h.Located(t, t');
    } else {
      assert h.Located(s, t') && h.Located(t, s');
    }
  }

  lemma ChildIsValid(h: Heap, a: Value, b: Value, g: Goal)
    requires h.Valid() && Comparable(h, a, b)
    requires Expand(h, a, b).Subgoals? && g in Expand(h, a, b).goals
    ensures g.Compare? ==> (g.a.Val? || g.b.Val?) && InHeap(h, g.a) && InHeap(h, g.b)
  {
    assert h.ValidContent(h.slots[a.ref].typ, h.slots[a.ref].content);
    assert h.ValidContent(h.slots[b.ref].typ, h.slots[b.ref].content);
  }

  // Every comparison asked for by a logged one was carried through, one way round or the other.
  lemma ChildLogged(h: Heap, log: seq<Goal>, visited: set<Visit>, i: nat, g: Goal)
    requires h.Valid() && GoodLog(h, log, {}, visited) && i < |log|
    requires Justified(h, log, visited, i)
    requires Expand(h, log[i].a, log[i].b).Subgoals? && g in Expand(h, log[i].a, log[i].b).goals
    ensures g.Compare? && Logged(log, g)
    ensures !(Comparable(h, g.a, g.b) && Recordable(h, g.a, g.b)) ==> g in log[..i]
  {
    ChildIsValid(h, log[i].a, log[i].b, g);
    assert Settled(h, log[..i], visited, g);
    if g !in log[..i] {
      var v := VisitOf(h, g.a.ref, g.b.ref);
      assert Recorded(h, log, v);
      var g' :| g' in log && g'.Compare? && Comparable(h, g'.a, g'.b) && Recordable(h, g'.a, g'.b)
                && VisitOf(h, g'.a.ref, g'.b.ref) == v;
      VisitUnordered(h, g.a.ref, g.b.ref, g'.a.ref, g'.b.ref);
    }
  }

  ghost function LogRelation(log: seq<Goal>): Relation {
    set g | g in log && g.Compare? && g.a.Val? && g.b.Val? :: (g.a.ref, g.b.ref)
  }

  ghost function Mirror(R: Relation): Relation {
    set p | p in R :: (p.1, p.0)
  }

  lemma AgreeMirrored(h: Heap, R: Relation, s: nat, t: nat)
    requires h.Valid() && Agree(h, R, s, t)
    ensures Agree(h, R + Mirror(R), s, t) && Agree(h, R + Mirror(R), t, s)
  {
    var Q := R + Mirror(R);
    assert forall i, j :: (i, j) in R ==> (i, j) in Q && (j, i) in Q by {
      assert forall i, j :: (i, j) in R ==> (i, j).1 == j && (i, j).0 == i;
    }
  }

  ghost function KeySet(keys: seq<MapKey>): set<nat> {
    set k | k in keys && k.Key? :: k.k
  }

  lemma {:induction false} KeySetSize(keys: seq<MapKey>)
    requires forall i, j :: 0 <= i < j < |keys| && keys[i] == keys[j] ==> keys[i] == NaNKey
    ensures |KeySet(keys)| <= |keys| && (|KeySet(keys)| == |keys| <==> NaNKey !in keys)
    decreases |keys|
  {
    if keys != [] {
      var last, init := keys[|keys| - 1], keys[..|keys| - 1];
      assert keys == init + [last];
      KeySetSize(init);
      KeySetSnoc(init, last);
      if last.Key? {
        assert last !in init && last.k !in KeySet(init);
      }
    }
  }

  lemma KeySetSnoc(init: seq<MapKey>, last: MapKey)
    ensures KeySet(init + [last]) == if last.Key? then KeySet(init) + {last.k} else KeySet(init)
  {
    var keys := init + [last];
    assert forall k :: k in keys <==> k in init || k == last;
  }

  // The map loop looks only for the first map's keys in the second; with equal lengths that is
  // enough to match the key sets.
  lemma MapKeysMatch(h: Heap, a: Value, b: Value)
    requires h.Valid() && Comparable(h, a, b) && h.slots[a.ref].content.Map?
    requires Expand(h, a, b).Subgoals? && Mismatch !in Expand(h, a, b).goals
    ensures h.slots[b.ref].content.Map?
    ensures var x, y := h.slots[a.ref].content, h.slots[b.ref].content;
      NaNKey !in x.keys && NaNKey !in y.keys && x.entries.Keys == y.entries.Keys
  {
    var x, y := h.slots[a.ref].content, h.slots[b.ref].content;
    assert h.ValidContent(h.slots[a.ref].typ, x) && h.ValidContent(h.slots[b.ref].typ, y);
    forall i | 0 <= i < |x.keys| ensures KeyGoal(x.keys[i], x.entries, y.entries).Compare? {
      assert KeyGoals(x.keys, x.entries, y.entries)[i] in Expand(h, a, b).goals;
    }
    assert x.entries.Keys == KeySet(x.keys) && y.entries.Keys == KeySet(y.keys);
    KeySetSize(x.keys);
    KeySetSize(y.keys);
    SubsetSize(x.entries.Keys, y.entries.Keys);
    SubsetSameSize(x.entries.Keys, y.entries.Keys);
  }

  lemma ExpandAgrees(h: Heap, R: Relation, a: Value, b: Value)
    requires h.Valid() && Comparable(h, a, b)
    requires Expand(h, a, b) == Answer(true)
          || (Expand(h, a, b).Subgoals? && forall g :: g in Expand(h, a, b).goals ==> Inside(R, g))
    ensures Agree(h, R, a.ref, b.ref)
  {
    var x, y := h.slots[a.ref].content, h.slots[b.ref].content;
    if Expand(h, a, b).Subgoals? {
      var goals := Expand(h, a, b).goals;
      assert forall i :: 0 <= i < |goals| ==> Inside(R, goals[i]);
      if x.Array? || x.Struct? || x.Slice? {
        forall i | 0 <= i < |x.cells| ensures (x.cells[i], y.cells[i]) in R {
          assert Inside(R, goals[i]);
        }
      } else if x.Ptr? || x.Interface? {
        assert Inside(R, goals[0]);
      } else if x.Map? {
        MapKeysMatch(h, a, b);
        assert h.ValidContent(h.slots[a.ref].typ, x);
        forall k | k in x.entries ensures (x.entries[k], y.entries[k]) in R {
          var i :| 0 <= i < |x.keys| && x.keys[i] == Key(k);
          assert goals[i] == KeyGoal(x.keys[i], x.entries, y.entries);
        }
      }
    }
  }

  lemma LogIsBisimulation(h: Heap, log: seq<Goal>, visited: set<Visit>)
    requires h.Valid() && GoodLog(h, log, {}, visited)
    ensures var R := LogRelation(log); Bisimulation(h, R + Mirror(R))
  {
    var R := LogRelation(log);
    var Q := R + Mirror(R);
    forall s, t | (s, t) in R ensures Agree(h, Q, s, t) && Agree(h, Q, t, s) {
      var g :| g in log && g.Compare? && g.a.Val? && g.b.Val? && (g.a.ref, g.b.ref) == (s, t);
      var i :| 0 <= i < |log| && log[i] == g;
      assert Justified(h, log, visited, i);
      if Expand(h, g.a, g.b).Subgoals? {
        forall c | c in Expand(h, g.a, g.b).goals ensures Inside(Q, c) {
          ChildLogged(h, log, visited, i, c);
          LoggedInside(h, log, visited, c);
        }
      }
      ExpandAgrees(h, Q, g.a, g.b);
      AgreeMirrored(h, Q, s, t);
      assert Q + Mirror(Q) == Q;
    }
  }

  lemma LoggedInside(h: Heap, log: seq<Goal>, visited: set<Visit>, g: Goal)
    requires GoodLog(h, log, {}, visited) && g.Compare? && Logged(log, g)
    ensures var R := LogRelation(log); Inside(R + Mirror(R), g)
  {
    var g' := if g in log then g else Swap(g);
    var i :| 0 <= i < |log| && log[i] == g';
    assert Justified(h, log, visited, i);
    assert (g'.a.ref, g'.b.ref) in LogRelation(log);
  }

  // Whenever the comparison of two (non-addressable) values comes to an end, its answer is right.
  lemma AnswerIsRight(h: Heap, ord: Order, s: nat, t: nat, fuel: nat)
    requires h.Valid() && IsOrder(ord) && h.HasSlot(s) && h.HasSlot(t)
    requires !Run(h, ord, [], Val(s, false), Val(t, false), {}, fuel).Running?
    ensures Run(h, ord, [], Val(s, false), Val(t, false), {}, fuel).Equal? <==> DeeplyEqual(h, s, t)
  {
    var a, b := Val(s, false), Val(t, false);
    var o := Run(h, ord, [], a, b, {}, fuel);
    if o.Equal? {
      RunLog(h, ord, [], a, b, {}, fuel);
      LogIsBisimulation(h, o.log, o.visited);
      LoggedInside(h, o.log, o.visited, Compare(a, b));
    } else if R: Relation :| (s, t) in R && Bisimulation(h, R) {
      assert Agree(h, R, s, t);
      NeverUnequal(h, ord, [], R, a, b, {}, fuel);
    }
  }

  /******* Cycles, in terms of the heap *******/

  // Two corresponding parts of the two values. Pointer targets and the elements of slices are
  // addressable, array elements and fields if the whole is; map values and interface contents are not.
  datatype Place = Place(s: nat, t: nat, addressable: bool)

  ghost predicate AtCells(xs: seq<nat>, ys: seq<nat>, q: Place) {
    exists i :: 0 <= i < |xs| && i < |ys| && xs[i] == q.s && ys[i] == q.t
  }

  // q is a part of p: where the types agree, and no difference or sharing shows before.
  ghost predicate Part(h: Heap, p: Place, q: Place) {
    && h.HasSlot(p.s) && h.HasSlot(p.t) && h.slots[p.s].typ == h.slots[p.t].typ
    && match (h.slots[p.s].content, h.slots[p.t].content)
       case (Array(xs), Array(ys)) => AtCells(xs, ys, q) && q.addressable == p.addressable
       case (Struct(xs), Struct(ys)) => AtCells(xs, ys, q) && q.addressable == p.addressable
       case (Slice(m, b, xs), Slice(n, c, ys)) => m == n && |xs| == |ys| && b != c && AtCells(xs, ys, q) && q.addressable
       case (Interface(e), Interface(f)) => e == Some(q.s) && f == Some(q.t) && !q.addressable
       case (Ptr(a, e), Ptr(b, f)) => a != b && e == Some(q.s) && f == Some(q.t) && q.addressable
       case (Map(m, b, ks, entries), Map(n, c, ls, entries')) =>
         && m == n && |ks| == |ls| && b != c && !q.addressable
         && exists k :: k in entries && k in entries' && entries[k] == q.s && entries'[k] == q.t
       case _ => false
  }

  // An addressable map, slice, pointer or interface.
  ghost predicate Guarded(h: Heap, p: Place)
    requires h.HasSlot(p.s)
  {
    var c := h.slots[p.s].content;
    p.addressable && (c.Map? || c.Slice? || c.Ptr? || c.Interface?)
  }

  ghost predicate IsTrail(h: Heap, s: nat, t: nat, trail: seq<Place>) {
    && trail != [] && trail[0] == Place(s, t, false)
    && forall k :: 0 <= k < |trail| - 1 ==> Part(h, trail[k], trail[k + 1])
  }

  ghost predicate UnguardedLoop(h: Heap, trail: seq<Place>, i: nat, j: nat) {
    && i < j < |trail| && trail[i] == trail[j]
    && forall k :: i <= k < j ==> h.HasSlot(trail[k].s) && !Guarded(h, trail[k])
  }

  // Following corresponding parts of the two values one can go round a cycle without meeting an
  // addressable map, slice, pointer or interface.
  ghost predicate UnguardedCycle(h: Heap, s: nat, t: nat) {
    exists trail, i: nat, j: nat :: IsTrail(h, s, t, trail) && UnguardedLoop(h, trail, i, j)
  }

  /******* When the comparison ends *******/

  ghost predicate Child(h: Heap, p: Goal, q: Goal) {
    && p.Compare? && q.Compare? && Comparable(h, p.a, p.b)
    && Expand(h, p.a, p.b).Subgoals? && q in Expand(h, p.a, p.b).goals
  }

  // A comparison that is never entered in the visited map.
  ghost predicate Bare(h: Heap, p: Goal) {
    p.Compare? && Comparable(h, p.a, p.b) && !Recordable(h, p.a, p.b)
  }

  ghost predicate IsPath(h: Heap, root: Goal, path: seq<Goal>) {
    && path != [] && path[0] == root
    && forall i :: 0 <= i < |path| - 1 ==> ChildAt(h, path, i)
  }

  ghost predicate ChildAt(h: Heap, path: seq<Goal>, i: int)
    requires 0 <= i < |path| - 1
  {
    Child(h, path[i], path[i + 1])
  }

  ghost predicate BareLoop(h: Heap, path: seq<Goal>, i: nat, j: nat) {
    i < j < |path| && path[i] == path[j] && forall k :: i <= k <= j ==> Bare(h, path[k])
  }

  ghost predicate NoBareLoop(h: Heap, root: Goal) {
    forall path, i: nat, j: nat :: IsPath(h, root, path) ==> !BareLoop(h, path, i, j)
  }

  function Root(s: nat, t: nat): Goal { Compare(Val(s, false), Val(t, false)) }

  function GoalAt(p: Place): Goal { Compare(Val(p.s, p.addressable), Val(p.t, p.addressable)) }

  // The comparisons that are asked for are those of the parts.
  lemma PartIsChild(h: Heap, p: Place, q: Place)
    requires h.Valid() && Part(h, p, q)
    ensures Child(h, GoalAt(p), GoalAt(q))
  {
    var x, y := h.slots[p.s].content, h.slots[p.t].content;
    assert h.ValidContent(h.slots[p.s].typ, x) && h.ValidContent(h.slots[p.t].typ, y);
    var goals := Expand(h, GoalAt(p).a, GoalAt(p).b).goals;
    if x.Map? {
      var k :| k in x.entries && k in y.entries && x.entries[k] == q.s && y.entries[k] == q.t;
      var i :| 0 <= i < |x.keys| && x.keys[i] == Key(k);
      assert goals[i] == GoalAt(q);
    } else if x.Array? || x.Struct? || x.Slice? {
      var i :| 0 <= i < |x.cells| && i < |y.cells| && x.cells[i] == q.s && y.cells[i] == q.t;
      assert goals[i] == GoalAt(q);
    } else {
      assert goals[0] == GoalAt(q);
    }
  }

  lemma ChildIsPart(h: Heap, p: Place, g: Goal) returns (q: Place)
    requires h.Valid() && Child(h, GoalAt(p), g) && g.a.Val? && g.b.Val?
    ensures Part(h, p, q) && g == GoalAt(q)
  {
    var x, y := h.slots[p.s].content, h.slots[p.t].content;
    q := Place(g.a.ref, g.b.ref, g.a.canAddr);
    var goals := Expand(h, GoalAt(p).a, GoalAt(p).b).goals;
    var i :| 0 <= i < |goals| && goals[i] == g;
    if x.Array? || x.Struct? || x.Slice? {
      assert x.cells[i] == q.s && y.cells[i] == q.t;
    } else if x.Map? {
      var k := x.keys[i].k;
      assert x.entries[k] == q.s && y.entries[k] == q.t;
    }
  }

  lemma BareIff(h: Heap, p: Place)
    requires h.Valid() && Comparable(h, GoalAt(p).a, GoalAt(p).b)
    ensures Bare(h, GoalAt(p)) <==> !Guarded(h, p)
  {
    assert h.ValidContent(h.slots[p.s].typ, h.slots[p.s].content);
  }

  lemma TrailIsPath(h: Heap, s: nat, t: nat, trail: seq<Place>, i: nat, j: nat) returns (path: seq<Goal>)
    requires h.Valid() && IsTrail(h, s, t, trail) && UnguardedLoop(h, trail, i, j)
    ensures IsPath(h, Root(s, t), path) && BareLoop(h, path, i, j)
  {
    path := seq(|trail|, k requires 0 <= k < |trail| => GoalAt(trail[k]));
    forall k | 0 <= k < |path| - 1 ensures ChildAt(h, path, k) {
      PartIsChild(h, trail[k], trail[k + 1]);
    }
    forall k | i <= k < j ensures Bare(h, path[k]) {
      assert Part(h, trail[k], trail[k + 1]);
      BareIff(h, trail[k]);
    }
  }

  lemma {:induction false} PathIsTrail(h: Heap, s: nat, t: nat, path: seq<Goal>, n: nat) returns (trail: seq<Place>)
    requires h.Valid() && IsPath(h, Root(s, t), path) && n < |path|
    requires forall k :: 0 <= k <= n ==> path[k].Compare? && path[k].a.Val? && path[k].b.Val?
    ensures IsTrail(h, s, t, trail) && |trail| == n + 1 && forall k :: 0 <= k <= n ==> path[k] == GoalAt(trail[k])
  {
    if n == 0 {
      trail := [Place(s, t, false)];
    } else {
      trail := PathIsTrail(h, s, t, path, n - 1);
      assert ChildAt(h, path, n - 1);
      var q := ChildIsPart(h, trail[n - 1], path[n]);
      trail := trail + [q];
    }
  }

  lemma SameGoalSamePlace(p: Place, q: Place)
    requires GoalAt(p) == GoalAt(q)
    ensures p == q
  {
  }

  /** The loops that the visited map does not stop are the unguarded cycles of the heap. */
  lemma UnguardedCycleIff(h: Heap, s: nat, t: nat)
    requires h.Valid()
    ensures UnguardedCycle(h, s, t) <==> !NoBareLoop(h, Root(s, t))
  {
    if trail, i: nat, j: nat :| IsTrail(h, s, t, trail) && UnguardedLoop(h, trail, i, j) {
      var path := TrailIsPath(h, s, t, trail, i, j);
      assert IsPath(h, Root(s, t), path) && BareLoop(h, path, i, j);
    }
    if path, i: nat, j: nat :| IsPath(h, Root(s, t), path) && BareLoop(h, path, i, j) {
      var trail := LoopIsTrail(h, s, t, path, i, j);
      assert IsTrail(h, s, t, trail) && UnguardedLoop(h, trail, i, j);
    }
  }

  lemma LoopIsTrail(h: Heap, s: nat, t: nat, path: seq<Goal>, i: nat, j: nat) returns (trail: seq<Place>)
    requires h.Valid() && IsPath(h, Root(s, t), path) && BareLoop(h, path, i, j)
    ensures IsTrail(h, s, t, trail) && UnguardedLoop(h, trail, i, j)
  {
    forall k | 0 <= k <= j ensures path[k].Compare? && path[k].a.Val? && path[k].b.Val? {
      assert k < j ==> ChildAt(h, path, k);
      assert Bare(h, path[j]);
    }
    trail := PathIsTrail(h, s, t, path, j);
    SameGoalSamePlace(trail[i], trail[j]);
    forall k | i <= k < j ensures h.HasSlot(trail[k].s) && !Guarded(h, trail[k]) {
      assert Bare(h, path[k]);
      BareIff(h, trail[k]);
    }
  }

  ghost function AllValues(h: Heap): set<Value> {
    {Invalid} + (set r, c | 0 <= r < |h.slots| && c in {false, true} :: Val(r, c))
  }

  ghost function AllGoals(h: Heap): set<Goal> {
    set a, b | a in AllValues(h) && b in AllValues(h) :: Compare(a, b)
  }

  ghost function AllVisits(h: Heap): set<Visit> {
    set r, s | 0 <= r < |h.slots| && 0 <= s < |h.slots| :: VisitOf(h, r, s)
  }

  // Recursion depth that suffices for the last goal of `path` when path[k..] is bare before it.
  ghost function Depth(h: Heap, path: seq<Goal>, k: nat, visited: set<Visit>): int {
    |AllVisits(h) - visited| * (|AllGoals(h)| + 1) + |AllGoals(h)| - (|path| - 1 - k)
  }

  // The bare stretch of a path below an unrepeated ancestor.
  ghost predicate Fresh(h: Heap, root: Goal, path: seq<Goal>, k: nat) {
    && IsPath(h, root, path) && k < |path|
    && (forall p :: p in path ==> p in AllGoals(h))
    && (forall i :: k <= i < |path| - 1 ==> Bare(h, path[i]))
    && (forall i, j :: k <= i < j < |path| ==> path[i] != path[j])
  }

  lemma FreshFits(h: Heap, root: Goal, path: seq<Goal>, k: nat)
    requires Fresh(h, root, path, k)
    ensures |path| - k <= |AllGoals(h)|
  {
    assert forall x :: x in path[k..] ==> x in path;
    DistinctFits(path[k..], AllGoals(h));
  }

  lemma PathExtends(h: Heap, root: Goal, path: seq<Goal>, g: Goal)
    requires IsPath(h, root, path) && Child(h, path[|path| - 1], g)
    ensures IsPath(h, root, path + [g])
  {
    var path' := path + [g];
    forall i | 0 <= i < |path'| - 1 ensures ChildAt(h, path', i) {
      if i < |path| - 1 {
        assert ChildAt(h, path, i);
      }
    }
  }

  lemma ChildInAllGoals(h: Heap, p: Goal, q: Goal)
    requires h.Valid() && Child(h, p, q)
    ensures q in AllGoals(h)
  {
    ChildIsValid(h, p.a, p.b, q);
    assert q.a in AllValues(h) && q.b in AllValues(h);
  }

  // Extending the path by a child of its last goal keeps it fresh.
  lemma FreshChild(h: Heap, root: Goal, path: seq<Goal>, k: nat, g: Goal)
    requires h.Valid() && Fresh(h, root, path, k) && Child(h, path[|path| - 1], g)
    requires NoBareLoop(h, root)
    ensures Fresh(h, root, path + [g], if Bare(h, path[|path| - 1]) then k else |path|)
  {
    var last := path[|path| - 1];
    var path' := path + [g];
    ChildInAllGoals(h, last, g);
    PathExtends(h, root, path, g);
    if Bare(h, last) {
      NoRepeat(h, root, path, k, g);
    }
  }

  lemma NoRepeat(h: Heap, root: Goal, path: seq<Goal>, k: nat, g: Goal)
    requires k < |path| && NoBareLoop(h, root) && IsPath(h, root, path + [g])
    requires forall i :: k <= i < |path| ==> Bare(h, path[i])
    ensures forall i :: k <= i < |path| ==> path[i] != g
  {
    var path' := path + [g];
    forall i | k <= i < |path| ensures path[i] != g {
      assert !BareLoop(h, path', i, |path|);
      assert forall j :: i <= j < |path| ==> path'[j] == path[j];
    }
  }

  lemma {:induction false} GoalEnds(h: Heap, ord: Order, at: seq<nat>, root: Goal, path: seq<Goal>, k: nat,
                                    visited: set<Visit>, fuel: nat)
    requires h.Valid() && IsOrder(ord) && Fresh(h, root, path, k) && NoBareLoop(h, root)
    requires fuel >= Depth(h, path, k, visited)
    ensures Stops(h, ord, at, path[|path| - 1], visited, fuel)
    decreases fuel, 0
  {
    var g := path[|path| - 1];
    DepthPositive(h, root, path, k, visited);
    if Expanding(h, g, visited) {
      var k' := ArrangedReady(h, ord, at, root, path, k, visited, fuel);
      ExpansionEnds(h, ord, at, root, path, k', g, visited, fuel);
    } else {
      EndsAtOnce(h, ord, at, g, visited, fuel);
    }
  }

  lemma {:induction false} ExpansionEnds(h: Heap, ord: Order, at: seq<nat>, root: Goal, path: seq<Goal>, k: nat, g: Goal,
                                         visited: set<Visit>, fuel: nat)
    requires h.Valid() && IsOrder(ord) && NoBareLoop(h, root) && path != [] && 0 < fuel && Expanding(h, g, visited)
    requires Ready(h, root, path, k, Arranged(h, ord, at, g.a, g.b), Record(h, g.a, g.b, visited), fuel - 1)
    ensures Stops(h, ord, at, g, visited, fuel)
    decreases fuel - 1, 2
  {
    var goals, visited' := Arranged(h, ord, at, g.a, g.b), Record(h, g.a, g.b, visited);
    GoalsEnd(h, ord, at, root, path, k, goals, visited', fuel - 1);
    EndsByGoals(h, ord, at, g, goals, visited, visited', fuel);
  }

  lemma EndsAtOnce(h: Heap, ord: Order, at: seq<nat>, g: Goal, visited: set<Visit>, fuel: nat)
    requires fuel > 0 && g.Compare? && !Expanding(h, g, visited)
    ensures Stops(h, ord, at, g, visited, fuel)
  {
    assert !Run(h, ord, at, g.a, g.b, visited, fuel).Running?;
  }

  lemma EndsByGoals(h: Heap, ord: Order, at: seq<nat>, g: Goal, goals: seq<Goal>, visited: set<Visit>, visited': set<Visit>, fuel: nat)
    requires fuel > 0 && Expanding(h, g, visited)
    requires goals == Arranged(h, ord, at, g.a, g.b) && visited' == Record(h, g.a, g.b, visited)
    requires AllStop(h, ord, at, goals, visited', fuel - 1)
    ensures Stops(h, ord, at, g, visited, fuel)
  {
    assert ComesTo(h, ord, at, goals, visited', fuel - 1, RunAll(h, ord, at, goals, visited', fuel - 1));
    assert !Run(h, ord, at, g.a, g.b, visited, fuel).Running?;
  }

  ghost predicate Stops(h: Heap, ord: Order, at: seq<nat>, g: Goal, visited: set<Visit>, fuel: nat) {
    g.Compare? && forall o {:trigger RunComesTo(h, ord, at, g, visited, fuel, o)} ::
      RunComesTo(h, ord, at, g, visited, fuel, o) ==> !o.Running?
  }

  ghost predicate RunComesTo(h: Heap, ord: Order, at: seq<nat>, g: Goal, visited: set<Visit>, fuel: nat, o: Outcome) {
    g.Compare? && Run(h, ord, at, g.a, g.b, visited, fuel) == o
  }

  ghost predicate AllStop(h: Heap, ord: Order, at: seq<nat>, goals: seq<Goal>, visited: set<Visit>, fuel: nat) {
    forall o {:trigger ComesTo(h, ord, at, goals, visited, fuel, o)} ::
      ComesTo(h, ord, at, goals, visited, fuel, o) ==> !o.Running?
  }

  ghost predicate ComesTo(h: Heap, ord: Order, at: seq<nat>, goals: seq<Goal>, visited: set<Visit>, fuel: nat, o: Outcome) {
    RunAll(h, ord, at, goals, visited, fuel) == o
  }

  ghost predicate Expanding(h: Heap, g: Goal, visited: set<Visit>) {
    && g.Compare? && Comparable(h, g.a, g.b) && !Seen(h, g.a, g.b, visited) && Expand(h, g.a, g.b).Subgoals?
  }

  // Each goal continues the path below it, and the depth left suffices for it.
  ghost predicate Ready(h: Heap, root: Goal, path: seq<Goal>, k: nat, goals: seq<Goal>, visited: set<Visit>, fuel: nat) {
    && (forall g {:trigger g in goals} :: g in goals && g.Compare? ==> Fresh(h, root, path + [g], k))
    && (forall g {:trigger g in goals} :: g in goals ==> fuel >= Depth(h, path + [g], k, visited))
  }

  lemma ArrangedReady(h: Heap, ord: Order, at: seq<nat>, root: Goal, path: seq<Goal>, k: nat, visited: set<Visit>, fuel: nat)
    returns (k': nat)
    requires h.Valid() && IsOrder(ord) && Fresh(h, root, path, k) && NoBareLoop(h, root)
    requires 0 < fuel && fuel >= Depth(h, path, k, visited)
    requires Expanding(h, path[|path| - 1], visited)
    ensures var g := path[|path| - 1];
      Ready(h, root, path, k', Arranged(h, ord, at, g.a, g.b), Record(h, g.a, g.b, visited), fuel - 1)
  {
    var g := path[|path| - 1];
    ArrangedHasAll(h, ord, at, g.a, g.b);
    k' := ChildrenReady(h, root, path, k, Arranged(h, ord, at, g.a, g.b), visited, fuel);
  }

  lemma ChildrenReady(h: Heap, root: Goal, path: seq<Goal>, k: nat, goals: seq<Goal>, visited: set<Visit>, fuel: nat)
    returns (k': nat)
    requires h.Valid() && Fresh(h, root, path, k) && NoBareLoop(h, root)
    requires 0 < fuel && fuel >= Depth(h, path, k, visited)
    requires Expanding(h, path[|path| - 1], visited)
    requires forall c :: c in goals && c.Compare? ==> Child(h, path[|path| - 1], c)
    ensures var g := path[|path| - 1]; Ready(h, root, path, k', goals, Record(h, g.a, g.b, visited), fuel - 1)
  {
    var g := path[|path| - 1];
    k' := if Bare(h, g) then k else |path|;
    forall c | c in goals && c.Compare? ensures Fresh(h, root, path + [c], k') {
      FreshChild(h, root, path, k, c);
    }
    forall c | c in goals
      ensures fuel - 1 >= Depth(h, path + [c], k', Record(h, g.a, g.b, visited))
    {
      DepthOfChild(h, root, path, k, visited, c);
    }
  }

  lemma DepthPositive(h: Heap, root: Goal, path: seq<Goal>, k: nat, visited: set<Visit>)
    requires Fresh(h, root, path, k)
    ensures Depth(h, path, k, visited) > 0 && path[|path| - 1].Compare?
  {
    assert path[|path| - 1] in path;
    FreshFits(h, root, path, k);
    Scale(0, |AllVisits(h) - visited|, |AllGoals(h)| + 1);
  }

  // Recording a visit pays for a whole bare stretch; a bare step shortens the stretch that is left.
  lemma DepthOfChild(h: Heap, root: Goal, path: seq<Goal>, k: nat, visited: set<Visit>, c: Goal)
    requires Fresh(h, root, path, k) && Expanding(h, path[|path| - 1], visited)
    ensures var g := path[|path| - 1];
      Depth(h, path, k, visited)
        > Depth(h, path + [c], if Bare(h, g) then k else |path|, Record(h, g.a, g.b, visited))
  {
    var g := path[|path| - 1];
    if Recordable(h, g.a, g.b) {
      RecordingPays(h, g, visited);
      RoundDown(|AllVisits(h) - visited|, |AllGoals(h)| + 1);
      FreshFits(h, root, path, k);
    }
  }

  lemma RecordingPays(h: Heap, g: Goal, visited: set<Visit>)
    requires Expanding(h, g, visited) && Recordable(h, g.a, g.b)
    ensures |AllVisits(h) - Record(h, g.a, g.b, visited)| == |AllVisits(h) - visited| - 1
  {
    var v := VisitOf(h, g.a.ref, g.b.ref);
    var left := AllVisits(h) - visited;
    assert v in left && AllVisits(h) - (visited + {v}) == left - {v};
  }

  lemma RoundDown(n: nat, m: nat)
    requires n > 0
    ensures n * m == (n - 1) * m + m
  {
  }

  lemma {:induction false} GoalsEnd(h: Heap, ord: Order, at: seq<nat>, root: Goal, path: seq<Goal>, k: nat, goals: seq<Goal>,
                                    visited: set<Visit>, fuel: nat)
    requires h.Valid() && IsOrder(ord) && path != []
    requires NoBareLoop(h, root) && Ready(h, root, path, k, goals, visited, fuel)
    ensures AllStop(h, ord, at, goals, visited, fuel)
    decreases fuel, 1, |goals|
  {
    if goals != [] && goals[0].Compare? {
      var g := goals[0];
      HeadReady(h, root, path, k, goals, visited, fuel);
      GoalEnds(h, ord, at + [|goals|], root, path + [g], k, visited, fuel);
      var o := Run(h, ord, at + [|goals|], g.a, g.b, visited, fuel);
      if o.Equal? {
        RestReady(h, root, path, k, goals, visited, o.visited, fuel);
        GoalsEnd(h, ord, at, root, path, k, goals[1..], o.visited, fuel);
      }
    }
    EndsGoalByGoal(h, ord, at, goals, visited, fuel);
  }

  lemma HeadReady(h: Heap, root: Goal, path: seq<Goal>, k: nat, goals: seq<Goal>, visited: set<Visit>, fuel: nat)
    requires Ready(h, root, path, k, goals, visited, fuel) && goals != [] && goals[0].Compare?
    ensures Fresh(h, root, path + [goals[0]], k) && fuel >= Depth(h, path + [goals[0]], k, visited)
    ensures (path + [goals[0]])[|path|] == goals[0]
  {
    assert goals[0] in goals;
  }

  lemma RestReady(h: Heap, root: Goal, path: seq<Goal>, k: nat, goals: seq<Goal>, visited: set<Visit>, visited': set<Visit>, fuel: nat)
    requires Ready(h, root, path, k, goals, visited, fuel) && goals != [] && visited <= visited'
    ensures Ready(h, root, path, k, goals[1..], visited', fuel)
  {
    SubsetSize(AllVisits(h) - visited', AllVisits(h) - visited);
    Scale(|AllVisits(h) - visited'|, |AllVisits(h) - visited|, |AllGoals(h)| + 1);
    forall g | g in goals[1..]
      ensures (g.Compare? ==> Fresh(h, root, path + [g], k)) && fuel >= Depth(h, path + [g], k, visited')
    {
      assert g in goals;
    }
  }

  lemma EndsGoalByGoal(h: Heap, ord: Order, at: seq<nat>, goals: seq<Goal>, visited: set<Visit>, fuel: nat)
    requires goals != [] && goals[0].Compare? ==>
      && Stops(h, ord, at + [|goals|], goals[0], visited, fuel)
      && var o := Run(h, ord, at + [|goals|], goals[0].a, goals[0].b, visited, fuel);
         o.Equal? ==> AllStop(h, ord, at, goals[1..], o.visited, fuel)
    ensures AllStop(h, ord, at, goals, visited, fuel)
  {
    if goals != [] && goals[0].Compare? {
      var o := Run(h, ord, at + [|goals|], goals[0].a, goals[0].b, visited, fuel);
      assert RunComesTo(h, ord, at + [|goals|], goals[0], visited, fuel, o);
      if o.Equal? {
        assert ComesTo(h, ord, at, goals[1..], o.visited, fuel, RunAll(h, ord, at, goals[1..], o.visited, fuel));
      }
    }
    assert !RunAll(h, ord, at, goals, visited, fuel).Running?;
  }

  lemma Scale(i: nat, j: nat, m: nat)
    requires i <= j
    ensures i * m <= j * m
  {
  }

  /******* When it does not *******/

  lemma ChildMirrored(h: Heap, p: Goal, q: Goal)
    requires h.Valid() && Child(h, p, q)
    ensures Child(h, Swap(p), Swap(q))
  {
    var x, y := h.slots[p.a.ref].content, h.slots[p.b.ref].content;
    assert h.ValidContent(h.slots[p.a.ref].typ, x) && h.ValidContent(h.slots[p.b.ref].typ, y);
    var there := Expand(h, p.a, p.b).goals;
    var i :| 0 <= i < |there| && there[i] == q;
    var back := Expand(h, p.b, p.a).goals;
    if x.Map? {
      var k := x.keys[i].k;
      assert Key(k) in y.keys;
      var j :| 0 <= j < |y.keys| && y.keys[j] == Key(k);
      assert back[j] == Swap(q);
    } else {
      assert back[i] == Swap(q);
    }
  }

  // From a logged root everything that can be reached was logged.
  lemma {:induction false} PathLogged(h: Heap, log: seq<Goal>, visited: set<Visit>, root: Goal, path: seq<Goal>, n: nat)
    requires h.Valid() && GoodLog(h, log, {}, visited) && root in log
    requires IsPath(h, root, path) && n < |path|
    ensures Logged(log, path[n])
  {
    if n > 0 {
      PathLogged(h, log, visited, root, path, n - 1);
      var p, q := path[n - 1], path[n];
      assert ChildAt(h, path, n - 1);
      ChildMirrored(h, p, q);
      var p', q' := if p in log then p else Swap(p), if p in log then q else Swap(q);
      var i :| 0 <= i < |log| && log[i] == p';
      assert Justified(h, log, visited, i);
      ChildLogged(h, log, visited, i, q');
    }
  }

  ghost predicate BareChain(h: Heap, path: seq<Goal>) {
    && (forall k :: 0 <= k < |path| ==> Bare(h, path[k]))
    && (forall k :: 0 <= k < |path| - 1 ==> Child(h, path[k], path[k + 1]))
  }

  // In a log, a bare comparison is preceded by the bare comparisons it asked for; so going round a
  // cycle of them leads to before the first entry.
  lemma {:induction false} BarePathLogged(h: Heap, log: seq<Goal>, visited: set<Visit>, path: seq<Goal>, x: nat, n: nat)
    requires h.Valid() && GoodLog(h, log, {}, visited)
    requires 0 < n < |path| && x < |log| && log[x] == path[0] && BareChain(h, path)
    ensures path[n] in log[..x]
  {
    var y := x;
    if n > 1 {
      BarePathLogged(h, log, visited, path, x, n - 1);
      y :| 0 <= y < x && log[y] == path[n - 1];
    }
    assert Justified(h, log, visited, y) && Child(h, path[n - 1], path[n]);
    ChildLogged(h, log, visited, y, path[n]);
    assert log[..y] <= log[..x];
  }

  lemma FirstIndex(log: seq<Goal>, g: Goal) returns (x: nat)
    requires g in log
    ensures x < |log| && log[x] == g && g !in log[..x]
  {
    x := 0;
    while log[x] != g
      invariant x < |log| && g !in log[..x]
      decreases |log| - x
    {
      x := x + 1;
    }
  }

  lemma EqualHasNoCycle(h: Heap, ord: Order, s: nat, t: nat, fuel: nat)
    requires h.Valid() && IsOrder(ord) && h.HasSlot(s) && h.HasSlot(t)
    requires Run(h, ord, [], Val(s, false), Val(t, false), {}, fuel).Equal?
    ensures !UnguardedCycle(h, s, t)
  {
    var root := Root(s, t);
    var o := Run(h, ord, [], root.a, root.b, {}, fuel);
    RunLog(h, ord, [], root.a, root.b, {}, fuel);
    forall path, i: nat, j: nat | IsPath(h, root, path) ensures !BareLoop(h, path, i, j) {
      if BareLoop(h, path, i, j) {
        PathLogged(h, o.log, o.visited, root, path, i);
        var loop := path[i..j + 1];
        LoopIsChain(h, root, path, i, j);
        LoopNotLogged(h, o.log, o.visited, loop);
      }
    }
    UnguardedCycleIff(h, s, t);
  }

  lemma LoopIsChain(h: Heap, root: Goal, path: seq<Goal>, i: nat, j: nat)
    requires IsPath(h, root, path) && BareLoop(h, path, i, j)
    ensures BareChain(h, path[i..j + 1])
  {
    forall k | i <= k < j ensures Child(h, path[k], path[k + 1]) {
      assert ChildAt(h, path, k);
    }
  }

  lemma LoopNotLogged(h: Heap, log: seq<Goal>, visited: set<Visit>, loop: seq<Goal>)
    requires h.Valid() && GoodLog(h, log, {}, visited)
    requires |loop| > 1 && BareChain(h, loop) && loop[0] == loop[|loop| - 1]
    ensures !Logged(log, loop[0])
  {
    MirrorChain(h, loop);
    if Logged(log, loop[0]) {
      var loop' := if loop[0] in log then loop else Swaps(loop);
      var x := FirstIndex(log, loop'[0]);
      BarePathLogged(h, log, visited, loop', x, |loop| - 1);
    }
  }

  function Swaps(goals: seq<Goal>): (r: seq<Goal>)
    ensures |r| == |goals| && forall i :: 0 <= i < |r| ==> r[i] == Swap(goals[i])
  {
    seq(|goals|, i requires 0 <= i < |goals| => Swap(goals[i]))
  }

  lemma MirrorChain(h: Heap, chain: seq<Goal>)
    requires h.Valid() && BareChain(h, chain)
    ensures BareChain(h, Swaps(chain))
  {
    var back := Swaps(chain);
    forall k | 0 <= k < |back| ensures Bare(h, back[k]) {
      assert Bare(h, chain[k]);
    }
    forall k | 0 <= k < |back| - 1 ensures Child(h, back[k], back[k + 1]) {
      ChildMirrored(h, chain[k], chain[k + 1]);
    }
  }

  // The exact condition: the comparison comes to an equal answer if and only if the values are
  // deeply equal and no unguarded cycle can be reached from them.
  lemma AnswersEqualIff(h: Heap, ord: Order, s: nat, t: nat)
    requires h.Valid() && IsOrder(ord) && h.HasSlot(s) && h.HasSlot(t)
    ensures (exists fuel :: Run(h, ord, [], Val(s, false), Val(t, false), {}, fuel).Equal?)
       <==> DeeplyEqual(h, s, t) && !UnguardedCycle(h, s, t)
  {
    var a, b := Val(s, false), Val(t, false);
    if fuel :| Run(h, ord, [], a, b, {}, fuel).Equal? {
      AnswerIsRight(h, ord, s, t, fuel);
      EqualHasNoCycle(h, ord, s, t, fuel);
    }
    if DeeplyEqual(h, s, t) && !UnguardedCycle(h, s, t) {
      var fuel := EndsWithoutCycle(h, ord, s, t);
      AnswerIsRight(h, ord, s, t, fuel);
    }
  }

  lemma EndsWithoutCycle(h: Heap, ord: Order, s: nat, t: nat) returns (fuel: nat)
    requires h.Valid() && IsOrder(ord) && h.HasSlot(s) && h.HasSlot(t) && !UnguardedCycle(h, s, t)
    ensures !Run(h, ord, [], Val(s, false), Val(t, false), {}, fuel).Running?
  {
    UnguardedCycleIff(h, s, t);
    var path := [Root(s, t)];
    assert |AllVisits(h)| * (|AllGoals(h)| + 1) >= 0;
    assert AllVisits(h) - {} == AllVisits(h);
    fuel := |AllVisits(h)| * (|AllGoals(h)| + 1) + |AllGoals(h)|;
    GoalEnds(h, ord, [], Root(s, t), path, 0, {}, fuel);
    assert RunComesTo(h, ord, [], Root(s, t), {}, fuel, Run(h, ord, [], Val(s, false), Val(t, false), {}, fuel));
  }

  // Two structs, each with a pointer to itself as its only field, and a pointer to each: the fields
  // are addressable, so coming back to them the comparison stops.
  function SelfNode(field: nat): Slot {
    Slot(Type(0, KStruct, 1), 10 * field, Struct([field]))
  }

  function PointerTo(node: nat, addr: nat): Slot {
    Slot(Type(1, KPtr, 0), addr, Ptr(10 * (node + 2), Some(node)))
  }

  // &a and &b are in slots 4 and 5, a and b in 0 and 1, a.next and b.next in 2 and 3.
  const TWO_SELF_NODES: Heap :=
    Heap([SelfNode(2), SelfNode(3), PointerTo(0, 20), PointerTo(1, 30), PointerTo(0, 40), PointerTo(1, 50)], {})

  lemma SelfNodesAreValid()
    ensures TWO_SELF_NODES.Valid()
  {
    SelfNodesAreTyped();
    SelfNodesAreApart();
  }

  lemma SelfNodesAreTyped()
    ensures var h := TWO_SELF_NODES;
      forall r :: 0 <= r < |h.slots| ==> h.ValidContent(h.slots[r].typ, h.slots[r].content)
  {
  }

  lemma SelfNodesAreApart()
    ensures var h := TWO_SELF_NODES; forall r, s :: 0 <= r < |h.slots| && 0 <= s < |h.slots| && h.Located(r, s) ==> r == s
  {
  }

  // a.next against b.next, met for the first time and again.
  lemma SelfFieldsEnd(ord: Order, at: seq<nat>)
    ensures Run(TWO_SELF_NODES, ord, at, Val(2, true), Val(3, true), {}, 3).Equal?
  {
    var h := TWO_SELF_NODES;
    var seen := {VisitOf(h, 2, 3)};
    assert Record(h, Val(2, true), Val(3, true), {}) == seen;
    var again := Compare(Val(2, true), Val(3, true));
    var node := Compare(Val(0, true), Val(1, true));
    assert Seen(h, again.a, again.b, seen);
    assert Run(h, ord, at + [1] + [1], again.a, again.b, seen, 1).Equal?;
    assert Arranged(h, ord, at + [1], node.a, node.b) == [again];
    assert RunAll(h, ord, at + [1], [again], seen, 1).Equal?;
    assert RunExpansion(h, ord, at + [1], node.a, node.b, seen, 1).Equal?;
    assert Run(h, ord, at + [1], node.a, node.b, seen, 2).Equal?;
    assert Arranged(h, ord, at, again.a, again.b) == [node];
    assert RunAll(h, ord, at, [node], seen, 2).Equal?;
    assert RunExpansion(h, ord, at, again.a, again.b, seen, 2).Equal?;
  }

  lemma SelfStructsEnd(ord: Order, at: seq<nat>)
    ensures Run(TWO_SELF_NODES, ord, at, Val(0, true), Val(1, true), {}, 4).Equal?
  {
    var h := TWO_SELF_NODES;
    var field := Compare(Val(2, true), Val(3, true));
    SelfFieldsEnd(ord, at + [1]);
    assert Arranged(h, ord, at, Val(0, true), Val(1, true)) == [field];
    assert RunAll(h, ord, at, [field], {}, 3).Equal?;
    assert RunExpansion(h, ord, at, Val(0, true), Val(1, true), {}, 3).Equal?;
  }

  /** So the two pointers are found equal. */
  lemma SelfNodesEnd(ord: Order)
    ensures Run(TWO_SELF_NODES, ord, [], Val(4, false), Val(5, false), {}, 5).Equal?
  {
    var h := TWO_SELF_NODES;
    var node := Compare(Val(0, true), Val(1, true));
    SelfStructsEnd(ord, [1]);
    assert [] + [1] == [1];
    assert Arranged(h, ord, [], Val(4, false), Val(5, false)) == [node];
    assert RunAll(h, ord, [], [node], {}, 4).Equal?;
    assert RunExpansion(h, ord, [], Val(4, false), Val(5, false), {}, 4).Equal?;
  }

  // Two distinct maps, each holding only itself: deeply equal, yet compared forever.
  function SelfMap(base: nat, self: nat): Slot {
    Slot(Type(0, KMap, 0), base, Map(false, base, [Key(0)], map[0 := self]))
  }

  const TWO_SELF_MAPS: Heap := Heap([SelfMap(1, 0), SelfMap(2, 1)], {})

  lemma {:induction false} SelfMapsNeverEnd(ord: Order, at: seq<nat>, fuel: nat)
    requires IsOrder(ord)
    ensures Run(TWO_SELF_MAPS, ord, at, Val(0, false), Val(1, false), {}, fuel).Running?
    decreases fuel
  {
    if fuel > 0 {
      SelfMapsNeverEnd(ord, at + [1], fuel - 1);
      var goals := Arranged(TWO_SELF_MAPS, ord, at, Val(0, false), Val(1, false));
      OneKey(ord(at, [Key(0)]), Key(0));
      assert goals == [Compare(Val(0, false), Val(1, false))];
      assert RunAll(TWO_SELF_MAPS, ord, at, goals, {}, fuel - 1).Running?;
      assert RunExpansion(TWO_SELF_MAPS, ord, at, Val(0, false), Val(1, false), {}, fuel - 1).Running?;
    }
  }

  lemma OneKey(keys: seq<MapKey>, k: MapKey)
    requires multiset(keys) == multiset([k])
    ensures keys == [k]
  {
    assert |keys| == |multiset(keys)| == 1;
    assert keys[0] in multiset(keys);
  }

  lemma SelfMapsAreDeeplyEqual()
    ensures TWO_SELF_MAPS.Valid() && DeeplyEqual(TWO_SELF_MAPS, 0, 1)
  {
    SelfMapsAreValid();
    assert Agree(TWO_SELF_MAPS, {(0, 1)}, 0, 1);
    assert Bisimulation(TWO_SELF_MAPS, {(0, 1)});
  }

  lemma SelfMapsAreValid()
    ensures TWO_SELF_MAPS.Valid()
  {
  }

  /******* The imperative comparison *******/

  // The comparison comes to an end.  It does whenever there is no unguarded cycle
  // (EndsWithoutCycle); equal answers come only without one (EqualHasNoCycle).
  ghost predicate Ends(h: Heap, ord: Order, s: nat, t: nat) {
    exists fuel :: !Run(h, ord, [], Val(s, false), Val(t, false), {}, fuel).Running?
  }

  ghost predicate SameResult(o: Outcome, o': Outcome) {
    !o.Running? && o.Equal? == o'.Equal? && (o.Equal? ==> o.visited == o'.visited)
  }

  // The loops take the goals one by one.
  lemma RunNext(h: Heap, ord: Order, at: seq<nat>, goals: seq<Goal>, i: nat, visited: set<Visit>, fuel: nat)
    requires i < |goals| && goals[i].Compare? && !RunAll(h, ord, at, goals[i..], visited, fuel).Running?
    ensures var o := Run(h, ord, at + [|goals| - i], goals[i].a, goals[i].b, visited, fuel);
      var all := RunAll(h, ord, at, goals[i..], visited, fuel);
      !o.Running? && if o.Unequal? then all.Unequal? else SameResult(RunAll(h, ord, at, goals[i + 1..], o.visited, fuel), all)
  {
    assert goals[i..][1..] == goals[i + 1..] && |goals[i..]| == |goals| - i;
  }

  class Comparison {
    const h: Heap
    const ord: Order
    var visited: set<Visit>

    constructor (h: Heap, ord: Order)
      ensures this.h == h && this.ord == ord && visited == {}
    {
      this.h := h;
      this.ord := ord;
      visited := {};
    }

    method DeepValueEqual(at: seq<nat>, v1: Value, v2: Value, ghost fuel: nat) returns (eq: bool)
      requires h.Valid() && InHeap(h, v1) && InHeap(h, v2)
      requires !Run(h, ord, at, v1, v2, visited, fuel).Running?
      modifies this`visited
      ensures eq == Run(h, ord, at, v1, v2, old(visited), fuel).Equal?
      ensures eq ==> visited == Run(h, ord, at, v1, v2, old(visited), fuel).visited
      decreases fuel, 0
    {
      if v1.Invalid? || v2.Invalid? {
        return v1.Invalid? == v2.Invalid?;
      }
      var x, y := h.slots[v1.ref], h.slots[v2.ref];
      if x.typ != y.typ {
        return false;
      }
      if v1.canAddr && v2.canAddr && Hard(x.typ.kind) {
        var addr1, addr2 := x.addr, y.addr;
        if addr1 > addr2 {
          addr1, addr2 := addr2, addr1;
        }
        var v := Visit(addr1, addr2, x.typ);
        if v in visited {
          return true;
        }
        visited := visited + {v};
      }
      eq := CompareContents(at, v1, v2, fuel - 1);
    }

    // The switch over the kind.
    method CompareContents(at: seq<nat>, v1: Value, v2: Value, ghost fuel: nat) returns (eq: bool)
      requires h.Valid() && Comparable(h, v1, v2)
      requires !RunExpansion(h, ord, at, v1, v2, visited, fuel).Running?
      modifies this`visited
      ensures eq == RunExpansion(h, ord, at, v1, v2, old(visited), fuel).Equal?
      ensures eq ==> visited == RunExpansion(h, ord, at, v1, v2, old(visited), fuel).visited
      decreases fuel, 2
    {
      var x, y := h.slots[v1.ref], h.slots[v2.ref];
      assert h.ValidContent(x.typ, x.content) && h.ValidContent(y.typ, y.content);
      match x.content
      case Array(cells) =>
        eq := CompareCells(at, cells, y.content.cells, v1.canAddr, v2.canAddr, fuel);
      case Struct(cells) =>
        eq := CompareCells(at, cells, y.content.cells, v1.canAddr, v2.canAddr, fuel);
      case Slice(isNil, base, cells) =>
        if isNil != y.content.isNil || |cells| != |y.content.cells| {
          return false;
        }
        if base == y.content.base {
          return true;
        }
        eq := CompareCells(at, cells, y.content.cells, true, true, fuel);
      case Interface(elem) =>
        if elem.None? || y.content.elem.None? {
          return elem.None? == y.content.elem.None?;
        }
        eq := CompareOne(at, Val(elem.value, false), Val(y.content.elem.value, false), fuel);
      case Ptr(target, elem) =>
        if target == y.content.target {
          return true;
        }
        eq := CompareOne(at, Elem(elem, true), Elem(y.content.elem, true), fuel);
      case Map(isNil, base, keys, entries) =>
        if isNil != y.content.isNil || |keys| != |y.content.keys| {
          return false;
        }
        if base == y.content.base {
          return true;
        }
        eq := CompareEntries(at, ord(at, keys), entries, y.content.entries, fuel);
      case Func(isNil) =>
        eq := isNil && y.content.isNil;
      case Leaf(datum) =>
        eq := (datum, y.content.datum) in h.leafEq;
    }

    method CompareOne(at: seq<nat>, v1: Value, v2: Value, ghost fuel: nat) returns (eq: bool)
      requires h.Valid() && InHeap(h, v1) && InHeap(h, v2)
      requires !RunAll(h, ord, at, [Compare(v1, v2)], visited, fuel).Running?
      modifies this`visited
      ensures eq == RunAll(h, ord, at, [Compare(v1, v2)], old(visited), fuel).Equal?
      ensures eq ==> visited == RunAll(h, ord, at, [Compare(v1, v2)], old(visited), fuel).visited
      decreases fuel, 1
    {
      assert [Compare(v1, v2)][1..] == [];
      eq := DeepValueEqual(at + [1], v1, v2, fuel);
    }

    method CompareCells(at: seq<nat>, xs: seq<nat>, ys: seq<nat>, c: bool, d: bool, ghost fuel: nat) returns (eq: bool)
      requires h.Valid() && |xs| == |ys|
      requires forall i :: 0 <= i < |xs| ==> h.HasSlot(xs[i]) && h.HasSlot(ys[i])
      requires !RunAll(h, ord, at, CellGoals(xs, ys, c, d), visited, fuel).Running?
      modifies this`visited
      ensures eq == RunAll(h, ord, at, CellGoals(xs, ys, c, d), old(visited), fuel).Equal?
      ensures eq ==> visited == RunAll(h, ord, at, CellGoals(xs, ys, c, d), old(visited), fuel).visited
      decreases fuel, 1
    {
      ghost var goals := CellGoals(xs, ys, c, d);
      for i := 0 to |xs|
        invariant SameResult(RunAll(h, ord, at, goals[i..], visited, fuel), RunAll(h, ord, at, goals, old(visited), fuel))
      {
        RunNext(h, ord, at, goals, i, visited, fuel);
        var same := DeepValueEqual(at + [|xs| - i], Val(xs[i], c), Val(ys[i], d), fuel);
        if !same {
          return false;
        }
      }
      return true;
    }

    method CompareEntries(at: seq<nat>, keys: seq<MapKey>, m: map<nat, nat>, n: map<nat, nat>, ghost fuel: nat) returns (eq: bool)
      requires h.Valid()
      requires forall k :: k in m ==> h.HasSlot(m[k])
      requires forall k :: k in n ==> h.HasSlot(n[k])
      requires !RunAll(h, ord, at, KeyGoals(keys, m, n), visited, fuel).Running?
      modifies this`visited
      ensures eq == RunAll(h, ord, at, KeyGoals(keys, m, n), old(visited), fuel).Equal?
      ensures eq ==> visited == RunAll(h, ord, at, KeyGoals(keys, m, n), old(visited), fuel).visited
      decreases fuel, 1
    {
      ghost var goals := KeyGoals(keys, m, n);
      for i := 0 to |keys|
        invariant SameResult(RunAll(h, ord, at, goals[i..], visited, fuel), RunAll(h, ord, at, goals, old(visited), fuel))
      {
        if keys[i].NaNKey? || keys[i].k !in m || keys[i].k !in n {
          return false;
        }
        RunNext(h, ord, at, goals, i, visited, fuel);
        var same := DeepValueEqual(at + [|keys| - i], Val(m[keys[i].k], false), Val(n[keys[i].k], false), fuel);
        if !same {
          return false;
        }
      }
      return true;
    }
  }

  method DeepEqual(h: Heap, ord: Order, x: Option<nat>, y: Option<nat>) returns (eq: bool)
    requires h.Valid() && IsOrder(ord) && h.HasElem(x) && h.HasElem(y)
    requires x.Some? && y.Some? ==> Ends(h, ord, x.value, y.value)
    ensures eq <==> (x.None? && y.None?) || (x.Some? && y.Some? && DeeplyEqual(h, x.value, y.value))
  {
    if x.None? || y.None? {
      return x == y;
    }
    ghost var fuel :| !Run(h, ord, [], Val(x.value, false), Val(y.value, false), {}, fuel).Running?;
    AnswerIsRight(h, ord, x.value, y.value, fuel);
    if h.slots[x.value].typ != h.slots[y.value].typ {
      return false;
    }
    var c := new Comparison(h, ord);
    eq := c.DeepValueEqual([], Val(x.value, false), Val(y.value, false), fuel);
  }
}
