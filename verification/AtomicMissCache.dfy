/**
 The atomic-miss cache, one operation at a time (go/atomic_miss_cache/atomic_miss_cache.go).

 The cache is proved to refine a plain map together with the set of keys it holds locally.
 */
module AtomicMissCache {
  import opened Common

  type Value = int

  datatype Result = Ok(v: Value) | ErrNoSuchEntry | ErrNoNilValue | ErrOther

  // What a call of getVal will bring; a nil value is Nil.
  datatype Supply = Supplied(v: Value) | Nil | SupplyError

  // The backing cache.  A reliable one fails only with ErrNoSuchEntry; a failing Set or Delete
  // changes nothing.
  class BackingStore {
    const reliable: bool
    var m: map<string, Value>

    constructor (m: map<string, Value>, reliable: bool)
      ensures this.m == m && this.reliable == reliable
    {
      this.m := m;
      this.reliable := reliable;
    }

    method Get(key: string) returns (r: Result)
      ensures r.Ok? ==> key in m && r.v == m[key]
      ensures r.ErrNoSuchEntry? ==> key !in m
      ensures r.ErrOther? ==> !reliable
      ensures !r.ErrNoNilValue?
    {
      var fault: bool := *;
      if fault && !reliable {
        return ErrOther;
      }
      return if key in m then Ok(m[key]) else ErrNoSuchEntry;
    }

    method Set(key: string, v: Value) returns (ok: bool)
      modifies this
      ensures m == if ok then old(m)[key := v] else old(m)
      ensures !ok ==> !reliable
    {
      var fault: bool := *;
      ok := !fault || reliable;
      if ok {
        m := m[key := v];
      }
    }

    method Delete(key: string) returns (ok: bool)
      modifies this
      ensures m == if ok then old(m) - {key} else old(m)
      ensures !ok ==> !reliable
    {
      var fault: bool := *;
      ok := !fault || reliable;
      if ok {
        m := m - {key};
      }
    }
  }

  class CacheEntry {
    const key: string
    const backing: BackingStore?
    var val: Option<Value>

    constructor (key: string, backing: BackingStore?)
      ensures this.key == key && this.backing == backing && val == None
    {
      this.key := key;
      this.backing := backing;
      val := None;
    }

    ghost predicate Valid()
      reads this, backing
    {
      backing != null && val.Some? ==> key in backing.m && backing.m[key] == val.value
    }

    // The value this key stands for: the local one, else the backing cache's.
    ghost function Stored(): Option<Value>
      reads this, backing
    {
      if val.Some? then val
      else if backing != null && key in backing.m then Some(backing.m[key])
      else None
    }

    ghost function StoreMap(): map<string, Value>
      reads backing
    {
      if backing != null then backing.m else map[]
    }

    ghost predicate Reliable() { backing == null || backing.reliable }

    method Get() returns (r: Result)
      requires Valid()
      modifies this
      ensures Valid() && Stored() == old(Stored())
      ensures r.Ok? ==> Stored() == Some(r.v) && val == Some(r.v)
      ensures r.ErrNoSuchEntry? ==> Stored() == None && val == None
      ensures r.ErrOther? ==> !Reliable() && val == old(val) == None
      ensures !r.ErrNoNilValue?
    {
      if val.None? {
        if backing == null {
          return ErrNoSuchEntry;
        }
        r := backing.Get(key);
        if !r.Ok? {
          return;
        }
        val := Some(r.v);
      }
      return Ok(val.value);
    }

    method Set(v: Option<Value>) returns (r: Result)
      requires Valid()
      modifies this, backing
      ensures Valid()
      ensures r.Ok? ==> v == Some(r.v) && val == v
      ensures r.Ok? && backing != null ==> StoreMap() == old(StoreMap())[key := r.v]
      ensures !r.Ok? ==> val == old(val) && StoreMap() == old(StoreMap())
      ensures v.None? <==> r.ErrNoNilValue?
      ensures v.Some? && !r.Ok? ==> r.ErrOther? && !Reliable()
    {
      if v.None? {
        return ErrNoNilValue;
      }
      if backing != null {
        var ok := backing.Set(key, v.value);
        if !ok {
          return ErrOther;
        }
      }
      val := v;
      return Ok(v.value);
    }

    // `called` tells whether getVal was run.
    method SetIfUnset(getVal: Supply) returns (r: Result, called: bool)
      requires Valid()
      modifies this, backing
      ensures Valid()
      ensures called ==> old(Stored()) == None
      ensures Reliable() ==> (called <==> old(Stored()) == None)
      ensures r.Ok? ==> val == Stored() == Some(r.v)
      ensures r.Ok? && !called ==> old(Stored()) == Some(r.v)
      ensures r.Ok? && called ==> getVal == Supplied(r.v)
      ensures !r.Ok? ==> val == old(val) == None
      ensures !r.Ok? && Reliable() ==> called && !getVal.Supplied?
      ensures !r.ErrNoSuchEntry? && (r.ErrNoNilValue? <==> called && getVal.Nil?)
      ensures r.Ok? && called && backing != null ==> StoreMap() == old(StoreMap())[key := r.v]
      ensures !(r.Ok? && called) ==> StoreMap() == old(StoreMap())
    {
      called := false;
      r := Get();
      if r.ErrNoSuchEntry? {
        called := true;
        match getVal
        case SupplyError => r := ErrOther;
        case Nil => r := Set(None);
        case Supplied(v) => r := Set(Some(v));
      }
    }
  }

  /******* The plain map it refines *******/

  // `held` are the keys whose values are in memory, `phantoms` those with an entry and no value;
  // other keys of `view` are only in the backing cache.
  datatype Plain = Plain(view: map<string, Value>, held: set<string>, phantoms: set<string>)

  datatype Op =
    | Get(key: string)
    | Set(key: string, val: Option<Value>)
    | SetIfUnset(key: string, getVal: Supply)
    | Delete(key: string)
    | Cleanup(shouldDelete: (string, Value) -> bool)
    | ForEach

  datatype Answer = Answer(r: Result) | Done | Failed | Visited(m: map<string, Value>)

  // An operation that the backing cache let through, or one in which it failed. A failing Cleanup
  // has deleted some keys before.
  datatype Outcome =
    | Through(op: Op)
    | Faulted(op: Op, part: set<string>)

  // An operation that ends without a value leaves an empty entry behind.
  function Touch(p: Plain, k: string): Plain {
    if k in p.held then p else p.(phantoms := p.phantoms + {k})
  }

  function Put(p: Plain, k: string, v: Value): Plain {
    Plain(p.view[k := v], p.held + {k}, p.phantoms - {k})
  }

  function Remove(p: Plain, ks: set<string>): Plain {
    Plain(p.view - ks, p.held - ks, p.phantoms - ks)
  }

  function Selected(p: Plain, shouldDelete: (string, Value) -> bool): set<string> {
    set k | k in p.held && k in p.view && shouldDelete(k, p.view[k])
  }

  function Apply(p: Plain, op: Op): (Plain, Answer) {
    match op
    case Get(k) =>
      if k in p.view then (Put(p, k, p.view[k]), Answer(Ok(p.view[k]))) else (Touch(p, k), Answer(ErrNoSuchEntry))
    case Set(k, v) =>
      if v.Some? then (Put(p, k, v.value), Answer(Ok(v.value))) else (Touch(p, k), Answer(ErrNoNilValue))
    case SetIfUnset(k, g) =>
      if k in p.view then (Put(p, k, p.view[k]), Answer(Ok(p.view[k])))
      else (match g
            case Supplied(v) => (Put(p, k, v), Answer(Ok(v)))
            case Nil => (Touch(p, k), Answer(ErrNoNilValue))
            case SupplyError => (Touch(p, k), Answer(ErrOther)))
    case Delete(k) => (Remove(p, {k}), Done)
    case Cleanup(f) => (Remove(p, ToDelete(p, f)), Done)
    case ForEach => (p, Visited(map k | k in p.held && k in p.view :: p.view[k]))
  }

  function ToDelete(p: Plain, shouldDelete: (string, Value) -> bool): set<string> {
    Selected(p, shouldDelete) + p.phantoms
  }

  // Where the backing cache is asked at all: for keys not held, for writes and for deletions. It
  // reads before it writes, so a fault on a key with a value is one of reading.
  ghost predicate CanFault(p: Plain, op: Op, part: set<string>) {
    match op
    case Get(k) => k !in p.held
    case Set(_, v) => v.Some?
    case SetIfUnset(k, g) => k !in p.held
    case Delete(_) => true
    case Cleanup(f) => part < ToDelete(p, f)
    case ForEach => false
  }

  // What an operation comes to: the plain map's answer, or after a fault an empty entry for the
  // key, nothing at all, or a part of the deletions.
  ghost function Outcomes(p: Plain, o: Outcome): (Plain, Answer) {
    match o
    case Through(op) => Apply(p, op)
    case Faulted(op, part) =>
      match op
      case Delete(_) => (p, Failed)
      case Cleanup(_) => (Remove(p, part), Failed)
      case ForEach => (p, Failed)
      case _ => (Touch(p, op.key), Answer(ErrOther))
  }

  ghost predicate Possible(p: Plain, o: Outcome) {
    o.Faulted? ==> CanFault(p, o.op, o.part)
  }

  // The state after the first n outcomes of a history, and the answers given on the way.
  ghost function StateAt(p: Plain, os: seq<Outcome>, n: nat): Plain
    requires n <= |os|
  {
    if n == 0 then p else Outcomes(StateAt(p, os, n - 1), os[n - 1]).0
  }

  ghost predicate PossibleAt(p: Plain, os: seq<Outcome>, i: nat)
    requires i < |os|
  {
    Possible(StateAt(p, os, i), os[i])
  }

  ghost predicate IsHistory(p: Plain, os: seq<Outcome>) {
    forall i :: 0 <= i < |os| ==> PossibleAt(p, os, i)
  }

  /******* What a caller sees *******/

  // The value of k, told from the operations and their answers alone: set by a Set or a SetIfUnset
  // that answers with a value, unset by a Delete that is done.
  ghost function Told(start: Option<Value>, ops: seq<Op>, answers: seq<Answer>, k: string, n: nat): Option<Value>
    requires n <= |ops| == |answers|
  {
    if n == 0 then start
    else
      var before := Told(start, ops, answers, k, n - 1);
      match (ops[n - 1], answers[n - 1])
      case (Set(j, v), Answer(Ok(_))) => if j == k then v else before
      case (SetIfUnset(j, _), Answer(Ok(x))) => if j == k then Some(x) else before
      case (Delete(j), Done) => if j == k then None else before
      case _ => before
  }

  ghost predicate NoCleanup(ops: seq<Op>) {
    forall i :: 0 <= i < |ops| ==> !ops[i].Cleanup?
  }

  ghost function In(p: Plain, k: string): Option<Value> {
    if k in p.view then Some(p.view[k]) else None
  }

  // An answer that fits the value k had before the operation, and the supply in it.
  ghost predicate Fits(op: Op, answer: Answer, k: string, v: Option<Value>, reliable: bool) {
    var faulty := answer == Answer(ErrOther) && !reliable;
    match op
    case Get(j) => j == k ==> faulty || answer == Answer(if v.Some? then Ok(v.value) else ErrNoSuchEntry)
    case Set(j, x) =>
      j == k ==> if x.None? then answer == Answer(ErrNoNilValue) else faulty || answer == Answer(Ok(x.value))
    case SetIfUnset(j, g) => j == k ==> faulty || answer == Answer(if v.Some? then Ok(v.value) else Brought(g))
    case ForEach => answer.Visited? && (k in answer.m ==> v == Some(answer.m[k]))
    case _ => answer == Done || (answer == Failed && !reliable)
  }

  function Brought(g: Supply): Result {
    match g
    case Supplied(x) => Ok(x)
    case Nil => ErrNoNilValue
    case SupplyError => ErrOther
  }

  lemma StepIsTold(p: Plain, o: Outcome, k: string, reliable: bool)
    requires !o.op.Cleanup? && Possible(p, o) && (reliable ==> o.Through?)
    ensures var (q, answer) := Outcomes(p, o);
      && Fits(o.op, answer, k, In(p, k), reliable)
      && In(q, k) == Told(In(p, k), [o.op], [answer], k, 1)
  {
    var answer := Outcomes(p, o).1;
    assert Told(In(p, k), [o.op], [answer], k, 0) == In(p, k);
  }

  lemma ToldNext(start: Option<Value>, ops: seq<Op>, answers: seq<Answer>, k: string, n: nat)
    requires n < |ops| == |answers|
    ensures Told(start, ops, answers, k, n + 1) == Told(Told(start, ops, answers, k, n), [ops[n]], [answers[n]], k, 1)
  {
    var before := Told(start, ops, answers, k, n);
    assert Told(before, [ops[n]], [answers[n]], k, 0) == before;
  }

  /**
   Without cleanups each key is a variable, over any backing cache, faults included: in every
   history each answer fits what the operations before and their answers tell about the key.
   */
  lemma {:induction false} KeyIsVariable(p: Plain, ops: seq<Op>, os: seq<Outcome>, answers: seq<Answer>, q: Plain,
                                         reliable: bool, k: string, n: nat)
    requires Follows(p, ops, os, answers, q, reliable) && NoCleanup(ops) && n <= |ops|
    ensures In(StateAt(p, os, n), k) == Told(In(p, k), ops, answers, k, n)
    ensures n < |ops| ==> Fits(ops[n], answers[n], k, Told(In(p, k), ops, answers, k, n), reliable)
  {
    if n > 0 {
      KeyIsVariable(p, ops, os, answers, q, reliable, k, n - 1);
      assert AnsweredAt(p, ops, os, answers, reliable, n - 1) && PossibleAt(p, os, n - 1);
      StepIsTold(StateAt(p, os, n - 1), os[n - 1], k, reliable);
      ToldNext(In(p, k), ops, answers, k, n - 1);
    }
    if n < |ops| {
      assert AnsweredAt(p, ops, os, answers, reliable, n) && PossibleAt(p, os, n);
      StepIsTold(StateAt(p, os, n), os[n], k, reliable);
    }
  }

  /******* Phantoms *******/

  ghost predicate WellFormed(p: Plain) {
    p.held <= p.view.Keys && p.held !! p.phantoms
  }

  // No phantom hides a value of the backing cache.
  ghost predicate Apart(p: Plain) {
    p.phantoms !! p.view.Keys
  }

  // Cleanup deletes exactly the held keys that shouldDelete selects if and only if no phantom
  // hides a stored value.
  lemma CleanupIsExactIff(p: Plain, shouldDelete: (string, Value) -> bool)
    requires WellFormed(p)
    ensures Apply(p, Cleanup(shouldDelete)).0.view == p.view - Selected(p, shouldDelete) <==> Apart(p)
  {
    var after := Apply(p, Cleanup(shouldDelete)).0.view;
    var exact := p.view - Selected(p, shouldDelete);
    if !Apart(p) {
      var k :| k in p.phantoms && k in p.view;
      assert k in exact && k !in after;
    } else {
      assert after.Keys == exact.Keys;
    }
  }

  lemma {:induction false} SamePrefix(p: Plain, os: seq<Outcome>, o: Outcome, n: nat)
    requires n <= |os|
    ensures StateAt(p, os + [o], n) == StateAt(p, os, n)
  {
    if n > 0 {
      SamePrefix(p, os, o, n - 1);
    }
  }

  ghost predicate AnsweredAt(p: Plain, ops: seq<Op>, os: seq<Outcome>, answers: seq<Answer>, reliable: bool, i: nat)
    requires i < |os| == |ops| == |answers|
  {
    os[i].op == ops[i] && answers[i] == Outcomes(StateAt(p, os, i), os[i]).1 && (reliable ==> os[i].Through?)
  }

  // A history of these operations, with these answers, leads from p to q; without faults if reliable.
  ghost predicate Follows(p: Plain, ops: seq<Op>, os: seq<Outcome>, answers: seq<Answer>, q: Plain, reliable: bool) {
    && |os| == |ops| == |answers| && IsHistory(p, os) && q == StateAt(p, os, |os|)
    && forall i :: 0 <= i < |os| ==> AnsweredAt(p, ops, os, answers, reliable, i)
  }

  lemma FollowsOn(p: Plain, ops: seq<Op>, os: seq<Outcome>, answers: seq<Answer>, q: Plain, reliable: bool,
                  o: Outcome, q': Plain, answer: Answer)
    requires Follows(p, ops, os, answers, q, reliable) && Possible(q, o) && (reliable ==> o.Through?) && (q', answer) == Outcomes(q, o)
    ensures Follows(p, ops + [o.op], os + [o], answers + [answer], q', reliable)
  {
    forall i | 0 <= i <= |os|
      ensures PossibleAt(p, os + [o], i) && AnsweredAt(p, ops + [o.op], os + [o], answers + [answer], reliable, i)
    {
      SamePrefix(p, os, o, i);
      if i < |os| {
        assert PossibleAt(p, os, i) && AnsweredAt(p, ops, os, answers, reliable, i);
      }
    }
    SamePrefix(p, os, o, |os|);
  }

  // A nil Set, or a fault of the backing cache, on a key that only the backing cache has a value for.
  ghost predicate HidesValue(p: Plain, o: Outcome) {
    && (o.op.Get? || o.op.Set? || o.op.SetIfUnset?)
    && (o.Faulted? || (o.op.Set? && o.op.val.None?))
    && o.op.key in p.view && o.op.key !in p.held
  }

  // Those are the only ways for a phantom to come to hide a value.
  lemma StaysApartIff(p: Plain, o: Outcome)
    requires WellFormed(p) && Apart(p) && Possible(p, o)
    ensures WellFormed(Outcomes(p, o).0)
    ensures Apart(Outcomes(p, o).0) <==> !HidesValue(p, o)
  {
    if HidesValue(p, o) {
      assert o.op.key in Outcomes(p, o).0.phantoms;
    }
  }

  ghost predicate ApartAt(p: Plain, os: seq<Outcome>, i: nat)
    requires i <= |os|
  {
    WellFormed(StateAt(p, os, i)) && Apart(StateAt(p, os, i))
  }

  ghost predicate HidesAt(p: Plain, os: seq<Outcome>, i: nat)
    requires i < |os|
  {
    HidesValue(StateAt(p, os, i), os[i])
  }

  lemma ApartNextIff(p: Plain, os: seq<Outcome>, i: nat)
    requires IsHistory(p, os) && i < |os| && ApartAt(p, os, i)
    ensures ApartAt(p, os, i + 1) <==> !HidesAt(p, os, i)
  {
    assert PossibleAt(p, os, i);
    StaysApartIff(StateAt(p, os, i), os[i]);
  }

  ghost predicate FailsWhere(a: seq<bool>, h: seq<bool>) {
    |a| == |h| + 1 && a[0] && forall i :: 0 <= i < |h| && a[i] ==> (a[i + 1] <==> !h[i])
  }

  lemma {:induction false} AllHold(a: seq<bool>, h: seq<bool>, n: nat)
    requires FailsWhere(a, h) && (forall i :: 0 <= i < |h| ==> !h[i]) && n < |a|
    ensures a[n]
  {
    if n > 0 {
      AllHold(a, h, n - 1);
    }
  }

  lemma AllIff(a: seq<bool>, h: seq<bool>)
    requires FailsWhere(a, h)
    ensures (forall i :: 0 <= i < |a| ==> a[i]) <==> (forall i :: 0 <= i < |h| ==> !h[i])
  {
    if forall i :: 0 <= i < |h| ==> !h[i] {
      forall i | 0 <= i < |a| ensures a[i] {
        AllHold(a, h, i);
      }
    } else {
      var i :| 0 <= i < |h| && h[i];
      assert !a[i] || !a[i + 1];
    }
  }

  // A history keeps every phantom apart from the stored values, all along, if and only if none of
  // its operations is of that kind.
  lemma HistoryStaysApartIff(p: Plain, os: seq<Outcome>)
    requires WellFormed(p) && Apart(p) && IsHistory(p, os)
    ensures (forall i :: 0 <= i <= |os| ==> ApartAt(p, os, i)) <==> (forall i :: 0 <= i < |os| ==> !HidesAt(p, os, i))
  {
    var a := seq(|os| + 1, i requires 0 <= i <= |os| => ApartAt(p, os, i));
    var h := seq(|os|, i requires 0 <= i < |os| => HidesAt(p, os, i));
    assert ApartAt(p, os, 0);
    forall i | 0 <= i < |h| && a[i] ensures a[i + 1] <==> !h[i] {
      ApartNextIff(p, os, i);
    }
    AllIff(a, h);
    assert forall i :: 0 <= i <= |os| ==> a[i] == ApartAt(p, os, i);
    assert forall i :: 0 <= i < |os| ==> h[i] == HidesAt(p, os, i);
  }

  // In particular where nil is never set and the backing cache never fails.
  lemma CarefulHistoryStaysApart(p: Plain, os: seq<Outcome>)
    requires WellFormed(p) && Apart(p) && IsHistory(p, os)
    requires forall i :: 0 <= i < |os| ==> os[i].Through? && !(os[i].op.Set? && os[i].op.val.None?)
    ensures Apart(StateAt(p, os, |os|))
  {
    HistoryStaysApartIff(p, os);
    forall i | 0 <= i < |os| ensures !HidesAt(p, os, i) {
    }
    assert ApartAt(p, os, |os|);
  }

  // An operation that leaves an empty entry over a stored value, and a Cleanup that selects nothing:
  // the value is gone.
  lemma TouchThenCleanupLoses(p: Plain, o: Outcome, none: Outcome)
    requires WellFormed(p) && HidesValue(p, o) && none == Through(Cleanup((_, _) => false))
    ensures o.op.key in p.view && o.op.key !in StateAt(p, [o, none], 2).view
  {
    var os := [o, none];
    assert StateAt(p, os, 1) == Outcomes(StateAt(p, os, 0), os[0]).0 == Touch(p, o.op.key);
    assert StateAt(p, os, 2) == Outcomes(StateAt(p, os, 1), os[1]).0;
    assert o.op.key in Touch(p, o.op.key).phantoms;
  }

  // For instance a rejected nil Set, or a Get during which the backing cache fails, on a key that
  // was never read before.
  lemma NilSetThenCleanupLoses(k: string, v: Value)
    ensures var p, os := Plain(map[k := v], {}, {}), [Through(Op.Set(k, None)), Through(Cleanup((_, _) => false))];
      IsHistory(p, os) && StateAt(p, os, 2).view == map[]
  {
    var p, os := Plain(map[k := v], {}, {}), [Through(Op.Set(k, None)), Through(Cleanup((_, _) => false))];
    TouchThenCleanupLoses(p, os[0], os[1]);
    assert StateAt(p, os, 1) == Touch(p, k);
    assert PossibleAt(p, os, 0) && PossibleAt(p, os, 1);
  }

  lemma FaultThenCleanupLoses(k: string, v: Value)
    ensures var p, os := Plain(map[k := v], {}, {}), [Faulted(Op.Get(k), {}), Through(Cleanup((_, _) => false))];
      IsHistory(p, os) && StateAt(p, os, 2).view == map[]
  {
    var p, os := Plain(map[k := v], {}, {}), [Faulted(Op.Get(k), {}), Through(Cleanup((_, _) => false))];
    TouchThenCleanupLoses(p, os[0], os[1]);
    assert StateAt(p, os, 1) == Touch(p, k);
    assert PossibleAt(p, os, 0) && PossibleAt(p, os, 1);
  }

  /******* The cache *******/

  lemma RemoveTwice(p: Plain, a: set<string>, b: set<string>)
    ensures Remove(Remove(p, a), b) == Remove(p, a + b)
  {
  }

  // The plain map behind the values of the entries and the contents of the backing cache, if any.
  ghost function AbstractOf(vals: map<string, Option<Value>>, store: Option<map<string, Value>>): Plain {
    Plain(if store.Some? then store.value else map k | k in vals && vals[k].Some? :: vals[k].value,
          HeldOf(vals),
          set k | k in vals && vals[k].None?)
  }

  ghost function HeldOf(vals: map<string, Option<Value>>): set<string> {
    set k | k in vals && vals[k].Some?
  }

  ghost predicate Agrees(vals: map<string, Option<Value>>, store: Option<map<string, Value>>) {
    store.Some? ==> forall k :: k in vals && vals[k].Some? ==> k in store.value && store.value[k] == vals[k].value
  }

  ghost function StorePut(store: Option<map<string, Value>>, k: string, v: Value): Option<map<string, Value>> {
    if store.Some? then Some(store.value[k := v]) else None
  }

  ghost function StoreRemove(store: Option<map<string, Value>>, k: string): Option<map<string, Value>> {
    if store.Some? then Some(store.value - {k}) else None
  }

  ghost function EntryAt(vals: map<string, Option<Value>>, k: string): map<string, Option<Value>> {
    if k in vals then vals else vals[k := None]
  }

  // The local value, else the backing cache's.
  ghost function Lookup(vals: map<string, Option<Value>>, store: Option<map<string, Value>>, k: string): Option<Value> {
    if k in vals && vals[k].Some? then vals[k]
    else if store.Some? && k in store.value then Some(store.value[k])
    else None
  }

  // v is what k stands for: the value of its entry, else the one in the store.
  ghost predicate Stands(vals: map<string, Option<Value>>, store: Option<map<string, Value>>, k: string, v: Option<Value>) {
    if k in vals && vals[k].Some? then v == vals[k]
    else if store.Some? && k in store.value then v == Some(store.value[k])
    else v == None
  }

  // The entry of k has no value, or one to be deleted.
  ghost predicate Rejected(vals: map<string, Option<Value>>, shouldDelete: (string, Value) -> bool, k: string) {
    k in vals && (vals[k].None? || shouldDelete(k, vals[k].value))
  }

  lemma LookupAbstract(vals: map<string, Option<Value>>, store: Option<map<string, Value>>, k: string)
    requires Agrees(vals, store)
    ensures var p := AbstractOf(vals, store);
      match Lookup(vals, store, k)
      case Some(v) =>
        k in p.view && p.view[k] == v && AbstractOf(EntryAt(vals, k)[k := Some(v)], store) == Put(p, k, v)
      case None => k !in p.view
  {
    var l := Lookup(vals, store, k);
    if l.Some? {
      PutAbstract(vals, store, k, l.value);
      if store.Some? {
        assert store.value[k := l.value] == store.value;
      }
    }
  }

  // A value was found, or there was none and it was stored.
  lemma GotAbstract(vals: map<string, Option<Value>>, store: Option<map<string, Value>>, k: string, v: Value, called: bool)
    requires Agrees(vals, store) && Lookup(vals, store, k) == if called then None else Some(v)
    ensures AbstractOf(EntryAt(vals, k)[k := Some(v)], if called then StorePut(store, k, v) else store)
         == Put(AbstractOf(vals, store), k, v)
    ensures In(AbstractOf(vals, store), k) == if called then None else Some(v)
  {
    LookupAbstract(vals, store, k);
    PutAbstract(vals, store, k, v);
  }

  lemma TouchAbstract(vals: map<string, Option<Value>>, store: Option<map<string, Value>>, k: string)
    ensures AbstractOf(EntryAt(vals, k), store) == Touch(AbstractOf(vals, store), k)
  {
    var a, b := AbstractOf(EntryAt(vals, k), store), Touch(AbstractOf(vals, store), k);
    assert a.view == b.view && a.held == b.held && a.phantoms == b.phantoms;
  }

  lemma PutAbstract(vals: map<string, Option<Value>>, store: Option<map<string, Value>>, k: string, v: Value)
    ensures AbstractOf(EntryAt(vals, k)[k := Some(v)], StorePut(store, k, v)) == Put(AbstractOf(vals, store), k, v)
  {
    var a, b := AbstractOf(EntryAt(vals, k)[k := Some(v)], StorePut(store, k, v)), Put(AbstractOf(vals, store), k, v);
    assert a.view == b.view && a.held == b.held && a.phantoms == b.phantoms;
  }

  lemma RemoveAbstract(vals: map<string, Option<Value>>, store: Option<map<string, Value>>, k: string)
    ensures AbstractOf(vals - {k}, StoreRemove(store, k)) == Remove(AbstractOf(vals, store), {k})
  {
    var a, b := AbstractOf(vals - {k}, StoreRemove(store, k)), Remove(AbstractOf(vals, store), {k});
    assert a.view == b.view && a.held == b.held && a.phantoms == b.phantoms;
  }

  class AtomicMissCache {
    const backing: BackingStore?
    var cache: map<string, CacheEntry>

    constructor (backing: BackingStore?)
      ensures Valid() && this.backing == backing && Entries() == {}
      ensures Abstract() == Plain(if backing != null then backing.m else map[], {}, {})
    {
      this.backing := backing;
      cache := map[];
    }

    ghost function Entries(): set<CacheEntry>
      reads this
    {
      set k | k in cache :: cache[k]
    }

    ghost predicate Reliable() { backing == null || backing.reliable }

    ghost function Vals(): map<string, Option<Value>>
      reads this, Entries()
    {
      map k | k in cache :: cache[k].val
    }

    ghost function Store(): Option<map<string, Value>>
      reads this, backing
    {
      if backing != null then Some(backing.m) else None
    }

    // Cached values agree with the backing cache.
    ghost predicate Valid()
      reads this, Entries(), backing
    {
      && (forall k :: k in cache ==> cache[k].key == k && cache[k].backing == backing)
      && Agrees(Vals(), Store())
    }

    ghost function Abstract(): Plain
      reads this, Entries(), backing
    {
      AbstractOf(Vals(), Store())
    }

    method GetEntry(key: string) returns (e: CacheEntry)
      requires Valid()
      modifies this
      ensures Valid() && Vals() == EntryAt(old(Vals()), key)
      ensures key in cache && e == cache[key]
      ensures cache == old(cache) || (key !in old(cache) && cache == old(cache)[key := e] && fresh(e))
    {
      if key !in cache {
        var entry := new CacheEntry(key, backing);
        cache := cache[key := entry];
      }
      return cache[key];
    }

    // A method of one entry changes the value of that entry only.
    twostate lemma EntryChanged(key: string)
      requires key in cache && cache == old(cache)
      requires forall k :: k in cache && k != key ==> cache[k].val == old(cache[k].val)
      ensures Vals() == old(Vals())[key := cache[key].val]
    {
    }

    // Getting, setting and setting if unset, in terms of the entries' values and the store: first
    // with the entry in the map, then for any key.
    method GetIn(key: string) returns (r: Result)
      requires Valid() && key in cache
      modifies cache[key]
      ensures Valid() && Store() == old(Store())
      ensures r.Ok? ==> Vals() == old(Vals())[key := Some(r.v)] && Lookup(old(Vals()), old(Store()), key) == Some(r.v)
      ensures !r.Ok? ==> Vals() == old(Vals()) && key !in HeldOf(old(Vals()))
      ensures r.ErrNoSuchEntry? ==> Lookup(old(Vals()), old(Store()), key) == None
      ensures r.Ok? || r.ErrNoSuchEntry? || (r.ErrOther? && !Reliable())
    {
      assert Vals()[key] == cache[key].val;
      r := cache[key].Get();
      EntryChanged(key);
    }

    method SetIn(key: string, v: Option<Value>) returns (r: Result)
      requires Valid() && key in cache
      modifies cache[key], backing
      ensures Valid()
      ensures r.Ok? ==> v == Some(r.v) && Vals() == old(Vals())[key := v] && Store() == StorePut(old(Store()), key, r.v)
      ensures !r.Ok? ==> Vals() == old(Vals()) && Store() == old(Store())
      ensures r.Ok? || (r.ErrNoNilValue? && v.None?) || (r.ErrOther? && !Reliable())
      ensures v.None? ==> r.ErrNoNilValue?
    {
      r := cache[key].Set(v);
      EntryChanged(key);
    }

    method SetIfUnsetIn(key: string, getVal: Supply) returns (r: Result, called: bool)
      requires Valid() && key in cache
      modifies cache[key], backing
      ensures Valid()
      ensures called ==> Lookup(old(Vals()), old(Store()), key) == None
      ensures Reliable() && Lookup(old(Vals()), old(Store()), key) == None ==> called
      ensures r.Ok? ==> Vals() == old(Vals())[key := Some(r.v)]
      ensures r.Ok? && !called ==> Store() == old(Store()) && Lookup(old(Vals()), old(Store()), key) == Some(r.v)
      ensures r.Ok? && called ==> Store() == StorePut(old(Store()), key, r.v) && getVal == Supplied(r.v)
      ensures !r.Ok? ==> Vals() == old(Vals()) && Store() == old(Store()) && key !in HeldOf(old(Vals()))
      ensures !r.Ok? && Reliable() ==> called && !getVal.Supplied?
      ensures !r.ErrNoSuchEntry? && (r.ErrNoNilValue? <==> called && getVal.Nil?)
    {
      assert Vals()[key] == cache[key].val;
      r, called := cache[key].SetIfUnset(getVal);
      EntryChanged(key);
    }

    method GetAt(key: string) returns (r: Result)
      requires Valid()
      modifies this, Entries()
      ensures Valid() && fresh(Entries() - old(Entries())) && Store() == old(Store())
      ensures r.Ok? ==> Vals() == EntryAt(old(Vals()), key)[key := Some(r.v)]
      ensures r.Ok? ==> Lookup(old(Vals()), old(Store()), key) == Some(r.v)
      ensures !r.Ok? ==> Vals() == EntryAt(old(Vals()), key) && key !in HeldOf(old(Vals()))
      ensures r.ErrNoSuchEntry? ==> Lookup(old(Vals()), old(Store()), key) == None
      ensures r.Ok? || r.ErrNoSuchEntry? || (r.ErrOther? && !Reliable())
    {
      var _ := GetEntry(key);
      r := GetIn(key);
    }

    method SetAt(key: string, v: Option<Value>) returns (r: Result)
      requires Valid()
      modifies this, Entries(), backing
      ensures Valid() && fresh(Entries() - old(Entries()))
      ensures r.Ok? ==> v == Some(r.v) && Vals() == EntryAt(old(Vals()), key)[key := v]
      ensures r.Ok? ==> Store() == StorePut(old(Store()), key, r.v)
      ensures !r.Ok? ==> Vals() == EntryAt(old(Vals()), key) && Store() == old(Store())
      ensures r.Ok? || (r.ErrNoNilValue? && v.None?) || (r.ErrOther? && !Reliable())
      ensures v.None? ==> r.ErrNoNilValue?
    {
      var _ := GetEntry(key);
      r := SetIn(key, v);
    }

    method SetIfUnsetAt(key: string, getVal: Supply) returns (r: Result, called: bool)
      requires Valid()
      modifies this, Entries(), backing
      ensures Valid() && fresh(Entries() - old(Entries()))
      ensures called ==> Lookup(old(Vals()), old(Store()), key) == None
      ensures Reliable() && Lookup(old(Vals()), old(Store()), key) == None ==> called
      ensures r.Ok? ==> Vals() == EntryAt(old(Vals()), key)[key := Some(r.v)]
      ensures r.Ok? && !called ==> Store() == old(Store()) && Lookup(old(Vals()), old(Store()), key) == Some(r.v)
      ensures r.Ok? && called ==> Store() == StorePut(old(Store()), key, r.v) && getVal == Supplied(r.v)
      ensures !r.Ok? ==> Vals() == EntryAt(old(Vals()), key) && Store() == old(Store()) && key !in HeldOf(old(Vals()))
      ensures !r.Ok? && Reliable() ==> called && !getVal.Supplied?
      ensures !r.ErrNoSuchEntry? && (r.ErrNoNilValue? <==> called && getVal.Nil?)
    {
      var _ := GetEntry(key);
      r, called := SetIfUnsetIn(key, getVal);
    }

    // Each operation says what it does to the entries and the store, and that this is what the
    // plain map does.
    method Get(key: string) returns (r: Result)
      requires Valid()
      modifies this, Entries()
      ensures Vals() - {key} == old(Vals()) - {key} && Store() == old(Store())
      ensures r.Ok? ==> key in Vals() && Vals()[key] == Some(r.v) && Stands(old(Vals()), Store(), key, Some(r.v))
      ensures !r.Ok? ==> key in Vals() && Vals()[key] == None
      ensures r.ErrNoSuchEntry? ==> Stands(old(Vals()), Store(), key, None)
      ensures r.Ok? || r.ErrNoSuchEntry? || (r.ErrOther? && !Reliable())
      ensures Valid() && fresh(Entries() - old(Entries()))
      ensures r.ErrOther? ==>
        !Reliable() && key !in old(Abstract()).held && Abstract() == Touch(old(Abstract()), key)
      ensures !r.ErrOther? ==> (Abstract(), Answer(r)) == Apply(old(Abstract()), Op.Get(key))
    {
      ghost var vals, store := Vals(), Store();
      r := GetAt(key);
      TouchAbstract(vals, store, key);
      LookupAbstract(vals, store, key);
    }

    method Set(key: string, v: Option<Value>) returns (r: Result)
      requires Valid()
      modifies this, Entries(), backing
      ensures Valid() && fresh(Entries() - old(Entries()))
      ensures Vals() - {key} == old(Vals()) - {key} && (r.Ok? <==> v.Some? && !r.ErrOther?) && (r.ErrNoNilValue? <==> v.None?)
      ensures r.Ok? ==> v == Some(r.v) && key in Vals() && Vals()[key] == v
      ensures r.Ok? && backing != null ==> backing.m == old(backing.m)[key := r.v]
      ensures !r.Ok? ==> key in Vals() && Vals()[key] == (if key in old(Vals()) then old(Vals())[key] else None) && Store() == old(Store())
      ensures r.ErrOther? ==> !Reliable() && v.Some? && Abstract() == Touch(old(Abstract()), key)
      ensures !r.ErrOther? ==> (Abstract(), Answer(r)) == Apply(old(Abstract()), Op.Set(key, v))
    {
      ghost var vals, store := Vals(), Store();
      r := SetAt(key, v);
      TouchAbstract(vals, store, key);
      if r.Ok? {
        PutAbstract(vals, store, key, r.v);
      }
    }

    method SetIfUnset(key: string, getVal: Supply) returns (r: Result, called: bool)
      requires Valid()
      modifies this, Entries(), backing
      ensures Valid() && fresh(Entries() - old(Entries()))
      ensures Vals() - {key} == old(Vals()) - {key}
      ensures called ==> Stands(old(Vals()), old(Store()), key, None)
      ensures r.Ok? ==> key in Vals() && Vals()[key] == Some(r.v)
      ensures r.Ok? && !called ==> Stands(old(Vals()), old(Store()), key, Some(r.v)) && Store() == old(Store())
      ensures r.Ok? && called ==> getVal == Supplied(r.v) && (backing != null ==> backing.m == old(backing.m)[key := r.v])
      ensures !r.Ok? ==> key in Vals() && Vals()[key] == None && Store() == old(Store())
      ensures called ==> key !in old(Abstract()).view
      ensures Reliable() ==> (called <==> key !in old(Abstract()).view)
      ensures Reliable() || !r.ErrOther? ==>
        (Abstract(), Answer(r)) == Apply(old(Abstract()), Op.SetIfUnset(key, getVal))
      ensures r.ErrOther? ==> key !in old(Abstract()).held && Abstract() == Touch(old(Abstract()), key)
    {
      ghost var vals, store := Vals(), Store();
      r, called := SetIfUnsetAt(key, getVal);
      if r.Ok? {
        GotAbstract(vals, store, key, r.v, called);
      } else {
        TouchAbstract(vals, store, key);
        LookupAbstract(vals, store, key);
      }
    }

    method DeleteLocked(key: string) returns (ok: bool)
      requires Valid()
      modifies this`cache, backing
      ensures Valid() && Entries() <= old(Entries())
      ensures cache == if ok then old(cache) - {key} else old(cache)
      ensures backing != null ==> backing.m == if ok then old(backing.m) - {key} else old(backing.m)
      ensures ok ==> Abstract() == Remove(old(Abstract()), {key})
      ensures !ok ==> !Reliable() && Abstract() == old(Abstract())
    {
      ghost var vals, store := Vals(), Store();
      if backing != null {
        ok := backing.Delete(key);
        if !ok {
          return;
        }
      }
      cache := cache - {key};
      ok := true;
      assert Vals() == vals - {key};
      RemoveAbstract(vals, store, key);
    }

    method Delete(key: string) returns (ok: bool)
      requires Valid()
      modifies this`cache, backing
      ensures Valid() && Entries() <= old(Entries())
      ensures cache == if ok then old(cache) - {key} else old(cache)
      ensures Vals() == if ok then old(Vals()) - {key} else old(Vals())
      ensures backing != null ==> backing.m == if ok then old(backing.m) - {key} else old(backing.m)
      ensures ok ==> (Abstract(), Done) == Apply(old(Abstract()), Op.Delete(key))
      ensures !ok ==> !Reliable() && Abstract() == old(Abstract())
    {
      ok := DeleteLocked(key);
    }

    // The keys of entries without a value and of those that shouldDelete selects.
    method Doomed(shouldDelete: (string, Value) -> bool) returns (doomed: set<string>)
      requires Valid()
      ensures doomed == ToDelete(Abstract(), shouldDelete)
      ensures doomed == set k | k in cache && Rejected(Vals(), shouldDelete, k)
    {
      doomed := {};
      var todo := cache.Keys;
      while todo != {}
        invariant todo <= cache.Keys
        invariant doomed == ToDelete(Abstract(), shouldDelete) - todo
        invariant doomed == set k | k in cache && Rejected(Vals(), shouldDelete, k) && k !in todo
      {
        var key :| key in todo;
        var entry := cache[key];
        if entry.val.None? || shouldDelete(key, entry.val.value) {
          doomed := doomed + {key};
        }
        todo := todo - {key};
      }
    }

    // Deletes the doomed entries one by one; part are those deleted before a failure.
    method Purge(doomed: set<string>) returns (ok: bool, ghost part: set<string>)
      requires Valid()
      modifies this`cache, backing
      ensures Valid() && Entries() <= old(Entries()) && Abstract() == Remove(old(Abstract()), part)
      ensures cache == old(cache) - part && (backing != null ==> backing.m == old(backing.m) - part)
      ensures if ok then part == doomed else part < doomed && !Reliable()
    {
      ghost var p := Abstract();
      var todo := doomed;
      part := {};
      assert Abstract() == Remove(p, {});
      while todo != {}
        invariant todo <= doomed && Valid() && Entries() <= old(Entries())
        invariant part == doomed - todo && Abstract() == Remove(p, part)
        invariant cache == old(cache) - part && (backing != null ==> backing.m == old(backing.m) - part)
      {
        var key :| key in todo;
        ok := DeleteLocked(key);
        if !ok {
          assert key in doomed && key !in part;
          return;
        }
        RemoveTwice(p, part, {key});
        todo, part := todo - {key}, part + {key};
      }
      ok := true;
    }

    method Cleanup(shouldDelete: (string, Value) -> bool) returns (ok: bool, ghost part: set<string>)
      requires Valid()
      modifies this`cache, backing
      ensures Valid() && Entries() <= old(Entries())
      ensures cache == old(cache) - part && (backing != null ==> backing.m == old(backing.m) - part)
      ensures part <= old(cache).Keys && forall k :: k in part ==> Rejected(old(Vals()), shouldDelete, k)
      ensures ok ==> forall k :: k in old(cache) && Rejected(old(Vals()), shouldDelete, k) ==> k in part
      ensures ok ==> (Abstract(), Done) == Apply(old(Abstract()), Op.Cleanup(shouldDelete))
      ensures !ok ==> !Reliable() && part < ToDelete(old(Abstract()), shouldDelete)
      ensures !ok ==> Abstract() == Remove(old(Abstract()), part)
    {
      var doomed := Doomed(shouldDelete);
      ok, part := Purge(doomed);
    }

    // Calls fn on every entry with a value, in some order; the calls are returned.
    method ForEach() returns (visited: map<string, Value>)
      requires Valid()
      ensures forall k :: k in visited <==> k in cache && cache[k].val.Some?
      ensures forall k :: k in visited ==> cache[k].val == Some(visited[k])
      ensures (Abstract(), Visited(visited)) == Apply(Abstract(), Op.ForEach)
    {
      visited := map[];
      var todo := cache.Keys;
      while todo != {}
        invariant todo <= cache.Keys
        invariant visited == map k | k in cache && k !in todo && cache[k].val.Some? :: cache[k].val.value
      {
        var key :| key in todo;
        var entry := cache[key];
        if entry.val.Some? {
          visited := visited[key := entry.val.value];
        }
        todo := todo - {key};
      }
      assert visited == map k | k in Abstract().held && k in Abstract().view :: Abstract().view[k];
    }

    // One operation, and what it came to.
    method Perform(op: Op) returns (answer: Answer, ghost o: Outcome)
      requires Valid()
      modifies this, Entries(), backing
      ensures Valid() && fresh(Entries() - old(Entries()))
      ensures o.op == op && Possible(old(Abstract()), o) && (Reliable() ==> o.Through?)
      ensures (Abstract(), answer) == Outcomes(old(Abstract()), o)
    {
      match op {
        case Get(key) =>
          var r := Get(key);
          answer, o := Answer(r), if r.ErrOther? then Faulted(op, {}) else Through(op);
        case Set(key, v) =>
          var r := Set(key, v);
          answer, o := Answer(r), if r.ErrOther? then Faulted(op, {}) else Through(op);
        case SetIfUnset(key, g) =>
          var r, _ := SetIfUnset(key, g);
          answer, o := Answer(r), if r.ErrOther? && !Reliable() then Faulted(op, {}) else Through(op);
        case Delete(key) =>
          var ok := Delete(key);
          answer, o := if ok then Done else Failed, if ok then Through(op) else Faulted(op, {});
        case Cleanup(f) =>
          ghost var part;
          var ok;
          ok, part := Cleanup(f);
          answer, o := if ok then Done else Failed, if ok then Through(op) else Faulted(op, part);
        case ForEach =>
          var visited := ForEach();
          answer, o := Visited(visited), Through(op);
      }
    }

    // Any sequential history, over any backing cache or none, is a history of the plain map: state
    // and answers are those of its outcomes, which over a reliable backing cache are never faults.
    method Replay(ops: seq<Op>) returns (answers: seq<Answer>, ghost os: seq<Outcome>)
      requires Valid()
      modifies this, Entries(), backing
      ensures Valid() && Follows(old(Abstract()), ops, os, answers, Abstract(), Reliable())
      ensures NoCleanup(ops) ==> forall k, n :: 0 <= n < |ops| ==>
        Fits(ops[n], answers[n], k, Told(In(old(Abstract()), k), ops, answers, k, n), Reliable())
    {
      answers, os := [], [];
      for i := 0 to |ops|
        invariant Valid() && fresh(Entries() - old(Entries()))
        invariant Follows(old(Abstract()), ops[..i], os, answers, Abstract(), Reliable())
      {
        ghost var o;
        var answer;
        ghost var q := Abstract();
        answer, o := Perform(ops[i]);
        FollowsOn(old(Abstract()), ops[..i], os, answers, q, Reliable(), o, Abstract(), answer);
        assert ops[..i + 1] == ops[..i] + [ops[i]];
        answers, os := answers + [answer], os + [o];
      }
      assert ops[..|ops|] == ops;
      if NoCleanup(ops) {
        forall k, n | 0 <= n < |ops| ensures Fits(ops[n], answers[n], k, Told(In(old(Abstract()), k), ops, answers, k, n), Reliable()) {
          KeyIsVariable(old(Abstract()), ops, os, answers, Abstract(), Reliable(), k, n);
        }
      }
    }
  }
}
