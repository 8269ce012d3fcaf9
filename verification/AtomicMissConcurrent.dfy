/**
 The atomic-miss cache under concurrency (go/atomic_miss_cache/atomic_miss_cache.go).

 Each goroutine runs one operation of the cache.  A step ends where another goroutine could
 intervene: at every lock, at every call to the backing cache and at every callback.  What the
 environment decides (backing cache replies, getVal results, map iteration order, shouldDelete)
 is the `Choice` of the step.  Callbacks do not re-enter the cache.
 */
module AtomicMissConcurrent {
  import opened Common

  type Key = nat
  type Value = nat
  type EntryId = nat
  type Tid = nat

  // A nil value is None.
  datatype Op =
    | Get(key: Key)
    | Set(key: Key, val: Option<Value>)
    | SetIfUnset(key: Key)
    | Delete(key: Key)
    | Cleanup
    | ForEach

  datatype Result = Found(v: Value) | NoSuchEntry | Failed | Ok

  datatype PC =
    // Get, Set, SetIfUnset
    | Start                                  // at c.mtx.Lock()
    | InMap                                  // c.mtx held
    | AtEntry(e: EntryId)                    // at e.mtx.Lock()
    | InEntry(e: EntryId)                    // e.mtx held, e.val not looked at
    | Reading(e: EntryId)                    // in backingCache.Get
    | Calling(e: EntryId)                    // in getVal
    | Writing(e: EntryId, v: Value)          // in backingCache.Set
    | Written(e: EntryId, v: Value)          // backingCache.Set has succeeded, e.val not yet assigned
    // Delete
    | DeleteAt(e: EntryId)                   // c.mtx held, at e.mtx.Lock()
    | Deleting(held: Option<EntryId>)        // c.mtx held, in backingCache.Delete
    // Cleanup
    | Scan(todo: map<Key, EntryId>, doomed: map<Key, EntryId>)
    | ScanAt(k: Key, todo: map<Key, EntryId>, doomed: map<Key, EntryId>)
    | ScanIn(k: Key, todo: map<Key, EntryId>, doomed: map<Key, EntryId>)
    | PurgeStart(doomed: map<Key, EntryId>)  // at the second c.mtx.Lock()
    | Purge(doomed: map<Key, EntryId>)
    | PurgeAt(k: Key, doomed: map<Key, EntryId>)
    | PurgeIn(k: Key, doomed: map<Key, EntryId>)
    // ForEach
    | Walk(left: set<Key>)
    | WalkAt(k: Key, e: EntryId, left: set<Key>)
    | WalkIn(k: Key, e: EntryId, left: set<Key>)
    | Finished(result: Result)

  datatype Thread = Thread(op: Op, pc: PC)

  datatype Entry = Entry(key: Key, val: Option<Value>)

  datatype Source = BySet | ByGetVal | ByReadThrough

  // Installed: a value was put into an entry.  Returned: Get or SetIfUnset succeeded with it.
  datatype Event =
    | Installed(key: Key, v: Value, source: Source)
    | Returned(key: Key, v: Value)

  // An honest backing cache answers a Get with what it stores; another one with anything.
  datatype State = State(
    backing: Option<map<Key, Value>>,
    honest: bool,
    mtx: Option<Tid>,                // holder of c.mtx
    locks: map<EntryId, Tid>,        // holders of the entries' mutexes
    cache: map<Key, EntryId>,
    entries: seq<Entry>,
    threads: seq<Thread>,
    history: seq<Event>)

  datatype Reply = Value(v: Value) | Missing | Fault

  datatype Choice = Choice(reply: Reply, key: Key, flag: bool)

  /******* Locks *******/

  predicate HoldsMap(pc: PC) {
    pc.InMap? || pc.DeleteAt? || pc.Deleting? || pc.Purge? || pc.PurgeAt? || pc.PurgeIn?
    || pc.Walk? || pc.WalkAt? || pc.WalkIn?
  }

  function HoldsEntry(pc: PC): Option<EntryId> {
    match pc
    case InEntry(e) => Some(e)
    case Reading(e) => Some(e)
    case Calling(e) => Some(e)
    case Writing(e, _) => Some(e)
    case Written(e, _) => Some(e)
    case Deleting(held) => held
    case ScanIn(k, todo, _) => if k in todo then Some(todo[k]) else None
    case PurgeIn(k, doomed) => if k in doomed then Some(doomed[k]) else None
    case WalkIn(_, e, _) => Some(e)
    case _ => None
  }

  // Moving from one program point to the next takes the locks held there and not here, and
  // releases those held here and not there.
  predicate CanAdvance(s: State, t: Tid, pc: PC)
    requires t < |s.threads|
  {
    var now := s.threads[t].pc;
    && (HoldsMap(pc) && !HoldsMap(now) ==> s.mtx.None?)
    && (HoldsEntry(pc).Some? && HoldsEntry(pc) != HoldsEntry(now) ==> HoldsEntry(pc).value !in s.locks)
  }

  function Unlock(locks: map<EntryId, Tid>, e: Option<EntryId>): map<EntryId, Tid> {
    if e.Some? then map f | f in locks && f != e.value :: locks[f] else locks
  }

  function Lock(locks: map<EntryId, Tid>, e: Option<EntryId>, t: Tid): map<EntryId, Tid> {
    if e.Some? then locks[e.value := t] else locks
  }

  function Advance(s: State, t: Tid, pc: PC): Option<State>
    requires t < |s.threads|
  {
    if !CanAdvance(s, t, pc) then None else
      var now := s.threads[t].pc;
      Some(s.(mtx := if HoldsMap(pc) then Some(t) else if HoldsMap(now) then None else s.mtx,
              locks := Lock(Unlock(s.locks, HoldsEntry(now)), HoldsEntry(pc), t),
              threads := s.threads[t := s.threads[t].(pc := pc)]))
  }

  /******* Steps *******/

  // A change to the shared data, and the program point to go to.
  datatype Move = Move(s: State, pc: PC)

  function Return(s: State, t: Tid, r: Result): Option<Move>
    requires t < |s.threads|
  {
    var op := s.threads[t].op;
    var s' := if r.Found? && (op.Get? || op.SetIfUnset?)
              then s.(history := s.history + [Returned(op.key, r.v)]) else s;
    Some(Move(s', Finished(r)))
  }

  // e.val = v, then return it.
  function Install(s: State, t: Tid, e: EntryId, v: Value, source: Source): Option<Move>
    requires t < |s.threads| && e < |s.entries|
  {
    var s' := s.(entries := s.entries[e := s.entries[e].(val := Some(v))],
                 history := s.history + [Installed(s.entries[e].key, v, source)]);
    Return(s', t, if s.threads[t].op.Set? then Ok else Found(v))
  }

  // Neither the entry nor the backing cache has a value.
  function Miss(s: State, t: Tid, e: EntryId): Option<Move>
    requires t < |s.threads|
  {
    if s.threads[t].op.SetIfUnset? then Some(Move(s, Calling(e))) else Return(s, t, NoSuchEntry)
  }

  function Store(s: State, t: Tid, e: EntryId, v: Option<Value>): Option<Move>
    requires t < |s.threads| && e < |s.entries|
  {
    if v.None? then Return(s, t, Failed)
    else if s.backing.Some? then Some(Move(s, Writing(e, v.value)))
    else Install(s, t, e, v.value, if s.threads[t].op.Set? then BySet else ByGetVal)
  }

  // deleteLocked, with a backing cache that deletes.
  function Drop(s: State, k: Key): State {
    s.(cache := s.cache - {k}, backing := if s.backing.Some? then Some(s.backing.value - {k}) else None)
  }

  // What backingCache.Get answers.
  function ReplyTo(s: State, k: Key, c: Choice): Reply {
    if !s.honest || s.backing.None? || c.reply.Fault? then c.reply
    else if k in s.backing.value then Value(s.backing.value[k])
    else Missing
  }

  function LookMove(s: State, t: Tid, e: EntryId): Option<Move>
    requires t < |s.threads| && e < |s.entries|
  {
    var op := s.threads[t].op;
    if op.Set? then Store(s, t, e, op.val)
    else if s.entries[e].val.Some? then Return(s, t, Found(s.entries[e].val.value))
    else if s.backing.Some? then Some(Move(s, Reading(e)))
    else Miss(s, t, e)
  }

  function ReadMove(s: State, t: Tid, e: EntryId, c: Choice): Option<Move>
    requires t < |s.threads| && e < |s.entries|
  {
    match ReplyTo(s, s.entries[e].key, c)
    case Value(v) => Install(s, t, e, v, ByReadThrough)
    case Missing => Miss(s, t, e)
    case Fault => Return(s, t, Failed)
  }

  function CallMove(s: State, t: Tid, e: EntryId, c: Choice): Option<Move>
    requires t < |s.threads| && e < |s.entries|
  {
    match c.reply
    case Value(v) => Store(s, t, e, Some(v))
    case Missing => Store(s, t, e, None)
    case Fault => Return(s, t, Failed)
  }

  function WriteMove(s: State, t: Tid, e: EntryId, v: Value, c: Choice): Option<Move>
    requires t < |s.threads| && e < |s.entries|
  {
    if c.reply.Fault? || s.backing.None? then Return(s, t, Failed)
    else Some(Move(s.(backing := Some(s.backing.value[s.entries[e].key := v])), Written(e, v)))
  }

  // With e locked, or about to be: the methods of cacheEntry.
  function EntryMove(s: State, t: Tid, c: Choice): Option<Move>
    requires t < |s.threads|
  {
    var pc := s.threads[t].pc;
    if !WithEntry(pc) || pc.e >= |s.entries| then None
    else
      match pc
      case AtEntry(e) => Some(Move(s, InEntry(e)))
      case InEntry(e) => LookMove(s, t, e)
      case Reading(e) => ReadMove(s, t, e, c)
      case Calling(e) => CallMove(s, t, e, c)
      case Writing(e, v) => WriteMove(s, t, e, v, c)
      case Written(e, v) => Install(s, t, e, v, if s.threads[t].op.Set? then BySet else ByGetVal)
  }

  // After the copy made by Cleanup: first visit every entry, then delete the doomed ones by key.
  function CleanupMove(s: State, t: Tid, c: Choice): Option<Move>
    requires t < |s.threads|
  {
    match s.threads[t].pc
    case Scan(todo, doomed) =>
      if todo == map[] then
        if doomed == map[] then Return(s, t, Ok) else Some(Move(s, PurgeStart(doomed)))
      else if c.key in todo then Some(Move(s, ScanAt(c.key, todo, doomed)))
      else None
    case ScanAt(k, todo, doomed) => Some(Move(s, ScanIn(k, todo, doomed)))
    case ScanIn(k, todo, doomed) =>
      if k !in todo || todo[k] >= |s.entries| then None
      else
        var doomed' := if s.entries[todo[k]].val.None? || c.flag then doomed[k := todo[k]] else doomed;
        Some(Move(s, Scan(todo - {k}, doomed')))
    case PurgeStart(doomed) => Some(Move(s, Purge(doomed)))
    case Purge(doomed) =>
      if doomed == map[] then Return(s, t, Ok)
      else if c.key in doomed then Some(Move(s, PurgeAt(c.key, doomed)))
      else None
    case PurgeAt(k, doomed) => Some(Move(s, PurgeIn(k, doomed)))
    case PurgeIn(k, doomed) =>
      if s.backing.Some? && c.reply.Fault? then Return(s, t, Failed)
      else Some(Move(Drop(s, k), Purge(doomed - {k})))
    case _ => None
  }

  // With c.mtx just locked.
  function InMapMove(s: State, t: Tid): Option<Move>
    requires t < |s.threads|
  {
    var op := s.threads[t].op;
    match op
    case Delete(k) => Some(Move(s, if k in s.cache then DeleteAt(s.cache[k]) else Deleting(None)))
    case Cleanup => Some(Move(s, Scan(s.cache, map[])))
    case ForEach => Some(Move(s, Walk(s.cache.Keys)))
    case _ =>
      if op.key in s.cache then Some(Move(s, AtEntry(s.cache[op.key])))
      else Some(Move(AddEntry(s, op.key), AtEntry(|s.entries|)))
  }

  function AddEntry(s: State, k: Key): State {
    s.(entries := s.entries + [Entry(k, None)], cache := s.cache[k := |s.entries|])
  }

  // getEntry, Delete, ForEach and the start of Cleanup.
  function MapMove(s: State, t: Tid, c: Choice): Option<Move>
    requires t < |s.threads|
  {
    var op := s.threads[t].op;
    match s.threads[t].pc
    case Start => Some(Move(s, InMap))
    case InMap => InMapMove(s, t)
    case DeleteAt(e) => Some(Move(s, Deleting(Some(e))))
    case Deleting(_) =>
      if s.backing.Some? && c.reply.Fault? then Return(s, t, Failed)
      else if op.Delete? then Return(Drop(s, op.key), t, Ok)
      else None
    case Walk(left) =>
      if left == {} then Return(s, t, Ok)
      else if c.key in left && c.key in s.cache then Some(Move(s, WalkAt(c.key, s.cache[c.key], left)))
      else None
    case WalkAt(k, e, left) => Some(Move(s, WalkIn(k, e, left)))
    case WalkIn(k, e, left) => Some(Move(s, Walk(left - {k})))
    case _ => None
  }

  predicate WithEntry(pc: PC) {
    pc.AtEntry? || pc.InEntry? || pc.Reading? || pc.Calling? || pc.Writing? || pc.Written?
  }

  predicate CleaningUp(pc: PC) {
    pc.Scan? || pc.ScanAt? || pc.ScanIn? || pc.PurgeStart? || pc.Purge? || pc.PurgeAt? || pc.PurgeIn?
  }

  // What goroutine t does next, apart from locking; None if the choice does not apply.
  function NextMove(s: State, t: Tid, c: Choice): Option<Move>
    requires t < |s.threads|
  {
    var pc := s.threads[t].pc;
    if WithEntry(pc) then EntryMove(s, t, c)
    else if CleaningUp(pc) then CleanupMove(s, t, c)
    else MapMove(s, t, c)
  }

  // One step of goroutine t; None if it must wait for a lock.
  function Step(s: State, t: Tid, c: Choice): Option<State>
    requires t < |s.threads|
  {
    var m := NextMove(s, t, c);
    if m.Some? && m.value.s.threads == s.threads then Advance(m.value.s, t, m.value.pc) else None
  }

  /******* Runs *******/

  ghost predicate Init(s: State) {
    && s.mtx.None? && s.locks == map[] && s.cache == map[] && s.entries == [] && s.history == []
    && forall t :: 0 <= t < |s.threads| ==> s.threads[t].pc == Start
  }

  ghost predicate Gives(s: State, t: Tid, c: Choice, r: Option<State>)
    requires t < |s.threads|
  {
    Step(s, t, c) == r
  }

  // Goroutine t can step to s'.
  ghost predicate Takes(s: State, t: Tid, c: Choice, s': State) {
    t < |s.threads| && forall r :: Gives(s, t, c, r) ==> r == Some(s')
  }

  ghost predicate Next(s: State, s': State) {
    exists t: Tid, c :: Takes(s, t, c, s')
  }

  ghost predicate NextAt(run: seq<State>, i: int)
    requires 0 <= i < |run| - 1
  {
    Next(run[i], run[i + 1])
  }

  ghost predicate Interleaving(run: seq<State>) {
    run != [] && Init(run[0]) && forall i :: 0 <= i < |run| - 1 ==> NextAt(run, i)
  }

  /******* Progress *******/

  // Every entry a program point refers to exists, and the key it is at is still listed.
  ghost predicate Sound(s: State, pc: PC) {
    match pc
    case AtEntry(e) => e < |s.entries|
    case InEntry(e) => e < |s.entries|
    case Reading(e) => e < |s.entries|
    case Calling(e) => e < |s.entries|
    case Writing(e, _) => e < |s.entries|
    case Written(e, _) => e < |s.entries|
    case DeleteAt(e) => e < |s.entries|
    case Deleting(held) => held.Some? ==> held.value < |s.entries|
    case Scan(todo, doomed) => Known(s, todo) && Known(s, doomed)
    case ScanAt(k, todo, doomed) => k in todo && Known(s, todo) && Known(s, doomed)
    case ScanIn(k, todo, doomed) => k in todo && Known(s, todo) && Known(s, doomed)
    case PurgeStart(doomed) => Known(s, doomed)
    case Purge(doomed) => Known(s, doomed)
    case PurgeAt(k, doomed) => k in doomed && Known(s, doomed)
    case PurgeIn(k, doomed) => k in doomed && Known(s, doomed)
    case Walk(left) => left <= s.cache.Keys
    case WalkAt(k, e, left) => e < |s.entries| && k in left && left <= s.cache.Keys
    case WalkIn(k, e, left) => e < |s.entries| && k in left && left <= s.cache.Keys
    case _ => true
  }

  ghost predicate OnlyDeletes(op: Op, pc: PC) {
    pc.DeleteAt? || pc.Deleting? ==> op.Delete?
  }

  ghost predicate Known(s: State, m: map<Key, EntryId>) {
    forall k :: k in m ==> m[k] < |s.entries|
  }

  // The holder of the map's mutex is the one goroutine at a point where it is held.
  ghost predicate MapOwned(mtx: Option<Tid>, holds: seq<bool>) {
    && (mtx.Some? ==> mtx.value < |holds| && holds[mtx.value])
    && forall t :: 0 <= t < |holds| && holds[t] ==> mtx == Some(t)
  }

  ghost predicate EntriesOwned(locks: map<EntryId, Tid>, holds: seq<Option<EntryId>>) {
    && (forall e :: e in locks ==> locks[e] < |holds| && holds[locks[e]] == Some(e))
    && forall t :: 0 <= t < |holds| && holds[t].Some? ==> holds[t].value in locks && locks[holds[t].value] == t
  }

  ghost function MapHolds(threads: seq<Thread>): seq<bool> {
    seq(|threads|, t requires 0 <= t < |threads| => HoldsMap(threads[t].pc))
  }

  ghost function EntryHolds(threads: seq<Thread>): seq<Option<EntryId>> {
    seq(|threads|, t requires 0 <= t < |threads| => HoldsEntry(threads[t].pc))
  }

  ghost predicate LocksOwned(s: State) {
    MapOwned(s.mtx, MapHolds(s.threads)) && EntriesOwned(s.locks, EntryHolds(s.threads))
  }

  ghost predicate Inv(s: State) {
    && LocksOwned(s) && Known(s, s.cache)
    && (forall t :: 0 <= t < |s.threads| ==> Sound(s, s.threads[t].pc))
    && (forall t :: 0 <= t < |s.threads| ==> OnlyDeletes(s.threads[t].op, s.threads[t].pc))
  }

  // What a step may do to the shared data before it moves on: give entries values, add entries,
  // change the cache map.
  ghost predicate Updated(s: State, s1: State) {
    && s1.threads == s.threads && s1.mtx == s.mtx && s1.locks == s.locks
    && s1.backing.Some? == s.backing.Some? && s1.honest == s.honest
    && |s.entries| <= |s1.entries| && Known(s1, s1.cache)
  }

  lemma MapStaysOwned(mtx: Option<Tid>, holds: seq<bool>, t: Tid, h: bool)
    requires MapOwned(mtx, holds) && t < |holds| && (h && !holds[t] ==> mtx.None?)
    ensures MapOwned(if h then Some(t) else if holds[t] then None else mtx, holds[t := h])
  {
  }

  lemma ReleaseKeepsOwned(locks: map<EntryId, Tid>, holds: seq<Option<EntryId>>, t: Tid)
    requires EntriesOwned(locks, holds) && t < |holds|
    ensures EntriesOwned(Unlock(locks, holds[t]), holds[t := None])
  {
  }

  lemma AcquireKeepsOwned(locks: map<EntryId, Tid>, holds: seq<Option<EntryId>>, t: Tid, h: Option<EntryId>)
    requires EntriesOwned(locks, holds) && t < |holds| && holds[t].None? && (h.Some? ==> h.value !in locks)
    ensures EntriesOwned(Lock(locks, h, t), holds[t := h])
  {
  }

  lemma EntriesStayOwned(locks: map<EntryId, Tid>, holds: seq<Option<EntryId>>, t: Tid, h: Option<EntryId>)
    requires EntriesOwned(locks, holds) && t < |holds| && (h.Some? && h != holds[t] ==> h.value !in locks)
    ensures EntriesOwned(Lock(Unlock(locks, holds[t]), h, t), holds[t := h])
  {
    ReleaseKeepsOwned(locks, holds, t);
    AcquireKeepsOwned(Unlock(locks, holds[t]), holds[t := None], t, h);
    assert holds[t := None][t := h] == holds[t := h];
  }

  lemma HoldsUpdate(threads: seq<Thread>, t: Tid, th: Thread)
    requires t < |threads|
    ensures MapHolds(threads[t := th]) == MapHolds(threads)[t := HoldsMap(th.pc)]
    ensures EntryHolds(threads[t := th]) == EntryHolds(threads)[t := HoldsEntry(th.pc)]
  {
  }

  lemma AdvanceKeepsLocks(s: State, t: Tid, pc: PC, s': State)
    requires LocksOwned(s) && t < |s.threads| && Advance(s, t, pc) == Some(s')
    ensures LocksOwned(s')
  {
    var th := s.threads[t].(pc := pc);
    HoldsUpdate(s.threads, t, th);
    MapStaysOwned(s.mtx, MapHolds(s.threads), t, HoldsMap(pc));
    EntriesStayOwned(s.locks, EntryHolds(s.threads), t, HoldsEntry(pc));
    assert s'.threads == s.threads[t := th];
  }

  // Who holds what, goroutine by goroutine.
  lemma MapHolder(s: State, t: Tid)
    requires LocksOwned(s) && t < |s.threads|
    ensures HoldsMap(s.threads[t].pc) <==> s.mtx == Some(t)
  {
    assert MapHolds(s.threads)[t] == HoldsMap(s.threads[t].pc);
  }

  lemma EntryHolder(s: State, t: Tid, e: EntryId)
    requires LocksOwned(s) && t < |s.threads|
    ensures HoldsEntry(s.threads[t].pc) == Some(e) <==> e in s.locks && s.locks[e] == t
  {
    assert EntryHolds(s.threads)[t] == HoldsEntry(s.threads[t].pc);
  }

  ghost predicate GoodMove(s: State, t: Tid, m: Option<Move>)
    requires t < |s.threads|
  {
    m.Some? ==>
      && Updated(s, m.value.s) && (s.cache.Keys <= m.value.s.cache.Keys || HoldsMap(s.threads[t].pc))
      && Sound(m.value.s, m.value.pc) && OnlyDeletes(s.threads[t].op, m.value.pc)
  }

  lemma ReturnIsGood(s: State, t: Tid, s1: State, r: Result)
    requires t < |s.threads| && Updated(s, s1) && (s.cache.Keys <= s1.cache.Keys || HoldsMap(s.threads[t].pc))
    ensures GoodMove(s, t, Return(s1, t, r))
  {
  }

  lemma InstallIsGood(s: State, t: Tid, e: EntryId, v: Value, source: Source)
    requires Known(s, s.cache) && t < |s.threads| && e < |s.entries|
    ensures GoodMove(s, t, Install(s, t, e, v, source))
  {
    var s1 := s.(entries := s.entries[e := s.entries[e].(val := Some(v))],
                 history := s.history + [Installed(s.entries[e].key, v, source)]);
    assert Updated(s, s1);
    ReturnIsGood(s, t, s1, if s.threads[t].op.Set? then Ok else Found(v));
  }

  lemma StoreIsGood(s: State, t: Tid, e: EntryId, v: Option<Value>)
    requires Known(s, s.cache) && t < |s.threads| && e < |s.entries|
    ensures GoodMove(s, t, Store(s, t, e, v))
  {
    if v.None? {
      ReturnIsGood(s, t, s, Failed);
    } else if s.backing.None? {
      InstallIsGood(s, t, e, v.value, if s.threads[t].op.Set? then BySet else ByGetVal);
    }
  }

  lemma MissIsGood(s: State, t: Tid, e: EntryId)
    requires Known(s, s.cache) && t < |s.threads| && e < |s.entries|
    ensures GoodMove(s, t, Miss(s, t, e))
  {
    if !s.threads[t].op.SetIfUnset? {
      ReturnIsGood(s, t, s, NoSuchEntry);
    }
  }

  lemma LookIsGood(s: State, t: Tid, e: EntryId)
    requires Known(s, s.cache) && t < |s.threads| && e < |s.entries|
    ensures GoodMove(s, t, LookMove(s, t, e))
  {
    var op := s.threads[t].op;
    if op.Set? {
      StoreIsGood(s, t, e, op.val);
    } else if s.entries[e].val.Some? {
      ReturnIsGood(s, t, s, Found(s.entries[e].val.value));
    } else if s.backing.None? {
      MissIsGood(s, t, e);
    }
  }

  lemma ReadIsGood(s: State, t: Tid, e: EntryId, c: Choice)
    requires Known(s, s.cache) && t < |s.threads| && e < |s.entries|
    ensures GoodMove(s, t, ReadMove(s, t, e, c))
  {
    match ReplyTo(s, s.entries[e].key, c)
    case Value(v) => InstallIsGood(s, t, e, v, ByReadThrough);
    case Missing => MissIsGood(s, t, e);
    case Fault => ReturnIsGood(s, t, s, Failed);
  }

  lemma CallIsGood(s: State, t: Tid, e: EntryId, c: Choice)
    requires Known(s, s.cache) && t < |s.threads| && e < |s.entries|
    ensures GoodMove(s, t, CallMove(s, t, e, c))
  {
    match c.reply
    case Value(v) => StoreIsGood(s, t, e, Some(v));
    case Missing => StoreIsGood(s, t, e, None);
    case Fault => ReturnIsGood(s, t, s, Failed);
  }

  lemma WriteIsGood(s: State, t: Tid, e: EntryId, v: Value, c: Choice)
    requires Known(s, s.cache) && t < |s.threads| && e < |s.entries|
    ensures GoodMove(s, t, WriteMove(s, t, e, v, c))
  {
    if c.reply.Fault? || s.backing.None? {
      ReturnIsGood(s, t, s, Failed);
    }
  }

  lemma EntryMoveIsGood(s: State, t: Tid, c: Choice)
    requires Known(s, s.cache) && t < |s.threads|
    ensures GoodMove(s, t, EntryMove(s, t, c))
  {
    var pc := s.threads[t].pc;
    if WithEntry(pc) && pc.e < |s.entries| {
      match pc
      case AtEntry(e) =>
      case InEntry(e) => LookIsGood(s, t, e);
      case Reading(e) => ReadIsGood(s, t, e, c);
      case Calling(e) => CallIsGood(s, t, e, c);
      case Writing(e, v) => WriteIsGood(s, t, e, v, c);
      case Written(e, v) => InstallIsGood(s, t, e, v, if s.threads[t].op.Set? then BySet else ByGetVal);
    }
  }

  lemma DropIsUpdate(s: State, k: Key)
    requires Known(s, s.cache)
    ensures Updated(s, Drop(s, k))
  {
  }

  lemma ScanIsGood(s: State, t: Tid, c: Choice)
    requires Known(s, s.cache) && t < |s.threads| && Sound(s, s.threads[t].pc)
    requires s.threads[t].pc.Scan? || s.threads[t].pc.ScanAt? || s.threads[t].pc.ScanIn?
    ensures GoodMove(s, t, CleanupMove(s, t, c))
  {
    ReturnIsGood(s, t, s, Ok);
  }

  lemma PurgeIsGood(s: State, t: Tid, c: Choice)
    requires Known(s, s.cache) && t < |s.threads| && Sound(s, s.threads[t].pc)
    requires s.threads[t].pc.PurgeStart? || s.threads[t].pc.Purge? || s.threads[t].pc.PurgeAt? || s.threads[t].pc.PurgeIn?
    ensures GoodMove(s, t, CleanupMove(s, t, c))
  {
    ReturnIsGood(s, t, s, Ok);
    if s.threads[t].pc.PurgeIn? {
      ReturnIsGood(s, t, s, Failed);
      DropIsUpdate(s, s.threads[t].pc.k);
    }
  }

  lemma CleanupMoveIsGood(s: State, t: Tid, c: Choice)
    requires Known(s, s.cache) && t < |s.threads| && Sound(s, s.threads[t].pc) && CleaningUp(s.threads[t].pc)
    ensures GoodMove(s, t, CleanupMove(s, t, c))
  {
    if s.threads[t].pc.Scan? || s.threads[t].pc.ScanAt? || s.threads[t].pc.ScanIn? {
      ScanIsGood(s, t, c);
    } else {
      PurgeIsGood(s, t, c);
    }
  }

  lemma InMapIsGood(s: State, t: Tid)
    requires Known(s, s.cache) && t < |s.threads| && s.threads[t].pc.InMap?
    ensures GoodMove(s, t, InMapMove(s, t))
  {
  }

  lemma MapMoveIsGood(s: State, t: Tid, c: Choice)
    requires Known(s, s.cache) && t < |s.threads|
    requires Sound(s, s.threads[t].pc) && OnlyDeletes(s.threads[t].op, s.threads[t].pc)
    ensures GoodMove(s, t, MapMove(s, t, c))
  {
    match s.threads[t].pc
    case InMap => InMapIsGood(s, t);
    case Deleting(_) =>
      ReturnIsGood(s, t, s, Failed);
      if s.threads[t].op.Delete? {
        DropIsUpdate(s, s.threads[t].op.key);
        ReturnIsGood(s, t, Drop(s, s.threads[t].op.key), Ok);
      }
    case Walk(_) => ReturnIsGood(s, t, s, Ok);
    case _ =>
  }

  lemma MoveIsGood(s: State, t: Tid, c: Choice)
    requires Inv(s) && t < |s.threads|
    ensures GoodMove(s, t, NextMove(s, t, c))
  {
    assert Sound(s, s.threads[t].pc) && OnlyDeletes(s.threads[t].op, s.threads[t].pc);
    if WithEntry(s.threads[t].pc) {
      EntryMoveIsGood(s, t, c);
    } else if CleaningUp(s.threads[t].pc) {
      CleanupMoveIsGood(s, t, c);
    } else {
      MapMoveIsGood(s, t, c);
    }
  }

  lemma StaysSound(s: State, pc: PC, s': State)
    requires Sound(s, pc) && |s.entries| <= |s'.entries| && (s.cache.Keys <= s'.cache.Keys || !HoldsMap(pc))
    ensures Sound(s', pc)
  {
  }

  lemma StepKeepsInv(s: State, t: Tid, c: Choice, s': State)
    requires Inv(s) && Takes(s, t, c, s')
    ensures Inv(s')
  {
    assert Gives(s, t, c, Step(s, t, c));
    MoveIsGood(s, t, c);
    var Move(s1, pc) := NextMove(s, t, c).value;
    AdvanceKeepsLocks(s1, t, pc, s');
    assert s'.entries == s1.entries && s'.cache == s1.cache;
    forall u | 0 <= u < |s'.threads| ensures Sound(s', s'.threads[u].pc) {
      if u != t {
        MapHolder(s, t);
        MapHolder(s, u);
        StaysSound(s, s.threads[u].pc, s');
      } else {
        StaysSound(s1, pc, s');
      }
    }
  }

  lemma {:induction false} RunKeepsInv(run: seq<State>, n: nat)
    requires Interleaving(run) && n < |run|
    ensures Inv(run[n])
  {
    if n > 0 {
      RunKeepsInv(run, n - 1);
      assert NextAt(run, n - 1);
      var t: Tid, c :| Takes(run[n - 1], t, c, run[n]);
      StepKeepsInv(run[n - 1], t, c, run[n]);
    }
  }

  // Apart from locks, an unfinished goroutine always has something to do.
  lemma HasMove(s: State, t: Tid) returns (c: Choice)
    requires Inv(s) && t < |s.threads| && !s.threads[t].pc.Finished?
    ensures NextMove(s, t, c).Some?
  {
    assert Sound(s, s.threads[t].pc);
    c := Choice(Missing, 0, false);
    match s.threads[t].pc
    case Scan(todo, _) => if todo != map[] { var k :| k in todo; c := c.(key := k); }
    case Purge(doomed) => if doomed != map[] { var k :| k in doomed; c := c.(key := k); }
    case Walk(left) => if left != {} { var k :| k in left; c := c.(key := k); }
    case _ =>
  }

  // A move from a point where an entry's mutex is held takes no lock.
  ghost predicate TakesNone(now: PC, m: Option<Move>) {
    HoldsEntry(now).Some? && m.Some? ==>
      && (HoldsMap(m.value.pc) ==> HoldsMap(now))
      && (HoldsEntry(m.value.pc).None? || HoldsEntry(m.value.pc) == HoldsEntry(now))
  }

  lemma EntryHolderTakesNone(s: State, t: Tid, c: Choice)
    requires t < |s.threads|
    ensures TakesNone(s.threads[t].pc, EntryMove(s, t, c))
    ensures TakesNone(s.threads[t].pc, CleanupMove(s, t, c))
    ensures TakesNone(s.threads[t].pc, MapMove(s, t, c))
  {
  }

  // Holding an entry's mutex, a goroutine waits for no lock: not for the map's, nor another entry's.
  lemma EntryHolderRuns(s: State, t: Tid, c: Choice)
    requires Inv(s) && t < |s.threads| && HoldsEntry(s.threads[t].pc).Some? && NextMove(s, t, c).Some?
    ensures Step(s, t, c).Some?
  {
    MoveIsGood(s, t, c);
    EntryHolderTakesNone(s, t, c);
  }

  // Holding the map's mutex, a goroutine waits for nothing but an entry's mutex.
  lemma MapHolderRuns(s: State, t: Tid, c: Choice)
    requires Inv(s) && t < |s.threads| && HoldsMap(s.threads[t].pc) && s.locks == map[] && NextMove(s, t, c).Some?
    ensures Step(s, t, c).Some?
  {
    MoveIsGood(s, t, c);
  }

  // Where no lock is held, every unfinished goroutine can step.
  lemma UnlockedRuns(s: State, t: Tid, c: Choice)
    requires Inv(s) && t < |s.threads| && s.mtx.None? && s.locks == map[] && NextMove(s, t, c).Some?
    ensures Step(s, t, c).Some?
  {
    MoveIsGood(s, t, c);
  }

  // A goroutine that can step: the holder of an entry's mutex, else of the map's, else any.
  lemma Runner(s: State, t0: Tid) returns (t: Tid, c: Choice)
    requires Inv(s) && t0 < |s.threads| && !s.threads[t0].pc.Finished?
    ensures t < |s.threads| && Step(s, t, c).Some?
  {
    if s.locks != map[] {
      var e :| e in s.locks;
      t := s.locks[e];
      EntryHolder(s, t, e);
      c := HasMove(s, t);
      EntryHolderRuns(s, t, c);
    } else if s.mtx.Some? {
      t := s.mtx.value;
      MapHolder(s, t);
      c := HasMove(s, t);
      MapHolderRuns(s, t, c);
    } else {
      t := t0;
      c := HasMove(s, t);
      UnlockedRuns(s, t, c);
    }
  }

  // No deadlock: as long as some operation is unfinished, some goroutine can step.
  lemma Progress(s: State)
    requires Inv(s)
    requires exists t :: 0 <= t < |s.threads| && !s.threads[t].pc.Finished?
    ensures exists s' :: Next(s, s')
  {
    var t0: Tid :| t0 < |s.threads| && !s.threads[t0].pc.Finished?;
    var t, c := Runner(s, t0);
    assert Takes(s, t, c, Step(s, t, c).value);
    assert Next(s, Step(s, t, c).value);
  }

  lemma RunNeverDeadlocks(run: seq<State>)
    requires Interleaving(run)
    requires var s := run[|run| - 1]; exists t :: 0 <= t < |s.threads| && !s.threads[t].pc.Finished?
    ensures exists s' :: Interleaving(run + [s'])
  {
    RunKeepsInv(run, |run| - 1);
    Progress(run[|run| - 1]);
    var s' :| Next(run[|run| - 1], s');
    var run' := run + [s'];
    forall i | 0 <= i < |run'| - 1 ensures NextAt(run', i) {
      if i < |run| - 1 {
        assert NextAt(run, i);
      }
    }
  }

  /******* Every operation finishes *******/

  ghost function OpKeys(threads: seq<Thread>): set<Key> {
    set i | 0 <= i < |threads| && !threads[i].op.Cleanup? && !threads[i].op.ForEach? :: threads[i].op.key
  }

  // A bound on the steps left to a goroutine, if the cache never has more than n keys.
  ghost function Work(th: Thread, n: nat): nat {
    match th.pc
    case Start => (if th.op.Cleanup? then 7 * n + 8 else if th.op.ForEach? then 4 * n + 4 else 9)
    case InMap => (if th.op.Cleanup? then 7 * n + 7 else if th.op.ForEach? then 4 * n + 3 else 8)
    case AtEntry(_) => 7
    case InEntry(_) => 6
    case Reading(_) => 5
    case Calling(_) => 4
    case Writing(_, _) => 3
    case Written(_, _) => 2
    case DeleteAt(_) => 3
    case Deleting(_) => 2
    case Scan(todo, doomed) => 7 * |todo| + 4 * |doomed| + 6
    case ScanAt(_, todo, doomed) => 7 * |todo| + 4 * |doomed| + 5
    case ScanIn(_, todo, doomed) => 7 * |todo| + 4 * |doomed| + 4
    case PurgeStart(doomed) => 4 * |doomed| + 5
    case Purge(doomed) => 4 * |doomed| + 4
    case PurgeAt(_, doomed) => 4 * |doomed| + 3
    case PurgeIn(_, doomed) => 4 * |doomed| + 2
    case Walk(left) => 4 * |left| + 2
    case WalkAt(_, _, left) => 4 * |left| + 1
    case WalkIn(_, _, left) => 4 * |left|
    case Finished(_) => 0
  }

  ghost function TotalWork(threads: seq<Thread>, n: nat): nat {
    if threads == [] then 0 else Work(threads[0], n) + TotalWork(threads[1..], n)
  }

  lemma {:induction false} TotalWorkUpdate(threads: seq<Thread>, t: Tid, th: Thread, n: nat)
    requires t < |threads|
    ensures TotalWork(threads[t := th], n) == TotalWork(threads, n) - Work(threads[t], n) + Work(th, n)
  {
    if t == 0 {
      assert threads[0 := th][1..] == threads[1..];
    } else {
      assert threads[t := th][1..] == threads[1..][t - 1 := th];
      TotalWorkUpdate(threads[1..], t - 1, th, n);
    }
  }

  ghost predicate Bounded(s: State) {
    s.cache.Keys <= OpKeys(s.threads)
  }

  lemma RemoveOne<V>(m: map<Key, V>, k: Key)
    requires k in m
    ensures |m - {k}| == |m| - 1
  {
    assert (m - {k}).Keys == m.Keys - {k};
  }

  lemma AddOne<V>(m: map<Key, V>, k: Key, v: V)
    ensures |m[k := v]| <= |m| + 1
  {
    assert m[k := v].Keys == m.Keys + {k};
  }

  ghost predicate WorkingMove(s: State, t: Tid, m: Option<Move>, n: nat)
    requires t < |s.threads|
  {
    m.Some? ==> Work(s.threads[t].(pc := m.value.pc), n) < Work(s.threads[t], n)
  }

  lemma EntryMoveWorks(s: State, t: Tid, c: Choice, n: nat)
    requires t < |s.threads|
    ensures WorkingMove(s, t, EntryMove(s, t, c), n)
  {
  }

  lemma ScanShrinks(op: Op, k: Key, todo: map<Key, EntryId>, doomed: map<Key, EntryId>, doomed': map<Key, EntryId>, n: nat)
    requires k in todo && (doomed' == doomed || doomed' == doomed[k := todo[k]])
    ensures Work(Thread(op, Scan(todo - {k}, doomed')), n) < Work(Thread(op, ScanIn(k, todo, doomed)), n)
  {
    RemoveOne(todo, k);
    AddOne(doomed, k, todo[k]);
  }

  lemma ScanInWorks(s: State, t: Tid, c: Choice, n: nat)
    requires t < |s.threads| && s.threads[t].pc.ScanIn?
    ensures WorkingMove(s, t, CleanupMove(s, t, c), n)
  {
    var Thread(op, ScanIn(k, todo, doomed)) := s.threads[t];
    var m := CleanupMove(s, t, c);
    if m.Some? {
      var doomed' := m.value.pc.doomed;
      assert m.value.pc == Scan(todo - {k}, doomed') && (doomed' == doomed || doomed' == doomed[k := todo[k]]);
      ScanShrinks(op, k, todo, doomed, doomed', n);
    }
  }

  lemma PurgeInWorks(s: State, t: Tid, c: Choice, n: nat)
    requires t < |s.threads| && Sound(s, s.threads[t].pc) && s.threads[t].pc.PurgeIn?
    ensures WorkingMove(s, t, CleanupMove(s, t, c), n)
  {
    var pc := s.threads[t].pc;
    RemoveOne(pc.doomed, pc.k);
  }

  lemma CleanupMoveWorks(s: State, t: Tid, c: Choice, n: nat)
    requires t < |s.threads| && Sound(s, s.threads[t].pc)
    ensures WorkingMove(s, t, CleanupMove(s, t, c), n)
  {
    if s.threads[t].pc.ScanIn? {
      ScanInWorks(s, t, c, n);
    } else if s.threads[t].pc.PurgeIn? {
      PurgeInWorks(s, t, c, n);
    }
  }

  lemma WalkInWorks(s: State, t: Tid, c: Choice, n: nat)
    requires t < |s.threads| && Sound(s, s.threads[t].pc) && s.threads[t].pc.WalkIn?
    ensures WorkingMove(s, t, MapMove(s, t, c), n)
  {
  }

  lemma InMapWorks(s: State, t: Tid, n: nat)
    requires t < |s.threads| && s.threads[t].pc.InMap? && |s.cache.Keys| <= n
    ensures WorkingMove(s, t, InMapMove(s, t), n)
  {
    assert |s.cache| == |s.cache.Keys|;
  }

  lemma WalkWorks(s: State, t: Tid, c: Choice, n: nat)
    requires t < |s.threads| && Sound(s, s.threads[t].pc) && (s.threads[t].pc.Walk? || s.threads[t].pc.WalkAt?)
    ensures WorkingMove(s, t, MapMove(s, t, c), n)
  {
  }

  lemma DeleteWorks(s: State, t: Tid, c: Choice, n: nat)
    requires t < |s.threads| && (s.threads[t].pc.Start? || s.threads[t].pc.DeleteAt? || s.threads[t].pc.Deleting?)
    ensures WorkingMove(s, t, MapMove(s, t, c), n)
  {
  }

  lemma MapMoveWorks(s: State, t: Tid, c: Choice, n: nat)
    requires t < |s.threads| && Sound(s, s.threads[t].pc) && |s.cache.Keys| <= n
    ensures WorkingMove(s, t, MapMove(s, t, c), n)
  {
    var pc := s.threads[t].pc;
    if pc.InMap? {
      assert MapMove(s, t, c) == InMapMove(s, t);
      InMapWorks(s, t, n);
    } else if pc.WalkIn? {
      WalkInWorks(s, t, c, n);
    } else if pc.Walk? || pc.WalkAt? {
      WalkWorks(s, t, c, n);
    } else if pc.Start? || pc.DeleteAt? || pc.Deleting? {
      DeleteWorks(s, t, c, n);
    }
  }

  lemma MoveKeepsBounded(s: State, t: Tid, c: Choice)
    requires t < |s.threads| && Bounded(s) && NextMove(s, t, c).Some?
    ensures NextMove(s, t, c).value.s.cache.Keys <= OpKeys(s.threads)
  {
    assert !s.threads[t].op.Cleanup? && !s.threads[t].op.ForEach? ==> s.threads[t].op.key in OpKeys(s.threads);
    if WithEntry(s.threads[t].pc) {
      EntryMoveSameMap(s, t, c);
    }
  }

  lemma StepWorks(s: State, t: Tid, c: Choice, s': State)
    requires Inv(s) && Bounded(s) && Takes(s, t, c, s')
    ensures OpKeys(s'.threads) == OpKeys(s.threads) && Bounded(s')
    ensures var n := |OpKeys(s.threads)|; TotalWork(s'.threads, n) < TotalWork(s.threads, n)
  {
    assert Gives(s, t, c, Step(s, t, c));
    var n := |OpKeys(s.threads)|;
    assert forall i :: 0 <= i < |s.threads| ==> s'.threads[i].op == s.threads[i].op;
    assert Sound(s, s.threads[t].pc);
    SubsetSize(s.cache.Keys, OpKeys(s.threads));
    if WithEntry(s.threads[t].pc) {
      EntryMoveWorks(s, t, c, n);
    } else if CleaningUp(s.threads[t].pc) {
      CleanupMoveWorks(s, t, c, n);
    } else {
      MapMoveWorks(s, t, c, n);
    }
    assert WorkingMove(s, t, NextMove(s, t, c), n);
    MoveKeepsBounded(s, t, c);
    TotalWorkUpdate(s.threads, t, s'.threads[t], n);
  }

  lemma {:induction false} RunStaysBounded(run: seq<State>, n: nat)
    requires Interleaving(run) && n < |run|
    ensures Bounded(run[n]) && OpKeys(run[n].threads) == OpKeys(run[0].threads)
    ensures var k := |OpKeys(run[0].threads)|; TotalWork(run[n].threads, k) + n <= TotalWork(run[0].threads, k)
  {
    if n > 0 {
      RunStaysBounded(run, n - 1);
      RunKeepsInv(run, n - 1);
      assert NextAt(run, n - 1);
      var t: Tid, c :| Takes(run[n - 1], t, c, run[n]);
      StepWorks(run[n - 1], t, c, run[n]);
    }
  }

  ghost predicate AllFinished(s: State) {
    forall t :: 0 <= t < |s.threads| ==> s.threads[t].pc.Finished?
  }

  lemma FinishedIsStuck(s: State, s': State)
    requires AllFinished(s)
    ensures !Next(s, s')
  {
    forall t: Tid, c | t < |s.threads| ensures !Takes(s, t, c, s') {
      assert Gives(s, t, c, None);
    }
  }

  // No run is longer than the work there is at its start, and one that has reached that length,
  // or cannot go on, has finished every operation.
  lemma EveryRunFinishes(run: seq<State>)
    requires Interleaving(run)
    ensures |run| <= TotalWork(run[0].threads, |OpKeys(run[0].threads)|) + 1
    ensures (forall s' :: !Interleaving(run + [s'])) <==> AllFinished(run[|run| - 1])
  {
    var s := run[|run| - 1];
    RunStaysBounded(run, |run| - 1);
    if !AllFinished(s) {
      RunNeverDeadlocks(run);
    } else {
      forall s' ensures !Interleaving(run + [s']) {
        var run' := run + [s'];
        FinishedIsStuck(s, s');
        assert !NextAt(run', |run| - 1);
      }
    }
  }

  /******* One key as a register *******/

  // The part of the history that concerns a key.
  ghost function KeyEvents(history: seq<Event>, k: Key): seq<Event> {
    if history == [] then []
    else
      var last := history[|history| - 1];
      KeyEvents(history[..|history| - 1], k) + (if last.key == k then [last] else [])
  }

  lemma KeyEventsAppend(history: seq<Event>, e: Event, k: Key)
    ensures KeyEvents(history + [e], k) == KeyEvents(history, k) + (if e.key == k then [e] else [])
  {
    assert (history + [e])[..|history|] == history;
  }

  ghost function LastInstalled(events: seq<Event>): Option<Value> {
    if events == [] then None
    else
      var last := events[|events| - 1];
      if last.Installed? then Some(last.v) else LastInstalled(events[..|events| - 1])
  }

  // Every value returned is the one installed last before it.
  ghost predicate ReadsLast(events: seq<Event>) {
    forall i :: 0 <= i < |events| && events[i].Returned? ==> LastInstalled(events[..i]) == Some(events[i].v)
  }

  ghost predicate InstalledOnce(events: seq<Event>) {
    forall i :: 0 < i < |events| ==> events[i].Returned?
  }

  lemma ReadsLastAppend(events: seq<Event>, e: Event)
    requires ReadsLast(events) && (e.Returned? ==> LastInstalled(events) == Some(e.v))
    ensures ReadsLast(events + [e])
    ensures LastInstalled(events + [e]) == if e.Installed? then Some(e.v) else LastInstalled(events)
  {
    var events' := events + [e];
    assert events'[..|events|] == events;
    forall i | 0 <= i < |events'| && events'[i].Returned? ensures LastInstalled(events'[..i]) == Some(events'[i].v) {
      if i < |events| {
        assert events'[..i] == events[..i];
      }
    }
  }

  // If nothing was ever installed, nothing was returned either.
  lemma NothingYet(events: seq<Event>)
    requires ReadsLast(events) && LastInstalled(events).None?
    ensures events == []
  {
  }

  // What there is to see of a key: the value in its entry, the one in the backing cache and its events.
  datatype View = View(val: Option<Value>, stored: Option<Value>, events: seq<Event>)

  ghost function ValueOf(s: State, k: Key): Option<Value> {
    if k in s.cache && s.cache[k] < |s.entries| then s.entries[s.cache[k]].val else None
  }

  ghost function StoredOf(backing: Option<map<Key, Value>>, k: Key): Option<Value> {
    if backing.Some? && k in backing.value then Some(backing.value[k]) else None
  }

  ghost function ViewOf(s: State, k: Key): View {
    View(ValueOf(s, k), StoredOf(s.backing, k), KeyEvents(s.history, k))
  }

  // Nobody deletes the key and nobody cleans up; other keys may be deleted.
  ghost predicate Kept(threads: seq<Thread>, k: Key) {
    forall t :: 0 <= t < |threads| ==> !threads[t].op.Cleanup? && (threads[t].op.Delete? ==> threads[t].op.key != k)
  }

  // Nobody sets the key either.
  ghost predicate Quiet(threads: seq<Thread>, k: Key) {
    Kept(threads, k) && forall t :: 0 <= t < |threads| && threads[t].op.Set? ==> threads[t].op.key != k
  }

  predicate Asks(op: Op, k: Key) {
    (op.Get? || op.SetIfUnset?) && op.key == k
  }

  predicate On(op: Op, k: Key) {
    Asks(op, k) || (op.Set? && op.key == k)
  }

  ghost predicate OwnEntry(s: State, th: Thread) {
    && (WithEntry(th.pc) ==>
          th.pc.e < |s.entries| && (th.op.Get? || th.op.Set? || th.op.SetIfUnset?) && s.entries[th.pc.e].key == th.op.key)
    && (th.pc.Reading? || th.pc.Calling? ==> !th.op.Set?)
    && (CleaningUp(th.pc) ==> th.op.Cleanup?)
  }

  // The cache map leads each key to an entry of its own, and k has no entry besides.
  ghost predicate KeyMap(s: State, k: Key) {
    && (forall j :: j in s.cache ==> s.cache[j] < |s.entries| && s.entries[s.cache[j]].key == j)
    && (forall e :: 0 <= e < |s.entries| && s.entries[e].key == k ==> k in s.cache && s.cache[k] == e)
  }

  // The events tell of a register, written once if nobody sets the key.
  ghost predicate Sane(v: View, quiet: bool) {
    ReadsLast(v.events) && LastInstalled(v.events) == v.val && (quiet ==> InstalledOnce(v.events))
  }

  // What a goroutine at k may rely on. In the middle of a miss the entry is unset; getVal is called,
  // and its value written, only while the backing cache has no value either.
  ghost predicate Fits(op: Op, pc: PC, v: View, k: Key, mirrored: bool) {
    On(op, k) ==>
      && (!op.Set? && (pc.Reading? || pc.Calling? || pc.Writing? || pc.Written?) ==> v.val.None?)
      && (mirrored && op.SetIfUnset? && (pc.Calling? || pc.Writing?) ==> v.stored.None?)
      && (pc.Written? ==> v.stored == Some(pc.v))
      && (Asks(op, k) && pc.Finished? && pc.result.Found? ==> Returned(k, pc.result.v) in v.events)
  }

  predicate Mirrored(s: State) { s.honest && s.backing.Some? }

  // Some goroutine has stored a value for k that it has yet to put into the entry.
  ghost predicate Storing(threads: seq<Thread>, k: Key) {
    exists t :: 0 <= t < |threads| && On(threads[t].op, k) && threads[t].pc.Written?
  }

  ghost predicate InStep(v: View) {
    v.val.None? || v.stored == v.val
  }

  ghost predicate KeyInv(s: State, k: Key, quiet: bool) {
    && KeyMap(s, k) && Kept(s.threads, k) && (quiet ==> Quiet(s.threads, k))
    && (forall t :: 0 <= t < |s.threads| ==> OwnEntry(s, s.threads[t]))
    && (forall t :: 0 <= t < |s.threads| ==> Fits(s.threads[t].op, s.threads[t].pc, ViewOf(s, k), k, Mirrored(s)))
    && Sane(ViewOf(s, k), quiet)
    && (Mirrored(s) ==> InStep(ViewOf(s, k)) || Storing(s.threads, k))
  }

  /******* The cache map under a step *******/

  ghost predicate MapKept(s: State, t: Tid, k: Key, m: Option<Move>)
    requires t < |s.threads|
  {
    m.Some? ==>
      && KeyMap(m.value.s, k) && OwnEntry(m.value.s, s.threads[t].(pc := m.value.pc))
      && |s.entries| <= |m.value.s.entries|
      && forall e :: 0 <= e < |s.entries| ==> m.value.s.entries[e].key == s.entries[e].key
  }

  // The moves of an entry's methods leave the cache map and the keys of the entries alone.
  ghost predicate SameMap(s: State, t: Tid, e: EntryId, m: Option<Move>)
    requires t < |s.threads|
  {
    m.Some? ==>
      && m.value.s.cache == s.cache && |m.value.s.entries| == |s.entries|
      && (forall e :: 0 <= e < |s.entries| ==> m.value.s.entries[e].key == s.entries[e].key)
      && (m.value.pc.Finished? || (WithEntry(m.value.pc) && m.value.pc.e == e))
      && (m.value.pc.Reading? || m.value.pc.Calling? ==> !s.threads[t].op.Set?)
  }

  lemma InstallSameMap(s: State, t: Tid, e: EntryId, v: Value, source: Source)
    requires t < |s.threads| && e < |s.entries|
    ensures SameMap(s, t, e, Install(s, t, e, v, source))
  {
  }

  lemma StoreSameMap(s: State, t: Tid, e: EntryId, v: Option<Value>)
    requires t < |s.threads| && e < |s.entries|
    ensures SameMap(s, t, e, Store(s, t, e, v))
  {
    if v.Some? {
      InstallSameMap(s, t, e, v.value, if s.threads[t].op.Set? then BySet else ByGetVal);
    }
  }

  lemma EntryMoveSameMap(s: State, t: Tid, c: Choice)
    requires t < |s.threads| && WithEntry(s.threads[t].pc) && s.threads[t].pc.e < |s.entries|
    ensures SameMap(s, t, s.threads[t].pc.e, EntryMove(s, t, c))
  {
    var op := s.threads[t].op;
    match s.threads[t].pc
    case AtEntry(e) =>
    case InEntry(e) => if op.Set? { StoreSameMap(s, t, e, op.val); }
    case Reading(e) =>
      if ReplyTo(s, s.entries[e].key, c).Value? {
        InstallSameMap(s, t, e, ReplyTo(s, s.entries[e].key, c).v, ByReadThrough);
      }
    case Calling(e) =>
      StoreSameMap(s, t, e, None);
      if c.reply.Value? { StoreSameMap(s, t, e, Some(c.reply.v)); }
    case Writing(e, v) =>
    case Written(e, v) => InstallSameMap(s, t, e, v, if op.Set? then BySet else ByGetVal);
  }

  lemma EntryMoveKeepsMap(s: State, t: Tid, c: Choice, k: Key)
    requires KeyMap(s, k) && t < |s.threads| && OwnEntry(s, s.threads[t]) && WithEntry(s.threads[t].pc)
    ensures MapKept(s, t, k, EntryMove(s, t, c))
  {
    EntryMoveSameMap(s, t, c);
    var m := EntryMove(s, t, c);
    if m.Some? {
      SameMapKeeps(s, m.value.s, k);
    }
  }

  lemma SameMapKeeps(s: State, s1: State, k: Key)
    requires KeyMap(s, k) && s1.cache == s.cache && |s1.entries| == |s.entries|
    requires forall e :: 0 <= e < |s.entries| ==> s1.entries[e].key == s.entries[e].key
    ensures KeyMap(s1, k)
  {
  }

  lemma InMapKeepsMap(s: State, t: Tid, k: Key)
    requires KeyMap(s, k) && t < |s.threads|
    ensures MapKept(s, t, k, InMapMove(s, t))
  {
    var op := s.threads[t].op;
    if (op.Get? || op.Set? || op.SetIfUnset?) && op.key !in s.cache {
      AddEntryKeepsMap(s, op.key, k);
      assert InMapMove(s, t).value == Move(AddEntry(s, op.key), AtEntry(|s.entries|));
    }
  }

  lemma DeletingKeepsMap(s: State, t: Tid, c: Choice, k: Key)
    requires KeyMap(s, k) && t < |s.threads| && s.threads[t].pc.Deleting? && (s.threads[t].op.Delete? ==> s.threads[t].op.key != k)
    ensures MapKept(s, t, k, MapMove(s, t, c))
  {
    if s.threads[t].op.Delete? {
      DropKeepsMap(s, s.threads[t].op.key, k);
    }
  }

  lemma WalkKeepsMap(s: State, t: Tid, c: Choice, k: Key)
    requires KeyMap(s, k) && t < |s.threads| && !s.threads[t].pc.InMap? && !s.threads[t].pc.Deleting?
    ensures MapKept(s, t, k, MapMove(s, t, c))
  {
    var m := MapMove(s, t, c);
    if m.Some? {
      SameMapKeeps(s, m.value.s, k);
    }
  }

  lemma MapMoveKeepsMap(s: State, t: Tid, c: Choice, k: Key)
    requires KeyMap(s, k) && Kept(s.threads, k) && t < |s.threads|
    ensures MapKept(s, t, k, MapMove(s, t, c))
  {
    var pc := s.threads[t].pc;
    if pc.InMap? {
      assert MapMove(s, t, c) == InMapMove(s, t);
      InMapKeepsMap(s, t, k);
    } else if pc.Deleting? {
      DeletingKeepsMap(s, t, c, k);
    } else {
      WalkKeepsMap(s, t, c, k);
    }
  }

  lemma DropKeepsMap(s: State, j: Key, k: Key)
    requires KeyMap(s, k) && j != k
    ensures KeyMap(Drop(s, j), k) && ViewOf(Drop(s, j), k) == ViewOf(s, k)
  {
  }

  lemma AddEntryKeepsMap(s: State, j: Key, k: Key)
    requires KeyMap(s, k) && j !in s.cache
    ensures KeyMap(AddEntry(s, j), k) && ViewOf(AddEntry(s, j), k) == ViewOf(s, k)
  {
  }

  /******* The register under a step *******/

  ghost function AfterReturn(v: View, op: Op, r: Result, k: Key): View {
    if r.Found? && Asks(op, k) then v.(events := v.events + [Returned(k, r.v)]) else v
  }

  ghost function AfterInstall(v: View, x: Value, source: Source, k: Key): View {
    v.(val := Some(x), events := v.events + [Installed(k, x, source)])
  }

  lemma ViewAfterReturn(s: State, t: Tid, r: Result, k: Key)
    requires t < |s.threads|
    ensures ViewOf(Return(s, t, r).value.s, k) == AfterReturn(ViewOf(s, k), s.threads[t].op, r, k)
  {
    var op := s.threads[t].op;
    if r.Found? && (op.Get? || op.SetIfUnset?) {
      KeyEventsAppend(s.history, Returned(op.key, r.v), k);
    }
  }

  lemma ViewAfterInstall(s: State, t: Tid, e: EntryId, x: Value, source: Source, k: Key)
    requires KeyMap(s, k) && t < |s.threads| && OwnEntry(s, s.threads[t]) && WithEntry(s.threads[t].pc) && s.threads[t].pc.e == e
    ensures var op := s.threads[t].op; var v := ViewOf(s, k);
      ViewOf(Install(s, t, e, x, source).value.s, k) ==
        if On(op, k) then AfterReturn(AfterInstall(v, x, source, k), op, if op.Set? then Ok else Found(x), k) else v
  {
    var op, key := s.threads[t].op, s.entries[e].key;
    var s' := s.(entries := s.entries[e := s.entries[e].(val := Some(x))], history := s.history + [Installed(key, x, source)]);
    KeyEventsAppend(s.history, Installed(key, x, source), k);
    assert ValueOf(s', k) == if key == k then Some(x) else ValueOf(s, k);
    assert ViewOf(s', k) == if On(op, k) then AfterInstall(ViewOf(s, k), x, source, k) else ViewOf(s, k);
    ViewAfterReturn(s', t, if op.Set? then Ok else Found(x), k);
  }

  lemma ReturnIsSane(v: View, op: Op, r: Result, k: Key, quiet: bool, mirrored: bool)
    requires Sane(v, quiet) && (r.Found? && Asks(op, k) ==> v.val == Some(r.v))
    ensures Sane(AfterReturn(v, op, r, k), quiet) && Fits(op, Finished(r), AfterReturn(v, op, r, k), k, mirrored)
  {
    if r.Found? && Asks(op, k) {
      ReadIsSane(v, Returned(k, r.v), quiet);
    }
  }

  lemma ReadIsSane(v: View, e: Event, quiet: bool)
    requires Sane(v, quiet) && e.Returned? && v.val == Some(e.v)
    ensures Sane(v.(events := v.events + [e]), quiet)
  {
    ReadsLastAppend(v.events, e);
  }

  lemma InstallIsSane(v: View, x: Value, source: Source, k: Key, quiet: bool)
    requires Sane(v, quiet) && (quiet ==> v.val.None?)
    ensures Sane(AfterInstall(v, x, source, k), quiet)
  {
    ReadsLastAppend(v.events, Installed(k, x, source));
    if quiet {
      NothingYet(v.events);
    }
  }

  // Goroutine t has locked the entry of k.
  ghost predicate Holds(s: State, t: Tid, k: Key)
    requires t < |s.threads|
  {
    k in s.cache && HoldsEntry(s.threads[t].pc) == Some(s.cache[k])
  }

  // What a move may do to k: nothing, or with the entry locked a change after which the backing
  // cache and the entry are in step, unless the entry is yet to be assigned.
  ghost predicate KeyKept(s: State, t: Tid, k: Key, quiet: bool, m: Option<Move>)
    requires t < |s.threads|
  {
    m.Some? ==>
      var op := s.threads[t].op;
      var v, v' := ViewOf(s, k), ViewOf(m.value.s, k);
      && Sane(v', quiet) && Fits(op, m.value.pc, v', k, Mirrored(s)) && v.events <= v'.events
      && ( || (v'.val == v.val && v'.stored == v.stored && !(On(op, k) && s.threads[t].pc.Written?))
           || (Holds(s, t, k) && (Mirrored(s) ==> InStep(v') || (On(op, k) && m.value.pc.Written?))))
  }

  // A goroutine on its way through the methods of the entry of k.
  ghost predicate AtKey(s: State, t: Tid, k: Key, quiet: bool) {
    && t < |s.threads| && KeyMap(s, k) && OwnEntry(s, s.threads[t]) && WithEntry(s.threads[t].pc)
    && On(s.threads[t].op, k) && (quiet ==> !s.threads[t].op.Set?)
    && Sane(ViewOf(s, k), quiet) && Fits(s.threads[t].op, s.threads[t].pc, ViewOf(s, k), k, Mirrored(s))
  }

  lemma ReturnKeepsKey(s: State, t: Tid, r: Result, k: Key, quiet: bool)
    requires AtKey(s, t, k, quiet) && !s.threads[t].pc.Written?
    requires r.Found? && Asks(s.threads[t].op, k) ==> ValueOf(s, k) == Some(r.v)
    ensures KeyKept(s, t, k, quiet, Return(s, t, r))
  {
    ViewAfterReturn(s, t, r, k);
    ReturnIsSane(ViewOf(s, k), s.threads[t].op, r, k, quiet, Mirrored(s));
  }

  lemma InstallKeepsKey(s: State, t: Tid, x: Value, source: Source, k: Key, quiet: bool)
    requires AtKey(s, t, k, quiet) && Holds(s, t, k) && (quiet ==> ValueOf(s, k).None?)
    requires Mirrored(s) ==> StoredOf(s.backing, k) == Some(x)
    ensures KeyKept(s, t, k, quiet, Install(s, t, s.threads[t].pc.e, x, source))
  {
    var op := s.threads[t].op;
    ViewAfterInstall(s, t, s.threads[t].pc.e, x, source, k);
    InstallIsSane(ViewOf(s, k), x, source, k, quiet);
    ReturnIsSane(AfterInstall(ViewOf(s, k), x, source, k), op, if op.Set? then Ok else Found(x), k, quiet, Mirrored(s));
  }

  lemma StoreKeepsKey(s: State, t: Tid, x: Option<Value>, k: Key, quiet: bool)
    requires AtKey(s, t, k, quiet) && Holds(s, t, k) && !s.threads[t].pc.Written?
    requires !s.threads[t].op.Set? ==> ValueOf(s, k).None?
    requires Mirrored(s) && s.threads[t].op.SetIfUnset? ==> StoredOf(s.backing, k).None?
    ensures KeyKept(s, t, k, quiet, Store(s, t, s.threads[t].pc.e, x))
  {
    if x.None? {
      ReturnKeepsKey(s, t, Failed, k, quiet);
    } else if s.backing.None? {
      InstallKeepsKey(s, t, x.value, if s.threads[t].op.Set? then BySet else ByGetVal, k, quiet);
    }
  }

  lemma MissKeepsKey(s: State, t: Tid, k: Key, quiet: bool)
    requires AtKey(s, t, k, quiet) && !s.threads[t].pc.Written?
    requires ValueOf(s, k).None? && (Mirrored(s) ==> StoredOf(s.backing, k).None?)
    ensures KeyKept(s, t, k, quiet, Miss(s, t, s.threads[t].pc.e))
  {
    if !s.threads[t].op.SetIfUnset? {
      ReturnKeepsKey(s, t, NoSuchEntry, k, quiet);
    }
  }

  lemma LookKeepsKey(s: State, t: Tid, k: Key, quiet: bool)
    requires AtKey(s, t, k, quiet) && s.threads[t].pc.InEntry?
    ensures KeyKept(s, t, k, quiet, LookMove(s, t, s.threads[t].pc.e))
  {
    var op, e := s.threads[t].op, s.threads[t].pc.e;
    assert s.cache[k] == e;
    if op.Set? {
      StoreKeepsKey(s, t, op.val, k, quiet);
    } else if s.entries[e].val.Some? {
      ReturnKeepsKey(s, t, Found(s.entries[e].val.value), k, quiet);
    } else if s.backing.None? {
      MissKeepsKey(s, t, k, quiet);
    }
  }

  lemma ReadKeepsKey(s: State, t: Tid, c: Choice, k: Key, quiet: bool)
    requires AtKey(s, t, k, quiet) && s.threads[t].pc.Reading? && !s.threads[t].op.Set?
    ensures KeyKept(s, t, k, quiet, ReadMove(s, t, s.threads[t].pc.e, c))
  {
    assert s.cache[k] == s.threads[t].pc.e;
    match ReplyTo(s, k, c)
    case Value(x) => InstallKeepsKey(s, t, x, ByReadThrough, k, quiet);
    case Missing => MissKeepsKey(s, t, k, quiet);
    case Fault => ReturnKeepsKey(s, t, Failed, k, quiet);
  }

  lemma CallKeepsKey(s: State, t: Tid, c: Choice, k: Key, quiet: bool)
    requires AtKey(s, t, k, quiet) && s.threads[t].pc.Calling?
    ensures KeyKept(s, t, k, quiet, CallMove(s, t, s.threads[t].pc.e, c))
  {
    assert s.cache[k] == s.threads[t].pc.e;
    match c.reply
    case Value(x) => StoreKeepsKey(s, t, Some(x), k, quiet);
    case Missing => StoreKeepsKey(s, t, None, k, quiet);
    case Fault => ReturnKeepsKey(s, t, Failed, k, quiet);
  }

  lemma WriteKeepsKey(s: State, t: Tid, c: Choice, k: Key, quiet: bool)
    requires AtKey(s, t, k, quiet) && s.threads[t].pc.Writing?
    ensures KeyKept(s, t, k, quiet, WriteMove(s, t, s.threads[t].pc.e, s.threads[t].pc.v, c))
  {
    var e, x := s.threads[t].pc.e, s.threads[t].pc.v;
    assert s.cache[k] == e;
    if c.reply.Fault? || s.backing.None? {
      ReturnKeepsKey(s, t, Failed, k, quiet);
    } else {
      var s1 := s.(backing := Some(s.backing.value[k := x]));
      assert ViewOf(s1, k) == ViewOf(s, k).(stored := Some(x));
    }
  }

  lemma WrittenKeepsKey(s: State, t: Tid, k: Key, quiet: bool)
    requires AtKey(s, t, k, quiet) && s.threads[t].pc.Written?
    ensures var pc := s.threads[t].pc;
      KeyKept(s, t, k, quiet, Install(s, t, pc.e, pc.v, if s.threads[t].op.Set? then BySet else ByGetVal))
  {
    assert s.cache[k] == s.threads[t].pc.e;
    InstallKeepsKey(s, t, s.threads[t].pc.v, if s.threads[t].op.Set? then BySet else ByGetVal, k, quiet);
  }

  lemma EntryMoveKeepsKey(s: State, t: Tid, c: Choice, k: Key, quiet: bool)
    requires AtKey(s, t, k, quiet)
    ensures KeyKept(s, t, k, quiet, EntryMove(s, t, c))
  {
    match s.threads[t].pc
    case AtEntry(e) =>
    case InEntry(e) => LookKeepsKey(s, t, k, quiet);
    case Reading(e) => ReadKeepsKey(s, t, c, k, quiet);
    case Calling(e) => CallKeepsKey(s, t, c, k, quiet);
    case Writing(e, v) => WriteKeepsKey(s, t, c, k, quiet);
    case Written(e, v) => WrittenKeepsKey(s, t, k, quiet);
  }

  // A goroutine at work on another key does not touch what there is to see of k.
  ghost predicate SameView(s: State, k: Key, m: Option<Move>) {
    m.Some? ==> ViewOf(m.value.s, k) == ViewOf(s, k)
  }

  ghost predicate OffKey(s: State, t: Tid, k: Key) {
    t < |s.threads| && KeyMap(s, k) && OwnEntry(s, s.threads[t]) && !On(s.threads[t].op, k)
  }

  lemma StoreSameView(s: State, t: Tid, x: Option<Value>, k: Key)
    requires OffKey(s, t, k) && WithEntry(s.threads[t].pc)
    ensures SameView(s, k, Store(s, t, s.threads[t].pc.e, x))
  {
    if x.None? {
      ViewAfterReturn(s, t, Failed, k);
    } else if s.backing.None? {
      ViewAfterInstall(s, t, s.threads[t].pc.e, x.value, if s.threads[t].op.Set? then BySet else ByGetVal, k);
    }
  }

  lemma LookSameView(s: State, t: Tid, k: Key)
    requires OffKey(s, t, k) && s.threads[t].pc.InEntry?
    ensures SameView(s, k, LookMove(s, t, s.threads[t].pc.e))
  {
    var op, e := s.threads[t].op, s.threads[t].pc.e;
    if op.Set? {
      StoreSameView(s, t, op.val, k);
    } else if s.entries[e].val.Some? {
      ViewAfterReturn(s, t, Found(s.entries[e].val.value), k);
    } else {
      ViewAfterReturn(s, t, NoSuchEntry, k);
    }
  }

  lemma ReadSameView(s: State, t: Tid, c: Choice, k: Key)
    requires OffKey(s, t, k) && s.threads[t].pc.Reading?
    ensures SameView(s, k, ReadMove(s, t, s.threads[t].pc.e, c))
  {
    var e := s.threads[t].pc.e;
    match ReplyTo(s, s.entries[e].key, c)
    case Value(x) => ViewAfterInstall(s, t, e, x, ByReadThrough, k);
    case Missing => ViewAfterReturn(s, t, NoSuchEntry, k);
    case Fault => ViewAfterReturn(s, t, Failed, k);
  }

  lemma WriteSameView(s: State, t: Tid, c: Choice, k: Key)
    requires OffKey(s, t, k) && s.threads[t].pc.Writing?
    ensures SameView(s, k, WriteMove(s, t, s.threads[t].pc.e, s.threads[t].pc.v, c))
  {
    ViewAfterReturn(s, t, Failed, k);
  }

  lemma EntryMoveSameView(s: State, t: Tid, c: Choice, k: Key)
    requires OffKey(s, t, k) && WithEntry(s.threads[t].pc)
    ensures SameView(s, k, EntryMove(s, t, c))
  {
    match s.threads[t].pc
    case AtEntry(e) =>
    case InEntry(e) => LookSameView(s, t, k);
    case Reading(e) => ReadSameView(s, t, c, k);
    case Calling(e) =>
      ViewAfterReturn(s, t, Failed, k);
      StoreSameView(s, t, if c.reply.Value? then Some(c.reply.v) else None, k);
    case Writing(e, v) => WriteSameView(s, t, c, k);
    case Written(e, v) => ViewAfterInstall(s, t, e, v, if s.threads[t].op.Set? then BySet else ByGetVal, k);
  }

  lemma InMapSameView(s: State, t: Tid, k: Key)
    requires KeyMap(s, k) && t < |s.threads|
    ensures SameView(s, k, InMapMove(s, t))
  {
    var op := s.threads[t].op;
    if (op.Get? || op.Set? || op.SetIfUnset?) && op.key !in s.cache {
      AddEntryKeepsMap(s, op.key, k);
    }
  }

  lemma DeletingSameView(s: State, t: Tid, c: Choice, k: Key)
    requires KeyMap(s, k) && t < |s.threads| && s.threads[t].pc.Deleting? && (s.threads[t].op.Delete? ==> s.threads[t].op.key != k)
    ensures SameView(s, k, MapMove(s, t, c))
  {
    ViewAfterReturn(s, t, Failed, k);
    if s.threads[t].op.Delete? {
      DropKeepsMap(s, s.threads[t].op.key, k);
      ViewAfterReturn(Drop(s, s.threads[t].op.key), t, Ok, k);
    }
  }

  lemma MapMoveSameView(s: State, t: Tid, c: Choice, k: Key)
    requires KeyMap(s, k) && Kept(s.threads, k) && t < |s.threads|
    ensures SameView(s, k, MapMove(s, t, c))
  {
    var pc := s.threads[t].pc;
    if pc.InMap? {
      assert MapMove(s, t, c) == InMapMove(s, t);
      InMapSameView(s, t, k);
    } else if pc.Deleting? {
      DeletingSameView(s, t, c, k);
    } else {
      ViewAfterReturn(s, t, Ok, k);
    }
  }

  // Between the operations of the map no program point relies on anything.
  lemma MapMoveKeepsKey(s: State, t: Tid, c: Choice, k: Key, quiet: bool)
    requires KeyMap(s, k) && Kept(s.threads, k) && t < |s.threads| && Sane(ViewOf(s, k), quiet)
    requires !WithEntry(s.threads[t].pc) && !CleaningUp(s.threads[t].pc)
    ensures KeyKept(s, t, k, quiet, MapMove(s, t, c))
  {
    MapMoveSameView(s, t, c, k);
    if MapMove(s, t, c).Some? {
      MapMoveGoes(s, t, c);
    }
  }

  lemma MapMoveGoes(s: State, t: Tid, c: Choice)
    requires t < |s.threads| && MapMove(s, t, c).Some?
    ensures var pc := MapMove(s, t, c).value.pc;
      !pc.Reading? && !pc.Calling? && !pc.Writing? && !pc.Written? && !(pc.Finished? && pc.result.Found?)
  {
  }

  lemma MoveKeepsKey(s: State, t: Tid, c: Choice, k: Key, quiet: bool)
    requires KeyInv(s, k, quiet) && t < |s.threads|
    ensures MapKept(s, t, k, NextMove(s, t, c)) && KeyKept(s, t, k, quiet, NextMove(s, t, c))
  {
    var th := s.threads[t];
    assert OwnEntry(s, th) && Fits(th.op, th.pc, ViewOf(s, k), k, Mirrored(s));
    if WithEntry(th.pc) {
      EntryMoveKeepsMap(s, t, c, k);
      if On(th.op, k) {
        EntryMoveKeepsKey(s, t, c, k, quiet);
      } else {
        EntryMoveSameView(s, t, c, k);
      }
    } else {
      MapMoveKeepsMap(s, t, c, k);
      MapMoveKeepsKey(s, t, c, k, quiet);
    }
  }

  // While one goroutine has locked the entry of k, any other at k still waits for it.
  lemma OthersOut(s: State, t: Tid, u: Tid, k: Key)
    requires Inv(s) && t < |s.threads| && u < |s.threads| && t != u && Holds(s, t, k)
    requires KeyMap(s, k) && OwnEntry(s, s.threads[u]) && WithEntry(s.threads[u].pc) && s.threads[u].op.key == k
    ensures s.threads[u].pc.AtEntry?
  {
    EntryHolder(s, t, s.cache[k]);
    EntryHolder(s, u, s.cache[k]);
  }

  // What a step of t leaves to the other goroutines.
  lemma OthersKept(s: State, t: Tid, u: Tid, m: Move, k: Key, quiet: bool)
    requires Inv(s) && KeyInv(s, k, quiet) && t < |s.threads| && u < |s.threads| && t != u
    requires MapKept(s, t, k, Some(m)) && KeyKept(s, t, k, quiet, Some(m))
    ensures OwnEntry(m.s, s.threads[u]) && Fits(s.threads[u].op, s.threads[u].pc, ViewOf(m.s, k), k, Mirrored(s))
  {
    var th := s.threads[u];
    assert OwnEntry(s, th) && Fits(th.op, th.pc, ViewOf(s, k), k, Mirrored(s));
    if Holds(s, t, k) && WithEntry(th.pc) && th.op.key == k {
      OthersOut(s, t, u, k);
    }
  }

  lemma StaysInStep(s: State, t: Tid, m: Move, s': State, k: Key, quiet: bool)
    requires t < |s.threads| && KeyKept(s, t, k, quiet, Some(m)) && (InStep(ViewOf(s, k)) || Storing(s.threads, k)) && Mirrored(s)
    requires s'.threads == s.threads[t := s.threads[t].(pc := m.pc)] && ViewOf(s', k) == ViewOf(m.s, k)
    ensures InStep(ViewOf(s', k)) || Storing(s'.threads, k)
  {
    if !InStep(ViewOf(s', k)) {
      if !InStep(ViewOf(s, k)) && !(Holds(s, t, k) && On(s.threads[t].op, k) && m.pc.Written?) {
        var u :| 0 <= u < |s.threads| && On(s.threads[u].op, k) && s.threads[u].pc.Written?;
        assert u != t ==> s'.threads[u] == s.threads[u];
      } else {
        assert s'.threads[t].op == s.threads[t].op && s'.threads[t].pc == m.pc;
      }
    }
  }

  // What the step itself adds to the move: the locks and the program point.
  lemma StepIsMove(s: State, t: Tid, c: Choice, s': State) returns (m: Move)
    requires Inv(s) && Takes(s, t, c, s')
    ensures NextMove(s, t, c) == Some(m) && Mirrored(m.s) == Mirrored(s) == Mirrored(s')
    ensures s'.threads == s.threads[t := s.threads[t].(pc := m.pc)]
    ensures s'.cache == m.s.cache && s'.entries == m.s.entries && s'.history == m.s.history && s'.backing == m.s.backing
  {
    assert Gives(s, t, c, Step(s, t, c));
    MoveIsGood(s, t, c);
    m := NextMove(s, t, c).value;
  }

  lemma SameOps(threads: seq<Thread>, t: Tid, pc: PC, k: Key, quiet: bool)
    requires t < |threads| && Kept(threads, k) && (quiet ==> Quiet(threads, k))
    ensures var threads' := threads[t := threads[t].(pc := pc)]; Kept(threads', k) && (quiet ==> Quiet(threads', k))
  {
  }

  lemma StepKeepsKey(s: State, t: Tid, c: Choice, s': State, k: Key, quiet: bool)
    requires Inv(s) && KeyInv(s, k, quiet) && Takes(s, t, c, s')
    ensures KeyInv(s', k, quiet)
  {
    var m := StepIsMove(s, t, c, s');
    MoveKeepsKey(s, t, c, k, quiet);
    assert ViewOf(s', k) == ViewOf(m.s, k);
    SameMapKeeps(m.s, s', k);
    SameOps(s.threads, t, m.pc, k, quiet);
    if Mirrored(s) {
      StaysInStep(s, t, m, s', k, quiet);
    }
    forall u | 0 <= u < |s'.threads|
      ensures OwnEntry(s', s'.threads[u]) && Fits(s'.threads[u].op, s'.threads[u].pc, ViewOf(s', k), k, Mirrored(s'))
    {
      if u != t {
        OthersKept(s, t, u, m, k, quiet);
      }
    }
  }

  lemma InitIsKept(s: State, k: Key, quiet: bool)
    requires Init(s) && Kept(s.threads, k) && (quiet ==> Quiet(s.threads, k))
    ensures KeyInv(s, k, quiet)
  {
    assert ViewOf(s, k) == View(None, StoredOf(s.backing, k), []);
    forall t | 0 <= t < |s.threads|
      ensures OwnEntry(s, s.threads[t]) && Fits(s.threads[t].op, s.threads[t].pc, ViewOf(s, k), k, Mirrored(s))
    {
      assert s.threads[t].pc == Start;
    }
  }

  lemma NextKeepsKey(s: State, s': State, k: Key, quiet: bool)
    requires Inv(s) && KeyInv(s, k, quiet) && Next(s, s')
    ensures KeyInv(s', k, quiet)
  {
    var t: Tid, c :| Takes(s, t, c, s');
    StepKeepsKey(s, t, c, s', k, quiet);
  }

  // The state that run is in at n.
  ghost predicate KeyInvAt(run: seq<State>, k: Key, quiet: bool, n: nat) {
    forall s :: n < |run| && run[n] == s ==> KeyInv(s, k, quiet)
  }

  lemma StepAtKeepsKey(run: seq<State>, k: Key, quiet: bool, n: nat)
    requires Interleaving(run) && 0 < n < |run| && KeyInvAt(run, k, quiet, n - 1)
    ensures KeyInvAt(run, k, quiet, n)
  {
    RunKeepsInv(run, n - 1);
    assert KeyInv(run[n - 1], k, quiet) && NextAt(run, n - 1);
    NextKeepsKey(run[n - 1], run[n], k, quiet);
  }

  lemma {:induction false} RunKeepsKey(run: seq<State>, k: Key, quiet: bool, n: nat)
    requires Interleaving(run) && Kept(run[0].threads, k) && (quiet ==> Quiet(run[0].threads, k)) && n < |run|
    ensures KeyInvAt(run, k, quiet, n)
  {
    if n == 0 {
      InitIsKept(run[0], k, quiet);
    } else {
      RunKeepsKey(run, k, quiet, n - 1);
      StepAtKeepsKey(run, k, quiet, n);
    }
  }

  /******* What a caller sees *******/

  ghost predicate Succeeded(th: Thread, k: Key) {
    Asks(th.op, k) && th.pc.Finished? && th.pc.result.Found?
  }

  // Nothing happened to the key yet, or one value was installed, once, and only that was returned.
  ghost predicate WrittenOnce(events: seq<Event>, v: Option<Value>) {
    if v.None? then events == []
    else
      && events != [] && events[0].Installed? && events[0].v == v.value
      && forall i :: 1 <= i < |events| ==> events[i].Returned? && events[i].v == v.value
  }

  lemma {:induction false} OnceIsLast(events: seq<Event>, i: nat)
    requires ReadsLast(events) && InstalledOnce(events) && 0 < i <= |events|
    ensures events[0].Installed? && LastInstalled(events[..i]) == Some(events[0].v)
  {
    assert events[..0] == [];
    if i > 1 {
      OnceIsLast(events, i - 1);
      assert events[..i][..i - 1] == events[..i - 1];
    }
  }

  lemma SaneIsWrittenOnce(v: View)
    requires Sane(v, true)
    ensures WrittenOnce(v.events, v.val)
  {
    if v.events != [] {
      assert v.events[..|v.events|] == v.events;
      forall i | 0 < i <= |v.events| ensures v.events[0].Installed? && LastInstalled(v.events[..i]) == Some(v.events[0].v) {
        OnceIsLast(v.events, i);
      }
    }
  }

  // The entry of k and the backing cache agree on its value, if the entry has one.
  ghost predicate StoreAgrees(s: State, k: Key) {
    ValueOf(s, k).Some? ==> StoredOf(s.backing, k) == ValueOf(s, k)
  }

  lemma UnlockedIsInStep(s: State, k: Key)
    requires Inv(s) && KeyInv(s, k, false) && Mirrored(s) && k in s.cache && s.cache[k] !in s.locks
    ensures StoreAgrees(s, k)
  {
    if Storing(s.threads, k) {
      var t :| 0 <= t < |s.threads| && On(s.threads[t].op, k) && s.threads[t].pc.Written?;
      assert OwnEntry(s, s.threads[t]);
      EntryHolder(s, t, s.cache[k]);
    }
  }

  // In every run that does not delete k or clean up, with Set, Get and SetIfUnset on k at will and
  // whatever happens to other keys: k behaves as one register. Every value returned is the one
  // installed last before it; with a backing cache that answers with what it stores, the entry and
  // the backing cache agree whenever the entry is unlocked, and getVal is only ever called while
  // neither has a value.
  lemma KeyIsRegister(run: seq<State>, k: Key, n: nat)
    requires Interleaving(run) && Kept(run[0].threads, k) && n < |run|
    ensures var s := run[n];
      && ReadsLast(KeyEvents(s.history, k)) && LastInstalled(KeyEvents(s.history, k)) == ValueOf(s, k)
      && (forall t :: 0 <= t < |s.threads| && Succeeded(s.threads[t], k) ==>
            Returned(k, s.threads[t].pc.result.v) in KeyEvents(s.history, k))
      && (Mirrored(s) && k in s.cache && s.cache[k] !in s.locks ==> StoreAgrees(s, k))
      && (forall t :: 0 <= t < |s.threads| && s.threads[t].op == SetIfUnset(k) && s.threads[t].pc.Calling? ==>
            ValueOf(s, k).None? && (Mirrored(s) ==> StoredOf(s.backing, k).None?))
  {
    RunKeepsKey(run, k, false, n);
    RunKeepsInv(run, n);
    var s := run[n];
    assert KeyInv(s, k, false);
    if Mirrored(s) && k in s.cache && s.cache[k] !in s.locks {
      UnlockedIsInStep(s, k);
    }
    forall t | 0 <= t < |s.threads|
      ensures Succeeded(s.threads[t], k) ==> Returned(k, s.threads[t].pc.result.v) in KeyEvents(s.history, k)
      ensures s.threads[t].op == SetIfUnset(k) && s.threads[t].pc.Calling? ==>
        ValueOf(s, k).None? && (Mirrored(s) ==> StoredOf(s.backing, k).None?)
    {
      assert Fits(s.threads[t].op, s.threads[t].pc, ViewOf(s, k), k, Mirrored(s));
    }
  }

  ghost predicate OnlyFinds(threads: seq<Thread>, k: Key, v: Option<Value>) {
    forall t :: 0 <= t < |threads| && Succeeded(threads[t], k) ==> Some(threads[t].pc.result.v) == v
  }

  // In every run that leaves k to Get and SetIfUnset, whatever the backing cache and getVal
  // answer and whatever happens to other keys: a value is installed for k at most once, by getVal
  // or by reading through, and every successful call on k returns that value.
  lemma MissIsAtomic(run: seq<State>, k: Key, n: nat)
    requires Interleaving(run) && Quiet(run[0].threads, k) && n < |run|
    ensures exists v :: WrittenOnce(KeyEvents(run[n].history, k), v) && OnlyFinds(run[n].threads, k, v)
  {
    RunKeepsKey(run, k, true, n);
    var s := run[n];
    assert KeyInv(s, k, true);
    SaneIsWrittenOnce(ViewOf(s, k));
    forall t | 0 <= t < |s.threads| && Succeeded(s.threads[t], k) ensures Some(s.threads[t].pc.result.v) == ValueOf(s, k) {
      assert Fits(s.threads[t].op, s.threads[t].pc, ViewOf(s, k), k, Mirrored(s));
    }
    assert WrittenOnce(KeyEvents(s.history, k), ValueOf(s, k)) && OnlyFinds(s.threads, k, ValueOf(s, k));
  }
}
