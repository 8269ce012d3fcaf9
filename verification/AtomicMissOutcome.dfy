/**
 What the operations of the atomic-miss cache have done when they return, in every interleaving
 (go/atomic_miss_cache/atomic_miss_cache.go). The deeds are read off the states before and after a
 step and the replies in it.
 */
module AtomicMissOutcome {
  import opened Common
  import opened AtomicMissConcurrent

  datatype Deed =
    | Puts(key: Key, v: Value, source: Source)  // puts v into the entry of the key
    | Writes(key: Key, v: Value)                // writes v to the backing cache
    | Hits(key: Key, v: Value)                  // finds v in the entry of the key
    | Misses(key: Key)                          // finds no value, in the backing cache neither
    | Calls(reply: Reply)                       // calls getVal
    | Drops(key: Key)                           // sees to it that the cache and the backing cache are without the key
    | Removes(key: Key)                         // takes the key away from one of them
    | Faults                                    // meets an error of the backing cache
    | Starts(key: Key)                          // finds the key in the cache, which is locked
    | Scans(key: Key)                           // looks at the entry of the key
    | Rejects(key: Key)                         // and finds no value, or one that shouldDelete selects
    | Visits(key: Key)                          // calls fn on the entry of the key, if it has a value

  ghost predicate AtOwnEntry(s: State, pc: PC, entry: Entry) {
    WithEntry(pc) && pc.e < |s.entries| && s.entries[pc.e] == entry
  }

  // The step of t from s to s' with the choice c is such a deed.
  ghost predicate Does(s: State, t: Tid, c: Choice, s': State, deed: Deed)
    requires t < |s.threads|
  {
    var pc := s.threads[t].pc;
    match deed
    case Puts(k, v, source) =>
      && WithEntry(pc) && pc.e < |s.entries| && s.entries[pc.e].key == k && s'.entries == s.entries[pc.e := Entry(k, Some(v))]
      && s.history < s'.history && s'.history[|s.history|] == Installed(k, v, source)
      && (source == ByReadThrough && Mirrored(s) ==> k in s.backing.value && s.backing.value[k] == v)
    case Writes(k, v) => s.backing.Some? && s'.backing == Some(s.backing.value[k := v])
    case Hits(k, v) => AtOwnEntry(s, pc, Entry(k, Some(v)))
    case Misses(k) => AtOwnEntry(s, pc, Entry(k, None)) && (Mirrored(s) ==> k !in s.backing.value)
    case Calls(reply) => pc.Calling? && c.reply == reply
    case Drops(k) => s'.cache == s.cache - {k} && (s.backing.Some? ==> s'.backing == Some(s.backing.value - {k}))
    case Removes(k) =>
      || (k in s.cache && k !in s'.cache)
      || (s.backing.Some? && k in s.backing.value && (s'.backing.Some? ==> k !in s'.backing.value))
    case Faults => s.backing.Some? && c.reply.Fault? && (pc.Reading? || pc.Writing? || pc.Deleting? || pc.PurgeIn?)
    case Starts(k) => pc.InMap? && k in s.cache
    case Scans(k) => pc.ScanIn? && pc.k == k
    case Rejects(k) =>
      && pc.ScanIn? && pc.k == k && k in pc.todo && pc.todo[k] < |s.entries|
      && (s.entries[pc.todo[k]].val.None? || c.flag)
    case Visits(k) => pc.WalkIn? && pc.k == k
  }

  /******* What holds in between *******/

  ghost predicate CacheKeyed(s: State) {
    forall j :: j in s.cache ==> s.cache[j] < |s.entries| && s.entries[s.cache[j]].key == j
  }

  // In the middle of a miss the entry has no value; and it is one of SetIfUnset from the call on.
  ghost predicate Unset(s: State, th: Thread) {
    var pc := th.pc;
    && (pc.Reading? || pc.Writing? || pc.Written? ==> s.backing.Some?)
    && (pc.Calling? ==> th.op.SetIfUnset?) && (pc.Writing? || pc.Written? ==> th.op.Set? || th.op.SetIfUnset?)
    && (pc.Reading? || pc.Calling? || ((pc.Writing? || pc.Written?) && !th.op.Set?) ==>
          pc.e < |s.entries| && s.entries[pc.e].val.None?)
  }

  ghost predicate Placed(s: State, th: Thread) {
    OwnEntry(s, th) && Unset(s, th)
  }

  ghost predicate EntryInv(s: State) {
    CacheKeyed(s) && forall t :: 0 <= t < |s.threads| ==> Placed(s, s.threads[t])
  }

  // A move changes the value of an entry only with the entry locked.
  ghost predicate EntriesKept(s: State, t: Tid, m: Option<Move>)
    requires t < |s.threads|
  {
    m.Some? ==>
      var s1 := m.value.s;
      && CacheKeyed(s1) && Placed(s1, s.threads[t].(pc := m.value.pc))
      && s1.backing.Some? == s.backing.Some? && |s.entries| <= |s1.entries|
      && forall e :: 0 <= e < |s.entries| ==>
           s1.entries[e].key == s.entries[e].key && (s1.entries[e].val == s.entries[e].val || HoldsEntry(s.threads[t].pc) == Some(e))
  }

  lemma ReturnKeepsEntries(s: State, t: Tid, r: Result)
    requires t < |s.threads| && CacheKeyed(s)
    ensures EntriesKept(s, t, Return(s, t, r))
  {
  }

  lemma InstallKeepsEntries(s: State, t: Tid, e: EntryId, v: Value, source: Source)
    requires t < |s.threads| && CacheKeyed(s) && e < |s.entries| && HoldsEntry(s.threads[t].pc) == Some(e)
    ensures EntriesKept(s, t, Install(s, t, e, v, source))
  {
  }

  lemma StoreKeepsEntries(s: State, t: Tid, e: EntryId, v: Option<Value>)
    requires t < |s.threads| && CacheKeyed(s) && Placed(s, s.threads[t])
    requires (s.threads[t].pc == InEntry(e) && s.threads[t].op.Set?) || s.threads[t].pc == Calling(e)
    ensures EntriesKept(s, t, Store(s, t, e, v))
  {
    if v.None? {
      ReturnKeepsEntries(s, t, Failed);
    } else if s.backing.None? {
      InstallKeepsEntries(s, t, e, v.value, if s.threads[t].op.Set? then BySet else ByGetVal);
    }
  }

  lemma LookKeepsEntries(s: State, t: Tid, e: EntryId)
    requires t < |s.threads| && CacheKeyed(s) && Placed(s, s.threads[t]) && s.threads[t].pc == InEntry(e)
    ensures EntriesKept(s, t, LookMove(s, t, e))
  {
    var op := s.threads[t].op;
    if op.Set? {
      StoreKeepsEntries(s, t, e, op.val);
    } else if s.entries[e].val.Some? {
      ReturnKeepsEntries(s, t, Found(s.entries[e].val.value));
    } else {
      ReturnKeepsEntries(s, t, NoSuchEntry);
    }
  }

  lemma ReadKeepsEntries(s: State, t: Tid, e: EntryId, c: Choice)
    requires t < |s.threads| && CacheKeyed(s) && Placed(s, s.threads[t]) && s.threads[t].pc == Reading(e)
    ensures EntriesKept(s, t, ReadMove(s, t, e, c))
  {
    match ReplyTo(s, s.entries[e].key, c)
    case Value(v) => InstallKeepsEntries(s, t, e, v, ByReadThrough);
    case Missing => ReturnKeepsEntries(s, t, NoSuchEntry);
    case Fault => ReturnKeepsEntries(s, t, Failed);
  }

  lemma CallKeepsEntries(s: State, t: Tid, e: EntryId, c: Choice)
    requires t < |s.threads| && CacheKeyed(s) && Placed(s, s.threads[t]) && s.threads[t].pc == Calling(e)
    ensures EntriesKept(s, t, CallMove(s, t, e, c))
  {
    match c.reply
    case Value(v) => StoreKeepsEntries(s, t, e, Some(v));
    case Missing => StoreKeepsEntries(s, t, e, None);
    case Fault => ReturnKeepsEntries(s, t, Failed);
  }

  lemma WriteKeepsEntries(s: State, t: Tid, e: EntryId, v: Value, c: Choice)
    requires t < |s.threads| && CacheKeyed(s) && Placed(s, s.threads[t]) && s.threads[t].pc == Writing(e, v)
    ensures EntriesKept(s, t, WriteMove(s, t, e, v, c))
  {
    ReturnKeepsEntries(s, t, Failed);
  }

  lemma EntryMoveKeepsEntries(s: State, t: Tid, c: Choice)
    requires t < |s.threads| && CacheKeyed(s) && Placed(s, s.threads[t]) && WithEntry(s.threads[t].pc)
    ensures EntriesKept(s, t, EntryMove(s, t, c))
  {
    match s.threads[t].pc
    case AtEntry(e) =>
    case InEntry(e) => LookKeepsEntries(s, t, e);
    case Reading(e) => ReadKeepsEntries(s, t, e, c);
    case Calling(e) => CallKeepsEntries(s, t, e, c);
    case Writing(e, v) => WriteKeepsEntries(s, t, e, v, c);
    case Written(e, v) => InstallKeepsEntries(s, t, e, v, if s.threads[t].op.Set? then BySet else ByGetVal);
  }

  lemma CleanupMoveKeepsEntries(s: State, t: Tid, c: Choice)
    requires t < |s.threads| && CacheKeyed(s) && Placed(s, s.threads[t]) && CleaningUp(s.threads[t].pc)
    ensures EntriesKept(s, t, CleanupMove(s, t, c))
  {
    ReturnKeepsEntries(s, t, Ok);
    ReturnKeepsEntries(s, t, Failed);
  }

  lemma InMapKeepsEntries(s: State, t: Tid)
    requires t < |s.threads| && CacheKeyed(s)
    ensures EntriesKept(s, t, InMapMove(s, t))
  {
  }

  lemma MapMoveKeepsEntries(s: State, t: Tid, c: Choice)
    requires t < |s.threads| && CacheKeyed(s) && !WithEntry(s.threads[t].pc) && !CleaningUp(s.threads[t].pc)
    ensures EntriesKept(s, t, MapMove(s, t, c))
  {
    if s.threads[t].pc.InMap? {
      InMapKeepsEntries(s, t);
    } else {
      ReturnKeepsEntries(s, t, Ok);
      ReturnKeepsEntries(s, t, Failed);
    }
  }

  lemma MoveKeepsEntries(s: State, t: Tid, c: Choice)
    requires t < |s.threads| && CacheKeyed(s) && Placed(s, s.threads[t])
    ensures EntriesKept(s, t, NextMove(s, t, c))
  {
    if WithEntry(s.threads[t].pc) {
      EntryMoveKeepsEntries(s, t, c);
    } else if CleaningUp(s.threads[t].pc) {
      CleanupMoveKeepsEntries(s, t, c);
    } else {
      MapMoveKeepsEntries(s, t, c);
    }
  }

  // The entry of another goroutine in the middle of a miss is locked by it, so it stays unset.
  lemma OthersStayPlaced(s: State, t: Tid, u: Tid, m: Move)
    requires Inv(s) && t < |s.threads| && u < |s.threads| && t != u && Placed(s, s.threads[u]) && EntriesKept(s, t, Some(m))
    ensures Placed(m.s, s.threads[u])
  {
    var pc := s.threads[u].pc;
    if WithEntry(pc) {
      EntryHolder(s, t, pc.e);
      EntryHolder(s, u, pc.e);
    }
  }

  lemma StepKeepsEntries(s: State, t: Tid, c: Choice, s': State)
    requires Inv(s) && EntryInv(s) && Takes(s, t, c, s')
    ensures EntryInv(s')
  {
    var m := StepIsMove(s, t, c, s');
    assert Placed(s, s.threads[t]);
    MoveKeepsEntries(s, t, c);
    forall u | 0 <= u < |s'.threads| ensures Placed(s', s'.threads[u]) {
      if u != t {
        assert Placed(s, s.threads[u]);
        OthersStayPlaced(s, t, u, m);
      }
    }
  }

  lemma {:induction false} RunKeepsEntries(run: seq<State>, n: nat)
    requires Interleaving(run) && n < |run|
    ensures Inv(run[n]) && EntryInv(run[n])
  {
    RunKeepsInv(run, n);
    if n == 0 {
      forall t | 0 <= t < |run[0].threads| ensures Placed(run[0], run[0].threads[t]) {
        assert run[0].threads[t].pc == Start;
      }
    } else {
      RunKeepsEntries(run, n - 1);
      assert NextAt(run, n - 1);
      var t: Tid, c :| Takes(run[n - 1], t, c, run[n]);
      StepKeepsEntries(run[n - 1], t, c, run[n]);
    }
  }

  /******* What has been done so far *******/

  ghost predicate Could(s: State, t: Tid, s': State, c: Choice, deed: Deed) {
    Takes(s, t, c, s') && Does(s, t, c, s', deed)
  }

  ghost predicate DoneBy(s: State, t: Tid, s': State, deed: Deed) {
    exists c :: Could(s, t, s', c, deed)
  }

  ghost predicate DoneAt(run: seq<State>, m: int, t: Tid, deed: Deed) {
    0 <= m < |run| - 1 && DoneBy(run[m], t, run[m + 1], deed)
  }

  ghost predicate Did(run: seq<State>, n: nat, t: Tid, deed: Deed) {
    exists m :: m < n && DoneAt(run, m, t, deed)
  }

  // The deeds of t in the first n steps.
  ghost function Deeds(run: seq<State>, n: nat, t: Tid): iset<Deed> {
    iset deed: Deed | Did(run, n, t, deed)
  }

  ghost predicate AfterCall(pc: PC, reply: Reply) {
    match pc
    case Writing(_, v) => reply == Value(v)
    case Written(_, v) => reply == Value(v)
    case Finished(r) => r.Found? ==> reply == Value(r.v)
    case _ => false
  }

  // A Set has put its value into the entry, after writing it to the backing cache; it fails only for
  // nil or an error of the backing cache.
  ghost predicate SetStory(deeds: iset<Deed>, k: Key, x: Option<Value>, pc: PC, backed: bool) {
    && (pc.Writing? || pc.Written? ==> x == Some(pc.v)) && (pc.Written? ==> Writes(k, pc.v) in deeds)
    && (pc.Finished? ==> SetResult(deeds, k, x, pc.result, backed))
  }

  ghost predicate SetResult(deeds: iset<Deed>, k: Key, x: Option<Value>, r: Result, backed: bool) {
    match r
    case Ok => x.Some? && Puts(k, x.value, BySet) in deeds && (backed ==> Writes(k, x.value) in deeds)
    case Failed => x.None? || Faults in deeds
    case _ => false
  }

  // A Get has found what it returns in the entry or put it there from the backing cache; it finds
  // nothing only where there is nothing.
  ghost predicate GetResult(deeds: iset<Deed>, k: Key, r: Result) {
    match r
    case Found(v) => Hits(k, v) in deeds || Puts(k, v, ByReadThrough) in deeds
    case NoSuchEntry => Misses(k) in deeds
    case Failed => Faults in deeds
    case Ok => false
  }

  // A SetIfUnset has found its value so, or after a miss it has called getVal and stored what that
  // returned, and it returns nothing else.
  ghost predicate SetIfUnsetStory(deeds: iset<Deed>, k: Key, pc: PC, backed: bool) {
    && (pc.Calling? || pc.Writing? || pc.Written? ==> Misses(k) in deeds)
    && (pc.Writing? || pc.Written? ==> Calls(Value(pc.v)) in deeds) && (pc.Written? ==> Writes(k, pc.v) in deeds)
    && (forall reply :: Calls(reply) in deeds ==> AfterCall(pc, reply))
    && (pc.Finished? ==> SetIfUnsetResult(deeds, k, pc.result, backed))
  }

  ghost predicate SetIfUnsetResult(deeds: iset<Deed>, k: Key, r: Result, backed: bool) {
    match r
    case Found(v) =>
      || Hits(k, v) in deeds || Puts(k, v, ByReadThrough) in deeds
      || (Misses(k) in deeds && Calls(Value(v)) in deeds && Puts(k, v, ByGetVal) in deeds && (backed ==> Writes(k, v) in deeds))
    case Failed => Faults in deeds || Calls(Missing) in deeds || Calls(Fault) in deeds
    case _ => false
  }

  ghost predicate DeleteStory(deeds: iset<Deed>, k: Key, pc: PC) {
    && (forall j :: Removes(j) in deeds ==> j == k)
    && (pc.Finished? ==> (pc.result == Ok && Drops(k) in deeds) || (pc.result == Failed && Faults in deeds))
  }

  // A Cleanup scans the entries of all keys that it started with, and drops those that it rejects;
  // it removes no others.
  ghost predicate CleanupStory(deeds: iset<Deed>, pc: PC) {
    && (forall k :: Removes(k) in deeds ==> Rejects(k) in deeds)
    && match pc
       case Scan(todo, doomed) => Scanning(deeds, todo, doomed)
       case ScanAt(_, todo, doomed) => Scanning(deeds, todo, doomed)
       case ScanIn(_, todo, doomed) => Scanning(deeds, todo, doomed)
       case PurgeStart(doomed) => Purging(deeds, doomed)
       case Purge(doomed) => Purging(deeds, doomed)
       case PurgeAt(_, doomed) => Purging(deeds, doomed)
       case PurgeIn(_, doomed) => Purging(deeds, doomed)
       case Finished(r) => (r == Ok && Purging(deeds, map[])) || (r == Failed && Faults in deeds)
       case _ => Fresh(deeds)
  }

  ghost predicate Scanning(deeds: iset<Deed>, todo: map<Key, EntryId>, doomed: map<Key, EntryId>) {
    && (forall k :: Starts(k) in deeds ==> k in todo || Scans(k) in deeds)
    && (forall k :: Rejects(k) in deeds <==> k in doomed)
  }

  ghost predicate Purging(deeds: iset<Deed>, doomed: map<Key, EntryId>) {
    && (forall k :: Starts(k) in deeds ==> Scans(k) in deeds)
    && (forall k :: k in doomed ==> Rejects(k) in deeds)
    && (forall k :: Rejects(k) in deeds ==> k in doomed || Drops(k) in deeds)
  }

  ghost predicate Fresh(deeds: iset<Deed>) {
    forall k :: Starts(k) !in deeds && Rejects(k) !in deeds && Removes(k) !in deeds
  }

  // A ForEach visits the entries of all keys that it started with.
  ghost predicate ForEachStory(deeds: iset<Deed>, pc: PC) {
    match pc
    case Walk(left) => Visiting(deeds, left)
    case WalkAt(_, _, left) => Visiting(deeds, left)
    case WalkIn(_, _, left) => Visiting(deeds, left)
    case Finished(r) => r == Ok && Visiting(deeds, {})
    case _ => Fresh(deeds)
  }

  ghost predicate Visiting(deeds: iset<Deed>, left: set<Key>) {
    forall k :: Starts(k) in deeds ==> k in left || Visits(k) in deeds
  }

  ghost predicate Walking(pc: PC) { pc.Walk? || pc.WalkAt? || pc.WalkIn? }

  ghost predicate Story(deeds: iset<Deed>, op: Op, pc: PC, backed: bool) {
    && (Walking(pc) ==> op.ForEach?)
    && (!op.Delete? && !op.Cleanup? ==> forall k :: Removes(k) !in deeds)
    && match op
       case Set(k, x) => SetStory(deeds, k, x, pc, backed)
       case Get(k) => pc.Finished? ==> GetResult(deeds, k, pc.result)
       case SetIfUnset(k) => SetIfUnsetStory(deeds, k, pc, backed)
       case Delete(k) => DeleteStory(deeds, k, pc)
       case Cleanup => CleanupStory(deeds, pc)
       case ForEach => ForEachStory(deeds, pc)
  }

  /******* A step goes on with the story *******/

  // deeds' are deeds and what the step from s to s' adds.
  ghost predicate Adds(s: State, t: Tid, s': State, deeds: iset<Deed>, deeds': iset<Deed>) {
    && deeds <= deeds'
    && (forall deed :: DoneBy(s, t, s', deed) ==> deed in deeds')
    && forall deed :: deed in deeds' ==> deed in deeds || DoneBy(s, t, s', deed)
  }

  // Whatever choice led t from s to s', it is at the program point of its move.
  ghost predicate Decides(s: State, t: Tid, s': State) {
    forall c :: Takes(s, t, c, s') ==>
      t < |s'.threads| && NextMove(s, t, c).Some? && NextMove(s, t, c).value.pc == s'.threads[t].pc
  }

  lemma StepDecides(s: State, t: Tid, s': State)
    requires Inv(s)
    ensures Decides(s, t, s')
  {
    forall c | Takes(s, t, c, s')
      ensures t < |s'.threads| && NextMove(s, t, c).Some? && NextMove(s, t, c).value.pc == s'.threads[t].pc
    {
      var m := StepIsMove(s, t, c, s');
    }
  }

  // Goroutine t makes the move m, to s'; deeds are what it did before, and deeds' what it has done then.
  ghost predicate Moves(s: State, t: Tid, c: Choice, m: Move, s': State, deeds: iset<Deed>, deeds': iset<Deed>) {
    && t < |s.threads| && (WithEntry(s.threads[t].pc) ==> OfOneKey(s.threads[t].op))
    && forall s0 :: Now(s0, s) ==> Legal(s0, t, c, m, s', deeds, deeds')
  }

  predicate OfOneKey(op: Op) { op.Get? || op.Set? || op.SetIfUnset? }

  ghost predicate Now(s0: State, s: State) { s0 == s }

  ghost predicate Legal(s: State, t: Tid, c: Choice, m: Move, s': State, deeds: iset<Deed>, deeds': iset<Deed>) {
    && Takes(s, t, c, s') && NextMove(s, t, c) == Some(m) && Decides(s, t, s')
    && Placed(s, s.threads[t]) && OnlyDeletes(s.threads[t].op, s.threads[t].pc) && Sound(s, s.threads[t].pc)
    && s'.threads == s.threads[t := s.threads[t].(pc := m.pc)]
    && s'.cache == m.s.cache && s'.entries == m.s.entries && s'.history == m.s.history && s'.backing == m.s.backing
    && Story(deeds, s.threads[t].op, s.threads[t].pc, s.backing.Some?) && Adds(s, t, s', deeds, deeds')
  }

  lemma Done(s: State, t: Tid, c: Choice, m: Move, s': State, deeds: iset<Deed>, deeds': iset<Deed>, deed: Deed)
    requires Moves(s, t, c, m, s', deeds, deeds') && Does(s, t, c, s', deed)
    ensures deed in deeds'
  {
    assert Now(s, s);
    assert Could(s, t, s', c, deed);
    assert DoneBy(s, t, s', deed);
  }

  // Of some deeds the story must know when they are done.
  lemma OnlySo(s: State, t: Tid, c: Choice, m: Move, s': State, deeds: iset<Deed>, deeds': iset<Deed>, deed: Deed)
    requires Moves(s, t, c, m, s', deeds, deeds') && deed in deeds' && deed !in deeds
    ensures var pc := s.threads[t].pc;
      && (deed.Calls? ==> pc.Calling?) && (deed.Starts? ==> pc.InMap? && deed.key in s.cache)
      && (deed.Rejects? ==> pc.ScanIn? && pc.k == deed.key)
      && (deed.Removes? ==> Removed(s, m.s, deed.key))
  {
    assert Now(s, s);
    assert DoneBy(s, t, s', deed);
  }

  ghost predicate Removed(s: State, s1: State, k: Key) {
    || (k in s.cache && k !in s1.cache)
    || (s.backing.Some? && k in s.backing.value && (s1.backing.Some? ==> k !in s1.backing.value))
  }

  // Nothing is removed but in a deletion.
  lemma NothingRemoved(s: State, t: Tid, c: Choice, m: Move, s': State, deeds: iset<Deed>, deeds': iset<Deed>)
    requires Moves(s, t, c, m, s', deeds, deeds') && !s.threads[t].pc.Deleting? && !s.threads[t].pc.PurgeIn?
    ensures forall k :: Removes(k) in deeds' ==> Removes(k) in deeds
  {
    assert Now(s, s);
    forall k ensures !Removed(s, m.s, k) {
      Untouched(s, t, c, m, k);
    }
    forall k | Removes(k) in deeds' && Removes(k) !in deeds ensures false {
      OnlySo(s, t, c, m, s', deeds, deeds', Removes(k));
    }
  }

  lemma Untouched(s: State, t: Tid, c: Choice, m: Move, k: Key)
    requires t < |s.threads| && NextMove(s, t, c) == Some(m) && !s.threads[t].pc.Deleting? && !s.threads[t].pc.PurgeIn?
    ensures !Removed(s, m.s, k)
  {
  }

  lemma InstallPuts(s: State, t: Tid, c: Choice, m: Move, s': State, deeds: iset<Deed>, deeds': iset<Deed>, v: Value, source: Source)
    requires Moves(s, t, c, m, s', deeds, deeds') && WithEntry(s.threads[t].pc)
    requires s.threads[t].pc.e < |s.entries| && Some(m) == Install(s, t, s.threads[t].pc.e, v, source)
    requires source == ByReadThrough && Mirrored(s) ==>
      var k := s.threads[t].op.key; k in s.backing.value && s.backing.value[k] == v
    ensures Puts(s.threads[t].op.key, v, source) in deeds'
  {
    assert Now(s, s);
    var e := s.threads[t].pc.e;
    var h := s.history + [Installed(s.entries[e].key, v, source)];
    assert h <= m.s.history && h[|s.history|] == Installed(s.entries[e].key, v, source);
    Done(s, t, c, m, s', deeds, deeds', Puts(s.threads[t].op.key, v, source));
  }

  lemma FaultFails(s: State, t: Tid, c: Choice, m: Move, s': State, deeds: iset<Deed>, deeds': iset<Deed>)
    requires Moves(s, t, c, m, s', deeds, deeds') && s.backing.Some? && c.reply.Fault?
    requires var pc := s.threads[t].pc; pc.Reading? || pc.Writing? || pc.Deleting? || pc.PurgeIn?
    ensures Faults in deeds'
  {
    assert Now(s, s);
    Done(s, t, c, m, s', deeds, deeds', Faults);
  }

  lemma WriteTells(s: State, t: Tid, c: Choice, m: Move, s': State, deeds: iset<Deed>, deeds': iset<Deed>)
    requires Moves(s, t, c, m, s', deeds, deeds') && s.threads[t].pc.Writing?
    ensures var pc := s.threads[t].pc;
      || (m.pc == Written(pc.e, pc.v) && Writes(s.threads[t].op.key, pc.v) in deeds')
      || (m.pc == Finished(Failed) && Faults in deeds')
  {
    assert Now(s, s);
    if c.reply.Fault? {
      FaultFails(s, t, c, m, s', deeds, deeds');
    } else {
      Done(s, t, c, m, s', deeds, deeds', Writes(s.threads[t].op.key, s.threads[t].pc.v));
    }
  }

  lemma SetTells(s: State, t: Tid, c: Choice, m: Move, s': State, deeds: iset<Deed>, deeds': iset<Deed>)
    requires Moves(s, t, c, m, s', deeds, deeds') && s.threads[t].op.Set?
    ensures Story(deeds', s.threads[t].op, m.pc, s.backing.Some?)
  {
    assert Now(s, s);
    var op, pc := s.threads[t].op, s.threads[t].pc;
    NothingRemoved(s, t, c, m, s', deeds, deeds');
    if pc.InEntry? && op.val.Some? && s.backing.None? {
      InstallPuts(s, t, c, m, s', deeds, deeds', op.val.value, BySet);
    } else if pc.Writing? {
      WriteTells(s, t, c, m, s', deeds, deeds');
    } else if pc.Written? {
      InstallPuts(s, t, c, m, s', deeds, deeds', pc.v, BySet);
    }
  }

  // In front of an entry with the key locked: a value in it is a hit, none without a backing cache a miss.
  lemma LookTells(s: State, t: Tid, c: Choice, m: Move, s': State, deeds: iset<Deed>, deeds': iset<Deed>)
    requires Moves(s, t, c, m, s', deeds, deeds') && s.threads[t].pc.InEntry? && !s.threads[t].op.Set?
    ensures var k, e := s.threads[t].op.key, s.threads[t].pc.e;
      || (m.pc.Finished? && m.pc.result.Found? && Hits(k, m.pc.result.v) in deeds')
      || m.pc == Reading(e)
      || (Misses(k) in deeds' && if s.threads[t].op.SetIfUnset? then m.pc == Calling(e) else m.pc == Finished(NoSuchEntry))
  {
    assert Now(s, s);
    var k, entry := s.threads[t].op.key, s.entries[s.threads[t].pc.e];
    if entry.val.Some? {
      assert entry == Entry(k, Some(entry.val.value));
      Done(s, t, c, m, s', deeds, deeds', Hits(k, entry.val.value));
    } else if s.backing.None? {
      assert entry == Entry(k, None);
      Done(s, t, c, m, s', deeds, deeds', Misses(k));
    }
  }

  // In the backing cache a value is read through, and none is a miss.
  lemma ReadTells(s: State, t: Tid, c: Choice, m: Move, s': State, deeds: iset<Deed>, deeds': iset<Deed>)
    requires Moves(s, t, c, m, s', deeds, deeds') && s.threads[t].pc.Reading? && !s.threads[t].op.Set?
    ensures var k, e := s.threads[t].op.key, s.threads[t].pc.e;
      || (m.pc.Finished? && m.pc.result.Found? && Puts(k, m.pc.result.v, ByReadThrough) in deeds')
      || (m.pc == Finished(Failed) && Faults in deeds')
      || (Misses(k) in deeds' && if s.threads[t].op.SetIfUnset? then m.pc == Calling(e) else m.pc == Finished(NoSuchEntry))
  {
    assert Now(s, s);
    var k, entry := s.threads[t].op.key, s.entries[s.threads[t].pc.e];
    match ReplyTo(s, k, c)
    case Value(v) => InstallPuts(s, t, c, m, s', deeds, deeds', v, ByReadThrough);
    case Fault => FaultFails(s, t, c, m, s', deeds, deeds');
    case Missing =>
      assert entry == Entry(k, None);
      Done(s, t, c, m, s', deeds, deeds', Misses(k));
  }

  lemma GetTells(s: State, t: Tid, c: Choice, m: Move, s': State, deeds: iset<Deed>, deeds': iset<Deed>)
    requires Moves(s, t, c, m, s', deeds, deeds') && s.threads[t].op.Get?
    ensures Story(deeds', s.threads[t].op, m.pc, s.backing.Some?)
  {
    assert Now(s, s);
    var op, pc := s.threads[t].op, s.threads[t].pc;
    NothingRemoved(s, t, c, m, s', deeds, deeds');
    if pc.InEntry? {
      LookTells(s, t, c, m, s', deeds, deeds');
    } else if pc.Reading? {
      ReadTells(s, t, c, m, s', deeds, deeds');
    }
  }

  // No call is forgotten.
  lemma NoOtherCall(s: State, t: Tid, c: Choice, m: Move, s': State, deeds: iset<Deed>, deeds': iset<Deed>)
    requires Moves(s, t, c, m, s', deeds, deeds') && !s.threads[t].pc.Calling?
    ensures forall reply :: Calls(reply) in deeds' ==> Calls(reply) in deeds
  {
    assert Now(s, s);
    forall reply | Calls(reply) in deeds' ensures Calls(reply) in deeds {
      if Calls(reply) !in deeds {
        OnlySo(s, t, c, m, s', deeds, deeds', Calls(reply));
      }
    }
  }

  // What a call returned decides where the step goes.
  lemma CallDecides(s: State, t: Tid, c: Choice, s': State)
    requires Takes(s, t, c, s') && Decides(s, t, s') && Placed(s, s.threads[t]) && s.threads[t].pc.Calling?
    ensures t < |s'.threads| && AfterCall(s'.threads[t].pc, c.reply)
  {
    CallGoes(s, t, c, NextMove(s, t, c).value);
  }

  lemma CallGoes(s: State, t: Tid, c: Choice, m: Move)
    requires t < |s.threads| && s.threads[t].pc.Calling? && s.threads[t].pc.e < |s.entries| && s.threads[t].op.SetIfUnset?
    requires NextMove(s, t, c) == Some(m)
    ensures AfterCall(m.pc, c.reply)
    ensures var e := s.threads[t].pc.e;
      match c.reply
      case Value(v) => if s.backing.Some? then m.pc == Writing(e, v) else Some(m) == Install(s, t, e, v, ByGetVal)
      case _ => m.pc == Finished(Failed)
  {
  }

  lemma CallTells(s: State, t: Tid, c: Choice, m: Move, s': State, deeds: iset<Deed>, deeds': iset<Deed>)
    requires Moves(s, t, c, m, s', deeds, deeds') && s.threads[t].pc.Calling? && s.threads[t].op.SetIfUnset?
    ensures SetIfUnsetStory(deeds', s.threads[t].op.key, m.pc, s.backing.Some?)
  {
    assert Now(s, s);
    var k := s.threads[t].op.key;
    Done(s, t, c, m, s', deeds, deeds', Calls(c.reply));
    CallGoes(s, t, c, m);
    forall reply | Calls(reply) in deeds' ensures AfterCall(m.pc, reply) {
      assert Calls(reply) !in deeds;
      var c' :| Could(s, t, s', c', Calls(reply));
      CallDecides(s, t, c', s');
    }
    if c.reply.Value? && s.backing.None? {
      InstallPuts(s, t, c, m, s', deeds, deeds', c.reply.v, ByGetVal);
    }
  }

  lemma SetIfUnsetTells(s: State, t: Tid, c: Choice, m: Move, s': State, deeds: iset<Deed>, deeds': iset<Deed>)
    requires Moves(s, t, c, m, s', deeds, deeds') && s.threads[t].op.SetIfUnset?
    ensures Story(deeds', s.threads[t].op, m.pc, s.backing.Some?)
  {
    assert Now(s, s);
    var op, pc := s.threads[t].op, s.threads[t].pc;
    NothingRemoved(s, t, c, m, s', deeds, deeds');
    if pc.Calling? {
      CallTells(s, t, c, m, s', deeds, deeds');
    } else {
      NoOtherCall(s, t, c, m, s', deeds, deeds');
      StoreTells(s, t, c, m, s', deeds, deeds');
    }
  }

  lemma StoreTells(s: State, t: Tid, c: Choice, m: Move, s': State, deeds: iset<Deed>, deeds': iset<Deed>)
    requires Moves(s, t, c, m, s', deeds, deeds') && s.threads[t].op.SetIfUnset? && !s.threads[t].pc.Calling?
    requires forall reply :: Calls(reply) in deeds' ==> Calls(reply) in deeds
    ensures SetIfUnsetStory(deeds', s.threads[t].op.key, m.pc, s.backing.Some?)
  {
    assert Now(s, s);
    var op, pc := s.threads[t].op, s.threads[t].pc;
    if pc.InEntry? {
      LookTells(s, t, c, m, s', deeds, deeds');
    } else if pc.Reading? {
      ReadTells(s, t, c, m, s', deeds, deeds');
    } else if pc.Writing? {
      WriteTells(s, t, c, m, s', deeds, deeds');
    } else if pc.Written? {
      InstallPuts(s, t, c, m, s', deeds, deeds', pc.v, ByGetVal);
    }
  }

  lemma DeleteTells(s: State, t: Tid, c: Choice, m: Move, s': State, deeds: iset<Deed>, deeds': iset<Deed>)
    requires Moves(s, t, c, m, s', deeds, deeds') && s.threads[t].op.Delete?
    ensures Story(deeds', s.threads[t].op, m.pc, s.backing.Some?)
  {
    assert Now(s, s);
    var op, pc := s.threads[t].op, s.threads[t].pc;
    if !pc.Deleting? {
      NothingRemoved(s, t, c, m, s', deeds, deeds');
    } else if s.backing.Some? && c.reply.Fault? {
      FaultFails(s, t, c, m, s', deeds, deeds');
      OnlyRemoves(s, t, c, m, s', deeds, deeds', op.key);
    } else {
      Done(s, t, c, m, s', deeds, deeds', Drops(op.key));
      OnlyRemoves(s, t, c, m, s', deeds, deeds', op.key);
    }
  }

  lemma OnlyRemoves(s: State, t: Tid, c: Choice, m: Move, s': State, deeds: iset<Deed>, deeds': iset<Deed>, k: Key)
    requires Moves(s, t, c, m, s', deeds, deeds')
    requires m.s.cache.Keys >= s.cache.Keys - {k} && (s.backing.Some? ==> m.s.backing.Some? && m.s.backing.value.Keys >= s.backing.value.Keys - {k})
    ensures forall j :: Removes(j) in deeds' ==> Removes(j) in deeds || j == k
  {
    assert Now(s, s);
    forall j | Removes(j) in deeds' && Removes(j) !in deeds ensures j == k {
      OnlySo(s, t, c, m, s', deeds, deeds', Removes(j));
    }
  }

  // Outside of the steps that begin, scan and purge nothing is started, rejected or removed.
  lemma NothingNew(s: State, t: Tid, c: Choice, m: Move, s': State, deeds: iset<Deed>, deeds': iset<Deed>)
    requires Moves(s, t, c, m, s', deeds, deeds')
    ensures !s.threads[t].pc.InMap? ==> forall k :: Starts(k) in deeds' ==> Starts(k) in deeds
    ensures !s.threads[t].pc.ScanIn? ==> forall k :: Rejects(k) in deeds' ==> Rejects(k) in deeds
  {
    assert Now(s, s);
    forall k
      ensures !s.threads[t].pc.InMap? && Starts(k) in deeds' ==> Starts(k) in deeds
      ensures !s.threads[t].pc.ScanIn? && Rejects(k) in deeds' ==> Rejects(k) in deeds
    {
      if Starts(k) in deeds' && Starts(k) !in deeds {
        OnlySo(s, t, c, m, s', deeds, deeds', Starts(k));
      }
      if Rejects(k) in deeds' && Rejects(k) !in deeds {
        OnlySo(s, t, c, m, s', deeds, deeds', Rejects(k));
      }
    }
  }

  lemma StartTells(s: State, t: Tid, c: Choice, m: Move, s': State, deeds: iset<Deed>, deeds': iset<Deed>)
    requires Moves(s, t, c, m, s', deeds, deeds') && s.threads[t].pc.InMap? && Fresh(deeds)
    ensures forall k :: Starts(k) in deeds' ==> k in s.cache
    ensures forall k :: Rejects(k) !in deeds' && Removes(k) !in deeds'
  {
    assert Now(s, s);
    NothingNew(s, t, c, m, s', deeds, deeds');
    NothingRemoved(s, t, c, m, s', deeds, deeds');
    forall k | Starts(k) in deeds' ensures k in s.cache {
      OnlySo(s, t, c, m, s', deeds, deeds', Starts(k));
    }
  }

  lemma RejectedIsDoomed(s: State, t: Tid, c: Choice, s': State, k: Key)
    requires Takes(s, t, c, s') && Decides(s, t, s') && Does(s, t, c, s', Rejects(k))
    ensures t < |s'.threads| && s'.threads[t].pc.Scan? && k in s'.threads[t].pc.doomed
  {
    assert NextMove(s, t, c).Some?;
  }

  lemma ScanTells(s: State, t: Tid, c: Choice, m: Move, s': State, deeds: iset<Deed>, deeds': iset<Deed>)
    requires Moves(s, t, c, m, s', deeds, deeds') && s.threads[t].pc.ScanIn?
    requires Scanning(deeds, s.threads[t].pc.todo, s.threads[t].pc.doomed)
    ensures m.pc.Scan? && Scanning(deeds', m.pc.todo, m.pc.doomed)
  {
    assert Now(s, s);
    var pc := s.threads[t].pc;
    Done(s, t, c, m, s', deeds, deeds', Scans(pc.k));
    NothingNew(s, t, c, m, s', deeds, deeds');
    forall k | k in m.pc.doomed ensures Rejects(k) in deeds' {
      if k !in pc.doomed {
        Done(s, t, c, m, s', deeds, deeds', Rejects(k));
      }
    }
    forall k | Rejects(k) in deeds' ensures k in m.pc.doomed {
      if Rejects(k) !in deeds {
        var c' :| Could(s, t, s', c', Rejects(k));
        RejectedIsDoomed(s, t, c', s', k);
      }
    }
  }

  lemma PurgeTells(s: State, t: Tid, c: Choice, m: Move, s': State, deeds: iset<Deed>, deeds': iset<Deed>)
    requires Moves(s, t, c, m, s', deeds, deeds') && s.threads[t].pc.PurgeIn? && s.threads[t].op.Cleanup?
    requires Purging(deeds, s.threads[t].pc.doomed) && s.threads[t].pc.k in s.threads[t].pc.doomed
    ensures CleanupStory(deeds', m.pc)
  {
    assert Now(s, s);
    var pc := s.threads[t].pc;
    NothingNew(s, t, c, m, s', deeds, deeds');
    OnlyRemoves(s, t, c, m, s', deeds, deeds', pc.k);
    if s.backing.Some? && c.reply.Fault? {
      FaultFails(s, t, c, m, s', deeds, deeds');
    } else {
      Done(s, t, c, m, s', deeds, deeds', Drops(pc.k));
    }
  }

  lemma CleanupTells(s: State, t: Tid, c: Choice, m: Move, s': State, deeds: iset<Deed>, deeds': iset<Deed>)
    requires Moves(s, t, c, m, s', deeds, deeds') && s.threads[t].op.Cleanup?
    ensures Story(deeds', s.threads[t].op, m.pc, s.backing.Some?)
  {
    assert Now(s, s);
    var op, pc := s.threads[t].op, s.threads[t].pc;
    if pc.InMap? {
      StartTells(s, t, c, m, s', deeds, deeds');
    } else if pc.PurgeIn? {
      PurgeTells(s, t, c, m, s', deeds, deeds');
    } else {
      NothingRemoved(s, t, c, m, s', deeds, deeds');
      if pc.ScanIn? {
        ScanTells(s, t, c, m, s', deeds, deeds');
      } else {
        NothingNew(s, t, c, m, s', deeds, deeds');
        PassesOn(s, t, c, m, deeds, deeds');
      }
    }
  }

  // The other steps of Cleanup pass on what they know.
  lemma PassesOn(s: State, t: Tid, c: Choice, m: Move, deeds: iset<Deed>, deeds': iset<Deed>)
    requires t < |s.threads| && NextMove(s, t, c) == Some(m) && s.threads[t].op.Cleanup?
    requires var pc := s.threads[t].pc; pc.Start? || (CleaningUp(pc) && !pc.ScanIn? && !pc.PurgeIn?)
    requires CleanupStory(deeds, s.threads[t].pc) && deeds <= deeds'
    requires forall k :: (Starts(k) in deeds' ==> Starts(k) in deeds) && (Rejects(k) in deeds' ==> Rejects(k) in deeds)
    requires forall k :: Removes(k) in deeds' ==> Removes(k) in deeds
    ensures CleanupStory(deeds', m.pc)
  {
  }

  lemma ForEachTells(s: State, t: Tid, c: Choice, m: Move, s': State, deeds: iset<Deed>, deeds': iset<Deed>)
    requires Moves(s, t, c, m, s', deeds, deeds') && s.threads[t].op.ForEach?
    ensures Story(deeds', s.threads[t].op, m.pc, s.backing.Some?)
  {
    assert Now(s, s);
    var op, pc := s.threads[t].op, s.threads[t].pc;
    if pc.InMap? {
      StartTells(s, t, c, m, s', deeds, deeds');
    } else {
      NothingRemoved(s, t, c, m, s', deeds, deeds');
      NothingNew(s, t, c, m, s', deeds, deeds');
      if pc.WalkIn? {
        Done(s, t, c, m, s', deeds, deeds', Visits(pc.k));
      }
    }
  }

  lemma StepTells(s: State, t: Tid, c: Choice, m: Move, s': State, deeds: iset<Deed>, deeds': iset<Deed>)
    requires Moves(s, t, c, m, s', deeds, deeds')
    ensures Story(deeds', s.threads[t].op, m.pc, s.backing.Some?)
  {
    match s.threads[t].op
    case Get(_) => GetTells(s, t, c, m, s', deeds, deeds');
    case Set(_, _) => SetTells(s, t, c, m, s', deeds, deeds');
    case SetIfUnset(_) => SetIfUnsetTells(s, t, c, m, s', deeds, deeds');
    case Delete(_) => DeleteTells(s, t, c, m, s', deeds, deeds');
    case Cleanup => CleanupTells(s, t, c, m, s', deeds, deeds');
    case ForEach => ForEachTells(s, t, c, m, s', deeds, deeds');
  }

  /******* Whole runs *******/

  lemma DeedsNext(run: seq<State>, n: nat, t: Tid)
    requires n + 1 < |run|
    ensures Adds(run[n], t, run[n + 1], Deeds(run, n, t), Deeds(run, n + 1, t))
  {
    var s, s' := run[n], run[n + 1];
    forall deed | DoneBy(s, t, s', deed) ensures deed in Deeds(run, n + 1, t) {
      assert DoneAt(run, n, t, deed);
    }
    forall deed | deed in Deeds(run, n + 1, t) ensures deed in Deeds(run, n, t) || DoneBy(s, t, s', deed) {
      var m :| m < n + 1 && DoneAt(run, m, t, deed);
    }
  }

  // A goroutine that the step was not one of has done nothing in it.
  lemma NotItsStep(s: State, t: Tid, s': State, deeds: iset<Deed>, deeds': iset<Deed>)
    requires Adds(s, t, s', deeds, deeds') && forall c :: !Takes(s, t, c, s')
    ensures deeds' == deeds
  {
    forall deed ensures !DoneBy(s, t, s', deed) {
    }
  }

  ghost predicate StoryAt(run: seq<State>, n: nat, t: Tid) {
    n < |run| && t < |run[n].threads| &&
      Story(Deeds(run, n, t), run[n].threads[t].op, run[n].threads[t].pc, run[n].backing.Some?)
  }

  lemma StoryGoesOn(run: seq<State>, n: nat, t: Tid)
    requires Interleaving(run) && n + 1 < |run| && StoryAt(run, n, t)
    ensures StoryAt(run, n + 1, t)
  {
    var s, s' := run[n], run[n + 1];
    RunKeepsEntries(run, n);
    DeedsNext(run, n, t);
    StepDecides(s, t, s');
    if c :| Takes(s, t, c, s') {
      var m := StepIsMove(s, t, c, s');
      assert Placed(s, s.threads[t]) && OnlyDeletes(s.threads[t].op, s.threads[t].pc) && Sound(s, s.threads[t].pc);
      MoveKeepsEntries(s, t, c);
      StepTells(s, t, c, m, s', Deeds(run, n, t), Deeds(run, n + 1, t));
    } else {
      NotItsStep(s, t, s', Deeds(run, n, t), Deeds(run, n + 1, t));
      assert NextAt(run, n);
      var u: Tid, c :| Takes(s, u, c, s');
      var m := StepIsMove(s, u, c, s');
      assert Placed(s, s.threads[u]);
      MoveKeepsEntries(s, u, c);
    }
  }

  lemma {:induction false} RunTells(run: seq<State>, n: nat, t: Tid)
    requires Interleaving(run) && n < |run| && t < |run[0].threads|
    ensures StoryAt(run, n, t)
  {
    if n == 0 {
      assert Deeds(run, 0, t) == iset{};
      assert run[0].threads[t].pc == Start;
    } else {
      RunTells(run, n - 1, t);
      StoryGoesOn(run, n - 1, t);
    }
  }

  /**
   In every interleaving, over any backing cache: what an operation returns is what it has done. A
   Set that returns without error has put its value into the entry and, before, into the backing
   cache; a Get finds nothing only where there was nothing; a SetIfUnset that called getVal stores
   and returns what that returned; a Delete has removed the key from both; a Cleanup has scanned all
   entries and removed exactly the rejected ones; a ForEach has visited all. None fails but for a
   nil value, an error of getVal or one of the backing cache.
   */
  lemma ResultsAreEarned(run: seq<State>, n: nat, t: Tid)
    requires Interleaving(run) && n < |run| && t < |run[0].threads|
    ensures t < |run[n].threads| && var th := run[n].threads[t];
      th.pc.Finished? ==>
        var deeds, r, backed := Deeds(run, n, t), th.pc.result, run[n].backing.Some?;
        match th.op
        case Set(k, x) => SetResult(deeds, k, x, r, backed)
        case Get(k) => GetResult(deeds, k, r)
        case SetIfUnset(k) =>
          SetIfUnsetResult(deeds, k, r, backed) && forall reply :: Calls(reply) in deeds && r.Found? ==> reply == Value(r.v)
        case Delete(k) =>
          ((r == Ok && Drops(k) in deeds) || (r == Failed && Faults in deeds)) && forall j :: Removes(j) in deeds ==> j == k
        case Cleanup =>
          && (forall k :: Removes(k) in deeds ==> Rejects(k) in deeds)
          && (r == Ok || (r == Failed && Faults in deeds))
          && (r == Ok ==> forall k :: Starts(k) in deeds ==> Scans(k) in deeds)
          && (r == Ok ==> forall k :: Rejects(k) in deeds ==> Drops(k) in deeds)
        case ForEach => r == Ok && forall k :: Starts(k) in deeds ==> Visits(k) in deeds
  {
    RunTells(run, n, t);
  }
}
