/**
 The self-decrementing counter kept in a file (go/counters/counters.go): every increment is taken
 back by its own timer, across resets, failed writes and restarts of the process.
 */
module Counters {
  import opened Common

  type Time = int

  /******* The counter of one process *******/

  function RemoveFirst(times: seq<Time>, t: Time): seq<Time> {
    if times == [] then [] else if times[0] == t then times[1..] else [times[0]] + RemoveFirst(times[1..], t)
  }

  // Removing the first t takes away one t, or nothing if there is none.
  lemma {:induction false} RemoveFirstTakesOne(times: seq<Time>, t: Time)
    ensures multiset(RemoveFirst(times, t)) == multiset(times) - multiset{t}
  {
    if times != [] {
      assert times == [times[0]] + times[1..];
      if times[0] != t {
        RemoveFirstTakesOne(times[1..], t);
      }
    }
  }

  lemma {:induction false} RemoveFirstAt(times: seq<Time>, t: Time, i: nat)
    requires i < |times| && times[i] == t && t !in times[..i]
    ensures RemoveFirst(times, t) == times[..i] + times[i + 1..]
  {
    if i > 0 {
      assert times[0] == times[..i][0];
      assert times[1..][..i - 1] == times[..i][1..];
      RemoveFirstAt(times[1..], t, i - 1);
    }
  }

  lemma {:induction false} RemoveFirstAbsent(times: seq<Time>, t: Time)
    requires t !in times
    ensures RemoveFirst(times, t) == times
  {
    if times != [] {
      RemoveFirstAbsent(times[1..], t);
    }
  }

  // One timer is pending for each element of pending.
  datatype Counter = Counter(times: seq<Time>, file: Option<seq<Time>>, pending: multiset<Time>)

  ghost function Save(c: Counter, writes: bool): Counter {
    if writes then c.(file := Some(c.times)) else c
  }

  ghost function Incremented(c: Counter, t: Time, writes: bool): Counter {
    Save(c.(times := c.times + [t], pending := c.pending + multiset{t}), writes)
  }

  ghost function Decremented(c: Counter, t: Time, writes: bool): Counter {
    var fired := c.(pending := c.pending - multiset{t});
    if t in c.times then Save(fired.(times := RemoveFirst(c.times, t)), writes) else fired
  }

  ghost function Cleared(c: Counter, writes: bool): Counter {
    Save(c.(times := []), writes)
  }

  function Stored(file: Option<seq<Time>>): seq<Time> {
    if file.None? then [] else file.value
  }

  class PersistentAutoDecrementCounter {
    var times: seq<Time>
    var file: Option<seq<Time>>
    var pending: multiset<Time>
    const duration: int

    ghost function View(): Counter
      reads this
    {
      Counter(times, file, pending)
    }

    constructor (file: Option<seq<Time>>, duration: int)
      ensures View() == Counter(Stored(file), file, multiset{}) && this.duration == duration
    {
      this.times, this.file, this.pending, this.duration := Stored(file), file, multiset{}, duration;
    }

    method Write(writes: bool)
      modifies this`file
      ensures View() == Save(old(View()), writes)
    {
      if writes {
        file := Some(times);
      }
    }

    method StartTimers()
      modifies this`pending
      ensures pending == old(pending) + multiset(times)
    {
      for i := 0 to |times|
        invariant pending == old(pending) + multiset(times[..i])
      {
        assert times[..i + 1] == times[..i] + [times[i]];
        pending := pending + multiset{times[i]};
      }
      assert times[..|times|] == times;
    }

    method Inc(now: Time, writes: bool)
      modifies this
      ensures View() == Incremented(old(View()), now + duration, writes)
    {
      var decTime := now + duration;
      times := times + [decTime];
      pending := pending + multiset{decTime};
      Write(writes);
    }

    // dec, run by the timer for t.
    method Dec(t: Time, writes: bool)
      modifies this
      ensures View() == Decremented(old(View()), t, writes)
    {
      pending := pending - multiset{t};
      for i := 0 to |times|
        invariant t !in times[..i] && times == old(times) && file == old(file)
        invariant pending == old(pending) - multiset{t}
      {
        if times[i] == t {
          RemoveFirstAt(times, t, i);
          times := times[..i] + times[i + 1..];
          Write(writes);
          return;
        }
      }
      assert times[..|times|] == times;
    }

    method Reset(writes: bool)
      modifies this
      ensures View() == Cleared(old(View()), writes)
    {
      times := [];
      Write(writes);
    }

    // In a world w that has this counter and whose writes all succeeded: at least the increments
    // since the last reset that have not expired, at most the timers pending, and exactly the
    // former once no timer is overdue.
    method Get(ghost w: World) returns (n: int)
      ensures n == |View().times|
      ensures w.running && w.counter == View() && Durable(w) ==>
        && |Unexpired(w.expiries, w.now)| <= n <= |pending|
        && ((forall t :: t in pending ==> t > w.now) ==> n == |Unexpired(w.expiries, w.now)|)
    {
      if w.running && w.counter == View() && Durable(w) {
        CountIsBounded(w);
      }
      return |times|;
    }
  }

  // NewPersistentAutoDecrementCounter; a file that is not there yet reads as empty.
  method NewPersistentAutoDecrementCounter(file: Option<seq<Time>>, duration: int, readable: bool, writes: bool)
    returns (c: PersistentAutoDecrementCounter?)
    ensures c == null <==> !(readable && writes)
    ensures c != null ==> fresh(c) && c.duration == duration && c.View() == Started(file)
  {
    if !readable {
      return null;
    }
    c := new PersistentAutoDecrementCounter(file, duration);
    c.Write(writes);
    if !writes {
      return null;
    }
    c.StartTimers();
  }

  ghost function Started(file: Option<seq<Time>>): Counter {
    Counter(Stored(file), Some(Stored(file)), multiset(Stored(file)))
  }

  /******* Histories *******/

  // expiries is the history: when each increment since the last reset is due to be taken back.
  datatype World = World(now: Time, running: bool, counter: Counter, expiries: multiset<Time>)

  datatype Event =
    | Inc(duration: nat, writes: bool)
    | Fire(t: Time, writes: bool)
    | Reset(writes: bool)
    | Restart(readable: bool, writes: bool)
    | Pass(time: nat)

  // A timer runs at or after its time, in the process that set it.
  ghost predicate Enabled(w: World, ev: Event) {
    match ev
    case Inc(_, _) => w.running
    case Fire(t, _) => w.running && t in w.counter.pending && t <= w.now
    case Reset(_) => w.running
    case Restart(_, _) => true
    case Pass(_) => true
  }

  ghost function Apply(w: World, ev: Event): World {
    match ev
    case Inc(d, writes) =>
      w.(counter := Incremented(w.counter, w.now + d, writes), expiries := w.expiries + multiset{w.now + d})
    case Fire(t, writes) => w.(counter := Decremented(w.counter, t, writes))
    case Reset(writes) => w.(counter := Cleared(w.counter, writes), expiries := multiset{})
    case Restart(readable, writes) =>
      if readable && writes then w.(running := true, counter := Started(w.counter.file))
      else w.(running := false, counter := Counter([], w.counter.file, multiset{}))
    case Pass(time) => w.(now := w.now + time)
  }

  ghost predicate IsHistory(w: World, evs: seq<Event>)
    decreases |evs|
  {
    evs != [] ==> Enabled(w, evs[0]) && IsHistory(Apply(w, evs[0]), evs[1..])
  }

  ghost function ApplyAll(w: World, evs: seq<Event>): World
    decreases |evs|
  {
    if evs == [] then w else ApplyAll(Apply(w, evs[0]), evs[1..])
  }

  // Before the first process: only a file, perhaps, whose times are the ones to account for.
  ghost function Initially(now: Time, file: Option<seq<Time>>): World {
    World(now, false, Counter([], file, multiset{}), multiset(Stored(file)))
  }

  /** Each time is held no more often than it has timers, whatever fails to be written. */
  ghost predicate Timed(w: World) {
    multiset(w.counter.times) <= w.counter.pending
  }

  lemma EventKeepsTimed(w: World, ev: Event)
    requires Timed(w) && Enabled(w, ev)
    ensures Timed(Apply(w, ev))
  {
    match ev
    case Inc(d, writes) => IncrementKeepsTimed(w.counter, w.now + d, writes);
    case Fire(t, writes) => DecrementKeepsTimed(w.counter, t, writes);
    case Reset(_) =>
    case Restart(_, _) =>
    case Pass(_) =>
  }

  lemma IncrementKeepsTimed(c: Counter, t: Time, writes: bool)
    requires multiset(c.times) <= c.pending
    ensures var c' := Incremented(c, t, writes); multiset(c'.times) <= c'.pending
  {
    assert multiset(c.times + [t]) == multiset(c.times) + multiset{t};
  }

  lemma DecrementKeepsTimed(c: Counter, t: Time, writes: bool)
    requires multiset(c.times) <= c.pending
    ensures var c' := Decremented(c, t, writes); multiset(c'.times) <= c'.pending
  {
    RemoveFirstTakesOne(c.times, t);
  }

  lemma {:induction false} AlwaysTimed(w: World, evs: seq<Event>)
    requires Timed(w) && IsHistory(w, evs)
    ensures Timed(ApplyAll(w, evs))
    decreases |evs|
  {
    if evs != [] {
      EventKeepsTimed(w, evs[0]);
      AlwaysTimed(Apply(w, evs[0]), evs[1..]);
    }
  }

  /** Without a reset each time is held exactly as often as it has timers. */
  lemma {:induction false} TimedExactly(w: World, evs: seq<Event>)
    requires multiset(w.counter.times) == w.counter.pending && IsHistory(w, evs)
    requires forall ev :: ev in evs ==> !ev.Reset?
    ensures multiset(ApplyAll(w, evs).counter.times) == ApplyAll(w, evs).counter.pending
    decreases |evs|
  {
    if evs != [] {
      if evs[0].Fire? {
        RemoveFirstTakesOne(w.counter.times, evs[0].t);
      }
      TimedExactly(Apply(w, evs[0]), evs[1..]);
    }
  }

  // times holds every expiry still to come, and nothing that is not an expiry.
  ghost predicate Covers(times: seq<Time>, expiries: multiset<Time>, now: Time) {
    multiset(times) <= expiries && forall t :: t > now ==> multiset(times)[t] == expiries[t]
  }

  ghost predicate Durable(w: World) {
    && Timed(w)
    && (w.running ==> w.counter.file == Some(w.counter.times))
    && Covers(Stored(w.counter.file), w.expiries, w.now)
  }

  // The expiries still to come.
  ghost function Unexpired(expiries: multiset<Time>, now: Time): (r: multiset<Time>)
    ensures forall t :: r[t] == if t > now then expiries[t] else 0
    decreases |expiries|
  {
    if exists t :: t in expiries then
      var t :| t in expiries;
      var rest := Unexpired(expiries - multiset{t}, now);
      if t > now then rest + multiset{t} else rest
    else multiset{}
  }

  /** What the count lies between, and when it is exact. */
  lemma CountIsBounded(w: World)
    requires w.running && Durable(w)
    ensures |Unexpired(w.expiries, w.now)| <= |w.counter.times| <= |w.counter.pending|
    ensures (forall t :: t in w.counter.pending ==> t > w.now) ==> multiset(w.counter.times) == Unexpired(w.expiries, w.now)
  {
    var times := multiset(w.counter.times);
    SmallerMultiset(Unexpired(w.expiries, w.now), times);
    SmallerMultiset(times, w.counter.pending);
    if forall t :: t in w.counter.pending ==> t > w.now {
      forall t ensures times[t] == Unexpired(w.expiries, w.now)[t] {
        assert t in times ==> t in w.counter.pending;
      }
    }
  }

  // A restart that fails is harmless; a write that fails while running is not.
  ghost predicate Written(ev: Event) {
    ev.Restart? || ev.Pass? || ev.writes
  }

  lemma CoversAfterInc(times: seq<Time>, expiries: multiset<Time>, now: Time, t: Time)
    requires Covers(times, expiries, now)
    ensures Covers(times + [t], expiries + multiset{t}, now)
  {
    assert multiset(times + [t]) == multiset(times) + multiset{t};
  }

  // A timer, even one left over from before a reset, takes away nothing that is still to come.
  lemma CoversAfterFire(times: seq<Time>, expiries: multiset<Time>, now: Time, t: Time)
    requires Covers(times, expiries, now) && t <= now
    ensures Covers(RemoveFirst(times, t), expiries, now)
  {
    RemoveFirstTakesOne(times, t);
  }

  lemma EventKeepsDurable(w: World, ev: Event)
    requires Durable(w) && Enabled(w, ev) && Written(ev)
    ensures Durable(Apply(w, ev))
  {
    EventKeepsTimed(w, ev);
    match ev
    case Inc(d, _) => CoversAfterInc(w.counter.times, w.expiries, w.now, w.now + d);
    case Fire(t, _) => CoversAfterFire(w.counter.times, w.expiries, w.now, t);
    case Reset(_) =>
    case Restart(_, _) =>
    case Pass(_) =>
  }

  lemma {:induction false} AlwaysDurable(w: World, evs: seq<Event>)
    requires Durable(w) && IsHistory(w, evs) && forall ev :: ev in evs ==> Written(ev)
    ensures Durable(ApplyAll(w, evs))
    decreases |evs|
  {
    if evs != [] {
      EventKeepsDurable(w, evs[0]);
      AlwaysDurable(Apply(w, evs[0]), evs[1..]);
    }
  }

  /**
   Over any history with successful writes, restarts and failed restarts included, the file holds
   what memory holds; and whenever no timer is overdue the counter counts exactly the increments
   since the last reset that have not yet expired. With no timer left it is zero.
   */
  lemma CountsTheUnexpired(now: Time, file: Option<seq<Time>>, evs: seq<Event>)
    requires IsHistory(Initially(now, file), evs) && forall ev :: ev in evs ==> Written(ev)
    ensures var w := ApplyAll(Initially(now, file), evs); w.running ==>
      && w.counter.file == Some(w.counter.times)
      && |Unexpired(w.expiries, w.now)| <= |w.counter.times| && multiset(w.counter.times) <= w.counter.pending
      && ((forall t :: t in w.counter.pending ==> t > w.now) ==> multiset(w.counter.times) == Unexpired(w.expiries, w.now))
      && (w.counter.pending == multiset{} ==> w.counter.times == [])
  {
    AlwaysDurable(Initially(now, file), evs);
    var w := ApplyAll(Initially(now, file), evs);
    if w.running {
      CountIsBounded(w);
    }
  }

  /** From any state the pending timers can all fire once their times have passed; the count is then zero. */
  lemma {:induction false} CanDrain(w: World) returns (evs: seq<Event>)
    requires w.running && Timed(w)
    ensures IsHistory(w, evs) && forall ev :: ev in evs ==> (ev.Fire? && Written(ev)) || ev.Pass?
    ensures ApplyAll(w, evs).counter.pending == multiset{} && ApplyAll(w, evs).counter.times == []
    decreases |w.counter.pending|
  {
    if t :| t in w.counter.pending {
      var pass, next := WaitAndFire(w, t);
      var rest := CanDrain(next);
      PrependEvent(Apply(w, pass), Fire(t, true), rest);
      PrependEvent(w, pass, [Fire(t, true)] + rest);
      evs := [pass] + ([Fire(t, true)] + rest);
    } else {
      NothingPending(w);
      evs := [];
    }
  }

  lemma WaitAndFire(w: World, t: Time) returns (pass: Event, next: World)
    requires w.running && Timed(w) && t in w.counter.pending
    ensures pass.Pass? && Enabled(Apply(w, pass), Fire(t, true)) && next == Apply(Apply(w, pass), Fire(t, true))
    ensures next.running && Timed(next) && next.counter.pending == w.counter.pending - multiset{t}
  {
    pass := Pass(if t > w.now then t - w.now else 0);
    next := Apply(Apply(w, pass), Fire(t, true));
    EventKeepsTimed(w, pass);
    EventKeepsTimed(Apply(w, pass), Fire(t, true));
  }

  lemma NothingPending(w: World)
    requires Timed(w) && forall t :: t !in w.counter.pending
    ensures w.counter.pending == multiset{} && w.counter.times == []
  {
    forall t: Time ensures w.counter.pending[t] == 0 {
      assert t !in w.counter.pending;
    }
    assert w.counter.pending == multiset{};
    SmallerMultiset(multiset(w.counter.times), w.counter.pending);
  }

  lemma PrependEvent(w: World, ev: Event, evs: seq<Event>)
    requires Enabled(w, ev) && IsHistory(Apply(w, ev), evs)
    ensures IsHistory(w, [ev] + evs) && ApplyAll(w, [ev] + evs) == ApplyAll(Apply(w, ev), evs)
  {
    assert ([ev] + evs)[1..] == evs;
  }

  lemma SmallerMultiset(a: multiset<Time>, b: multiset<Time>)
    requires a <= b
    ensures |a| <= |b|
  {
    assert b == a + (b - a);
  }
}
