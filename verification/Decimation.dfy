/**
 Decimation of old builds (go/buildskia/continuous.go), one round and over whole histories of
 builds and rounds. Builds are listed oldest first.
 */
module Decimation {
  import opened Common

  type Hash = string

  // Commit times in nanoseconds since Go's zero time; a hash without one fails to look up.
  type Times = map<Hash, int>

  const PRESERVE_DURATION: int := 30 * 24 * 3600 * 1_000_000_000

  /******* The protected prefix *******/

  // Build i is at least a month younger than the one before (the first: than the zero time).
  ghost predicate Spaced(hashes: seq<Hash>, ts: Times, i: nat)
    requires i < |hashes|
  {
    && hashes[i] in ts
    && (if i == 0 then ts[hashes[i]] >= PRESERVE_DURATION
        else hashes[i - 1] in ts && ts[hashes[i]] - ts[hashes[i - 1]] >= PRESERVE_DURATION)
  }

  // n is the number of leading builds that are a month apart.
  ghost predicate IsLeading(hashes: seq<Hash>, ts: Times, n: nat) {
    && n <= |hashes|
    && (forall i :: 0 <= i < n ==> Spaced(hashes, ts, i))
    && (n < |hashes| ==> !Spaced(hashes, ts, n))
  }

  ghost function Leading(hashes: seq<Hash>, ts: Times): (n: nat)
    ensures IsLeading(hashes, ts, n)
  {
    LeadingFrom(hashes, ts, 0)
  }

  ghost function LeadingFrom(hashes: seq<Hash>, ts: Times, i: nat): (n: nat)
    requires i <= |hashes| && forall j :: 0 <= j < i ==> Spaced(hashes, ts, j)
    ensures IsLeading(hashes, ts, n)
    decreases |hashes| - i
  {
    if i < |hashes| && Spaced(hashes, ts, i) then LeadingFrom(hashes, ts, i + 1) else i
  }

  // The last of the month-spaced builds counts as recent: it is where the next gap starts.
  ghost function OldiesEnd(hashes: seq<Hash>, ts: Times): nat {
    var n := Leading(hashes, ts);
    if n == 0 then 0 else n - 1
  }

  ghost function Protected(hashes: seq<Hash>, ts: Times): seq<Hash> {
    hashes[..OldiesEnd(hashes, ts)]
  }

  // The walk over the leading builds meets one whose details cannot be fetched.
  ghost predicate LookupFails(hashes: seq<Hash>, ts: Times) {
    var n := Leading(hashes, ts);
    n < |hashes| && hashes[n] !in ts
  }

  // Thirty days make the difference, in nanoseconds.
  lemma ThirtyDaysApart(a: Hash, b: Hash, t: int)
    requires a != b && t >= 2_592_000_000_000_000
    ensures Leading([a, b], map[a := t, b := t + 2_592_000_000_000_000]) == 2
    ensures Leading([a, b], map[a := t, b := t + 2_591_999_999_999_999]) == 1
  {
    var hashes := [a, b];
    var far := map[a := t, b := t + 2_592_000_000_000_000];
    var near := map[a := t, b := t + 2_591_999_999_999_999];
    assert Spaced(hashes, far, 0) && Spaced(hashes, far, 1);
    assert Spaced(hashes, near, 0) && !Spaced(hashes, near, 1);
  }

  // Lists that start with the same month-spaced builds agree on what is protected so far.
  lemma ProtectedByPrefix(hashes: seq<Hash>, ts: Times, after: seq<Hash>)
    requires Leading(hashes, ts) <= |after| && hashes[..Leading(hashes, ts)] == after[..Leading(hashes, ts)]
    ensures Protected(hashes, ts) <= Protected(after, ts)
  {
    var n, m := Leading(hashes, ts), Leading(after, ts);
    assert m >= n by {
      if m < n {
        assert Spaced(hashes, ts, m);
        assert after[m] == after[..n][m] == hashes[m];
        assert m > 0 ==> after[m - 1] == after[..n][m - 1] == hashes[m - 1];
        assert Spaced(after, ts, m);
      }
    }
    var e := OldiesEnd(hashes, ts);
    assert hashes[..e] == hashes[..n][..e] == after[..n][..e] == after[..e];
  }

  /******* One round *******/

  function Evens(s: seq<Hash>): seq<Hash> {
    seq((|s| + 1) / 2, i requires 0 <= i < (|s| + 1) / 2 => s[2 * i])
  }

  function Odds(s: seq<Hash>): seq<Hash> {
    seq(|s| / 2, i requires 0 <= i < |s| / 2 => s[2 * i + 1])
  }

  datatype Round = Round(keep: seq<Hash>, remove: seq<Hash>)

  // Beyond the first e builds every other one goes, except the newest; if there are enough.
  function Thin(hashes: seq<Hash>, e: nat, limit: int): Round
    requires e < |hashes|
  {
    if |hashes| - e < limit then Round(hashes, [])
    else
      var rest := hashes[e..|hashes| - 1];
      Round(hashes[..e] + Evens(rest) + [hashes[|hashes| - 1]], Odds(rest))
  }

  ghost predicate Drops(n: nat, e: nat, limit: int, i: int) {
    n - e >= limit && e <= i < n - 1 && (i - e) % 2 == 1
  }

  // The positions a round drops.
  ghost function Gone(n: nat, e: nat, limit: int): set<int> {
    set i | 0 <= i < n && Drops(n, e, limit, i)
  }

  // The elements of s at the positions that are (or are not) in ids, in order.
  ghost function Pick(s: seq<Hash>, ids: set<int>, want: bool): seq<Hash> {
    if s == [] then []
    else Pick(s[..|s| - 1], ids, want) + if (|s| - 1 in ids) == want then [s[|s| - 1]] else []
  }

  lemma {:induction false} PickAll(s: seq<Hash>, ids: set<int>)
    requires forall i :: 0 <= i < |s| ==> i !in ids
    ensures Pick(s, ids, false) == s && Pick(s, ids, true) == []
  {
    if s != [] {
      PickAll(s[..|s| - 1], ids);
    }
  }

  lemma {:induction false} PickSplits(s: seq<Hash>, ids: set<int>)
    ensures multiset(Pick(s, ids, true)) + multiset(Pick(s, ids, false)) == multiset(s)
  {
    if s != [] {
      var init, x := s[..|s| - 1], s[|s| - 1];
      PickSplits(init, ids);
      assert s == init + [x];
      PickLast(s, ids, true);
      PickLast(s, ids, false);
    }
  }

  lemma PickLast(s: seq<Hash>, ids: set<int>, want: bool)
    requires s != []
    ensures multiset(Pick(s, ids, want)) == multiset(Pick(s[..|s| - 1], ids, want))
      + if (|s| - 1 in ids) == want then multiset{s[|s| - 1]} else multiset{}
  {
  }

  lemma AlternateGrows(s: seq<Hash>, x: Hash)
    ensures Evens(s + [x]) == Evens(s) + if |s| % 2 == 0 then [x] else []
    ensures Odds(s + [x]) == Odds(s) + if |s| % 2 == 0 then [] else [x]
  {
  }

  // What is picked from the first m builds when every other one from e on is in ids.
  ghost predicate Alternates(hashes: seq<Hash>, e: nat, m: nat, ids: set<int>)
    requires e <= m <= |hashes|
  {
    && Pick(hashes[..m], ids, false) == hashes[..e] + Evens(hashes[e..m])
    && Pick(hashes[..m], ids, true) == Odds(hashes[e..m])
  }

  lemma AlternatesNext(hashes: seq<Hash>, e: nat, m: nat, ids: set<int>)
    requires e <= m < |hashes| && Alternates(hashes, e, m, ids) && (m in ids <==> (m - e) % 2 == 1)
    ensures Alternates(hashes, e, m + 1, ids)
  {
    PickNext(hashes, m, ids);
    var recent, x := hashes[e..m], hashes[m];
    assert hashes[e..m + 1] == recent + [x];
    AlternateGrows(recent, x);
  }

  lemma AlternatesNone(hashes: seq<Hash>, e: nat, ids: set<int>)
    requires e <= |hashes| && forall i :: 0 <= i < e ==> i !in ids
    ensures Alternates(hashes, e, e, ids)
  {
    PickAll(hashes[..e], ids);
  }

  lemma {:induction false} PickAlternates(hashes: seq<Hash>, e: nat, m: nat, ids: set<int>)
    requires e <= m <= |hashes|
    requires forall i :: 0 <= i < m ==> (i in ids <==> e <= i && (i - e) % 2 == 1)
    ensures Alternates(hashes, e, m, ids)
  {
    if m == e {
      AlternatesNone(hashes, e, ids);
    } else {
      PickAlternates(hashes, e, m - 1, ids);
      AlternatesNext(hashes, e, m - 1, ids);
    }
  }

  lemma PickNext(hashes: seq<Hash>, m: nat, ids: set<int>)
    requires m < |hashes|
    ensures Pick(hashes[..m + 1], ids, false) == Pick(hashes[..m], ids, false) + if m in ids then [] else [hashes[m]]
    ensures Pick(hashes[..m + 1], ids, true) == Pick(hashes[..m], ids, true) + if m in ids then [hashes[m]] else []
  {
    assert hashes[..m + 1][..m] == hashes[..m];
  }

  // Every other build from e on, and the newest build, which is not dropped.
  lemma PickRound(hashes: seq<Hash>, e: nat, ids: set<int>)
    requires e < |hashes|
    requires forall i :: 0 <= i < |hashes| - 1 ==> (i in ids <==> e <= i && (i - e) % 2 == 1)
    requires |hashes| - 1 !in ids
    ensures Pick(hashes, ids, false) == hashes[..e] + Evens(hashes[e..|hashes| - 1]) + [hashes[|hashes| - 1]]
    ensures Pick(hashes, ids, true) == Odds(hashes[e..|hashes| - 1])
  {
    PickAlternates(hashes, e, |hashes| - 1, ids);
  }

  /** A round sorts every listed position into kept and dropped, keeping the order of both. */
  lemma RoundPartitions(hashes: seq<Hash>, e: nat, limit: int)
    requires e < |hashes|
    ensures Thin(hashes, e, limit).keep == Pick(hashes, Gone(|hashes|, e, limit), false)
    ensures Thin(hashes, e, limit).remove == Pick(hashes, Gone(|hashes|, e, limit), true)
  {
    if |hashes| - e < limit {
      PickAll(hashes, Gone(|hashes|, e, limit));
    } else {
      PickRound(hashes, e, Gone(|hashes|, e, limit));
    }
  }

  lemma RoundConserves(hashes: seq<Hash>, e: nat, limit: int)
    requires e < |hashes|
    ensures multiset(Thin(hashes, e, limit).keep) + multiset(Thin(hashes, e, limit).remove) == multiset(hashes)
  {
    RoundPartitions(hashes, e, limit);
    PickSplits(hashes, Gone(|hashes|, e, limit));
  }

  /**
   Never two neighbours, never the newest, never one of the first e + 1; and n recent builds
   become n / 2 + 1 as soon as n reaches the limit. (The comment in the source says limit / 2.)
   */
  lemma RoundSpares(hashes: seq<Hash>, e: nat, limit: int)
    requires e < |hashes|
    ensures forall i :: i in Gone(|hashes|, e, limit) ==> e < i < |hashes| - 1 && i + 1 !in Gone(|hashes|, e, limit)
    ensures var keep := Thin(hashes, e, limit).keep;
      && keep != [] && keep[|keep| - 1] == hashes[|hashes| - 1]
      && e + 1 <= |keep| && keep[..e + 1] == hashes[..e + 1]
    ensures |Thin(hashes, e, limit).keep| - e ==
      if |hashes| - e >= limit then (|hashes| - e) / 2 + 1 else |hashes| - e
  {
    SparesFirst(hashes, e, limit);
  }

  lemma SparesFirst(hashes: seq<Hash>, e: nat, limit: int)
    requires e < |hashes|
    ensures var keep := Thin(hashes, e, limit).keep; e < |keep| && keep[..e + 1] == hashes[..e + 1]
  {
    var keep := Thin(hashes, e, limit).keep;
    if |hashes| - e >= limit {
      var rest := hashes[e..|hashes| - 1];
      var recent := Evens(rest) + [hashes[|hashes| - 1]];
      assert keep == hashes[..e] + recent && recent[0] == hashes[e];
      FirstAndNext(hashes[..e], recent);
    }
    assert hashes[..e + 1] == hashes[..e] + [hashes[e]];
  }

  lemma FirstAndNext(first: seq<Hash>, rest: seq<Hash>)
    requires rest != []
    ensures (first + rest)[..|first| + 1] == first + [rest[0]]
  {
  }

  // The first loop of decimate: lastTS starts at the zero time.
  method FindOldiesEnd(hashes: seq<Hash>, ts: Times) returns (r: Option<nat>)
    requires hashes != []
    ensures r.None? <==> LookupFails(hashes, ts)
    ensures r.Some? ==> r.value == OldiesEnd(hashes, ts) && r.value < |hashes|
  {
    var oldiesEnd, lastTS := 0, 0;
    if hashes[0] !in ts {
      assert !Spaced(hashes, ts, 0);
      return None;
    }
    for i := 0 to |hashes|
      invariant i == 0 ==> oldiesEnd == 0 && lastTS == 0
      invariant i > 0 ==> oldiesEnd == i - 1 && hashes[i - 1] in ts && lastTS == ts[hashes[i - 1]]
      invariant forall j :: 0 <= j < i ==> Spaced(hashes, ts, j)
    {
      if hashes[i] !in ts {
        assert !Spaced(hashes, ts, i);
        return None;
      }
      if ts[hashes[i]] - lastTS < PRESERVE_DURATION {
        assert !Spaced(hashes, ts, i);
        return Some(oldiesEnd);
      }
      lastTS := ts[hashes[i]];
      oldiesEnd := i;
    }
    return Some(oldiesEnd);
  }

  method Alternate(s: seq<Hash>) returns (keep: seq<Hash>, remove: seq<Hash>)
    ensures keep == Evens(s) && remove == Odds(s)
  {
    keep, remove := [], [];
    for i := 0 to |s|
      invariant keep == Evens(s[..i]) && remove == Odds(s[..i])
    {
      if i % 2 == 0 {
        keep := keep + [s[i]];
      } else {
        remove := remove + [s[i]];
      }
    }
    assert s[..|s|] == s;
  }

  lemma ThinOf(hashes: seq<Hash>, e: nat, limit: int)
    requires e < |hashes|
    ensures var oldies, recent := hashes[..e], hashes[e..];
      var rest, last := recent[..|recent| - 1], recent[|recent| - 1];
      Thin(hashes, e, limit) ==
        if |recent| < limit then Round(oldies + recent, []) else Round(oldies + (Evens(rest) + [last]), Odds(rest))
  {
    var oldies, recent := hashes[..e], hashes[e..];
    assert oldies + recent == hashes;
    assert recent[..|recent| - 1] == hashes[e..|hashes| - 1];
    assert oldies + Evens(hashes[e..|hashes| - 1]) + [hashes[|hashes| - 1]] == oldies + (Evens(hashes[e..|hashes| - 1]) + [hashes[|hashes| - 1]]);
  }

  method Decimate(hashes: seq<Hash>, ts: Times, limit: int) returns (r: Option<Round>)
    requires hashes != []
    ensures r.None? <==> LookupFails(hashes, ts)
    ensures r.Some? ==> OldiesEnd(hashes, ts) < |hashes| && r.value == Thin(hashes, OldiesEnd(hashes, ts), limit)
  {
    var end := FindOldiesEnd(hashes, ts);
    if end.None? {
      return None;
    }
    var oldies, recent := hashes[..end.value], hashes[end.value..];
    ThinOf(hashes, end.value, limit);
    if |recent| < limit {
      return Some(Round(oldies + recent, []));
    }
    var last := recent[|recent| - 1];
    var keep, remove := Alternate(recent[..|recent| - 1]);
    return Some(Round(oldies + (keep + [last]), remove));
  }

  /******* Histories *******/

  datatype Event = Built(hash: Hash) | Decimated

  // The list, everything ever removed and everything ever built.
  datatype State = State(hashes: seq<Hash>, removed: multiset<Hash>, built: multiset<Hash>)

  ghost function Apply(s: State, ev: Event, ts: Times, limit: int): State {
    match ev
    case Built(h) => State(s.hashes + [h], s.removed, s.built + multiset{h})
    case Decimated =>
      if s.hashes == [] || LookupFails(s.hashes, ts) then s
      else
        var round := Thin(s.hashes, OldiesEnd(s.hashes, ts), limit);
        State(round.keep, s.removed + multiset(round.remove), s.built)
  }

  ghost function ApplyAll(s: State, evs: seq<Event>, ts: Times, limit: int): State
    decreases |evs|
  {
    if evs == [] then s else ApplyAll(Apply(s, evs[0], ts, limit), evs[1..], ts, limit)
  }

  ghost predicate Conserved(s: State) {
    s.built == multiset(s.hashes) + s.removed
  }

  lemma EventKeepsProtected(s: State, ev: Event, ts: Times, limit: int)
    ensures Protected(s.hashes, ts) <= Protected(Apply(s, ev, ts, limit).hashes, ts)
  {
    var after := Apply(s, ev, ts, limit).hashes;
    var n := Leading(s.hashes, ts);
    if ev.Built? {
      assert after[..n] == s.hashes[..n];
    } else if s.hashes != [] && !LookupFails(s.hashes, ts) {
      var e := OldiesEnd(s.hashes, ts);
      RoundSpares(s.hashes, e, limit);
      assert s.hashes[..n] == s.hashes[..e + 1][..n];
      assert after[..n] == after[..e + 1][..n];
    }
    ProtectedByPrefix(s.hashes, ts, after);
  }

  lemma EventConserves(s: State, ev: Event, ts: Times, limit: int)
    requires Conserved(s)
    ensures Conserved(Apply(s, ev, ts, limit))
  {
    if ev.Decimated? && s.hashes != [] && !LookupFails(s.hashes, ts) {
      RoundConserves(s.hashes, OldiesEnd(s.hashes, ts), limit);
    }
  }

  ghost function Last(hashes: seq<Hash>): Option<Hash> {
    if hashes == [] then None else Some(hashes[|hashes| - 1])
  }

  lemma EventKeepsNewest(s: State, ev: Event, ts: Times, limit: int)
    ensures Last(Apply(s, ev, ts, limit).hashes) == if ev.Built? then Some(ev.hash) else Last(s.hashes)
  {
    if s.hashes != [] && ev.Decimated? && !LookupFails(s.hashes, ts) {
      RoundSpares(s.hashes, OldiesEnd(s.hashes, ts), limit);
    }
  }

  // The build made last, be it before the history or in it.
  ghost function Newest(last: Option<Hash>, evs: seq<Event>): Option<Hash>
    decreases |evs|
  {
    if evs == [] then last
    else Newest(if evs[0].Built? then Some(evs[0].hash) else last, evs[1..])
  }

  /**
   Over any history the month-spaced prefix only grows, every build made is either listed or was
   handed to removal, exactly as often as it was built, and the newest build stays listed, last.
   */
  lemma {:induction false} HistoryKeeps(s: State, evs: seq<Event>, ts: Times, limit: int)
    ensures Protected(s.hashes, ts) <= Protected(ApplyAll(s, evs, ts, limit).hashes, ts)
    ensures Conserved(s) ==> Conserved(ApplyAll(s, evs, ts, limit))
    ensures Last(ApplyAll(s, evs, ts, limit).hashes) == Newest(Last(s.hashes), evs)
    decreases |evs|
  {
    if evs != [] {
      EventKeepsProtected(s, evs[0], ts, limit);
      if Conserved(s) {
        EventConserves(s, evs[0], ts, limit);
      }
      EventKeepsNewest(s, evs[0], ts, limit);
      HistoryKeeps(Apply(s, evs[0], ts, limit), evs[1..], ts, limit);
    }
  }

  /******* The builder *******/

  ghost predicate Once(hashes: seq<Hash>) {
    forall h :: h in hashes ==> multiset(hashes)[h] == 1
  }

  // A hash listed once is on one side of a round only.
  lemma OnceSplits(hashes: seq<Hash>, e: nat, limit: int)
    requires e < |hashes| && Once(hashes)
    ensures Once(Thin(hashes, e, limit).keep)
    ensures forall h :: h in Thin(hashes, e, limit).keep ==> h in hashes && h !in Thin(hashes, e, limit).remove
  {
    RoundConserves(hashes, e, limit);
    var round := Thin(hashes, e, limit);
    forall h | h in round.keep
      ensures h in hashes && h !in round.remove && multiset(round.keep)[h] == 1
    {
      assert h in multiset(round.keep);
      assert h in multiset(hashes);
    }
  }

  // Every listed build can be used: it is listed once and its directory is there.
  ghost predicate AllUsable(hashes: seq<Hash>, versions: set<Hash>) {
    Once(hashes) && forall h :: h in hashes ==> h in versions
  }

  lemma UsableAppend(hashes: seq<Hash>, versions: set<Hash>, hash: Hash)
    requires AllUsable(hashes, versions) && hash !in hashes
    ensures AllUsable(hashes + [hash], versions + {hash})
  {
    forall h | h in hashes + [hash] ensures multiset(hashes + [hash])[h] == 1 {
      assert h == hash || h in hashes;
    }
  }

  class ContinuousBuilder {
    // AvailableBuilds caches the good-builds file here.
    var hashes: seq<Hash>
    var goodBuilds: seq<Hash>
    // The directories under versions/.
    var versions: set<Hash>
    const preserve: int
    ghost var state: State

    ghost predicate Usable()
      reads this
    {
      AllUsable(hashes, versions)
    }

    ghost predicate Valid()
      reads this
    {
      hashes == state.hashes && Conserved(state)
    }

    constructor (preserve: int, goodBuilds: seq<Hash>, versions: set<Hash>)
      ensures Valid() && hashes == goodBuilds && this.goodBuilds == goodBuilds
      ensures state == State(goodBuilds, multiset{}, multiset(goodBuilds))
      ensures this.versions == versions && this.preserve == preserve
    {
      this.preserve, this.goodBuilds, this.versions := preserve, goodBuilds, versions;
      this.hashes := goodBuilds;
      this.state := State(goodBuilds, multiset{}, multiset(goodBuilds));
    }

    // What a successful build adds to the list.
    method AddBuild(hash: Hash)
      requires Valid()
      modifies this`hashes, this`versions, this`state
      ensures Valid() && state == Apply(old(state), Built(hash), map[], preserve)
      ensures hashes == old(hashes) + [hash] && versions == old(versions) + {hash}
      ensures old(Usable()) && hash !in old(hashes) ==> Usable()
    {
      EventConserves(state, Built(hash), map[], preserve);
      if Usable() && hash !in hashes {
        UsableAppend(hashes, versions, hash);
      }
      versions := versions + {hash};
      hashes := hashes + [hash];
      state := Apply(state, Built(hash), map[], preserve);
    }

    // BuildLatestSkia for the hash fetched from upstream. A build that fails may leave its
    // directory behind.
    method BuildLatestSkia(hash: Hash, force: bool, succeeds: bool, leaves: bool, writes: bool) returns (ok: bool)
      requires Valid()
      modifies this
      ensures Valid()
      ensures hash in old(versions) && !force ==> !ok && hashes == old(hashes) && versions == old(versions)
      ensures hash !in old(versions) || force ==> ok == (succeeds && writes)
      ensures state == if (force || hash !in old(versions)) && succeeds
        then Apply(old(state), Built(hash), map[], preserve) else old(state)
      ensures versions == if (force || hash !in old(versions)) && (succeeds || leaves)
        then old(versions) + {hash} else old(versions)
      ensures goodBuilds == if ok then old(goodBuilds) + [hash] else old(goodBuilds)
      ensures old(Usable()) && (!force || hash !in old(hashes)) ==> Usable()
      ensures old(hashes == goodBuilds) && writes ==> hashes == goodBuilds
    {
      ok := false;
      if hash in versions && !force {
        return;
      }
      if !succeeds {
        versions := if leaves then versions + {hash} else versions;
        return;
      }
      AddBuild(hash);
      if !writes {
        return;
      }
      goodBuilds := goodBuilds + [hash];
      ok := true;
    }

    // One tick of startDecimation; the directories in stuck cannot be removed.
    method DecimationRound(ts: Times, stuck: set<Hash>, writes: bool)
      requires Valid()
      modifies this
      ensures Valid() && state == Apply(old(state), Decimated, ts, preserve)
      ensures Protected(old(hashes), ts) <= Protected(hashes, ts)
      ensures Last(hashes) == Last(old(hashes))
      ensures LeftAfter(old(state), state, old(versions), stuck, versions)
      ensures old(Usable()) ==> Usable()
      ensures old(hashes == goodBuilds) && writes ==> hashes == goodBuilds
    {
      EventKeepsProtected(state, Decimated, ts, preserve);
      EventKeepsNewest(state, Decimated, ts, preserve);
      if hashes == [] {
        return;
      }
      var round := Decimate(hashes, ts, preserve);
      if round.None? {
        return;
      }
      var left := RemoveAll(versions, round.value.remove, stuck);
      RoundOfState(state, ts, preserve, round.value, versions, stuck, left);
      EventConserves(state, Decimated, ts, preserve);
      Install(round.value.keep, left, writes, Apply(state, Decimated, ts, preserve));
    }

    method Install(keep: seq<Hash>, left: set<Hash>, writes: bool, ghost next: State)
      requires keep == next.hashes && Conserved(next)
      modifies this
      ensures Valid() && hashes == keep && versions == left && state == next
      ensures goodBuilds == if writes then keep else old(goodBuilds)
    {
      versions, hashes, state := left, keep, next;
      if writes {
        goodBuilds := hashes;
      }
    }
  }

  // The directories left after a round from before to after.
  ghost predicate LeftAfter(before: State, after: State, versions: set<Hash>, stuck: set<Hash>, left: set<Hash>) {
    && (forall h :: h in left <==> h in versions && (h in stuck || h !in after.removed - before.removed))
    && (forall h :: h in versions - left ==> h in before.hashes)
    && (AllUsable(before.hashes, versions) ==> AllUsable(after.hashes, left))
  }

  // What a round makes of a state, in terms of the two lists it comes to.
  lemma RoundOfState(s: State, ts: Times, limit: int, round: Round, versions: set<Hash>, stuck: set<Hash>, left: set<Hash>)
    requires s.hashes != [] && !LookupFails(s.hashes, ts) && OldiesEnd(s.hashes, ts) < |s.hashes|
    requires round == Thin(s.hashes, OldiesEnd(s.hashes, ts), limit)
    requires forall h :: h in left <==> h in versions && (h in stuck || h !in round.remove)
    ensures Apply(s, Decimated, ts, limit).hashes == round.keep
    ensures LeftAfter(s, Apply(s, Decimated, ts, limit), versions, stuck, left)
  {
    RoundIsSafe(s.hashes, OldiesEnd(s.hashes, ts), limit, versions);
    var after := Apply(s, Decimated, ts, limit);
    assert after.removed - s.removed == multiset(round.remove);
    assert forall h :: h in multiset(round.remove) <==> h in round.remove;
  }

  // What is removed was listed, and from a usable list nothing is removed that stays listed.
  lemma RoundIsSafe(hashes: seq<Hash>, e: nat, limit: int, versions: set<Hash>)
    requires e < |hashes|
    ensures forall h :: h in Thin(hashes, e, limit).remove ==> h in hashes
    ensures AllUsable(hashes, versions) ==>
      Once(Thin(hashes, e, limit).keep) && forall h :: h in Thin(hashes, e, limit).keep ==> h in versions && h !in Thin(hashes, e, limit).remove
  {
    RoundConserves(hashes, e, limit);
    var round := Thin(hashes, e, limit);
    forall h | h in round.remove ensures h in hashes {
      assert h in multiset(round.remove);
      assert h in multiset(hashes);
    }
    if Once(hashes) {
      OnceSplits(hashes, e, limit);
    }
  }

  method RemoveAll(versions: set<Hash>, remove: seq<Hash>, stuck: set<Hash>) returns (left: set<Hash>)
    ensures forall h :: h in left <==> h in versions && (h in stuck || h !in remove)
  {
    left := versions;
    for i := 0 to |remove|
      invariant forall h :: h in left <==> h in versions && (h in stuck || h !in remove[..i])
    {
      if remove[i] !in stuck {
        left := left - {remove[i]};
      }
    }
    assert remove[..|remove|] == remove;
  }

  lemma {:induction false} PickHolds(s: seq<Hash>, ids: set<int>, want: bool, h: Hash)
    ensures h in Pick(s, ids, want) <==> exists i :: 0 <= i < |s| && s[i] == h && (i in ids) == want
  {
    if s != [] {
      PickHolds(s[..|s| - 1], ids, want, h);
      assert forall i :: 0 <= i < |s| - 1 ==> s[..|s| - 1][i] == s[i];
    }
  }

  /** A round removes no kept build's checkout exactly when no hash sits at a dropped and a kept position. */
  lemma RoundSafeIff(hashes: seq<Hash>, e: nat, limit: int)
    requires e < |hashes|
    ensures (forall h :: h in Thin(hashes, e, limit).keep ==> h !in Thin(hashes, e, limit).remove)
      <==> (forall i, j :: 0 <= i < |hashes| && 0 <= j < |hashes| && Drops(|hashes|, e, limit, i) && !Drops(|hashes|, e, limit, j)
              ==> hashes[i] != hashes[j])
  {
    RoundPartitions(hashes, e, limit);
    var gone := Gone(|hashes|, e, limit);
    forall i, j | 0 <= i < |hashes| && 0 <= j < |hashes| && i in gone && j !in gone && hashes[i] == hashes[j]
      ensures hashes[j] in Pick(hashes, gone, false) && hashes[j] in Pick(hashes, gone, true)
    {
      PickHolds(hashes, gone, true, hashes[j]);
      PickHolds(hashes, gone, false, hashes[j]);
    }
    forall h | h in Pick(hashes, gone, true) && h in Pick(hashes, gone, false)
      ensures exists i, j :: 0 <= i < |hashes| && 0 <= j < |hashes| && i in gone && j !in gone && hashes[i] == hashes[j]
    {
      PickHolds(hashes, gone, true, h);
      PickHolds(hashes, gone, false, h);
    }
  }

  lemma NotSpacedIsLeading(hashes: seq<Hash>, ts: Times)
    requires |hashes| > 1 && Spaced(hashes, ts, 0) && !Spaced(hashes, ts, 1)
    ensures Leading(hashes, ts) == 1 && OldiesEnd(hashes, ts) == 0
  {
  }

  // Builds of one month, of which the second was made again by force.
  lemma RebuiltRound(a: Hash, b: Hash, c: Hash, ts: Times)
    requires var hashes := [a, b, c, b]; Spaced(hashes, ts, 0) && !Spaced(hashes, ts, 1) && b in ts
    ensures var hashes := [a, b, c, b];
      !LookupFails(hashes, ts) && OldiesEnd(hashes, ts) == 0 && Thin(hashes, 0, 4) == Round([a, c, b], [b])
  {
    var hashes := [a, b, c, b];
    NotSpacedIsLeading(hashes, ts);
    assert hashes[0..3] == [a, b, c];
    assert Evens(hashes[0..3]) == [a, c];
    assert Odds(hashes[0..3]) == [b];
  }

  /**
   From a usable list, with every commit known and all of one month: a forced rebuild lists a hash
   twice, and the next round removes the checkout of a build that stays listed.
   */
  lemma ForcedRebuildLosesCheckout(a: Hash, b: Hash, c: Hash, t: int)
    requires a != b && b != c && c != a && t >= PRESERVE_DURATION
    ensures var ts: Times := map[a := t, b := t + 1, c := t + 2];
      var before := State([a, b, c], multiset{}, multiset([a, b, c]));
      var built := Apply(before, Built(b), map[], 4);
      var after := Apply(built, Decimated, ts, 4);
      && AllUsable(before.hashes, {a, b, c}) && !Once(built.hashes)
      && after.hashes == [a, c, b] && after.removed - built.removed == multiset{b}
  {
    var ts: Times := map[a := t, b := t + 1, c := t + 2];
    var built := [a, b, c, b];
    assert [a, b, c] + [b] == built;
    assert multiset(built)[b] == 2;
    RebuiltRound(a, b, c, ts);
    assert multiset([b]) == multiset{b};
  }

  // The same, done with a builder.
  method RebuildAndDecimate(a: Hash, b: Hash, c: Hash, t: int) returns (builder: ContinuousBuilder)
    requires a != b && b != c && c != a && t >= PRESERVE_DURATION
    ensures b in builder.hashes && b !in builder.versions
  {
    ForcedRebuildLosesCheckout(a, b, c, t);
    var ts: Times := map[a := t, b := t + 1, c := t + 2];
    builder := new ContinuousBuilder(4, [a, b, c], {a, b, c});
    var _ := builder.BuildLatestSkia(b, true, true, false, true);
    builder.DecimationRound(ts, {}, true);
    assert b in multiset{b} && [a, c, b][2] == b;
  }
}
