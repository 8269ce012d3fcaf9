/**
 The commit log of a Gitiles server (go/gitiles/gitiles.go): a limit spanning several pages, the
 first-parent filter and the memoised ancestry search.
 */
module Gitiles {
  import opened Common

  type Hash = string

  datatype Commit = Commit(hash: Hash, parents: seq<Hash>)

  /******* Options *******/

  datatype LogOption = Limit(n: int) | BatchSize(n: int) | Reverse | Path(path: string)

  // The query that is sent: page size and order; and the limit kept by the client, 0 if there is none.
  datatype Query = Query(path: string, pageSize: Option<int>, reverse: bool, limit: int)

  function Sizes(opts: seq<LogOption>): seq<int> {
    if opts == [] then []
    else
      var last := opts[|opts| - 1];
      Sizes(opts[..|opts| - 1]) + (if last.Limit? || last.BatchSize? then [last.n] else [])
  }

  function Paths(opts: seq<LogOption>): nat {
    if opts == [] then 0
    else
      var last := opts[|opts| - 1];
      Paths(opts[..|opts| - 1]) + (if last.Path? && last.path != "" then 1 else 0)
  }

  ghost predicate IsMin(m: Option<int>, s: seq<int>) {
    if s == [] then m == None
    else m.Some? && m.value in s && forall i :: 0 <= i < |s| ==> m.value <= s[i]
  }

  // The last limit given counts.
  ghost predicate IsLimit(limit: int, opts: seq<LogOption>) {
    || (limit == 0 && forall i :: 0 <= i < |opts| ==> !opts[i].Limit?)
    || exists i :: 0 <= i < |opts| && opts[i] == Limit(limit) && forall j :: i < j < |opts| ==> !opts[j].Limit?
  }

  // The page size asked for is the minimum of all limits and batch sizes; at most one option
  // names a path.
  ghost predicate Describes(q: Query, opts: seq<LogOption>) {
    && IsMin(q.pageSize, Sizes(opts)) && IsLimit(q.limit, opts)
    && (q.reverse <==> Reverse in opts)
    && (if Paths(opts) == 0 then q.path == "" else Paths(opts) == 1 && q.path != "" && Path(q.path) in opts)
  }

  method LogOptionsToQuery(opts: seq<LogOption>) returns (q: Option<Query>)
    ensures q.None? <==> Paths(opts) > 1
    ensures q.Some? ==> Describes(q.value, opts)
  {
    var path, pageSize, reverse, limit := "", None, false, 0;
    for i := 0 to |opts|
      invariant Describes(Query(path, pageSize, reverse, limit), opts[..i])
    {
      OptionKeeps(Query(path, pageSize, reverse, limit), opts, i);
      match opts[i] {
        case Path(p) =>
          if p != "" {
            if path != "" {
              return None;
            }
            path := p;
          }
        case Reverse => reverse := true;
        case Limit(n) =>
          pageSize := Smaller(pageSize, n);
          limit := n;
        case BatchSize(n) => pageSize := Smaller(pageSize, n);
      }
    }
    assert opts[..|opts|] == opts;
    q := Some(Query(path, pageSize, reverse, limit));
  }

  function Smaller(m: Option<int>, n: int): Option<int> {
    if m.Some? && !(n < m.value) then m else Some(n)
  }

  // What one more option makes of the query; a second path is an error.
  ghost function With(q: Query, opt: LogOption): Option<Query> {
    match opt
    case Path(p) => if p == "" then Some(q) else if q.path == "" then Some(q.(path := p)) else None
    case Reverse => Some(q.(reverse := true))
    case Limit(n) => Some(q.(pageSize := Smaller(q.pageSize, n), limit := n))
    case BatchSize(n) => Some(q.(pageSize := Smaller(q.pageSize, n)))
  }

  lemma OptionKeeps(q: Query, opts: seq<LogOption>, i: nat)
    requires i < |opts| && Describes(q, opts[..i])
    ensures match With(q, opts[i]) case Some(q') => Describes(q', opts[..i + 1]) case None => Paths(opts) > 1
  {
    assert opts[..i + 1] == opts[..i] + [opts[i]];
    OptionDescribed(q, opts[..i], opts[i]);
    PathsGrow(opts, i + 1);
  }

  lemma OptionDescribed(q: Query, opts: seq<LogOption>, opt: LogOption)
    requires Describes(q, opts)
    ensures match With(q, opt) case Some(q') => Describes(q', opts + [opt]) case None => Paths(opts + [opt]) > 1
  {
    var opts' := opts + [opt];
    assert opts'[..|opts|] == opts && opt in opts';
    if opt.Limit? || opt.BatchSize? {
      SmallerIsMin(q.pageSize, Sizes(opts), opt.n);
    }
    LimitKeeps(q.limit, opts, opt);
  }

  lemma SmallerIsMin(m: Option<int>, s: seq<int>, n: int)
    requires IsMin(m, s)
    ensures IsMin(Smaller(m, n), s + [n])
  {
  }

  lemma LimitKeeps(limit: int, opts: seq<LogOption>, opt: LogOption)
    requires IsLimit(limit, opts)
    ensures IsLimit(if opt.Limit? then opt.n else limit, opts + [opt])
  {
    var opts' := opts + [opt];
    if opt.Limit? {
      assert opts'[|opts|] == Limit(opt.n);
    } else if i :| 0 <= i < |opts| && opts[i] == Limit(limit) && forall j :: i < j < |opts| ==> !opts[j].Limit? {
      assert opts'[i] == Limit(limit);
    }
  }

  lemma {:induction false} PathsGrow(opts: seq<LogOption>, i: nat)
    requires i <= |opts|
    ensures Paths(opts[..i]) <= Paths(opts)
    decreases |opts| - i
  {
    if i < |opts| {
      assert opts[..i + 1][..i] == opts[..i];
      PathsGrow(opts, i + 1);
    } else {
      assert opts[..i] == opts;
    }
  }

  /******* Paging *******/

  datatype Page = Page(entries: seq<Commit>, next: Option<nat>)

  // A server with a fixed log, cut into pages as it likes; a cursor always moves on.
  class Server {
    const log: seq<Commit>
    const reliable: bool

    constructor (log: seq<Commit>, reliable: bool)
      ensures this.log == log && this.reliable == reliable
    {
      this.log, this.reliable := log, reliable;
    }

    method Fetch(start: nat) returns (page: Option<Page>)
      requires start <= |log|
      ensures page.None? ==> !reliable
      ensures page.Some? ==>
        var end := start + |page.value.entries|;
        && end <= |log| && page.value.entries == log[start..end]
        && match page.value.next case None => end == |log| case Some(cursor) => start < end == cursor
    {
      var fault: bool := *;
      if fault && !reliable {
        return None;
      }
      var end: nat :| start <= end <= |log| && (start < end || end == |log|);
      var more: bool := *;
      var next := if end < |log| || (more && start < end) then Some(end) else None;
      page := Some(Page(log[start..end], next));
    }
  }

  ghost function FirstOf(log: seq<Commit>, limit: int): seq<Commit> {
    if limit > 0 && limit < |log| then log[..limit] else log
  }

  lemma ConcatSlices(log: seq<Commit>, start: nat, n: nat, k: nat)
    requires start + n <= |log| && k <= n
    ensures log[..start] + log[start..start + n][..k] == log[..start + k]
  {
    assert log[start..start + n][..k] == log[start..start + k];
  }

  // The entries of a page, up to the limit.
  method TakeBatch(entries: seq<Commit>, seenBefore: nat, limit: int) returns (batch: seq<Commit>)
    requires limit > 0 ==> seenBefore < limit
    ensures batch == entries[..if limit > 0 && limit - seenBefore < |entries| then limit - seenBefore else |entries|]
  {
    batch := [];
    var seen := seenBefore;
    for i := 0 to |entries|
      invariant batch == entries[..i] && seen == seenBefore + i
      invariant limit > 0 ==> seen < limit
    {
      batch := batch + [entries[i]];
      assert batch == entries[..i + 1];
      seen := seen + 1;
      if limit > 0 && seen == limit {
        return;
      }
    }
  }

  // Log with a positive limit returns exactly that many commits, or all if there are fewer; with
  // no positive limit it returns all.
  method Log(server: Server, limit: int) returns (rv: Option<seq<Commit>>)
    ensures rv.Some? ==> rv.value == FirstOf(server.log, limit) && rv.value <= server.log
    ensures rv.Some? ==> |rv.value| == if 0 < limit < |server.log| then limit else |server.log|
    ensures rv.None? ==> !server.reliable
  {
    var commits: seq<Commit> := [];
    var seen, start := 0, 0;
    while true
      invariant seen == start == |commits| <= |server.log| && commits == server.log[..start]
      invariant limit > 0 ==> seen < limit
      decreases |server.log| - start
    {
      var page := server.Fetch(start);
      if page.None? {
        return None;
      }
      var batch := TakeBatch(page.value.entries, seen, limit);
      ConcatSlices(server.log, start, |page.value.entries|, |batch|);
      commits := commits + batch;
      seen := seen + |batch|;
      if page.value.next.None? || (limit > 0 && seen >= limit) {
        return Some(commits);
      }
      start := page.value.next.value;
    }
  }

  /******* First-parent chains *******/

  function MapOf(commits: seq<Commit>): (m: map<Hash, Commit>)
    ensures forall h :: h in m ==> m[h].hash == h && m[h] in commits
    ensures forall c :: c in commits ==> c.hash in m
  {
    if commits == [] then map[]
    else
      var last := commits[|commits| - 1];
      MapOf(commits[..|commits| - 1])[last.hash := last]
  }

  // A commit comes after its first parent: no commit is its own ancestor.
  ghost predicate Ranked(m: map<Hash, Commit>, rank: map<Hash, nat>) {
    forall h :: h in m && m[h].parents != [] && m[h].parents[0] in m ==>
      h in rank && m[h].parents[0] in rank && rank[m[h].parents[0]] < rank[h]
  }

  ghost function Height(m: map<Hash, Commit>, rank: map<Hash, nat>, h: Hash): nat {
    if h !in m then 0 else if h in rank then rank[h] + 1 else 1
  }

  // The commits reached from h along first parents without leaving the log.
  ghost function Chain(m: map<Hash, Commit>, rank: map<Hash, nat>, h: Hash): (r: seq<Commit>)
    requires Ranked(m, rank)
    ensures r == [] <==> h !in m
    ensures h in m ==> r[0] == m[h]
    decreases Height(m, rank, h)
  {
    if h !in m then []
    else if m[h].parents == [] then [m[h]]
    else [m[h]] + Chain(m, rank, m[h].parents[0])
  }

  // r begins with the commit h, each commit in it comes before its first parent, and the first
  // parent of the last, if there is one, is not in the log.
  ghost predicate IsChain(m: map<Hash, Commit>, h: Hash, r: seq<Commit>) {
    if h !in m then r == []
    else
      && r != [] && r[0] == m[h]
      && (forall i :: 0 <= i < |r| - 1 ==> FollowsIn(m, r[i], r[i + 1]))
      && var last := r[|r| - 1]; last.parents == [] || last.parents[0] !in m
  }

  ghost predicate FollowsIn(m: map<Hash, Commit>, c: Commit, p: Commit) {
    c.parents != [] && c.parents[0] in m && p == m[c.parents[0]]
  }

  /** On an acyclic log there is one such chain. */
  lemma {:induction false} ChainIff(m: map<Hash, Commit>, rank: map<Hash, nat>, h: Hash, r: seq<Commit>)
    requires Ranked(m, rank)
    ensures r == Chain(m, rank, h) <==> IsChain(m, h, r)
    decreases Height(m, rank, h)
  {
    if h in m && r != [] && r[0] == m[h] {
      assert r == [m[h]] + r[1..];
      if m[h].parents != [] {
        var p := m[h].parents[0];
        ChainIff(m, rank, p, r[1..]);
        RestIsChain(m, h, p, r);
      } else {
        assert |r| > 1 ==> !FollowsIn(m, r[0], r[0 + 1]);
      }
    }
  }

  lemma RestIsChain(m: map<Hash, Commit>, h: Hash, p: Hash, r: seq<Commit>)
    requires h in m && r != [] && r[0] == m[h] && m[h].parents != [] && m[h].parents[0] == p
    ensures IsChain(m, h, r) <==> IsChain(m, p, r[1..])
  {
    var rest := r[1..];
    if IsChain(m, h, r) && |r| > 1 {
      assert FollowsIn(m, r[0], r[0 + 1]);
      forall i | 0 <= i < |rest| - 1 ensures FollowsIn(m, rest[i], rest[i + 1]) {
        assert FollowsIn(m, r[i + 1], r[i + 1 + 1]);
      }
    }
    if IsChain(m, p, rest) {
      forall i | 0 <= i < |r| - 1 ensures FollowsIn(m, r[i], r[i + 1]) {
        assert i > 0 ==> FollowsIn(m, rest[i - 1], rest[i - 1 + 1]);
      }
    }
  }

  method BuildMap(commits: seq<Commit>) returns (m: map<Hash, Commit>)
    ensures m == MapOf(commits)
  {
    m := map[];
    for i := 0 to |commits|
      invariant m == MapOf(commits[..i])
    {
      assert commits[..i + 1][..i] == commits[..i];
      m := m[commits[i].hash := commits[i]];
    }
    assert commits[..|commits|] == commits;
  }

  lemma ChainStep(m: map<Hash, Commit>, rank: map<Hash, nat>, h: Hash, before: seq<Commit>)
    requires Ranked(m, rank) && h in m
    ensures before + Chain(m, rank, h) ==
      before + [m[h]] + if m[h].parents != [] then Chain(m, rank, m[h].parents[0]) else []
  {
  }

  // The walk of LogFirstParent along first parents.
  method WalkFirstParents(m: map<Hash, Commit>, to: Hash, ghost rank: map<Hash, nat>) returns (rv: seq<Commit>)
    requires Ranked(m, rank)
    ensures rv == Chain(m, rank, to)
  {
    rv := [];
    var h := to;
    while h in m
      invariant rv + Chain(m, rank, h) == Chain(m, rank, to)
      decreases Height(m, rank, h)
    {
      ChainStep(m, rank, h, rv);
      var c := m[h];
      rv := rv + [c];
      if |c.parents| == 0 {
        assert rv + [] == rv;
        return;
      }
      h := c.parents[0];
    }
  }

  ghost function FirstParentLog(commits: seq<Commit>, rank: map<Hash, nat>, to: Hash): seq<Commit>
    requires Ranked(MapOf(commits), rank)
  {
    Chain(MapOf(commits), rank, to)
  }

  // LogFirstParent, after the log has been fetched.
  method FirstParentCommits(commits: seq<Commit>, to: Hash, ghost rank: map<Hash, nat>) returns (rv: seq<Commit>)
    requires Ranked(MapOf(commits), rank)
    ensures rv == FirstParentLog(commits, rank, to) && IsChain(MapOf(commits), to, rv)
  {
    ChainIff(MapOf(commits), rank, to, FirstParentLog(commits, rank, to));
    if commits == [] {
      return [];
    }
    var m := BuildMap(commits);
    rv := WalkFirstParents(m, to, rank);
  }

  /******* The ancestry search *******/

  ghost predicate FirstHit(chain: seq<Commit>, from: Hash, j: nat) {
    j < |chain| && from in chain[j].parents && forall i :: 0 <= i < j ==> from !in chain[i].parents
  }

  // The chain from h down to the first commit that has `from` among its parents; nothing if the
  // chain leaves the log before that.
  ghost function LinearChain(m: map<Hash, Commit>, rank: map<Hash, nat>, from: Hash, h: Hash): seq<Commit>
    requires Ranked(m, rank)
  {
    var chain := Chain(m, rank, h);
    if exists j :: FirstHit(chain, from, j) then
      var j :| FirstHit(chain, from, j);
      chain[..j + 1]
    else []
  }

  ghost function Hashes(commits: seq<Commit>): set<Hash> {
    set c | c in commits :: c.hash
  }

  lemma HitIsUnique(chain: seq<Commit>, from: Hash, i: nat, j: nat)
    requires FirstHit(chain, from, i) && FirstHit(chain, from, j)
    ensures i == j
  {
  }

  // One step down the chain.
  lemma LinearStep(m: map<Hash, Commit>, rank: map<Hash, nat>, from: Hash, h: Hash)
    requires Ranked(m, rank)
    ensures h !in m ==> LinearChain(m, rank, from, h) == []
    ensures h in m && from in m[h].parents ==> LinearChain(m, rank, from, h) == [m[h]]
    ensures h in m && from !in m[h].parents ==>
      LinearChain(m, rank, from, h) ==
        if m[h].parents == [] then []
        else
          var rest := LinearChain(m, rank, from, m[h].parents[0]);
          if rest == [] then [] else [m[h]] + rest
  {
    var chain := Chain(m, rank, h);
    if h in m {
      if from in m[h].parents {
        assert FirstHit(chain, from, 0);
        forall j | FirstHit(chain, from, j) ensures j == 0 { HitIsUnique(chain, from, 0, j); }
      } else if m[h].parents != [] {
        LinearDeeper(chain, Chain(m, rank, m[h].parents[0]), from);
      }
    }
  }

  lemma LinearDeeper(chain: seq<Commit>, rest: seq<Commit>, from: Hash)
    requires chain != [] && from !in chain[0].parents && chain[1..] == rest
    ensures forall j: nat :: FirstHit(rest, from, j) ==> FirstHit(chain, from, j + 1)
    ensures forall j: nat :: FirstHit(chain, from, j) ==> j > 0 && FirstHit(rest, from, j - 1)
  {
  }

  lemma HashesCons(c: Commit, rest: seq<Commit>)
    ensures Hashes([c]) == {c.hash} && Hashes([c] + rest) == {c.hash} + Hashes(rest)
  {
    var all := [c] + rest;
    assert all[0] == c;
    assert forall x :: x in rest ==> x in all;
    assert c in [c];
  }

  ghost predicate Keyed(m: map<Hash, Commit>) {
    forall k :: k in m ==> m[k].hash == k
  }

  // The hashes on the direct path from h, and how they come about.
  ghost function Direct(m: map<Hash, Commit>, rank: map<Hash, nat>, from: Hash, h: Hash): set<Hash>
    requires Ranked(m, rank)
  {
    Hashes(LinearChain(m, rank, from, h))
  }

  type PathMap = d: imap<Hash, set<Hash>> | forall h :: h in d ghost witness imap h: Hash | true :: {}

  ghost function DirectPaths(m: map<Hash, Commit>, rank: map<Hash, nat>, from: Hash): PathMap
    requires Ranked(m, rank)
  {
    imap h: Hash | true :: Direct(m, rank, from, h)
  }

  ghost function DirectBy(d: PathMap, m: map<Hash, Commit>, from: Hash, h: Hash): set<Hash> {
    if h !in m then {}
    else if from in m[h].parents then {h}
    else if m[h].parents == [] || d[m[h].parents[0]] == {} then {}
    else {h} + d[m[h].parents[0]]
  }

  ghost predicate DirectRule(d: PathMap, m: map<Hash, Commit>, from: Hash) {
    forall h {:trigger DirectBy(d, m, from, h)} :: d[h] == DirectBy(d, m, from, h)
  }

  lemma DirectPathsRule(m: map<Hash, Commit>, rank: map<Hash, nat>, from: Hash)
    requires Ranked(m, rank) && Keyed(m)
    ensures DirectRule(DirectPaths(m, rank, from), m, from)
  {
    var d := DirectPaths(m, rank, from);
    forall h ensures d[h] == DirectBy(d, m, from, h) {
      DirectStep(m, rank, from, h);
    }
  }

  lemma DirectStep(m: map<Hash, Commit>, rank: map<Hash, nat>, from: Hash, h: Hash)
    requires Ranked(m, rank) && Keyed(m)
    ensures Direct(m, rank, from, h) ==
      if h !in m then {}
      else if from in m[h].parents then {h}
      else if m[h].parents == [] || Direct(m, rank, from, m[h].parents[0]) == {} then {}
      else {h} + Direct(m, rank, from, m[h].parents[0])
  {
    LinearStep(m, rank, from, h);
    if h in m {
      HashesCons(m[h], []);
      if m[h].parents != [] {
        var rest := LinearChain(m, rank, from, m[h].parents[0]);
        HashesCons(m[h], rest);
        assert rest != [] ==> rest[0].hash in Hashes(rest);
      }
    }
  }

  ghost function Marked(memo: map<Hash, bool>): set<Hash> {
    set h | h in memo && memo[h]
  }

  // What is remembered of a commit is right, and with a commit its direct path is marked.
  ghost predicate MemoIsRight(d: PathMap, memo: map<Hash, bool>) {
    forall h :: h in memo ==> (memo[h] <==> d[h] != {}) && d[h] <= Marked(memo)
  }

  lemma MarkKeeps(d: PathMap, memo: map<Hash, bool>, h: Hash, on: bool)
    requires MemoIsRight(d, memo) && on == (d[h] != {})
    requires d[h] <= Marked(memo) + if on then {h} else {}
    ensures MemoIsRight(d, memo[h := on])
    ensures Marked(memo[h := on]) == Marked(memo) + if on then {h} else {}
  {
    assert h in memo ==> (memo[h] <==> on);
    assert Marked(memo[h := on]) == Marked(memo) + if on then {h} else {};
  }

  class AncestrySearch {
    const m: map<Hash, Commit>
    const from: Hash
    var isDescendant: map<Hash, bool>

    constructor (m: map<Hash, Commit>, from: Hash)
      ensures this.m == m && this.from == from && isDescendant == map[]
    {
      this.m, this.from, isDescendant := m, from, map[];
    }

    // Adds to the marked commits exactly those of the direct path from h.
    method Search(h: Hash, ghost rank: map<Hash, nat>, ghost d: PathMap) returns (rv: bool)
      requires Ranked(m, rank) && DirectRule(d, m, from) && MemoIsRight(d, isDescendant)
      modifies this
      ensures MemoIsRight(d, isDescendant) && rv == (d[h] != {})
      ensures Marked(isDescendant) == Marked(old(isDescendant)) + d[h]
      decreases Height(m, rank, h)
    {
      assert d[h] == DirectBy(d, m, from, h);
      if h in isDescendant {
        return isDescendant[h];
      }
      if h !in m {
        MarkKeeps(d, isDescendant, h, false);
        isDescendant := isDescendant[h := false];
        return false;
      }
      var commit := m[h];
      if from in commit.parents {
        MarkKeeps(d, isDescendant, h, true);
        isDescendant := isDescendant[h := true];
        return true;
      }
      if |commit.parents| > 0 {
        var found := Search(commit.parents[0], rank, d);
        if found {
          MarkKeeps(d, isDescendant, h, true);
          isDescendant := isDescendant[h := true];
          return true;
        }
      }
      return false;
    }
  }

  function Filter(commits: seq<Commit>, hs: set<Hash>): seq<Commit> {
    if commits == [] then []
    else
      var last := commits[|commits| - 1];
      Filter(commits[..|commits| - 1], hs) + (if last.hash in hs then [last] else [])
  }

  ghost function LinearLog(commits: seq<Commit>, rank: map<Hash, nat>, from: Hash): seq<Commit>
    requires Ranked(MapOf(commits), rank)
  {
    if commits == [] then []
    else Filter(commits, Hashes(LinearChain(MapOf(commits), rank, from, commits[0].hash)))
  }

  // x is on the way from h along first parents to the first commit that has `from` as a parent.
  ghost predicate OnDirectPath(m: map<Hash, Commit>, from: Hash, h: Hash, x: Hash) {
    exists r, j: nat :: IsChain(m, h, r) && FirstHit(r, from, j) && exists c: Commit :: c in r[..j + 1] && c.hash == x
  }

  /** LogLinear returns the commits on that way, in the order of the log. */
  lemma LinearHolds(commits: seq<Commit>, rank: map<Hash, nat>, from: Hash, c: Commit)
    requires Ranked(MapOf(commits), rank)
    ensures c in LinearLog(commits, rank, from) <==>
      c in commits && OnDirectPath(MapOf(commits), from, commits[0].hash, c.hash)
  {
    if commits != [] {
      var m, h := MapOf(commits), commits[0].hash;
      var chain, path := Chain(m, rank, h), LinearChain(m, rank, from, h);
      ChainIff(m, rank, h, chain);
      FilterHolds(commits, Hashes(path), c);
      if r, j: nat :| IsChain(m, h, r) && FirstHit(r, from, j) && exists d: Commit :: d in r[..j + 1] && d.hash == c.hash {
        ChainIff(m, rank, h, r);
        PathIs(m, rank, from, h, j);
      }
      if c.hash in Hashes(path) {
        var j := HitOf(m, rank, from, h);
        var d :| d in path && d.hash == c.hash;
      }
    }
  }

  lemma PathIs(m: map<Hash, Commit>, rank: map<Hash, nat>, from: Hash, h: Hash, j: nat)
    requires Ranked(m, rank) && FirstHit(Chain(m, rank, h), from, j)
    ensures LinearChain(m, rank, from, h) == Chain(m, rank, h)[..j + 1]
  {
    var chain := Chain(m, rank, h);
    forall i | FirstHit(chain, from, i) ensures i == j {
      HitIsUnique(chain, from, i, j);
    }
  }

  lemma HitOf(m: map<Hash, Commit>, rank: map<Hash, nat>, from: Hash, h: Hash) returns (j: nat)
    requires Ranked(m, rank) && LinearChain(m, rank, from, h) != []
    ensures FirstHit(Chain(m, rank, h), from, j) && LinearChain(m, rank, from, h) == Chain(m, rank, h)[..j + 1]
  {
    j :| FirstHit(Chain(m, rank, h), from, j);
    PathIs(m, rank, from, h, j);
  }

  // LogLinear, after the log has been fetched.
  method LinearCommits(commits: seq<Commit>, from: Hash, ghost rank: map<Hash, nat>) returns (rv: seq<Commit>)
    requires Ranked(MapOf(commits), rank)
    ensures rv == LinearLog(commits, rank, from)
  {
    if commits == [] {
      return [];
    }
    var m := BuildMap(commits);
    rv := SelectDirect(commits, m, from, rank);
  }

  method SelectDirect(commits: seq<Commit>, m: map<Hash, Commit>, from: Hash, ghost rank: map<Hash, nat>)
    returns (rv: seq<Commit>)
    requires Ranked(m, rank) && Keyed(m) && commits != []
    ensures rv == Filter(commits, Hashes(LinearChain(m, rank, from, commits[0].hash)))
  {
    DirectPathsRule(m, rank, from);
    DirectPathAt(m, rank, from, commits[0].hash);
    var isDescendant := MarkFrom(m, from, commits[0].hash, rank, DirectPaths(m, rank, from));
    rv := SelectMarked(commits, isDescendant);
  }

  lemma DirectPathAt(m: map<Hash, Commit>, rank: map<Hash, nat>, from: Hash, h: Hash)
    requires Ranked(m, rank)
    ensures DirectPaths(m, rank, from)[h] == Hashes(LinearChain(m, rank, from, h))
  {
  }

  method MarkFrom(m: map<Hash, Commit>, from: Hash, h: Hash, ghost rank: map<Hash, nat>, ghost d: PathMap)
    returns (isDescendant: map<Hash, bool>)
    requires Ranked(m, rank) && DirectRule(d, m, from)
    ensures Marked(isDescendant) == d[h]
  {
    var search := new AncestrySearch(m, from);
    var _ := search.Search(h, rank, d);
    isDescendant := search.isDescendant;
  }

  method SelectMarked(commits: seq<Commit>, isDescendant: map<Hash, bool>) returns (rv: seq<Commit>)
    ensures rv == Filter(commits, Marked(isDescendant))
  {
    rv := [];
    for i := 0 to |commits|
      invariant rv == Filter(commits[..i], Marked(isDescendant))
    {
      assert commits[..i + 1][..i] == commits[..i];
      var h := commits[i].hash;
      if h in isDescendant && isDescendant[h] {
        rv := rv + [commits[i]];
      }
    }
    assert commits[..|commits|] == commits;
  }

  /******* The two logs compared *******/

  lemma {:induction false} FilterHolds(commits: seq<Commit>, hs: set<Hash>, c: Commit)
    ensures c in Filter(commits, hs) <==> c in commits && c.hash in hs
  {
    if commits != [] {
      var n := |commits| - 1;
      FilterHolds(commits[..n], hs, c);
      assert commits == commits[..n] + [commits[n]];
    }
  }

  lemma {:induction false} ChainListed(m: map<Hash, Commit>, rank: map<Hash, nat>, h: Hash, c: Commit)
    requires Ranked(m, rank) && c in Chain(m, rank, h)
    ensures exists k :: k in m && m[k] == c
    decreases Height(m, rank, h)
  {
    if c != m[h] {
      ChainListed(m, rank, m[h].parents[0], c);
    }
  }

  // A hash stands for one commit.
  ghost predicate HashesIdentify(commits: seq<Commit>) {
    forall c, d :: c in commits && d in commits && c.hash == d.hash ==> c == d
  }

  /** With the log starting at `to`, every commit that LogLinear returns is one that LogFirstParent returns. */
  lemma LinearWithinFirstParent(commits: seq<Commit>, rank: map<Hash, nat>, from: Hash, to: Hash)
    requires Ranked(MapOf(commits), rank) && HashesIdentify(commits) && commits != [] && commits[0].hash == to
    ensures forall c :: c in LinearLog(commits, rank, from) ==> c in FirstParentLog(commits, rank, to)
  {
    var m := MapOf(commits);
    var chain, path := Chain(m, rank, to), LinearChain(m, rank, from, to);
    forall c | c in LinearLog(commits, rank, from) ensures c in chain {
      FilterHolds(commits, Hashes(path), c);
      var d :| d in path && d.hash == c.hash;
      PathIsPrefix(m, rank, from, to);
      assert d in chain;
      ChainListed(m, rank, to, d);
    }
  }

  ghost predicate IsFirstParent(p: Commit, c: Commit) {
    c.parents != [] && c.parents[0] == p.hash
  }

  // Every commit is listed once, and before its first parent.
  ghost predicate NewestFirst(commits: seq<Commit>) {
    && (forall i, j :: 0 <= i < j < |commits| ==> commits[i].hash != commits[j].hash)
    && (forall i, j :: 0 <= i < |commits| && 0 <= j < |commits| && IsFirstParent(commits[j], commits[i]) ==> i < j)
  }

  // idx are the positions of the commits of s in the log, in order.
  ghost predicate StandsAt(s: seq<Commit>, commits: seq<Commit>, idx: seq<nat>) {
    && |idx| == |s| && (forall i, j :: 0 <= i < j < |idx| ==> idx[i] < idx[j])
    && forall i :: 0 <= i < |idx| ==> idx[i] < |commits| && commits[idx[i]] == s[i]
  }

  lemma {:induction false} MapOfAt(commits: seq<Commit>, h: Hash) returns (i: nat)
    requires h in MapOf(commits)
    ensures i < |commits| && commits[i] == MapOf(commits)[h] && commits[i].hash == h
  {
    var c := MapOf(commits)[h];
    i :| 0 <= i < |commits| && commits[i] == c;
  }

  lemma {:induction false} ChainStandsAt(commits: seq<Commit>, rank: map<Hash, nat>, h: Hash) returns (idx: seq<nat>)
    requires Ranked(MapOf(commits), rank) && NewestFirst(commits)
    ensures StandsAt(Chain(MapOf(commits), rank, h), commits, idx)
    decreases Height(MapOf(commits), rank, h)
  {
    var m := MapOf(commits);
    idx := [];
    if h in m {
      var i := MapOfAt(commits, h);
      idx := [i];
      if m[h].parents != [] {
        var rest := ChainStandsAt(commits, rank, m[h].parents[0]);
        StandsBefore(commits, i, Chain(m, rank, m[h].parents[0]), rest);
        idx := [i] + rest;
      }
    }
  }

  lemma StandsBefore(commits: seq<Commit>, i: nat, rest: seq<Commit>, idx: seq<nat>)
    requires NewestFirst(commits) && i < |commits| && commits[i].parents != [] && StandsAt(rest, commits, idx)
    requires rest != [] ==> rest[0].hash == commits[i].parents[0]
    ensures StandsAt([commits[i]] + rest, commits, [i] + idx)
  {
    if rest != [] {
      assert commits[idx[0]] == rest[0];
      assert i < idx[0];
    }
  }

  lemma StandsPrefix(s: seq<Commit>, commits: seq<Commit>, idx: seq<nat>, k: nat)
    requires StandsAt(s, commits, idx) && k <= |s|
    ensures StandsAt(s[..k], commits, idx[..k])
  {
  }

  lemma StandsInPrefix(s: seq<Commit>, commits: seq<Commit>, idx: seq<nat>, n: nat)
    requires StandsAt(s, commits, idx) && n <= |commits| && (idx != [] ==> idx[|idx| - 1] < n)
    ensures StandsAt(s, commits[..n], idx)
  {
    forall i | 0 <= i < |idx| ensures idx[i] < n && commits[..n][idx[i]] == s[i] {
      assert i < |idx| - 1 ==> idx[i] < idx[|idx| - 1];
    }
  }

  lemma OrderedPrefix(commits: seq<Commit>, n: nat)
    requires NewestFirst(commits) && n <= |commits|
    ensures NewestFirst(commits[..n])
  {
  }

  // What stands in the log in order is what the log comes to when filtered by its hashes.
  lemma {:induction false} FilterStandsAt(commits: seq<Commit>, s: seq<Commit>, idx: seq<nat>)
    requires NewestFirst(commits) && StandsAt(s, commits, idx)
    ensures Filter(commits, Hashes(s)) == s
    decreases |commits|
  {
    if commits == [] {
      assert |s| == 0;
    } else {
      var n, k := |commits| - 1, |idx| - 1;
      OrderedPrefix(commits, n);
      if k >= 0 && idx[k] == n {
        assert s == s[..k] + [commits[n]];
        StandsPrefix(s, commits, idx, k);
        StandsInPrefix(s[..k], commits, idx[..k], n);
        FilterStandsAt(commits[..n], s[..k], idx[..k]);
        FilterSnoc(commits, s[..k]);
      } else {
        StandsInPrefix(s, commits, idx, n);
        FilterStandsAt(commits[..n], s, idx);
        NotAmong(commits, s, idx, n);
      }
    }
  }

  lemma NotAmong(commits: seq<Commit>, s: seq<Commit>, idx: seq<nat>, n: nat)
    requires NewestFirst(commits) && StandsAt(s, commits, idx) && n < |commits| && n !in idx
    ensures commits[n].hash !in Hashes(s)
  {
    forall c | c in s ensures c.hash != commits[n].hash {
      var i :| 0 <= i < |s| && s[i] == c;
      assert idx[i] in idx && commits[idx[i]] == c;
    }
  }

  lemma HashesSnoc(s: seq<Commit>, c: Commit)
    ensures Hashes(s + [c]) == Hashes(s) + {c.hash}
  {
    var all := s + [c];
    assert all[|s|] == c;
    assert forall x :: x in s ==> x in all;
  }

  lemma {:induction false} FilterMore(commits: seq<Commit>, hs: set<Hash>, h: Hash)
    requires forall i :: 0 <= i < |commits| ==> commits[i].hash != h
    ensures Filter(commits, hs + {h}) == Filter(commits, hs)
  {
    if commits != [] {
      FilterMore(commits[..|commits| - 1], hs, h);
    }
  }

  lemma FilterSnoc(commits: seq<Commit>, s: seq<Commit>)
    requires commits != [] && var n := |commits| - 1; forall i :: 0 <= i < n ==> commits[i].hash != commits[n].hash
    requires var n := |commits| - 1; Filter(commits[..n], Hashes(s)) == s
    ensures var c := commits[|commits| - 1]; Filter(commits, Hashes(s + [c])) == s + [c]
  {
    var n := |commits| - 1;
    HashesSnoc(s, commits[n]);
    FilterMore(commits[..n], Hashes(s), commits[n].hash);
  }

  lemma PathIsPrefix(m: map<Hash, Commit>, rank: map<Hash, nat>, from: Hash, h: Hash)
    requires Ranked(m, rank)
    ensures LinearChain(m, rank, from, h) <= Chain(m, rank, h)
  {
  }

  lemma FilterPrefix(commits: seq<Commit>, chain: seq<Commit>, path: seq<Commit>, idx: seq<nat>)
    requires NewestFirst(commits) && StandsAt(chain, commits, idx) && path <= chain
    ensures Filter(commits, Hashes(path)) == path
  {
    StandsPrefix(chain, commits, idx, |path|);
    FilterStandsAt(commits, path, idx[..|path|]);
  }

  /**
   If every commit is listed once and before its first parent, LogLinear returns the direct path
   itself, from the newest commit down: the beginning of what LogFirstParent returns from there.
   */
  lemma LinearIsThePath(commits: seq<Commit>, rank: map<Hash, nat>, from: Hash)
    requires Ranked(MapOf(commits), rank) && NewestFirst(commits) && commits != []
    ensures LinearLog(commits, rank, from) == LinearChain(MapOf(commits), rank, from, commits[0].hash)
    ensures LinearLog(commits, rank, from) <= FirstParentLog(commits, rank, commits[0].hash)
  {
    var m, h := MapOf(commits), commits[0].hash;
    var idx := ChainStandsAt(commits, rank, h);
    PathIsPrefix(m, rank, from, h);
    FilterPrefix(commits, Chain(m, rank, h), LinearChain(m, rank, from, h), idx);
  }

  // Such a log has no cycles: the position in it is a rank.
  lemma NewestFirstIsRanked(commits: seq<Commit>) returns (rank: map<Hash, nat>)
    requires NewestFirst(commits)
    ensures Ranked(MapOf(commits), rank)
  {
    var m := MapOf(commits);
    rank := map h | h in m :: RankOf(commits, h);
    forall h | h in m && m[h].parents != [] && m[h].parents[0] in m ensures rank[m[h].parents[0]] < rank[h] {
      var i := MapOfAt(commits, h);
      var j := MapOfAt(commits, m[h].parents[0]);
      assert i < j;
      RankAt(commits, i);
      RankAt(commits, j);
    }
  }

  ghost function RankOf(commits: seq<Commit>, h: Hash): nat {
    if commits == [] || commits[0].hash == h then |commits| else RankOf(commits[1..], h)
  }

  lemma {:induction false} RankAt(commits: seq<Commit>, i: nat)
    requires i < |commits| && forall j :: 0 <= j < i ==> commits[j].hash != commits[i].hash
    ensures RankOf(commits, commits[i].hash) == |commits| - i
  {
    if i > 0 {
      RankAt(commits[1..], i - 1);
    }
  }
}
