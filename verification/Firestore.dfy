/**
 Retrying, resuming and recursive traversal in the Firestore client (go/firestore/firestore.go).

 Iterator faults, callback errors, expired contexts and pauses are decided by the environment.
 Every claim covers whole runs, whatever it decides.
 */
module Firestore {
  import opened Common

  // Errors from outside this package: gRPC statuses, deadlines and everything else.
  datatype Fault = RetryableStatus | OtherStatus | DeadlineExceeded | OtherFault

  // A nil error is None.
  datatype Err = External(fault: Fault) | Canceled | IterTooLong

  // What ctx.Err() returns: nil, or why the context has ended. A context made for an attempt one
  // level up ends with its deadline, and that is an error the level above retries.
  predicate CtxErr(err: Option<Err>) {
    err.None? || err == Some(Canceled) || err == Some(External(DeadlineExceeded))
  }

  // What withTimeoutAndRetries does after an attempt, unless it has used up its attempts.
  datatype Verdict = Return(err: Option<Err>) | Retry

  predicate Retryable(err: Option<Err>) {
    err == Some(External(RetryableStatus)) || err == Some(External(DeadlineExceeded))
  }

  function Decide(err: Option<Err>, ctxErr: Option<Err>): Verdict {
    if err.None? then Return(None)
    else if ctxErr.Some? then Return(ctxErr)
    else if Retryable(err) then Retry
    else Return(err)
  }

  // What the environment does. If mild is Some(n), no context ends, no function that is called
  // fails, and each run with retries meets at most n faults, all of them worth a retry; met counts
  // those of the run so far. Otherwise anything may happen at any time.
  predicate Allowed(mild: Option<nat>, met: nat, fault: Option<Fault>) {
    mild.Some? && fault.Some? ==>
      met < mild.value && (fault.value == RetryableStatus || fault.value == DeadlineExceeded)
  }

  // n faults are not too many for that number of attempts; with none allowed nothing is listed.
  predicate Enough(mild: Option<nat>, attempts: int) {
    mild.Some? && (attempts > mild.value || attempts <= 0)
  }

  method ContextErr(mild: Option<nat>) returns (err: Option<Err>)
    ensures CtxErr(err) && (mild.Some? ==> err.None?)
  {
    err :| CtxErr(err) && (mild.Some? ==> err.None?);
  }

  // What an iterator meets next.
  method NextFault(mild: Option<nat>, met: nat) returns (fault: Option<Fault>)
    ensures Allowed(mild, met, fault)
  {
    fault := None;
    var any: Fault :| true;
    var some: bool := *;
    if some && Allowed(mild, met, Some(any)) {
      fault := Some(any);
    }
  }

  /**
   A run of withTimeoutAndRetries, with the errors of its attempts: after a retryable status or an
   expired deadline it goes on while attempts are left, after anything else it returns at once, and
   what it returns is the error of the last attempt, unless the context passed in has ended.
   */
  ghost predicate Retried(errs: seq<Option<Err>>, attempts: int, err: Option<Err>, ended: bool) {
    && (forall i :: 0 <= i < |errs| - 1 ==> errs[i] == Some(External(RetryableStatus)) || errs[i] == Some(External(DeadlineExceeded)))
    && |errs| <= (if attempts > 0 then attempts else 0)
    && if ended then err == Some(Canceled) || err == Some(External(DeadlineExceeded))
       else if errs == [] then attempts <= 0 && err.None?
       else
         && err == errs[|errs| - 1]
         && (err == Some(External(RetryableStatus)) || err == Some(External(DeadlineExceeded)) ==> |errs| == attempts)
  }

  lemma RetriedNext(errs: seq<Option<Err>>, err: Option<Err>, attempts: int)
    requires |errs| < attempts
    requires forall i :: 0 <= i < |errs| ==> Retryable(errs[i])
    ensures var errs' := errs + [err];
      && (!Retryable(err) || |errs'| == attempts ==> Retried(errs', attempts, err, false))
      && (forall e :: CtxErr(e) && e.Some? ==> Retried(errs', attempts, e, true))
  {
  }

  /******* iterDocs *******/

  type Doc = nat

  // A call of the callback, and whether it returned nil.
  datatype Call<D> = Call(doc: D, ok: bool)

  ghost function Successes<D>(calls: seq<Call<D>>): seq<D> {
    if calls == [] then []
    else
      var last := calls[|calls| - 1];
      Successes(calls[..|calls| - 1]) + (if last.ok then [last.doc] else [])
  }

  lemma SuccessesAppend<D>(calls: seq<Call<D>>, c: Call<D>)
    ensures Successes(calls + [c]) == Successes(calls) + (if c.ok then [c.doc] else [])
  {
    assert (calls + [c])[..|calls|] == calls;
  }

  function After(docs: seq<Doc>, d: Doc): (i: nat)
    requires d in docs
    ensures 0 < i <= |docs| && docs[i - 1] == d
  {
    if docs[0] == d then 1 else 1 + After(docs[1..], d)
  }

  class Iteration {
    const docs: seq<Doc>      // the result of the query
    const mild: Option<nat>
    var lastSeen: Option<Doc>
    var calls: seq<Call<Doc>>

    constructor (docs: seq<Doc>, mild: Option<nat>)
      requires Distinct(docs)
      ensures Valid() && this.docs == docs && this.mild == mild && calls == []
    {
      this.docs, this.mild := docs, mild;
      lastSeen, calls := None, [];
    }

    ghost function Seen(): seq<Doc>
      reads this
    {
      Successes(calls)
    }

    // The documents whose callback succeeded are a prefix of the result, and every call was made
    // on the document that came next.
    ghost predicate Valid()
      reads this
    {
      && Distinct(docs) && Seen() <= docs
      && lastSeen == (if Seen() == [] then None else Some(Seen()[|Seen()| - 1]))
      && forall i :: 0 <= i < |calls| ==> IsNext(i)
    }

    ghost predicate IsNext(i: nat)
      requires i < |calls|
      reads this
    {
      var before := Successes(calls[..i]);
      |before| < |docs| && before == docs[..|before|] && calls[i].doc == docs[|before|]
    }

    // The callback.
    method Callback(doc: Doc) returns (err: Option<Err>)
      requires Valid() && |Seen()| < |docs| && doc == docs[|Seen()|]
      modifies this
      ensures Valid() && Seen() == old(Seen()) + (if err.None? then [doc] else [])
      ensures err.None? || (err.value.External? && mild.None?)
    {
      var fault: Option<Fault> :| mild.Some? ==> fault.None?;
      ghost var before := calls;
      SuccessesAppend(calls, Call(doc, fault.None?));
      calls := calls + [Call(doc, fault.None?)];
      if fault.None? {
        lastSeen := Some(doc);
      }
      forall i | 0 <= i < |calls| ensures IsNext(i) {
        assert calls[..i] == before[..i];
        assert i < |before| ==> old(IsNext(i));
        assert i == |before| ==> before[..i] == before;
      }
      err := if fault.Some? then Some(External(fault.value)) else None;
    }

    // One attempt: query from after the last document seen, and call back until the end, a fault,
    // a callback error or a pause.
    method Attempt(met: nat) returns (err: Option<Err>)
      requires Valid()
      modifies this
      ensures Valid() && old(Seen()) <= Seen()
      ensures err.None? ==> Seen() == docs
      ensures err == Some(IterTooLong) ==> old(Seen()) < Seen()
      ensures err != Some(Canceled)
      ensures mild.Some? ==> err.None? || err == Some(IterTooLong) || (Retryable(err) && met < mild.value)
    {
      var pos := 0;
      if lastSeen.Some? {
        pos := After(docs, lastSeen.value);
        assert docs[|Seen()| - 1] == lastSeen.value == docs[pos - 1];
      }
      while true
        invariant Valid() && old(Seen()) <= Seen() && pos == |Seen()| <= |docs|
        decreases |docs| - pos
      {
        var fault := NextFault(mild, met);
        if fault.Some? {
          return Some(External(fault.value));
        }
        if pos == |docs| {
          return None;
        }
        err := Callback(docs[pos]);
        if err.Some? {
          return;
        }
        pos := pos + 1;
        var tooLong: bool := *;
        if tooLong {
          return Some(IterTooLong);
        }
      }
    }

    // errs are the errors of the attempts made.
    method WithRetries(attempts: int) returns (err: Option<Err>, ghost errs: seq<Option<Err>>, ghost ended: bool)
      requires Valid()
      modifies this
      ensures Valid() && old(Seen()) <= Seen() && Retried(errs, attempts, err, ended)
      ensures err.None? && attempts >= 1 ==> Seen() == docs
      ensures err == Some(IterTooLong) ==> old(Seen()) < Seen()
      ensures attempts <= 0 ==> err.None? && calls == old(calls)
      ensures Enough(mild, attempts) ==> (err.None? || err == Some(IterTooLong)) && !ended && |errs| <= mild.value + 1
    {
      err, errs, ended := None, [], false;
      var i := 0;
      while i < attempts
        invariant Valid() && old(Seen()) <= Seen() && |errs| == i
        invariant i == 0 ==> err.None? && calls == old(calls)
        invariant forall j :: 0 <= j < i ==> Retryable(errs[j])
        invariant i > 0 ==> i <= attempts && err == errs[i - 1]
        invariant mild.Some? ==> i <= mild.value
      {
        var ctxErr := ContextErr(mild);
        if ctxErr.Some? {
          return ctxErr, errs, true;
        }
        err := Attempt(i);
        RetriedNext(errs, err, attempts);
        errs := errs + [err];
        ctxErr := ContextErr(mild);
        match Decide(err, ctxErr) {
          case Return(e) => return e, errs, ctxErr.Some? && e.Some?;
          case Retry =>
        }
        i := i + 1;
      }
    }

    // Under any faults, pauses and callback errors: the documents whose callback succeeded are a
    // gap-free, repeat-free prefix of the result, and all of it if nil is returned.
    method IterDocs(attempts: int) returns (numRestarts: nat, err: Option<Err>)
      requires Valid() && calls == []
      modifies this
      ensures Valid() && Seen() <= docs && Distinct(Seen())
      ensures err.None? && attempts >= 1 ==> Seen() == docs
      ensures err != Some(IterTooLong) && numRestarts <= |docs|
      ensures Enough(mild, attempts) ==> err.None?
      ensures attempts <= 0 ==> err.None? && calls == []
    {
      numRestarts := 0;
      while true
        invariant Valid() && numRestarts <= |Seen()|
        invariant attempts <= 0 ==> numRestarts == 0 && calls == []
        decreases |docs| - |Seen()|
      {
        ghost var errs, ended;
        err, errs, ended := WithRetries(attempts);
        if err != Some(IterTooLong) {
          return;
        }
        numRestarts := numRestarts + 1;
      }
    }
  }

  /******* recurseDocs *******/

  datatype Tree = Node(id: nat, colls: seq<Coll>)
  datatype Coll = Coll(path: nat, docs: seq<Tree>)

  // The paths of a document's collections are distinct, throughout the tree.
  ghost predicate WellFormed(t: Tree) {
    && (forall i, j :: 0 <= i < j < |t.colls| ==> t.colls[i].path != t.colls[j].path)
    && (forall i, j :: 0 <= i < |t.colls| && 0 <= j < |t.colls[i].docs| ==> WellFormed(t.colls[i].docs[j]))
  }

  ghost predicate InTree(d: Tree, t: Tree)
    decreases t, 1
  {
    d == t || Below(d, t)
  }

  ghost predicate Below(d: Tree, t: Tree)
    decreases t, 0
  {
    exists i, j :: 0 <= i < |t.colls| && 0 <= j < |t.colls[i].docs| && InTree(d, t.colls[i].docs[j])
  }

  ghost predicate Done(calls: seq<Call<Tree>>, d: Tree) {
    Call(d, true) in calls
  }

  ghost predicate AllDone(calls: seq<Call<Tree>>, t: Tree) {
    forall d :: InTree(d, t) ==> Done(calls, d)
  }

  ghost predicate CollDone(calls: seq<Call<Tree>>, c: Coll) {
    forall j :: 0 <= j < |c.docs| ==> AllDone(calls, c.docs[j])
  }

  // Whenever the function was called on a document, it had succeeded on every document below.
  ghost predicate ChildrenFirst(calls: seq<Call<Tree>>) {
    forall i :: 0 <= i < |calls| ==> forall d :: Below(d, calls[i].doc) ==> Done(calls[..i], d)
  }

  lemma AllDoneLater(calls: seq<Call<Tree>>, later: seq<Call<Tree>>, c: Coll)
    requires calls <= later
    ensures CollDone(calls, c) ==> CollDone(later, c)
  {
    assert forall d :: Done(calls, d) ==> Done(later, d);
  }

  lemma CallKeepsOrder(calls: seq<Call<Tree>>, t: Tree, ok: bool)
    requires ChildrenFirst(calls) && forall i :: 0 <= i < |t.colls| ==> CollDone(calls, t.colls[i])
    ensures ChildrenFirst(calls + [Call(t, ok)])
    ensures ok ==> AllDone(calls + [Call(t, ok)], t)
  {
    var calls' := calls + [Call(t, ok)];
    forall d | Below(d, t) ensures Done(calls, d) {
      var i, j :| 0 <= i < |t.colls| && 0 <= j < |t.colls[i].docs| && InTree(d, t.colls[i].docs[j]);
      assert CollDone(calls, t.colls[i]) && AllDone(calls, t.colls[i].docs[j]);
    }
    forall i | 0 <= i < |calls'| ensures forall d :: Below(d, calls'[i].doc) ==> Done(calls'[..i], d) {
      assert calls'[..i] == calls[..i];
      assert i == |calls| ==> calls[..i] == calls;
    }
    if ok {
      assert Call(t, true) in calls';
      assert forall d :: Done(calls, d) ==> Done(calls', d);
    }
  }

  class Traversal {
    const mild: Option<nat>
    var calls: seq<Call<Tree>>

    constructor (mild: Option<nat>)
      ensures calls == [] && this.mild == mild
    {
      this.mild := mild;
      calls := [];
    }

    // List the collections of a document, with retries; the map is filled across attempts.
    method ListCollections(t: Tree, attempts: int)
      returns (err: Option<Err>, colls: map<nat, Coll>, ghost errs: seq<Option<Err>>, ghost ended: bool)
      requires WellFormed(t)
      ensures forall p :: p in colls ==> exists i :: 0 <= i < |t.colls| && t.colls[i] == colls[p]
      ensures err.None? && attempts >= 1 ==> forall i :: 0 <= i < |t.colls| ==> t.colls[i] in colls.Values
      ensures attempts <= 0 ==> err.None? && colls == map[]
      ensures Retried(errs, attempts, err, ended)
      ensures Enough(mild, attempts) ==> err.None? && |errs| <= mild.value + 1
    {
      err, colls, errs, ended := None, map[], [], false;
      var i := 0;
      while i < attempts
        invariant |errs| == i && (i == 0 ==> err.None? && colls == map[])
        invariant forall j :: 0 <= j < i ==> Retryable(errs[j])
        invariant i > 0 ==> i <= attempts && err == errs[i - 1]
        invariant mild.Some? ==> i <= mild.value
        invariant forall p :: p in colls ==> exists i :: 0 <= i < |t.colls| && t.colls[i] == colls[p]
      {
        var ctxErr := ContextErr(mild);
        if ctxErr.Some? {
          return ctxErr, colls, errs, true;
        }
        err, colls := ListOnce(t, colls, i);
        RetriedNext(errs, err, attempts);
        errs := errs + [err];
        ctxErr := ContextErr(mild);
        match Decide(err, ctxErr) {
          case Return(e) => return e, colls, errs, ctxErr.Some? && e.Some?;
          case Retry =>
        }
        i := i + 1;
      }
    }

    method ListOnce(t: Tree, before: map<nat, Coll>, met: nat) returns (err: Option<Err>, colls: map<nat, Coll>)
      requires WellFormed(t)
      requires forall p :: p in before ==> exists i :: 0 <= i < |t.colls| && t.colls[i] == before[p]
      ensures forall p :: p in colls ==> exists i :: 0 <= i < |t.colls| && t.colls[i] == colls[p]
      ensures err.None? ==> forall i :: 0 <= i < |t.colls| ==> t.colls[i] in colls.Values
      ensures mild.Some? ==> err.None? || (Retryable(err) && met < mild.value)
    {
      colls := before;
      var n := 0;
      while true
        invariant n <= |t.colls|
        invariant forall p :: p in colls ==> exists i :: 0 <= i < |t.colls| && t.colls[i] == colls[p]
        invariant forall i :: 0 <= i < n ==> t.colls[i].path in colls && colls[t.colls[i].path] == t.colls[i]
        decreases |t.colls| - n
      {
        var fault := NextFault(mild, met);
        if fault.Some? {
          return Some(External(fault.value)), colls;
        }
        if n == |t.colls| {
          forall i | 0 <= i < |t.colls| ensures t.colls[i] in colls.Values {
            assert colls[t.colls[i].path] in colls.Values;
          }
          return None, colls;
        }
        colls := colls[t.colls[n].path := t.colls[n]];
        n := n + 1;
      }
    }

    // On a static tree, with any faults at any depth: the function is only ever called on a
    // document after it succeeded on every document below, and a nil result means it succeeded on
    // every document of the tree.
    method RecurseDocs(t: Tree, attempts: int) returns (err: Option<Err>)
      requires WellFormed(t) && ChildrenFirst(calls)
      modifies this
      ensures old(calls) <= calls
      ensures attempts >= 1 ==> ChildrenFirst(calls) && (err.None? ==> AllDone(calls, t))
      ensures attempts <= 0 ==> calls == old(calls) + [Call(t, err.None?)]
      ensures Enough(mild, attempts) ==> err.None?
      decreases t, 0
    {
      var colls: map<nat, Coll>;
      ghost var errs, ended;
      err, colls, errs, ended := ListCollections(t, attempts);
      if err.Some? {
        return;
      }
      var todo := colls.Values;
      while todo != {}
        invariant old(calls) <= calls && todo <= colls.Values
        invariant attempts >= 1 ==> ChildrenFirst(calls)
        invariant attempts >= 1 ==> forall c :: c in colls.Values && c !in todo ==> CollDone(calls, c)
        invariant attempts <= 0 ==> calls == old(calls)
      {
        var coll :| coll in todo;
        assert exists i :: 0 <= i < |t.colls| && t.colls[i] == coll;
        ghost var before := calls;
        err, errs, ended := RecurseColl(t, coll, attempts);
        if err.Some? {
          return;
        }
        forall c | c in colls.Values && c !in todo ensures attempts >= 1 ==> CollDone(calls, c) {
          AllDoneLater(before, calls, c);
        }
        todo := todo - {coll};
      }
      // fn(ref)
      var fault: Option<Fault> :| mild.Some? ==> fault.None?;
      if attempts >= 1 {
        CallKeepsOrder(calls, t, fault.None?);
      }
      calls := calls + [Call(t, fault.None?)];
      err := if fault.Some? then Some(External(fault.value)) else None;
    }

    method RecurseColl(ghost t: Tree, coll: Coll, attempts: int)
      returns (err: Option<Err>, ghost errs: seq<Option<Err>>, ghost ended: bool)
      requires WellFormed(t) && ChildrenFirst(calls) && attempts >= 1
      requires exists i :: 0 <= i < |t.colls| && t.colls[i] == coll
      modifies this
      ensures old(calls) <= calls && ChildrenFirst(calls)
      ensures err.None? ==> CollDone(calls, coll)
      ensures Retried(errs, attempts, err, ended)
      ensures Enough(mild, attempts) ==> err.None? && |errs| <= mild.value + 1
      decreases coll, 1
    {
      err, errs, ended := None, [], false;
      var i := 0;
      while i < attempts
        invariant old(calls) <= calls && ChildrenFirst(calls) && |errs| == i
        invariant forall j :: 0 <= j < i ==> Retryable(errs[j])
        invariant i > 0 ==> i <= attempts && err == errs[i - 1]
        invariant Enough(mild, attempts) ==> i <= mild.value
      {
        var ctxErr := ContextErr(mild);
        if ctxErr.Some? {
          return ctxErr, errs, true;
        }
        err := VisitOnce(t, coll, attempts, i);
        RetriedNext(errs, err, attempts);
        errs := errs + [err];
        ctxErr := ContextErr(mild);
        match Decide(err, ctxErr) {
          case Return(e) => return e, errs, ctxErr.Some? && e.Some?;
          case Retry =>
        }
        i := i + 1;
      }
    }

    method VisitOnce(ghost t: Tree, coll: Coll, attempts: int, met: nat) returns (err: Option<Err>)
      requires WellFormed(t) && ChildrenFirst(calls) && attempts >= 1
      requires exists i :: 0 <= i < |t.colls| && t.colls[i] == coll
      modifies this
      ensures old(calls) <= calls && ChildrenFirst(calls)
      ensures err.None? ==> CollDone(calls, coll)
      ensures Enough(mild, attempts) ==> err.None? || (Retryable(err) && met < mild.value)
      decreases coll, 0
    {
      var n := 0;
      while true
        invariant old(calls) <= calls && ChildrenFirst(calls) && n <= |coll.docs|
        invariant forall j :: 0 <= j < n ==> AllDone(calls, coll.docs[j])
        decreases |coll.docs| - n
      {
        var fault := NextFault(mild, met);
        if fault.Some? {
          return Some(External(fault.value));
        }
        if n == |coll.docs| {
          return None;
        }
        ghost var before := calls;
        err := RecurseDocs(coll.docs[n], attempts);
        if err.Some? {
          return;
        }
        assert forall d :: Done(before, d) ==> Done(calls, d);
        n := n + 1;
      }
    }
  }

  // With no attempts allowed nothing is listed, and the function is called on the root alone;
  // that is in order only if there is nothing below.
  lemma NoAttemptsOrderIff(t: Tree, ok: bool)
    ensures ChildrenFirst([Call(t, ok)]) <==> forall i :: 0 <= i < |t.colls| ==> t.colls[i].docs == []
  {
    var calls := [Call(t, ok)];
    assert calls[..0] == [];
    if i :| 0 <= i < |t.colls| && t.colls[i].docs != [] {
      var d := t.colls[i].docs[0];
      assert InTree(d, t.colls[i].docs[0]) && Below(d, calls[0].doc) && !Done(calls[..0], d);
    }
  }
}
