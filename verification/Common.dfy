/** Small definitions shared by the models. */
module Common {

  datatype Option<+T> = None | Some(value: T)

  ghost predicate Distinct<T>(s: seq<T>) {
    forall i, j :: 0 <= i < j < |s| ==> s[i] != s[j]
  }

  /** A repetition-free sequence over a finite set is no longer than the set. */
  lemma {:induction false} DistinctFits<T>(s: seq<T>, universe: set<T>)
    requires Distinct(s)
    requires forall x :: x in s ==> x in universe
    ensures |s| <= |universe|
    decreases |s|
  {
    if s != [] {
      var last := s[|s| - 1];
      var init := s[..|s| - 1];
      forall x | x in init ensures x in universe - {last} {
        var i :| 0 <= i < |init| && init[i] == x;
        assert s[i] == x;
      }
      DistinctFits(init, universe - {last});
    }
  }

  lemma SubsetSize<T>(a: set<T>, b: set<T>)
    requires a <= b
    ensures |a| <= |b|
  {
    if a != {} {
      var x :| x in a;
      SubsetSize(a - {x}, b - {x});
    }
  }

  lemma SubsetSameSize<T>(a: set<T>, b: set<T>)
    requires a <= b && |a| == |b|
    ensures a == b
  {
    if x :| x in b && x !in a {
      SubsetSize(a, b - {x});
    }
  }

  /******* Runs of a step function *******/

  ghost predicate StepAt<T>(f: T -> T, run: seq<T>, i: int)
    requires 0 <= i < |run| - 1
  {
    run[i + 1] == f(run[i])
  }

  ghost predicate IsRun<T>(f: T -> T, run: seq<T>) {
    run != [] && forall i :: 0 <= i < |run| - 1 ==> StepAt(f, run, i)
  }

  ghost predicate RunsTo<T>(f: T -> T, run: seq<T>, x: T, y: T) {
    IsRun(f, run) && run[0] == x && run[|run| - 1] == y
  }

  ghost predicate Leads<T(!new)>(f: T -> T, x: T, y: T) {
    exists run :: RunsTo(f, run, x, y)
  }

  lemma LeadsTrans<T(!new)>(f: T -> T, x: T, y: T, z: T)
    requires Leads(f, x, y) && Leads(f, y, z)
    ensures Leads(f, x, z)
  {
    var a :| RunsTo(f, a, x, y);
    var b :| RunsTo(f, b, y, z);
    var run := a + b[1..];
    forall i | 0 <= i < |run| - 1 ensures StepAt(f, run, i) {
      if i < |a| - 1 {
        assert StepAt(f, a, i);
      } else {
        assert StepAt(f, b, i - (|a| - 1));
      }
    }
    assert RunsTo(f, run, x, z);
  }

  lemma LeadsSelf<T(!new)>(f: T -> T, x: T)
    ensures Leads(f, x, x)
  {
    assert RunsTo(f, [x], x, x);
  }

  lemma LeadsStep<T(!new)>(f: T -> T, x: T, y: T)
    requires f(x) == y
    ensures Leads(f, x, y)
  {
    assert RunsTo(f, [x, y], x, y);
  }

  // A step function has one run from each point: of two runs, the shorter is a prefix.
  lemma {:induction false} RunsAgree<T>(f: T -> T, a: seq<T>, b: seq<T>, n: nat)
    requires IsRun(f, a) && IsRun(f, b) && a[0] == b[0] && n < |a| && n < |b|
    ensures a[n] == b[n]
  {
    if n > 0 {
      RunsAgree(f, a, b, n - 1);
      assert StepAt(f, a, n - 1) && StepAt(f, b, n - 1);
    }
  }
}
