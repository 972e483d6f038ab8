/** TestSuite: every planner is run on every benchmark problem RUNS times.
    Runner threads repeatedly claim the next pending test and report its
    completion; as they do, completed tests are logged to the report strictly
    in array order. The two synchronized methods getNext and complete are
    modelled here as atomic steps on the array of tests. */
module TestSuites {
  import opened Wrappers
  import Sequences

  /** Main.RUNS: how many times each planner runs on each problem. */
  const RUNS: nat := 10

  datatype TestStatus = Pending | Running | Complete | Logged

  /** One run of one planner on one problem: its fixed identity and its
      mutable status and result (null until the test completes). */
  datatype Test<P, L, O> = Test(problem: P, planner: L, run: nat, status: TestStatus, result: Option<O>)

  datatype Failure = IllegalState

  /** Test.getResult: the stored result, or IllegalStateException while the
      test has none. */
  function GetResult<P, L, O>(t: Test<P, L, O>): (r: Result<O, Failure>)
    ensures r.Err? <==> t.result.None?
    ensures r.Ok? ==> Some(r.value) == t.result
  {
    if t.result.None? then Err(IllegalState) else Ok(t.result.value)
  }

  // ---------------------------------------------------------------------
  // The enumeration the constructor performs

  /** The tests of one planner on one problem: runs 1 to `runs`. */
  function RunTests<P, L, O>(problem: P, planner: L, runs: nat): seq<Test<P, L, O>> {
    seq(runs, (r: nat) => Test(problem, planner, r + 1, Pending, None))
  }

  /** Every planner on one problem, planner by planner. */
  function ProblemTests<P, L, O>(problem: P, planners: seq<L>): seq<Test<P, L, O>> {
    if planners == [] then []
    else
      ProblemTests(problem, planners[..|planners| - 1])
      + RunTests(problem, planners[|planners| - 1], RUNS)
  }

  /** Every planner on every problem, problem by problem. */
  function Enumeration<P, L, O>(problems: seq<P>, planners: seq<L>): seq<Test<P, L, O>> {
    if problems == [] then []
    else
      Enumeration(problems[..|problems| - 1], planners)
      + ProblemTests(problems[|problems| - 1], planners)
  }

  /** Where the constructor puts run r + 1 of planner l on problem p when
      there are `width` planners. */
  function Position(p: nat, l: nat, r: nat, width: nat): nat {
    (p * width + l) * RUNS + r
  }

  lemma {:induction false} ProblemTestsLength<P, L, O>(problem: P, planners: seq<L>)
    ensures |ProblemTests<P, L, O>(problem, planners)| == |planners| * RUNS
  {
    if planners != [] {
      ProblemTestsLength<P, L, O>(problem, planners[..|planners| - 1]);
    }
  }

  lemma {:induction false} ProblemTestsAt<P, L, O>(problem: P, planners: seq<L>)
    ensures |ProblemTests<P, L, O>(problem, planners)| == |planners| * RUNS
    ensures forall l, r :: 0 <= l < |planners| && 0 <= r < RUNS ==>
      ProblemTests<P, L, O>(problem, planners)[Position(0, l, r, 0)] == Test(problem, planners[l], r + 1, Pending, None)
  {
    if planners != [] {
      var init := planners[..|planners| - 1];
      ProblemTestsAt<P, L, O>(problem, init);
      forall l, r | 0 <= l < |planners| && 0 <= r < RUNS
        ensures ProblemTests<P, L, O>(problem, planners)[Position(0, l, r, 0)] == Test(problem, planners[l], r + 1, Pending, None)
      {
        if l < |init| {
          assert planners[l] == init[l];
        }
      }
    }
  }

  lemma MulFacts(a: int, b: int, c: int)
    ensures (a + b) * c == a * c + b * c
    ensures (a * b) * c == a * (b * c)
  {
  }

  lemma MulMono(a: nat, b: nat, c: nat)
    requires a <= b
    ensures a * c <= b * c
  {
    MulFacts(a, b - a, c);
  }

  lemma PositionSplit(p: nat, l: nat, r: nat, width: nat, count: nat)
    requires l < width && r < RUNS
    ensures Position(p, l, r, width) == p * (width * RUNS) + Position(0, l, r, 0)
    ensures Position(0, l, r, 0) < width * RUNS
    ensures p < count ==> Position(p, l, r, width) < count * (width * RUNS)
  {
    MulFacts(p * width, l, RUNS);
    MulFacts(p, width, RUNS);
    MulMono(l + 1, width, RUNS);
    MulFacts(l, 1, RUNS);
    if p < count {
      MulMono(p + 1, count, width * RUNS);
      MulFacts(p, 1, width * RUNS);
    }
  }

  /** No test has started yet. */
  predicate AllPending<P, L, O>(ts: seq<Test<P, L, O>>) {
    forall j :: 0 <= j < |ts| ==> ts[j].status.Pending? && ts[j].result.None?
  }

  lemma {:induction false} ProblemTestsPending<P, L, O>(problem: P, planners: seq<L>)
    ensures AllPending(ProblemTests<P, L, O>(problem, planners))
  {
    if planners != [] {
      ProblemTestsPending<P, L, O>(problem, planners[..|planners| - 1]);
    }
  }

  lemma {:induction false} EnumerationPending<P, L, O>(problems: seq<P>, planners: seq<L>)
    ensures AllPending(Enumeration<P, L, O>(problems, planners))
  {
    if problems != [] {
      EnumerationPending<P, L, O>(problems[..|problems| - 1], planners);
      ProblemTestsPending<P, L, O>(problems[|problems| - 1], planners);
    }
  }

  /** The constructor creates |problems|·|planners|·RUNS tests. */
  lemma {:induction false} EnumerationLength<P, L, O>(problems: seq<P>, planners: seq<L>)
    ensures |Enumeration<P, L, O>(problems, planners)| == |problems| * (|planners| * RUNS)
  {
    if problems != [] {
      EnumerationLength<P, L, O>(problems[..|problems| - 1], planners);
      ProblemTestsLength<P, L, O>(problems[|problems| - 1], planners);
      MulFacts(|problems| - 1, 1, |planners| * RUNS);
    }
  }

  /** The constructor's layout: the test at (p·|planners| + l)·RUNS + r is
      run r + 1 of planner l on problem p. */
  lemma {:induction false} EnumerationEntry<P, L, O>(problems: seq<P>, planners: seq<L>, p: nat, l: nat, r: nat)
    requires p < |problems| && l < |planners| && r < RUNS
    ensures Position(p, l, r, |planners|) < |Enumeration<P, L, O>(problems, planners)|
    ensures Enumeration<P, L, O>(problems, planners)[Position(p, l, r, |planners|)]
      == Test(problems[p], planners[l], r + 1, Pending, None)
  {
    var init := problems[..|problems| - 1];
    EnumerationLength<P, L, O>(init, planners);
    PositionSplit(p, l, r, |planners|, |init|);
    if p < |init| {
      EnumerationEntry<P, L, O>(init, planners, p, l, r);
      EnumerationFront<P, L, O>(problems, planners, Position(p, l, r, |planners|));
      assert problems[p] == init[p];
    } else {
      EnumerationLast<P, L, O>(problems, planners, l, r);
    }
  }

  /** Appending a problem's block keeps the tests before it. */
  lemma EnumerationFront<P, L, O>(problems: seq<P>, planners: seq<L>, i: nat)
    requires problems != [] && i < |Enumeration<P, L, O>(problems[..|problems| - 1], planners)|
    ensures Enumeration<P, L, O>(problems, planners)[i] == Enumeration<P, L, O>(problems[..|problems| - 1], planners)[i]
  {
  }

  /** The last problem's block follows the tests of the problems before it. */
  lemma EnumerationLast<P, L, O>(problems: seq<P>, planners: seq<L>, l: nat, r: nat)
    requires problems != [] && l < |planners| && r < RUNS
    ensures |Enumeration<P, L, O>(problems[..|problems| - 1], planners)| + Position(0, l, r, 0)
      < |Enumeration<P, L, O>(problems, planners)|
    ensures Enumeration<P, L, O>(problems, planners)[|Enumeration<P, L, O>(problems[..|problems| - 1], planners)| + Position(0, l, r, 0)]
      == Test(problems[|problems| - 1], planners[l], r + 1, Pending, None)
  {
    ProblemTestsAt<P, L, O>(problems[|problems| - 1], planners);
  }

  // ---------------------------------------------------------------------
  // The suite's invariant

  predicate IsDone<P, L, O>(t: Test<P, L, O>) {
    t.status.Complete? || t.status.Logged?
  }

  /** Number of tests that have completed (COMPLETE or LOGGED). */
  function Done<P, L, O>(ts: seq<Test<P, L, O>>): nat {
    if ts == [] then 0
    else Done(ts[..|ts| - 1]) + (if IsDone(ts[|ts| - 1]) then 1 else 0)
  }

  /** What getNext and complete keep true of the tests, the report's log of
      test indices and the completed counter: LOGGED tests are a prefix,
      PENDING tests a suffix, the log lists the LOGGED prefix in order, a
      test has a result exactly when it has completed, and the counter counts
      the completed tests. */
  ghost predicate SuiteInvariant<P, L, O>(ts: seq<Test<P, L, O>>, log: seq<nat>, completed: nat) {
    && (forall i, j :: 0 <= i < j < |ts| && ts[j].status.Logged? ==> ts[i].status.Logged?)
    && (forall i, j :: 0 <= i < j < |ts| && ts[i].status.Pending? ==> ts[j].status.Pending?)
    && |log| <= |ts|
    && (forall k :: 0 <= k < |log| ==> log[k] == k)
    && (forall i :: 0 <= i < |ts| ==> (ts[i].status.Logged? <==> i < |log|))
    && (forall i :: 0 <= i < |ts| ==> (ts[i].result.Some? <==> IsDone(ts[i])))
    && completed == Done(ts)
  }

  // ---------------------------------------------------------------------
  // Specification of getNext

  /** Index of the first PENDING test, or |ts| when there is none. */
  function FirstPending<P, L, O>(ts: seq<Test<P, L, O>>): (k: nat)
    ensures k <= |ts|
    ensures k < |ts| ==> ts[k].status.Pending?
    ensures forall j :: 0 <= j < k ==> !ts[j].status.Pending?
  {
    if ts == [] then 0
    else if ts[0].status.Pending? then 0
    else 1 + FirstPending(ts[1..])
  }

  /** Where the scan of ts[..n] stops being ordered: the first index whose
      test is neither LOGGED nor COMPLETE, or n. */
  function Stop<P, L, O>(ts: seq<Test<P, L, O>>, n: nat): (s: nat)
    requires n <= |ts|
    ensures s <= n
    ensures forall j :: 0 <= j < s ==> IsDone(ts[j])
    ensures s < n ==> !IsDone(ts[s])
  {
    if n == 0 then 0
    else if Stop(ts, n - 1) < n - 1 then Stop(ts, n - 1)
    else if IsDone(ts[n - 1]) then n
    else n - 1
  }

  /** Indices of the COMPLETE tests in ts[..n], in order. */
  function CompleteIndices<P, L, O>(ts: seq<Test<P, L, O>>, n: nat): seq<nat>
    requires n <= |ts|
  {
    if n == 0 then []
    else CompleteIndices(ts, n - 1) + (if ts[n - 1].status.Complete? then [n - 1] else [])
  }

  /** The tests getNext logs: every COMPLETE test before the scan stops
      being ordered. */
  function Flushed<P, L, O>(ts: seq<Test<P, L, O>>): seq<nat> {
    CompleteIndices(ts, Stop(ts, FirstPending(ts)))
  }

  /** The test at index j once getNext has scanned up to `upto`, logging
      before `stop`. */
  function Scanned<P, L, O>(t: Test<P, L, O>, j: nat, stop: nat): Test<P, L, O> {
    if j < stop && t.status.Complete? then t.(status := Logged) else t
  }

  /** The tests while getNext's scan is at index i: those before i as the
      scan leaves them, the others as they were. */
  function ScannedPrefix<P, L, O>(ts: seq<Test<P, L, O>>, i: nat): (r: seq<Test<P, L, O>>)
    requires i <= |ts|
    ensures |r| == |ts|
  {
    seq(|ts|, j requires 0 <= j < |ts| => if j < i then Scanned(ts[j], j, Stop(ts, i)) else ts[j])
  }

  /** What getNext's scan has done when it reaches index i: no test before i
      is PENDING, the scan is still ordered exactly when every test before i
      is LOGGED or COMPLETE, it has logged the COMPLETE tests of that ordered
      stretch, and the tests are as ScannedPrefix says. */
  ghost predicate ScanState<P, L, O>(ts: seq<Test<P, L, O>>, i: nat, ordered: bool, logged: seq<nat>, cur: seq<Test<P, L, O>>) {
    && i <= |ts|
    && (forall j :: 0 <= j < i ==> !ts[j].status.Pending?)
    && (ordered <==> Stop(ts, i) == i)
    && logged == CompleteIndices(ts, Stop(ts, i))
    && cur == ScannedPrefix(ts, i)
  }

  /** The scan steps past a test that is not PENDING. */
  lemma ScanAdvance<P, L, O>(ts: seq<Test<P, L, O>>, i: nat, ordered: bool, logged: seq<nat>, cur: seq<Test<P, L, O>>)
    requires ScanState(ts, i, ordered, logged, cur) && i < |ts| && !ts[i].status.Pending?
    ensures cur[i] == ts[i]
    ensures var take := ts[i].status.Complete? && ordered;
      ScanState(ts, i + 1, ordered && IsDone(ts[i]), if take then logged + [i] else logged,
                if take then cur[i := ts[i].(status := Logged)] else cur)
  {
    ScanStep(ts, i);
  }

  /** The scan stops at the first PENDING test, or at the end: it has then
      logged the flushed tests and left the tests as getNext's loop does. */
  lemma ScanDone<P, L, O>(ts: seq<Test<P, L, O>>, i: nat, ordered: bool, logged: seq<nat>, cur: seq<Test<P, L, O>>)
    requires ScanState(ts, i, ordered, logged, cur)
    requires i < |ts| ==> ts[i].status.Pending?
    ensures i == FirstPending(ts)
    ensures Claimed(ts) == (if i < |ts| then Some(i) else None)
    ensures logged == Flushed(ts)
    ensures forall j :: 0 <= j < |cur| ==> cur[j] == Scanned(ts[j], j, Stop(ts, FirstPending(ts)))
  {
    FirstPendingUnique(ts, i);
  }

  /** One step of getNext's scan past a test that is not PENDING: the test is
      logged exactly when the scan is still ordered and it is COMPLETE, and
      the tests already scanned keep their new state. */
  lemma ScanStep<P, L, O>(ts: seq<Test<P, L, O>>, i: nat)
    requires i < |ts|
    ensures Stop(ts, i + 1) == (if Stop(ts, i) == i && IsDone(ts[i]) then i + 1 else Stop(ts, i))
    ensures Stop(ts, i) == i && ts[i].status.Complete? ==>
      && CompleteIndices(ts, Stop(ts, i + 1)) == CompleteIndices(ts, Stop(ts, i)) + [i]
      && ScannedPrefix(ts, i + 1) == ScannedPrefix(ts, i)[i := ts[i].(status := Logged)]
    ensures !(Stop(ts, i) == i && ts[i].status.Complete?) ==>
      && CompleteIndices(ts, Stop(ts, i + 1)) == CompleteIndices(ts, Stop(ts, i))
      && ScannedPrefix(ts, i + 1) == ScannedPrefix(ts, i)
  {
    var t := if Stop(ts, i) == i && ts[i].status.Complete? then ts[i].(status := Logged) else ts[i];
    var next, updated := ScannedPrefix(ts, i + 1), ScannedPrefix(ts, i)[i := t];
    forall j | 0 <= j < |ts|
      ensures next[j] == updated[j]
    {
    }
    if !(Stop(ts, i) == i && ts[i].status.Complete?) {
      assert ScannedPrefix(ts, i)[i] == ts[i];
      assert ScannedPrefix(ts, i)[i := ts[i]] == ScannedPrefix(ts, i);
    }
  }

  /** The tests after getNext: the flushed ones LOGGED, the first PENDING
      one RUNNING, every other test as it was. */
  function AfterGetNext<P, L, O>(ts: seq<Test<P, L, O>>): (r: seq<Test<P, L, O>>)
    ensures |r| == |ts|
  {
    var k := FirstPending(ts);
    var stop := Stop(ts, k);
    seq(|ts|, j requires 0 <= j < |ts| =>
      if j == k then ts[j].(status := Running) else Scanned(ts[j], j, stop))
  }

  /** The index getNext returns: the first PENDING test, or none. */
  function Claimed<P, L, O>(ts: seq<Test<P, L, O>>): (r: Option<nat>)
    ensures r.Some? ==> r.value < |ts| && ts[r.value].status.Pending?
    ensures r.None? <==> forall j :: 0 <= j < |ts| ==> !ts[j].status.Pending?
  {
    var k := FirstPending(ts);
    if k < |ts| then Some(k) else None
  }

  // ---------------------------------------------------------------------
  // The suite

  /** The loop of getNext: up to the first PENDING test, log every COMPLETE
      test met while every test so far is LOGGED or COMPLETE; returns the
      first PENDING test's index and the indices logged. */
  method Scan<P, L, O>(tests: array<Test<P, L, O>>) returns (result: Option<nat>, logged: seq<nat>)
    modifies tests
    ensures result == Claimed(old(tests[..]))
    ensures logged == Flushed(old(tests[..]))
    ensures forall j :: 0 <= j < tests.Length ==>
      tests[j] == Scanned(old(tests[..])[j], j, Stop(old(tests[..]), FirstPending(old(tests[..]))))
  {
    ghost var ts := tests[..];
    var ordered := true;
    result := None;
    logged := [];
    var i := 0;
    while i < tests.Length
      invariant 0 <= i <= tests.Length && result.None?
      invariant ScanState(ts, i, ordered, logged, tests[..])
    {
      if tests[i].status.Pending? {
        result := Some(i);
        break;
      }
      ghost var o, l, c := ordered, logged, tests[..];
      if tests[i].status.Complete? && ordered {
        logged := logged + [i];
        tests[i] := tests[i].(status := Logged);
      } else if !tests[i].status.Logged? {
        ordered := false;
      }
      ScanAdvance(ts, i, o, l, c);
      i := i + 1;
    }
    ScanDone(ts, i, ordered, logged, tests[..]);
  }

  class TestSuite<P(0), L(0), O> {
    /** All tests, in the constructor's order. */
    const tests: array<Test<P, L, O>>
    /** Number of tests completed so far. */
    var complete: nat
    /** The tests handed to the report, by index, in the order they were added. */
    var log: seq<nat>

    ghost predicate Valid()
      reads this, tests
    {
      SuiteInvariant(tests[..], log, complete)
    }

    /** One test per (problem, planner, run), problem-major, then planner,
        then run; every test PENDING without a result. */
    constructor (problems: seq<P>, planners: seq<L>)
      ensures Valid()
      ensures tests[..] == Enumeration(problems, planners)
      ensures complete == 0 && log == []
    {
      var a := new Test<P, L, O>[|problems| * |planners| * RUNS];
      var width := |planners| * RUNS;
      MulFacts(|problems|, |planners|, RUNS);
      var index := 0;
      for p := 0 to |problems|
        invariant index == |Enumeration<P, L, O>(problems[..p], planners)| <= a.Length
        invariant a[..index] == Enumeration(problems[..p], planners)
      {
        EnumerationLength<P, L, O>(problems[..p], planners);
        MulMono(p + 1, |problems|, width);
        MulFacts(p, 1, width);
        assert index + width <= a.Length;
        assert problems[..p + 1][..p] == problems[..p];
        ProblemTestsLength<P, L, O>(problems[p], planners);
        ghost var grown := Enumeration<P, L, O>(problems[..p + 1], planners);
        assert grown == Enumeration(problems[..p], planners) + ProblemTests(problems[p], planners);
        index := FillProblem(a, index, problems[p], planners);
        assert a[..index] == grown;
      }
      assert problems[..|problems|] == problems;
      EnumerationLength<P, L, O>(problems, planners);
      assert a[..] == a[..index];
      tests := a;
      complete := 0;
      log := [];
      new;
      EnumerationPending<P, L, O>(problems, planners);
      AllPendingInvariant(tests[..]);
    }

    /** The constructor's two inner loops: every run of every planner on one
        problem, written from `start` on. */
    static method FillProblem(a: array<Test<P, L, O>>, start: nat, problem: P, planners: seq<L>) returns (index: nat)
      requires start + |planners| * RUNS <= a.Length
      modifies a
      ensures index == start + |planners| * RUNS
      ensures a[..index] == old(a[..start]) + ProblemTests(problem, planners)
    {
      index := start;
      for l := 0 to |planners|
        invariant index == start + l * RUNS
        invariant a[..index] == old(a[..start]) + ProblemTests(problem, planners[..l])
      {
        assert planners[..l + 1][..l] == planners[..l];
        ghost var before := a[..index];
        for run := 1 to RUNS + 1
          invariant index == |before| + run - 1
          invariant a[..index] == before + RunTests(problem, planners[l], run - 1)
        {
          a[index] := Test(problem, planners[l], run, Pending, None);
          index := index + 1;
        }
      }
      assert planners[..|planners|] == planners;
    }

    /** getNext: claims the first PENDING test (now RUNNING) and, in the
        same scan, logs in array order every COMPLETE test before the first
        test that is neither LOGGED nor COMPLETE. */
    method GetNext() returns (next: Option<nat>)
      requires Valid()
      modifies this, tests
      ensures Valid()
      ensures next == Claimed(old(tests[..]))
      ensures tests[..] == AfterGetNext(old(tests[..]))
      ensures log == old(log) + Flushed(old(tests[..]))
      ensures complete == old(complete)
    {
      ghost var ts := tests[..];
      var result, logged := Scan(tests);
      log := log + logged;
      if result.Some? {
        tests[result.value] := tests[result.value].(status := Running);
      }
      next := result;
      assert tests[..] == AfterGetNext(ts);
      GetNextPreserves(ts, old(log), complete);
    }

    /** complete: stores the result of a RUNNING test, marks it COMPLETE and
        counts it. */
    method Complete(i: nat, outcome: O)
      requires Valid()
      requires i < tests.Length && tests[i].status.Running?
      modifies this, tests
      ensures Valid()
      ensures tests[..] == old(tests[..])[i := old(tests[i]).(status := TestStatus.Complete, result := Some(outcome))]
      ensures complete == old(complete) + 1
      ensures log == old(log)
    {
      ghost var ts := tests[..];
      tests[i] := tests[i].(result := Some(outcome), status := TestStatus.Complete);
      complete := complete + 1;
      CompletePreserves(ts, log, old(complete), i, outcome);
    }
  }

  // ---------------------------------------------------------------------
  // Proofs and properties

  lemma FirstPendingUnique<P, L, O>(ts: seq<Test<P, L, O>>, i: nat)
    requires i <= |ts|
    requires forall j :: 0 <= j < i ==> !ts[j].status.Pending?
    requires i < |ts| ==> ts[i].status.Pending?
    ensures i == FirstPending(ts)
  {
  }

  lemma {:induction false} DoneSameWhere<P, L, O>(a: seq<Test<P, L, O>>, b: seq<Test<P, L, O>>)
    requires |a| == |b|
    requires forall j :: 0 <= j < |a| ==> (IsDone(a[j]) <==> IsDone(b[j]))
    ensures Done(a) == Done(b)
  {
    if a != [] {
      DoneSameWhere(a[..|a| - 1], b[..|b| - 1]);
    }
  }

  lemma {:induction false} DoneUpdate<P, L, O>(ts: seq<Test<P, L, O>>, i: nat, t: Test<P, L, O>)
    requires i < |ts| && !IsDone(ts[i]) && IsDone(t)
    ensures Done(ts[i := t]) == Done(ts) + 1
  {
    var last := |ts| - 1;
    if i == last {
      assert ts[i := t][..last] == ts[..last];
    } else {
      assert ts[i := t][..last] == ts[..last][i := t];
      DoneUpdate(ts[..last], i, t);
    }
  }

  lemma AllPendingInvariant<P, L, O>(ts: seq<Test<P, L, O>>)
    requires AllPending(ts)
    ensures SuiteInvariant(ts, [], 0)
  {
    ZeroDone(ts);
  }

  lemma {:induction false} ZeroDone<P, L, O>(ts: seq<Test<P, L, O>>)
    requires forall j :: 0 <= j < |ts| ==> !IsDone(ts[j])
    ensures Done(ts) == 0
  {
    if ts != [] {
      ZeroDone(ts[..|ts| - 1]);
    }
  }

  /** Under the invariant the flushed tests are exactly the indices from the
      end of the log up to where the scan stops being ordered. */
  lemma {:induction false} CompleteIndicesRun<P, L, O>(ts: seq<Test<P, L, O>>, lo: nat, n: nat)
    requires lo <= n <= |ts|
    requires forall j :: 0 <= j < lo ==> !ts[j].status.Complete?
    requires forall j :: lo <= j < n ==> ts[j].status.Complete?
    ensures CompleteIndices(ts, n) == seq(n - lo, k => lo + k)
  {
    if n > lo {
      CompleteIndicesRun(ts, lo, n - 1);
    } else {
      NoCompleteIndices(ts, n);
    }
  }

  lemma {:induction false} NoCompleteIndices<P, L, O>(ts: seq<Test<P, L, O>>, n: nat)
    requires n <= |ts|
    requires forall j :: 0 <= j < n ==> !ts[j].status.Complete?
    ensures CompleteIndices(ts, n) == []
  {
    if n > 0 {
      NoCompleteIndices(ts, n - 1);
    }
  }

  /** getNext keeps the suite invariant. */
  lemma GetNextPreserves<P, L, O>(ts: seq<Test<P, L, O>>, log: seq<nat>, completed: nat)
    requires SuiteInvariant(ts, log, completed)
    ensures SuiteInvariant(AfterGetNext(ts), log + Flushed(ts), completed)
  {
    FlushedRun(ts, log, completed);
    AfterGetNextLogged(ts, log, completed);
    AfterGetNextPending(ts, log, completed);
    AfterGetNextResults(ts, log, completed);
  }

  /** After getNext the LOGGED tests are exactly those before the stop. */
  lemma AfterGetNextLogged<P, L, O>(ts: seq<Test<P, L, O>>, log: seq<nat>, completed: nat)
    requires SuiteInvariant(ts, log, completed)
    ensures forall j :: 0 <= j < |ts| ==>
      (AfterGetNext(ts)[j].status.Logged? <==> j < Stop(ts, FirstPending(ts)))
  {
    var k := FirstPending(ts);
    var stop := Stop(ts, k);
    var r := AfterGetNext(ts);
    forall j | 0 <= j < |ts|
      ensures r[j].status.Logged? <==> j < stop
    {
      assert stop < k ==> !ts[stop].status.Logged?;
      assert k < j ==> ts[j].status.Pending?;
    }
  }

  /** After getNext the PENDING tests are still a suffix. */
  lemma AfterGetNextPending<P, L, O>(ts: seq<Test<P, L, O>>, log: seq<nat>, completed: nat)
    requires SuiteInvariant(ts, log, completed)
    ensures forall i, j :: 0 <= i < j < |ts| && AfterGetNext(ts)[i].status.Pending? ==> AfterGetNext(ts)[j].status.Pending?
  {
    var k := FirstPending(ts);
    var r := AfterGetNext(ts);
    forall i, j | 0 <= i < j < |r| && r[i].status.Pending?
      ensures r[j].status.Pending?
    {
      assert i > k;
    }
  }

  /** getNext changes no test's result and which tests are done. */
  lemma AfterGetNextResults<P, L, O>(ts: seq<Test<P, L, O>>, log: seq<nat>, completed: nat)
    requires SuiteInvariant(ts, log, completed)
    ensures forall i :: 0 <= i < |ts| ==> (AfterGetNext(ts)[i].result.Some? <==> IsDone(AfterGetNext(ts)[i]))
    ensures Done(AfterGetNext(ts)) == completed
  {
    DoneSameWhere(ts, AfterGetNext(ts));
  }

  /** Before the scan stops, the log covers the LOGGED tests and every other
      test is COMPLETE, so getNext logs the indices from |log| up to the
      stop, in order. */
  lemma FlushedRun<P, L, O>(ts: seq<Test<P, L, O>>, log: seq<nat>, completed: nat)
    requires SuiteInvariant(ts, log, completed)
    ensures |log| <= Stop(ts, FirstPending(ts))
    ensures Flushed(ts) == seq(Stop(ts, FirstPending(ts)) - |log|, x => |log| + x)
  {
    var k := FirstPending(ts);
    var stop := Stop(ts, k);
    assert stop < k ==> !ts[stop].status.Logged?;
    assert |log| <= stop;
    forall j | 0 <= j < |log|
      ensures !ts[j].status.Complete?
    {
    }
    forall j | |log| <= j < stop
      ensures ts[j].status.Complete?
    {
      assert IsDone(ts[j]);
    }
    CompleteIndicesRun(ts, |log|, stop);
  }

  /** complete keeps the suite invariant. */
  lemma CompletePreserves<P, L, O>(ts: seq<Test<P, L, O>>, log: seq<nat>, completed: nat, i: nat, outcome: O)
    requires SuiteInvariant(ts, log, completed)
    requires i < |ts| && ts[i].status.Running?
    ensures SuiteInvariant(ts[i := ts[i].(status := Complete, result := Some(outcome))], log, completed + 1)
  {
    var t := ts[i].(status := Complete, result := Some(outcome));
    DoneUpdate(ts, i, t);
    var r := ts[i := t];
    forall a, b | 0 <= a < b < |r| && r[a].status.Pending?
      ensures r[b].status.Pending?
    {
      assert ts[a].status.Pending?;
    }
  }

  /** Statuses only move forward: PENDING, RUNNING, COMPLETE, LOGGED. */
  function Rank(s: TestStatus): nat {
    match s
    case Pending => 0
    case Running => 1
    case Complete => 2
    case Logged => 3
  }

  /** getNext never moves a test backwards and never changes which problem,
      planner and run a test stands for; the test it claims moves from
      PENDING to RUNNING, so no test is claimed twice. */
  lemma GetNextMovesForward<P, L, O>(ts: seq<Test<P, L, O>>)
    ensures forall j :: 0 <= j < |ts| ==>
      Rank(ts[j].status) <= Rank(AfterGetNext(ts)[j].status)
      && AfterGetNext(ts)[j].(status := ts[j].status) == ts[j]
    ensures Claimed(ts).Some? ==> AfterGetNext(ts)[Claimed(ts).value].status.Running?
  {
  }

  /** Once no test is PENDING or RUNNING, one getNext logs every remaining
      test and claims none. */
  lemma {:induction false} FinalGetNextLogsAll<P, L, O>(ts: seq<Test<P, L, O>>, log: seq<nat>, completed: nat)
    requires SuiteInvariant(ts, log, completed)
    requires forall j :: 0 <= j < |ts| ==> IsDone(ts[j])
    ensures Claimed(ts).None?
    ensures forall j :: 0 <= j < |ts| ==> AfterGetNext(ts)[j].status.Logged?
    ensures log + Flushed(ts) == seq(|ts|, j => j)
  {
    assert FirstPending(ts) == |ts|;
    var stop := Stop(ts, |ts|);
    assert stop == |ts|;
    forall j | |log| <= j < |ts|
      ensures ts[j].status.Complete?
    {
    }
    forall j | 0 <= j < |log|
      ensures !ts[j].status.Complete?
    {
    }
    CompleteIndicesRun(ts, |log|, |ts|);
    assert log == seq(|log|, j => j);
  }

  /** A result can be read from exactly the tests that have completed. */
  lemma ResultOnceDone<P, L, O>(ts: seq<Test<P, L, O>>, log: seq<nat>, completed: nat, i: nat)
    requires SuiteInvariant(ts, log, completed)
    requires i < |ts|
    ensures GetResult(ts[i]).Ok? <==> IsDone(ts[i])
  {
  }
}
