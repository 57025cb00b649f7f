/** The rank-0-first barrier protocol as interleaved steps of any number of ranks. */
module ZeroFirst {

  /** Where a rank is within a section: before it, at the barrier, or running the guarded body. */
  datatype Phase = Ready | Waiting | Inside

  /** The number of sections a rank has completed, and its phase in the next one. */
  datatype Rank = Rank(section: nat, phase: Phase)

  /** One entry per rank; entry 0 is the local master. */
  type State = seq<Rank>

  /** How often a rank has called the barrier: the master calls it after the body, the others before. */
  function Arrived(s: State, r: nat): nat
    requires r < |s|
  {
    s[r].section + if s[r].phase == Waiting || (r != 0 && s[r].phase == Inside) then 1 else 0
  }

  /** Barrier number k lets ranks through once every rank has called it. */
  predicate Released(s: State, k: nat) {
    forall q :: 0 <= q < |s| ==> Arrived(s, q) > k
  }

  predicate Finished(s: State, r: nat, total: nat)
    requires r < |s|
  {
    s[r].section == total && s[r].phase == Ready
  }

  /** The next move of rank r, if it is not blocked and not done. */
  predicate Enabled(s: State, r: nat, total: nat)
    requires r < |s|
  {
    match s[r].phase
    case Ready => s[r].section < total
    case Inside => true
    case Waiting => Released(s, s[r].section)
  }

  function Advance(s: State, r: nat): Rank
    requires r < |s|
  {
    var k := s[r].section;
    if r == 0 then
      match s[r].phase
      case Ready => Rank(k, Inside)       // run the body first
      case Inside => Rank(k, Waiting)     // then call the barrier
      case Waiting => Rank(k + 1, Ready)
    else
      match s[r].phase
      case Ready => Rank(k, Waiting)      // call the barrier first
      case Waiting => Rank(k, Inside)     // then run the body
      case Inside => Rank(k + 1, Ready)
  }

  function Moved(s: State, r: nat): (s': State)
    requires r < |s|
    ensures |s'| == |s|
  {
    s[r := Advance(s, r)]
  }

  /** One step of one rank. */
  predicate StepBy(s: State, s': State, r: int, total: nat) {
    0 <= r < |s| && Enabled(s, r, total) && s' == Moved(s, r)
  }

  ghost predicate Step(s: State, s': State, total: nat) {
    exists r :: StepBy(s, s', r, total)
  }

  predicate Initial(s: State) {
    |s| > 0 && forall r :: 0 <= r < |s| ==> s[r] == Rank(0, Ready)
  }

  /** Any interleaving of the ranks' steps, from the start. */
  ghost predicate Run(run: seq<State>, total: nat) {
    |run| > 0 && Initial(run[0]) && forall i :: 0 <= i < |run| - 1 ==> Step(run[i], run[i + 1], total)
  }

  // ----- the invariant -----

  /** How rank r stands to the master. */
  predicate Related(s: State, r: nat)
    requires 0 < r < |s|
  {
    && (s[r].phase == Inside ==> Arrived(s, 0) > s[r].section)
    && s[0].section <= Arrived(s, r)
    && s[r].section <= Arrived(s, 0)
  }

  ghost predicate Invariant(s: State, total: nat) {
    && |s| > 0
    && (forall r :: 0 <= r < |s| ==> s[r].section <= total && (s[r].section == total ==> s[r].phase == Ready))
    && (forall r :: 0 < r < |s| ==> Related(s, r))
  }

  lemma StepKeepsInvariant(s: State, s': State, r: nat, total: nat)
    requires Invariant(s, total) && StepBy(s, s', r, total)
    ensures Invariant(s', total)
  {
    forall q | 0 < q < |s'| ensures Related(s', q) {
      assert Related(s, q);
      if r == 0 && s[0].phase == Waiting {
        assert Arrived(s, q) > s[0].section;
      }
      if r == q && s[q].phase == Waiting {
        assert Arrived(s, 0) > s[q].section;
      }
    }
  }

  lemma {:induction false} RunKeepsInvariant(run: seq<State>, total: nat, i: nat)
    requires Run(run, total) && i < |run|
    ensures Invariant(run[i], total) && |run[i]| == |run[0]|
  {
    if i > 0 {
      RunKeepsInvariant(run, total, i - 1);
      assert Step(run[i - 1], run[i - 1 + 1], total);
      var r :| StepBy(run[i - 1], run[i], r, total);
      StepKeepsInvariant(run[i - 1], run[i], r, total);
    }
  }

  // ----- what holds in every interleaving -----

  /** The master has finished the body of section k. */
  predicate MasterDone(s: State, k: nat)
    requires |s| > 0
  {
    s[0].section > k || (s[0].section == k && s[0].phase == Waiting)
  }

  /** No other rank is inside a section before the master has finished it. */
  lemma MasterGoesFirst(run: seq<State>, total: nat, i: nat, r: nat)
    requires Run(run, total) && i < |run| && 0 < r < |run[i]| && run[i][r].phase == Inside
    ensures MasterDone(run[i], run[i][r].section)
  {
    RunKeepsInvariant(run, total, i);
    assert Related(run[i], r);
  }

  /** The master is never more than one section ahead of any rank, nor any rank of the master. */
  lemma NeverFarApart(run: seq<State>, total: nat, i: nat, r: nat)
    requires Run(run, total) && i < |run| && r < |run[i]|
    ensures run[i][0].section <= run[i][r].section + 1 && run[i][r].section <= run[i][0].section + 1
  {
    RunKeepsInvariant(run, total, i);
    if r > 0 { assert Related(run[i], r); }
  }

  /** A rank that is not finished can move, or waits for one that is further behind. */
  lemma {:induction false} SomeoneMoves(s: State, r: nat, total: nat) returns (e: nat)
    requires Invariant(s, total) && r < |s| && !Finished(s, r, total)
    ensures e < |s| && Enabled(s, e, total)
    decreases s[r].section
  {
    if Enabled(s, r, total) { return r; }
    var q :| 0 <= q < |s| && Arrived(s, q) <= s[r].section;
    if Enabled(s, q, total) { return q; }
    e := SomeoneMoves(s, q, total);
  }

  /** No reachable state is stuck: as long as some rank has a section left, some rank can take a step. */
  lemma NoDeadlock(run: seq<State>, total: nat, r: nat)
    requires Run(run, total) && r < |run[|run| - 1]| && !Finished(run[|run| - 1], r, total)
    ensures exists s' :: Step(run[|run| - 1], s', total) && Run(run + [s'], total)
  {
    var s := run[|run| - 1];
    RunKeepsInvariant(run, total, |run| - 1);
    var e := SomeoneMoves(s, r, total);
    var s' := Moved(s, e);
    assert StepBy(s, s', e, total);
    var longer := run + [s'];
    forall i | 0 <= i < |longer| - 1 ensures Step(longer[i], longer[i + 1], total) {
      if i < |run| - 1 { assert Step(run[i], run[i + 1], total); }
    }
    assert Run(longer, total);
  }

  // ----- every run ends -----

  function Place(r: nat, k: Rank): nat {
    3 * k.section + match k.phase
                    case Ready => 0
                    case Inside => if r == 0 then 1 else 2
                    case Waiting => if r == 0 then 2 else 1
  }

  /** Moves made so far by the ranks below n. */
  function Progress(s: State, n: nat): nat
    requires n <= |s|
  {
    if n == 0 then 0 else Progress(s, n - 1) + Place(n - 1, s[n - 1])
  }

  lemma {:induction false} ProgressStep(s: State, r: nat, n: nat)
    requires r < |s| && n <= |s|
    ensures Progress(Moved(s, r), n) == Progress(s, n) + if r < n then 1 else 0
  {
    if n > 0 { ProgressStep(s, r, n - 1); }
  }

  lemma {:induction false} ProgressBound(s: State, total: nat, n: nat)
    requires Invariant(s, total) && n <= |s|
    ensures Progress(s, n) <= 3 * total * n
  {
    if n > 0 {
      ProgressBound(s, total, n - 1);
      assert 3 * total * n == 3 * total * (n - 1) + 3 * total;
    }
  }

  lemma {:induction false} ProgressCounts(run: seq<State>, total: nat, i: nat)
    requires Run(run, total) && i < |run|
    ensures Progress(run[i], |run[i]|) == i
  {
    RunKeepsInvariant(run, total, i);
    if i > 0 {
      ProgressCounts(run, total, i - 1);
      assert Step(run[i - 1], run[i - 1 + 1], total);
      var r :| StepBy(run[i - 1], run[i], r, total);
      ProgressStep(run[i - 1], r, |run[i]|);
    } else {
      ProgressStart(run[0], |run[0]|);
    }
  }

  lemma {:induction false} ProgressStart(s: State, n: nat)
    requires Initial(s) && n <= |s|
    ensures Progress(s, n) == 0
  {
    if n > 0 { ProgressStart(s, n - 1); }
  }

  /** Every interleaving of N ranks through S sections takes at most 3 * S * N steps, so with NoDeadlock it completes. */
  lemma RunsAreBounded(run: seq<State>, total: nat)
    requires Run(run, total)
    ensures |run| - 1 <= 3 * total * |run[0]|
  {
    var i := |run| - 1;
    RunKeepsInvariant(run, total, i);
    ProgressCounts(run, total, i);
    ProgressBound(run[i], total, |run[i]|);
  }

  predicate AllFinished(s: State, n: nat, total: nat)
    requires n <= |s|
  {
    forall r :: 0 <= r < n ==> Finished(s, r, total)
  }

  lemma PlaceBound(s: State, r: nat, total: nat)
    requires Invariant(s, total) && r < |s|
    ensures Place(r, s[r]) <= 3 * total
    ensures Place(r, s[r]) == 3 * total <==> Finished(s, r, total)
  {
  }

  lemma {:induction false} ProgressFull(s: State, total: nat, n: nat)
    requires Invariant(s, total) && n <= |s|
    ensures Progress(s, n) == 3 * total * n <==> AllFinished(s, n, total)
  {
    if n > 0 {
      ProgressFull(s, total, n - 1);
      ProgressBound(s, total, n - 1);
      PlaceBound(s, n - 1, total);
      assert AllFinished(s, n, total) <==> AllFinished(s, n - 1, total) && Finished(s, n - 1, total);
      assert Progress(s, n) == Progress(s, n - 1) + Place(n - 1, s[n - 1]);
      hide *;
      var each := 3 * total;
      assert each * n == each * (n - 1) + each;
    }
  }

  /** A run has taken all of its 3 * S * N steps exactly when every rank has left every section. */
  lemma CompleteRuns(run: seq<State>, total: nat)
    requires Run(run, total)
    ensures |run| - 1 == 3 * total * |run[0]| <==> AllFinished(run[|run| - 1], |run[|run| - 1]|, total)
  {
    var i := |run| - 1;
    RunKeepsInvariant(run, total, i);
    ProgressCounts(run, total, i);
    ProgressFull(run[i], total, |run[i]|);
  }
}
