/** Bounded-parallel execution of a selection of gates.

    The method below keeps the source's tables and loops.  Which running gates are
    done when the wait returns is an arbitrary non-empty choice, so its contract
    covers every completion order; the ghost result is the run it has taken through
    the transition system of module Schedule.
 */
module RunGates {
  import opened Digraph
  import opened GateGraph
  import opened Schedule
  import opened Options

  datatype Report =
    | Rejected(error: GraphError)
    | NoWorkers
    | Finished(results: Table, passed: nat, failed: nat, skipped: nat, exitCode: int)

  ghost function PlanOf(gates: seq<Gate>, outcome: string -> bool, maxActive: nat): Plan {
    Plan(NeedGraph(gates), outcome, maxActive)
  }

  predicate DepsPassed(state: Table, gate: Gate) {
    forall d :: d in gate.needs && d in state ==> state[d] == Passed
  }

  predicate DepsFailed(state: Table, gate: Gate) {
    exists d :: d in gate.needs && d in state && state[d] in {Failed, Skipped}
  }

  lemma {:induction false} DepsMeaning(gates: seq<Gate>, state: Table, k: nat)
    requires UniqueIds(gates) && k < |gates| && state.Keys == IdSet(gates)
    ensures DepsPassed(state, gates[k]) <==> NeedsPassed(NeedGraph(gates), state, gates[k].id)
    ensures DepsFailed(state, gates[k]) <==> NeedsLost(NeedGraph(gates), state, gates[k].id)
  {
    NeedGraphAt(gates, k);
  }

  /** The scan's test is readiness, the cascade's test is a lost need. */
  lemma {:induction false} ScanMeaning(gates: seq<Gate>, plan: Plan, run: seq<Event>, state: Table, k: nat)
    requires UniqueIds(gates) && k < |gates| && plan.needs == NeedGraph(gates)
    requires Follows(plan, run, state)
    ensures gates[k].id in state
    ensures state[gates[k].id] == Pending && DepsPassed(state, gates[k]) <==> Ready(plan.needs, state, gates[k].id)
    ensures state[gates[k].id] == Pending && DepsFailed(state, gates[k]) <==> Lost(plan.needs, state, gates[k].id)
  {
    NeedGraphClosed(gates);
    KeysFollow(plan, run, state);
    assert gates[k].id in IdSet(gates);
    DepsMeaning(gates, state, k);
  }

  /** The tables agree with the run taken so far. */
  ghost predicate Follows(plan: Plan, run: seq<Event>, state: Table) {
    IsRun(plan, run) && After(plan, run) == state
  }

  ghost predicate Recorded(state: Table, results: Table) {
    && (forall a :: a in results <==> a in state && state[a] !in {Pending, Running})
    && (forall a :: a in results ==> results[a] == state[a])
  }

  lemma {:induction false} FollowEvent(plan: Plan, run: seq<Event>, state: Table, e: Event)
    requires Follows(plan, run, state) && Enabled(plan, state, e)
    ensures Follows(plan, run + [e], Apply(plan, state, e))
  {
    ExtendRun(plan, run, e);
  }

  lemma {:induction false} KeysFollow(plan: Plan, run: seq<Event>, state: Table)
    requires Closed(plan.needs) && Follows(plan, run, state)
    ensures Safe(plan, state) && state.Keys == plan.needs.Keys
  {
    ReachableIsSafe(plan, run);
  }

  ghost function OpenSet(s: Table): set<string> {
    PendingSet(s) + RunningSet(s)
  }

  lemma {:induction false} StartStep(plan: Plan, run: seq<Event>, state: Table, results: Table, a: string)
    requires Follows(plan, run, state) && Recorded(state, results) && Enabled(plan, state, Start(a))
    ensures Follows(plan, run + [Start(a)], state[a := Running]) && Recorded(state[a := Running], results)
    ensures RunningSet(state[a := Running]) == RunningSet(state) + {a}
    ensures OpenSet(state[a := Running]) == OpenSet(state)
  {
    assert Ready(plan.needs, state, a);
    FollowEvent(plan, run, state, Start(a));
    StartMoves(state, a);
  }

  lemma {:induction false} StartMoves(state: Table, a: string)
    requires a in state && state[a] == Pending
    ensures RunningSet(state[a := Running]) == RunningSet(state) + {a}
    ensures OpenSet(state[a := Running]) == OpenSet(state)
  {
    SizeAfterSet(state, a, Running);
    PendingAfterSet(state, a, Running);
    assert a in PendingSet(state);
  }

  lemma {:induction false} SkipStep(plan: Plan, run: seq<Event>, state: Table, results: Table, a: string)
    requires Closed(plan.needs)
    requires Follows(plan, run, state) && Recorded(state, results) && Enabled(plan, state, Skip(a))
    ensures Follows(plan, run + [Skip(a)], state[a := Skipped])
    ensures Recorded(state[a := Skipped], results[a := Skipped])
    ensures Stalled(plan.needs, state[a := Skipped])
    ensures |PendingSet(state[a := Skipped])| < |PendingSet(state)|
  {
    FollowEvent(plan, run, state, Skip(a));
    SkipKeepsStalled(plan, state, a);
    PendingAfterSet(state, a, Skipped);
    DropOne(PendingSet(state), a);
    assert a in PendingSet(state);
  }

  lemma {:induction false} SkipKeepsStalled(plan: Plan, s: Table, a: string)
    requires Closed(plan.needs) && a in s && Stalled(plan.needs, s)
    ensures Stalled(plan.needs, s[a := Skipped])
  {
    var s' := s[a := Skipped];
    SizeAfterSet(s, a, Skipped);
    forall b | b in s'
      ensures !Ready(plan.needs, s', b)
    {
      assert !Ready(plan.needs, s, b);
    }
  }

  ghost predicate NoneReadyBelow(gates: seq<Gate>, needs: Graph, state: Table, n: nat)
    requires n <= |gates|
  {
    n == 0 || (NoneReadyBelow(gates, needs, state, n - 1) && !Ready(needs, state, gates[n - 1].id))
  }

  lemma {:induction false} NoneReadyAt(gates: seq<Gate>, needs: Graph, state: Table, n: nat, k: nat)
    requires k < n <= |gates| && NoneReadyBelow(gates, needs, state, n)
    ensures !Ready(needs, state, gates[k].id)
  {
    if k < n - 1 {
      NoneReadyAt(gates, needs, state, n - 1, k);
    }
  }

  /** Facts about all gates by index are facts about all keys of a table. */
  lemma {:induction false} NoneReady(gates: seq<Gate>, plan: Plan, run: seq<Event>, state: Table)
    requires plan.needs == NeedGraph(gates) && Follows(plan, run, state) && RunningSet(state) == {}
    requires NoneReadyBelow(gates, plan.needs, state, |gates|)
    ensures Stalled(plan.needs, state)
  {
    var needs := plan.needs;
    NeedGraphClosed(gates);
    KeysFollow(plan, run, state);
    forall a | a in state
      ensures !Ready(needs, state, a)
    {
      assert a in IdSet(gates);
      var k :| 0 <= k < |gates| && gates[k].id == a;
      NoneReadyAt(gates, needs, state, |gates|, k);
    }
  }

  /** The scheduler's variables between two statements of the main loop. */
  ghost predicate Tracks(plan: Plan, run: seq<Event>, state: Table, running: set<string>, results: Table) {
    Follows(plan, run, state) && running == RunningSet(state) && Recorded(state, results)
  }

  /** A start makes no gate ready. */
  lemma {:induction false} StartReadiesNone(gates: seq<Gate>, needs: Graph, state: Table, a: string, n: nat)
    requires a in state && n <= |gates|
    ensures NoneReadyBelow(gates, needs, state, n) ==> NoneReadyBelow(gates, needs, state[a := Running], n)
    ensures !Ready(needs, state[a := Running], a)
  {
    if n > 0 {
      StartReadiesNone(gates, needs, state, a, n - 1);
    }
  }

  /** The scan has passed the first i gates: none of them is ready. */
  ghost predicate Scanned(gates: seq<Gate>, plan: Plan, run: seq<Event>, state: Table, running: set<string>,
                          results: Table, open: set<string>, i: nat)
    requires i <= |gates|
  {
    Tracks(plan, run, state, running, results) && OpenSet(state) == open
    && NoneReadyBelow(gates, plan.needs, state, i)
  }

  /** Submits gate i if it is pending with all needs passed. */
  method TrySubmit(gates: seq<Gate>, i: nat, state0: Table, running0: set<string>,
                   ghost plan: Plan, ghost results: Table, ghost run0: seq<Event>, ghost open: set<string>)
    returns (state: Table, running: set<string>, ghost run: seq<Event>)
    requires UniqueIds(gates) && i < |gates| && plan.needs == NeedGraph(gates) && |running0| < plan.limit
    requires Scanned(gates, plan, run0, state0, running0, results, open, i)
    ensures Scanned(gates, plan, run, state, running, results, open, i + 1)
  {
    state, running, run := state0, running0, run0;
    var gate := gates[i];
    ScanMeaning(gates, plan, run, state, i);
    if state[gate.id] == Pending && DepsPassed(state, gate) {
      StartStep(plan, run, state, results, gate.id);
      state := state[gate.id := Running];
      running := running + {gate.id};
      run := run + [Start(gate.id)];
      StartReadiesNone(gates, plan.needs, state0, gate.id, i);
    }
  }

  /** After the scan the slots are full, or every gate has been passed. */
  lemma {:induction false} ScanEnds(gates: seq<Gate>, plan: Plan, run: seq<Event>, state: Table, running: set<string>,
                                    results: Table, open: set<string>, i: nat)
    requires plan.needs == NeedGraph(gates) && i <= |gates|
    requires Scanned(gates, plan, run, state, running, results, open, i) && (i == |gates| || |running| >= plan.limit)
    ensures Tracks(plan, run, state, running, results) && OpenSet(state) == open
    ensures |running| == plan.limit || NoneReadyBelow(gates, plan.needs, state, |gates|)
  {
    NeedGraphClosed(gates);
    KeysFollow(plan, run, state);
  }

  /** One scan that submits ready gates until the slots are full: afterwards they are, or no
      pending gate is ready. */
  method FillSlots(gates: seq<Gate>, maxActive: nat, state0: Table, running0: set<string>,
                   ghost plan: Plan, ghost results: Table, ghost run0: seq<Event>)
    returns (state: Table, running: set<string>, ghost run: seq<Event>)
    requires UniqueIds(gates) && maxActive >= 1
    requires plan.needs == NeedGraph(gates) && plan.limit == maxActive
    requires Tracks(plan, run0, state0, running0, results)
    ensures Tracks(plan, run, state, running, results) && OpenSet(state) == OpenSet(state0)
    ensures |running| == maxActive || NoneReadyBelow(gates, plan.needs, state, |gates|)
  {
    state, running, run := state0, running0, run0;
    var i := 0;
    while i < |gates| && |running| < maxActive
      invariant 0 <= i <= |gates|
      invariant Scanned(gates, plan, run, state, running, results, OpenSet(state0), i)
    {
      state, running, run := TrySubmit(gates, i, state, running, plan, results, run, OpenSet(state0));
      i := i + 1;
    }
    ScanEnds(gates, plan, run, state, running, results, OpenSet(state0), i);
  }

  lemma {:induction false} FinishStep(plan: Plan, run: seq<Event>, state: Table, running: set<string>, results: Table,
                                      a: string)
    requires Tracks(plan, run, state, running, results) && a in running
    ensures Tracks(plan, run + [Finish(a)], state[a := Own(plan, a)], running - {a}, results[a := Own(plan, a)])
    ensures OpenSet(state[a := Own(plan, a)]) == OpenSet(state) - {a}
  {
    FollowEvent(plan, run, state, Finish(a));
    SizeAfterSet(state, a, Own(plan, a));
    PendingAfterSet(state, a, Own(plan, a));
    assert a !in PendingSet(state);
  }

  /** Waits until at least one running gate is done and records the outcome of those that are. */
  method Collect(outcome: string -> bool, state0: Table, running0: set<string>, results0: Table,
                 ghost plan: Plan, ghost run0: seq<Event>)
    returns (state: Table, running: set<string>, results: Table, ghost run: seq<Event>)
    requires plan.outcome == outcome && running0 != {}
    requires Tracks(plan, run0, state0, running0, results0)
    ensures Tracks(plan, run, state, running, results)
    ensures |OpenSet(state)| < |OpenSet(state0)|
  {
    state, running, results, run := state0, running0, results0, run0;
    var all: set<string> :| all <= running && all != {};
    var done := all;
    while done != {}
      invariant done <= all * running
      invariant Tracks(plan, run, state, running, results)
      invariant OpenSet(state) == OpenSet(state0) - (all - done)
      decreases done
    {
      var gid :| gid in done;
      var status := if outcome(gid) then Passed else Failed;
      FinishStep(plan, run, state, running, results, gid);
      done, running := done - {gid}, running - {gid};
      state := state[gid := status];
      results := results[gid := status];
      run := run + [Finish(gid)];
    }
    SmallerSet(OpenSet(state), OpenSet(state0), all);
  }

  /** The tables follow a legal run in which nothing runs and no gate is ready. */
  ghost predicate Cascading(plan: Plan, run: seq<Event>, state: Table, results: Table) {
    Follows(plan, run, state) && Recorded(state, results) && Stalled(plan.needs, state)
  }

  ghost predicate NoneLostBelow(gates: seq<Gate>, needs: Graph, state: Table, n: nat)
    requires n <= |gates|
  {
    n == 0 || (NoneLostBelow(gates, needs, state, n - 1) && !Lost(needs, state, gates[n - 1].id))
  }

  lemma {:induction false} NoneLostAt(gates: seq<Gate>, needs: Graph, state: Table, n: nat, k: nat)
    requires k < n <= |gates| && NoneLostBelow(gates, needs, state, n)
    ensures !Lost(needs, state, gates[k].id)
  {
    if k < n - 1 {
      NoneLostAt(gates, needs, state, n - 1, k);
    }
  }

  /** One pass over the gates that skips those with a lost need. */
  method CascadePass(gates: seq<Gate>, state0: Table, results0: Table, ghost plan: Plan, ghost run0: seq<Event>)
    returns (state: Table, results: Table, progressed: bool, ghost run: seq<Event>)
    requires UniqueIds(gates) && plan.needs == NeedGraph(gates)
    requires Cascading(plan, run0, state0, results0)
    ensures Cascading(plan, run, state, results)
    ensures progressed ==> |PendingSet(state)| < |PendingSet(state0)|
    ensures !progressed ==> state == state0 && NoneLost(plan.needs, state)
  {
    NeedGraphClosed(gates);
    state, results, progressed, run := state0, results0, false, run0;
    for i := 0 to |gates|
      invariant Cascading(plan, run, state, results)
      invariant progressed ==> |PendingSet(state)| < |PendingSet(state0)|
      invariant !progressed ==> state == state0
      invariant !progressed ==> NoneLostBelow(gates, plan.needs, state, i)
    {
      var gate := gates[i];
      ScanMeaning(gates, plan, run, state, i);
      if state[gate.id] == Pending && DepsFailed(state, gate) {
        SkipStep(plan, run, state, results, gate.id);
        state := state[gate.id := Skipped];
        results := results[gate.id := Skipped];
        run := run + [Skip(gate.id)];
        progressed := true;
      }
    }
    if !progressed {
      NoneLostByIndex(gates, plan, run, state);
    }
  }

  lemma {:induction false} NoneLostByIndex(gates: seq<Gate>, plan: Plan, run: seq<Event>, state: Table)
    requires plan.needs == NeedGraph(gates) && Follows(plan, run, state)
    requires NoneLostBelow(gates, plan.needs, state, |gates|)
    ensures NoneLost(plan.needs, state)
  {
    var needs := plan.needs;
    NeedGraphClosed(gates);
    KeysFollow(plan, run, state);
    forall a | a in state
      ensures !Lost(needs, state, a)
    {
      assert a in IdSet(gates);
      var k :| 0 <= k < |gates| && gates[k].id == a;
      NoneLostAt(gates, needs, state, |gates|, k);
    }
  }

  method Cascade(gates: seq<Gate>, state0: Table, results0: Table, ghost plan: Plan, ghost run0: seq<Event>)
    returns (results: Table, ghost run: seq<Event>)
    requires UniqueIds(gates) && plan.needs == NeedGraph(gates) && Acyclic(plan.needs)
    requires Cascading(plan, run0, state0, results0)
    ensures Follows(plan, run, results) && Settled(results) && results == Fates(plan)
  {
    NeedGraphClosed(gates);
    var state := state0;
    results, run := results0, run0;
    var progressed := true;
    while progressed
      invariant Cascading(plan, run, state, results)
      invariant !progressed ==> NoneLost(plan.needs, state)
      decreases |PendingSet(state)| + if progressed then 1 else 0
    {
      state, results, progressed, run := CascadePass(gates, state, results, plan, run);
    }
    KeysFollow(plan, run, state);
    CascadeDone(plan, state, results);
  }

  lemma {:induction false} CascadeDone(plan: Plan, state: Table, results: Table)
    requires Closed(plan.needs) && Acyclic(plan.needs) && Safe(plan, state) && Recorded(state, results)
    requires Stalled(plan.needs, state) && NoneLost(plan.needs, state)
    ensures results == state && Settled(results) && results == Fates(plan)
  {
    StalledFixpointSettles(plan, state);
    SettledIsFate(plan, state);
  }

  /** The main loop: fill the slots, then either cascade and stop or wait for completions. */
  method RunAll(gates: seq<Gate>, maxActive: nat, outcome: string -> bool)
    returns (results: Table, ghost run: seq<Event>)
    requires UniqueIds(gates) && maxActive >= 1 && Acyclic(NeedGraph(gates))
    ensures Follows(PlanOf(gates, outcome, maxActive), run, results)
    ensures Settled(results) && results == Fates(PlanOf(gates, outcome, maxActive))
  {
    ghost var plan := PlanOf(gates, outcome, maxActive);
    var state: Table := map a | a in IdSet(gates) :: Pending;
    var running: set<string> := {};
    results, run := map[], [];
    InitialTracks(gates, plan, state);
    while true
      invariant Tracks(plan, run, state, running, results)
      decreases |OpenSet(state)|
    {
      state, running, run := FillSlots(gates, maxActive, state, running, plan, results, run);
      if running == {} {
        NoneReady(gates, plan, run, state);
        results, run := Cascade(gates, state, results, plan, run);
        return;
      }
      state, running, results, run := Collect(outcome, state, running, results, plan, run);
    }
  }

  lemma {:induction false} InitialTracks(gates: seq<Gate>, plan: Plan, state: Table)
    requires plan.needs == NeedGraph(gates) && state == map a | a in IdSet(gates) :: Pending
    ensures Tracks(plan, [], state, {}, map[])
  {
    assert state == Initial(plan);
  }

  lemma {:induction false} SmallerSet(a: set<string>, b: set<string>, d: set<string>)
    requires a <= b && d <= b && a !! d && d != {}
    ensures |a| < |b|
  {
    assert a <= b - d;
    Subset(a, b - d);
    assert b == (b - d) + d;
  }

  lemma {:induction false} Subset(a: set<string>, b: set<string>)
    requires a <= b
    ensures |a| <= |b|
  {
    assert b == a + (b - a);
  }

  function WithStatus(results: Table, status: Status): set<string> {
    set a | a in results && results[a] == status
  }

  lemma {:induction false} StatusesPartition(results: Table)
    requires Settled(results)
    ensures |WithStatus(results, Passed)| + |WithStatus(results, Failed)| + |WithStatus(results, Skipped)| == |results|
  {
    var p, f, k := WithStatus(results, Passed), WithStatus(results, Failed), WithStatus(results, Skipped);
    assert results.Keys == p + f + k;
    assert |p + f + k| == |p + f| + |k|;
  }

  /** Every gate whose failure blocks passes, together with every selected gate above it. */
  ghost predicate BlockingGatesPass(gates: seq<Gate>, outcome: string -> bool) {
    forall k :: 0 <= k < |gates| && !gates[k].allowFailure ==>
      outcome(gates[k].id) && forall d :: Reaches(NeedGraph(gates), gates[k].id, d) ==> outcome(d)
  }

  lemma {:induction false} BlockingMeaning(gates: seq<Gate>, outcome: string -> bool, maxActive: nat, results: Table)
    requires results == Fates(PlanOf(gates, outcome, maxActive))
    ensures forall k :: 0 <= k < |gates| ==> gates[k].id in results
    ensures BlockingGatesPass(gates, outcome)
            <==> forall k :: 0 <= k < |gates| && !gates[k].allowFailure ==> results[gates[k].id] !in {Failed, Skipped}
  {
    var plan := PlanOf(gates, outcome, maxActive);
    NeedGraphClosed(gates);
    forall k | 0 <= k < |gates|
      ensures gates[k].id in results
      ensures results[gates[k].id] !in {Failed, Skipped} <==>
                outcome(gates[k].id) && forall d :: Reaches(plan.needs, gates[k].id, d) ==> outcome(d)
    {
      assert gates[k].id in IdSet(gates);
      assert results[gates[k].id] == Fate(plan, gates[k].id);
    }
  }

  /** Exit code of the loop that collects blocking results. */
  method ExitCode(gates: seq<Gate>, results: Table) returns (code: int)
    requires forall k :: 0 <= k < |gates| ==> gates[k].id in results
    ensures code == 0 || code == 1
    ensures code == 0 <==>
            forall k :: 0 <= k < |gates| && !gates[k].allowFailure ==> results[gates[k].id] !in {Failed, Skipped}
  {
    for i := 0 to |gates|
      invariant forall k :: 0 <= k < i && !gates[k].allowFailure ==> results[gates[k].id] !in {Failed, Skipped}
    {
      if results[gates[i].id] in {Failed, Skipped} && !gates[i].allowFailure {
        return 1;
      }
    }
    return 0;
  }

  /** A gate above this one fails. */
  ghost predicate FailureAbove(gates: seq<Gate>, outcome: string -> bool, a: string) {
    exists d :: Reaches(NeedGraph(gates), a, d) && !outcome(d)
  }

  /** The gates that pass, as everything above them does. */
  ghost function Passing(gates: seq<Gate>, outcome: string -> bool): set<string> {
    set a | a in IdSet(gates) && outcome(a) && !FailureAbove(gates, outcome, a)
  }

  /** The gates that fail, although everything above them passes. */
  ghost function Failing(gates: seq<Gate>, outcome: string -> bool): set<string> {
    set a | a in IdSet(gates) && !outcome(a) && !FailureAbove(gates, outcome, a)
  }

  /** The gates below a failing one. */
  ghost function CutOff(gates: seq<Gate>, outcome: string -> bool): set<string> {
    set a | a in IdSet(gates) && FailureAbove(gates, outcome, a)
  }

  /** The numbers of the report, in terms of the gates, their needs and their outcomes. */
  ghost predicate Counted(report: Report, gates: seq<Gate>, outcome: string -> bool)
    requires report.Finished?
  {
    && report.passed == |Passing(gates, outcome)|
    && report.failed == |Failing(gates, outcome)|
    && report.skipped == |CutOff(gates, outcome)|
    && report.passed + report.failed + report.skipped == |gates|
  }

  lemma {:induction false} ResultMeaning(gates: seq<Gate>, outcome: string -> bool, maxActive: nat, a: string)
    requires a in IdSet(gates)
    ensures a in Fates(PlanOf(gates, outcome, maxActive))
    ensures Fates(PlanOf(gates, outcome, maxActive))[a]
            == if FailureAbove(gates, outcome, a) then Skipped else if outcome(a) then Passed else Failed
  {
    var plan := PlanOf(gates, outcome, maxActive);
    NeedGraphClosed(gates);
    assert Blocked(plan, a) <==> FailureAbove(gates, outcome, a);
    assert Fates(plan)[a] == Fate(plan, a);
  }

  lemma {:induction false} CountedAlike(gates: seq<Gate>, outcome: string -> bool, maxActive: nat, a: string)
    ensures
      var results := Fates(PlanOf(gates, outcome, maxActive));
      && (a in WithStatus(results, Passed) <==> a in Passing(gates, outcome))
      && (a in WithStatus(results, Failed) <==> a in Failing(gates, outcome))
      && (a in WithStatus(results, Skipped) <==> a in CutOff(gates, outcome))
  {
    NeedGraphClosed(gates);
    if a in IdSet(gates) { ResultMeaning(gates, outcome, maxActive, a); }
  }

  lemma {:induction false} CountsMeaning(gates: seq<Gate>, outcome: string -> bool, maxActive: nat)
    ensures
      var results := Fates(PlanOf(gates, outcome, maxActive));
      && WithStatus(results, Passed) == Passing(gates, outcome)
      && WithStatus(results, Failed) == Failing(gates, outcome)
      && WithStatus(results, Skipped) == CutOff(gates, outcome)
  {
    var results := Fates(PlanOf(gates, outcome, maxActive));
    forall a
      ensures a in WithStatus(results, Passed) <==> a in Passing(gates, outcome)
      ensures a in WithStatus(results, Failed) <==> a in Failing(gates, outcome)
      ensures a in WithStatus(results, Skipped) <==> a in CutOff(gates, outcome)
    {
      CountedAlike(gates, outcome, maxActive, a);
    }
  }

  /** Executes a selection and returns the report.  Whatever the completion order, every
      gate meets its fate, and the exit code is 0 exactly when the blocking gates and
      everything above them pass. */
  method RunSelected(gates: seq<Gate>, known: set<string>, maxActive: int, outcome: string -> bool)
    returns (report: Report, ghost run: seq<Event>)
    ensures report.Rejected? <==> !(WellDescribed(gates, known) && Acyclic(NeedGraph(gates)))
    ensures report.Rejected? ==> FirstComplaint(gates, known, report.error)
    ensures report.NoWorkers? <==> WellDescribed(gates, known) && Acyclic(NeedGraph(gates)) && maxActive <= 0
    ensures report.Finished? ==> maxActive >= 1
                                 && IsRun(PlanOf(gates, outcome, maxActive), run)
                                 && After(PlanOf(gates, outcome, maxActive), run) == report.results
                                 && report.results == Fates(PlanOf(gates, outcome, maxActive))
    ensures report.Finished? ==> Counted(report, gates, outcome)
    ensures report.Finished? ==> report.exitCode == if BlockingGatesPass(gates, outcome) then 0 else 1
  {
    run := [];
    var verdict := ValidateGraph(gates, known);
    if verdict.Invalid? {
      return Rejected(verdict.error), run;
    }
    if maxActive <= 0 {
      return NoWorkers, run;
    }
    var results;
    results, run := RunAll(gates, maxActive, outcome);
    StatusesPartition(results);
    IdsSize(gates);
    assert results.Keys == IdSet(gates);
    BlockingMeaning(gates, outcome, maxActive, results);
    CountsMeaning(gates, outcome, maxActive);
    var code := ExitCode(gates, results);
    report := Finished(results, |WithStatus(results, Passed)|, |WithStatus(results, Failed)|,
                       |WithStatus(results, Skipped)|, code);
  }
}
