/** The gate scheduler as a transition system: what every interleaving of starts,
    completions and cascade skips keeps, and where every exhausted run ends.
 */
module Schedule {
  import opened Digraph

  datatype Status = Pending | Running | Passed | Failed | Skipped

  type Table = map<string, Status>

  datatype Event = Start(gate: string) | Finish(gate: string) | Skip(gate: string)

  /** needs: the selected needs relation; outcome: whether a gate's command would pass;
      limit: how many gates may run at once. */
  datatype Plan = Plan(needs: Graph, outcome: string -> bool, limit: nat)

  ghost predicate Usable(plan: Plan) {
    Closed(plan.needs) && Acyclic(plan.needs) && plan.limit >= 1
  }

  ghost predicate NeedsPassed(needs: Graph, s: Table, a: string) {
    a in needs && forall d :: d in needs[a] ==> d in s && s[d] == Passed
  }

  ghost predicate NeedsLost(needs: Graph, s: Table, a: string) {
    a in needs && exists d :: d in needs[a] && d in s && s[d] in {Failed, Skipped}
  }

  ghost function RunningSet(s: Table): set<string> {
    set a | a in s && s[a] == Running
  }

  /** Pending with every need passed: the gate could be submitted. */
  ghost predicate Ready(needs: Graph, s: Table, a: string) {
    a in s && s[a] == Pending && NeedsPassed(needs, s, a)
  }

  /** Pending with a need failed or skipped: the gate is to be skipped. */
  ghost predicate Lost(needs: Graph, s: Table, a: string) {
    a in s && s[a] == Pending && NeedsLost(needs, s, a)
  }

  ghost predicate NoneLost(needs: Graph, s: Table) {
    forall a {:trigger Lost(needs, s, a)} :: a in s ==> !Lost(needs, s, a)
  }

  /** Nothing runs and nothing can be submitted: the condition under which skips cascade. */
  ghost predicate Stalled(needs: Graph, s: Table) {
    RunningSet(s) == {} && forall a {:trigger Ready(needs, s, a)} :: a in s ==> !Ready(needs, s, a)
  }

  ghost predicate Enabled(plan: Plan, s: Table, e: Event) {
    match e
    case Start(a) => Ready(plan.needs, s, a) && |RunningSet(s)| < plan.limit
    case Finish(a) => a in s && s[a] == Running
    case Skip(a) => Lost(plan.needs, s, a) && Stalled(plan.needs, s)
  }

  ghost function Own(plan: Plan, a: string): Status {
    if plan.outcome(a) then Passed else Failed
  }

  ghost function Apply(plan: Plan, s: Table, e: Event): Table {
    match e
    case Start(a) => s[a := Running]
    case Finish(a) => s[a := Own(plan, a)]
    case Skip(a) => s[a := Skipped]
  }

  ghost function Initial(plan: Plan): Table {
    map a | a in plan.needs :: Pending
  }

  ghost function After(plan: Plan, run: seq<Event>): Table {
    if run == [] then Initial(plan) else Apply(plan, After(plan, run[..|run| - 1]), run[|run| - 1])
  }

  ghost predicate IsRun(plan: Plan, run: seq<Event>) {
    run != [] ==>
      var before := run[..|run| - 1];
      IsRun(plan, before) && Enabled(plan, After(plan, before), run[|run| - 1])
  }

  ghost predicate CanStep(plan: Plan, s: Table) {
    exists e :: Enabled(plan, s, e)
  }

  /** A run after which no event is possible. */
  ghost predicate Exhausted(plan: Plan, run: seq<Event>) {
    IsRun(plan, run) && !CanStep(plan, After(plan, run))
  }

  lemma {:induction false} ExtendRun(plan: Plan, run: seq<Event>, e: Event)
    requires IsRun(plan, run) && Enabled(plan, After(plan, run), e)
    ensures IsRun(plan, run + [e]) && After(plan, run + [e]) == Apply(plan, After(plan, run), e)
  {
    assert (run + [e])[..|run|] == run;
  }

  // ---------- what every reachable table satisfies ----------

  /** What is known of one gate in a reachable table. */
  ghost predicate GateSafe(plan: Plan, s: Table, a: string)
    requires a in s
  {
    && (s[a] in {Running, Passed, Failed} ==> NeedsPassed(plan.needs, s, a))
    && (s[a] in {Passed, Failed} ==> s[a] == Own(plan, a))
    && (s[a] == Skipped ==> NeedsLost(plan.needs, s, a))
  }

  ghost predicate Safe(plan: Plan, s: Table) {
    && s.Keys == plan.needs.Keys
    && |RunningSet(s)| <= plan.limit
    && forall a {:trigger GateSafe(plan, s, a)} :: a in s ==> GateSafe(plan, s, a)
  }

  lemma {:induction false} SizeAfterSet(s: Table, a: string, v: Status)
    requires a in s
    ensures RunningSet(s[a := v]) == if v == Running then RunningSet(s) + {a} else RunningSet(s) - {a}
  {
  }

  /** A status other than pending or running never changes again. */
  lemma {:induction false} StepKeepsGate(plan: Plan, s: Table, e: Event, a: string)
    requires a in s && e.gate in s && GateSafe(plan, s, a) && Enabled(plan, s, e)
    ensures a in Apply(plan, s, e) && GateSafe(plan, Apply(plan, s, e), a)
  {
    var s' := Apply(plan, s, e);
    if NeedsPassed(plan.needs, s, a) {
      assert NeedsPassed(plan.needs, s', a);
    }
    if NeedsLost(plan.needs, s, a) {
      var d :| d in plan.needs[a] && d in s && s[d] in {Failed, Skipped};
      assert d in s' && s'[d] in {Failed, Skipped};
    }
  }

  lemma {:induction false} StepKeepsSafe(plan: Plan, s: Table, e: Event)
    requires Safe(plan, s) && Enabled(plan, s, e)
    ensures Safe(plan, Apply(plan, s, e))
  {
    var s' := Apply(plan, s, e);
    SizeAfterSet(s, e.gate, s'[e.gate]);
    assert RunningSet(s) - {e.gate} <= RunningSet(s);
    forall a | a in s'
      ensures GateSafe(plan, s', a)
    {
      assert GateSafe(plan, s, a);
      StepKeepsGate(plan, s, e, a);
    }
  }

  /** In every reachable table at most `limit` gates run, every gate that was submitted
      has all its selected needs passed, and every skipped gate has a lost need. */
  lemma {:induction false} ReachableIsSafe(plan: Plan, run: seq<Event>)
    requires Closed(plan.needs) && IsRun(plan, run)
    ensures Safe(plan, After(plan, run))
  {
    if run == [] {
      assert RunningSet(Initial(plan)) == {};
    } else {
      var before := run[..|run| - 1];
      ReachableIsSafe(plan, before);
      StepKeepsSafe(plan, After(plan, before), run[|run| - 1]);
    }
  }

  // ---------- submissions and length of a run ----------

  ghost function Submissions(run: seq<Event>, a: string): nat {
    if run == [] then 0
    else Submissions(run[..|run| - 1], a) + if run[|run| - 1] == Start(a) then 1 else 0
  }

  /** No gate is submitted twice, and the gates submitted once are those that run or ran. */
  lemma {:induction false} SubmittedAtMostOnce(plan: Plan, run: seq<Event>, a: string)
    requires Closed(plan.needs) && IsRun(plan, run) && a in plan.needs
    ensures a in After(plan, run)
    ensures Submissions(run, a) == if After(plan, run)[a] in {Running, Passed, Failed} then 1 else 0
  {
    if run != [] {
      var before := run[..|run| - 1];
      SubmittedAtMostOnce(plan, before, a);
      ReachableIsSafe(plan, before);
      assert Enabled(plan, After(plan, before), run[|run| - 1]);
    }
  }

  ghost function PendingSet(s: Table): set<string> {
    set a | a in s && s[a] == Pending
  }

  lemma {:induction false} PendingAfterSet(s: Table, a: string, v: Status)
    requires a in s && v != Pending
    ensures PendingSet(s[a := v]) == PendingSet(s) - {a}
  {
  }

  lemma {:induction false} DropOne(s: set<string>, a: string)
    ensures |s - {a}| == |s| - if a in s then 1 else 0
    ensures |s + {a}| == |s| + if a in s then 0 else 1
  {
    if a !in s {
      assert s - {a} == s;
    } else {
      assert s + {a} == s;
    }
  }

  lemma {:induction false} StepShrinksWork(plan: Plan, s: Table, e: Event)
    requires Enabled(plan, s, e)
    ensures var s' := Apply(plan, s, e);
            2 * |PendingSet(s')| + |RunningSet(s')| < 2 * |PendingSet(s)| + |RunningSet(s)|
  {
    var a := e.gate;
    var v := match e case Start(_) => Running case Finish(_) => Own(plan, a) case Skip(_) => Skipped;
    SizeAfterSet(s, a, v);
    PendingAfterSet(s, a, v);
    DropOne(RunningSet(s), a);
    DropOne(PendingSet(s), a);
    assert a in RunningSet(s) <==> s[a] == Running;
    assert a in PendingSet(s) <==> s[a] == Pending;
  }

  /** Every run is finite: at most one start and one completion for each gate. */
  lemma {:induction false} RunLengthBounded(plan: Plan, run: seq<Event>)
    requires Closed(plan.needs) && IsRun(plan, run)
    ensures var s := After(plan, run);
            |run| + 2 * |PendingSet(s)| + |RunningSet(s)| <= 2 * |plan.needs|
  {
    if run == [] {
      assert PendingSet(Initial(plan)) == plan.needs.Keys;
      assert RunningSet(Initial(plan)) == {};
    } else {
      var before := run[..|run| - 1];
      RunLengthBounded(plan, before);
      StepShrinksWork(plan, After(plan, before), run[|run| - 1]);
    }
  }

  // ---------- where an exhausted run ends ----------

  ghost predicate Settled(s: Table) {
    forall a :: a in s ==> s[a] in {Passed, Failed, Skipped}
  }

  /** Some gate reachable through selected needs has a failing command. */
  ghost predicate Blocked(plan: Plan, a: string) {
    exists d :: Reaches(plan.needs, a, d) && !plan.outcome(d)
  }

  /** The status every schedule must give a gate. */
  ghost function Fate(plan: Plan, a: string): Status {
    if Blocked(plan, a) then Skipped else Own(plan, a)
  }

  ghost function Fates(plan: Plan): Table {
    map a | a in plan.needs :: Fate(plan, a)
  }

  lemma {:induction false} BlockedThroughNeed(plan: Plan, a: string, d: string)
    requires Closed(plan.needs) && a in plan.needs && d in plan.needs[a]
    requires !plan.outcome(d) || Blocked(plan, d)
    ensures Blocked(plan, a)
  {
    if !plan.outcome(d) {
      EdgeReaches(plan.needs, a, d);
    } else {
      var c :| Reaches(plan.needs, d, c) && !plan.outcome(c);
      EdgeThenReaches(plan.needs, a, d, c);
    }
  }

  lemma {:induction false} BlockedByNeed(plan: Plan, a: string) returns (d: string)
    requires Closed(plan.needs) && Blocked(plan, a)
    ensures a in plan.needs && d in plan.needs[a] && (!plan.outcome(d) || Blocked(plan, d))
  {
    var c :| Reaches(plan.needs, a, c) && !plan.outcome(c);
    d := ReachesFirstEdge(plan.needs, a, c);
  }

  /** Gates that were skipped although nothing above them fails: each needs another such gate. */
  lemma {:induction false} WronglySkippedIsTrap(plan: Plan, s: Table) returns (t: set<string>)
    requires Closed(plan.needs) && Safe(plan, s)
    ensures t == set a | a in s && s[a] == Skipped && !Blocked(plan, a)
    ensures Trap(plan.needs, t)
  {
    t := set a | a in s && s[a] == Skipped && !Blocked(plan, a);
    forall a | a in t
      ensures PointsInto(plan.needs, a, t)
    {
      assert GateSafe(plan, s, a);
      var d :| d in plan.needs[a] && d in s && s[d] in {Failed, Skipped};
      assert GateSafe(plan, s, d);
      if !plan.outcome(d) || Blocked(plan, d) {
        BlockedThroughNeed(plan, a, d);
      }
      assert d in t;
    }
  }

  /** Gates that ran although something above them fails: each needs another such gate. */
  lemma {:induction false} WronglyRunIsTrap(plan: Plan, s: Table) returns (t: set<string>)
    requires Closed(plan.needs) && Safe(plan, s)
    ensures t == set a | a in s && s[a] in {Passed, Failed} && Blocked(plan, a)
    ensures Trap(plan.needs, t)
  {
    t := set a | a in s && s[a] in {Passed, Failed} && Blocked(plan, a);
    forall a | a in t
      ensures PointsInto(plan.needs, a, t)
    {
      assert GateSafe(plan, s, a);
      var d := BlockedByNeed(plan, a);
      assert d in s && s[d] == Passed && GateSafe(plan, s, d);
      assert d in t;
    }
  }

  lemma {:induction false} SettledIsFate(plan: Plan, s: Table)
    requires Closed(plan.needs) && Acyclic(plan.needs) && Safe(plan, s) && Settled(s)
    ensures s == Fates(plan)
  {
    var t := WronglySkippedIsTrap(plan, s);
    var u := WronglyRunIsTrap(plan, s);
    if t != {} {
      TrapGivesCycle(plan.needs, t);
    }
    if u != {} {
      TrapGivesCycle(plan.needs, u);
    }
    forall a | a in s
      ensures s[a] == Fate(plan, a)
    {
      assert GateSafe(plan, s, a);
      assert a !in t && a !in u;
    }
  }

  /** When nothing runs, nothing is ready and no pending gate has a lost need, nothing is pending. */
  lemma {:induction false} StalledFixpointSettles(plan: Plan, s: Table)
    requires Closed(plan.needs) && Acyclic(plan.needs) && Safe(plan, s)
    requires Stalled(plan.needs, s) && NoneLost(plan.needs, s)
    ensures Settled(s)
  {
    var t := PendingSet(s);
    forall a | a in t
      ensures PointsInto(plan.needs, a, t)
    {
      assert !Ready(plan.needs, s, a) && !Lost(plan.needs, s, a);
      var d :| d in plan.needs[a] && s[d] != Passed;
      assert d !in RunningSet(s);
      assert d in t;
    }
    if t != {} {
      TrapGivesCycle(plan.needs, t);
    }
    forall a | a in s
      ensures s[a] in {Passed, Failed, Skipped}
    {
      assert a !in t && a !in RunningSet(s);
    }
  }

  /** A run stops only when every gate has its fate. */
  lemma {:induction false} ExhaustedRunMeetsFate(plan: Plan, run: seq<Event>)
    requires Usable(plan) && Exhausted(plan, run)
    ensures After(plan, run) == Fates(plan)
  {
    var s := After(plan, run);
    ReachableIsSafe(plan, run);
    forall a | a in s
      ensures s[a] != Running
    {
      assert !Enabled(plan, s, Finish(a));
    }
    assert RunningSet(s) == {};
    forall a | a in s
      ensures !Ready(plan.needs, s, a)
    {
      assert !Enabled(plan, s, Start(a));
    }
    assert Stalled(plan.needs, s);
    forall a | a in s
      ensures !Lost(plan.needs, s, a)
    {
      assert !Enabled(plan, s, Skip(a));
    }
    StalledFixpointSettles(plan, s);
    SettledIsFate(plan, s);
  }

  /** Schedule independence: completion order and concurrency limit do not matter. */
  lemma {:induction false} ScheduleIndependence(p: Plan, q: Plan, run: seq<Event>, run': seq<Event>)
    requires Usable(p) && Usable(q) && p.needs == q.needs
    requires forall a :: p.outcome(a) == q.outcome(a)
    requires Exhausted(p, run) && Exhausted(q, run')
    ensures After(p, run) == After(q, run')
  {
    ExhaustedRunMeetsFate(p, run);
    ExhaustedRunMeetsFate(q, run');
    forall a | a in p.needs
      ensures Fate(p, a) == Fate(q, a)
    {
      assert Blocked(p, a) == Blocked(q, a);
    }
  }

  lemma {:induction false} LongerRun(plan: Plan, run: seq<Event>) returns (run': seq<Event>)
    requires Closed(plan.needs) && IsRun(plan, run) && CanStep(plan, After(plan, run))
    ensures IsRun(plan, run') && |run'| == |run| + 1 && run <= run' && |run| < 2 * |plan.needs|
  {
    var e :| Enabled(plan, After(plan, run), e);
    ExtendRun(plan, run, e);
    run' := run + [e];
    RunLengthBounded(plan, run');
  }

  /** No run gets stuck: every run can be continued until it is exhausted. */
  lemma {:induction false} EveryRunCanFinish(plan: Plan, run: seq<Event>) returns (full: seq<Event>)
    requires Closed(plan.needs) && IsRun(plan, run)
    ensures Exhausted(plan, full) && run <= full
    decreases 2 * |plan.needs| - |run|
  {
    if CanStep(plan, After(plan, run)) {
      var run' := LongerRun(plan, run);
      full := EveryRunCanFinish(plan, run');
    } else {
      full := run;
    }
  }
}
