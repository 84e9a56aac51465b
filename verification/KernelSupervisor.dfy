/** Lifecycle of the packaged kernel process: first start, exit watcher, restart with
    back-off, shutdown.

    One event is one synchronous stretch of the source.  Activations suspended at an
    await, armed exit watchers and live timers are part of the state and may proceed in
    any order; whether a probe is answered, a child becomes ready or the executable is
    missing is part of the event.  The start-up function is called at most once.
 */
module KernelSupervisor {
  import opened Options

  const RESTART_DELAYS_MS: seq<int> := [2000, 5000, 15000, 30000, 60000]
  const RESTART_STABLE_MS := 300000

  datatype Decision =
    | NoAction
    | Restart(delayMs: int, attempt: nat)
    | GiveUp(attempt: nat)

  function PlanKernelRestart(intentionalShutdown: bool, runDurationMs: int, consecutiveRestarts: nat): Decision {
    if intentionalShutdown then NoAction
    else
      var attempt := if runDurationMs >= RESTART_STABLE_MS then 1 else consecutiveRestarts + 1;
      if attempt - 1 < |RESTART_DELAYS_MS| then Restart(RESTART_DELAYS_MS[attempt - 1], attempt)
      else GiveUp(attempt)
  }

  /** The decisions, written out: none after an intended shutdown; else the next delay of the table,
      the first one again after a run of five minutes, and giving up when the table is used up. */
  lemma {:induction false} PlanMeaning(runDurationMs: int, consecutiveRestarts: nat)
    ensures PlanKernelRestart(true, runDurationMs, consecutiveRestarts) == NoAction
    ensures
      PlanKernelRestart(false, runDurationMs, consecutiveRestarts) ==
      if runDurationMs >= 5 * 60000 then Restart(2000, 1)
      else if consecutiveRestarts == 0 then Restart(2000, 1)
      else if consecutiveRestarts == 1 then Restart(5000, 2)
      else if consecutiveRestarts == 2 then Restart(15000, 3)
      else if consecutiveRestarts == 3 then Restart(30000, 4)
      else if consecutiveRestarts == 4 then Restart(60000, 5)
      else GiveUp(consecutiveRestarts + 1)
  {
  }

  /** Progress of the single call that starts the kernel. */
  datatype Startup = NotCalled | Probing | AwaitingReady(child: nat) | Returned | Threw

  datatype Act =
    | FirstSpawn(child: nat)
    | RestartSpawn(child: nat)
    | Delay(ms: int)
    | Ready
    | GaveUp

  datatype State = State(
    managed: Option<nat>,
    intentionalShutdown: bool,
    consecutiveRestarts: nat,
    restartTimer: bool,
    restarting: bool,
    startup: Startup,
    liveTimers: nat,
    probing: nat,
    awaiting: multiset<nat>,
    watched: set<nat>,
    alive: set<nat>,
    nextChild: nat,
    acts: seq<Act>)

  datatype Event =
    | StartCalled(exeMissing: bool)
    | StartProbed(answered: bool)
    | StartAwaited(ready: bool)
    | ChildExited(child: nat, runMs: int)
    | TimerFired(exeMissing: bool)
    | RestartProbed(answered: bool)
    | RestartAwaited(child: nat, ready: bool)
    | ShutdownCalled

  const INITIAL := State(None, false, 0, false, false, NotCalled, 0, 0, multiset{}, {}, {}, 0, [])

  // ---------- the stretches, as functions of the state ----------

  ghost function Log(s: State, a: Act): State {
    s.(acts := s.acts + [a])
  }

  ghost function Spawn(s: State, restart: bool): State {
    var c := s.nextChild;
    Log(s.(managed := Some(c), alive := s.alive + {c}, nextChild := c + 1),
        if restart then RestartSpawn(c) else FirstSpawn(c))
  }

  ghost function ArmExitWatcher(s: State): State {
    if s.managed.None? then s else s.(watched := s.watched + {s.managed.value})
  }

  /** What follows a restart decision. */
  ghost function Follow(s: State, d: Decision): State {
    match d
    case NoAction => s
    case GiveUp(_) => Log(s, GaveUp)
    case Restart(ms, attempt) =>
      Log(s.(consecutiveRestarts := attempt, restartTimer := true, liveTimers := s.liveTimers + 1), Delay(ms))
  }

  ghost function Shutdown(s: State): State {
    if s.managed.None? then s
    else s.(managed := None, intentionalShutdown := true, restartTimer := false,
            liveTimers := if s.restartTimer && s.liveTimers > 0 then s.liveTimers - 1 else s.liveTimers)
  }

  ghost function ChildExit(s: State, child: nat, runMs: int): State {
    var t := s.(alive := s.alive - {child}, watched := s.watched - {child});
    if child !in s.watched || s.managed != Some(child) then t
    else Follow(t.(managed := None), PlanKernelRestart(s.intentionalShutdown, runMs, s.consecutiveRestarts))
  }

  ghost function BeginRestart(s: State, exeMissing: bool): State {
    if s.intentionalShutdown || s.restarting || s.managed.Some? || exeMissing then s
    else s.(probing := s.probing + 1)
  }

  ghost function EndRestart(s: State, ready: bool): State {
    if ready then ArmExitWatcher(Log(s.(consecutiveRestarts := 0), Ready)).(restarting := false)
    else Follow(s.(managed := None), PlanKernelRestart(false, 0, s.consecutiveRestarts)).(restarting := false)
  }

  ghost predicate Enabled(s: State, e: Event) {
    match e
    case StartCalled(_) => s.startup.NotCalled?
    case StartProbed(_) => s.startup.Probing?
    case StartAwaited(_) => s.startup.AwaitingReady?
    case ChildExited(c, _) => c in s.alive
    case TimerFired(_) => s.liveTimers > 0
    case RestartProbed(_) => s.probing > 0
    case RestartAwaited(c, _) => c in s.awaiting
    case ShutdownCalled => true
  }

  /** One stretch; an event that cannot happen changes nothing. */
  ghost function Step(s: State, e: Event): State {
    if !Enabled(s, e) then s else
    match e
    case StartCalled(missing) => s.(startup := if missing then Threw else Probing)
    case StartProbed(answered) =>
      if answered then s.(startup := Threw) else Spawn(s, false).(startup := AwaitingReady(s.nextChild))
    case StartAwaited(ready) =>
      if ready
      then ArmExitWatcher(Log(s.(intentionalShutdown := false, consecutiveRestarts := 0, startup := Returned), Ready))
      else Shutdown(s).(startup := Threw)
    case ChildExited(c, runMs) => ChildExit(s, c, runMs)
    case TimerFired(missing) => BeginRestart(s.(liveTimers := s.liveTimers - 1, restartTimer := false), missing)
    case RestartProbed(answered) =>
      var t := s.(probing := s.probing - 1);
      if answered then t else Spawn(t.(restarting := true), true).(awaiting := s.awaiting + multiset{s.nextChild})
    case RestartAwaited(c, ready) => EndRestart(s.(awaiting := s.awaiting - multiset{c}), ready)
    case ShutdownCalled => Shutdown(s)
  }

  ghost function RunFrom(s: State, events: seq<Event>): State {
    if events == [] then s else Step(RunFrom(s, events[..|events| - 1]), events[|events| - 1])
  }

  // ---------- what every reachable state satisfies ----------

  ghost predicate Starting(s: State) {
    s.startup.Probing? || s.startup.AwaitingReady?
  }

  /** A managed child that nobody is waiting for any more. */
  ghost predicate Settled(s: State) {
    s.managed.Some? && s.startup != AwaitingReady(s.managed.value) && s.managed.value !in s.awaiting
  }

  /** The supervisor's activities: at most one of them exists at any time. */
  ghost function Activities(s: State): nat {
    (if Starting(s) then 1 else 0) + (if Settled(s) then 1 else 0) + s.liveTimers + s.probing + |s.awaiting|
  }

  ghost function DelaysSinceReady(acts: seq<Act>): seq<int> {
    if acts == [] then []
    else
      var last := acts[|acts| - 1];
      if last.Ready? then []
      else DelaysSinceReady(acts[..|acts| - 1]) + if last.Delay? then [last.ms] else []
  }

  ghost function SpawnsSinceReady(acts: seq<Act>): nat {
    if acts == [] then 0
    else
      var last := acts[|acts| - 1];
      if last.Ready? then 0
      else SpawnsSinceReady(acts[..|acts| - 1]) + if last.RestartSpawn? then 1 else 0
  }

  ghost predicate Exclusive(s: State) {
    && Activities(s) <= 1
    && (s.startup.NotCalled? ==> Activities(s) == 0)
    && s.liveTimers == (if s.restartTimer then 1 else 0)
    && (s.restarting <==> |s.awaiting| == 1)
    && (s.managed.Some? ==> !s.intentionalShutdown)
    && (s.startup.NotCalled? || s.startup.Probing? || s.probing > 0 ==> !s.intentionalShutdown)
    && (s.managed.None? && |s.awaiting| == 1 ==> s.intentionalShutdown)
    && (Settled(s) ==> s.managed.value in s.watched)
    && (s.startup.AwaitingReady? ==> s.managed.None? || s.managed.value == s.startup.child)
  }

  /** A child somebody waits for has no armed watcher yet, and child numbers are fresh. */
  ghost predicate WatchersFresh(s: State) {
    && (forall c :: c in s.watched ==> c < s.nextChild)
    && (forall c :: c in s.awaiting ==> c !in s.watched && c < s.nextChild)
    && (s.startup.AwaitingReady? ==> s.startup.child !in s.watched && s.startup.child < s.nextChild)
    && (s.managed.Some? ==> s.managed.value < s.nextChild)
  }

  ghost predicate BackOff(s: State) {
    && s.consecutiveRestarts <= |RESTART_DELAYS_MS|
    && DelaysSinceReady(s.acts) == RESTART_DELAYS_MS[..s.consecutiveRestarts]
    && SpawnsSinceReady(s.acts) + s.liveTimers + s.probing <= s.consecutiveRestarts
    && (Settled(s) || s.startup.NotCalled? || Starting(s) ==> s.consecutiveRestarts == 0)
  }

  ghost predicate Safe(s: State) {
    Exclusive(s) && WatchersFresh(s) && BackOff(s)
  }

  lemma {:induction false} ActsAfter(acts: seq<Act>, a: Act)
    ensures DelaysSinceReady(acts + [a])
            == if a.Ready? then [] else DelaysSinceReady(acts) + if a.Delay? then [a.ms] else []
    ensures SpawnsSinceReady(acts + [a])
            == if a.Ready? then 0 else SpawnsSinceReady(acts) + if a.RestartSpawn? then 1 else 0
  {
    assert (acts + [a])[..|acts|] == acts;
  }

  /** Nothing is going on: no start-up, no settled child, no timer, no restart. */
  ghost predicate Free(s: State) {
    Safe(s) && Activities(s) == 0
  }

  lemma {:induction false} StartCalledSafe(s: State, missing: bool)
    requires Safe(s)
    ensures Safe(Step(s, StartCalled(missing)))
  {
  }

  lemma {:induction false} StartProbedSafe(s: State, answered: bool)
    requires Safe(s)
    ensures Safe(Step(s, StartProbed(answered)))
  {
    ActsAfter(s.acts, FirstSpawn(s.nextChild));
  }

  lemma {:induction false} StartAwaitedSafe(s: State, ready: bool)
    requires Safe(s)
    ensures Safe(Step(s, StartAwaited(ready)))
  {
    ActsAfter(s.acts, Ready);
  }

  /** Scheduling the next restart when nothing else is going on. */
  lemma {:induction false} FollowSafe(s: State, runMs: int)
    requires Free(s) && s.managed.None? && !s.startup.NotCalled?
    requires runMs >= RESTART_STABLE_MS ==> s.consecutiveRestarts == 0
    ensures forall stop :: Safe(Follow(s, PlanKernelRestart(stop, runMs, s.consecutiveRestarts)))
  {
    if s.consecutiveRestarts < |RESTART_DELAYS_MS| {
      DelaySafe(s);
    } else {
      ActsAfter(s.acts, GaveUp);
    }
  }

  lemma {:induction false} DelaySafe(s: State)
    requires Free(s) && s.managed.None? && !s.startup.NotCalled? && s.consecutiveRestarts < |RESTART_DELAYS_MS|
    ensures Safe(Follow(s, Restart(RESTART_DELAYS_MS[s.consecutiveRestarts], s.consecutiveRestarts + 1)))
  {
    var n := s.consecutiveRestarts;
    ActsAfter(s.acts, Delay(RESTART_DELAYS_MS[n]));
    assert RESTART_DELAYS_MS[..n] + [RESTART_DELAYS_MS[n]] == RESTART_DELAYS_MS[..n + 1];
  }

  lemma {:induction false} ChildExitedSafe(s: State, child: nat, runMs: int)
    requires Safe(s)
    ensures Safe(Step(s, ChildExited(child, runMs)))
  {
    if child in s.alive && child in s.watched && s.managed == Some(child) {
      assert Settled(s);
      var t := s.(alive := s.alive - {child}, watched := s.watched - {child}, managed := None);
      assert Free(t);
      FollowSafe(t, runMs);
    }
  }

  lemma {:induction false} TimerFiredSafe(s: State, missing: bool)
    requires Safe(s)
    ensures Safe(Step(s, TimerFired(missing)))
  {
  }

  lemma {:induction false} RestartProbedSafe(s: State, answered: bool)
    requires Safe(s)
    ensures Safe(Step(s, RestartProbed(answered)))
  {
    ActsAfter(s.acts, RestartSpawn(s.nextChild));
  }

  lemma {:induction false} RestartAwaitedSafe(s: State, child: nat, ready: bool)
    requires Safe(s)
    ensures Safe(Step(s, RestartAwaited(child, ready)))
  {
    if child in s.awaiting {
      ActsAfter(s.acts, Ready);
      var t := s.(awaiting := s.awaiting - multiset{child}, restarting := false, managed := None);
      assert s.awaiting == multiset{child};
      assert Free(t);
      FollowSafe(t, 0);
    }
  }

  lemma {:induction false} ShutdownSafe(s: State)
    requires Safe(s)
    ensures Safe(Step(s, ShutdownCalled))
  {
  }

  lemma {:induction false} StepKeepsSafe(s: State, e: Event)
    requires Safe(s)
    ensures Safe(Step(s, e))
  {
    match e
    case StartCalled(missing) => StartCalledSafe(s, missing);
    case StartProbed(answered) => StartProbedSafe(s, answered);
    case StartAwaited(ready) => StartAwaitedSafe(s, ready);
    case ChildExited(c, runMs) => ChildExitedSafe(s, c, runMs);
    case TimerFired(missing) => TimerFiredSafe(s, missing);
    case RestartProbed(answered) => RestartProbedSafe(s, answered);
    case RestartAwaited(c, ready) => RestartAwaitedSafe(s, c, ready);
    case ShutdownCalled => ShutdownSafe(s);
  }

  /** In every order of events at most one activity of the supervisor exists and the
      back-off bookkeeping is exact. */
  lemma {:induction false} EveryOrderIsSafe(events: seq<Event>)
    ensures Safe(RunFrom(INITIAL, events))
  {
    if events != [] {
      EveryOrderIsSafe(events[..|events| - 1]);
      StepKeepsSafe(RunFrom(INITIAL, events[..|events| - 1]), events[|events| - 1]);
    }
  }

  // ---------- consequences ----------

  /** A pending restart timer means no managed child and no restart in progress, and every
      spawn happens while no child is managed. */
  lemma {:induction false} TimerAndSpawnExclusive(s: State, e: Event)
    requires Safe(s)
    ensures s.restartTimer ==> s.managed.None? && !s.restarting && s.probing == 0 && !Starting(s)
    ensures Step(s, e).managed != s.managed && Step(s, e).managed.Some? ==> s.managed.None?
    ensures Step(s, e).nextChild != s.nextChild ==> s.managed.None?
  {
  }

  /** Since the last readiness at most five restarts were spawned, the delays taken are the
      table's first ones in order, and giving up leaves nothing scheduled. */
  lemma {:induction false} BackOffFollowsTable(events: seq<Event>)
    ensures var s := RunFrom(INITIAL, events);
            && SpawnsSinceReady(s.acts) <= |DelaysSinceReady(s.acts)| <= 5
            && DelaysSinceReady(s.acts) <= RESTART_DELAYS_MS
  {
    EveryOrderIsSafe(events);
  }

  /** Only a restart that did not become ready can give up. */
  lemma {:induction false} WhoGivesUp(s: State, e: Event)
    requires Safe(s) && Step(s, e).acts == s.acts + [GaveUp]
    ensures e.RestartAwaited? && e.child in s.awaiting && !e.ready
    ensures PlanKernelRestart(false, 0, s.consecutiveRestarts).GiveUp?
  {
    assert Step(s, e).acts != s.acts && Step(s, e).acts[|s.acts|] == GaveUp;
    assert e.ChildExited? && e.child in s.watched && s.managed == Some(e.child) ==> Settled(s);
  }

  lemma {:induction false} GivingUpIsFinal(s: State, e: Event)
    requires Safe(s) && Step(s, e).acts == s.acts + [GaveUp]
    ensures DelaysSinceReady(s.acts) == RESTART_DELAYS_MS
    ensures Inert(Step(s, e)) && !Step(s, e).restartTimer
  {
    WhoGivesUp(s, e);
    assert s.consecutiveRestarts == |RESTART_DELAYS_MS|;
    assert RESTART_DELAYS_MS[..|RESTART_DELAYS_MS|] == RESTART_DELAYS_MS;
  }

  /** The stable-run window never matters: whenever a watched child exits the counter is
      zero, so however long it ran the first delay of the table is taken. */
  lemma {:induction false} StableWindowIrrelevant(s: State, child: nat, runMs: int)
    requires Safe(s) && child in s.alive && child in s.watched && s.managed == Some(child)
    ensures Step(s, ChildExited(child, runMs)).acts == s.acts + [Delay(2000)]
    ensures Step(s, ChildExited(child, runMs)) == Step(s, ChildExited(child, 0))
  {
    assert Settled(s);
  }

  // ---------- shutdown ----------

  /** No activity can spawn: what is left either checks the shutdown flag first or cannot
      reach a spawn. */
  ghost predicate Inert(s: State) {
    && s.managed.None? && s.probing == 0
    && !s.startup.NotCalled? && !s.startup.Probing?
    && (s.liveTimers > 0 || |s.awaiting| > 0 ==> s.intentionalShutdown)
  }

  lemma {:induction false} InertStaysInert(s: State, e: Event)
    requires Safe(s) && Inert(s)
    ensures Inert(Step(s, e)) && Step(s, e).nextChild == s.nextChild
  {
    match e
    case StartAwaited(ready) =>
    case ChildExited(c, runMs) =>
    case RestartAwaited(c, ready) =>
    case _ =>
  }

  /** No continuation of s ever spawns a child. */
  ghost predicate NeverSpawnsAgain(s: State) {
    forall events :: RunFrom(s, events).nextChild == s.nextChild
  }

  lemma {:induction false} InertNeverSpawns(s: State, events: seq<Event>)
    requires Safe(s) && Inert(s)
    ensures RunFrom(s, events).nextChild == s.nextChild
    ensures Safe(RunFrom(s, events)) && Inert(RunFrom(s, events))
  {
    if events != [] {
      InertNeverSpawns(s, events[..|events| - 1]);
      StepKeepsSafe(RunFrom(s, events[..|events| - 1]), events[|events| - 1]);
      InertStaysInert(RunFrom(s, events[..|events| - 1]), events[|events| - 1]);
    }
  }

  lemma {:induction false} OneMore(s: State, events: seq<Event>, e: Event)
    ensures RunFrom(s, events + [e]) == Step(RunFrom(s, events), e)
  {
    assert (events + [e])[..|events|] == events;
  }

  lemma {:induction false} TwoMore(s: State, e: Event, e': Event)
    ensures RunFrom(s, [e]) == Step(s, e)
    ensures RunFrom(s, [e, e']) == Step(Step(s, e), e')
  {
    OneMore(s, [], e);
    OneMore(s, [e], e');
    assert [] + [e] == [e] && [e] + [e'] == [e, e'];
  }

  /** Without a managed child, anything that is not inert can still lead to a spawn. */
  lemma {:induction false} LiveCanSpawn(s: State) returns (events: seq<Event>)
    requires Safe(s) && s.managed.None? && !Inert(s)
    ensures RunFrom(s, events).nextChild == s.nextChild + 1
  {
    if s.startup.NotCalled? {
      events := [StartCalled(false), StartProbed(false)];
      TwoMore(s, StartCalled(false), StartProbed(false));
    } else if s.startup.Probing? {
      events := [StartProbed(false)];
      TwoMore(s, StartProbed(false), StartProbed(false));
    } else if s.probing > 0 {
      events := [RestartProbed(false)];
      TwoMore(s, RestartProbed(false), RestartProbed(false));
    } else {
      events := [TimerFired(false), RestartProbed(false)];
      TimerCanSpawn(s);
    }
  }

  lemma {:induction false} TimerCanSpawn(s: State)
    requires Safe(s) && s.managed.None? && s.liveTimers > 0 && !s.intentionalShutdown
    ensures RunFrom(s, [TimerFired(false), RestartProbed(false)]).nextChild == s.nextChild + 1
  {
    assert !s.restarting;
    TwoMore(s, TimerFired(false), RestartProbed(false));
  }

  /** A shutdown is final exactly when it found a managed child or nothing was under way;
      in particular a shutdown during back-off does not cancel the pending restart. */
  lemma {:induction false} ShutdownFinalIff(s: State)
    requires Safe(s)
    ensures NeverSpawnsAgain(Step(s, ShutdownCalled)) <==> s.managed.Some? || Inert(s)
  {
    var t := Step(s, ShutdownCalled);
    StepKeepsSafe(s, ShutdownCalled);
    if s.managed.Some? || Inert(s) {
      forall events
        ensures RunFrom(t, events).nextChild == t.nextChild
      {
        InertNeverSpawns(t, events);
      }
    } else {
      var events := LiveCanSpawn(t);
    }
  }

  // ---------- the cap counts restarts that fail, not restarts ----------

  ghost function RestartSpawns(acts: seq<Act>): nat {
    if acts == [] then 0
    else RestartSpawns(acts[..|acts| - 1]) + if acts[|acts| - 1].RestartSpawn? then 1 else 0
  }

  /** The supervisor with a ready child c. */
  ghost function Serving(c: nat, acts: seq<Act>): State {
    INITIAL.(managed := Some(c), startup := Returned, watched := {c}, alive := {c}, nextChild := c + 1, acts := acts)
  }

  /** The child dies at once, is restarted after the first delay and becomes ready. */
  ghost function CrashRound(c: nat): seq<Event> {
    [ChildExited(c, 0), TimerFired(false), RestartProbed(false), RestartAwaited(c + 1, true)]
  }

  lemma {:induction false} FourSteps(s: State, s1: State, s2: State, s3: State, s4: State, r: seq<Event>)
    requires |r| == 4
    requires Step(s, r[0]) == s1
    requires Step(s1, r[1]) == s2
    requires Step(s2, r[2]) == s3
    requires Step(s3, r[3]) == s4
    ensures RunFrom(s, r) == s4
  {
    OneMore(s, [], r[0]);
    OneMore(s, [r[0]], r[1]);
    OneMore(s, [r[0], r[1]], r[2]);
    OneMore(s, [r[0], r[1], r[2]], r[3]);
    assert [] + [r[0]] == [r[0]] && [r[0]] + [r[1]] == [r[0], r[1]];
    assert [r[0], r[1]] + [r[2]] == [r[0], r[1], r[2]];
    assert [r[0], r[1], r[2]] + [r[3]] == r;
  }

  lemma {:induction false} CrashAndRecover(c: nat, acts: seq<Act>)
    ensures RunFrom(Serving(c, acts), CrashRound(c)) == Serving(c + 1, acts + [Delay(2000), RestartSpawn(c + 1), Ready])
  {
    var s := Serving(c, acts);
    var s1 := s.(managed := None, watched := {}, alive := {}, consecutiveRestarts := 1, restartTimer := true,
                 liveTimers := 1, acts := acts + [Delay(2000)]);
    var s2 := s1.(restartTimer := false, liveTimers := 0, probing := 1);
    var s3 := s2.(probing := 0, restarting := true, managed := Some(c + 1), alive := {c + 1}, nextChild := c + 2,
                  awaiting := multiset{c + 1}, acts := acts + [Delay(2000)] + [RestartSpawn(c + 1)]);
    assert acts + [Delay(2000)] + [RestartSpawn(c + 1)] + [Ready] == acts + [Delay(2000), RestartSpawn(c + 1), Ready];
    FourSteps(s, s1, s2, s3, Serving(c + 1, acts + [Delay(2000), RestartSpawn(c + 1), Ready]), CrashRound(c));
  }

  lemma {:induction false} RunFromAppend(s: State, first: seq<Event>, rest: seq<Event>)
    ensures RunFrom(s, first + rest) == RunFrom(RunFrom(s, first), rest)
  {
    if rest == [] {
      assert first + rest == first;
    } else {
      var init, e := rest[..|rest| - 1], rest[|rest| - 1];
      RunFromAppend(s, first, init);
      OneMore(s, first + init, e);
      OneMore(RunFrom(s, first), init, e);
      assert rest == init + [e] && first + rest == (first + init) + [e];
    }
  }

  lemma {:induction false} RestartSpawnsAfterRound(c: nat, acts: seq<Act>)
    ensures RestartSpawns(acts + [Delay(2000), RestartSpawn(c), Ready]) == RestartSpawns(acts) + 1
  {
    var one, two := acts + [Delay(2000)], acts + [Delay(2000), RestartSpawn(c)];
    var three := acts + [Delay(2000), RestartSpawn(c), Ready];
    assert one[..|acts|] == acts && two[..|one|] == one && three[..|two|] == two;
    assert RestartSpawns(three) == RestartSpawns(two) == RestartSpawns(one) + 1;
  }

  lemma {:induction false} FirstStart() returns (events: seq<Event>, c: nat, acts: seq<Act>)
    ensures QuickExits(events) && RestartAnswers(events, {true})
    ensures RunFrom(INITIAL, events) == Serving(c, acts) && RestartSpawns(acts) == 0
  {
    events, c, acts := [StartCalled(false), StartProbed(false), StartAwaited(true)], 0, [FirstSpawn(0), Ready];
    var s1 := INITIAL.(startup := Probing);
    var s2 := INITIAL.(startup := AwaitingReady(0), managed := Some(0), alive := {0}, nextChild := 1,
                       acts := [FirstSpawn(0)]);
    assert Step(INITIAL, events[0]) == s1;
    assert Step(s1, events[1]) == s2;
    TwoMore(INITIAL, events[0], events[1]);
    assert [FirstSpawn(0)] + [Ready] == acts;
    assert Step(s2, events[2]) == Serving(0, acts);
    OneMore(INITIAL, [events[0], events[1]], events[2]);
    assert [events[0], events[1]] + [events[2]] == events;
    assert acts[..1] == [FirstSpawn(0)];
    assert RestartSpawns([FirstSpawn(0)]) == 0;
  }

  /** No exit among the events comes after a stable run. */
  ghost predicate QuickExits(events: seq<Event>) {
    forall i :: 0 <= i < |events| ==> events[i].ChildExited? ==> events[i].runMs < RESTART_STABLE_MS
  }

  /** Every wait for a restarted child ends with one of these answers: ready or not. */
  ghost predicate RestartAnswers(events: seq<Event>, answers: set<bool>) {
    forall i :: 0 <= i < |events| ==> events[i].RestartAwaited? ==> events[i].ready in answers
  }

  lemma {:induction false} OneMoreCrash(before: seq<Event>, c: nat, acts: seq<Act>)
    requires QuickExits(before) && RestartAnswers(before, {true}) && RunFrom(INITIAL, before) == Serving(c, acts)
    ensures QuickExits(before + CrashRound(c)) && RestartAnswers(before + CrashRound(c), {true})
    ensures RunFrom(INITIAL, before + CrashRound(c))
            == Serving(c + 1, acts + [Delay(2000), RestartSpawn(c + 1), Ready])
  {
    RunFromAppend(INITIAL, before, CrashRound(c));
    CrashAndRecover(c, acts);
    assert QuickExits(CrashRound(c)) && RestartAnswers(CrashRound(c), {true});
  }

  /** A kernel that becomes ready and then dies at once is restarted any number of times:
      no run reaches the stable window and the supervisor still never gives up. */
  lemma {:induction false} NoCapOnCrashLoops(n: nat) returns (events: seq<Event>, c: nat, acts: seq<Act>)
    ensures QuickExits(events) && RestartAnswers(events, {true})
    ensures RunFrom(INITIAL, events) == Serving(c, acts) && RestartSpawns(acts) == n
  {
    if n == 0 {
      events, c, acts := FirstStart();
    } else {
      var shorter, d, before := NoCapOnCrashLoops(n - 1);
      OneMoreCrash(shorter, d, before);
      RestartSpawnsAfterRound(d + 1, before);
      events, c, acts := shorter + CrashRound(d), d + 1, before + [Delay(2000), RestartSpawn(d + 1), Ready];
    }
  }

  lemma {:induction false} RestartSpawnsAfter(acts: seq<Act>, a: Act)
    ensures RestartSpawns(acts + [a]) == RestartSpawns(acts) + if a.RestartSpawn? then 1 else 0
  {
    assert (acts + [a])[..|acts|] == acts;
  }

  /** No restart was spawned before the last readiness. */
  ghost predicate NoneBeforeReady(acts: seq<Act>) {
    RestartSpawns(acts) == SpawnsSinceReady(acts)
  }

  lemma {:induction false} LogKeeps(acts: seq<Act>, a: Act)
    requires NoneBeforeReady(acts) && (a.Ready? ==> RestartSpawns(acts) == 0)
    ensures NoneBeforeReady(acts + [a])
  {
    ActsAfter(acts, a);
    RestartSpawnsAfter(acts, a);
  }

  lemma {:induction false} FollowKeeps(s: State, d: Decision)
    requires NoneBeforeReady(s.acts)
    ensures NoneBeforeReady(Follow(s, d).acts)
  {
    LogKeeps(s.acts, GaveUp);
    if d.Restart? { LogKeeps(s.acts, Delay(d.delayMs)); }
  }

  /** Without a ready restart, the only readiness is the first start's, before any restart. */
  lemma {:induction false} NotReadyStep(s: State, e: Event)
    requires Safe(s) && (e.RestartAwaited? ==> !e.ready) && NoneBeforeReady(s.acts)
    ensures NoneBeforeReady(Step(s, e).acts)
  {
    match e
    case StartProbed(_) => LogKeeps(s.acts, FirstSpawn(s.nextChild));
    case StartAwaited(_) => if s.startup.AwaitingReady? { LogKeeps(s.acts, Ready); }
    case RestartProbed(_) => LogKeeps(s.acts, RestartSpawn(s.nextChild));
    case ChildExited(c, runMs) =>
      var t := s.(alive := s.alive - {c}, watched := s.watched - {c}, managed := None);
      FollowKeeps(t, PlanKernelRestart(s.intentionalShutdown, runMs, s.consecutiveRestarts));
    case RestartAwaited(c, _) =>
      var t := s.(awaiting := s.awaiting - multiset{c}, managed := None);
      FollowKeeps(t, PlanKernelRestart(false, 0, s.consecutiveRestarts));
    case _ =>
  }

  lemma {:induction false} NeverReadyCapped(events: seq<Event>)
    requires RestartAnswers(events, {false})
    ensures var acts := RunFrom(INITIAL, events).acts; NoneBeforeReady(acts) && RestartSpawns(acts) <= 5
  {
    if events != [] {
      var init, e := events[..|events| - 1], events[|events| - 1];
      NeverReadyCapped(init);
      EveryOrderIsSafe(init);
      NotReadyStep(RunFrom(INITIAL, init), e);
    }
    BackOffFollowsTable(events);
  }

  /** Whatever happens, at most five restarts are spawned in all. */
  ghost predicate Capped(answers: set<bool>) {
    forall events :: RestartAnswers(events, answers) ==> RestartSpawns(RunFrom(INITIAL, events).acts) <= 5
  }

  /** The promise to give up after five restarts, exactly: it holds for all runs if and only if
      no restarted child ever becomes ready. */
  lemma {:induction false} CappedIffNeverReady(answers: set<bool>)
    ensures Capped(answers) <==> true !in answers
  {
    if true in answers {
      var events, c, acts := NoCapOnCrashLoops(6);
      assert RestartAnswers(events, answers);
    } else {
      forall events | RestartAnswers(events, answers)
        ensures RestartSpawns(RunFrom(INITIAL, events).acts) <= 5
      {
        NeverReadyCapped(events);
      }
    }
  }

  // ---------- when a kernel is spawned, and when not ----------

  /** A kernel is spawned exactly when a start or a restart that is under way finds that nothing
      answers on the port. */
  lemma {:induction false} SpawnsIff(s: State, e: Event)
    ensures Step(s, e).nextChild == s.nextChild + 1
            <==> (e == StartProbed(false) && s.startup.Probing?) || (e == RestartProbed(false) && s.probing > 0)
    ensures Step(s, e).nextChild == s.nextChild || Step(s, e).nextChild == s.nextChild + 1
  {
    match e
    case StartAwaited(ready) =>
    case ChildExited(c, runMs) =>
    case RestartAwaited(c, ready) =>
    case _ =>
  }

  /** The first start fails without a kernel when the executable is missing or the port is taken,
      and fails for good, its child given up, when the child does not become ready. */
  lemma {:induction false} FailedStarts()
    ensures
      var missing := RunFrom(INITIAL, [StartCalled(true)]);
      var taken := RunFrom(INITIAL, [StartCalled(false), StartProbed(true)]);
      && missing.startup == Threw && missing.acts == [] && NeverSpawnsAgain(missing)
      && taken.startup == Threw && taken.acts == [] && NeverSpawnsAgain(taken)
    ensures
      var late := RunFrom(INITIAL, [StartCalled(false), StartProbed(false)] + [StartAwaited(false)]);
      && late.startup == Threw && late.acts == [FirstSpawn(0)] && late.managed == None && NeverSpawnsAgain(late)
  {
    TwoMore(INITIAL, StartCalled(true), StartCalled(true));
    TwoMore(INITIAL, StartCalled(false), StartProbed(true));
    TwoMore(INITIAL, StartCalled(false), StartProbed(false));
    OneMore(INITIAL, [StartCalled(false), StartProbed(false)], StartAwaited(false));
    EveryOrderIsSafe([StartCalled(true)]);
    EveryOrderIsSafe([StartCalled(false), StartProbed(true)]);
    EveryOrderIsSafe([StartCalled(false), StartProbed(false)] + [StartAwaited(false)]);
    InertForGood(RunFrom(INITIAL, [StartCalled(true)]));
    InertForGood(RunFrom(INITIAL, [StartCalled(false), StartProbed(true)]));
    InertForGood(RunFrom(INITIAL, [StartCalled(false), StartProbed(false)] + [StartAwaited(false)]));
  }

  lemma {:induction false} InertForGood(s: State)
    requires Safe(s) && Inert(s)
    ensures NeverSpawnsAgain(s)
  {
    forall events
      ensures RunFrom(s, events).nextChild == s.nextChild
    {
      InertNeverSpawns(s, events);
    }
  }

  /** A restart that finds the executable missing or the port taken is not tried again. */
  lemma {:induction false} RefusedRestart(s: State, e: Event)
    requires Safe(s)
    requires (e == TimerFired(true) && s.liveTimers > 0) || (e == RestartProbed(true) && s.probing > 0)
    ensures Step(s, e).acts == s.acts && NeverSpawnsAgain(Step(s, e))
  {
    StepKeepsSafe(s, e);
    InertForGood(Step(s, e));
  }

  // ---------- a kernel that is down is tried again, five times ----------

  /** A restart that does not become ready is followed by the next delay, whose timer is live; after
      the fifth one the supervisor gives up. */
  lemma {:induction false} FailedRestartTriesAgain(s: State, child: nat)
    requires Safe(s) && child in s.awaiting
    ensures
      var t, k := Step(s, RestartAwaited(child, false)), s.consecutiveRestarts;
      && t.managed.None? && !t.restarting && t.awaiting == multiset{} && k <= 5
      && (k < 5 ==> t.restartTimer && t.liveTimers == 1 && t.consecutiveRestarts == k + 1
                    && t.acts == s.acts + [Delay([2000, 5000, 15000, 30000, 60000][k])])
      && (k == 5 ==> !t.restartTimer && t.liveTimers == 0 && t.acts == s.acts + [GaveUp])
  {
    RestartAwaitedSafe(s, child, false);
    assert s.awaiting == multiset{child};
  }

  /** One round of a restart that does not become ready: the timer fires, nothing answers on the
      port, the child is given up and killed. */
  ghost function FailingRound(c: nat): seq<Event> {
    [TimerFired(false), RestartProbed(false), RestartAwaited(c, false), ChildExited(c, 0)]
  }

  ghost function FailingRounds(c: nat, n: nat): seq<Event>
    decreases n
  {
    if n == 0 then [] else FailingRound(c) + FailingRounds(c + 1, n - 1)
  }

  /** The supervisor without a child, after k delays. */
  ghost function Down(c: nat, k: nat, acts: seq<Act>): State {
    INITIAL.(startup := Returned, consecutiveRestarts := k, nextChild := c, acts := acts)
  }

  /** The same with the k-th restart timer live. */
  ghost function BackingOff(c: nat, k: nat, acts: seq<Act>): State {
    Down(c, k, acts).(restartTimer := true, liveTimers := 1)
  }

  /** What a failed round leads to. */
  ghost function NextTry(c: nat, k: nat, acts: seq<Act>): State {
    if k < 5 then BackingOff(c, k + 1, acts + [Delay([2000, 5000, 15000, 30000, 60000][k])])
    else Down(c, k, acts + [GaveUp])
  }

  lemma {:induction false} RoundFails(c: nat, k: nat, acts: seq<Act>)
    requires k <= 5
    ensures RunFrom(BackingOff(c, k, acts), FailingRound(c)) == NextTry(c + 1, k, acts + [RestartSpawn(c)])
  {
    var s1 := Down(c, k, acts).(probing := 1);
    var s2 := Down(c + 1, k, acts + [RestartSpawn(c)]).(managed := Some(c), restarting := true, alive := {c},
                                                        awaiting := multiset{c});
    var s3 := NextTry(c + 1, k, acts + [RestartSpawn(c)]).(alive := {c});
    assert s2.awaiting - multiset{c} == multiset{};
    FourSteps(BackingOff(c, k, acts), s1, s2, s3, s3.(alive := {}), FailingRound(c));
  }

  /** What the rounds leave in the log, from the k-th restart on. */
  ghost function FailingActs(c: nat, k: nat): seq<Act>
    requires 1 <= k <= 5
    decreases 5 - k
  {
    if k == 5 then [RestartSpawn(c), GaveUp]
    else [RestartSpawn(c), Delay([2000, 5000, 15000, 30000, 60000][k])] + FailingActs(c + 1, k + 1)
  }

  /** The first of the remaining rounds. */
  lemma {:induction false} RoundThenRest(c: nat, k: nat, n: nat, acts: seq<Act>)
    requires k <= 5
    ensures RunFrom(BackingOff(c, k, acts), FailingRounds(c, n + 1))
            == RunFrom(NextTry(c + 1, k, acts + [RestartSpawn(c)]), FailingRounds(c + 1, n))
  {
    RunFromAppend(BackingOff(c, k, acts), FailingRound(c), FailingRounds(c + 1, n));
    RoundFails(c, k, acts);
  }

  lemma {:induction false} FailingActsStep(c: nat, k: nat, acts: seq<Act>)
    requires 1 <= k < 5
    ensures acts + FailingActs(c, k)
            == acts + [RestartSpawn(c)] + [Delay([2000, 5000, 15000, 30000, 60000][k])] + FailingActs(c + 1, k + 1)
  {
  }

  lemma {:induction false} LastRoundFails(c: nat, acts: seq<Act>)
    ensures RunFrom(BackingOff(c, 5, acts), FailingRounds(c, 1)) == Down(c + 1, 5, acts + FailingActs(c, 5))
  {
    RoundThenRest(c, 5, 0, acts);
    assert acts + [RestartSpawn(c)] + [GaveUp] == acts + FailingActs(c, 5);
  }

  lemma {:induction false} RoundsFail(c: nat, k: nat, acts: seq<Act>)
    requires 1 <= k <= 5
    ensures RunFrom(BackingOff(c, k, acts), FailingRounds(c, 6 - k)) == Down(c + 6 - k, 5, acts + FailingActs(c, k))
    decreases 5 - k
  {
    if k == 5 {
      LastRoundFails(c, acts);
    } else {
      FailingActsStep(c, k, acts);
      RoundThenRest(c, k, 5 - k, acts);
      RoundsFail(c + 1, k + 1, acts + [RestartSpawn(c)] + [Delay([2000, 5000, 15000, 30000, 60000][k])]);
    }
  }

  /** A kernel that was ready, dies and cannot be brought back is started five times more, after
      2, 5, 15, 30 and 60 seconds; then the supervisor gives up for good. */
  lemma {:induction false} FiveTriesThenGiveUp(runMs: int)
    ensures
      var crash := [StartCalled(false), StartProbed(false), StartAwaited(true), ChildExited(0, runMs)];
      var t := RunFrom(INITIAL, crash + FailingRounds(1, 5));
      && t.acts == [FirstSpawn(0), Ready, Delay(2000), RestartSpawn(1), Delay(5000), RestartSpawn(2), Delay(15000),
                    RestartSpawn(3), Delay(30000), RestartSpawn(4), Delay(60000), RestartSpawn(5), GaveUp]
      && NeverSpawnsAgain(t)
  {
    var crash := [StartCalled(false), StartProbed(false), StartAwaited(true), ChildExited(0, runMs)];
    Crashed(runMs);
    RunFromAppend(INITIAL, crash, FailingRounds(1, 5));
    RoundsFail(1, 1, [FirstSpawn(0), Ready, Delay(2000)]);
    FailingActsWritten();
    EveryOrderIsSafe(crash + FailingRounds(1, 5));
    InertForGood(RunFrom(INITIAL, crash + FailingRounds(1, 5)));
  }

  lemma {:induction false} Crashed(runMs: int)
    ensures RunFrom(INITIAL, [StartCalled(false), StartProbed(false), StartAwaited(true), ChildExited(0, runMs)])
            == BackingOff(1, 1, [FirstSpawn(0), Ready, Delay(2000)])
  {
    var crash := [StartCalled(false), StartProbed(false), StartAwaited(true), ChildExited(0, runMs)];
    var s1 := INITIAL.(startup := Probing);
    var s2 := s1.(startup := AwaitingReady(0), managed := Some(0), alive := {0}, nextChild := 1,
                  acts := [FirstSpawn(0)]);
    var s3 := s2.(startup := Returned, watched := {0}, acts := [FirstSpawn(0)] + [Ready]);
    FourSteps(INITIAL, s1, s2, s3, BackingOff(1, 1, [FirstSpawn(0), Ready] + [Delay(2000)]), crash);
  }

  lemma {:induction false} FailingActsWritten()
    ensures FailingActs(1, 1) == [RestartSpawn(1), Delay(5000), RestartSpawn(2), Delay(15000), RestartSpawn(3),
                                  Delay(30000), RestartSpawn(4), Delay(60000), RestartSpawn(5), GaveUp]
  {
    assert FailingActs(4, 4) == [RestartSpawn(4), Delay(60000)] + FailingActs(5, 5);
    assert FailingActs(3, 3) == [RestartSpawn(3), Delay(30000)] + FailingActs(4, 4);
    assert FailingActs(2, 2) == [RestartSpawn(2), Delay(15000)] + FailingActs(3, 3);
  }

  lemma {:induction false} ProbedAndSpawned(s: State)
    requires s.probing > 0
    ensures Step(s, RestartProbed(false))
            == Spawn(s.(probing := s.probing - 1, restarting := true), true)
               .(awaiting := s.awaiting + multiset{s.nextChild})
  {
  }

  // ---------- the module's variables and functions ----------

  /** The module variables of the source; the ghost part stands for what the runtime holds:
      suspended activations, live timers, armed watchers and running processes. */
  class KernelManager {
    var managed: Option<nat>
    var intentionalShutdown: bool
    var consecutiveRestarts: nat
    var restartTimer: bool
    var restarting: bool
    var startup: Startup
    var nextChild: nat
    ghost var liveTimers: nat
    ghost var probing: nat
    ghost var awaiting: multiset<nat>
    ghost var watched: set<nat>
    ghost var alive: set<nat>
    ghost var acts: seq<Act>

    ghost function Snap(): State
      reads this
    {
      State(managed, intentionalShutdown, consecutiveRestarts, restartTimer, restarting, startup,
            liveTimers, probing, awaiting, watched, alive, nextChild, acts)
    }

    constructor ()
      ensures Snap() == INITIAL
    {
      managed, intentionalShutdown, consecutiveRestarts, restartTimer, restarting := None, false, 0, false, false;
      startup, nextChild, liveTimers, probing := NotCalled, 0, 0, 0;
      awaiting, watched, alive, acts := multiset{}, {}, {}, [];
    }

    method SpawnKernelProcess(ghost restart: bool) returns (child: nat)
      modifies `nextChild, `alive, `acts, `managed
      ensures child == old(nextChild) && Snap() == Spawn(old(Snap()), restart)
    {
      child := nextChild;
      nextChild := nextChild + 1;
      managed := Some(child);
      alive := alive + {child};
      acts := acts + [if restart then RestartSpawn(child) else FirstSpawn(child)];
    }

    method ArmKernelExitWatcher()
      modifies `watched
      ensures Snap() == ArmExitWatcher(old(Snap()))
    {
      if managed.None? {
        return;
      }
      watched := watched + {managed.value};
    }

    /** Carries out a restart decision. */
    method Schedule(decision: Decision)
      modifies `consecutiveRestarts, `restartTimer, `liveTimers, `acts
      ensures Snap() == Follow(old(Snap()), decision)
    {
      match decision {
        case NoAction =>
        case GiveUp(_) => acts := acts + [GaveUp];
        case Restart(delayMs, attempt) =>
          consecutiveRestarts := attempt;
          restartTimer, liveTimers := true, liveTimers + 1;
          acts := acts + [Delay(delayMs)];
      }
    }

    /** The exit watcher of one child. */
    method OnExit(child: nat, runMs: int)
      requires child in alive && child in watched
      modifies this
      ensures Snap() == Step(old(Snap()), ChildExited(child, runMs))
    {
      alive, watched := alive - {child}, watched - {child};
      if managed != Some(child) {
        return;
      }
      managed := None;
      Schedule(PlanKernelRestart(intentionalShutdown, runMs, consecutiveRestarts));
    }

    /** The restart timer: first stretch of a restart, up to the probe. */
    method OnTimer(exeMissing: bool)
      requires liveTimers > 0
      modifies this
      ensures Snap() == Step(old(Snap()), TimerFired(exeMissing))
    {
      restartTimer, liveTimers := false, liveTimers - 1;
      if intentionalShutdown || restarting || managed.Some? {
        return;
      }
      if exeMissing {
        return;
      }
      probing := probing + 1;
    }

    /** Second stretch of a restart: nothing answers on the port, so spawn. */
    method OnRestartProbed(answered: bool)
      requires probing > 0
      modifies this
      ensures Snap() == Step(old(Snap()), RestartProbed(answered))
    {
      probing := probing - 1;
      if answered {
        return;
      }
      restarting := true;
      var child := SpawnKernelProcess(true);
      awaiting := awaiting + multiset{child};
      ProbedAndSpawned(old(Snap()));
    }

    method RestartFailed()
      modifies this
      ensures Snap() == EndRestart(old(Snap()), false)
    {
      managed := None;
      var decision := PlanKernelRestart(false, 0, consecutiveRestarts);
      restarting := false;
      Schedule(decision);
    }

    method RestartReady()
      modifies this
      ensures Snap() == EndRestart(old(Snap()), true)
    {
      consecutiveRestarts := 0;
      acts := acts + [Ready];
      ArmKernelExitWatcher();
      restarting := false;
    }

    /** Last stretch of a restart: the child is ready, or it is given up and rescheduled. */
    method OnRestartAwaited(child: nat, ready: bool)
      requires child in awaiting
      modifies this
      ensures Snap() == Step(old(Snap()), RestartAwaited(child, ready))
    {
      awaiting := awaiting - multiset{child};
      if ready {
        RestartReady();
      } else {
        RestartFailed();
      }
    }

    method ShutdownManagedKernel()
      modifies this
      ensures Snap() == Shutdown(old(Snap()))
    {
      if managed.None? {
        return;
      }
      managed := None;
      intentionalShutdown := true;
      if restartTimer {
        restartTimer, liveTimers := false, if liveTimers > 0 then liveTimers - 1 else liveTimers;
      }
    }

    /** Start-up: the executable check, then up to the port probe. */
    method EnsureRunning(exeMissing: bool)
      requires startup.NotCalled?
      modifies this
      ensures Snap() == Step(old(Snap()), StartCalled(exeMissing))
    {
      startup := if exeMissing then Threw else Probing;
    }

    method OnStartProbed(answered: bool)
      requires startup.Probing?
      modifies this
      ensures Snap() == Step(old(Snap()), StartProbed(answered))
    {
      if answered {
        startup := Threw;
        return;
      }
      var child := SpawnKernelProcess(false);
      startup := AwaitingReady(child);
    }

    method OnStartAwaited(ready: bool)
      requires startup.AwaitingReady?
      modifies this
      ensures Snap() == Step(old(Snap()), StartAwaited(ready))
    {
      if !ready {
        ShutdownManagedKernel();
        startup := Threw;
        return;
      }
      StartReady();
    }

    method StartReady()
      modifies this
      ensures Snap() == ArmExitWatcher(Log(old(Snap()).(intentionalShutdown := false, consecutiveRestarts := 0,
                                                        startup := Returned), Ready))
    {
      intentionalShutdown := false;
      consecutiveRestarts := 0;
      startup := Returned;
      acts := acts + [Ready];
      ArmKernelExitWatcher();
    }
  }
}
