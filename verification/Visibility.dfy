/** Recovery of a renderer that reports itself hidden while its window is visible.

    Every await of the source splits an activation into synchronous stretches; one
    event below is one such stretch.  Suspended activations wait in `pending` and may
    resume in any order, between any window changes, show events and timer ticks.
 */
module Visibility {
  import opened Options

  const MAX_ATTEMPTS := 3
  const POLL_STRIKES := 2

  datatype Window = Window(destroyed: bool, visible: bool, minimized: bool)

  /** Where a suspended activation is waiting. */
  datatype Await =
    | SampleRead(required: nat)
    | BeforeRead
    | Gap
    | Recheck
    | AfterRead

  /** Window calls of the nudge cycle, and resets of the attempt budget. */
  datatype Action =
    | Hide
    | Show
    | Abandon(seen: Window)
    | Reset

  datatype State = State(
    win: Window,
    inFlight: bool,
    attempts: nat,
    strikes: nat,
    verifyArmed: bool,
    polling: bool,
    pending: multiset<Await>,
    actions: seq<Action>,
    samples: seq<bool>)

  datatype Event =
    | Shown
    | VerifyDue
    | PollDue
    | StartPolling
    | Stop
    | WindowChanged(win: Window)
    | Resumed(at: Await, read: Option<string>)

  predicate ShouldNudgeRenderer(windowVisible: bool, minimized: bool, rendererHidden: bool,
                                inFlight: bool, attempts: nat) {
    windowVisible && !minimized && rendererHidden && !inFlight && attempts < MAX_ATTEMPTS
  }

  function AdvanceHiddenStrikes(prev: nat, rendererHidden: bool): nat {
    if rendererHidden then prev + 1 else 0
  }

  // ---------- the stretches, as functions of the state ----------

  ghost function ResetBudget(s: State): State {
    s.(attempts := 0, actions := s.actions + [Reset])
  }

  ghost function Suspend(s: State, at: Await): State {
    s.(pending := s.pending + multiset{at})
  }

  ghost function EndCycle(s: State): State {
    s.(inFlight := false)
  }

  ghost function BeginSample(s: State, required: nat): State {
    if s.inFlight || s.win.destroyed then s
    else if !s.win.visible || s.win.minimized then s.(strikes := 0)
    else Suspend(s, SampleRead(required))
  }

  /** From the loop test of the nudge cycle to its next await or its end. */
  ghost function CycleHead(s: State): State {
    if s.attempts >= MAX_ATTEMPTS || s.win.destroyed || !s.win.visible || s.win.minimized then EndCycle(s)
    else Suspend(s, BeforeRead)
  }

  ghost function EndSample(s: State, required: nat, read: Option<string>): State {
    if read.None? then s
    else
      var hidden := read.value == "hidden";
      var t := s.(strikes := AdvanceHiddenStrikes(s.strikes, hidden), samples := s.samples + [hidden]);
      if !hidden || t.strikes < required then t
      else
        var u := t.(strikes := 0);
        if ShouldNudgeRenderer(u.win.visible, u.win.minimized, true, u.inFlight, u.attempts)
        then CycleHead(u.(inFlight := true)) else u
  }

  ghost function Continue(s: State, at: Await, read: Option<string>): State {
    match at
    case SampleRead(required) => EndSample(s, required, read)
    case BeforeRead =>
      if read.None? then EndCycle(s)
      else if read.value != "hidden" then EndCycle(ResetBudget(s))
      else Suspend(s.(attempts := s.attempts + 1, win := s.win.(visible := false), actions := s.actions + [Hide]), Gap)
    case Gap =>
      if s.win.destroyed || s.win.minimized then EndCycle(s.(actions := s.actions + [Abandon(s.win)]))
      else Suspend(s.(win := s.win.(visible := true), actions := s.actions + [Show]), Recheck)
    case Recheck => if s.win.destroyed then EndCycle(s) else Suspend(s, AfterRead)
    case AfterRead => if read != Some("hidden") then EndCycle(ResetBudget(s)) else CycleHead(s)
  }

  ghost predicate Enabled(s: State, e: Event) {
    match e
    case VerifyDue => s.verifyArmed
    case PollDue => s.polling
    case Resumed(at, _) => at in s.pending
    case _ => true
  }

  /** One stretch; an event that cannot happen changes nothing. */
  ghost function Step(s: State, e: Event): State {
    if !Enabled(s, e) then s else
    match e
    case Shown => if s.inFlight then s else ResetBudget(s).(verifyArmed := true)
    case VerifyDue => BeginSample(s.(verifyArmed := false), 1)
    case PollDue => BeginSample(s, POLL_STRIKES)
    case StartPolling => s.(polling := true)
    case Stop => s.(verifyArmed := false, polling := false)
    case WindowChanged(w) => s.(win := w)
    case Resumed(at, read) => Continue(s.(pending := s.pending - multiset{at}), at, read)
  }

  ghost function Initial(win: Window): State {
    State(win, false, 0, 0, false, false, multiset{}, [], [])
  }

  ghost function RunFrom(s: State, events: seq<Event>): State {
    if events == [] then s else Step(RunFrom(s, events[..|events| - 1]), events[|events| - 1])
  }

  // ---------- what every reachable state satisfies ----------

  ghost function CyclesIn(pending: multiset<Await>): nat {
    pending[BeforeRead] + pending[Gap] + pending[Recheck] + pending[AfterRead]
  }

  ghost function HidesSinceReset(actions: seq<Action>): nat {
    if actions == [] then 0
    else
      var last := actions[|actions| - 1];
      if last == Reset then 0
      else HidesSinceReset(actions[..|actions| - 1]) + if last == Hide then 1 else 0
  }

  /** At no time had more than three hides been made since the budget was last reset. */
  ghost predicate BudgetKept(actions: seq<Action>) {
    HidesSinceReset(actions) <= MAX_ATTEMPTS && (actions != [] ==> BudgetKept(actions[..|actions| - 1]))
  }

  /** Each hide is answered at once by a show, or by giving up because the window was
      destroyed or minimised in the gap; a show only ever answers a hide. */
  ghost predicate Answered(actions: seq<Action>) {
    forall i :: 0 <= i < |actions| ==> AnsweredAt(actions, i)
  }

  ghost predicate AnsweredAt(actions: seq<Action>, i: nat)
    requires i < |actions|
  {
    && (actions[i] == Hide && i + 1 < |actions| ==> actions[i + 1] == Show || actions[i + 1].Abandon?)
    && (actions[i] == Show || actions[i].Abandon? ==> i > 0 && actions[i - 1] == Hide)
    && (actions[i].Abandon? ==> actions[i].seen.destroyed || actions[i].seen.minimized)
  }

  ghost predicate AwaitingAnswer(actions: seq<Action>) {
    actions != [] && actions[|actions| - 1] == Hide
  }

  /** Length of the run of hidden verdicts at the end of the samples. */
  ghost function TrailingHidden(samples: seq<bool>): nat {
    if samples == [] || !samples[|samples| - 1] then 0 else 1 + TrailingHidden(samples[..|samples| - 1])
  }

  ghost predicate Safe(s: State) {
    && CyclesIn(s.pending) == (if s.inFlight then 1 else 0)
    && s.attempts == HidesSinceReset(s.actions) <= MAX_ATTEMPTS
    && Answered(s.actions) && BudgetKept(s.actions)
    && (AwaitingAnswer(s.actions) <==> Gap in s.pending)
    && (BeforeRead in s.pending ==> s.attempts < MAX_ATTEMPTS)
    && s.strikes < POLL_STRIKES && s.strikes <= TrailingHidden(s.samples)
    && (forall at :: at in s.pending && at.SampleRead? ==> at.required <= POLL_STRIKES)
  }

  lemma {:induction false} HidesAfter(actions: seq<Action>, a: Action)
    ensures HidesSinceReset(actions + [a])
            == if a == Reset then 0 else HidesSinceReset(actions) + if a == Hide then 1 else 0
  {
    assert (actions + [a])[..|actions|] == actions;
  }

  lemma {:induction false} AnsweredAfter(actions: seq<Action>, a: Action)
    requires Answered(actions)
    requires AwaitingAnswer(actions) ==> a == Show || a.Abandon?
    requires a == Show || a.Abandon? ==> AwaitingAnswer(actions)
    requires a.Abandon? ==> a.seen.destroyed || a.seen.minimized
    ensures Answered(actions + [a]) && (AwaitingAnswer(actions + [a]) <==> a == Hide)
  {
    var next := actions + [a];
    forall i | 0 <= i < |next|
      ensures AnsweredAt(next, i)
    {
      if i < |actions| {
        assert AnsweredAt(actions, i);
      }
    }
  }

  lemma {:induction false} TrailingAfter(samples: seq<bool>, hidden: bool)
    ensures TrailingHidden(samples + [hidden]) == if hidden then 1 + TrailingHidden(samples) else 0
  {
    assert (samples + [hidden])[..|samples|] == samples;
  }

  /** Taking the cycle's only continuation leaves samples, which no longer see an active cycle. */
  ghost predicate CycleTaken(s: State) {
    && CyclesIn(s.pending) == 0 && s.inFlight
    && s.attempts == HidesSinceReset(s.actions) <= MAX_ATTEMPTS
    && Answered(s.actions) && BudgetKept(s.actions)
    && s.strikes < POLL_STRIKES && s.strikes <= TrailingHidden(s.samples)
    && (forall at :: at in s.pending && at.SampleRead? ==> at.required <= POLL_STRIKES)
  }

  lemma {:induction false} TakeCycle(s: State, at: Await)
    requires Safe(s) && at in s.pending && !at.SampleRead?
    ensures CycleTaken(s.(pending := s.pending - multiset{at}))
    ensures AwaitingAnswer(s.actions) <==> at == Gap
    ensures at == BeforeRead ==> s.attempts < MAX_ATTEMPTS
  {
  }

  lemma {:induction false} EndCycleSafe(s: State)
    requires CycleTaken(s) && !AwaitingAnswer(s.actions)
    ensures Safe(EndCycle(s))
  {
  }

  lemma {:induction false} SuspendSafe(s: State, at: Await)
    requires CycleTaken(s) && !at.SampleRead?
    requires AwaitingAnswer(s.actions) <==> at == Gap
    requires at == BeforeRead ==> s.attempts < MAX_ATTEMPTS
    ensures Safe(Suspend(s, at))
  {
  }

  lemma {:induction false} ResetSafe(s: State)
    requires CycleTaken(s) && !AwaitingAnswer(s.actions)
    ensures Safe(EndCycle(ResetBudget(s)))
  {
    HidesAfter(s.actions, Reset);
    AnsweredAfter(s.actions, Reset);
    EndCycleSafe(ResetBudget(s));
  }

  lemma {:induction false} ActSafe(s: State, a: Action, win: Window, at: Await)
    requires CycleTaken(s)
    requires || (a == Hide && at == Gap && s.attempts < MAX_ATTEMPTS && !AwaitingAnswer(s.actions))
             || (a == Show && at == Recheck && AwaitingAnswer(s.actions))
    ensures Safe(Suspend(s.(win := win, actions := s.actions + [a],
                            attempts := if a == Hide then s.attempts + 1 else s.attempts), at))
  {
    HidesAfter(s.actions, a);
    AnsweredAfter(s.actions, a);
    SuspendSafe(s.(win := win, actions := s.actions + [a],
                   attempts := if a == Hide then s.attempts + 1 else s.attempts), at);
  }

  lemma {:induction false} AbandonSafe(s: State)
    requires CycleTaken(s) && AwaitingAnswer(s.actions) && (s.win.destroyed || s.win.minimized)
    ensures Safe(EndCycle(s.(actions := s.actions + [Abandon(s.win)])))
  {
    HidesAfter(s.actions, Abandon(s.win));
    AnsweredAfter(s.actions, Abandon(s.win));
    EndCycleSafe(s.(actions := s.actions + [Abandon(s.win)]));
  }

  lemma {:induction false} CycleHeadSafe(s: State)
    requires CycleTaken(s) && !AwaitingAnswer(s.actions)
    ensures Safe(CycleHead(s))
  {
    if s.attempts >= MAX_ATTEMPTS || s.win.destroyed || !s.win.visible || s.win.minimized {
      EndCycleSafe(s);
    } else {
      SuspendSafe(s, BeforeRead);
    }
  }

  lemma {:induction false} SampleKeepsSafe(s: State, required: nat, read: Option<string>)
    requires Safe(s) && SampleRead(required) in s.pending
    ensures Safe(EndSample(s.(pending := s.pending - multiset{SampleRead(required)}), required, read))
  {
    if read.Some? {
      var hidden := read.value == "hidden";
      var t := s.(pending := s.pending - multiset{SampleRead(required)},
                  strikes := AdvanceHiddenStrikes(s.strikes, hidden), samples := s.samples + [hidden]);
      TrailingAfter(s.samples, hidden);
      if hidden && t.strikes >= required {
        var u := t.(strikes := 0);
        if ShouldNudgeRenderer(u.win.visible, u.win.minimized, true, u.inFlight, u.attempts) {
          CycleHeadSafe(u.(inFlight := true));
        }
      }
    }
  }

  lemma {:induction false} ContinueKeepsSafe(s: State, at: Await, read: Option<string>)
    requires Safe(s) && at in s.pending
    ensures Safe(Continue(s.(pending := s.pending - multiset{at}), at, read))
  {
    var t := s.(pending := s.pending - multiset{at});
    if at.SampleRead? {
      SampleKeepsSafe(s, at.required, read);
      return;
    }
    TakeCycle(s, at);
    match at
    case BeforeRead =>
      if read.None? {
        EndCycleSafe(t);
      } else if read.value != "hidden" {
        ResetSafe(t);
      } else {
        ActSafe(t, Hide, t.win.(visible := false), Gap);
      }
    case Gap =>
      if t.win.destroyed || t.win.minimized {
        AbandonSafe(t);
      } else {
        ActSafe(t, Show, t.win.(visible := true), Recheck);
      }
    case Recheck =>
      if t.win.destroyed {
        EndCycleSafe(t);
      } else {
        SuspendSafe(t, AfterRead);
      }
    case AfterRead =>
      if read != Some("hidden") {
        ResetSafe(t);
      } else {
        CycleHeadSafe(t);
      }
  }

  lemma {:induction false} ShownKeepsSafe(s: State)
    requires Safe(s)
    ensures Safe(Step(s, Shown))
  {
    HidesAfter(s.actions, Reset);
    if !s.inFlight {
      AnsweredAfter(s.actions, Reset);
    }
  }

  lemma {:induction false} BeginSampleKeepsSafe(s: State, required: nat)
    requires Safe(s) && required <= POLL_STRIKES
    ensures Safe(BeginSample(s, required))
  {
  }

  lemma {:induction false} StepKeepsSafe(s: State, e: Event)
    requires Safe(s)
    ensures Safe(Step(s, e))
  {
    if Enabled(s, e) {
      match e
      case Resumed(at, read) => ContinueKeepsSafe(s, at, read);
      case Shown => ShownKeepsSafe(s);
      case VerifyDue => BeginSampleKeepsSafe(s.(verifyArmed := false), 1);
      case PollDue => BeginSampleKeepsSafe(s, POLL_STRIKES);
      case _ =>
    }
  }

  /** In every interleaving at most one nudge cycle is active and exactly when the flag says
      so, the hides since the last reset are the attempts and at most three, every hide is
      answered, and strikes never outrun the trailing hidden samples. */
  lemma {:induction false} EveryInterleavingIsSafe(win: Window, events: seq<Event>)
    ensures Safe(RunFrom(Initial(win), events))
  {
    if events != [] {
      EveryInterleavingIsSafe(win, events[..|events| - 1]);
      StepKeepsSafe(RunFrom(Initial(win), events[..|events| - 1]), events[|events| - 1]);
    }
  }

  // ---------- consequences ----------

  ghost function Hides(actions: seq<Action>): nat {
    if actions == [] then 0
    else Hides(actions[..|actions| - 1]) + if actions[|actions| - 1] == Hide then 1 else 0
  }

  /** Any stretch of actions without a budget reset holds at most three hides. */
  lemma {:induction false} HidesBetweenResets(actions: seq<Action>, i: nat, j: nat)
    requires BudgetKept(actions) && i <= j <= |actions|
    requires Reset !in actions[i..j]
    ensures Hides(actions[i..j]) <= HidesSinceReset(actions[..j]) <= MAX_ATTEMPTS
    decreases |actions|, j
  {
    assert HidesSinceReset(actions) <= MAX_ATTEMPTS;
    if j < |actions| {
      PrefixSlice(actions, |actions| - 1, i, j);
      PrefixSlice(actions, |actions| - 1, 0, j);
      HidesBetweenResets(actions[..|actions| - 1], i, j);
    } else if i < j {
      var shorter, stretch := actions[..j - 1], actions[i..j];
      assert actions[..j] == actions && shorter[..j - 1] == shorter;
      assert actions[j - 1] in stretch;
      PrefixSlice(actions, j - 1, i, j - 1);
      assert stretch[..|stretch| - 1] == actions[i..j - 1];
      assert stretch[|stretch| - 1] == actions[j - 1];
      assert forall a :: a in actions[i..j - 1] ==> a in stretch;
      HidesBetweenResets(shorter, i, j - 1);
    }
  }

  lemma {:induction false} PrefixSlice(s: seq<Action>, n: nat, i: nat, j: nat)
    requires i <= j <= n <= |s|
    ensures s[..n][i..j] == s[i..j] && s[..n][..j] == s[..j]
  {
  }

  /** A poll sample starts a nudge cycle only on the second hidden verdict in a row. */
  lemma {:induction false} PollNeedsTwoHiddenSamples(s: State, read: Option<string>)
    requires Safe(s) && !s.inFlight
    requires Step(s, Resumed(SampleRead(POLL_STRIKES), read)).inFlight
    ensures var samples := Step(s, Resumed(SampleRead(POLL_STRIKES), read)).samples;
            |samples| >= 2 && samples[|samples| - 1] && samples[|samples| - 2]
  {
    TrailingAfter(s.samples, true);
    assert TrailingHidden(s.samples) >= 1;
  }

  /** Upper bound on the resumptions the active cycle still needs. */
  ghost function Rank(s: State): int {
    4 * (MAX_ATTEMPTS - s.attempts) +
    if Gap in s.pending then 3 else if Recheck in s.pending then 2 else if AfterRead in s.pending then 1 else 0
  }

  ghost predicate ResumesCycle(s: State, e: Event) {
    e.Resumed? && e.at in s.pending && !e.at.SampleRead?
  }

  lemma {:induction false} RankBounds(s: State)
    requires Safe(s) && s.inFlight
    ensures 1 <= Rank(s) <= 15
    ensures BeforeRead in s.pending ==> Rank(s) <= 12
  {
  }

  /** While the cycle is active nothing else in the state that the rank looks at changes. */
  lemma {:induction false} OthersKeepRank(s: State, e: Event)
    requires Safe(s) && s.inFlight && !ResumesCycle(s, e)
    ensures Step(s, e).attempts == s.attempts && Step(s, e).inFlight
    ensures forall at: Await :: !at.SampleRead? ==> Step(s, e).pending[at] == s.pending[at]
  {
  }

  /** With only one continuation of the cycle pending, the rank depends on where it waits. */
  ghost function RankAt(at: Await, attempts: nat): int {
    4 * (MAX_ATTEMPTS - attempts) +
    match at case Gap => 3 case Recheck => 2 case AfterRead => 1 case _ => 0
  }

  lemma {:induction false} RankOfSuspended(s: State, at: Await)
    requires CyclesIn(s.pending) == 0 && !at.SampleRead?
    ensures Rank(Suspend(s, at)) == RankAt(at, s.attempts)
  {
  }

  lemma {:induction false} RankOfPending(s: State, at: Await)
    requires Safe(s) && at in s.pending && !at.SampleRead?
    ensures Rank(s) == RankAt(at, s.attempts)
  {
  }

  lemma {:induction false} ContinueLowersRank(t: State, at: Await, read: Option<string>)
    requires CyclesIn(t.pending) == 0 && !at.SampleRead? && t.inFlight && Continue(t, at, read).inFlight
    ensures Rank(Continue(t, at, read)) < RankAt(at, t.attempts)
  {
    match at
    case BeforeRead =>
      var hidden := t.(attempts := t.attempts + 1, win := t.win.(visible := false), actions := t.actions + [Hide]);
      RankOfSuspended(hidden, Gap);
    case Gap => RankOfSuspended(t.(win := t.win.(visible := true), actions := t.actions + [Show]), Recheck);
    case Recheck => RankOfSuspended(t, AfterRead);
    case AfterRead => RankOfSuspended(t, BeforeRead);
  }

  lemma {:induction false} ResumptionLowersRank(s: State, e: Event)
    requires Safe(s) && ResumesCycle(s, e) && Step(s, e).inFlight
    ensures Rank(Step(s, e)) < Rank(s)
  {
    RankOfPending(s, e.at);
    TakeCycle(s, e.at);
    ContinueLowersRank(s.(pending := s.pending - multiset{e.at}), e.at, e.read);
  }

  lemma {:induction false} RankFalls(s: State, e: Event)
    requires Safe(s) && s.inFlight && Step(s, e).inFlight
    ensures Rank(Step(s, e)) + (if ResumesCycle(s, e) then 1 else 0) <= Rank(s)
  {
    if ResumesCycle(s, e) {
      ResumptionLowersRank(s, e);
    } else {
      OthersKeepRank(s, e);
    }
  }

  ghost function CycleResumptions(s: State, events: seq<Event>): nat {
    if events == [] then 0
    else
      var before := events[..|events| - 1];
      CycleResumptions(s, before) + if ResumesCycle(RunFrom(s, before), events[|events| - 1]) then 1 else 0
  }

  /** Every cycle comes to an end: a cycle begins at its first read, and from there it cannot
      be resumed twelve times and still be active. */
  lemma {:induction false} CycleEnds(s: State, events: seq<Event>)
    requires Safe(s)
    requires forall k :: 0 <= k <= |events| ==> RunFrom(s, events[..k]).inFlight
    ensures Safe(RunFrom(s, events))
    ensures Rank(RunFrom(s, events)) + CycleResumptions(s, events) <= Rank(s)
    ensures CycleResumptions(s, events) < 15
    ensures BeforeRead in s.pending ==> CycleResumptions(s, events) < 12
  {
    assert events[..|events|] == events && events[..0] == [];
    assert RunFrom(s, events[..0]).inFlight && RunFrom(s, events[..|events|]).inFlight;
    if events != [] {
      var before := events[..|events| - 1];
      forall k | 0 <= k <= |before|
        ensures before[..k] == events[..k]
      {
      }
      CycleEnds(s, before);
      var mid := RunFrom(s, before);
      StepKeepsSafe(mid, events[|events| - 1]);
      RankFalls(mid, events[|events| - 1]);
    }
    RankBounds(RunFrom(s, events));
    RankBounds(s);
  }

  /** Two poll samples that find the renderer hidden and start a cycle. */
  ghost const TWO_SAMPLES: seq<Event> :=
    [PollDue, Resumed(SampleRead(2), Some("hidden")), PollDue, Resumed(SampleRead(2), Some("hidden"))]

  /** A cycle that hides the window once, causes a show event by showing it again, and ends with
      the given answer of the second read. */
  ghost function OneNudge(result: Option<string>): seq<Event> {
    [Resumed(BeforeRead, Some("hidden")), Resumed(Gap, None), Shown, Resumed(Recheck, None), Resumed(AfterRead, result)]
  }

  ghost function Idle(actions: seq<Action>, samples: seq<bool>): State {
    State(Window(false, true, false), false, 0, 0, false, true, multiset{}, actions, samples)
  }

  lemma {:induction false} OneMore(s: State, events: seq<Event>, e: Event)
    ensures RunFrom(s, events + [e]) == Step(RunFrom(s, events), e)
  {
    assert (events + [e])[..|events|] == events;
  }

  lemma {:induction false} RunFromAppend(s: State, first: seq<Event>, rest: seq<Event>)
    ensures RunFrom(s, first + rest) == RunFrom(RunFrom(s, first), rest)
  {
    if rest == [] {
      assert first + rest == first;
    } else {
      var init, e := rest[..|rest| - 1], rest[|rest| - 1];
      RunFromAppend(s, first, init);
      OneMore(s, first + init, e);
      OneMore(RunFrom(s, first), init, e);
      assert rest == init + [e] && first + rest == (first + init) + [e];
    }
  }

  ghost function Started(actions: seq<Action>, samples: seq<bool>): State {
    Idle(actions, samples).(inFlight := true, pending := multiset{BeforeRead})
  }

  lemma {:induction false} FourSteps(s: State, s1: State, s2: State, s3: State, s4: State, r: seq<Event>)
    requires |r| == 4
    requires Step(s, r[0]) == s1
    requires Step(s1, r[1]) == s2
    requires Step(s2, r[2]) == s3
    requires Step(s3, r[3]) == s4
    ensures RunFrom(s, r) == s4
  {
    OneMore(s, [], r[0]);
    OneMore(s, [r[0]], r[1]);
    OneMore(s, [r[0], r[1]], r[2]);
    OneMore(s, [r[0], r[1], r[2]], r[3]);
    assert [] + [r[0]] == [r[0]] && [r[0]] + [r[1]] == [r[0], r[1]];
    assert [r[0], r[1]] + [r[2]] == [r[0], r[1], r[2]];
    assert [r[0], r[1], r[2]] + [r[3]] == r;
  }

  lemma {:induction false} FiveSteps(s: State, s1: State, s2: State, s3: State, s4: State, s5: State, r: seq<Event>)
    requires |r| == 5
    requires Step(s, r[0]) == s1
    requires Step(s1, r[1]) == s2
    requires Step(s2, r[2]) == s3
    requires Step(s3, r[3]) == s4
    requires Step(s4, r[4]) == s5
    ensures RunFrom(s, r[..2]) == s2 && RunFrom(s, r) == s5
  {
    FourSteps(s, s1, s2, s3, s4, r[..4]);
    OneMore(s, r[..4], r[4]);
    assert r[..4] + [r[4]] == r;
    OneMore(s, [], r[0]);
    OneMore(s, [r[0]], r[1]);
    assert [] + [r[0]] == [r[0]] && [r[0]] + [r[1]] == r[..2];
  }

  lemma {:induction false} SamplingPart(actions: seq<Action>, samples: seq<bool>)
    ensures RunFrom(Idle(actions, samples), TWO_SAMPLES) == Started(actions, samples + [true, true])
  {
    var s, r := Idle(actions, samples), TWO_SAMPLES;
    var s1 := s.(pending := multiset{SampleRead(2)});
    var s2 := s.(strikes := 1, samples := samples + [true]);
    var s3 := s2.(pending := multiset{SampleRead(2)});
    assert samples + [true] + [true] == samples + [true, true];
    FourSteps(s, s1, s2, s3, Started(actions, samples + [true, true]), r);
  }

  /** The window has been hidden and shown again. */
  ghost function Nudged(actions: seq<Action>, samples: seq<bool>): State {
    Idle(actions + [Hide, Show], samples).(inFlight := true, attempts := 1, pending := multiset{Recheck})
  }

  lemma {:induction false} HidingPart(actions: seq<Action>, samples: seq<bool>)
    ensures Step(Step(Started(actions, samples), Resumed(BeforeRead, Some("hidden"))), Resumed(Gap, None))
            == Nudged(actions, samples)
  {
    var s := Started(actions, samples);
    var s1 := s.(attempts := 1, win := s.win.(visible := false), actions := actions + [Hide], pending := multiset{Gap});
    OnlyResumption(s, BeforeRead, Some("hidden"));
    OnlyResumption(s1, Gap, None);
    assert actions + [Hide] + [Show] == actions + [Hide, Show];
  }

  /** Any answer but "hidden" renews the budget; the echo comes in flight and changes nothing. */
  lemma {:induction false} NudgingPart(actions: seq<Action>, samples: seq<bool>, result: Option<string>)
    requires result != Some("hidden")
    ensures RunFrom(Started(actions, samples), OneNudge(result)) == Idle(actions + [Hide, Show, Reset], samples)
    ensures RunFrom(Started(actions, samples), OneNudge(result)[..2]).inFlight
  {
    var s, r, s2 := Started(actions, samples), OneNudge(result), Nudged(actions, samples);
    var s4 := s2.(pending := multiset{AfterRead});
    HidingPart(actions, samples);
    OnlyResumption(s2, Recheck, None);
    OnlyResumption(s4, AfterRead, result);
    assert actions + [Hide, Show] + [Reset] == actions + [Hide, Show, Reset];
    FiveSteps(s, Step(s, r[0]), s2, s2, s4, Idle(actions + [Hide, Show, Reset], samples), r);
  }

  lemma {:induction false} OnlyResumption(s: State, at: Await, read: Option<string>)
    requires s.pending == multiset{at}
    ensures Step(s, Resumed(at, read)) == Continue(s.(pending := multiset{}), at, read)
  {
  }

  const VISIBLE_WINDOW := Window(false, true, false)

  /** The reads of the nudge cycle are answered from this set. */
  ghost predicate CycleReads(events: seq<Event>, answers: set<Option<string>>) {
    forall i :: 0 <= i < |events| ==> CycleRead(events[i], answers)
  }

  ghost predicate CycleRead(e: Event, answers: set<Option<string>>) {
    e.Resumed? && (e.at.BeforeRead? || e.at.AfterRead?) ==> e.read in answers
  }

  /** Every show event comes while a cycle is active, so it is taken for the cycle's own echo. */
  ghost predicate EchoesOnly(s: State, events: seq<Event>) {
    forall i :: 0 <= i < |events| && events[i] == Shown ==> RunFrom(s, events[..i]).inFlight
  }

  lemma {:induction false} EchoesPrefix(s: State, events: seq<Event>)
    requires EchoesOnly(s, events) && events != []
    ensures EchoesOnly(s, events[..|events| - 1])
    ensures events[|events| - 1] == Shown ==> RunFrom(s, events[..|events| - 1]).inFlight
  {
    var before := events[..|events| - 1];
    forall i | 0 <= i < |before| && before[i] == Shown
      ensures RunFrom(s, before[..i]).inFlight
    {
      assert before[..i] == events[..i];
    }
  }

  lemma {:induction false} EchoesAppend(s: State, first: seq<Event>, rest: seq<Event>)
    requires EchoesOnly(s, first) && EchoesOnly(RunFrom(s, first), rest)
    ensures EchoesOnly(s, first + rest)
  {
    var all := first + rest;
    forall i | 0 <= i < |all| && all[i] == Shown
      ensures RunFrom(s, all[..i]).inFlight
    {
      if i < |first| {
        assert all[..i] == first[..i];
      } else {
        assert all[..i] == first + rest[..i - |first|];
        RunFromAppend(s, first, rest[..i - |first|]);
      }
    }
  }

  /** The runs that end with a show event which is no echo. */
  ghost predicate EndsInShow(win: Window, events: seq<Event>) {
    && events != [] && events[|events| - 1] == Shown
    && !RunFrom(Initial(win), events[..|events| - 1]).inFlight
  }

  /** The first show event, and the check after it, which finds the renderer visible. */
  const FIRST_SHOW: seq<Event> := [StartPolling, Shown]
  const FIRST_CHECK: seq<Event> := [VerifyDue, Resumed(SampleRead(1), Some("visible"))]

  /** The state after the first show event: the check is armed. */
  ghost function Armed(): State {
    Idle([Reset], []).(verifyArmed := true)
  }

  lemma {:induction false} FirstShow()
    ensures EndsInShow(VISIBLE_WINDOW, FIRST_SHOW)
    ensures RunFrom(Initial(VISIBLE_WINDOW), FIRST_SHOW) == Armed()
  {
    var s := Initial(VISIBLE_WINDOW);
    OneMore(s, [], StartPolling);
    OneMore(s, [StartPolling], Shown);
    assert [] + [StartPolling] == [StartPolling] && [StartPolling] + [Shown] == FIRST_SHOW;
    assert FIRST_SHOW[..1] == [StartPolling];
    assert [] + [Reset] == [Reset];
  }

  lemma {:induction false} FirstCheck()
    ensures RunFrom(Armed(), FIRST_CHECK) == Idle([Reset], [false])
  {
    var sampling, e := Idle([Reset], []).(pending := multiset{SampleRead(1)}), Resumed(SampleRead(1), Some("visible"));
    OneMore(Armed(), [], VerifyDue);
    OneMore(Armed(), [VerifyDue], e);
    assert [] + [VerifyDue] == [VerifyDue] && [VerifyDue] + [e] == FIRST_CHECK;
    assert Step(Armed(), VerifyDue) == sampling;
    OnlyResumption(sampling, SampleRead(1), Some("visible"));
    assert [] + [false] == [false];
  }

  /** The cap holds per budget, not per show event: with no further show event but the echoes of
      its own shows the window can be hidden any number of times, since a result other than
      "hidden", or one that cannot be read, renews the budget. */
  lemma {:induction false} NoCapPerShowEvent(n: nat, result: Option<string>)
    returns (events: seq<Event>, actions: seq<Action>, samples: seq<bool>)
    requires result != Some("hidden")
    ensures
      var shown := RunFrom(Initial(VISIBLE_WINDOW), FIRST_SHOW);
      && EndsInShow(VISIBLE_WINDOW, FIRST_SHOW) && Hides(shown.actions) == 0
      && EchoesOnly(shown, events) && CycleReads(events, {Some("hidden"), result})
      && RunFrom(shown, events) == Idle(actions, samples) && Hides(actions) == n
  {
    var shown := RunFrom(Initial(VISIBLE_WINDOW), FIRST_SHOW);
    FirstShow();
    NoHides([Reset]);
    if n == 0 {
      FirstCheck();
      events, actions, samples := FIRST_CHECK, [Reset], [false];
    } else {
      var shorter, before, seen := NoCapPerShowEvent(n - 1, result);
      var round := TWO_SAMPLES + OneNudge(result);
      events := shorter + round;
      actions, samples := before + [Hide, Show, Reset], seen + [true, true];
      RoundRun(before, seen, result);
      RunFromAppend(shown, shorter, round);
      EchoesAppend(shown, shorter, round);
      RoundReads(shorter, result);
      HidesAppend(before);
    }
  }

  lemma {:induction false} RoundRun(actions: seq<Action>, samples: seq<bool>, result: Option<string>)
    requires result != Some("hidden")
    ensures RunFrom(Idle(actions, samples), TWO_SAMPLES + OneNudge(result))
            == Idle(actions + [Hide, Show, Reset], samples + [true, true])
    ensures EchoesOnly(Idle(actions, samples), TWO_SAMPLES + OneNudge(result))
  {
    RunFromAppend(Idle(actions, samples), TWO_SAMPLES, OneNudge(result));
    SamplingPart(actions, samples);
    NudgingPart(actions, samples + [true, true], result);
    EchoesAppend(Idle(actions, samples), TWO_SAMPLES, OneNudge(result));
  }

  lemma {:induction false} RoundReads(events: seq<Event>, result: Option<string>)
    requires CycleReads(events, {Some("hidden"), result})
    ensures CycleReads(events + (TWO_SAMPLES + OneNudge(result)), {Some("hidden"), result})
  {
    assert CycleReads(TWO_SAMPLES, {Some("hidden"), result}) && CycleReads(OneNudge(result), {Some("hidden"), result});
  }

  lemma {:induction false} HidesAppend(actions: seq<Action>)
    ensures Hides(actions + [Hide, Show, Reset]) == Hides(actions) + 1
  {
    var all := actions + [Hide, Show, Reset];
    assert all[..|all| - 1] == actions + [Hide, Show];
    assert (actions + [Hide, Show])[..|actions| + 1] == actions + [Hide];
    assert (actions + [Hide])[..|actions|] == actions;
    assert Hides(all) == Hides(actions + [Hide, Show]) == Hides(actions + [Hide]);
  }

  lemma {:induction false} NoHides(actions: seq<Action>)
    requires Hide !in actions
    ensures Hides(actions) == 0
  {
    if actions != [] {
      NoHides(actions[..|actions| - 1]);
    }
  }

  /** The actions are continued by others than a. */
  ghost predicate Without(before: seq<Action>, after: seq<Action>, a: Action) {
    before <= after && a !in after[|before|..]
  }

  lemma {:induction false} WithoutAppend(before: seq<Action>, mid: seq<Action>, x: Action, a: Action)
    requires Without(before, mid, a) && x != a
    ensures Without(before, mid + [x], a)
  {
    assert (mid + [x])[|before|..] == mid[|before|..] + [x];
  }

  /** One step adds at most one action, which is not a. */
  ghost predicate AddsNo(before: seq<Action>, after: seq<Action>, a: Action) {
    after == before || exists x :: x != a && after == before + [x]
  }

  lemma {:induction false} WithoutStep(before: seq<Action>, mid: seq<Action>, after: seq<Action>, a: Action)
    requires Without(before, mid, a) && AddsNo(mid, after, a)
    ensures Without(before, after, a)
  {
    if after != mid {
      var x :| x != a && after == mid + [x];
      WithoutAppend(before, mid, x, a);
    }
  }

  lemma {:induction false} SamplingActs(s: State, required: nat, read: Option<string>)
    ensures CycleHead(s).actions == BeginSample(s, required).actions == s.actions
    ensures EndSample(s, required, read).actions == s.actions
  {
  }

  lemma {:induction false} ResumptionHides(s: State, at: Await, read: Option<string>)
    requires at.BeforeRead? ==> read != Some("hidden")
    ensures AddsNo(s.actions, Continue(s, at, read).actions, Hide)
  {
    match at
    case SampleRead(required) => SamplingActs(s, required, read);
    case AfterRead => SamplingActs(s, 0, read);
    case _ =>
  }

  lemma {:induction false} StepHides(s: State, e: Event)
    requires e.Resumed? && e.at.BeforeRead? ==> e.read != Some("hidden")
    ensures AddsNo(s.actions, Step(s, e).actions, Hide)
  {
    match e
    case Resumed(at, read) =>
      if at in s.pending { ResumptionHides(s.(pending := s.pending - multiset{at}), at, read); }
    case VerifyDue => SamplingActs(s.(verifyArmed := false), 1, None);
    case PollDue => SamplingActs(s, POLL_STRIKES, None);
    case _ =>
  }

  lemma {:induction false} ResumptionResets(s: State, at: Await, read: Option<string>)
    requires at.BeforeRead? || at.AfterRead? ==> read == Some("hidden")
    ensures AddsNo(s.actions, Continue(s, at, read).actions, Reset)
  {
    match at
    case SampleRead(required) => SamplingActs(s, required, read);
    case AfterRead => SamplingActs(s, 0, read);
    case _ =>
  }

  lemma {:induction false} StepResets(s: State, e: Event)
    requires e == Shown ==> s.inFlight
    requires e.Resumed? && (e.at.BeforeRead? || e.at.AfterRead?) ==> e.read == Some("hidden")
    ensures AddsNo(s.actions, Step(s, e).actions, Reset)
  {
    match e
    case Resumed(at, read) =>
      if at in s.pending { ResumptionResets(s.(pending := s.pending - multiset{at}), at, read); }
    case VerifyDue => SamplingActs(s.(verifyArmed := false), 1, None);
    case PollDue => SamplingActs(s, POLL_STRIKES, None);
    case _ =>
  }

  /** Only the answer "hidden" to the first read hides the window. */
  lemma {:induction false} NeverHidden(s: State, events: seq<Event>, answers: set<Option<string>>)
    requires CycleReads(events, answers) && Some("hidden") !in answers
    ensures Without(s.actions, RunFrom(s, events).actions, Hide)
  {
    if events != [] {
      var before, e := events[..|events| - 1], events[|events| - 1];
      NeverHidden(s, before, answers);
      assert CycleRead(e, answers);
      StepHides(RunFrom(s, before), e);
      WithoutStep(s.actions, RunFrom(s, before).actions, RunFrom(s, events).actions, Hide);
    }
  }

  /** Only a show event that is no echo, or another answer than "hidden", renews the budget. */
  lemma {:induction false} NeverRenewed(s: State, events: seq<Event>, answers: set<Option<string>>)
    requires CycleReads(events, answers) && answers <= {Some("hidden")} && EchoesOnly(s, events)
    ensures Without(s.actions, RunFrom(s, events).actions, Reset)
  {
    if events != [] {
      var before, e := events[..|events| - 1], events[|events| - 1];
      EchoesPrefix(s, events);
      NeverRenewed(s, before, answers);
      assert CycleRead(e, answers);
      StepResets(RunFrom(s, before), e);
      WithoutStep(s.actions, RunFrom(s, before).actions, RunFrom(s, events).actions, Reset);
    }
  }

  lemma {:induction false} RunKeepsSafe(s: State, events: seq<Event>)
    requires Safe(s)
    ensures Safe(RunFrom(s, events))
  {
    if events != [] {
      RunKeepsSafe(s, events[..|events| - 1]);
      StepKeepsSafe(RunFrom(s, events[..|events| - 1]), events[|events| - 1]);
    }
  }

  lemma {:induction false} HidesSplit(before: seq<Action>, after: seq<Action>)
    requires before <= after
    ensures Hides(after) == Hides(before) + Hides(after[|before|..])
  {
    var added := after[|before|..];
    if added == [] {
      assert before == after;
    } else {
      var shorter := after[..|after| - 1];
      HidesSplit(before, shorter);
      assert shorter[|before|..] == added[..|added| - 1];
      assert added[|added| - 1] == after[|after| - 1];
    }
  }

  /** The run hides the window at most three times. */
  ghost predicate CappedRun(s: State, events: seq<Event>) {
    Hides(RunFrom(s, events).actions) <= Hides(s.actions) + MAX_ATTEMPTS
  }

  /** From any state on, the window is hidden at most three times until the next show event that
      is no echo. */
  ghost predicate Capped(answers: set<Option<string>>) {
    forall s, events :: Safe(s) && EchoesOnly(s, events) && CycleReads(events, answers) ==> CappedRun(s, events)
  }

  /** The same from every show event on that is no echo. */
  ghost predicate CappedPerShow(answers: set<Option<string>>) {
    forall win, before, events ::
      EndsInShow(win, before) && EchoesOnly(RunFrom(Initial(win), before), events) && CycleReads(events, answers)
      ==> CappedRun(RunFrom(Initial(win), before), events)
  }

  /** The cap of three hides between two show events, exactly: it holds, from every reachable state
      as well as from show events on, if and only if the reads of the nudge cycle never answer
      "hidden" or never anything else. */
  lemma {:induction false} CappedIff(answers: set<Option<string>>)
    ensures Capped(answers) <==> Some("hidden") !in answers || answers <= {Some("hidden")}
    ensures CappedPerShow(answers) <==> Some("hidden") !in answers || answers <= {Some("hidden")}
  {
    if Some("hidden") !in answers || answers <= {Some("hidden")} {
      forall s, events | Safe(s) && EchoesOnly(s, events) && CycleReads(events, answers)
        ensures CappedRun(s, events)
      {
        StretchCapped(s, events, answers);
      }
      CappedFromShows(answers);
    } else {
      NotCapped(answers);
    }
  }

  lemma {:induction false} CappedFromShows(answers: set<Option<string>>)
    requires Capped(answers)
    ensures CappedPerShow(answers)
  {
    forall win, before, events | EndsInShow(win, before) && CycleReads(events, answers)
                                 && EchoesOnly(RunFrom(Initial(win), before), events)
      ensures CappedRun(RunFrom(Initial(win), before), events)
    {
      EveryInterleavingIsSafe(win, before);
    }
  }

  lemma {:induction false} NotCapped(answers: set<Option<string>>)
    requires Some("hidden") in answers && !(answers <= {Some("hidden")})
    ensures !CappedPerShow(answers) && !Capped(answers)
  {
    var result :| result in answers && result != Some("hidden");
    var events, actions, samples := NoCapPerShowEvent(4, result);
    MoreReads(events, {Some("hidden"), result}, answers);
    assert !CappedRun(RunFrom(Initial(VISIBLE_WINDOW), FIRST_SHOW), events);
    EveryInterleavingIsSafe(VISIBLE_WINDOW, FIRST_SHOW);
  }

  lemma {:induction false} MoreReads(events: seq<Event>, few: set<Option<string>>, many: set<Option<string>>)
    requires CycleReads(events, few) && few <= many
    ensures CycleReads(events, many)
  {
    forall i | 0 <= i < |events|
      ensures CycleRead(events[i], many)
    {
      assert CycleRead(events[i], few);
    }
  }

  lemma {:induction false} StretchCapped(s: State, events: seq<Event>, answers: set<Option<string>>)
    requires Safe(s) && EchoesOnly(s, events) && CycleReads(events, answers)
    requires Some("hidden") !in answers || answers <= {Some("hidden")}
    ensures CappedRun(s, events)
  {
    var before, after := s.actions, RunFrom(s, events).actions;
    if Some("hidden") !in answers {
      NeverHidden(s, events, answers);
      NoHides(after[|before|..]);
    } else {
      NeverRenewed(s, events, answers);
      RunKeepsSafe(s, events);
      assert after[|before|..|after|] == after[|before|..];
      HidesBetweenResets(after, |before|, |after|);
    }
    HidesSplit(before, after);
  }

  lemma {:induction false} ResumedStep(s: State, at: Await, read: Option<string>)
    requires at in s.pending
    ensures Step(s, Resumed(at, read)) == Continue(s.(pending := s.pending - multiset{at}), at, read)
  {
  }

  // ---------- the controller ----------

  /** The controller of one window.  `win` and `pending` stand for the window and for the
      activations the runtime keeps suspended. */
  class VisibilityRecovery {
    var win: Window
    var inFlight: bool
    var attempts: nat
    var strikes: nat
    var verifyArmed: bool
    var polling: bool
    var pending: multiset<Await>
    ghost var actions: seq<Action>
    ghost var samples: seq<bool>

    ghost function Snap(): State
      reads this
    {
      State(win, inFlight, attempts, strikes, verifyArmed, polling, pending, actions, samples)
    }

    constructor (window: Window)
      ensures Snap() == Initial(window)
    {
      win, inFlight, attempts, strikes := window, false, 0, 0;
      verifyArmed, polling, pending := false, false, multiset{};
      actions, samples := [], [];
    }

    method OnWindowShown()
      modifies this
      ensures Snap() == Step(old(Snap()), Shown)
    {
      if inFlight {
        return;
      }
      attempts := 0;
      actions := actions + [Reset];
      verifyArmed := true;
    }

    method VerifyFired()
      requires verifyArmed
      modifies this
      ensures Snap() == Step(old(Snap()), VerifyDue)
    {
      verifyArmed := false;
      SampleAndMaybeRecover(1);
    }

    method StartPoll()
      modifies this
      ensures Snap() == Step(old(Snap()), StartPolling)
    {
      if polling {
        return;
      }
      polling := true;
    }

    method PollFired()
      requires polling
      modifies this
      ensures Snap() == Step(old(Snap()), PollDue)
    {
      SampleAndMaybeRecover(POLL_STRIKES);
    }

    method StopAll()
      modifies this
      ensures Snap() == Step(old(Snap()), Stop)
    {
      verifyArmed, polling := false, false;
    }

    /** Up to the read of the renderer's state. */
    method SampleAndMaybeRecover(required: nat)
      modifies this
      ensures Snap() == BeginSample(old(Snap()), required)
    {
      if inFlight || win.destroyed {
        return;
      }
      if !win.visible || win.minimized {
        strikes := 0;
        return;
      }
      pending := pending + multiset{SampleRead(required)};
    }

    /** After the read: count the strike and perhaps enter the nudge cycle. */
    method SampleResumed(required: nat, read: Option<string>)
      modifies this
      ensures Snap() == EndSample(old(Snap()), required, read)
    {
      if read.None? {
        return;
      }
      var hidden := read.value == "hidden";
      strikes := AdvanceHiddenStrikes(strikes, hidden);
      samples := samples + [hidden];
      if !hidden || strikes < required {
        return;
      }
      strikes := 0;
      if !ShouldNudgeRenderer(win.visible, win.minimized, true, inFlight, attempts) {
        return;
      }
      inFlight := true;
      NudgeLoopHead();
    }

    /** The loop test and the checks at the top of the nudge loop. */
    method NudgeLoopHead()
      modifies this
      ensures Snap() == CycleHead(old(Snap()))
    {
      if attempts < MAX_ATTEMPTS {
        if win.destroyed || !win.visible || win.minimized {
          inFlight := false;
          return;
        }
        pending := pending + multiset{BeforeRead};
      } else {
        inFlight := false;
      }
    }

    method BeforeResumed(read: Option<string>)
      modifies this
      ensures Snap() == Continue(old(Snap()), BeforeRead, read)
    {
      if read.None? {
        inFlight := false;
      } else if read.value != "hidden" {
        attempts, inFlight := 0, false;
        actions := actions + [Reset];
      } else {
        attempts := attempts + 1;
        win := win.(visible := false);
        actions := actions + [Hide];
        pending := pending + multiset{Gap};
      }
    }

    method GapElapsed(ghost read: Option<string>)
      modifies this
      ensures Snap() == Continue(old(Snap()), Gap, read)
    {
      if win.destroyed || win.minimized {
        inFlight := false;
        actions := actions + [Abandon(win)];
      } else {
        win := win.(visible := true);
        actions := actions + [Show];
        pending := pending + multiset{Recheck};
      }
    }

    method RecheckElapsed(ghost read: Option<string>)
      modifies this
      ensures Snap() == Continue(old(Snap()), Recheck, read)
    {
      if win.destroyed {
        inFlight := false;
      } else {
        pending := pending + multiset{AfterRead};
      }
    }

    method AfterResumed(read: Option<string>)
      modifies this
      ensures Snap() == Continue(old(Snap()), AfterRead, read)
    {
      if read != Some("hidden") {
        attempts, inFlight := 0, false;
        actions := actions + [Reset];
      } else {
        NudgeLoopHead();
      }
    }

    /** The stretch up to the next await, or to the end. */
    method RunOn(at: Await, read: Option<string>)
      modifies this
      ensures Snap() == Continue(old(Snap()), at, read)
    {
      match at {
        case SampleRead(required) => SampleResumed(required, read);
        case BeforeRead => BeforeResumed(read);
        case Gap => GapElapsed(read);
        case Recheck => RecheckElapsed(read);
        case AfterRead => AfterResumed(read);
      }
    }

    /** The runtime resumes one suspended activation. */
    method Resume(at: Await, read: Option<string>)
      requires at in pending
      modifies this
      ensures Snap() == Step(old(Snap()), Resumed(at, read))
    {
      ghost var before := Snap();
      pending := pending - multiset{at};
      RunOn(at, read);
      ResumedStep(before, at, read);
    }
  }
}
