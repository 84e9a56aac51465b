/** When a recovery starts, what a renderer that stays hidden goes through, and when nothing happens.
 */
module VisibilityStarts {
  import opened Options
  import opened Visibility

  // ---------- sampling and starting ----------

  /** The renderer is sampled exactly when the armed check or a running poll comes due, no cycle is
      active, and the window is there for the user to see; the check asks for one strike, the poll
      for two. */
  lemma {:induction false} SampleBeginsIff(s: State, e: Event, required: nat)
    requires Safe(s)
    ensures
      Step(s, e).pending[SampleRead(required)] > s.pending[SampleRead(required)] <==>
        && ((e == VerifyDue && s.verifyArmed && required == 1) || (e == PollDue && s.polling && required == 2))
        && !s.inFlight && !s.win.destroyed && s.win.visible && !s.win.minimized
  {
    match e
    case Resumed(at, read) =>
      if at in s.pending { NoSampleResumed(s, at, read, required); }
    case _ =>
  }

  lemma {:induction false} NoSampleResumed(s: State, at: Await, read: Option<string>, required: nat)
    requires at in s.pending
    ensures Step(s, Resumed(at, read)).pending[SampleRead(required)] <= s.pending[SampleRead(required)]
  {
    var t := s.(pending := s.pending - multiset{at});
    ResumedStep(s, at, read);
    if at.SampleRead? {
      EndSampleAdds(t, at.required, read);
    } else {
      ContinueAdds(t, at, read);
    }
    assert t.pending[SampleRead(required)] <= s.pending[SampleRead(required)];
  }

  lemma {:induction false} ContinueAdds(t: State, at: Await, read: Option<string>)
    requires !at.SampleRead?
    ensures
      var u := Continue(t, at, read).pending;
      u == t.pending || u == t.pending + multiset{BeforeRead} || u == t.pending + multiset{Gap}
      || u == t.pending + multiset{Recheck} || u == t.pending + multiset{AfterRead}
  {
  }

  lemma {:induction false} EndSampleAdds(t: State, required: nat, read: Option<string>)
    ensures EndSample(t, required, read).pending == t.pending
            || EndSample(t, required, read).pending == t.pending + multiset{BeforeRead}
    ensures t.attempts >= 3 ==>
              var u := EndSample(t, required, read);
              u.actions == t.actions && u.attempts == t.attempts && u.inFlight == t.inFlight
  {
  }

  /** A due check or poll of a window that is hidden or minimised forgets the strikes so far. */
  lemma {:induction false} HiddenWindowForgetsStrikes(s: State, e: Event)
    requires (e == VerifyDue && s.verifyArmed) || (e == PollDue && s.polling)
    requires !s.inFlight && !s.win.destroyed
    ensures Step(s, e).strikes == if !s.win.visible || s.win.minimized then 0 else s.strikes
  {
  }

  /** A cycle starts exactly when a sample reads "hidden", is the last strike it takes, the window is
      there for the user to see and the budget is not used up; it goes on to read again. */
  lemma {:induction false} CycleStartsIff(s: State, e: Event)
    requires Safe(s) && !s.inFlight
    ensures
      Step(s, e).inFlight <==>
        && e.Resumed? && e.at in s.pending && e.at.SampleRead? && e.read == Some("hidden")
        && s.strikes + 1 >= e.at.required && s.attempts < 3
        && !s.win.destroyed && s.win.visible && !s.win.minimized
    ensures Step(s, e).inFlight ==> BeforeRead in Step(s, e).pending && Step(s, e).strikes == 0
  {
    assert s.pending[BeforeRead] == 0 && s.pending[Gap] == 0 && s.pending[Recheck] == 0 && s.pending[AfterRead] == 0;
    if e.Resumed? && e.at in s.pending {
      ResumedStep(s, e.at, e.read);
    }
  }

  /** What the first read of a round leads to: an unreadable renderer ends the cycle, a visible one
      renews the budget as well, and only a hidden one gets its window hidden. */
  lemma {:induction false} BeforeAnswer(s: State, read: Option<string>)
    requires Safe(s) && BeforeRead in s.pending
    ensures
      var t := Step(s, Resumed(BeforeRead, read));
      if read == Some("hidden") then
        && t.actions == s.actions + [Hide] && t.win == s.win.(visible := false) && t.attempts == s.attempts + 1
        && t.inFlight && Gap in t.pending
      else
        && t.actions == s.actions + (if read.Some? then [Reset] else []) && t.win == s.win
        && t.attempts == (if read.Some? then 0 else s.attempts) && !t.inFlight
  {
    ResumedStep(s, BeforeRead, read);
  }

  /** After the recheck delay the renderer is read again, unless the window has been closed. */
  lemma {:induction false} RecheckAnswer(s: State, read: Option<string>)
    requires Safe(s) && Recheck in s.pending
    ensures
      var t := Step(s, Resumed(Recheck, read));
      && t.actions == s.actions && t.win == s.win && t.inFlight == !s.win.destroyed
      && (AfterRead in t.pending <==> !s.win.destroyed)
  {
    ResumedStep(s, Recheck, read);
  }

  /** After the gap the window is shown again, unless it has been closed or minimised meanwhile. */
  lemma {:induction false} GapAnswer(s: State, win: Window, read: Option<string>)
    requires Gap in s.pending
    ensures
      var t := Step(Step(s, WindowChanged(win)), Resumed(Gap, read));
      if win.destroyed || win.minimized then t.actions == s.actions + [Abandon(win)] && !t.inFlight && t.win == win
      else t.actions == s.actions + [Show] && t.inFlight == s.inFlight && t.win == win.(visible := true)
  {
  }

  // ---------- a renderer that stays hidden ----------

  /** One round of a cycle in which the renderer stays hidden; the show comes back as an event. */
  const HIDDEN_ROUND: seq<Event> := [Resumed(BeforeRead, Some("hidden")), Resumed(Gap, None), Shown,
                                     Resumed(Recheck, None), Resumed(AfterRead, Some("hidden"))]

  /** A cycle before its next nudge, k of which are made. */
  ghost function Trying(k: nat, actions: seq<Action>, samples: seq<bool>): State {
    Idle(actions, samples).(inFlight := true, attempts := k, pending := multiset{BeforeRead})
  }

  /** After the k-th nudge, before the second read. */
  ghost function Shows(k: nat, actions: seq<Action>, samples: seq<bool>): State {
    Idle(actions + [Hide, Show], samples).(inFlight := true, attempts := k, pending := multiset{Recheck})
  }

  lemma {:induction false} HideAndShow(k: nat, actions: seq<Action>, samples: seq<bool>)
    requires k < 3
    ensures Step(Step(Trying(k, actions, samples), Resumed(BeforeRead, Some("hidden"))), Resumed(Gap, None))
            == Shows(k + 1, actions, samples)
  {
    var s := Trying(k, actions, samples);
    var s1 := s.(attempts := k + 1, win := s.win.(visible := false), actions := actions + [Hide],
                 pending := multiset{Gap});
    OnlyResumption(s, BeforeRead, Some("hidden"));
    OnlyResumption(s1, Gap, None);
    assert actions + [Hide] + [Show] == actions + [Hide, Show];
  }

  /** What a round leaves behind. */
  ghost function NextTry(k: nat, actions: seq<Action>, samples: seq<bool>): State {
    if k == 3 then Idle(actions, samples).(attempts := 3) else Trying(k, actions, samples)
  }

  lemma {:induction false} ReadAgain(k: nat, actions: seq<Action>, samples: seq<bool>)
    requires k <= 3
    ensures
      Step(Step(Shows(k, actions, samples), Resumed(Recheck, None)), Resumed(AfterRead, Some("hidden")))
      == NextTry(k, actions + [Hide, Show], samples)
  {
    var s := Shows(k, actions, samples);
    OnlyResumption(s, Recheck, None);
    OnlyResumption(s.(pending := multiset{AfterRead}), AfterRead, Some("hidden"));
  }

  lemma {:induction false} RoundStaysHidden(k: nat, actions: seq<Action>, samples: seq<bool>)
    requires k < 3
    ensures RunFrom(Trying(k, actions, samples), HIDDEN_ROUND) == NextTry(k + 1, actions + [Hide, Show], samples)
  {
    var s, s2 := Trying(k, actions, samples), Shows(k + 1, actions, samples);
    HideAndShow(k, actions, samples);
    ReadAgain(k + 1, actions, samples);
    FiveSteps(s, Step(s, HIDDEN_ROUND[0]), s2, s2, Step(s2, HIDDEN_ROUND[3]),
              NextTry(k + 1, actions + [Hide, Show], samples), HIDDEN_ROUND);
  }

  const HIDDEN_CHECK: seq<Event> := [VerifyDue, Resumed(SampleRead(1), Some("hidden"))]

  lemma {:induction false} CheckStartsCycle()
    ensures RunFrom(Armed(), HIDDEN_CHECK) == Trying(0, [Reset], [true])
  {
    var sampling, e := Idle([Reset], []).(pending := multiset{SampleRead(1)}), Resumed(SampleRead(1), Some("hidden"));
    OneMore(Armed(), [], VerifyDue);
    OneMore(Armed(), [VerifyDue], e);
    assert [] + [VerifyDue] == [VerifyDue] && [VerifyDue] + [e] == HIDDEN_CHECK;
    assert Step(Armed(), VerifyDue) == sampling;
    OnlyResumption(sampling, SampleRead(1), Some("hidden"));
    assert [] + [true] == [true];
  }

  lemma {:induction false} OneMoreRound(s: State, before: seq<Event>, k: nat, actions: seq<Action>, samples: seq<bool>)
    requires k < 3 && RunFrom(s, before) == Trying(k, actions, samples)
    ensures RunFrom(s, before + HIDDEN_ROUND)
            == NextTry(k + 1, actions + [Hide, Show], samples)
  {
    RunFromAppend(s, before, HIDDEN_ROUND);
    RoundStaysHidden(k, actions, samples);
  }

  lemma {:induction false} ThreeRounds(s: State, before: seq<Event>, actions: seq<Action>, samples: seq<bool>)
    requires RunFrom(s, before) == Trying(0, actions, samples)
    ensures RunFrom(s, before + HIDDEN_ROUND + HIDDEN_ROUND + HIDDEN_ROUND)
            == Idle(actions + [Hide, Show] + [Hide, Show] + [Hide, Show], samples).(attempts := 3)
  {
    OneMoreRound(s, before, 0, actions, samples);
    OneMoreRound(s, before + HIDDEN_ROUND, 1, actions + [Hide, Show], samples);
    OneMoreRound(s, before + HIDDEN_ROUND + HIDDEN_ROUND, 2, actions + [Hide, Show] + [Hide, Show], samples);
  }

  lemma {:induction false} ShownAndChecked()
    ensures RunFrom(Initial(VISIBLE_WINDOW), FIRST_SHOW + HIDDEN_CHECK) == Trying(0, [Reset], [true])
  {
    FirstShow();
    RunFromAppend(Initial(VISIBLE_WINDOW), FIRST_SHOW, HIDDEN_CHECK);
    CheckStartsCycle();
  }

  /** A window whose renderer reads "hidden" at the check after its show event, and ever after, is
      hidden and shown three times; then the cycle ends with its budget used up. */
  lemma {:induction false} HiddenIsNudgedThrice()
    ensures
      var t := RunFrom(Initial(VISIBLE_WINDOW),
                       FIRST_SHOW + HIDDEN_CHECK + HIDDEN_ROUND + HIDDEN_ROUND + HIDDEN_ROUND);
      && t.actions == [Reset, Hide, Show, Hide, Show, Hide, Show]
      && t.attempts == 3 && !t.inFlight && t.pending == multiset{} && t.win == VISIBLE_WINDOW
  {
    ShownAndChecked();
    ThreeRounds(Initial(VISIBLE_WINDOW), FIRST_SHOW + HIDDEN_CHECK, [Reset], [true]);
    assert [Reset] + [Hide, Show] + [Hide, Show] + [Hide, Show] == [Reset, Hide, Show, Hide, Show, Hide, Show];
  }

  // ---------- when nothing happens ----------

  /** The budget is used up and no cycle is active. */
  ghost predicate UsedUp(s: State) {
    Safe(s) && !s.inFlight && s.attempts == 3
  }

  lemma {:induction false} UsedUpStep(s: State, e: Event)
    requires UsedUp(s) && e != Shown
    ensures UsedUp(Step(s, e)) && Step(s, e).actions == s.actions
  {
    StepKeepsSafe(s, e);
    assert s.pending[BeforeRead] == 0 && s.pending[Gap] == 0 && s.pending[Recheck] == 0 && s.pending[AfterRead] == 0;
    if e.Resumed? && e.at in s.pending {
      ResumedStep(s, e.at, e.read);
      assert e.at.SampleRead?;
      EndSampleAdds(s.(pending := s.pending - multiset{e.at}), e.at.required, e.read);
    }
  }

  /** Once the budget is used up the window is left alone until the next show event, whatever the
      samples say. */
  lemma {:induction false} UsedUpStaysQuiet(s: State, events: seq<Event>)
    requires UsedUp(s) && Shown !in events
    ensures UsedUp(RunFrom(s, events)) && RunFrom(s, events).actions == s.actions
  {
    if events != [] {
      UsedUpStaysQuiet(s, events[..|events| - 1]);
      UsedUpStep(RunFrom(s, events[..|events| - 1]), events[|events| - 1]);
    }
  }

  /** No timer is set and nothing is under way. */
  ghost predicate Silent(s: State) {
    !s.verifyArmed && !s.polling && s.pending == multiset{}
  }

  /** A fresh controller does nothing until a show event comes or polling starts; so does a stopped
      one with nothing under way. */
  lemma {:induction false} SilentUntilStarted(s: State, events: seq<Event>)
    requires Silent(s) && Shown !in events && StartPolling !in events
    ensures Silent(RunFrom(s, events))
    ensures RunFrom(s, events).actions == s.actions && RunFrom(s, events).samples == s.samples
  {
    if events != [] {
      SilentUntilStarted(s, events[..|events| - 1]);
      assert events[|events| - 1] in events;
    }
  }

  lemma {:induction false} FreshAndStoppedAreSilent(win: Window, s: State)
    ensures Silent(Initial(win)) && Initial(win).actions == []
    ensures s.pending == multiset{} ==> Silent(Step(s, Stop)) && Step(s, Stop).actions == s.actions
  {
  }
}
