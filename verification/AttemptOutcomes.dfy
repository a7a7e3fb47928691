/**
 * What the steps of a run say of an attempt's outcome (packages/claxedo-connections/src/service.ts:300-331 and 457-488): the provider's
 * answers, the exchange and the two writes are the step labels, and the entry must read accordingly.
 */
module AttemptOutcomes {
  import opened Text
  import opened Attempts
  import opened AttemptProtocol

  /**
   * What a step of job `j` tells of the outcome: a denial, an unusable callback, a failed exchange, a failed put and a failed row write
   * fail it, an expired grant lapses it, and a written row completes it.
   */
  function Tells(step: Step, j: nat, callback: bool): Option<Outcome> {
    match step
    case Answered(k, answer) =>
      if k != j then None
      else if answer.Denied? then Some(Outcome.Failed)
      else if answer.Expired? then Some(Outcome.Expired)
      else None
    case Consuming(k, _, usable) => if k == j && callback && !usable then Some(Outcome.Failed) else None
    case Exchanged(k, ok) => if k == j && !ok then Some(Outcome.Failed) else None
    case StoreCredential(k, ok) => if k == j && !ok then Some(Outcome.Failed) else None
    case StoreRow(k, ok) => if k == j then Some(if ok then Outcome.Complete else Outcome.Failed) else None
    case _ => None
  }

  /** The job was opened by a callback. */
  ghost predicate IsCallback(steps: seq<Step>, j: nat) {
    steps != [] &&
    var front := steps[..|steps| - 1];
    (steps[|steps| - 1].Callback? && |After(front).jobs| == j) || IsCallback(front, j)
  }

  /** The last thing the steps that happened tell of the job's outcome. */
  ghost function Fate(steps: seq<Step>, j: nat): Option<Outcome> {
    if steps == [] then None
    else
      var front, step := steps[..|steps| - 1], steps[|steps| - 1];
      var told := Tells(step, j, IsCallback(front, j));
      if Enabled(After(front), step) && told.Some? then told else Fate(front, j)
  }

  // ---------------------------------------------------------------- where a job is tells its fate

  predicate PhaseTells(p: Phase, fate: Option<Outcome>, callback: bool) {
    match p
    case Polling => fate.None? && !callback
    case Asking => fate.None? && !callback
    case Declined(lapsed) => !callback && fate == Some(if lapsed then Outcome.Expired else Outcome.Failed)
    case Granted => fate.None? && !callback
    case CalledBack => fate.None? && callback
    case Exchanging => fate.None? && callback
    case Storing => fate.None?
    case Written => fate.None?
    case Deciding(v) => fate == Some(OutcomeOf(v))
    case Finished => true
  }

  ghost predicate JobsTold(steps: seq<Step>) {
    var s := After(steps);
    && (forall j :: 0 <= j < |s.jobs| ==> PhaseTells(s.jobs[j].phase, Fate(steps, j), IsCallback(steps, j)))
    && (forall j: nat :: j >= |s.jobs| ==> Fate(steps, j).None? && !IsCallback(steps, j))
  }

  /** A decision is that of a finished job of the attempt, and is what its steps told. */
  ghost predicate DecisionTold(steps: seq<Step>, state: StateId) {
    var s := After(steps);
    state in s.decisions ==>
      var d := s.decisions[state];
      d.job < |s.jobs| && s.jobs[d.job].state == state && s.jobs[d.job].phase.Finished? && Fate(steps, d.job) == Some(OutcomeOf(d.verdict))
  }

  /** An attempt that nobody won can only have run out. */
  ghost predicate UnwonRunsOut(s: System) {
    forall state :: state in s.entries && s.entries[state].Terminal? && state !in s.winners ==> s.entries[state].outcome.Expired?
  }

  lemma FateNext(front: seq<Step>, step: Step, j: nat)
    ensures var steps := front + [step]; var told := Tells(step, j, IsCallback(front, j));
      Fate(steps, j) == if Enabled(After(front), step) && told.Some? then told else Fate(front, j)
    ensures IsCallback(front + [step], j) <==> (step.Callback? && |After(front).jobs| == j) || IsCallback(front, j)
    ensures After(front + [step]) == if Enabled(After(front), step) then Apply(After(front), step) else After(front)
  {
    hide Tells, Enabled, Apply;
    assert (front + [step])[..|front|] == front;
  }

  lemma StepTellsJob(s: System, step: Step, j: nat, fate: Option<Outcome>, callback: bool)
    requires Enabled(s, step) && j < |s.jobs| && PhaseTells(s.jobs[j].phase, fate, callback)
    ensures j < |Apply(s, step).jobs| && Apply(s, step).jobs[j].state == s.jobs[j].state
    ensures var told := Tells(step, j, callback);
      PhaseTells(Apply(s, step).jobs[j].phase, if told.Some? then told else fate, callback)
  {
    hide Swept, Peeked, Consume, Decided, Created;
  }

  lemma StepTellsNew(s: System, step: Step, j: nat)
    requires Enabled(s, step) && j >= |s.jobs|
    ensures Tells(step, j, false).None? && |Apply(s, step).jobs| <= |s.jobs| + 1
    ensures j < |Apply(s, step).jobs| ==> PhaseTells(Apply(s, step).jobs[j].phase, None, step.Callback?)
    ensures step.Callback? ==> |Apply(s, step).jobs| == |s.jobs| + 1
  {
    hide Swept, Peeked, Consume, Decided, Created;
  }

  lemma JobsStayTold(front: seq<Step>, step: Step)
    requires JobsTold(front)
    ensures JobsTold(front + [step])
  {
    hide Fate, IsCallback, Apply, Enabled, PhaseTells, Tells, After;
    var s, steps := After(front), front + [step];
    var t := After(steps);
    forall j: nat ensures
      if j < |t.jobs| then PhaseTells(t.jobs[j].phase, Fate(steps, j), IsCallback(steps, j)) else Fate(steps, j).None? && !IsCallback(steps, j)
    {
      FateNext(front, step, j);
      if Enabled(s, step) {
        if j < |s.jobs| { StepTellsJob(s, step, j, Fate(front, j), IsCallback(front, j)); } else { StepTellsNew(s, step, j); }
      } else {
        CallbackIsEnabled(s, step);
      }
    }
  }

  lemma CallbackIsEnabled(s: System, step: Step)
    ensures step.Callback? ==> Enabled(s, step)
  {
  }

  /** Once something is told of a job, nothing more is. */
  lemma ToldOnce(s: System, step: Step, j: nat, fate: Option<Outcome>, callback: bool)
    requires Enabled(s, step) && j < |s.jobs| && PhaseTells(s.jobs[j].phase, fate, callback) && fate.Some?
    ensures Tells(step, j, callback).None?
  {
  }

  lemma FinishedTellsNothing(s: System, step: Step, j: nat, callback: bool)
    requires Enabled(s, step) && j < |s.jobs| && s.jobs[j].phase.Finished?
    ensures Tells(step, j, callback).None? && j < |Apply(s, step).jobs| && Apply(s, step).jobs[j] == s.jobs[j]
  {
    hide Swept, Peeked, Consume, Decided, Created;
  }

  lemma DecideTells(s: System, step: Step, state: StateId)
    requires Enabled(s, step)
    ensures var t := Apply(s, step);
      if step.Decide? && s.jobs[step.job].state == state
      then t.decisions == s.decisions[state := Decision(step.job, s.jobs[step.job].phase.verdict)] && t.jobs[step.job].phase.Finished?
      else (state in t.decisions <==> state in s.decisions) && (state in s.decisions ==> t.decisions[state] == s.decisions[state])
  {
    hide Swept, Peeked, Consume, Decided, Created;
  }

  lemma DecisionStaysTold(front: seq<Step>, step: Step, state: StateId)
    requires JobsTold(front) && DecisionTold(front, state)
    ensures DecisionTold(front + [step], state)
  {
    hide Fate, IsCallback, Apply, Enabled, Tells, After;
    var s := After(front);
    FateNext(front, step, 0);
    if Enabled(s, step) {
      DecideTells(s, step, state);
      if step.Decide? { DecidingJob(s, step); }
      if step.Decide? && s.jobs[step.job].state == state {
        FateNext(front, step, step.job);
        StepTellsJob(s, step, step.job, Fate(front, step.job), IsCallback(front, step.job));
        DecideTellsNothing(step, IsCallback(front, step.job));
      } else if state in s.decisions {
        var j := s.decisions[state].job;
        FateNext(front, step, j);
        FinishedTellsNothing(s, step, j, IsCallback(front, j));
      }
    } else if state in s.decisions {
      FateNext(front, step, s.decisions[state].job);
    }
  }

  lemma DecideTellsNothing(step: Step, callback: bool)
    requires step.Decide?
    ensures Tells(step, step.job, callback).None?
  {
  }

  lemma DecidingJob(s: System, step: Step)
    requires Enabled(s, step) && step.Decide?
    ensures step.job < |s.jobs| && s.jobs[step.job].phase.Deciding?
  {
  }

  lemma UnwonStays(s: System, step: Step)
    requires Valid(s) && Enabled(s, step) && UnwonRunsOut(s)
    ensures UnwonRunsOut(Apply(s, step))
  {
    hide EntriesAgree, DecisionsStand, WritesUnique, SuccessIsWritten;
  }

  lemma {:induction false} RunsAreTold(steps: seq<Step>)
    ensures JobsTold(steps) && UnwonRunsOut(After(steps))
    ensures forall state :: DecisionTold(steps, state)
  {
    hide Fate, IsCallback, Apply, Enabled, Tells, Valid, UnwonRunsOut, JobsTold, DecisionTold, After;
    if steps == [] {
      NothingTold();
    } else {
      var front, step := steps[..|steps| - 1], steps[|steps| - 1];
      assert steps == front + [step];
      RunsAreTold(front);
      RunsStayValid(front);
      JobsStayTold(front, step);
      FateNext(front, step, 0);
      if Enabled(After(front), step) { UnwonStays(After(front), step); }
      forall state ensures DecisionTold(steps, state) { DecisionStaysTold(front, step, state); }
    }
  }

  lemma NothingTold()
    ensures JobsTold([]) && UnwonRunsOut(After([])) && forall state :: DecisionTold([], state)
  {
  }

  // ---------------------------------------------------------------- the outcome is what the steps told

  /** The step happened: it is in the run and was enabled there. */
  ghost predicate Happened(steps: seq<Step>, step: Step) {
    exists n :: HappenedAt(steps, step, n)
  }

  ghost predicate HappenedAt(steps: seq<Step>, step: Step, n: int) {
    0 <= n < |steps| && steps[n] == step && Enabled(After(steps[..n]), step)
  }

  lemma HappenedNext(front: seq<Step>, last: Step, step: Step)
    ensures Happened(front + [last], step) <==> Happened(front, step) || (step == last && Enabled(After(front), last))
  {
    hide Enabled, After;
    var steps := front + [last];
    assert steps[..|front|] == front;
    if Happened(front, step) {
      var n :| HappenedAt(front, step, n);
      assert steps[..n] == front[..n] && HappenedAt(steps, step, n);
    }
    if step == last && Enabled(After(front), last) { assert HappenedAt(steps, step, |front|); }
    if Happened(steps, step) {
      var n :| HappenedAt(steps, step, n);
      if n < |front| { assert steps[..n] == front[..n] && HappenedAt(front, step, n); }
    }
  }

  /** What the job's steps say, told apart by label. */
  ghost predicate SaysComplete(steps: seq<Step>, j: nat) {
    Happened(steps, StoreRow(j, true))
  }

  ghost predicate SaysExpired(steps: seq<Step>, j: nat) {
    Happened(steps, Answered(j, Answer.Expired))
  }

  ghost predicate SaysFailed(steps: seq<Step>, j: nat) {
    || Happened(steps, Answered(j, Denied))
    || (IsCallback(steps, j) && exists later :: Happened(steps, Consuming(j, later, false)))
    || Happened(steps, Exchanged(j, false)) || Happened(steps, StoreCredential(j, false)) || Happened(steps, StoreRow(j, false))
  }

  lemma ConsumingNext(front: seq<Step>, last: Step, j: nat)
    ensures (exists later :: Happened(front + [last], Consuming(j, later, false))) <==>
      (exists later :: Happened(front, Consuming(j, later, false))) || (last.Consuming? && last.job == j && !last.usable && Enabled(After(front), last))
  {
    hide Enabled, After, Happened;
    if later :| Happened(front + [last], Consuming(j, later, false)) { HappenedNext(front, last, Consuming(j, later, false)); }
    if later :| Happened(front, Consuming(j, later, false)) { HappenedNext(front, last, Consuming(j, later, false)); }
    if last.Consuming? && last.job == j && !last.usable && Enabled(After(front), last) { HappenedNext(front, last, Consuming(j, last.later, false)); }
  }

  /** A job takes part in a run only once it has been opened, and is opened only once. */
  lemma TellingJobExists(s: System, step: Step, j: nat, callback: bool)
    requires Enabled(s, step) && (Tells(step, j, callback).Some? || (step.Consuming? && step.job == j))
    ensures j < |s.jobs|
  {
  }

  lemma {:induction false} NoJobNoSteps(steps: seq<Step>, j: nat)
    requires j >= |After(steps).jobs|
    ensures forall later :: !Happened(steps, Consuming(j, later, false))
  {
    hide Enabled, Apply, Happened, Tells;
    if steps == [] {
      assert forall later :: !Happened(steps, Consuming(j, later, false)) by { NothingHappened(); }
    } else {
      var front, step := steps[..|steps| - 1], steps[|steps| - 1];
      assert steps == front + [step];
      JobsOnlyGrow(After(front), step);
      NoJobNoSteps(front, j);
      ConsumingNext(front, step, j);
      if Enabled(After(front), step) && step.Consuming? && step.job == j { TellingJobExists(After(front), step, j, false); }
    }
  }

  lemma NothingHappened()
    ensures forall step :: !Happened([], step)
  {
    hide Enabled, After;
  }

  lemma JobsOnlyGrow(s: System, step: Step)
    ensures Enabled(s, step) ==> |s.jobs| <= |Apply(s, step).jobs|
  {
    hide Swept, Peeked, Consume, Decided, Created;
  }

  /** What the steps told of a job is exactly what their labels say. */
  lemma {:induction false} FateExactly(steps: seq<Step>, j: nat)
    ensures Fate(steps, j) == Some(Outcome.Complete) <==> SaysComplete(steps, j)
    ensures Fate(steps, j) == Some(Outcome.Expired) <==> SaysExpired(steps, j)
    ensures Fate(steps, j) == Some(Outcome.Failed) <==> SaysFailed(steps, j)
  {
    hide Enabled, Apply, After, Happened, Fate, IsCallback, JobsTold;
    if steps == [] {
      NothingHappened();
      NoFate(j);
    } else {
      var front, step := steps[..|steps| - 1], steps[|steps| - 1];
      assert steps == front + [step];
      FateExactly(front, j);
      RunsAreTold(front);
      FateNext(front, step, j);
      LabelsNext(front, step, j);
      if Enabled(After(front), step) && Tells(step, j, IsCallback(front, j)).Some? {
        TellingJobExists(After(front), step, j, IsCallback(front, j));
        if Fate(front, j).Some? { FateIsLast(front, step, j); }
      } else {
        CallbackOpens(front, step, j);
      }
    }
  }

  lemma NoFate(j: nat)
    ensures Fate([], j) == None && !IsCallback([], j)
  {
  }

  lemma FateIsLast(front: seq<Step>, step: Step, j: nat)
    requires JobsTold(front) && Enabled(After(front), step) && j < |After(front).jobs| && Fate(front, j).Some?
    ensures Tells(step, j, IsCallback(front, j)).None?
  {
    hide Fate, IsCallback, After;
    ToldOnce(After(front), step, j, Fate(front, j), IsCallback(front, j));
  }

  lemma CallbackOpens(front: seq<Step>, step: Step, j: nat)
    ensures IsCallback(front + [step], j) && !IsCallback(front, j) ==> forall later :: !Happened(front, Consuming(j, later, false))
    ensures IsCallback(front + [step], j) && !IsCallback(front, j) ==> !step.Consuming?
    ensures IsCallback(front, j) ==> IsCallback(front + [step], j)
  {
    hide Fate, IsCallback, After, Happened;
    FateNext(front, step, j);
    if |After(front).jobs| == j { NoJobNoSteps(front, j); }
  }

  lemma LabelsNext(front: seq<Step>, step: Step, j: nat)
    ensures var now := Enabled(After(front), step);
      && (SaysComplete(front + [step], j) <==> SaysComplete(front, j) || (now && step == StoreRow(j, true)))
      && (SaysExpired(front + [step], j) <==> SaysExpired(front, j) || (now && step == Answered(j, Answer.Expired)))
      && (Happened(front + [step], Answered(j, Denied)) <==> Happened(front, Answered(j, Denied)) || (now && step == Answered(j, Denied)))
      && (Happened(front + [step], Exchanged(j, false)) <==> Happened(front, Exchanged(j, false)) || (now && step == Exchanged(j, false)))
      && (Happened(front + [step], StoreCredential(j, false)) <==>
            Happened(front, StoreCredential(j, false)) || (now && step == StoreCredential(j, false)))
      && (Happened(front + [step], StoreRow(j, false)) <==> Happened(front, StoreRow(j, false)) || (now && step == StoreRow(j, false)))
      && ((exists later :: Happened(front + [step], Consuming(j, later, false))) <==>
            (exists later :: Happened(front, Consuming(j, later, false))) || (now && step.Consuming? && step.job == j && !step.usable))
  {
    hide Enabled, After, Happened;
    HappenedNext(front, step, StoreRow(j, true));
    HappenedNext(front, step, Answered(j, Answer.Expired));
    HappenedNext(front, step, Answered(j, Denied));
    HappenedNext(front, step, Exchanged(j, false));
    HappenedNext(front, step, StoreCredential(j, false));
    HappenedNext(front, step, StoreRow(j, false));
    ConsumingNext(front, step, j);
  }

  /**
   * Over every interleaving, a settled attempt that was consumed reads complete exactly when its winner's row was written, expired
   * exactly when the provider called its grant expired, and failed exactly when the provider denied it, the callback was not usable, the
   * exchange failed, or either write failed; and one that nobody consumed reads expired.
   */
  lemma OutcomesTell(steps: seq<Step>, state: StateId)
    requires state in After(steps).entries && After(steps).entries[state].Terminal?
    ensures var s := After(steps);
      var outcome := s.entries[state].outcome;
      if state !in s.winners then outcome.Expired?
      else
        var j := s.winners[state];
        && (outcome.Complete? <==> SaysComplete(steps, j))
        && (outcome.Expired? <==> SaysExpired(steps, j))
        && (outcome.Failed? <==> SaysFailed(steps, j))
  {
    hide After, SaysComplete, SaysExpired, SaysFailed, Fate, JobsTold;
    RunsAreTold(steps);
    RunsStayValid(steps);
    AttemptRuns(steps);
    var s := After(steps);
    if state in s.winners {
      assert DecisionTold(steps, state);
      FateExactly(steps, s.winners[state]);
    }
  }

  // ---------------------------------------------------------------- nothing is stored that was not granted

  /** The provider granted it: tokens for a poll, an exchanged code for a callback. */
  ghost predicate Granted(steps: seq<Step>, j: nat) {
    if IsCallback(steps, j) then Happened(steps, Exchanged(j, true)) else Happened(steps, Answered(j, Tokens))
  }

  predicate NeedsGrant(p: Phase) {
    p.Granted? || p.Storing? || p.Written? || p == Deciding(Succeed)
  }

  ghost predicate GrantsTold(steps: seq<Step>) {
    var s := After(steps);
    && (forall j :: 0 <= j < |s.jobs| && NeedsGrant(s.jobs[j].phase) ==> Granted(steps, j))
    && (forall i :: 0 <= i < |s.writes| ==> s.writes[i].job < |s.jobs| && Granted(steps, s.writes[i].job))
  }

  lemma GrantedStays(front: seq<Step>, step: Step, j: nat)
    requires Granted(front, j) && j < |After(front).jobs|
    ensures Granted(front + [step], j)
  {
    hide After, Happened, IsCallback;
    FateNext(front, step, j);
    HappenedNext(front, step, Exchanged(j, true));
    HappenedNext(front, step, Answered(j, Tokens));
  }

  /** A job comes to need a grant only by the step that tells of it. */
  lemma StepGrants(s: System, step: Step, j: nat, fate: Option<Outcome>, callback: bool)
    requires Enabled(s, step) && j < |s.jobs| && PhaseTells(s.jobs[j].phase, fate, callback)
    requires j < |Apply(s, step).jobs| && NeedsGrant(Apply(s, step).jobs[j].phase)
    ensures NeedsGrant(s.jobs[j].phase) || (if callback then step == Exchanged(j, true) else step == Answered(j, Tokens))
  {
    hide Swept, Peeked, Consume, Decided, Created;
  }

  lemma NewNeedsNone(s: System, step: Step, j: nat)
    requires Enabled(s, step) && |s.jobs| <= j < |Apply(s, step).jobs|
    ensures !NeedsGrant(Apply(s, step).jobs[j].phase)
  {
    hide Swept, Peeked, Consume, Decided, Created;
  }

  lemma StepWrites(s: System, step: Step, i: nat)
    requires Enabled(s, step) && i < |Apply(s, step).writes|
    ensures i < |s.writes| ==> Apply(s, step).writes[i] == s.writes[i]
    ensures i >= |s.writes| ==> Apply(s, step).writes[i].job < |s.jobs| && s.jobs[Apply(s, step).writes[i].job].phase.Storing?
  {
    hide Swept, Peeked, Consume, Decided, Created;
  }

  lemma GrantsStayTold(front: seq<Step>, step: Step)
    requires GrantsTold(front) && JobsTold(front)
    ensures GrantsTold(front + [step])
  {
    hide After, Happened, IsCallback, Apply, Enabled, Granted, Fate, PhaseTells;
    var s, steps := After(front), front + [step];
    var t := After(steps);
    FateNext(front, step, 0);
    if Enabled(s, step) { JobsOnlyGrow(s, step); }
    forall j | 0 <= j < |t.jobs| && NeedsGrant(t.jobs[j].phase) ensures Granted(steps, j)
    {
      FateNext(front, step, j);
      if !Enabled(s, step) {
        GrantedStays(front, step, j);
      } else if j >= |s.jobs| {
        NewNeedsNone(s, step, j);
      } else {
        OpenedOnce(front, step, j);
        StepGrants(s, step, j, Fate(front, j), IsCallback(front, j));
        if NeedsGrant(s.jobs[j].phase) { GrantedStays(front, step, j); } else { GrantedNow(front, step, j); }
      }
    }
    forall i | 0 <= i < |t.writes| ensures t.writes[i].job < |t.jobs| && Granted(steps, t.writes[i].job)
    {
      if Enabled(s, step) { StepWrites(s, step, i); }
      GrantedStays(front, step, t.writes[i].job);
    }
  }

  lemma OpenedOnce(front: seq<Step>, step: Step, j: nat)
    requires j < |After(front).jobs|
    ensures IsCallback(front + [step], j) <==> IsCallback(front, j)
  {
    hide After, IsCallback;
    FateNext(front, step, j);
  }

  lemma GrantedNow(front: seq<Step>, step: Step, j: nat)
    requires Enabled(After(front), step) && j < |After(front).jobs|
    requires if IsCallback(front, j) then step == Exchanged(j, true) else step == Answered(j, Tokens)
    ensures Granted(front + [step], j)
  {
    hide After, Happened, IsCallback, Enabled;
    OpenedOnce(front, step, j);
    HappenedNext(front, step, Exchanged(j, true));
    HappenedNext(front, step, Answered(j, Tokens));
  }

  lemma {:induction false} RunsAreGranted(steps: seq<Step>)
    ensures GrantsTold(steps)
  {
    hide After, GrantsTold, JobsTold;
    if steps == [] {
      NoGrants();
    } else {
      var front, step := steps[..|steps| - 1], steps[|steps| - 1];
      assert steps == front + [step];
      RunsAreGranted(front);
      RunsAreTold(front);
      GrantsStayTold(front, step);
    }
  }

  lemma NoGrants()
    ensures GrantsTold([])
  {
  }

  /** Over every interleaving, whatever reached storage had been granted by the provider to the job that wrote it. */
  lemma OnlyGrantsAreStored(steps: seq<Step>, i: nat)
    requires i < |After(steps).writes|
    ensures Granted(steps, After(steps).writes[i].job)
  {
    hide After, Granted;
    RunsAreGranted(steps);
  }

  /** When a job decides, its attempt is settled there and then, with the outcome its steps told. */
  lemma DecidingSettles(steps: seq<Step>, j: nat)
    requires Enabled(After(steps), Decide(j))
    ensures var state, t := After(steps).jobs[j].state, After(steps + [Decide(j)]);
      state in t.entries && t.entries[state].Terminal? && Some(t.entries[state].outcome) == Fate(steps, j)
  {
    hide After, Fate, IsCallback, Tells, WritesUnique, SuccessIsWritten;
    RunsAreTold(steps);
    RunsStayValid(steps);
    FateNext(steps, Decide(j), j);
    assert PhaseTells(After(steps).jobs[j].phase, Fate(steps, j), IsCallback(steps, j));
  }
}
