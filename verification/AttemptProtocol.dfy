/**
 * Polls, callbacks, sweeps and the clock interleaving over one attempt store
 * (packages/claxedo-connections/src/service.ts:295-331 and 446-488).
 *
 * Every `await` is a point where others may step. A job is one poll or one callback. Polls of one attempt are not assumed to be
 * serialized, so what is proved holds with or without that. A provider's answer may be anything.
 */
module AttemptProtocol {
  import opened Text
  import opened Attempts

  /** What the winner of an attempt has decided: its grant is stored, it failed, or the provider says it lapsed. */
  datatype Verdict = Succeed | Refuse | Lapse

  datatype Phase =
    | Polling                    // before `peek`
    | Asking                     // peeked; the provider has been asked
    | Declined(lapsed: bool)     // the provider refused or expired the grant; before `consume`
    | Granted                    // the provider granted; before `consume`
    | CalledBack                 // a callback; before `consume`
    | Exchanging                 // consumed; the code is being exchanged for tokens
    | Storing                    // consumed; before the grant is written
    | Written                    // consumed; the grant is written, the rest of storing under way
    | Deciding(verdict: Verdict) // consumed; before `settle` or `expire`
    | Finished

  datatype Job = Job(state: StateId, phase: Phase)

  /** A write of an attempt's grant by a job. */
  datatype Write = Write(state: StateId, job: nat)

  datatype Decision = Decision(job: nat, verdict: Verdict)

  /** `winners`, `writes` and `decisions` only record what happened; `used` are the states ever created. */
  datatype System = System(entries: Entries, clock: int, jobs: seq<Job>, used: set<StateId>,
                           winners: map<StateId, nat>, writes: seq<Write>, decisions: map<StateId, Decision>)

  datatype Answer = StillPending | Failed | Denied | Expired | Tokens

  datatype Step =
    | Tick(millis: nat)
    | Sweep
    | Create(state: StateId, input: Input, verifier: string)
    | Poll(state: StateId)
    | Callback(state: StateId)
    | Peek(job: nat, later: nat)
    | Answered(job: nat, answer: Answer)
    | Consuming(job: nat, later: nat, usable: bool)
    | Exchanged(job: nat, ok: bool)
    | StoreCredential(job: nat, ok: bool)
    | StoreRow(job: nat, ok: bool)
    | Decide(job: nat)

  const RETENTION: int := 5 * 60_000
  const TTL: int := 10 * 60_000

  const INIT := System(map[], 0, [], {}, map[], [], map[])

  predicate At(s: System, j: nat, phase: Phase) {
    j < |s.jobs| && s.jobs[j].phase == phase
  }

  predicate BeforeConsume(p: Phase) {
    p.Declined? || p.Granted? || p.CalledBack?
  }

  /** The phases only the winner of `consume` reaches. */
  predicate Won(p: Phase) {
    p.Exchanging? || p.Storing? || p.Written? || p.Deciding?
  }

  predicate Enabled(s: System, step: Step) {
    match step
    case Tick(_) => true
    case Sweep => true
    case Create(state, _, _) => state !in s.used
    case Poll(_) => true
    case Callback(_) => true
    case Peek(j, _) => At(s, j, Polling)
    case Answered(j, _) => At(s, j, Asking)
    case Consuming(j, _, _) => j < |s.jobs| && BeforeConsume(s.jobs[j].phase)
    case Exchanged(j, _) => At(s, j, Exchanging)
    case StoreCredential(j, _) => At(s, j, Storing)
    case StoreRow(j, _) => At(s, j, Written)
    case Decide(j) => j < |s.jobs| && s.jobs[j].phase.Deciding?
  }

  function Move(s: System, j: nat, phase: Phase): System
    requires j < |s.jobs|
  {
    s.(jobs := s.jobs[j := s.jobs[j].(phase := phase)])
  }

  function AfterAnswer(answer: Answer): Phase {
    match answer
    case StillPending => Finished
    case Failed => Finished
    case Denied => Declined(false)
    case Expired => Declined(true)
    case Tokens => Granted
  }

  /** Where the winner of `consume` goes; a callback without a usable code is refused. */
  function AfterWin(p: Phase, usable: bool): Phase
    requires BeforeConsume(p)
  {
    match p
    case Declined(lapsed) => Deciding(if lapsed then Lapse else Refuse)
    case Granted => Storing
    case CalledBack => if usable then Exchanging else Deciding(Refuse)
  }

  function OutcomeOf(v: Verdict): Outcome {
    match v
    case Succeed => Complete
    case Refuse => Outcome.Failed
    case Lapse => Outcome.Expired
  }

  function Apply(s: System, step: Step): System
    requires Enabled(s, step)
  {
    match step
    case Tick(millis) => s.(clock := s.clock + millis)
    case Sweep => s.(entries := Swept(s.entries, s.clock, RETENTION))
    case Create(state, input, verifier) =>
      s.(entries := Created(s.entries, state, input, verifier, s.clock, TTL), used := s.used + {state})
    case Poll(state) => s.(jobs := s.jobs + [Job(state, Polling)])
    case Callback(state) => s.(jobs := s.jobs + [Job(state, CalledBack)])
    case Peek(j, later) =>
      var r := Peeked(s.entries, s.jobs[j].state, s.clock, s.clock + later, RETENTION);
      Move(s.(entries := r.0, clock := s.clock + later), j, if r.1.Some? then Asking else Finished)
    case Answered(j, answer) => Move(s, j, AfterAnswer(answer))
    case Consuming(j, later, usable) =>
      var state := s.jobs[j].state;
      var r := Consume(s.entries, state, s.clock, s.clock + later, RETENTION);
      var t := s.(entries := r.0, clock := s.clock + later);
      if r.1.None? then Move(t, j, Finished)
      else Move(t.(winners := s.winners[state := j]), j, AfterWin(s.jobs[j].phase, usable))
    case Exchanged(j, ok) => Move(s, j, if ok then Storing else Deciding(Refuse))
    case StoreCredential(j, ok) =>
      if ok then Move(s.(writes := s.writes + [Write(s.jobs[j].state, j)]), j, Written) else Move(s, j, Deciding(Refuse))
    case StoreRow(j, ok) => Move(s, j, Deciding(if ok then Succeed else Refuse))
    case Decide(j) =>
      var state, verdict := s.jobs[j].state, s.jobs[j].phase.verdict;
      Move(s.(entries := Decided(s.entries, state, OutcomeOf(verdict), None, s.clock, RETENTION),
              decisions := s.decisions[state := Decision(j, verdict)]), j, Finished)
  }

  // ---------------------------------------------------------------- the invariant

  /** A job past `consume` is the recorded winner of an attempt still marked completing and not decided. */
  ghost predicate WinnersWork(s: System) {
    forall j :: 0 <= j < |s.jobs| && Won(s.jobs[j].phase) ==>
      var state := s.jobs[j].state;
      && state in s.winners && s.winners[state] == j && state !in s.decisions
      && state in s.entries && s.entries[state].Pending? && s.entries[state].completing
  }

  /** Who has won: an existing job, working or done deciding; and every created state that was won is used. */
  ghost predicate WinnersKnown(s: System) {
    && s.winners.Keys <= s.used && s.entries.Keys <= s.used
    && forall state :: state in s.winners ==>
         var j := s.winners[state];
         j < |s.jobs| && s.jobs[j].state == state && (state in s.decisions || Won(s.jobs[j].phase))
  }

  /** An entry is marked completing exactly while its winner works on it. */
  ghost predicate EntriesAgree(s: System) {
    forall state :: state in s.entries && s.entries[state].Pending? ==>
      (s.entries[state].completing <==> state in s.winners) && state !in s.decisions
  }

  /** A decision is the winner's, and the entry, while it is kept, shows that decision. */
  ghost predicate DecisionsStand(s: System) {
    forall state :: state in s.decisions ==>
      && state in s.winners && s.decisions[state].job == s.winners[state]
      && (state in s.entries ==> s.entries[state].Terminal? && s.entries[state].outcome == OutcomeOf(s.decisions[state].verdict))
  }

  /** Each write is the winner's, no attempt's grant is written twice, and only a written grant succeeds. */
  ghost predicate WritesUnique(s: System) {
    && (forall i :: 0 <= i < |s.writes| ==> s.writes[i].state in s.winners && s.winners[s.writes[i].state] == s.writes[i].job)
    && (forall i, k :: 0 <= i < k < |s.writes| ==> s.writes[i].state != s.writes[k].state)
    && (forall i, j :: 0 <= i < |s.writes| && 0 <= j < |s.jobs| && s.jobs[j].state == s.writes[i].state && Won(s.jobs[j].phase) ==>
          s.jobs[j].phase.Written? || s.jobs[j].phase.Deciding?)
  }

  ghost predicate IsWritten(s: System, state: StateId) {
    exists i :: 0 <= i < |s.writes| && s.writes[i].state == state
  }

  ghost predicate SuccessIsWritten(s: System) {
    && (forall j :: 0 <= j < |s.jobs| && (s.jobs[j].phase.Written? || s.jobs[j].phase == Deciding(Succeed)) ==> IsWritten(s, s.jobs[j].state))
    && (forall state :: state in s.decisions && s.decisions[state].verdict.Succeed? ==> IsWritten(s, state))
  }

  ghost predicate Valid(s: System) {
    WinnersWork(s) && WinnersKnown(s) && EntriesAgree(s) && DecisionsStand(s) && WritesUnique(s) && SuccessIsWritten(s)
  }

  /** No taken entry is touched, and a settled one is at most removed, not before its time. */
  ghost predicate EntriesOnlyLapse(before: Entries, after: Entries, now: int) {
    && (forall state :: state in after ==> state in before)
    && (forall state :: state in before && before[state].Pending? && before[state].completing ==> state in after && after[state] == before[state])
    && (forall state :: state in before && before[state].Pending? && !before[state].completing ==>
          state in after && (after[state] == before[state] || (after[state].Terminal? && after[state].outcome == Outcome.Expired)))
    && (forall state :: state in before && before[state].Terminal? ==>
          if state in after then after[state] == before[state] else before[state].removeAt <= now)
  }

  lemma LapseKeepsValid(s: System, entries: Entries)
    requires Valid(s) && EntriesOnlyLapse(s.entries, entries, s.clock)
    ensures Valid(s.(entries := entries))
  {
    hide WritesUnique, SuccessIsWritten;
    var t := s.(entries := entries);
    assert WritesUnique(t) by { SameWrites(s, t); }
    assert SuccessIsWritten(t) by { SameWrites(s, t); }
  }

  lemma SameWrites(s: System, t: System)
    requires WritesUnique(s) && SuccessIsWritten(s) && t.jobs == s.jobs && t.writes == s.writes && t.winners == s.winners && t.decisions == s.decisions
    ensures WritesUnique(t) && SuccessIsWritten(t)
  {
    hide Won;
    forall state | IsWritten(s, state) ensures IsWritten(t, state) {
      var i :| 0 <= i < |s.writes| && s.writes[i].state == state;
      assert t.writes[i].state == state;
    }
  }

  // ---------------------------------------------------------------- each step keeps it

  lemma ClockIsFree(s: System, clock: int)
    requires Valid(s)
    ensures Valid(s.(clock := clock))
  {
    hide WritesUnique, SuccessIsWritten;
    SameWrites(s, s.(clock := clock));
  }

  lemma SweptOnlyLapses(m: Entries, now: int)
    ensures EntriesOnlyLapse(m, Swept(m, now, RETENTION), now)
  {
  }

  lemma PeekedOnlyLapses(m: Entries, state: StateId, seen: int, stamp: int)
    ensures EntriesOnlyLapse(m, Peeked(m, state, seen, stamp, RETENTION).0, seen)
  {
  }

  lemma LostConsumeOnlyLapses(m: Entries, state: StateId, seen: int, stamp: int)
    requires Consume(m, state, seen, stamp, RETENTION).1.None?
    ensures EntriesOnlyLapse(m, Consume(m, state, seen, stamp, RETENTION).0, seen)
  {
  }

  lemma CreateKeepsValid(s: System, state: StateId, input: Input, verifier: string)
    requires Valid(s) && state !in s.used
    ensures Valid(Apply(s, Create(state, input, verifier)))
  {
    hide WritesUnique, SuccessIsWritten;
    var t := Apply(s, Create(state, input, verifier));
    SameWrites(s, t);
    assert state !in s.entries.Keys && state !in s.winners.Keys;
  }

  lemma JobAdded(s: System, job: Job)
    requires Valid(s) && !Won(job.phase)
    ensures Valid(s.(jobs := s.jobs + [job]))
  {
    hide EntriesAgree, DecisionsStand;
    var t := s.(jobs := s.jobs + [job]);
    AddedSame(s, t);
    forall state | IsWritten(s, state) ensures IsWritten(t, state) {
      var i :| 0 <= i < |s.writes| && s.writes[i].state == state;
      assert t.writes[i].state == state;
    }
  }

  lemma AddedSame(s: System, t: System)
    requires EntriesAgree(s) && DecisionsStand(s) && t.entries == s.entries && t.winners == s.winners && t.decisions == s.decisions
    ensures EntriesAgree(t) && DecisionsStand(t)
  {
  }

  lemma StillWritten(s: System, t: System)
    requires s.writes <= t.writes
    ensures forall state :: IsWritten(s, state) ==> IsWritten(t, state)
  {
    forall state | IsWritten(s, state) ensures IsWritten(t, state) {
      var i :| 0 <= i < |s.writes| && s.writes[i].state == state;
      assert t.writes[i].state == state;
    }
  }

  /** A job that has not won moves on without winning. */
  lemma MoveIdle(s: System, j: nat, phase: Phase)
    requires Valid(s) && j < |s.jobs| && !Won(s.jobs[j].phase) && !Won(phase)
    ensures Valid(Move(s, j, phase))
  {
    hide EntriesAgree, DecisionsStand, IsWritten;
    var t := Move(s, j, phase);
    AddedSame(s, t);
    StillWritten(s, t);
  }

  /** The winner moves on: it may write once, and succeeds only after writing. */
  lemma MoveWinner(s: System, j: nat, phase: Phase)
    requires Valid(s) && j < |s.jobs| && Won(s.jobs[j].phase) && Won(phase)
    requires IsWritten(s, s.jobs[j].state) ==> phase.Written? || phase.Deciding?
    requires phase.Written? || phase == Deciding(Succeed) ==> IsWritten(s, s.jobs[j].state)
    ensures Valid(Move(s, j, phase))
  {
    hide EntriesAgree, DecisionsStand;
    var t := Move(s, j, phase);
    AddedSame(s, t);
    StillWritten(s, t);
    forall i | 0 <= i < |s.writes| && s.writes[i].state == s.jobs[j].state ensures IsWritten(s, s.jobs[j].state) {}
  }

  lemma NotWrittenYet(s: System, j: nat)
    requires Valid(s) && j < |s.jobs| && (s.jobs[j].phase.Exchanging? || s.jobs[j].phase.Storing?)
    ensures !IsWritten(s, s.jobs[j].state)
  {
    hide EntriesAgree, DecisionsStand, WinnersKnown, WinnersWork, SuccessIsWritten;
  }

  lemma WinKeepsValid(s: System, j: nat, later: nat, usable: bool)
    requires Valid(s) && j < |s.jobs| && BeforeConsume(s.jobs[j].phase)
    requires Consume(s.entries, s.jobs[j].state, s.clock, s.clock + later, RETENTION).1.Some?
    ensures Valid(Apply(s, Consuming(j, later, usable)))
  {
    var t := Apply(s, Consuming(j, later, usable));
    var state := s.jobs[j].state;
    assert state !in s.winners && state !in s.decisions;
    WinKeepsWinners(s, j, later, usable);
    WinKeepsWrites(s, j, later, usable);
  }

  lemma WinKeepsWinners(s: System, j: nat, later: nat, usable: bool)
    requires Valid(s) && j < |s.jobs| && BeforeConsume(s.jobs[j].phase)
    requires Consume(s.entries, s.jobs[j].state, s.clock, s.clock + later, RETENTION).1.Some?
    ensures var t := Apply(s, Consuming(j, later, usable)); WinnersWork(t) && WinnersKnown(t) && EntriesAgree(t) && DecisionsStand(t)
  {
    hide WritesUnique, SuccessIsWritten;
    var state := s.jobs[j].state;
    assert state !in s.winners && state !in s.decisions && state in s.entries.Keys;
  }

  lemma WinKeepsWrites(s: System, j: nat, later: nat, usable: bool)
    requires Valid(s) && j < |s.jobs| && BeforeConsume(s.jobs[j].phase)
    requires Consume(s.entries, s.jobs[j].state, s.clock, s.clock + later, RETENTION).1.Some?
    ensures var t := Apply(s, Consuming(j, later, usable)); WritesUnique(t) && SuccessIsWritten(t)
  {
    hide WinnersKnown, DecisionsStand;
    var t := Apply(s, Consuming(j, later, usable));
    var state := s.jobs[j].state;
    assert state !in s.winners;
    StillWritten(s, t);
  }

  lemma StoreCredentialKeepsValid(s: System, j: nat)
    requires Valid(s) && At(s, j, Storing)
    ensures Valid(Apply(s, StoreCredential(j, true)))
  {
    hide EntriesAgree, DecisionsStand;
    NotWrittenYet(s, j);
    var t := Apply(s, StoreCredential(j, true));
    AddedSame(s, t);
    StillWritten(s, t);
    assert t.writes[|s.writes|].state == s.jobs[j].state;
    StoreCredentialWrites(s, j);
  }

  lemma StoreCredentialWrites(s: System, j: nat)
    requires Valid(s) && At(s, j, Storing) && !IsWritten(s, s.jobs[j].state)
    ensures WritesUnique(Apply(s, StoreCredential(j, true)))
  {
    hide EntriesAgree, DecisionsStand, WinnersKnown, SuccessIsWritten;
    var t := Apply(s, StoreCredential(j, true));
    var n, state := |s.writes|, s.jobs[j].state;
    forall i, k | 0 <= i < |t.writes| && 0 <= k < |t.jobs| && t.jobs[k].state == t.writes[i].state && Won(t.jobs[k].phase)
      ensures t.jobs[k].phase.Written? || t.jobs[k].phase.Deciding?
    {
      if i == n {
        assert k == j;
      } else {
        assert s.writes[i].state != state;
      }
    }
  }

  lemma DecideKeepsValid(s: System, j: nat)
    requires Valid(s) && j < |s.jobs| && s.jobs[j].phase.Deciding?
    ensures Valid(Apply(s, Decide(j)))
  {
    hide WritesUnique, SuccessIsWritten;
    DecideKeepsWrites(s, j);
    DecideKeepsWinners(s, j);
  }

  lemma DecideKeepsWinners(s: System, j: nat)
    requires Valid(s) && j < |s.jobs| && s.jobs[j].phase.Deciding?
    ensures var t := Apply(s, Decide(j)); WinnersWork(t) && WinnersKnown(t) && EntriesAgree(t) && DecisionsStand(t)
  {
    hide WritesUnique, SuccessIsWritten;
    var state := s.jobs[j].state;
    assert s.winners[state] == j;
  }

  lemma DecideKeepsWrites(s: System, j: nat)
    requires Valid(s) && j < |s.jobs| && s.jobs[j].phase.Deciding?
    ensures var t := Apply(s, Decide(j)); WritesUnique(t) && SuccessIsWritten(t)
  {
    hide WinnersWork, WinnersKnown, EntriesAgree, DecisionsStand, IsWritten;
    StillWritten(s, Apply(s, Decide(j)));
  }

  lemma StepKeepsValid(s: System, step: Step)
    requires Valid(s) && Enabled(s, step)
    ensures Valid(Apply(s, step))
  {
    hide Valid, Swept, Peeked, Consume, Decided, Created, EntriesOnlyLapse, IsWritten;
    match step {
      case Tick(millis) => ClockIsFree(s, s.clock + millis);
      case Sweep =>
        SweptOnlyLapses(s.entries, s.clock);
        LapseKeepsValid(s, Swept(s.entries, s.clock, RETENTION));
      case Create(state, input, verifier) => CreateKeepsValid(s, state, input, verifier);
      case Poll(state) => JobAdded(s, Job(state, Polling));
      case Callback(state) => JobAdded(s, Job(state, CalledBack));
      case Peek(j, later) =>
        PeekedOnlyLapses(s.entries, s.jobs[j].state, s.clock, s.clock + later);
        LapsedMove(s, Peeked(s.entries, s.jobs[j].state, s.clock, s.clock + later, RETENTION).0, s.clock + later, j, Asking);
        LapsedMove(s, Peeked(s.entries, s.jobs[j].state, s.clock, s.clock + later, RETENTION).0, s.clock + later, j, Finished);
      case Answered(j, answer) => MoveIdle(s, j, AfterAnswer(answer));
      case Consuming(j, later, usable) =>
        var r := Consume(s.entries, s.jobs[j].state, s.clock, s.clock + later, RETENTION);
        if r.1.None? {
          LostConsumeOnlyLapses(s.entries, s.jobs[j].state, s.clock, s.clock + later);
          LapsedMove(s, r.0, s.clock + later, j, Finished);
        } else {
          WinKeepsValid(s, j, later, usable);
        }
      case Exchanged(j, ok) =>
        NotWrittenYet(s, j);
        MoveWinner(s, j, if ok then Storing else Deciding(Refuse));
      case StoreCredential(j, ok) =>
        if ok { StoreCredentialKeepsValid(s, j); } else { MoveWinner(s, j, Deciding(Refuse)); }
      case StoreRow(j, ok) =>
        WrittenIsWritten(s, j);
        MoveWinner(s, j, Deciding(if ok then Succeed else Refuse));
      case Decide(j) => DecideKeepsValid(s, j);
    }
  }

  lemma WrittenIsWritten(s: System, j: nat)
    requires Valid(s) && At(s, j, Written)
    ensures IsWritten(s, s.jobs[j].state)
  {
    hide IsWritten, WinnersWork, WinnersKnown, EntriesAgree, DecisionsStand, WritesUnique;
  }

  lemma LapsedMove(s: System, entries: Entries, clock: int, j: nat, phase: Phase)
    requires Valid(s) && EntriesOnlyLapse(s.entries, entries, s.clock)
    requires j < |s.jobs| && !Won(s.jobs[j].phase) && !Won(phase)
    ensures Valid(Move(s.(entries := entries, clock := clock), j, phase))
  {
    hide Valid, EntriesOnlyLapse;
    LapseKeepsValid(s, entries);
    ClockIsFree(s.(entries := entries), clock);
    MoveIdle(s.(entries := entries, clock := clock), j, phase);
  }

  // ---------------------------------------------------------------- whole runs

  /** The state after some steps; a step that is not enabled does not happen. */
  ghost function After(steps: seq<Step>): System {
    if steps == [] then INIT
    else
      var s, step := After(steps[..|steps| - 1]), steps[|steps| - 1];
      if Enabled(s, step) then Apply(s, step) else s
  }

  lemma InitIsValid()
    ensures Valid(INIT)
  {
  }

  lemma {:induction false} RunsStayValid(steps: seq<Step>)
    ensures Valid(After(steps))
  {
    hide Valid, Enabled, Apply;
    if steps == [] {
      InitIsValid();
    } else {
      var front := steps[..|steps| - 1];
      RunsStayValid(front);
      if Enabled(After(front), steps[|steps| - 1]) {
        StepKeepsValid(After(front), steps[|steps| - 1]);
      }
    }
  }

  /**
   * Over every interleaving: an attempt's grant reaches storage at most once, and only from the job that won `consume`; a consumed
   * attempt's outcome is the one its winner decided; and it reads complete only if its grant was written.
   */
  lemma AttemptRuns(steps: seq<Step>)
    ensures var s := After(steps);
      && (forall i, k :: 0 <= i < k < |s.writes| ==> s.writes[i].state != s.writes[k].state)
      && (forall i :: 0 <= i < |s.writes| ==> s.writes[i].state in s.winners && s.winners[s.writes[i].state] == s.writes[i].job)
      && (forall state :: state in s.winners && state in s.entries && s.entries[state].Terminal? ==>
            && state in s.decisions && s.decisions[state].job == s.winners[state]
            && s.entries[state].outcome == OutcomeOf(s.decisions[state].verdict))
      && (forall state :: state in s.winners && state in s.entries && s.entries[state].Terminal? && s.entries[state].outcome.Complete? ==>
            IsWritten(s, state))
  {
    hide After, IsWritten;
    RunsStayValid(steps);
    var s := After(steps);
    forall state | state in s.winners && state in s.entries && s.entries[state].Terminal? ensures state in s.decisions
    {
      var j := s.winners[state];
      assert j < |s.jobs| && s.jobs[j].state == state;
    }
  }

  /** What a settled entry may become: itself, or nothing once its retention has passed. */
  ghost predicate Kept(before: System, after: System, state: StateId) {
    && before.clock <= after.clock && before.used <= after.used
    && (state in before.entries && before.entries[state].Terminal? ==>
          if state in after.entries then after.entries[state] == before.entries[state]
          else before.entries[state].removeAt <= after.clock)
    && (state in before.used && state !in before.entries ==> state !in after.entries)
  }

  lemma EntriesAreUsed(s: System, state: StateId)
    requires Valid(s) && state in s.entries
    ensures state in s.used
  {
    assert state in s.entries.Keys;
  }

  lemma StepKeeps(s: System, step: Step, state: StateId)
    requires Valid(s) && Enabled(s, step)
    ensures Kept(s, Apply(s, step), state)
  {
    hide WritesUnique, SuccessIsWritten, EntriesAgree, DecisionsStand, WinnersWork;
    assert state in s.entries ==> state in s.entries.Keys;
  }

  /** A terminal status never changes until a sweep at or after its retention time removes it, and then the attempt stays gone. */
  lemma {:induction false} TerminalIsFinal(steps: seq<Step>, more: seq<Step>, state: StateId)
    ensures Kept(After(steps), After(steps + more), state)
    decreases |more|
  {
    hide Valid, Enabled, Apply;
    if more == [] {
      assert steps + more == steps;
    } else {
      var front, step := more[..|more| - 1], more[|more| - 1];
      TerminalIsFinal(steps, front, state);
      assert (steps + more)[..|steps + more| - 1] == steps + front;
      RunsStayValid(steps + front);
      RunsStayValid(steps);
      if state in After(steps).entries { EntriesAreUsed(After(steps), state); }
      if Enabled(After(steps + front), step) {
        StepKeeps(After(steps + front), step, state);
      }
    }
  }
}
