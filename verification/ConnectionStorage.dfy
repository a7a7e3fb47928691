/**
 * Storing connections in two ports that share no transaction (packages/claxedo-connections/src/service.ts:136-179 and 346-371,
 * with the store contract of packages/claxedo-connections/src/types.ts:221-246).
 *
 * Every `await` is a point where other runs may step, and a run that crashed is one that takes no further step. Ids are numbered;
 * a new id is one never handed out before. Nothing is removed.
 */
module ConnectionStorage {
  import opened Text

  type Id = nat

  /** At most one connection exists for each. */
  datatype Partition = Partition(integration: string, owner: Option<string>)

  datatype Row = Row(partition: Partition, fields: string, createdAt: int, updatedAt: int)

  /** The id a run settled on: none yet, a new one, or that of the row it found. */
  datatype Target = Unset | New(id: Id) | Existing(id: Id, createdAt: int)

  datatype Phase =
    | Checking    // `connect`, before it looks for an existing row
    | Verifying   // `connect`, waiting for the provider
    | Finding     // `storeConnection`, before it looks for an existing row
    | Putting     // before the credential is put
    | Confirming  // before the credential is read back
    | Upserting   // before the row is written
    | Stored
    | Refused     // as a duplicate
    | Failed      // any other error

  datatype Run = Run(partition: Partition, fields: string, secret: string, confirmReplace: bool, phase: Phase, target: Target)

  datatype System = System(rows: map<Id, Row>, credentials: map<Id, string>, runs: seq<Run>, issued: set<Id>)

  /**
   * `accepted`, `throws`, `kept`: what the provider or a port does. A port may throw after having written; a credential put without
   * throwing may yet not be kept, which is why it is read back, while a row upserted without throwing is.
   */
  datatype Step =
    | Connect(partition: Partition, fields: string, secret: string, confirmReplace: bool)
    | Store(partition: Partition, fields: string, secret: string)
    | Check(run: nat)
    | Verify(run: nat, accepted: bool)
    | Find(run: nat, newId: Id)
    | Put(run: nat, kept: bool, throws: bool)
    | Confirm(run: nat)
    | Upsert(run: nat, now: int, kept: bool, throws: bool)

  const INIT := System(map[], map[], [], {})

  predicate Holds(rows: map<Id, Row>, partition: Partition) {
    exists id :: id in rows && rows[id].partition == partition
  }

  ghost function HolderOf(rows: map<Id, Row>, partition: Partition): Id
    requires Holds(rows, partition)
    ensures HolderOf(rows, partition) in rows && rows[HolderOf(rows, partition)].partition == partition
  {
    var id :| id in rows && rows[id].partition == partition;
    id
  }

  predicate At(s: System, r: nat, phase: Phase) {
    r < |s.runs| && s.runs[r].phase == phase
  }

  predicate Enabled(s: System, step: Step) {
    match step
    case Connect(_, _, _, _) => true
    case Store(_, _, _) => true
    case Check(r) => At(s, r, Checking)
    case Verify(r, _) => At(s, r, Verifying)
    case Find(r, newId) => At(s, r, Finding) && newId !in s.issued
    case Put(r, _, _) => At(s, r, Putting) && !s.runs[r].target.Unset?
    case Confirm(r) => At(s, r, Confirming) && !s.runs[r].target.Unset?
    case Upsert(r, _, _, _) => At(s, r, Upserting) && !s.runs[r].target.Unset?
  }

  function Move(s: System, r: nat, phase: Phase): System
    requires r < |s.runs|
  {
    s.(runs := s.runs[r := s.runs[r].(phase := phase)])
  }

  /** `upsert` refuses a row whose partition another id already holds. */
  predicate HeldByAnother(rows: map<Id, Row>, partition: Partition, id: Id) {
    exists other :: other in rows && rows[other].partition == partition && other != id
  }

  /** The run's row is in the store, whatever the caller is told. */
  function Written(s: System, r: nat, now: int, phase: Phase): System
    requires r < |s.runs| && !s.runs[r].target.Unset?
  {
    var run := s.runs[r];
    var createdAt := if run.target.Existing? then run.target.createdAt else now;
    Move(s.(rows := s.rows[run.target.id := Row(run.partition, run.fields, createdAt, now)]), r, phase)
  }

  ghost function Apply(s: System, step: Step): System
    requires Enabled(s, step)
  {
    match step
    case Connect(partition, fields, secret, confirm) => s.(runs := s.runs + [Run(partition, fields, secret, confirm, Checking, Unset)])
    case Store(partition, fields, secret) => s.(runs := s.runs + [Run(partition, fields, secret, true, Finding, Unset)])
    case Check(r) => Move(s, r, if Holds(s.rows, s.runs[r].partition) && !s.runs[r].confirmReplace then Refused else Verifying)
    case Verify(r, accepted) => Move(s, r, if accepted then Finding else Failed)
    case Find(r, newId) =>
      var run := s.runs[r];
      if Holds(s.rows, run.partition) then
        var id := HolderOf(s.rows, run.partition);
        s.(runs := s.runs[r := run.(phase := Putting, target := Existing(id, s.rows[id].createdAt))])
      else
        s.(runs := s.runs[r := run.(phase := Putting, target := New(newId))], issued := s.issued + {newId})
    case Put(r, kept, throws) =>
      var t := Move(s, r, if throws then Failed else Confirming);
      if kept then t.(credentials := s.credentials[s.runs[r].target.id := s.runs[r].secret]) else t
    case Confirm(r) => Move(s, r, if s.runs[r].target.id in s.credentials then Upserting else Failed)
    case Upsert(r, now, kept, throws) =>
      var run := s.runs[r];
      if HeldByAnother(s.rows, run.partition, run.target.id) then Move(s, r, Refused)
      else if throws && !kept then Move(s, r, Failed)
      else Written(s, r, now, if throws then Failed else Stored)
  }

  // ---------------------------------------------------------------- the invariant

  predicate MayHaveWritten(p: Phase) {
    p == Stored || p == Failed
  }

  ghost predicate OneRowEach(rows: map<Id, Row>) {
    forall a, b :: a in rows && b in rows && rows[a].partition == rows[b].partition ==> a == b
  }

  /** Each row names a credential that exists. */
  ghost predicate RowsBacked(s: System) {
    s.rows.Keys <= s.credentials.Keys && s.rows.Keys <= s.issued
  }

  /** A new id is no row's until its own run has stored it, or failed storing it; an id that was found is a row of the run's partition, created when it says. */
  ghost predicate TargetsKnown(s: System) {
    && (forall r :: 0 <= r < |s.runs| && s.runs[r].target.New? ==>
          s.runs[r].target.id in s.issued && (!MayHaveWritten(s.runs[r].phase) ==> s.runs[r].target.id !in s.rows))
    && (forall r :: 0 <= r < |s.runs| && s.runs[r].target.Existing? ==>
          && s.runs[r].target.id in s.rows && s.rows[s.runs[r].target.id].partition == s.runs[r].partition
          && s.rows[s.runs[r].target.id].createdAt == s.runs[r].target.createdAt)
  }

  ghost predicate NewIdsDiffer(s: System) {
    forall a, b :: 0 <= a < b < |s.runs| && s.runs[a].target.New? && s.runs[b].target.New? ==> s.runs[a].target.id != s.runs[b].target.id
  }

  ghost predicate PhasesFit(s: System) {
    forall r :: 0 <= r < |s.runs| ==>
      && (s.runs[r].phase == Upserting && !s.runs[r].target.Unset? ==> s.runs[r].target.id in s.credentials)
      && (s.runs[r].phase == Refused ==> !s.runs[r].target.Existing?)
      && (s.runs[r].phase in {Checking, Verifying, Finding} ==> s.runs[r].target.Unset?)
  }

  ghost predicate Valid(s: System) {
    OneRowEach(s.rows) && RowsBacked(s) && TargetsKnown(s) && NewIdsDiffer(s) && PhasesFit(s)
  }

  lemma MoveKeepsValid(s: System, r: nat, phase: Phase)
    requires Valid(s) && r < |s.runs| && !MayHaveWritten(s.runs[r].phase) && phase !in {Stored, Checking}
    requires phase == Upserting && !s.runs[r].target.Unset? ==> s.runs[r].target.id in s.credentials
    requires phase == Refused ==> !s.runs[r].target.Existing?
    requires phase in {Verifying, Finding} ==> s.runs[r].target.Unset?
    ensures Valid(Move(s, r, phase))
  {
  }

  lemma PutKeepsValid(s: System, r: nat, kept: bool, throws: bool)
    requires Valid(s) && Enabled(s, Put(r, kept, throws))
    ensures Valid(Apply(s, Put(r, kept, throws)))
  {
    MoveKeepsValid(s, r, if throws then Failed else Confirming);
  }

  lemma FindKeepsValid(s: System, r: nat, newId: Id)
    requires Valid(s) && Enabled(s, Find(r, newId))
    ensures Valid(Apply(s, Find(r, newId)))
  {
    hide OneRowEach;
    assert newId !in s.rows.Keys;
  }

  /** The run may write its row: it is at its upsert, and no other id holds its partition. */
  ghost predicate MayWrite(s: System, r: nat) {
    At(s, r, Upserting) && !s.runs[r].target.Unset? && !HeldByAnother(s.rows, s.runs[r].partition, s.runs[r].target.id)
  }

  lemma WriteKeepsRows(s: System, r: nat, now: int, phase: Phase)
    requires Valid(s) && MayWrite(s, r)
    ensures var t := Written(s, r, now, phase); OneRowEach(t.rows) && RowsBacked(t)
  {
    hide NewIdsDiffer;
    var id := s.runs[r].target.id;
    assert id in s.credentials;
    assert s.runs[r].target.New? ==> id in s.issued;
    assert s.runs[r].target.Existing? ==> id in s.rows.Keys;
  }

  lemma WriteKeepsTargets(s: System, r: nat, now: int, phase: Phase)
    requires Valid(s) && MayWrite(s, r) && MayHaveWritten(phase)
    ensures var t := Written(s, r, now, phase); TargetsKnown(t) && NewIdsDiffer(t) && PhasesFit(t)
  {
    hide OneRowEach, RowsBacked;
    var id := s.runs[r].target.id;
    forall q | 0 <= q < |s.runs| && q != r && s.runs[q].target.New? && !MayHaveWritten(s.runs[q].phase) ensures s.runs[q].target.id != id
    {
      assert s.runs[r].target.New? ==> s.runs[q].target.id != id;
      assert s.runs[r].target.Existing? ==> id in s.rows;
    }
    forall q | 0 <= q < |s.runs| && s.runs[q].target.Existing? && s.runs[q].target.id == id ensures s.runs[q].partition == s.runs[r].partition
    {
      assert id in s.rows;
    }
  }

  lemma UpsertKeepsValid(s: System, r: nat, now: int, kept: bool, throws: bool)
    requires Valid(s) && Enabled(s, Upsert(r, now, kept, throws))
    ensures Valid(Apply(s, Upsert(r, now, kept, throws)))
  {
    hide OneRowEach, NewIdsDiffer;
    var run := s.runs[r];
    if HeldByAnother(s.rows, run.partition, run.target.id) {
      ExistingIsNotHeld(s, r);
      MoveKeepsValid(s, r, Refused);
    } else if throws && !kept {
      MoveKeepsValid(s, r, Failed);
    } else {
      WriteKeepsRows(s, r, now, if throws then Failed else Stored);
      WriteKeepsTargets(s, r, now, if throws then Failed else Stored);
    }
  }

  /** A run that found its row is never refused. */
  lemma ExistingIsNotHeld(s: System, r: nat)
    requires Valid(s) && r < |s.runs| && !s.runs[r].target.Unset? && HeldByAnother(s.rows, s.runs[r].partition, s.runs[r].target.id)
    ensures s.runs[r].target.New?
  {
  }

  lemma RunAdded(s: System, run: Run)
    requires Valid(s) && run.target.Unset? && run.phase in {Checking, Finding}
    ensures Valid(s.(runs := s.runs + [run]))
  {
  }

  lemma StepKeepsValid(s: System, step: Step)
    requires Valid(s) && Enabled(s, step)
    ensures Valid(Apply(s, step))
  {
    hide OneRowEach, RowsBacked, TargetsKnown, NewIdsDiffer, Holds, HeldByAnother;
    match step
    case Connect(partition, fields, secret, confirm) => RunAdded(s, Run(partition, fields, secret, confirm, Checking, Unset));
    case Store(partition, fields, secret) => RunAdded(s, Run(partition, fields, secret, true, Finding, Unset));
    case Check(r) => MoveKeepsValid(s, r, if Holds(s.rows, s.runs[r].partition) && !s.runs[r].confirmReplace then Refused else Verifying);
    case Verify(r, accepted) => MoveKeepsValid(s, r, if accepted then Finding else Failed);
    case Find(r, newId) => FindKeepsValid(s, r, newId);
    case Put(r, kept, throws) => PutKeepsValid(s, r, kept, throws);
    case Confirm(r) => MoveKeepsValid(s, r, if s.runs[r].target.id in s.credentials then Upserting else Failed);
    case Upsert(r, now, kept, throws) => UpsertKeepsValid(s, r, now, kept, throws);
  }

  // ---------------------------------------------------------------- whole runs

  /** The state after some steps; a step that is not enabled does not happen. */
  ghost function After(steps: seq<Step>): System {
    if steps == [] then INIT
    else
      var s, step := After(steps[..|steps| - 1]), steps[|steps| - 1];
      if Enabled(s, step) then Apply(s, step) else s
  }

  lemma InitIsValid()
    ensures Valid(INIT)
  {
  }

  lemma {:induction false} RunsStayValid(steps: seq<Step>)
    ensures Valid(After(steps))
  {
    hide Valid, Enabled, Apply;
    if steps == [] {
      InitIsValid();
    } else {
      var front := steps[..|steps| - 1];
      RunsStayValid(front);
      if Enabled(After(front), steps[|steps| - 1]) {
        StepKeepsValid(After(front), steps[|steps| - 1]);
      }
    }
  }

  /** At every moment of every interleaving, crashes included: each row's credential exists, and no partition has two rows. */
  lemma StorageRuns(steps: seq<Step>)
    ensures var s := After(steps);
      && (forall id :: id in s.rows ==> id in s.credentials)
      && (forall a, b :: a in s.rows && b in s.rows && s.rows[a].partition == s.rows[b].partition ==> a == b)
  {
    hide After, TargetsKnown, NewIdsDiffer, PhasesFit;
    RunsStayValid(steps);
    var s := After(steps);
    forall id | id in s.rows ensures id in s.credentials { assert id in s.rows.Keys; }
  }

  /** How a run's own record can change: what it was asked stays, and a target, once set, and a final phase stay. */
  ghost predicate RunAdvances(s: System, t: System, r: nat) {
    && r < |s.runs| && r < |t.runs|
    && t.runs[r].partition == s.runs[r].partition && t.runs[r].fields == s.runs[r].fields && t.runs[r].secret == s.runs[r].secret
    && t.runs[r].confirmReplace == s.runs[r].confirmReplace
    && (!s.runs[r].target.Unset? ==> t.runs[r].target == s.runs[r].target)
    && (s.runs[r].phase in {Stored, Refused, Failed} ==> t.runs[r].phase == s.runs[r].phase && t.runs[r].target == s.runs[r].target)
  }

  lemma StepAdvances(s: System, step: Step, r: nat)
    requires Valid(s) && Enabled(s, step) && r < |s.runs|
    ensures RunAdvances(s, Apply(s, step), r)
  {
    hide OneRowEach, RowsBacked, TargetsKnown, NewIdsDiffer, Holds, HeldByAnother;
  }

  lemma {:induction false} RunsAdvance(steps: seq<Step>, more: seq<Step>, r: nat)
    requires r < |After(steps).runs|
    ensures RunAdvances(After(steps), After(steps + more), r)
    decreases |more|
  {
    hide Valid, Enabled, Apply;
    if more == [] {
      assert steps + more == steps;
    } else {
      var front, step := more[..|more| - 1], more[|more| - 1];
      RunsAdvance(steps, front, r);
      assert (steps + more)[..|steps + more| - 1] == steps + front;
      RunsStayValid(steps + front);
      if Enabled(After(steps + front), step) {
        StepAdvances(After(steps + front), step, r);
      }
    }
  }

  predicate IsStepOf(step: Step, r: nat) {
    match step
    case Connect(_, _, _, _) => false
    case Store(_, _, _) => false
    case Check(q) => q == r
    case Verify(q, _) => q == r
    case Find(q, _) => q == r
    case Put(q, _, _) => q == r
    case Confirm(q) => q == r
    case Upsert(q, _, _, _) => q == r
  }

  /** The rows, and the credentials that rows name, are as they were. */
  ghost predicate Harmless(s: System, t: System) {
    && t.rows == s.rows
    && (forall id :: id in s.rows ==> (id in s.credentials <==> id in t.credentials))
    && (forall id :: id in s.rows && id in s.credentials && id in t.credentials ==> t.credentials[id] == s.credentials[id])
  }

  lemma RefusedStepIsHarmless(s: System, step: Step, r: nat)
    requires Valid(s) && Enabled(s, step) && IsStepOf(step, r) && r < |s.runs|
    requires !s.runs[r].target.Existing? && !MayHaveWritten(Apply(s, step).runs[r].phase)
    ensures Harmless(s, Apply(s, step))
  {
    hide OneRowEach, NewIdsDiffer, Holds, HeldByAnother;
  }

  lemma {:induction false} StepOf(steps: seq<Step>, n: nat)
    requires n < |steps|
    ensures After(steps[..n + 1]) == if Enabled(After(steps[..n]), steps[n]) then Apply(After(steps[..n]), steps[n]) else After(steps[..n])
  {
    hide Enabled, Apply;
    assert steps[..n + 1][..n] == steps[..n];
  }

  /** A connect refused as a duplicate, early or by the store, has at no step of its own touched a row or a row's credential. */
  lemma RefusalChangesNothing(steps: seq<Step>, n: nat, r: nat)
    requires n < |steps| && IsStepOf(steps[n], r)
    requires r < |After(steps).runs| && After(steps).runs[r].phase == Refused
    ensures Harmless(After(steps[..n]), After(steps[..n + 1]))
  {
    hide Valid, After, Enabled, Apply, Harmless, IsStepOf;
    var s, t := After(steps[..n]), After(steps[..n + 1]);
    RunsStayValid(steps[..n]);
    StepOf(steps, n);
    if Enabled(s, steps[n]) {
      EnabledStepHasRun(s, steps[n], r);
      StepAdvances(s, steps[n], r) by { RunsStayValid(steps[..n]); }
      assert steps[..n] + steps[n..] == steps && steps[..n + 1] + steps[n + 1..] == steps;
      RunsAdvance(steps[..n], steps[n..], r);
      RunsAdvance(steps[..n + 1], steps[n + 1..], r);
      RunsStayValid(steps);
      RefusedIsNotExisting(After(steps), r);
      RefusedStepIsHarmless(s, steps[n], r);
    } else {
      Unchanged(s);
    }
  }

  lemma Unchanged(s: System)
    ensures Harmless(s, s)
  {
  }

  lemma RefusedIsNotExisting(s: System, r: nat)
    requires Valid(s) && r < |s.runs| && s.runs[r].phase == Refused
    ensures !s.runs[r].target.Existing?
  {
  }

  lemma EnabledStepHasRun(s: System, step: Step, r: nat)
    requires Enabled(s, step) && IsStepOf(step, r)
    ensures r < |s.runs|
  {
  }

  // ---------------------------------------------------------------- what a row says

  /** A row, once there, stays, in its partition and with its time of creation. */
  ghost predicate RowStays(s: System, t: System, id: Id) {
    id in s.rows ==> id in t.rows && t.rows[id].partition == s.rows[id].partition && t.rows[id].createdAt == s.rows[id].createdAt
  }

  lemma StepKeepsRow(s: System, step: Step, id: Id)
    requires Valid(s) && Enabled(s, step)
    ensures RowStays(s, Apply(s, step), id)
  {
    hide OneRowEach, RowsBacked, NewIdsDiffer, Holds, HeldByAnother;
  }

  /** Over every interleaving, writing a connection again changes neither whose it is nor when it was created. */
  lemma {:induction false} RowsKeepTheirBirth(steps: seq<Step>, more: seq<Step>, id: Id)
    ensures RowStays(After(steps), After(steps + more), id)
    decreases |more|
  {
    hide Valid, Enabled, Apply;
    if more == [] {
      assert steps + more == steps;
    } else {
      var front, step := more[..|more| - 1], more[|more| - 1];
      RowsKeepTheirBirth(steps, front, id);
      assert (steps + more)[..|steps + more| - 1] == steps + front;
      RunsStayValid(steps + front);
      if Enabled(After(steps + front), step) { StepKeepsRow(After(steps + front), step, id); }
    }
  }

  /**
   * What an upsert that is not refused leaves: the row says what the run was asked, was updated now, and was created when the row there
   * before was, or else now; every other row is untouched. One that throws leaves that or nothing.
   */
  lemma UpsertWrites(s: System, r: nat, now: int, kept: bool, throws: bool)
    requires Valid(s) && Enabled(s, Upsert(r, now, kept, throws)) && !HeldByAnother(s.rows, s.runs[r].partition, s.runs[r].target.id)
    ensures var t, run := Apply(s, Upsert(r, now, kept, throws)), s.runs[r];
      var id := run.target.id;
      && (forall other :: other != id ==> (other in t.rows <==> other in s.rows) && (other in s.rows ==> t.rows[other] == s.rows[other]))
      && (throws && !kept ==> t.rows == s.rows)
      && (!throws || kept ==> id in t.rows)
      && (!throws || kept ==> t.rows[id] == Row(run.partition, run.fields, if id in s.rows then s.rows[id].createdAt else now, now))
      && t.runs[r].phase == (if throws then Failed else Stored) && t.credentials == s.credentials
  {
    hide OneRowEach, NewIdsDiffer, HeldByAnother;
  }

  /** A put stores the run's own secret under its own id, and touches no other. */
  lemma PutWrites(s: System, r: nat, kept: bool, throws: bool)
    requires Enabled(s, Put(r, kept, throws))
    ensures var t, id := Apply(s, Put(r, kept, throws)), s.runs[r].target.id;
      && (kept ==> id in t.credentials && t.credentials[id] == s.runs[r].secret)
      && (!kept ==> t.credentials == s.credentials) && t.rows == s.rows
      && (forall other :: other != id ==> (other in t.credentials <==> other in s.credentials))
      && (forall other :: other != id && other in s.credentials ==> t.credentials[other] == s.credentials[other])
      && t.runs[r].phase == (if throws then Failed else Confirming)
  {
  }

  /** The credential is read back: without it the row is not written. */
  lemma ConfirmChecks(s: System, r: nat)
    requires Enabled(s, Confirm(r))
    ensures Apply(s, Confirm(r)).runs[r].phase == (if s.runs[r].target.id in s.credentials then Upserting else Failed)
  {
  }

  // ---------------------------------------------------------------- who is refused

  /** Which step refuses a run: a look that finds its partition taken when it did not confirm a replacement, or a store that does. */
  lemma RefusedExactly(s: System, step: Step, r: nat)
    requires Enabled(s, step) && r < |s.runs| && s.runs[r].phase != Refused
    ensures r < |Apply(s, step).runs|
    ensures Apply(s, step).runs[r].phase == Refused <==>
      || (step == Check(r) && !s.runs[r].confirmReplace && exists id :: id in s.rows && s.rows[id].partition == s.runs[r].partition)
      || (step.Upsert? && step.run == r &&
            exists id :: id in s.rows && s.rows[id].partition == s.runs[r].partition && id != s.runs[r].target.id)
  {
  }

  /** A refused run has a cause: a row of its partition that is not its own; and one that confirmed a replacement lost a race for it. */
  ghost predicate RefusalsHaveCause(s: System) {
    forall r :: 0 <= r < |s.runs| && s.runs[r].phase == Refused ==>
      && (s.runs[r].target.Unset? ==> !s.runs[r].confirmReplace && Holds(s.rows, s.runs[r].partition))
      && (!s.runs[r].target.Unset? ==> s.runs[r].target.New? && HeldByAnother(s.rows, s.runs[r].partition, s.runs[r].target.id))
  }

  lemma RowsStayHeld(s: System, t: System, partition: Partition, target: Id)
    requires forall id :: RowStays(s, t, id)
    ensures Holds(s.rows, partition) ==> Holds(t.rows, partition)
    ensures HeldByAnother(s.rows, partition, target) ==> HeldByAnother(t.rows, partition, target)
  {
    if Holds(s.rows, partition) {
      var id :| id in s.rows && s.rows[id].partition == partition;
      assert RowStays(s, t, id);
    }
    if HeldByAnother(s.rows, partition, target) {
      var id :| id in s.rows && s.rows[id].partition == partition && id != target;
      assert RowStays(s, t, id);
    }
  }

  lemma StepKeepsCause(s: System, step: Step)
    requires Valid(s) && Enabled(s, step) && RefusalsHaveCause(s)
    ensures RefusalsHaveCause(Apply(s, step))
  {
    hide Holds, HeldByAnother, RowStays, OneRowEach, RowsBacked, NewIdsDiffer;
    var t := Apply(s, step);
    forall id ensures RowStays(s, t, id) { StepKeepsRow(s, step, id); }
    forall r | 0 <= r < |t.runs| && t.runs[r].phase == Refused
      ensures (t.runs[r].target.Unset? ==> !t.runs[r].confirmReplace && Holds(t.rows, t.runs[r].partition)) &&
        (!t.runs[r].target.Unset? ==> t.runs[r].target.New? && HeldByAnother(t.rows, t.runs[r].partition, t.runs[r].target.id))
    {
      CauseOf(s, step, r);
      RowsStayHeld(s, t, t.runs[r].partition, if t.runs[r].target.Unset? then 0 else t.runs[r].target.id);
    }
  }

  /** The cause is there already in the state before the step. */
  lemma CauseOf(s: System, step: Step, r: nat)
    requires Valid(s) && Enabled(s, step) && RefusalsHaveCause(s) && r < |Apply(s, step).runs| && Apply(s, step).runs[r].phase == Refused
    ensures var run := Apply(s, step).runs[r];
      && (run.target.Unset? ==> !run.confirmReplace && Holds(s.rows, run.partition))
      && (!run.target.Unset? ==> run.target.New? && HeldByAnother(s.rows, run.partition, run.target.id))
  {
    hide Apply, Enabled, Valid;
    if r >= |s.runs| {
      NewIsNotRefused(s, step, r);
    } else {
      StepAdvances(s, step, r);
      if s.runs[r].phase != Refused {
        RefusedExactly(s, step, r);
        RefuserIsSet(s, step, r);
      }
    }
  }

  lemma NewIsNotRefused(s: System, step: Step, r: nat)
    requires Enabled(s, step) && |s.runs| <= r < |Apply(s, step).runs|
    ensures Apply(s, step).runs[r].phase != Refused
  {
    hide Holds, HeldByAnother;
  }

  lemma RefuserIsSet(s: System, step: Step, r: nat)
    requires Valid(s) && Enabled(s, step) && r < |s.runs|
    ensures step == Check(r) ==> s.runs[r].target.Unset? && Apply(s, step).runs[r].target.Unset?
    ensures step.Upsert? && step.run == r ==> !s.runs[r].target.Unset?
    ensures step.Upsert? && step.run == r && HeldByAnother(s.rows, s.runs[r].partition, s.runs[r].target.id) ==> s.runs[r].target.New?
  {
    hide Holds, OneRowEach, RowsBacked, NewIdsDiffer;
    if step.Upsert? && step.run == r && HeldByAnother(s.rows, s.runs[r].partition, s.runs[r].target.id) { ExistingIsNotHeld(s, r); }
  }

  lemma {:induction false} RefusalRuns(steps: seq<Step>)
    ensures RefusalsHaveCause(After(steps))
  {
    hide Valid, Enabled, Apply, RefusalsHaveCause;
    if steps == [] {
      NoRefusals();
    } else {
      var front := steps[..|steps| - 1];
      RefusalRuns(front);
      RunsStayValid(front);
      if Enabled(After(front), steps[|steps| - 1]) { StepKeepsCause(After(front), steps[|steps| - 1]); }
    }
  }

  lemma NoRefusals()
    ensures RefusalsHaveCause(INIT)
  {
  }

  // ---------------------------------------------------------------- nothing is stored that was not verified

  /** The runs that a connect opened; the others were opened by a finished grant, which needs no verifying. */
  ghost function Connects(steps: seq<Step>): set<nat> {
    if steps == [] then {}
    else
      var front := steps[..|steps| - 1];
      Connects(front) + (if steps[|steps| - 1].Connect? then {|After(front).runs|} else {})
  }

  /** The runs whose fields and secret the provider has accepted. */
  ghost function Accepted(steps: seq<Step>): set<nat> {
    if steps == [] then {}
    else
      var front, step := steps[..|steps| - 1], steps[|steps| - 1];
      Accepted(front) + (if Enabled(After(front), step) && step.Verify? && step.accepted then {step.run} else {})
  }

  /** A connect that has not been accepted is still before its look, before its verifying, refused early, or failed; it holds no id. */
  ghost predicate UnacceptedWaits(s: System, connects: set<nat>, accepted: set<nat>) {
    && (forall r :: r in connects ==> r < |s.runs|)
    && (forall r :: r in connects && r !in accepted ==>
          s.runs[r].phase in {Checking, Verifying, Refused, Failed} && s.runs[r].target.Unset?)
  }

  lemma StepWaits(s: System, step: Step, connects: set<nat>, accepted: set<nat>)
    requires Enabled(s, step) && UnacceptedWaits(s, connects, accepted)
    ensures UnacceptedWaits(Apply(s, step), connects + (if step.Connect? then {|s.runs|} else {}),
                            accepted + (if step.Verify? && step.accepted then {step.run} else {}))
  {
    hide Holds, HeldByAnother;
  }

  lemma {:induction false} WaitsThroughout(steps: seq<Step>)
    ensures UnacceptedWaits(After(steps), Connects(steps), Accepted(steps))
  {
    hide Enabled, Apply, UnacceptedWaits;
    if steps == [] {
      assert UnacceptedWaits(INIT, {}, {}) by { NobodyWaits(); }
    } else {
      var front, step := steps[..|steps| - 1], steps[|steps| - 1];
      WaitsThroughout(front);
      ConnectIsEnabled(After(front), step);
      if Enabled(After(front), step) {
        StepWaits(After(front), step, Connects(front), Accepted(front));
      } else {
        assert Connects(steps) == Connects(front) && Accepted(steps) == Accepted(front);
      }
    }
  }

  lemma ConnectIsEnabled(s: System, step: Step)
    ensures step.Connect? ==> Enabled(s, step)
  {
  }

  lemma NobodyWaits()
    ensures UnacceptedWaits(INIT, {}, {})
  {
  }

  /** Over every interleaving, a connect that put a credential or wrote a row had been accepted by its provider. */
  lemma OnlyAcceptedConnectsStore(steps: seq<Step>, r: nat)
    requires r in Connects(steps)
    ensures r < |After(steps).runs|
    ensures !After(steps).runs[r].target.Unset? || After(steps).runs[r].phase == Stored ==> r in Accepted(steps)
  {
    hide After, Connects, Accepted;
    WaitsThroughout(steps);
  }

  /** A connect the provider turned down has failed for good, without an id to put or write anything under. */
  lemma RejectedStoresNothing(steps: seq<Step>, more: seq<Step>, r: nat)
    requires Enabled(After(steps), Verify(r, false))
    ensures var s := After(steps + [Verify(r, false)] + more);
      r < |s.runs| && s.runs[r].phase == Failed && s.runs[r].target.Unset?
  {
    hide Apply, Enabled, Valid, After;
    var first := steps + [Verify(r, false)];
    RejectedNow(steps, r);
    RunsAdvance(first, more, r);
  }

  lemma RejectedNow(steps: seq<Step>, r: nat)
    requires Enabled(After(steps), Verify(r, false))
    ensures var s := After(steps + [Verify(r, false)]); r < |s.runs| && s.runs[r].phase == Failed && s.runs[r].target.Unset?
  {
    hide OneRowEach, RowsBacked, TargetsKnown, NewIdsDiffer;
    RunsStayValid(steps);
    assert (steps + [Verify(r, false)])[..|steps|] == steps;
  }
}
