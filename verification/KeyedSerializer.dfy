/**
 * The keyed serializer (packages/claxedo-helpers/src/async.ts:38-69) as a state machine over its promise steps.
 *
 * Every `run` call is an operation, numbered in call order. With no tail under its key an operation is invoked at once, before
 * its tail is recorded; until then it is on the stack `starting`. Otherwise it waits for the tail it found.
 */
module KeyedSerializer {
  import opened Text

  /** Keys are only compared; a number stands for each. */
  type Key = nat

  /** Waiting for a tail, running, settled, with its tail resolved, and with the clean-up after its tail done. */
  datatype Phase = Waiting | Running | Settled(ok: bool) | TailResolved | Cleaned

  /** `found` is the tail a call found under its key, if any. */
  datatype Serializer = Serializer(
    keys: seq<Key>, found: seq<Option<nat>>, phase: seq<Phase>, tails: map<Key, nat>, starting: seq<nat>, starts: seq<nat>)

  /**
   * One step: a `run` call; the innermost invocation returning its promise, or throwing instead; an operation settling; its tail
   * resolving; a waiting operation being invoked; a clean-up.
   */
  datatype Step = Call(key: Key) | Record | Throw | Settle(op: nat, ok: bool) | ResolveTail(op: nat) | Start(op: nat) | Cleanup(op: nat)

  const INIT := Serializer([], [], [], map[], [], [])

  predicate Done(p: Phase) {
    p.TailResolved? || p.Cleaned?
  }

  predicate WellSized(s: Serializer) {
    |s.keys| == |s.found| == |s.phase| && forall j :: 0 <= j < |s.starting| ==> s.starting[j] < |s.keys|
  }

  predicate Enabled(s: Serializer, step: Step)
    requires WellSized(s)
  {
    var n := |s.keys|;
    match step
    case Call(_) => true
    case Record => s.starting != []
    case Throw => s.starting != []
    case Settle(i, _) => i < n && s.phase[i].Running? && i !in s.starting
    case ResolveTail(i) => i < n && s.phase[i].Settled?
    case Start(i) => i < n && s.phase[i].Waiting? && s.found[i].Some? && s.found[i].value < n && Done(s.phase[s.found[i].value])
    case Cleanup(i) => i < n && s.phase[i].TailResolved?
  }

  function Apply(s: Serializer, step: Step): (t: Serializer)
    requires WellSized(s) && Enabled(s, step)
    ensures WellSized(t)
  {
    match step
    case Call(k) =>
      var n := |s.keys|;
      if k in s.tails then
        s.(keys := s.keys + [k], found := s.found + [Some(s.tails[k])], phase := s.phase + [Waiting], tails := s.tails[k := n])
      else
        s.(keys := s.keys + [k], found := s.found + [None], phase := s.phase + [Running],
           starting := s.starting + [n], starts := s.starts + [n])
    case Record =>
      var i := s.starting[|s.starting| - 1];
      s.(tails := s.tails[s.keys[i] := i], starting := s.starting[..|s.starting| - 1])
    case Throw =>
      s.(phase := s.phase[s.starting[|s.starting| - 1] := Cleaned], starting := s.starting[..|s.starting| - 1])
    case Settle(i, ok) => s.(phase := s.phase[i := Settled(ok)])
    case ResolveTail(i) => s.(phase := s.phase[i := TailResolved])
    case Start(i) => s.(phase := s.phase[i := Running], starts := s.starts + [i])
    case Cleanup(i) =>
      var k := s.keys[i];
      s.(phase := s.phase[i := Cleaned], tails := if k in s.tails && s.tails[k] == i then s.tails - {k} else s.tails)
  }

  predicate KeyIsStarting(s: Serializer, k: Key)
    requires WellSized(s)
  {
    exists j :: 0 <= j < |s.starting| && s.keys[s.starting[j]] == k
  }

  /** A call made from inside the synchronous start of an operation of the same key, before that operation's tail is recorded. */
  predicate Reenters(s: Serializer, step: Step)
    requires WellSized(s)
  {
    step.Call? && step.key !in s.tails && KeyIsStarting(s, step.key)
  }

  // ---------------------------------------------------------------- the invariant

  ghost predicate LastOfKey(keys: seq<Key>, i: nat) {
    i < |keys| && forall j :: i < j < |keys| ==> keys[j] != keys[i]
  }

  /** A call waits for the latest earlier call of its key. */
  ghost predicate Linked(keys: seq<Key>, found: seq<Option<nat>>) {
    && |keys| == |found|
    && forall i :: 0 <= i < |keys| && found[i].Some? ==>
         found[i].value < i && keys[found[i].value] == keys[i] && forall j :: found[i].value < j < i ==> keys[j] != keys[i]
  }

  /** Once an operation runs, the tails of all earlier operations of its key have resolved. */
  ghost predicate Ordered(keys: seq<Key>, phase: seq<Phase>) {
    && |keys| == |phase|
    && forall p, i :: 0 <= p < i < |keys| && keys[p] == keys[i] && !phase[i].Waiting? ==> Done(phase[p])
  }

  ghost predicate WaitersLinked(found: seq<Option<nat>>, phase: seq<Phase>) {
    && |found| == |phase|
    && forall i :: 0 <= i < |phase| && phase[i].Waiting? ==> found[i].Some?
  }

  /** A tail is its key's last operation, not cleaned up. */
  ghost predicate TailsAreLast(keys: seq<Key>, phase: seq<Phase>, tails: map<Key, nat>) {
    && |keys| == |phase|
    && forall k :: k in tails ==> LastOfKey(keys, tails[k]) && keys[tails[k]] == k && !phase[tails[k]].Cleaned?
  }

  /** A key with neither a tail nor an operation being started has only resolved operations. */
  ghost predicate TailsCover(s: Serializer) {
    && WellSized(s)
    && forall i :: 0 <= i < |s.keys| && s.keys[i] !in s.tails && !Done(s.phase[i]) ==> KeyIsStarting(s, s.keys[i])
  }

  ghost predicate StartingIsFresh(s: Serializer) {
    && WellSized(s)
    && (forall j :: 0 <= j < |s.starting| ==>
          LastOfKey(s.keys, s.starting[j]) && s.phase[s.starting[j]].Running? && s.keys[s.starting[j]] !in s.tails)
    && (forall a, b :: 0 <= a < b < |s.starting| ==> s.starting[a] != s.starting[b])
  }

  /** The start log holds exactly the operations that are not waiting. */
  ghost predicate LogComplete(phase: seq<Phase>, starts: seq<nat>) {
    && (forall i :: 0 <= i < |phase| && !phase[i].Waiting? ==> i in starts)
    && (forall a :: 0 <= a < |starts| ==> starts[a] < |phase| && !phase[starts[a]].Waiting?)
  }

  /** The operations of one key are logged in call order. */
  ghost predicate LogInOrder(keys: seq<Key>, starts: seq<nat>) {
    && (forall a :: 0 <= a < |starts| ==> starts[a] < |keys|)
    && forall a, b :: 0 <= a < b < |starts| && keys[starts[a]] == keys[starts[b]] ==> starts[a] < starts[b]
  }

  ghost predicate Valid(s: Serializer) {
    && WellSized(s) && Linked(s.keys, s.found) && Ordered(s.keys, s.phase) && WaitersLinked(s.found, s.phase)
    && TailsAreLast(s.keys, s.phase, s.tails) && TailsCover(s) && StartingIsFresh(s)
    && LogComplete(s.phase, s.starts) && LogInOrder(s.keys, s.starts)
  }

  // ---------------------------------------------------------------- each step keeps it

  /** What one operation's own progress may change. */
  lemma AdvanceKeeps(s: Serializer, i: nat, next: Phase)
    requires Valid(s) && i < |s.keys| && !next.Waiting? && !s.phase[i].Waiting? && (Done(s.phase[i]) ==> Done(next))
    ensures var phase := s.phase[i := next];
      Ordered(s.keys, phase) && WaitersLinked(s.found, phase) && LogComplete(phase, s.starts)
  {
    hide TailsCover, StartingIsFresh, TailsAreLast, LogInOrder, Linked;
  }

  lemma SettleKeepsValid(s: Serializer, i: nat, ok: bool)
    requires Valid(s) && Enabled(s, Settle(i, ok))
    ensures Valid(Apply(s, Settle(i, ok)))
  {
    hide Linked, Ordered, WaitersLinked, LogComplete, LogInOrder;
    AdvanceKeeps(s, i, Settled(ok));
    var t := Apply(s, Settle(i, ok));
    SameStarting(s, t);
  }

  lemma SameStarting(s: Serializer, t: Serializer)
    requires WellSized(s) && WellSized(t) && s.keys <= t.keys && s.starting <= t.starting
    ensures forall k :: KeyIsStarting(s, k) ==> KeyIsStarting(t, k)
  {
    forall k | KeyIsStarting(s, k) ensures KeyIsStarting(t, k)
    {
      var j :| 0 <= j < |s.starting| && s.keys[s.starting[j]] == k;
      assert t.starting[j] == s.starting[j];
    }
  }

  lemma ResolveTailKeepsValid(s: Serializer, i: nat)
    requires Valid(s) && Enabled(s, ResolveTail(i))
    ensures Valid(Apply(s, ResolveTail(i)))
  {
    hide Linked, Ordered, WaitersLinked, LogComplete, LogInOrder;
    AdvanceKeeps(s, i, TailResolved);
    var t := Apply(s, ResolveTail(i));
    SameStarting(s, t);
  }

  lemma CleanupKeepsValid(s: Serializer, i: nat)
    requires Valid(s) && Enabled(s, Cleanup(i))
    ensures Valid(Apply(s, Cleanup(i)))
  {
    hide Linked, WaitersLinked, LogComplete, LogInOrder;
    AdvanceKeeps(s, i, Cleaned);
    var t := Apply(s, Cleanup(i));
    SameStarting(s, t);
    var key := s.keys[i];
    if key in s.tails && s.tails[key] == i {
      forall j | 0 <= j < |s.keys| && s.keys[j] == key ensures Done(s.phase[j])
      {
        if j != i { AllDoneBelow(s, i, j); }
      }
    }
  }

  lemma AllDoneBelow(s: Serializer, i: nat, j: nat)
    requires Ordered(s.keys, s.phase) && LastOfKey(s.keys, i) && !s.phase[i].Waiting? && j < |s.keys| && s.keys[j] == s.keys[i] && j != i
    ensures Done(s.phase[j])
  {
  }

  lemma RecordKeepsValid(s: Serializer)
    requires Valid(s) && Enabled(s, Record)
    ensures Valid(Apply(s, Record))
  {
    hide Linked, Ordered, WaitersLinked, LogComplete, LogInOrder;
    var t := Apply(s, Record);
    var n := |s.starting| - 1;
    forall i | 0 <= i < |t.keys| && t.keys[i] !in t.tails && !Done(t.phase[i]) ensures KeyIsStarting(t, t.keys[i])
    {
      var j :| 0 <= j < |s.starting| && s.keys[s.starting[j]] == s.keys[i];
      assert t.starting[j] == s.starting[j];
    }
    forall j | 0 <= j < n ensures s.keys[s.starting[j]] != s.keys[s.starting[n]]
    {
      assert s.starting[j] != s.starting[n] && LastOfKey(s.keys, s.starting[j]) && LastOfKey(s.keys, s.starting[n]);
    }
  }

  lemma ThrowKeepsValid(s: Serializer)
    requires Valid(s) && Enabled(s, Throw)
    ensures Valid(Apply(s, Throw))
  {
    hide Linked, WaitersLinked, LogComplete, LogInOrder;
    var t := Apply(s, Throw);
    var n := |s.starting| - 1;
    var last := s.starting[n];
    AdvanceKeeps(s, last, Cleaned);
    forall i | 0 <= i < |s.keys| && s.keys[i] == s.keys[last] ensures Done(t.phase[i])
    {
      if i != last { AllDoneBelow(s, last, i); }
    }
    forall i | 0 <= i < |t.keys| && t.keys[i] !in t.tails && !Done(t.phase[i]) ensures KeyIsStarting(t, t.keys[i])
    {
      var j :| 0 <= j < |s.starting| && s.keys[s.starting[j]] == s.keys[i];
      assert t.starting[j] == s.starting[j];
    }
  }

  lemma StartKeepsValid(s: Serializer, i: nat)
    requires Valid(s) && Enabled(s, Start(i))
    ensures Valid(Apply(s, Start(i)))
  {
    hide LogComplete, LogInOrder, Ordered, Linked, WaitersLinked;
    StartKeepsLog(s, i);
    var t := Apply(s, Start(i));
    SameStarting(s, t);
    StartKeepsOrder(s, i);
  }

  lemma StartKeepsOrder(s: Serializer, i: nat)
    requires Valid(s) && Enabled(s, Start(i))
    ensures Ordered(s.keys, s.phase[i := Running]) && WaitersLinked(s.found, s.phase[i := Running])
  {
    hide TailsCover, StartingIsFresh, TailsAreLast, LogInOrder, LogComplete;
    var p := s.found[i].value;
    forall q | 0 <= q < i && s.keys[q] == s.keys[i] ensures Done(s.phase[q])
    {
      assert q <= p;
    }
  }

  lemma StartKeepsLog(s: Serializer, i: nat)
    requires Valid(s) && Enabled(s, Start(i))
    ensures LogComplete(s.phase[i := Running], s.starts + [i]) && LogInOrder(s.keys, s.starts + [i])
  {
    hide TailsCover, StartingIsFresh, TailsAreLast, Linked, WaitersLinked;
    forall a | 0 <= a < |s.starts| && s.keys[s.starts[a]] == s.keys[i] ensures s.starts[a] < i
    {
      var q := s.starts[a];
      assert i < q ==> Done(s.phase[i]);
    }
    var starts := s.starts + [i];
    assert starts[|s.starts|] == i;
    forall k | 0 <= k < |s.phase| && !s.phase[i := Running][k].Waiting? ensures k in starts {}
  }

  lemma CallKeepsLinks(s: Serializer, k: Key)
    requires Valid(s) && !Reenters(s, Call(k))
    ensures var t := Apply(s, Call(k)); Linked(t.keys, t.found) && Ordered(t.keys, t.phase) && WaitersLinked(t.found, t.phase)
  {
    hide LogInOrder, LogComplete, StartingIsFresh;
    var t := Apply(s, Call(k));
    var n := |s.keys|;
    if k !in s.tails {
      forall i | 0 <= i < n && s.keys[i] == k ensures Done(s.phase[i]) {}
    }
  }

  lemma CallKeepsTails(s: Serializer, k: Key)
    requires Valid(s) && !Reenters(s, Call(k))
    ensures var t := Apply(s, Call(k)); TailsAreLast(t.keys, t.phase, t.tails) && TailsCover(t)
  {
    hide LogInOrder, LogComplete, Linked, Ordered, WaitersLinked, StartingIsFresh;
    var t := Apply(s, Call(k));
    var n := |s.keys|;
    SameStarting(s, t);
    forall i | 0 <= i < |t.keys| && t.keys[i] !in t.tails && !Done(t.phase[i]) ensures KeyIsStarting(t, t.keys[i])
    {
      if i == n {
        assert t.starting[|s.starting|] == n;
      }
    }
  }

  lemma CallKeepsStarting(s: Serializer, k: Key)
    requires Valid(s) && !Reenters(s, Call(k))
    ensures StartingIsFresh(Apply(s, Call(k)))
  {
    hide LogInOrder, LogComplete, Linked, Ordered, WaitersLinked, TailsCover;
    var t := Apply(s, Call(k));
    forall j | 0 <= j < |s.starting| ensures LastOfKey(t.keys, s.starting[j])
    {
      assert LastOfKey(s.keys, s.starting[j]);
      assert s.keys[s.starting[j]] != k;
    }
  }

  lemma CallKeepsLog(s: Serializer, k: Key)
    requires Valid(s) && !Reenters(s, Call(k))
    ensures var t := Apply(s, Call(k)); LogComplete(t.phase, t.starts) && LogInOrder(t.keys, t.starts)
  {
    hide Linked, Ordered, WaitersLinked, TailsCover, TailsAreLast, StartingIsFresh;
    var t := Apply(s, Call(k));
    var n := |s.keys|;
    if k !in s.tails {
      assert t.starts[|s.starts|] == n;
    }
  }

  lemma CallKeepsValid(s: Serializer, k: Key)
    requires Valid(s) && !Reenters(s, Call(k))
    ensures Valid(Apply(s, Call(k)))
  {
    hide Linked, Ordered, WaitersLinked, TailsCover, TailsAreLast, StartingIsFresh, LogInOrder, LogComplete;
    CallKeepsLinks(s, k);
    CallKeepsTails(s, k);
    CallKeepsStarting(s, k);
    CallKeepsLog(s, k);
  }

  // ---------------------------------------------------------------- whole runs

  /** The state after some steps; a step that is not enabled does not happen. */
  ghost function After(steps: seq<Step>): (s: Serializer)
    ensures WellSized(s)
  {
    if steps == [] then INIT
    else
      var s, step := After(steps[..|steps| - 1]), steps[|steps| - 1];
      if Enabled(s, step) then Apply(s, step) else s
  }

  ghost predicate NoReentry(steps: seq<Step>) {
    forall n :: 0 <= n < |steps| ==> !Reenters(After(steps[..n]), steps[n])
  }

  /** No two operations of one key run at a time. */
  ghost predicate Exclusive(s: Serializer) {
    WellSized(s) && forall i, j :: 0 <= i < j < |s.keys| && s.keys[i] == s.keys[j] ==> !(s.phase[i].Running? && s.phase[j].Running?)
  }

  lemma StepKeepsValid(s: Serializer, step: Step)
    requires Valid(s) && Enabled(s, step) && !Reenters(s, step)
    ensures Valid(Apply(s, step))
  {
    hide Valid, Enabled, Apply, Reenters;
    match step
    case Call(k) => CallKeepsValid(s, k);
    case Record => RecordKeepsValid(s);
    case Throw => ThrowKeepsValid(s);
    case Settle(i, ok) => SettleKeepsValid(s, i, ok);
    case ResolveTail(i) => ResolveTailKeepsValid(s, i);
    case Start(i) => StartKeepsValid(s, i);
    case Cleanup(i) => CleanupKeepsValid(s, i);
  }

  lemma InitIsValid()
    ensures Valid(INIT)
  {
  }

  lemma {:induction false} RunsStayValid(steps: seq<Step>)
    requires NoReentry(steps)
    ensures Valid(After(steps))
  {
    hide Valid, Enabled, Apply, Reenters;
    if steps == [] {
      InitIsValid();
    } else {
      var front := steps[..|steps| - 1];
      forall n | 0 <= n < |front| ensures !Reenters(After(front[..n]), front[n])
      {
        assert front[..n] == steps[..n];
      }
      RunsStayValid(front);
      if Enabled(After(front), steps[|steps| - 1]) {
        StepKeepsValid(After(front), steps[|steps| - 1]);
      }
    }
  }

  lemma ValidIsExclusive(s: Serializer)
    requires Valid(s)
    ensures Exclusive(s)
  {
    hide Linked, WaitersLinked, TailsAreLast, TailsCover, StartingIsFresh, LogComplete, LogInOrder;
  }

  lemma ReentryOverlaps(s: Serializer, k: Key)
    requires Valid(s) && Reenters(s, Call(k))
    ensures !Exclusive(Apply(s, Call(k)))
  {
    hide Linked, Ordered, WaitersLinked, TailsAreLast, TailsCover, LogComplete, LogInOrder;
    var j :| 0 <= j < |s.starting| && s.keys[s.starting[j]] == k;
    var t := Apply(s, Call(k));
    var i, n := s.starting[j], |s.keys|;
    assert t.keys[i] == t.keys[n] && t.phase[i].Running? && t.phase[n].Running?;
  }

  /** Two calls of one key, the second from inside the first one's synchronous start: both operations run. */
  lemma ReentryExample()
    ensures !Exclusive(After([Call(0), Call(0)])) && Reenters(After([Call(0)]), Call(0))
  {
    hide Exclusive;
    var one, two := [Call(0)], [Call(0), Call(0)];
    assert one[..0] == [] && two[..1] == one;
    var s := Serializer([0], [None], [Running], map[], [0], [0]);
    assert After(one) == s;
    assert s.keys[s.starting[0]] == 0;
    var t := Apply(s, Call(0));
    assert After(two) == t && t.keys[0] == t.keys[1] && t.phase[0].Running? && t.phase[1].Running?;
    OverlapIsNotExclusive(t, 0, 1);
  }

  lemma OverlapIsNotExclusive(s: Serializer, i: nat, j: nat)
    requires WellSized(s) && i < j < |s.keys| && s.keys[i] == s.keys[j] && s.phase[i].Running? && s.phase[j].Running?
    ensures !Exclusive(s)
  {
  }

  /**
   * Operations of one key run one at a time, whatever settles how and whenever, exactly in the runs in which no call is made from
   * inside the synchronous start of an operation of its own key.
   */
  lemma {:induction false} ExclusiveExactlyWithoutReentry(steps: seq<Step>)
    ensures (forall n :: 0 <= n <= |steps| ==> Exclusive(After(steps[..n]))) <==> NoReentry(steps)
  {
    hide Valid, Enabled, Apply, Reenters, Exclusive, After;
    if NoReentry(steps) {
      forall n | 0 <= n <= |steps| ensures Exclusive(After(steps[..n]))
      {
        PrefixNoReentry(steps, n);
        RunsStayValid(steps[..n]);
        ValidIsExclusive(After(steps[..n]));
      }
    } else {
      var n := FirstReentry(steps);
      RunsStayValid(steps[..n]);
      ReenterIsCall(After(steps[..n]), steps[n]);
      ReentryOverlaps(After(steps[..n]), steps[n].key);
      AfterNext(steps, n);
    }
  }

  lemma PrefixNoReentry(steps: seq<Step>, n: nat)
    requires n <= |steps| && NoReentry(steps)
    ensures NoReentry(steps[..n])
  {
    hide Reenters, After;
    forall m | 0 <= m < n ensures !Reenters(After(steps[..n][..m]), steps[..n][m])
    {
      assert steps[..n][..m] == steps[..m];
    }
  }

  lemma {:induction false} FirstReentry(steps: seq<Step>) returns (n: nat)
    requires !NoReentry(steps)
    ensures n < |steps| && Reenters(After(steps[..n]), steps[n]) && NoReentry(steps[..n])
  {
    hide Reenters, After;
    var front := steps[..|steps| - 1];
    if NoReentry(front) {
      n := |steps| - 1;
      forall m | 0 <= m < n ensures !Reenters(After(steps[..m]), steps[m])
      {
        assert front[..m] == steps[..m];
      }
    } else {
      n := FirstReentry(front);
      assert front[..n] == steps[..n];
    }
  }

  lemma ReenterIsCall(s: Serializer, step: Step)
    requires WellSized(s) && Reenters(s, step)
    ensures step.Call? && Enabled(s, step) && step == Call(step.key)
  {
  }

  lemma AfterNext(steps: seq<Step>, n: nat)
    requires n < |steps| && Enabled(After(steps[..n]), steps[n])
    ensures After(steps[..n + 1]) == Apply(After(steps[..n]), steps[n])
  {
    hide Enabled, Apply;
    assert steps[..n + 1][..n] == steps[..n];
  }

  ghost predicate CanMove(s: Serializer, j: nat)
    requires WellSized(s)
  {
    j < |s.keys| && ((s.phase[j].Running? && j !in s.starting) || Enabled(s, ResolveTail(j)) || Enabled(s, Start(j)))
  }

  /** A waiting operation is never held up by another key: some earlier operation of its own key is running or can step, or it can start. */
  lemma {:induction false} WaitsForItsOwnKey(s: Serializer, i: nat) returns (j: nat)
    requires Valid(s) && i < |s.keys| && s.phase[i].Waiting?
    ensures j <= i && j < |s.keys| && s.keys[j] == s.keys[i] && CanMove(s, j)
    decreases i
  {
    hide TailsCover, TailsAreLast, LogComplete, LogInOrder;
    var p := s.found[i].value;
    if s.phase[p].Waiting? {
      j := WaitsForItsOwnKey(s, p);
    } else if Done(s.phase[p]) {
      j := i;
    } else {
      j := p;
      if p in s.starting { assert LastOfKey(s.keys, p); }
    }
  }

  /**
   * The serializer's promises, over every run without re-entry: one operation of a key at a time; operations of a key start in
   * call order, none before an earlier one; a waiting one waits for its own key alone; and cleaned up, the map is empty.
   */
  lemma SerializerRuns(steps: seq<Step>)
    requires NoReentry(steps)
    ensures var s := After(steps);
      && Exclusive(s)
      && LogInOrder(s.keys, s.starts)
      && (forall p, i :: 0 <= p < i < |s.keys| && s.keys[p] == s.keys[i] && i in s.starts ==> p in s.starts)
      && (forall i :: 0 <= i < |s.keys| && s.phase[i].Waiting? ==> exists j :: 0 <= j <= i && s.keys[j] == s.keys[i] && CanMove(s, j))
      && ((forall i :: 0 <= i < |s.keys| ==> s.phase[i].Cleaned?) ==> s.tails == map[])
  {
    hide After, NoReentry, CanMove, Linked, WaitersLinked, TailsCover, StartingIsFresh;
    RunsStayValid(steps);
    var s := After(steps);
    ValidIsExclusive(s);
    forall i | 0 <= i < |s.keys| && s.phase[i].Waiting?
      ensures exists j :: 0 <= j <= i && s.keys[j] == s.keys[i] && CanMove(s, j)
    {
      var j := WaitsForItsOwnKey(s, i);
    }
    if (forall i :: 0 <= i < |s.keys| ==> s.phase[i].Cleaned?) {
      forall k ensures k !in s.tails {}
    }
  }
}
