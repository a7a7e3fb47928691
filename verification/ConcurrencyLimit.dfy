/**
 * The concurrency limit (packages/claxedo-helpers/src/async.ts:115-128) as a state machine. Waking a queued caller and that
 * caller resuming are two steps, so a new caller can come between them.
 */
module ConcurrencyLimit {
  /** Callers are numbered in call order; `done` are those whose work has finished. */
  datatype Limiter = Limiter(limit: int, active: int, queue: seq<nat>, woken: set<nat>, running: set<nat>, done: set<nat>, calls: nat,
                             queued: seq<nat>, wakes: seq<nat>)

  datatype Step = Call | Resume(caller: nat) | Finish(caller: nat)

  function Init(limit: int): Limiter {
    Limiter(limit, 0, [], {}, {}, {}, 0, [], [])
  }

  predicate Enabled(s: Limiter, step: Step) {
    match step
    case Call => true
    case Resume(c) => c in s.woken
    case Finish(c) => c in s.running
  }

  function Apply(s: Limiter, step: Step): Limiter {
    match step
    case Call =>
      if s.active >= s.limit then s.(queue := s.queue + [s.calls], queued := s.queued + [s.calls], calls := s.calls + 1)
      else s.(active := s.active + 1, running := s.running + {s.calls}, calls := s.calls + 1)
    case Resume(c) => s.(active := s.active + 1, woken := s.woken - {c}, running := s.running + {c})
    case Finish(c) =>
      var t := s.(active := s.active - 1, running := s.running - {c}, done := s.done + {c});
      if s.queue == [] then t
      else t.(queue := s.queue[1..], woken := s.woken + {s.queue[0]}, wakes := s.wakes + [s.queue[0]])
  }

  /** A caller let in directly although every slot is taken or promised to a woken caller. */
  predicate Barges(s: Limiter, step: Step) {
    step.Call? && s.active < s.limit <= s.active + |s.woken|
  }

  ghost predicate QueueFresh(s: Limiter) {
    && (forall i :: 0 <= i < |s.queue| ==> s.queue[i] < s.calls && s.queue[i] !in s.woken + s.running + s.done)
    && (forall i, j :: 0 <= i < j < |s.queue| ==> s.queue[i] < s.queue[j])
  }

  ghost predicate Placed(s: Limiter) {
    forall c: nat :: c < s.calls <==> c in s.woken || c in s.running || c in s.done || c in s.queue
  }

  /** Every caller is in exactly one place, the counter counts the running ones, and the queue is first in, first out. */
  ghost predicate Valid(s: Limiter) {
    && s.active == |s.running|
    && s.woken !! s.running !! s.done
    && QueueFresh(s)
    && Placed(s)
    && s.queued == s.wakes + s.queue
    && (s.queue != [] ==> s.active + |s.woken| >= s.limit)
  }

  lemma CallerIsNew(s: Limiter)
    requires Placed(s)
    ensures s.calls !in s.woken && s.calls !in s.running && s.calls !in s.done && s.calls !in s.queue
  {
  }

  lemma CallKeepsPlaces(s: Limiter)
    requires Placed(s)
    ensures Placed(Apply(s, Call))
  {
    var t := Apply(s, Call);
    if s.active >= s.limit {
      assert forall c :: c in t.queue <==> c in s.queue || c == s.calls;
    }
  }

  lemma CallKeepsQueue(s: Limiter)
    requires QueueFresh(s) && s.calls !in s.woken && s.calls !in s.running && s.calls !in s.done && s.calls !in s.queue
    ensures QueueFresh(Apply(s, Call))
  {
  }

  lemma CallKeepsValid(s: Limiter)
    requires Valid(s)
    ensures Valid(Apply(s, Call))
  {
    hide Placed, QueueFresh;
    CallerIsNew(s);
    CallKeepsPlaces(s);
    CallKeepsQueue(s);
  }

  lemma ResumeKeepsValid(s: Limiter, c: nat)
    requires Valid(s) && c in s.woken
    ensures Valid(Apply(s, Resume(c)))
  {
    assert c !in s.running && c !in s.queue;
  }

  lemma FinishKeepsValid(s: Limiter, c: nat)
    requires Valid(s) && c in s.running
    ensures Valid(Apply(s, Finish(c)))
  {
    if s.queue != [] {
      FinishWakes(s, c);
    }
  }

  lemma PopQueue(queue: seq<nat>)
    requires queue != []
    ensures forall c :: c in queue <==> c == queue[0] || c in queue[1..]
  {
    assert queue == [queue[0]] + queue[1..];
  }

  lemma FinishKeepsPlaces(s: Limiter, c: nat)
    requires Valid(s) && c in s.running && s.queue != []
    ensures Placed(Apply(s, Finish(c)))
  {
    hide QueueFresh;
    PopQueue(s.queue);
  }

  lemma FinishKeepsQueue(s: Limiter, c: nat)
    requires QueueFresh(s) && s.queue != [] && c in s.running
    ensures QueueFresh(Apply(s, Finish(c)))
  {
    var t := Apply(s, Finish(c));
    forall i | 0 <= i < |t.queue| ensures t.queue[i] < t.calls && t.queue[i] !in t.woken + t.running + t.done
    {
      assert t.queue[i] == s.queue[i + 1] && s.queue[0] < s.queue[i + 1];
    }
  }

  lemma FinishWakes(s: Limiter, c: nat)
    requires Valid(s) && c in s.running && s.queue != []
    ensures Valid(Apply(s, Finish(c)))
  {
    hide Placed, QueueFresh;
    var t := Apply(s, Finish(c));
    var w := s.queue[0];
    FinishKeepsPlaces(s, c);
    FinishKeepsQueue(s, c);
    FreshHead(s);
    assert t.queued == t.wakes + t.queue by { assert s.queue == [w] + s.queue[1..]; }
    assert t.active + |t.woken| == s.active + |s.woken|;
  }

  lemma FreshHead(s: Limiter)
    requires QueueFresh(s) && s.queue != []
    ensures s.queue[0] !in s.woken && s.queue[0] !in s.running && s.queue[0] !in s.done
  {
  }

  lemma StepKeepsValid(s: Limiter, step: Step)
    requires Valid(s) && Enabled(s, step)
    ensures Valid(Apply(s, step))
  {
    hide Valid, Apply;
    match step
    case Call => CallKeepsValid(s);
    case Resume(c) => ResumeKeepsValid(s, c);
    case Finish(c) => FinishKeepsValid(s, c);
  }

  ghost function After(limit: int, steps: seq<Step>): Limiter {
    if steps == [] then Init(limit)
    else
      var s, step := After(limit, steps[..|steps| - 1]), steps[|steps| - 1];
      if Enabled(s, step) then Apply(s, step) else s
  }

  ghost function Bargings(limit: int, steps: seq<Step>): nat {
    if steps == [] then 0
    else
      var front := steps[..|steps| - 1];
      Bargings(limit, front) + (if Barges(After(limit, front), steps[|steps| - 1]) then 1 else 0)
  }

  lemma {:induction false} RunsStayValid(limit: int, steps: seq<Step>)
    ensures Valid(After(limit, steps))
  {
    hide Valid, Enabled, Apply;
    if steps == [] {
      InitIsValid(limit);
    } else {
      var front := steps[..|steps| - 1];
      RunsStayValid(limit, front);
      if Enabled(After(limit, front), steps[|steps| - 1]) {
        StepKeepsValid(After(limit, front), steps[|steps| - 1]);
      }
    }
  }

  lemma InitIsValid(limit: int)
    ensures Valid(Init(limit))
  {
  }

  /** How one step changes the callers that hold or are promised a slot. */
  lemma StepLoad(s: Limiter, step: Step)
    requires Valid(s) && Enabled(s, step)
    ensures var t := Apply(s, step);
      var before, after := s.active + |s.woken|, t.active + |t.woken|;
      && (Barges(s, step) ==> after == before + 1)
      && (!Barges(s, step) && step.Call? && s.active < s.limit ==> after == before + 1 <= s.limit)
      && (!(step.Call? && s.active < s.limit) ==> after <= before)
      && t.limit == s.limit
  {
    if step.Finish? && s.queue != [] {
      assert s.queue[0] in s.queue && s.queue[0] !in s.woken;
    }
  }

  /** Running and woken callers exceed the limit by at most the number of callers that barged in. */
  lemma {:induction false} LoadIsBounded(limit: int, steps: seq<Step>)
    ensures After(limit, steps).limit == limit
    ensures var s := After(limit, steps);
      s.active + |s.woken| <= (if limit < 0 then 0 else limit) + Bargings(limit, steps)
  {
    hide Valid, Apply, Enabled, Barges;
    if steps != [] {
      var front, step := steps[..|steps| - 1], steps[|steps| - 1];
      LoadIsBounded(limit, front);
      RunsStayValid(limit, front);
      if Enabled(After(limit, front), step) {
        StepLoad(After(limit, front), step);
      }
    }
  }

  lemma {:induction false} NoBargingBefore(limit: int, steps: seq<Step>, n: nat)
    requires n <= |steps| && Bargings(limit, steps) == 0
    ensures Bargings(limit, steps[..n]) == 0
    decreases |steps|
  {
    hide After, Barges;
    if n == |steps| {
      assert steps[..n] == steps;
    } else {
      NoBargingBefore(limit, steps[..|steps| - 1], n);
      assert steps[..|steps| - 1][..n] == steps[..n];
    }
  }

  lemma {:induction false} LastBarging(limit: int, steps: seq<Step>) returns (n: nat)
    requires Bargings(limit, steps) > 0
    ensures n < |steps| && Barges(After(limit, steps[..n]), steps[n])
  {
    hide After, Barges;
    var front := steps[..|steps| - 1];
    if Barges(After(limit, front), steps[|steps| - 1]) {
      n := |front|;
    } else {
      n := LastBarging(limit, front);
      assert front[..n] == steps[..n];
    }
  }

  /** The limit holds at every moment, counting callers already woken, exactly in the runs in which no caller barges in. */
  lemma LimitHoldsExactlyWithoutBarging(limit: nat, steps: seq<Step>)
    ensures (forall n :: 0 <= n <= |steps| ==> After(limit, steps[..n]).active + |After(limit, steps[..n]).woken| <= limit)
            <==> Bargings(limit, steps) == 0
  {
    hide After, Bargings, Valid;
    if Bargings(limit, steps) == 0 {
      forall n | 0 <= n <= |steps| ensures After(limit, steps[..n]).active + |After(limit, steps[..n]).woken| <= limit
      {
        NoBargingBefore(limit, steps, n);
        LoadIsBounded(limit, steps[..n]);
      }
    } else {
      var n := LastBarging(limit, steps);
      RunsStayValid(limit, steps[..n]);
      LoadIsBounded(limit, steps[..n]);
      StepLoad(After(limit, steps[..n]), steps[n]);
      AfterNext(limit, steps, n);
    }
  }

  lemma AfterNext(limit: int, steps: seq<Step>, n: nat)
    requires n < |steps| && Enabled(After(limit, steps[..n]), steps[n])
    ensures After(limit, steps[..n + 1]) == Apply(After(limit, steps[..n]), steps[n])
  {
    hide Enabled, Apply;
    assert steps[..n + 1][..n] == steps[..n];
  }

  /** With a limit of one, a caller arriving between a wake and its resume makes two callers run at once. */
  lemma BargingExample()
    ensures var s := After(1, [Call, Call, Finish(0), Call, Resume(1)]);
      s.running == {1, 2} && s.active == 2 > s.limit
  {
    var steps := [Call, Call, Finish(0), Call, Resume(1)];
    assert steps[..4] == [Call, Call, Finish(0), Call];
    assert [Call, Call, Finish(0), Call][..3] == [Call, Call, Finish(0)];
    assert [Call, Call, Finish(0)][..2] == [Call, Call];
    assert [Call, Call][..1] == [Call];
    assert [Call][..0] == [];
    assert After(1, [Call]) == Limiter(1, 1, [], {}, {0}, {}, 1, [], []);
    assert After(1, [Call, Call]) == Limiter(1, 1, [1], {}, {0}, {}, 2, [1], []);
    assert After(1, [Call, Call, Finish(0)]) == Limiter(1, 0, [], {1}, {}, {0}, 2, [1], [1]);
    assert After(1, [Call, Call, Finish(0), Call]) == Limiter(1, 1, [], {1}, {2}, {0}, 3, [1], [1]);
  }

  /**
   * No wake-up is lost, over every run: while a caller is queued, the running and the woken callers number at least the limit, so
   * with a positive limit one of them can step; callers are woken in the order they queued; and none is ever dropped.
   */
  lemma NoLostWakeup(limit: int, steps: seq<Step>)
    ensures var s := After(limit, steps);
      && (s.queue != [] ==> s.active + |s.woken| >= limit)
      && (s.queue != [] && limit > 0 ==> exists step: Step :: !step.Call? && Enabled(s, step))
      && s.queued == s.wakes + s.queue
      && (forall c: nat :: c < s.calls <==> c in s.woken || c in s.running || c in s.done || c in s.queue)
  {
    hide After;
    RunsStayValid(limit, steps);
    LoadIsBounded(limit, steps);
    var s := After(limit, steps);
    if s.queue != [] && limit > 0 {
      if s.woken != {} {
        var c :| c in s.woken;
        assert Enabled(s, Resume(c));
      } else {
        var c :| c in s.running;
        assert Enabled(s, Finish(c));
      }
    }
  }
}
