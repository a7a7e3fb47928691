/**
 * The push queue (packages/claxedo-helpers/src/async-queue.ts).
 *
 * A promise is a slot in a history: the k-th `next()` call owns `answers[k]`, which stays `None` until the promise is
 * settled, and the k-th `drained()` call owns `drains[k]`. The other four fields are the source's.
 */
module AsyncQueue {
  import opened Text

  datatype State<E> = Open | Ended | Failed(error: E)

  datatype Answer<T, E> = Value(value: T) | Done | Rejected(error: E)

  /** A `drained()` call: how many values had been accepted, and once resolved, whether the queue was open and how many had been taken. */
  datatype Drain = Drain(mark: nat, resolved: Option<Release>)

  datatype Release = Release(open: bool, taken: nat)

  datatype History<T, E> = History(accepted: seq<T>, answers: seq<Option<Answer<T, E>>>, drains: seq<Drain>)

  datatype Queue<T, E> = Queue(values: seq<T>, waiters: seq<nat>, drainWaiters: seq<nat>, state: State<E>, history: History<T, E>)

  function Empty<T, E>(): Queue<T, E> {
    Queue([], [], [], Open, History([], [], []))
  }

  // ---------------------------------------------------------------- the operations on values

  /** The values handed out, in the order of the `next()` calls that got them. */
  function Taken<T, E>(answers: seq<Option<Answer<T, E>>>): seq<T> {
    if answers == [] then []
    else
      var last := answers[|answers| - 1];
      Taken(answers[..|answers| - 1]) + (if last.Some? && last.value.Value? then [last.value.value] else [])
  }

  function AnswerAll<T, E>(answers: seq<Option<Answer<T, E>>>, waiters: seq<nat>, a: Answer<T, E>): (r: seq<Option<Answer<T, E>>>)
    ensures |r| == |answers|
    ensures forall k :: 0 <= k < |r| ==> r[k] == if k in waiters then Some(a) else answers[k]
  {
    seq(|answers|, k requires 0 <= k < |answers| => if k in waiters then Some(a) else answers[k])
  }

  function ReleaseAll(drains: seq<Drain>, drainWaiters: seq<nat>, release: Release): (r: seq<Drain>)
    ensures |r| == |drains|
    ensures forall k :: 0 <= k < |r| ==> r[k] == if k in drainWaiters then drains[k].(resolved := Some(release)) else drains[k]
  {
    seq(|drains|, k requires 0 <= k < |drains| => if k in drainWaiters then drains[k].(resolved := Some(release)) else drains[k])
  }

  function Pushed<T, E>(q: Queue<T, E>, v: T): Queue<T, E>
    requires Valid(q)
  {
    if !q.state.Open? then q
    else
      var h := q.history.(accepted := q.history.accepted + [v]);
      if q.waiters == [] then q.(values := q.values + [v], history := h)
      else q.(waiters := q.waiters[1..], history := h.(answers := h.answers[q.waiters[0] := Some(Value(v))]))
  }

  function Closed<T, E>(q: Queue<T, E>, state: State<E>, a: Answer<T, E>): Queue<T, E> {
    if !q.state.Open? then q
    else
      var answers := AnswerAll(q.history.answers, q.waiters, a);
      Queue(q.values, [], [], state,
            q.history.(answers := answers, drains := ReleaseAll(q.history.drains, q.drainWaiters, Release(false, |Taken(answers)|))))
  }

  function Asked<T, E>(q: Queue<T, E>): Queue<T, E> {
    var answers := q.history.answers;
    if q.values != [] then
      q.(values := q.values[1..], history := q.history.(answers := answers + [Some(Value(q.values[0]))]))
    else match q.state
      case Failed(e) => q.(history := q.history.(answers := answers + [Some(Rejected(e))]))
      case Ended => q.(history := q.history.(answers := answers + [Some(Done)]))
      case Open =>
        q.(waiters := q.waiters + [|answers|], drainWaiters := [],
           history := q.history.(answers := answers + [None],
                                 drains := ReleaseAll(q.history.drains, q.drainWaiters, Release(true, |Taken(answers)|))))
  }

  function DrainAsked<T, E>(q: Queue<T, E>): Queue<T, E> {
    var drains, mark := q.history.drains, |q.history.accepted|;
    if !q.state.Open? || (q.values == [] && q.waiters != []) then
      q.(history := q.history.(drains := drains + [Drain(mark, Some(Release(q.state.Open?, |Taken(q.history.answers)|)))]))
    else
      q.(drainWaiters := q.drainWaiters + [|drains|], history := q.history.(drains := drains + [Drain(mark, None)]))
  }

  // ---------------------------------------------------------------- the invariant

  ghost predicate Consecutive(waiters: seq<nat>, end: nat) {
    |waiters| <= end && forall i :: 0 <= i < |waiters| ==> waiters[i] == end - |waiters| + i
  }

  /**
   * Values and readers never both wait; the readers waiting are exactly the latest unanswered calls; what was accepted is what
   * was handed out, in call order, followed by what is stored; and a release while open came after everything marked was taken.
   */
  ghost predicate Valid<T, E>(q: Queue<T, E>) {
    && (q.values == [] || q.waiters == [])
    && (!q.state.Open? ==> q.waiters == [] && q.drainWaiters == [])
    && (q.waiters != [] ==> q.drainWaiters == [])
    && Consecutive(q.waiters, |q.history.answers|)
    && (forall k :: 0 <= k < |q.history.answers| ==> (q.history.answers[k].None? <==> k >= |q.history.answers| - |q.waiters|))
    && q.history.accepted == Taken(q.history.answers) + q.values
    && (forall d :: 0 <= d < |q.history.drains| ==>
          && q.history.drains[d].mark <= |q.history.accepted|
          && (q.history.drains[d].resolved.None? <==> d in q.drainWaiters)
          && (q.history.drains[d].resolved.Some? && q.history.drains[d].resolved.value.open ==>
                q.history.drains[d].resolved.value.taken >= q.history.drains[d].mark))
    && forall d :: d in q.drainWaiters ==> d < |q.history.drains|
  }

  lemma TakenLast<T, E>(answers: seq<Option<Answer<T, E>>>, a: Option<Answer<T, E>>)
    ensures Taken(answers + [a]) == Taken(answers) + (if a.Some? && a.value.Value? then [a.value.value] else [])
  {
    assert (answers + [a])[..|answers|] == answers;
  }

  /** Answering an unanswered suffix with no value hands out nothing. */
  lemma {:induction false} TakenSame<T, E>(a: seq<Option<Answer<T, E>>>, b: seq<Option<Answer<T, E>>>)
    requires |a| == |b|
    requires forall k :: 0 <= k < |a| ==> a[k] == b[k] || (a[k].None? && b[k].Some? && !b[k].value.Value?)
    ensures Taken(a) == Taken(b)
  {
    if a != [] {
      TakenSame(a[..|a| - 1], b[..|b| - 1]);
    }
  }

  /** Answering the oldest of an unanswered suffix with a value appends that value. */
  lemma {:induction false} TakenFirstWaiter<T, E>(answers: seq<Option<Answer<T, E>>>, k: nat, v: T)
    requires k < |answers| && forall i :: k <= i < |answers| ==> answers[i].None?
    ensures Taken(answers[k := Some(Value(v))]) == Taken(answers) + [v]
  {
    var next := answers[k := Some(Value(v))];
    var n := |answers| - 1;
    if k == n {
      assert next[..n] == answers[..n];
    } else {
      TakenFirstWaiter(answers[..n], k, v);
      assert next[..n] == answers[..n][k := Some(Value(v))];
    }
  }

  lemma PushedValid<T, E>(q: Queue<T, E>, v: T)
    requires Valid(q)
    ensures Valid(Pushed(q, v))
  {
    hide Taken;
    if q.state.Open? && q.waiters != [] {
      TakenFirstWaiter(q.history.answers, q.waiters[0], v);
    }
  }

  lemma ClosedValid<T, E>(q: Queue<T, E>, state: State<E>, a: Answer<T, E>)
    requires Valid(q) && !state.Open? && !a.Value?
    ensures Valid(Closed(q, state, a))
  {
    hide Taken;
    var answers := q.history.answers;
    forall k | 0 <= k < |answers| ensures k in q.waiters <==> answers[k].None?
    {
      if answers[k].None? { assert q.waiters[k - (|answers| - |q.waiters|)] == k; }
    }
    if q.state.Open? { TakenSame(answers, AnswerAll(answers, q.waiters, a)); }
  }

  lemma AskedValid<T, E>(q: Queue<T, E>)
    requires Valid(q)
    ensures Valid(Asked(q))
  {
    hide Taken;
    var answers := q.history.answers;
    TakenLast(answers, None);
    TakenLast(answers, Some(Done));
    if q.values != [] { TakenLast(answers, Some(Value(q.values[0]))); }
    if q.state.Failed? { TakenLast(answers, Some(Rejected(q.state.error))); }
  }

  lemma DrainAskedValid<T, E>(q: Queue<T, E>)
    requires Valid(q)
    ensures Valid(DrainAsked(q))
  {
    hide Taken;
    forall d | 0 <= d < |DrainAsked(q).history.drains|
      ensures DrainAsked(q).history.drains[d].resolved.None? <==> d in DrainAsked(q).drainWaiters
    {
    }
  }

  // ---------------------------------------------------------------- whole runs

  datatype Op<T, E> = Push(value: T) | End | Fail(error: E) | Next | DrainedCall

  function Apply<T, E>(q: Queue<T, E>, op: Op<T, E>): Queue<T, E>
    requires Valid(q)
  {
    match op
    case Push(v) => Pushed(q, v)
    case End => Closed(q, Ended, Done)
    case Fail(e) => Closed(q, Failed(e), Rejected(e))
    case Next => Asked(q)
    case DrainedCall => DrainAsked(q)
  }

  lemma ApplyValid<T, E>(q: Queue<T, E>, op: Op<T, E>)
    requires Valid(q)
    ensures Valid(Apply(q, op))
  {
    hide Valid, Pushed, Closed, Asked, DrainAsked;
    match op
    case Push(v) => PushedValid(q, v);
    case End => ClosedValid(q, Ended, Done);
    case Fail(e) => ClosedValid(q, Failed(e), Rejected(e));
    case Next => AskedValid(q);
    case DrainedCall => DrainAskedValid(q);
  }

  lemma EmptyValid<T, E>()
    ensures Valid(Empty<T, E>())
  {
  }

  function Run<T, E>(ops: seq<Op<T, E>>): (q: Queue<T, E>)
    ensures Valid(q)
  {
    if ops == [] then
      EmptyValid<T, E>();
      Empty()
    else
      ApplyValid(Run(ops[..|ops| - 1]), ops[|ops| - 1]);
      Apply(Run(ops[..|ops| - 1]), ops[|ops| - 1])
  }

  /** The values pushed before the first `end` or `fail`. */
  function PushedWhileOpen<T, E>(ops: seq<Op<T, E>>): seq<T> {
    if ops == [] || ops[0].End? || ops[0].Fail? then []
    else (if ops[0].Push? then [ops[0].value] else []) + PushedWhileOpen(ops[1..])
  }

  ghost predicate NeverClosed<T, E>(ops: seq<Op<T, E>>) {
    forall i :: 0 <= i < |ops| ==> !ops[i].End? && !ops[i].Fail?
  }

  lemma {:induction false} PushedWhileOpenLast<T, E>(ops: seq<Op<T, E>>, op: Op<T, E>)
    ensures PushedWhileOpen(ops + [op]) ==
      PushedWhileOpen(ops) + (if NeverClosed(ops) && op.Push? then [op.value] else [])
  {
    if ops == [] {
      assert (ops + [op])[1..] == [];
    } else {
      assert (ops + [op])[1..] == ops[1..] + [op];
      PushedWhileOpenLast(ops[1..], op);
      assert NeverClosed(ops) <==> !ops[0].End? && !ops[0].Fail? && NeverClosed(ops[1..]);
    }
  }

  lemma ApplyAccepts<T, E>(q: Queue<T, E>, op: Op<T, E>)
    requires Valid(q)
    ensures Apply(q, op).history.accepted == q.history.accepted + (if q.state.Open? && op.Push? then [op.value] else [])
    ensures Apply(q, op).state.Open? <==> q.state.Open? && !op.End? && !op.Fail?
  {
    hide Taken;
  }

  lemma {:induction false} RunAccepts<T, E>(ops: seq<Op<T, E>>)
    ensures Run(ops).history.accepted == PushedWhileOpen(ops)
    ensures Run(ops).state.Open? <==> NeverClosed(ops)
  {
    hide Valid, Apply;
    if ops != [] {
      var front, op := ops[..|ops| - 1], ops[|ops| - 1];
      RunAccepts(front);
      assert ops == front + [op];
      PushedWhileOpenLast(front, op);
      ApplyAccepts(Run(front), op);
    }
  }

  /**
   * The queue's promises, over every run. The k-th value handed out, counting calls in order, is the k-th value pushed while open;
   * values and readers never both wait; closing leaves no reader and no drain waiting; and a drain released while the queue was
   * open was released after every value pushed before it had been taken.
   */
  lemma QueueRuns<T, E>(ops: seq<Op<T, E>>)
    ensures var q := Run(ops);
      && PushedWhileOpen(ops) == Taken(q.history.answers) + q.values
      && (q.values == [] || q.waiters == [])
      && (!NeverClosed(ops) ==> q.waiters == [] && q.drainWaiters == [])
      && (q.waiters != [] ==> q.drainWaiters == [])
      && (forall k :: 0 <= k < |q.history.answers| ==> (q.history.answers[k].None? <==> k in q.waiters))
      && forall d :: 0 <= d < |q.history.drains| && q.history.drains[d].resolved.Some? && q.history.drains[d].resolved.value.open ==>
           q.history.drains[d].resolved.value.taken >= q.history.drains[d].mark
  {
    hide Taken, Run, PushedWhileOpen, NeverClosed;
    RunAccepts(ops);
    var q := Run(ops);
    var first := |q.history.answers| - |q.waiters|;
    forall k | 0 <= k < |q.history.answers| ensures q.history.answers[k].None? <==> k in q.waiters
    {
      if k >= first { assert q.waiters[k - first] == k; }
    }
  }

  /** The answer of the first `end` or `fail`, if there was one. */
  function FirstClose<T, E>(ops: seq<Op<T, E>>): Option<Answer<T, E>> {
    if ops == [] then None
    else if ops[0].End? then Some(Done)
    else if ops[0].Fail? then Some(Rejected(ops[0].error))
    else FirstClose(ops[1..])
  }

  lemma {:induction false} FirstCloseLast<T, E>(ops: seq<Op<T, E>>, op: Op<T, E>)
    ensures FirstClose(ops + [op]) ==
      if FirstClose(ops).Some? then FirstClose(ops) else if op.End? then Some(Done) else if op.Fail? then Some(Rejected(op.error)) else None
  {
    if ops == [] {
      assert (ops + [op])[1..] == [];
    } else {
      assert (ops + [op])[1..] == ops[1..] + [op];
      FirstCloseLast(ops[1..], op);
    }
  }

  /** The state is what the first close left; an answer without a value is that close's, and is given only with nothing left stored. */
  ghost predicate CloseTold<T, E>(q: Queue<T, E>, close: Option<Answer<T, E>>) {
    && (match q.state
        case Open => close.None?
        case Ended => close == Some(Done)
        case Failed(e) => close == Some(Rejected(e)))
    && (forall k :: 0 <= k < |q.history.answers| && q.history.answers[k].Some? && !q.history.answers[k].value.Value? ==>
          q.history.answers[k] == close && q.values == [])
  }

  lemma StepTellsClose<T, E>(q: Queue<T, E>, op: Op<T, E>, close: Option<Answer<T, E>>)
    requires Valid(q) && CloseTold(q, close)
    ensures CloseTold(Apply(q, op),
      if close.Some? then close else if op.End? then Some(Done) else if op.Fail? then Some(Rejected(op.error)) else None)
  {
    hide Taken;
  }

  /**
   * Over every run: a `next()` call that is answered without a value is told of the first `end` or `fail`, `done` or the error itself,
   * and only when every accepted value has been handed out.
   */
  lemma {:induction false} CloseTells<T, E>(ops: seq<Op<T, E>>)
    ensures CloseTold(Run(ops), FirstClose(ops))
  {
    hide Valid, Apply, CloseTold;
    if ops == [] {
      NothingClosed<T, E>();
    } else {
      var front, op := ops[..|ops| - 1], ops[|ops| - 1];
      assert ops == front + [op];
      CloseTells(front);
      FirstCloseLast(front, op);
      StepTellsClose(Run(front), op, FirstClose(front));
    }
  }

  lemma NothingClosed<T, E>()
    ensures CloseTold(Empty<T, E>(), None)
  {
  }

  lemma StepKeepsAnswer<T, E>(q: Queue<T, E>, op: Op<T, E>, k: nat)
    requires Valid(q) && k < |q.history.answers| && q.history.answers[k].Some?
    ensures k < |Apply(q, op).history.answers| && Apply(q, op).history.answers[k] == q.history.answers[k]
  {
    hide Taken;
  }

  /** A settled promise never changes: what a call was answered, it stays answered, whatever happens next. */
  lemma {:induction false} AnswersAreFinal<T, E>(ops: seq<Op<T, E>>, more: seq<Op<T, E>>, k: nat)
    requires k < |Run(ops).history.answers| && Run(ops).history.answers[k].Some?
    ensures k < |Run(ops + more).history.answers| && Run(ops + more).history.answers[k] == Run(ops).history.answers[k]
    decreases |more|
  {
    hide Valid, Apply;
    if more == [] {
      assert ops + more == ops;
    } else {
      var front, op := more[..|more| - 1], more[|more| - 1];
      AnswersAreFinal(ops, front, k);
      StepKeepsAnswer(Run(ops + front), op, k);
      assert (ops + more)[..|ops + more| - 1] == ops + front && (ops + more)[|ops + more| - 1] == op;
    }
  }

  // ---------------------------------------------------------------- the class

  class AsyncPushQueue<T, E> {
    var values: seq<T>
    var waiters: seq<nat>
    var drainWaiters: seq<nat>
    var state: State<E>
    var history: History<T, E>

    ghost function Snapshot(): Queue<T, E>
      reads this
    {
      Queue(values, waiters, drainWaiters, state, history)
    }

    constructor ()
      ensures Snapshot() == Empty()
    {
      values, waiters, drainWaiters, state := [], [], [], Open;
      history := History([], [], []);
    }

    method Push(value: T)
      requires Valid(Snapshot())
      modifies this
      ensures Snapshot() == Pushed(old(Snapshot()), value) && Valid(Snapshot())
    {
      PushedValid(Snapshot(), value);
      if !state.Open? { return; }
      history := history.(accepted := history.accepted + [value]);
      if waiters != [] {
        var waiter := waiters[0];
        waiters := waiters[1..];
        history := history.(answers := history.answers[waiter := Some(Value(value))]);
      } else {
        values := values + [value];
      }
    }

    method Close(closed: State<E>, a: Answer<T, E>)
      requires Valid(Snapshot()) && !closed.Open? && !a.Value?
      modifies this
      ensures Snapshot() == Closed(old(Snapshot()), closed, a) && Valid(Snapshot())
    {
      ClosedValid(Snapshot(), closed, a);
      if !state.Open? { return; }
      state := closed;
      history := history.(answers := AnswerAll(history.answers, waiters, a));
      waiters := [];
      ReleaseDrained(false);
    }

    method End()
      requires Valid(Snapshot())
      modifies this
      ensures Snapshot() == Closed(old(Snapshot()), Ended, Done) && Valid(Snapshot())
    {
      Close(Ended, Done);
    }

    method Fail(error: E)
      requires Valid(Snapshot())
      modifies this
      ensures Snapshot() == Closed(old(Snapshot()), Failed(error), Rejected(error)) && Valid(Snapshot())
    {
      Close(Failed(error), Rejected(error));
    }

    /** The promise returned is the call's slot in the history. */
    method Next() returns (call: nat)
      requires Valid(Snapshot())
      modifies this
      ensures Snapshot() == Asked(old(Snapshot())) && Valid(Snapshot())
      ensures call == |old(history.answers)| < |history.answers|
    {
      hide Taken;
      AskedValid(Snapshot());
      call := |history.answers|;
      if values != [] {
        history := history.(answers := history.answers + [Some(Value(values[0]))]);
        values := values[1..];
        return;
      }
      match state {
        case Failed(e) => history := history.(answers := history.answers + [Some(Rejected(e))]);
        case Ended => history := history.(answers := history.answers + [Some(Done)]);
        case Open =>
          ReleaseDrained(true);
          waiters := waiters + [|history.answers|];
          history := history.(answers := history.answers + [None]);
      }
    }

    method Drained()
      requires Valid(Snapshot())
      modifies this
      ensures Snapshot() == DrainAsked(old(Snapshot())) && Valid(Snapshot())
    {
      hide Taken;
      DrainAskedValid(Snapshot());
      var open := state.Open?;
      if !open || (values == [] && waiters != []) {
        history := history.(drains := history.drains + [Drain(|history.accepted|, Some(Release(open, |Taken(history.answers)|)))]);
        return;
      }
      drainWaiters := drainWaiters + [|history.drains|];
      history := history.(drains := history.drains + [Drain(|history.accepted|, None)]);
    }

    method ReleaseDrained(open: bool)
      modifies this`drainWaiters, this`history
      ensures drainWaiters == []
      ensures history == old(history).(drains := ReleaseAll(old(history.drains), old(drainWaiters), Release(open, |Taken(old(history.answers))|)))
    {
      history := history.(drains := ReleaseAll(history.drains, drainWaiters, Release(open, |Taken(history.answers)|)));
      drainWaiters := [];
    }
  }
}
