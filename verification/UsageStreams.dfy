/**
 * A turn's token usage as independent per-scope streams (packages/agent-runtime-contract/src/usage-streams.ts).
 */
module UsageStreams {
  import opened Text

  /** The one-hour share of cache writes: absent, present but null, or a count. */
  datatype OneHour = Absent | Null | Count(n: int)

  datatype Tokens = Tokens(input: Option<int>, output: Option<int>, reasoning: Option<int>, read: Option<int>, write: Option<int>,
                           oneHour: OneHour)

  datatype Kind = Cumulative | Delta

  datatype Observation = Observation(kind: Kind, scope: Option<string>, tokens: Tokens, providerId: Option<string>,
                                     sequence: Option<int>, nativeSession: Option<string>, observedAt: Option<int>)

  const UNKNOWN := Tokens(None, None, None, None, None, Absent)

  function Add(previous: Option<int>, delta: Option<int>): Option<int> {
    if delta.None? then previous
    else Some((if previous.None? then 0 else previous.value) + delta.value)
  }

  function CountOf(h: OneHour): Option<int> {
    if h.Count? then Some(h.n) else None
  }

  /** `applyObservation` of a delta. */
  function Plus(previous: Tokens, delta: Tokens): Tokens {
    var oneHour := Add(CountOf(previous.oneHour), CountOf(delta.oneHour));
    Tokens(
      Add(previous.input, delta.input), Add(previous.output, delta.output), Add(previous.reasoning, delta.reasoning),
      Add(previous.read, delta.read), Add(previous.write, delta.write),
      if oneHour.None? then Absent else Count(oneHour.value))
  }

  function ApplyObservation(previous: Tokens, o: Observation): Tokens {
    if o.kind.Cumulative? then o.tokens else Plus(previous, o.tokens)
  }

  function OneHourWithinWrites(t: Tokens): Tokens {
    if !t.oneHour.Count? then t
    else if t.write.None? then t.(oneHour := Absent)
    else if t.oneHour.n > t.write.value then t.(oneHour := Count(t.write.value))
    else t
  }

  /** An observation's replay key: a delta's provider id, or every field a snapshot's signature is made of. */
  datatype ObservationKey =
    | ProviderKey(scope: string, id: string)
    | SnapshotKey(kind: Kind, scope: string, sequence: Option<int>, providerId: Option<string>, nativeSession: Option<string>,
                  observedAt: Option<int>, tokens: Tokens)

  function ScopeOf(o: Observation): string {
    if o.scope.None? then "" else o.scope.value
  }

  function KeyOf(o: Observation): ObservationKey {
    if o.kind.Delta? && o.providerId.Some? && o.providerId.value != "" then ProviderKey(ScopeOf(o), o.providerId.value)
    else SnapshotKey(o.kind, ScopeOf(o), o.sequence, o.providerId, o.nativeSession, o.observedAt, o.tokens)
  }

  /** The two maps, and the order in which scopes were first seen, which is the order their values are iterated in. */
  datatype State = State(streams: map<string, Tokens>, lastKeys: map<string, ObservationKey>, order: seq<string>)

  const EMPTY := State(map[], map[], [])

  predicate IsRepeated(s: State, o: Observation) {
    ScopeOf(o) in s.lastKeys && s.lastKeys[ScopeOf(o)] == KeyOf(o)
  }

  function Recorded(s: State, o: Observation): State {
    var scope := ScopeOf(o);
    if IsRepeated(s, o) then s
    else
      var previous := if scope in s.streams then s.streams[scope] else UNKNOWN;
      State(s.streams[scope := OneHourWithinWrites(ApplyObservation(previous, o))], s.lastKeys[scope := KeyOf(o)],
            if scope in s.streams then s.order else s.order + [scope])
  }

  function RecordedAll(observations: seq<Observation>): State {
    if observations == [] then EMPTY
    else Recorded(RecordedAll(observations[..|observations| - 1]), observations[|observations| - 1])
  }

  /** The sum of some streams, added one after another. */
  function SumOver(tokens: seq<Tokens>): Tokens {
    if tokens == [] then UNKNOWN else Plus(SumOver(tokens[..|tokens| - 1]), tokens[|tokens| - 1])
  }

  ghost predicate Covers(order: seq<string>, keys: set<string>) {
    && (forall k :: k in keys <==> k in order)
    && (forall i, j :: 0 <= i < j < |order| ==> order[i] != order[j])
  }

  ghost predicate Valid(s: State) {
    s.streams.Keys == s.lastKeys.Keys && Covers(s.order, s.streams.Keys)
  }

  function Values(streams: map<string, Tokens>, order: seq<string>): (v: seq<Tokens>)
    requires forall i :: 0 <= i < |order| ==> order[i] in streams
    ensures |v| == |order|
    ensures forall i :: 0 <= i < |order| ==> v[i] == streams[order[i]]
  {
    seq(|order|, i requires 0 <= i < |order| => streams[order[i]])
  }

  function Total(s: State): Tokens
    requires forall i :: 0 <= i < |s.order| ==> s.order[i] in s.streams
  {
    SumOver(Values(s.streams, s.order))
  }

  lemma RecordedIsValid(s: State, o: Observation)
    requires Valid(s)
    ensures Valid(Recorded(s, o))
  {
    hide KeyOf, ApplyObservation, OneHourWithinWrites;
    var t := Recorded(s, o);
    forall k | k in t.streams.Keys ensures k in t.order
    {
      if k == ScopeOf(o) && k !in s.streams { assert t.order[|s.order|] == k; }
    }
  }

  lemma {:induction false} RecordedAllIsValid(observations: seq<Observation>)
    ensures Valid(RecordedAll(observations))
  {
    hide Recorded, Valid;
    if observations == [] {
      assert Valid(EMPTY) by { EmptyIsValid(); }
    } else {
      RecordedAllIsValid(observations[..|observations| - 1]);
      RecordedIsValid(RecordedAll(observations[..|observations| - 1]), observations[|observations| - 1]);
    }
  }

  lemma EmptyIsValid()
    ensures Valid(EMPTY)
  {
  }

  // ---------------------------------------------------------------- one scope at a time

  /** What one scope holds: its running tokens, and the key of the last observation it applied. */
  datatype Cell = Cell(tokens: Tokens, key: ObservationKey)

  function CellOf(s: State, scope: string): Option<Cell> {
    if scope in s.streams && scope in s.lastKeys then Some(Cell(s.streams[scope], s.lastKeys[scope])) else None
  }

  /** A stream on its own: an observation with the last key changes nothing. */
  function StreamStep(cell: Option<Cell>, o: Observation): Option<Cell> {
    if cell.Some? && cell.value.key == KeyOf(o) then cell
    else Some(Cell(OneHourWithinWrites(ApplyObservation(if cell.Some? then cell.value.tokens else UNKNOWN, o)), KeyOf(o)))
  }

  function Stream(observations: seq<Observation>): Option<Cell> {
    if observations == [] then None
    else StreamStep(Stream(observations[..|observations| - 1]), observations[|observations| - 1])
  }

  function InScope(observations: seq<Observation>, scope: string): seq<Observation> {
    if observations == [] then []
    else
      var last := observations[|observations| - 1];
      InScope(observations[..|observations| - 1], scope) + (if ScopeOf(last) == scope then [last] else [])
  }

  lemma RecordedCell(s: State, o: Observation, scope: string)
    requires Valid(s)
    ensures CellOf(Recorded(s, o), scope) ==
      if ScopeOf(o) == scope then StreamStep(CellOf(s, scope), o) else CellOf(s, scope)
  {
    hide KeyOf, ApplyObservation, OneHourWithinWrites, ScopeOf, Covers;
    assert scope in s.streams <==> scope in s.lastKeys.Keys;
  }

  /** Each scope evolves from its own observations alone. */
  lemma {:induction false} ScopesAreIndependent(observations: seq<Observation>, scope: string)
    ensures CellOf(RecordedAll(observations), scope) == Stream(InScope(observations, scope))
  {
    hide Recorded, StreamStep, ScopeOf, CellOf;
    if observations == [] {
      EmptyCell(scope);
    } else {
      var front, last := observations[..|observations| - 1], observations[|observations| - 1];
      ScopesAreIndependent(front, scope);
      RecordedAllIsValid(front);
      RecordedCell(RecordedAll(front), last, scope);
      if ScopeOf(last) == scope {
        var mine := InScope(front, scope) + [last];
        assert mine[..|mine| - 1] == InScope(front, scope);
      } else {
        assert InScope(observations, scope) == InScope(front, scope);
      }
    }
  }

  lemma EmptyCell(scope: string)
    ensures CellOf(EMPTY, scope) == None
  {
  }

  // ---------------------------------------------------------------- sums in any order

  lemma PlusCommutes(x: Tokens, a: Tokens, b: Tokens)
    ensures Plus(Plus(x, a), b) == Plus(Plus(x, b), a)
  {
  }

  /** Any element may be added last. */
  lemma {:induction false} SumOverMove(a: seq<Tokens>, x: Tokens, b: seq<Tokens>)
    ensures SumOver(a + [x] + b) == Plus(SumOver(a + b), x)
    decreases |b|
  {
    hide Plus;
    var all := a + [x] + b;
    if b == [] {
      assert all[..|all| - 1] == a && a + b == a;
    } else {
      var front, last := b[..|b| - 1], b[|b| - 1];
      assert all[..|all| - 1] == a + [x] + front;
      assert (a + b)[..|a + b| - 1] == a + front;
      SumOverMove(a, x, front);
      PlusCommutes(SumOver(a + front), x, last);
    }
  }

  ghost predicate Distinct(p: seq<string>) {
    forall i, j :: 0 <= i < j < |p| ==> p[i] != p[j]
  }

  ghost predicate SameKeys(p: seq<string>, q: seq<string>) {
    forall k :: k in p <==> k in q
  }

  /** Dropping one scope from two orders of the same scopes. */
  lemma DropScope(p: seq<string>, a: seq<string>, last: string, b: seq<string>)
    requires Distinct(p + [last]) && Distinct(a + [last] + b) && SameKeys(p + [last], a + [last] + b)
    ensures Distinct(p) && Distinct(a + b) && SameKeys(p, a + b)
  {
    var q := a + [last] + b;
    assert (p + [last])[|p|] == last && q[|a|] == last;
    assert forall i :: 0 <= i < |p| ==> (p + [last])[i] == p[i];
    forall i | 0 <= i < |a + b| ensures (a + b)[i] == q[if i < |a| then i else i + 1] {}
    forall k ensures k in p <==> k in a + b
    {
      if k in p {
        assert k in p + [last] && k != last;
        assert k in q;
      }
      if k in a + b {
        assert k in q && k != last;
        assert k in p + [last];
      }
    }
  }

  lemma ValuesMove(streams: map<string, Tokens>, a: seq<string>, last: string, b: seq<string>)
    requires forall i :: 0 <= i < |a + [last] + b| ==> (a + [last] + b)[i] in streams
    ensures last in streams && (forall i :: 0 <= i < |a + b| ==> (a + b)[i] in streams)
    ensures SumOver(Values(streams, a + [last] + b)) == Plus(SumOver(Values(streams, a + b)), streams[last])
  {
    hide Plus, SumOver;
    var q := a + [last] + b;
    assert q[|a|] == last;
    forall i | 0 <= i < |a + b| ensures (a + b)[i] == q[if i < |a| then i else i + 1] {}
    var va, vb := Values(streams, a + b)[..|a|], Values(streams, a + b)[|a|..];
    SumOverMove(va, streams[last], vb);
    assert Values(streams, q) == va + [streams[last]] + vb;
    assert Values(streams, a + b) == va + vb;
  }

  /** Two orders of the same scopes sum to the same total. */
  lemma {:induction false} SumOverAnyOrder(streams: map<string, Tokens>, p: seq<string>, q: seq<string>)
    requires forall i :: 0 <= i < |p| ==> p[i] in streams
    requires forall i :: 0 <= i < |q| ==> q[i] in streams
    requires SameKeys(p, q) && Distinct(p) && Distinct(q)
    ensures SumOver(Values(streams, p)) == SumOver(Values(streams, q))
    decreases |p|
  {
    hide Plus, SumOver, Distinct;
    assert q == [] || q[0] in q;
    assert q == [] || q[0] in p;
    if p != [] {
      var front, last := p[..|p| - 1], p[|p| - 1];
      assert last in p;
      var m :| 0 <= m < |q| && q[m] == last;
      var a, b := q[..m], q[m + 1..];
      assert p == front + [last] && q == a + [last] + b;
      DropScope(front, a, last, b);
      ValuesMove(streams, a, last, b);
      assert front + [last] + [] == p && front + [] == front;
      ValuesMove(streams, front, last, []);
      SumOverAnyOrder(streams, front, a + b);
    }
  }

  // ---------------------------------------------------------------- the promises

  lemma EqualStreams(s: State, t: State)
    requires Valid(s) && Valid(t)
    requires forall scope :: CellOf(s, scope) == CellOf(t, scope)
    ensures s.streams == t.streams
  {
    forall k ensures k in s.streams <==> k in t.streams
    {
      assert CellOf(s, k) == CellOf(t, k);
      assert (k in s.streams <==> k in s.lastKeys.Keys) && (k in t.streams <==> k in t.lastKeys.Keys);
    }
    forall k | k in s.streams ensures s.streams[k] == t.streams[k]
    {
      assert CellOf(s, k) == CellOf(t, k) && k in s.lastKeys.Keys && k in t.lastKeys.Keys;
    }
  }

  function FoldUsageObservations(observations: seq<Observation>): Tokens {
    RecordedAllIsValid(observations);
    Total(RecordedAll(observations))
  }

  /** Only the order within each scope matters: orders that agree scope by scope fold to the same streams and the same total. */
  lemma OrderAcrossScopesIsIrrelevant(a: seq<Observation>, b: seq<Observation>)
    requires forall scope :: InScope(a, scope) == InScope(b, scope)
    ensures RecordedAll(a).streams == RecordedAll(b).streams
    ensures FoldUsageObservations(a) == FoldUsageObservations(b)
  {
    hide RecordedAll, InScope, Stream, CellOf, SumOver, Distinct;
    RecordedAllIsValid(a);
    RecordedAllIsValid(b);
    var s, t := RecordedAll(a), RecordedAll(b);
    forall scope ensures CellOf(s, scope) == CellOf(t, scope)
    {
      ScopesAreIndependent(a, scope);
      ScopesAreIndependent(b, scope);
    }
    EqualStreams(s, t);
    OrdersAgree(s, t);
    SumOverAnyOrder(s.streams, s.order, t.order);
  }

  lemma OrdersAgree(s: State, t: State)
    requires Valid(s) && Valid(t) && s.streams == t.streams
    ensures SameKeys(s.order, t.order) && Distinct(s.order) && Distinct(t.order)
  {
  }

  /** The last key of a scope remembers what a cumulative observation left there. */
  ghost predicate KeyRemembers(cell: Cell) {
    cell.key.SnapshotKey? && cell.key.kind.Cumulative? ==> cell.tokens == OneHourWithinWrites(cell.key.tokens)
  }

  lemma StepRemembers(cell: Option<Cell>, o: Observation)
    requires cell.Some? ==> KeyRemembers(cell.value)
    ensures StreamStep(cell, o).Some? && KeyRemembers(StreamStep(cell, o).value)
    ensures o.kind.Cumulative? ==> StreamStep(cell, o).value.tokens == OneHourWithinWrites(o.tokens)
  {
    hide OneHourWithinWrites;
  }

  lemma {:induction false} StreamRemembers(observations: seq<Observation>)
    ensures Stream(observations).Some? ==> KeyRemembers(Stream(observations).value)
  {
    hide KeyRemembers, StreamStep;
    if observations != [] {
      var front := observations[..|observations| - 1];
      StreamRemembers(front);
      StepRemembers(Stream(front), observations[|observations| - 1]);
    }
  }

  /** A cumulative observation, repeated or not, leaves its scope at its own clamped tokens, whatever came before. */
  lemma CumulativeReplaces(before: seq<Observation>, o: Observation)
    requires o.kind.Cumulative?
    ensures var s := RecordedAll(before + [o]);
      ScopeOf(o) in s.streams && s.streams[ScopeOf(o)] == OneHourWithinWrites(o.tokens)
  {
    hide OneHourWithinWrites, StreamStep, KeyRemembers, Stream;
    var scope := ScopeOf(o);
    ScopesAreIndependent(before, scope);
    StreamRemembers(InScope(before, scope));
    RecordedAllIsValid(before);
    assert (before + [o])[..|before|] == before;
    RecordedCell(RecordedAll(before), o, scope);
    StepRemembers(CellOf(RecordedAll(before), scope), o);
  }

  /** Recording an observation again at once changes nothing. */
  lemma RepeatIsIgnored(before: seq<Observation>, o: Observation)
    ensures RecordedAll(before + [o] + [o]) == RecordedAll(before + [o])
  {
    hide OneHourWithinWrites, ApplyObservation, KeyOf;
    assert (before + [o] + [o])[..|before| + 1] == before + [o];
    assert (before + [o])[..|before|] == before;
  }

  predicate WritesNonNegative(t: Tokens) {
    t.write.Some? ==> t.write.value >= 0
  }

  predicate WithinWrites(t: Tokens) {
    t.oneHour.Count? ==> t.write.Some? && t.oneHour.n <= t.write.value
  }

  /** The clamp gives exactly the largest share that fits: the tokens' own when it fits, all writes, or none. */
  lemma ClampFits(t: Tokens)
    ensures t.oneHour.Count? && t.write.Some? ==>
      OneHourWithinWrites(t).oneHour == Count(if t.oneHour.n <= t.write.value then t.oneHour.n else t.write.value)
    ensures t.oneHour.Count? && t.write.None? ==> OneHourWithinWrites(t).oneHour == Absent
    ensures !t.oneHour.Count? ==> OneHourWithinWrites(t) == t
    ensures WithinWrites(OneHourWithinWrites(t))
    ensures WithinWrites(t) ==> OneHourWithinWrites(t) == t
    ensures OneHourWithinWrites(t).(oneHour := t.oneHour) == t
  {
  }

  lemma StepFits(cell: Option<Cell>, o: Observation)
    requires WritesNonNegative(o.tokens) && (cell.Some? ==> WritesNonNegative(cell.value.tokens) && WithinWrites(cell.value.tokens))
    ensures WritesNonNegative(StreamStep(cell, o).value.tokens) && WithinWrites(StreamStep(cell, o).value.tokens)
  {
    hide KeyOf;
  }

  lemma {:induction false} StreamFits(observations: seq<Observation>)
    requires forall i :: 0 <= i < |observations| ==> WritesNonNegative(observations[i].tokens)
    ensures Stream(observations).Some? ==>
      WritesNonNegative(Stream(observations).value.tokens) && WithinWrites(Stream(observations).value.tokens)
  {
    hide StreamStep, WritesNonNegative, WithinWrites;
    if observations != [] {
      var front := observations[..|observations| - 1];
      StreamFits(front);
      StepFits(Stream(front), observations[|observations| - 1]);
    }
  }

  lemma {:induction false} InScopeKeeps(observations: seq<Observation>, scope: string)
    ensures forall x :: x in InScope(observations, scope) ==> x in observations
  {
    if observations != [] {
      InScopeKeeps(observations[..|observations| - 1], scope);
    }
  }

  lemma {:induction false} SumFits(tokens: seq<Tokens>)
    requires forall i :: 0 <= i < |tokens| ==> WritesNonNegative(tokens[i]) && WithinWrites(tokens[i])
    ensures WritesNonNegative(SumOver(tokens)) && WithinWrites(SumOver(tokens))
  {
    if tokens != [] {
      SumFits(tokens[..|tokens| - 1]);
    }
  }

  /** With non-negative writes, one-hour writes never exceed cache writes, in any scope or in the total, after any number of steps. */
  lemma OneHourNeverExceedsWrites(observations: seq<Observation>)
    requires forall i :: 0 <= i < |observations| ==> WritesNonNegative(observations[i].tokens)
    ensures forall scope :: scope in RecordedAll(observations).streams ==> WithinWrites(RecordedAll(observations).streams[scope])
    ensures WithinWrites(FoldUsageObservations(observations))
  {
    hide RecordedAll, InScope, Stream, SumOver, WritesNonNegative, WithinWrites;
    var s := RecordedAll(observations);
    RecordedAllIsValid(observations);
    forall scope | scope in s.streams ensures WritesNonNegative(s.streams[scope]) && WithinWrites(s.streams[scope])
    {
      ScopesAreIndependent(observations, scope);
      InScopeKeeps(observations, scope);
      var mine := InScope(observations, scope);
      forall i | 0 <= i < |mine| ensures WritesNonNegative(mine[i].tokens) { assert mine[i] in mine; }
      StreamFits(mine);
      assert scope in s.lastKeys.Keys;
    }
    SumFits(Values(s.streams, s.order));
  }

  // ---------------------------------------------------------------- what the numbers are, field by field

  /** The sum of the counts that are known. */
  function Known(counts: seq<Option<int>>): int {
    if counts == [] then 0
    else Known(counts[..|counts| - 1]) + (if counts[|counts| - 1].Some? then counts[|counts| - 1].value else 0)
  }

  /** Unknown when every count is; otherwise the sum of the known ones. */
  function KnownSum(counts: seq<Option<int>>): Option<int> {
    if forall i :: 0 <= i < |counts| ==> counts[i].None? then None else Some(Known(counts))
  }

  lemma KnownSumNext(counts: seq<Option<int>>, c: Option<int>)
    ensures KnownSum(counts + [c]) == if c.None? then KnownSum(counts)
      else Some((if KnownSum(counts).Some? then KnownSum(counts).value else 0) + c.value)
  {
    var all := counts + [c];
    assert all[..|counts|] == counts && all[|counts|] == c;
    assert forall i :: 0 <= i < |counts| ==> all[i] == counts[i];
    AllUnknown(counts);
  }

  lemma {:induction false} AllUnknown(counts: seq<Option<int>>)
    ensures (forall i :: 0 <= i < |counts| ==> counts[i].None?) ==> Known(counts) == 0
  {
    if counts != [] { AllUnknown(counts[..|counts| - 1]); }
  }

  function Inputs(tokens: seq<Tokens>): (r: seq<Option<int>>)
    ensures |r| == |tokens| && forall i :: 0 <= i < |r| ==> r[i] == tokens[i].input
  {
    seq(|tokens|, i requires 0 <= i < |tokens| => tokens[i].input)
  }

  function Outputs(tokens: seq<Tokens>): (r: seq<Option<int>>)
    ensures |r| == |tokens| && forall i :: 0 <= i < |r| ==> r[i] == tokens[i].output
  {
    seq(|tokens|, i requires 0 <= i < |tokens| => tokens[i].output)
  }

  function Reasonings(tokens: seq<Tokens>): (r: seq<Option<int>>)
    ensures |r| == |tokens| && forall i :: 0 <= i < |r| ==> r[i] == tokens[i].reasoning
  {
    seq(|tokens|, i requires 0 <= i < |tokens| => tokens[i].reasoning)
  }

  function Reads(tokens: seq<Tokens>): (r: seq<Option<int>>)
    ensures |r| == |tokens| && forall i :: 0 <= i < |r| ==> r[i] == tokens[i].read
  {
    seq(|tokens|, i requires 0 <= i < |tokens| => tokens[i].read)
  }

  function Writes(tokens: seq<Tokens>): (r: seq<Option<int>>)
    ensures |r| == |tokens| && forall i :: 0 <= i < |r| ==> r[i] == tokens[i].write
  {
    seq(|tokens|, i requires 0 <= i < |tokens| => tokens[i].write)
  }

  function OneHours(tokens: seq<Tokens>): (r: seq<Option<int>>)
    ensures |r| == |tokens| && forall i :: 0 <= i < |r| ==> r[i] == if tokens[i].oneHour.Count? then Some(tokens[i].oneHour.n) else None
  {
    seq(|tokens|, i requires 0 <= i < |tokens| => if tokens[i].oneHour.Count? then Some(tokens[i].oneHour.n) else None)
  }

  /** Each field of the sum but the one-hour share is the known sum of that field. */
  ghost predicate SumsFields(sum: Tokens, tokens: seq<Tokens>) {
    && sum.input == KnownSum(Inputs(tokens)) && sum.output == KnownSum(Outputs(tokens))
    && sum.reasoning == KnownSum(Reasonings(tokens))
    && sum.read == KnownSum(Reads(tokens)) && sum.write == KnownSum(Writes(tokens))
  }

  ghost predicate SumsOneHour(sum: Tokens, tokens: seq<Tokens>) {
    sum.oneHour == var n := KnownSum(OneHours(tokens)); if n.None? then Absent else Count(n.value)
  }

  lemma PlusSumsFields(sum: Tokens, tokens: seq<Tokens>, next: Tokens)
    requires SumsFields(sum, tokens)
    ensures SumsFields(Plus(sum, next), tokens + [next])
  {
    hide KnownSum;
    var all := tokens + [next];
    assert Inputs(all) == Inputs(tokens) + [next.input] && Outputs(all) == Outputs(tokens) + [next.output];
    assert Reasonings(all) == Reasonings(tokens) + [next.reasoning];
    assert Reads(all) == Reads(tokens) + [next.read] && Writes(all) == Writes(tokens) + [next.write];
    KnownSumNext(Inputs(tokens), next.input);
    KnownSumNext(Outputs(tokens), next.output);
    KnownSumNext(Reasonings(tokens), next.reasoning);
    KnownSumNext(Reads(tokens), next.read);
    KnownSumNext(Writes(tokens), next.write);
  }

  lemma PlusSumsOneHour(sum: Tokens, tokens: seq<Tokens>, next: Tokens)
    requires SumsOneHour(sum, tokens)
    ensures SumsOneHour(Plus(sum, next), tokens + [next])
  {
    hide KnownSum;
    var all := tokens + [next];
    assert OneHours(all) == OneHours(tokens) + [CountOf(next.oneHour)];
    KnownSumNext(OneHours(tokens), CountOf(next.oneHour));
  }

  lemma NothingSums()
    ensures SumsFields(UNKNOWN, []) && SumsOneHour(UNKNOWN, [])
  {
  }

  lemma {:induction false} SumOverFields(tokens: seq<Tokens>)
    ensures SumsFields(SumOver(tokens), tokens) && SumsOneHour(SumOver(tokens), tokens)
  {
    hide Plus, SumsFields, SumsOneHour;
    if tokens == [] {
      NothingSums();
    } else {
      var front, last := tokens[..|tokens| - 1], tokens[|tokens| - 1];
      assert tokens == front + [last];
      SumOverFields(front);
      PlusSumsFields(SumOver(front), front, last);
      PlusSumsOneHour(SumOver(front), front, last);
    }
  }

  /** The fold, field by field: unknown when it is unknown in every scope, and otherwise the sum of what the scopes know of it. */
  lemma TotalIsSum(observations: seq<Observation>)
    ensures Valid(RecordedAll(observations))
    ensures var s, total := RecordedAll(observations), FoldUsageObservations(observations);
      SumsFields(total, Values(s.streams, s.order)) && SumsOneHour(total, Values(s.streams, s.order))
  {
    hide RecordedAll, SumOver, SumsFields, SumsOneHour;
    RecordedAllIsValid(observations);
    var s := RecordedAll(observations);
    SumOverFields(Values(s.streams, s.order));
  }

  /** The same report again, told from the observations: a delta by its provider's id, anything else by all it says. */
  predicate Repeats(a: Observation, b: Observation) {
    if a.kind.Delta? && b.kind.Delta? && a.providerId.Some? && a.providerId.value != "" && b.providerId.Some? && b.providerId.value != ""
    then a.providerId == b.providerId
    else a == b.(scope := a.scope)
  }

  lemma RepeatsExactly(a: Observation, b: Observation)
    requires ScopeOf(a) == ScopeOf(b)
    ensures KeyOf(a) == KeyOf(b) <==> Repeats(a, b)
  {
  }

  /** No scope and an empty scope are one stream. */
  lemma NoScopeIsEmptyScope(s: State, o: Observation)
    ensures Recorded(s, o.(scope := None)) == Recorded(s, o.(scope := Some("")))
  {
  }

  function TokensOf(observations: seq<Observation>): (r: seq<Tokens>)
    ensures |r| == |observations| && forall i :: 0 <= i < |r| ==> r[i] == observations[i].tokens
  {
    seq(|observations|, i requires 0 <= i < |observations| => observations[i].tokens)
  }

  /** Deltas of one scope, none a repeat of the one before it. */
  ghost predicate FreshDeltas(deltas: seq<Observation>) {
    && (forall i :: 0 <= i < |deltas| ==> deltas[i].kind.Delta? && ScopeOf(deltas[i]) == ScopeOf(deltas[0]))
    && (forall i :: 0 <= i < |deltas| - 1 ==> !Repeats(deltas[i], deltas[i + 1]))
  }

  lemma {:induction false} StreamKey(observations: seq<Observation>)
    ensures observations != [] ==> Stream(observations).Some? && Stream(observations).value.key == KeyOf(observations[|observations| - 1])
    ensures observations == [] ==> Stream(observations).None?
  {
    hide KeyOf, ApplyObservation, OneHourWithinWrites;
    if observations != [] { StreamKey(observations[..|observations| - 1]); }
  }

  lemma FreshStep(front: seq<Observation>, last: Observation)
    requires FreshDeltas(front + [last])
    ensures FreshDeltas(front) && last.kind.Delta?
    ensures front != [] ==> KeyOf(front[|front| - 1]) != KeyOf(last)
  {
    hide KeyOf, Repeats, ScopeOf;
    var all := front + [last];
    assert all[|front|] == last;
    forall i | 0 <= i < |front| ensures front[i].kind.Delta? && ScopeOf(front[i]) == ScopeOf(front[0])
    {
      assert all[i] == front[i] && all[0] == front[0];
    }
    forall i | 0 <= i < |front| - 1 ensures !Repeats(front[i], front[i + 1])
    {
      assert all[i] == front[i] && all[i + 1] == front[i + 1];
    }
    if front != [] {
      assert all[|front| - 1] == front[|front| - 1] && all[|front|] == last;
      assert ScopeOf(all[|front| - 1]) == ScopeOf(all[0]) == ScopeOf(all[|front|]);
      RepeatsExactly(front[|front| - 1], last);
    }
  }

  /**
   * A scope after deltas none of which repeats the one before: each count is the sum of what the deltas know of it, and so is the one-hour
   * share when every delta's own share fits its writes.
   */
  lemma {:induction false} DeltasAddUp(deltas: seq<Observation>)
    requires FreshDeltas(deltas)
    ensures var tokens := if Stream(deltas).Some? then Stream(deltas).value.tokens else UNKNOWN;
      && SumsFields(tokens, TokensOf(deltas))
      && ((forall i :: 0 <= i < |deltas| ==> WithinWrites(deltas[i].tokens) && WritesNonNegative(deltas[i].tokens)) ==>
            SumsOneHour(tokens, TokensOf(deltas)) && WithinWrites(tokens) && WritesNonNegative(tokens))
  {
    hide Plus, SumsFields, SumsOneHour, WithinWrites, WritesNonNegative, KeyOf, FreshDeltas, OneHourWithinWrites;
    if deltas == [] {
      NothingSums();
      assert TokensOf(deltas) == [];
      UnknownFits();
    } else {
      var front, last := deltas[..|deltas| - 1], deltas[|deltas| - 1];
      assert deltas == front + [last] && TokensOf(deltas) == TokensOf(front) + [last.tokens];
      FreshStep(front, last);
      DeltasAddUp(front);
      StreamKey(front);
      var before := if Stream(front).Some? then Stream(front).value.tokens else UNKNOWN;
      PlusSumsFields(before, TokensOf(front), last.tokens);
      assert Stream(deltas) == Some(Cell(OneHourWithinWrites(Plus(before, last.tokens)), KeyOf(last)));
      ClampKeepsFields(Plus(before, last.tokens), TokensOf(deltas));
      if forall i :: 0 <= i < |deltas| ==> WithinWrites(deltas[i].tokens) && WritesNonNegative(deltas[i].tokens) {
        assert forall i :: 0 <= i < |front| ==> front[i] == deltas[i];
        PlusSumsOneHour(before, TokensOf(front), last.tokens);
        PlusFits(before, last.tokens);
      }
    }
  }

  lemma UnknownFits()
    ensures WithinWrites(UNKNOWN) && WritesNonNegative(UNKNOWN)
  {
  }

  lemma PlusFits(a: Tokens, b: Tokens)
    requires WithinWrites(a) && WritesNonNegative(a) && WithinWrites(b) && WritesNonNegative(b)
    ensures WithinWrites(Plus(a, b)) && WritesNonNegative(Plus(a, b)) && OneHourWithinWrites(Plus(a, b)) == Plus(a, b)
  {
  }

  lemma ClampKeepsFields(t: Tokens, tokens: seq<Tokens>)
    ensures SumsFields(t, tokens) ==> SumsFields(OneHourWithinWrites(t), tokens)
  {
    hide KnownSum;
  }

  // ---------------------------------------------------------------- the mutable streams

  class Streams {
    var streams: map<string, Tokens>
    var lastKeys: map<string, ObservationKey>
    var order: seq<string>

    function Snapshot(): State
      reads this
    {
      State(streams, lastKeys, order)
    }

    constructor ()
      ensures Snapshot() == EMPTY && Valid(Snapshot())
    {
      streams, lastKeys, order := map[], map[], [];
    }

    method Record(o: Observation) returns (applied: bool)
      requires Valid(Snapshot())
      modifies this
      ensures Snapshot() == Recorded(old(Snapshot()), o) && Valid(Snapshot())
      ensures applied <==> !IsRepeated(old(Snapshot()), o)
    {
      RecordedIsValid(Snapshot(), o);
      if IsRepeated(Snapshot(), o) { return false; }
      var scope := ScopeOf(o);
      var previous := if scope in streams then streams[scope] else UNKNOWN;
      if scope !in streams { order := order + [scope]; }
      streams := streams[scope := OneHourWithinWrites(ApplyObservation(previous, o))];
      lastKeys := lastKeys[scope := KeyOf(o)];
      return true;
    }

    method Sum() returns (total: Tokens)
      requires Valid(Snapshot())
      ensures total == Total(Snapshot())
    {
      total := UNKNOWN;
      var values := Values(streams, order);
      for i := 0 to |order|
        invariant total == SumOver(values[..i])
      {
        assert values[..i + 1][..i] == values[..i];
        total := Plus(total, values[i]);
      }
      assert values[..|order|] == values;
    }
  }

  method FoldObservations(observations: seq<Observation>) returns (total: Tokens)
    ensures total == FoldUsageObservations(observations)
  {
    var state := new Streams();
    for i := 0 to |observations|
      invariant Valid(state.Snapshot()) && state.Snapshot() == RecordedAll(observations[..i])
    {
      var _ := state.Record(observations[i]);
      assert observations[..i + 1][..i] == observations[..i];
    }
    assert observations[..|observations|] == observations;
    total := state.Sum();
  }
}
