/**
 * The in-memory store of OAuth and device attempts (packages/claxedo-connections/src/attempts.ts).
 *
 * Each operation is a function on the map of entries; the class updates its map by them. An operation that reads the clock
 * twice takes both readings. States are unguessable random texts; a number stands for each.
 */
module Attempts {
  import opened Text

  type StateId = nat

  datatype Scope = Org | Personal

  datatype Outcome = Complete | Failed | Expired

  datatype Entry =
    | Pending(completing: bool, verifier: string, integration: string, owner: Option<string>, scope: Scope,
              deviceCode: Option<string>, expiresAt: int)
    | Terminal(outcome: Outcome, integration: string, owner: Option<string>, scope: Scope, message: Option<string>, removeAt: int)

  type Entries = map<StateId, Entry>

  datatype Consumed = Consumed(integration: string, owner: Option<string>, scope: Scope, verifier: string)

  datatype DevicePending = DevicePending(integration: string, owner: Option<string>, scope: Scope, deviceCode: string)

  datatype Status = IsPending | Is(outcome: Outcome)

  datatype Summary = Summary(status: Status, integration: string, scope: Scope, message: Option<string>)

  datatype Input = Input(integration: string, owner: Option<string>, scope: Scope, deviceCode: Option<string>)

  function AsTerminal(e: Entry, outcome: Outcome, message: Option<string>, removeAt: int): Entry
    requires e.Pending?
  {
    Terminal(outcome, e.integration, e.owner, e.scope, message, removeAt)
  }

  function Created(m: Entries, state: StateId, input: Input, verifier: string, now: int, ttl: int): Entries {
    m[state := Pending(false, verifier, input.integration, input.owner, input.scope, input.deviceCode, now + ttl)]
  }

  /** Neither settled nor being completed: what may still be taken or lapse. */
  predicate IsFree(m: Entries, state: StateId) {
    state in m && m[state].Pending? && !m[state].completing
  }

  function Peeked(m: Entries, state: StateId, seen: int, stamp: int, retention: int): (r: (Entries, Option<DevicePending>)) {
    if !IsFree(m, state) || m[state].deviceCode.None? then (m, None)
    else if m[state].expiresAt <= seen then (m[state := AsTerminal(m[state], Expired, None, stamp + retention)], None)
    else (m, Some(DevicePending(m[state].integration, m[state].owner, m[state].scope, m[state].deviceCode.value)))
  }

  function Consume(m: Entries, state: StateId, seen: int, stamp: int, retention: int): (r: (Entries, Option<Consumed>)) {
    if !IsFree(m, state) then (m, None)
    else if m[state].expiresAt <= seen then (m[state := AsTerminal(m[state], Expired, None, stamp + retention)], None)
    else (m[state := m[state].(completing := true)],
          Some(Consumed(m[state].integration, m[state].owner, m[state].scope, m[state].verifier)))
  }

  /** `settle` and `expire`: a pending entry, taken or not, gets its outcome. An empty message is dropped. */
  function Decided(m: Entries, state: StateId, outcome: Outcome, message: Option<string>, now: int, retention: int): Entries {
    if state !in m || !m[state].Pending? then m
    else m[state := AsTerminal(m[state], outcome, if message == Some("") then None else message, now + retention)]
  }

  predicate Lapses(e: Entry, now: int) {
    e.Pending? && !e.completing && e.expiresAt <= now
  }

  predicate Retires(e: Entry, now: int) {
    e.Terminal? && e.removeAt <= now
  }

  function SweptEntry(e: Entry, now: int, retention: int): Entry {
    if Lapses(e, now) then AsTerminal(e, Expired, None, now + retention) else e
  }

  function Swept(m: Entries, now: int, retention: int): Entries {
    map s | s in m && !Retires(m[s], now) :: SweptEntry(m[s], now, retention)
  }

  // ---------------------------------------------------------------- what an attempt lives through

  /** Nothing changed but the entry at `state`. */
  ghost predicate OnlyAt(m: Entries, n: Entries, state: StateId) {
    forall s :: s != state ==> (s in m <==> s in n) && (s in m ==> n[s] == m[s])
  }

  /** The entry is that attempt, still to be taken, with its lifetime ahead of it. */
  ghost predicate IsFreshAttempt(m: Entries, state: StateId, input: Input, verifier: string, expiresAt: int) {
    && IsFree(m, state) && m[state].verifier == verifier && m[state].expiresAt == expiresAt
    && m[state].integration == input.integration && m[state].owner == input.owner && m[state].scope == input.scope
    && m[state].deviceCode == input.deviceCode
  }

  /** A store that holds the new attempt and is otherwise unchanged is the one the protocol's `Created` names. */
  lemma FreshIsCreated(m: Entries, n: Entries, state: StateId, input: Input, verifier: string, now: int, ttl: int)
    ensures IsFreshAttempt(n, state, input, verifier, now + ttl) && OnlyAt(m, n, state) <==> n == Created(m, state, input, verifier, now, ttl)
  {
    if IsFreshAttempt(n, state, input, verifier, now + ttl) && OnlyAt(m, n, state) {
      assert forall s :: s in n <==> s in Created(m, state, input, verifier, now, ttl);
    }
  }

  /** The attempt ran out: it is expired and stays until `removeAt`. */
  ghost predicate RanOut(m: Entries, state: StateId, removeAt: int) {
    state in m && m[state].Terminal? && m[state].outcome == Expired && m[state].message == None && m[state].removeAt == removeAt
  }

  predicate IsFor(pending: DevicePending, e: Entry) {
    && e.Pending? && e.deviceCode == Some(pending.deviceCode)
    && pending.integration == e.integration && pending.owner == e.owner && pending.scope == e.scope
  }

  /** The entry is being completed and otherwise as it was, and `taken` tells it. */
  predicate IsTaken(before: Entry, after: Entry, taken: Consumed) {
    && before.Pending? && after == before.(completing := true)
    && taken == Consumed(before.integration, before.owner, before.scope, before.verifier)
  }

  /** The entry has the outcome, and tells the same integration, owner and scope as before. */
  ghost predicate HasOutcome(m: Entries, n: Entries, state: StateId, outcome: Outcome, message: Option<string>, removeAt: int) {
    && state in m && state in n && n[state].Terminal? && n[state].outcome == outcome && n[state].removeAt == removeAt
    && n[state].message == (if message == Some("") then None else message)
    && n[state].integration == m[state].integration && n[state].owner == m[state].owner && n[state].scope == m[state].scope
  }

  /**
   * A created attempt is taken by the first `consume` within its lifetime, which gets exactly what was created; from then on no
   * `consume` or `peek` gets it and no sweep lapses or removes it, at any time. Later than that the first `consume` finds it expired.
   */
  lemma TakenOnce(m: Entries, state: StateId, input: Input, verifier: string, now: int, ttl: int, retention: int,
                  seen: int, stamp: int, later: int, laterStamp: int)
    ensures var (n, first) := Consume(Created(m, state, input, verifier, now, ttl), state, seen, stamp, retention);
      && first == (if seen < now + ttl then Some(Consumed(input.integration, input.owner, input.scope, verifier)) else None)
      && Consume(n, state, later, laterStamp, retention) == (n, None) && Peeked(n, state, later, laterStamp, retention) == (n, None)
      && (first.Some? ==> state in Swept(n, later, retention) && Swept(n, later, retention)[state] == n[state])
      && (first.None? ==> RanOut(n, state, stamp + retention))
  {
  }

  /** The first decision on an attempt stands: nothing takes, peeks or decides it again, and until its removal time a sweep keeps it. */
  lemma DecidedOnce(m: Entries, state: StateId, outcome: Outcome, message: Option<string>, now: int, retention: int,
                    other: Outcome, otherMessage: Option<string>, later: int, stamp: int)
    requires state in m && m[state].Pending?
    ensures var n := Decided(m, state, outcome, message, now, retention);
      && HasOutcome(m, n, state, outcome, message, now + retention) && OnlyAt(m, n, state)
      && Decided(n, state, other, otherMessage, later, retention) == n
      && Consume(n, state, later, stamp, retention) == (n, None) && Peeked(n, state, later, stamp, retention) == (n, None)
      && (state in Swept(n, later, retention) <==> later < now + retention)
      && (later < now + retention ==> Swept(n, later, retention)[state] == n[state])
  {
  }

  /** A sweep lapses an attempt that nobody took exactly when its lifetime is over, and then keeps it for its retention. */
  lemma SweptInTime(m: Entries, state: StateId, now: int, retention: int)
    requires IsFree(m, state)
    ensures if now < m[state].expiresAt then state in Swept(m, now, retention) && Swept(m, now, retention)[state] == m[state]
            else RanOut(Swept(m, now, retention), state, now + retention)
  {
  }

  class AttemptStore {
    var entries: Entries
    const ttl: int
    const retention: int

    constructor (ttl: int, retention: int)
      ensures entries == map[] && this.ttl == ttl && this.retention == retention
    {
      entries := map[];
      this.ttl, this.retention := ttl, retention;
    }

    method Create(input: Input, state: StateId, verifier: string, now: int)
      modifies this
      ensures IsFreshAttempt(entries, state, input, verifier, now + ttl) && OnlyAt(old(entries), entries, state)
    {
      entries := entries[state := Pending(false, verifier, input.integration, input.owner, input.scope, input.deviceCode, now + ttl)];
    }

    method Peek(state: StateId, seen: int, stamp: int) returns (pending: Option<DevicePending>)
      modifies this
      ensures OnlyAt(old(entries), entries, state)
      ensures pending.Some? <==> IsFree(old(entries), state) && old(entries)[state].deviceCode.Some? && seen < old(entries)[state].expiresAt
      ensures pending.Some? ==> entries == old(entries) && IsFor(pending.value, entries[state])
      ensures entries == old(entries) || RanOut(entries, state, stamp + retention)
      ensures (entries, pending) == Peeked(old(entries), state, seen, stamp, retention)
    {
      if state !in entries || !entries[state].Pending? || entries[state].completing || entries[state].deviceCode.None? {
        return None;
      }
      var entry := entries[state];
      if entry.expiresAt <= seen {
        entries := entries[state := Terminal(Expired, entry.integration, entry.owner, entry.scope, None, stamp + retention)];
        return None;
      }
      return Some(DevicePending(entry.integration, entry.owner, entry.scope, entry.deviceCode.value));
    }

    method Take(state: StateId, seen: int, stamp: int) returns (taken: Option<Consumed>)
      modifies this
      ensures OnlyAt(old(entries), entries, state)
      ensures taken.Some? <==> IsFree(old(entries), state) && seen < old(entries)[state].expiresAt
      ensures taken.Some? ==> state in entries && IsTaken(old(entries)[state], entries[state], taken.value)
      ensures taken.None? ==> entries == old(entries) || RanOut(entries, state, stamp + retention)
      ensures (entries, taken) == Consume(old(entries), state, seen, stamp, retention)
    {
      if state !in entries || !entries[state].Pending? || entries[state].completing { return None; }
      var entry := entries[state];
      if entry.expiresAt <= seen {
        entries := entries[state := Terminal(Expired, entry.integration, entry.owner, entry.scope, None, stamp + retention)];
        return None;
      }
      entries := entries[state := entry.(completing := true)];
      return Some(Consumed(entry.integration, entry.owner, entry.scope, entry.verifier));
    }

    method Settle(state: StateId, ok: bool, message: Option<string>, now: int)
      modifies this
      ensures OnlyAt(old(entries), entries, state)
      ensures state in old(entries) && old(entries)[state].Pending? ==>
        HasOutcome(old(entries), entries, state, if ok then Complete else Failed, message, now + retention)
      ensures !(state in old(entries) && old(entries)[state].Pending?) ==> entries == old(entries)
      ensures entries == Decided(old(entries), state, if ok then Complete else Failed, message, now, retention)
    {
      if state !in entries || !entries[state].Pending? { return; }
      var entry := entries[state];
      var kept := if message == Some("") then None else message;
      entries := entries[state := Terminal(if ok then Complete else Failed, entry.integration, entry.owner, entry.scope, kept, now + retention)];
    }

    method Expire(state: StateId, now: int)
      modifies this
      ensures OnlyAt(old(entries), entries, state)
      ensures state in old(entries) && old(entries)[state].Pending? ==>
        HasOutcome(old(entries), entries, state, Expired, None, now + retention)
      ensures !(state in old(entries) && old(entries)[state].Pending?) ==> entries == old(entries)
      ensures entries == Decided(old(entries), state, Expired, None, now, retention)
    {
      if state !in entries || !entries[state].Pending? { return; }
      var entry := entries[state];
      entries := entries[state := Terminal(Expired, entry.integration, entry.owner, entry.scope, None, now + retention)];
    }

    method StatusOf(state: StateId) returns (summary: Option<Summary>)
      ensures summary.Some? <==> state in entries
      ensures state in entries ==> summary.value.integration == entries[state].integration && summary.value.scope == entries[state].scope
      ensures state in entries && entries[state].Pending? ==> summary.value.message == None
      ensures state in entries ==> (summary.value.status == IsPending <==> entries[state].Pending?)
      ensures state in entries && entries[state].Terminal? ==>
        summary.value.status == Is(entries[state].outcome) && summary.value.message == entries[state].message
    {
      if state !in entries { return None; }
      match entries[state]
      case Pending(_, _, integration, _, scope, _, _) => return Some(Summary(IsPending, integration, scope, None));
      case Terminal(outcome, integration, _, scope, message, _) => return Some(Summary(Is(outcome), integration, scope, message));
    }

    /** Visits every entry once; an entry that lapses in this pass is not also removed by it. */
    method Sweep(now: int)
      modifies this
      ensures entries == Swept(old(entries), now, retention)
    {
      ghost var before := entries;
      var unseen := entries.Keys;
      while unseen != {}
        invariant unseen <= before.Keys
        invariant forall s :: s in unseen ==> s in entries && entries[s] == before[s]
        invariant forall s :: s in entries ==> s in before
        invariant forall s :: s in before && s !in unseen ==> (s in entries <==> !Retires(before[s], now))
        invariant forall s :: s in entries && s !in unseen ==> entries[s] == SweptEntry(before[s], now, retention)
        decreases unseen
      {
        var state :| state in unseen;
        unseen := unseen - {state};
        var entry := entries[state];
        if entry.Pending? && !entry.completing && entry.expiresAt <= now {
          entries := entries[state := Terminal(Expired, entry.integration, entry.owner, entry.scope, None, now + retention)];
        } else if entry.Terminal? && entry.removeAt <= now {
          entries := entries - {state};
        }
      }
    }
  }
}
