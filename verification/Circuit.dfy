/**
 * The per-worker circuit breaker (src/coordination/circuit-breaker.ts:18-83). Times are
 * milliseconds; `opened_at` is stored in whole seconds, as SQLite's datetime('now') gives it.
 */
module Circuit {
  import opened Prelude

  const FAILURE_THRESHOLD: nat := 5
  const HALF_OPEN_DELAY_MS: nat := 30_000

  datatype State = Closed | Open | HalfOpen

  datatype Circuit = Circuit(state: State, failures: nat, openedAt: Option<nat>)

  // ---------------------------------------------------------------- the row's updates

  function RecordFailure(row: Option<Circuit>, now: nat): Circuit {
    match row
    case None => Circuit(Closed, 1, None)
    case Some(c) =>
      var n := c.failures + 1;
      if n >= FAILURE_THRESHOLD
      then Circuit(Open, n, if c.state != Open || c.openedAt.None? then Some(now / 1000) else c.openedAt)
      else Circuit(c.state, n, c.openedAt)
  }

  const RECORD_SUCCESS: Circuit := Circuit(Closed, 0, None)

  /** `getState` writes: an open row past its delay becomes half open. */
  function Look(row: Option<Circuit>, now: nat): Option<Circuit> {
    if row.Some? && row.value.state.Open? && row.value.openedAt.Some?
      && now > row.value.openedAt.value * 1000 + HALF_OPEN_DELAY_MS
    then Some(row.value.(state := HalfOpen))
    else row
  }

  predicate Available(row: Option<Circuit>, now: nat) {
    var seen := Look(row, now);
    seen.None? || !seen.value.state.Open?
  }

  // ---------------------------------------------------------------- histories

  datatype Event = Failure | Success | Looked

  function After(row: Option<Circuit>, e: (Event, nat)): Option<Circuit> {
    match e.0
    case Failure => Some(RecordFailure(row, e.1))
    case Success => Some(RECORD_SUCCESS)
    case Looked => Look(row, e.1)
  }

  /** The row after a history of timed events, oldest first. */
  function Row(h: seq<(Event, nat)>): Option<Circuit> {
    if h == [] then None else After(Row(h[..|h| - 1]), h[|h| - 1])
  }

  function FailuresSinceSuccess(h: seq<(Event, nat)>): nat {
    if h == [] then 0
    else
      match h[|h| - 1].0
      case Failure => 1 + FailuresSinceSuccess(h[..|h| - 1])
      case Success => 0
      case Looked => FailuresSinceSuccess(h[..|h| - 1])
  }

  predicate Past(h: seq<(Event, nat)>, now: nat) { forall i | 0 <= i < |h| :: h[i].1 <= now }

  /** Closed, fewer than five failures and no opening time are one and the same. */
  ghost predicate Shape(row: Option<Circuit>, failures: nat) {
    match row
    case None => failures == 0
    case Some(c) =>
      c.failures == failures
      && (c.state.Closed? <==> failures < FAILURE_THRESHOLD)
      && (c.state.Closed? <==> c.openedAt.None?)
  }

  /** The stored count is the failures since the last success, and it alone decides the state. */
  lemma {:induction false} CountsFailures(h: seq<(Event, nat)>)
    ensures Shape(Row(h), FailuresSinceSuccess(h))
    decreases |h|
  {
    if h != [] { CountsFailures(h[..|h| - 1]); }
  }

  lemma {:induction false} HalfOpenIsLate(h: seq<(Event, nat)>, now: nat)
    requires Past(h, now)
    ensures Row(h).Some? && Row(h).value.state.HalfOpen? ==>
      Row(h).value.openedAt.Some? && now > Row(h).value.openedAt.value * 1000 + HALF_OPEN_DELAY_MS
    decreases |h|
  {
    if h != [] {
      CountsFailures(h[..|h| - 1]);
      HalfOpenIsLate(h[..|h| - 1], now);
    }
  }

  /**
   * With no event later than `now`, a worker is refused exactly while it has failed five times
   * or more since its last success and its opening is at most thirty seconds ago, whether or
   * not anybody looked in between.
   */
  lemma RefusedExactly(h: seq<(Event, nat)>, now: nat)
    requires Past(h, now)
    ensures FailuresSinceSuccess(h) >= 5 ==> Row(h).Some? && Row(h).value.openedAt.Some?
    ensures !Available(Row(h), now) <==>
      FailuresSinceSuccess(h) >= 5 && now <= Row(h).value.openedAt.value * 1000 + 30_000
  {
    CountsFailures(h);
    HalfOpenIsLate(h, now);
  }

  /**
   * A failure opens the circuit afresh exactly when it is the fifth in a row or hits a
   * half-open row; then the worker is refused for the thirty seconds from that second on.
   */
  lemma FailureReopens(h: seq<(Event, nat)>, now: nat)
    requires FailuresSinceSuccess(h) + 1 >= FAILURE_THRESHOLD
    ensures var before, c := Row(h), RecordFailure(Row(h), now);
      c.state.Open? && c.openedAt.Some?
      && (FailuresSinceSuccess(h) + 1 == FAILURE_THRESHOLD || before.value.state.HalfOpen? ==>
            c.openedAt == Some(now / 1000)
            && forall t | now <= t :: Available(Some(c), t) <==> t > now / 1000 * 1000 + HALF_OPEN_DELAY_MS)
      && (FailuresSinceSuccess(h) + 1 > FAILURE_THRESHOLD && before.value.state.Open? ==>
        c.openedAt == before.value.openedAt)
  {
    CountsFailures(h);
  }

  /** A failure while the row is still stored open does not restart the delay, however late it comes. */
  lemma LateFailureUnseen()
    ensures var h := [(Failure, 0), (Failure, 0), (Failure, 0), (Failure, 0), (Failure, 0), (Failure, 60_000)];
      FailuresSinceSuccess(h) == 6 && Available(Row(h), 60_000)
  {
    var h := [(Failure, 0), (Failure, 0), (Failure, 0), (Failure, 0), (Failure, 0), (Failure, 60_000)];
    var h5, h4, h3, h2, h1 := h[..5], h[..4], h[..3], h[..2], h[..1];
    assert h[..5][..4] == h4 && h4[..3] == h3 && h3[..2] == h2 && h2[..1] == h1 && h1[..0] == [];
    assert Row(h1) == Some(Circuit(Closed, 1, None)) && FailuresSinceSuccess(h1) == 1;
    assert Row(h2) == Some(Circuit(Closed, 2, None)) && FailuresSinceSuccess(h2) == 2;
    assert Row(h3) == Some(Circuit(Closed, 3, None)) && FailuresSinceSuccess(h3) == 3;
    assert Row(h4) == Some(Circuit(Closed, 4, None)) && FailuresSinceSuccess(h4) == 4;
    assert Row(h5) == Some(Circuit(Open, 5, Some(0))) && FailuresSinceSuccess(h5) == 5;
  }

  // ---------------------------------------------------------------- the table

  /** coord_circuit_state: one row per worker; each statement touches one row. */
  class CircuitTable {
    var rows: map<nat, Circuit>

    ghost function RowOf(agent: nat): Option<Circuit>
      reads this
    {
      if agent in rows then Some(rows[agent]) else None
    }

    constructor ()
      ensures rows == map[]
    {
      rows := map[];
    }

    method OnFailure(agent: nat, now: nat)
      modifies this
      ensures rows == old(rows)[agent := RecordFailure(old(RowOf(agent)), now)]
    {
      if agent !in rows {
        rows := rows[agent := Circuit(Closed, 1, None)];
        return;
      }
      var c := rows[agent];
      c := c.(failures := c.failures + 1);
      if c.failures >= FAILURE_THRESHOLD {
        if c.state != Open || c.openedAt.None? {
          c := c.(openedAt := Some(now / 1000));
        }
        c := c.(state := Open);
      }
      rows := rows[agent := c];
    }

    method OnSuccess(agent: nat)
      modifies this
      ensures rows == old(rows)[agent := RECORD_SUCCESS]
    {
      rows := rows[agent := Circuit(Closed, 0, None)];
    }

    method GetState(agent: nat, now: nat) returns (s: State)
      modifies this
      ensures s.Open? <==> !Available(old(RowOf(agent)), now)
      ensures rows.Keys == old(rows.Keys) && RowOf(agent) == Look(old(RowOf(agent)), now)
      ensures forall a | a in rows && a != agent :: rows[a] == old(rows)[a]
    {
      if agent !in rows || rows[agent].state.Closed? {
        return Closed;
      }
      var c := rows[agent];
      if c.state.HalfOpen? {
        return HalfOpen;
      }
      if c.openedAt.Some? && now > c.openedAt.value * 1000 + HALF_OPEN_DELAY_MS {
        rows := rows[agent := c.(state := HalfOpen)];
        return HalfOpen;
      }
      return Open;
    }
  }
}
