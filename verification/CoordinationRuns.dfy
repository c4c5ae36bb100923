/**
 * What the coordination tables keep over whole runs of requests: ended tasks never change,
 * retries are bounded and leave numbered hints, blockers are older than what they block so
 * nothing deadlocks among dependencies, and dispatch is by priority and then age.
 */
module CoordinationRuns {
  import opened Prelude
  import opened Coordination
  import C = Circuit

  // ---------------------------------------------------------------- the invariant

  /** Hint blocks numbered from 1, one for each retry. */
  function Blocks(hints: seq<string>): string {
    if hints == [] then "" else Blocks(hints[..|hints| - 1]) + HintBlock(|hints|, hints[|hints| - 1])
  }

  /** The description as it was created, followed by the hint blocks of the retries so far. */
  function Described(original: Option<string>, hints: seq<string>): Option<string> {
    if hints == [] then original else Some(Text(original) + Blocks(hints))
  }

  ghost predicate RowOk(p: Policy, workers: nat, i: nat, r: Row) {
    && r.attempts == |r.hints| <= MAX_RETRY_ATTEMPTS
    && r.description == Described(r.original, r.hints)
    && (r.status.Pending? ==> r.owner.None?)
    && (r.blockedBy.Some? ==> r.blockedBy.value < i)
    && (r.owner.Some? ==> r.owner.value < workers)
    && (r.status.Completed? ==> r.result.Some? && p.proves(r.result.value))
  }

  ghost predicate Good(p: Policy, db: Db) {
    forall i | 0 <= i < |db.rows| :: RowOk(p, |db.workers|, i, db.rows[i])
  }

  /** What any number of requests may do to a row: ended rows stand still, retries only add up. */
  ghost predicate Later(r: Row, s: Row) {
    && (Terminal(r) ==> s == r)
    && s.original == r.original && s.priority == r.priority && s.workspace == r.workspace && s.createdAt == r.createdAt
    && r.hints <= s.hints
    && (s.blockedBy == r.blockedBy || s.blockedBy.None?)
  }

  ghost predicate Onward(db: Db, next: Db) {
    && |db.rows| <= |next.rows| && |db.workers| <= |next.workers|
    && forall i | 0 <= i < |db.rows| :: Later(db.rows[i], next.rows[i])
  }

  /** A request's effect: everything lawful stays lawful, and every row only moves on. */
  ghost predicate Keeps(p: Policy, db: Db, next: Db) { Good(p, next) && Onward(db, next) }

  // ---------------------------------------------------------------- single rows

  /** The description after one more retry is the one before it with the next block. */
  lemma OneMoreBlock(original: Option<string>, hints: seq<string>, h: string)
    ensures Described(original, hints + [h]) == Some(Text(Described(original, hints)) + HintBlock(|hints| + 1, h))
  {
    assert (hints + [h])[..|hints + [h]| - 1] == hints;
    hide HintBlock;
    var block := HintBlock(|hints| + 1, h);
    if hints == [] {
      assert Blocks(hints + [h]) == "" + block == block;
    } else {
      assert Text(original) + (Blocks(hints) + block) == (Text(original) + Blocks(hints)) + block;
    }
  }

  lemma RetryOk(p: Policy, workers: nat, i: nat, r: Row, why: string, given: Option<string>)
    requires RowOk(p, workers, i, r) && !Terminal(r)
    ensures var s := RetryOrFail(p, r, why, given);
      RowOk(p, workers, i, s) && Later(r, s)
      && (if r.attempts < MAX_RETRY_ATTEMPTS then s.status.Pending? && s.attempts == r.attempts + 1
          else s.status.Failed? && s.attempts == r.attempts)
  {
    if r.attempts < MAX_RETRY_ATTEMPTS {
      var s := RetryOrFail(p, r, why, given);
      OneMoreBlock(r.original, r.hints, s.hints[|r.hints|]);
      hide HintBlock, Described;
      assert s.hints == r.hints + [s.hints[|r.hints|]];
    }
  }

  /** One row replaced by a lawful successor, the other tables changed without losing a worker. */
  lemma OneRow(p: Policy, db: Db, next: Db, i: nat)
    requires Good(p, db) && i < |db.rows| == |next.rows| && |db.workers| == |next.workers|
    requires next.rows == db.rows[i := next.rows[i]]
    requires RowOk(p, |db.workers|, i, next.rows[i]) && Later(db.rows[i], next.rows[i])
    ensures Keeps(p, db, next)
  {
    hide RowOk;
  }

  lemma SameRows(p: Policy, db: Db, next: Db)
    requires Good(p, db) && next.rows == db.rows && |db.workers| <= |next.workers|
    ensures Keeps(p, db, next)
  {
    forall i | 0 <= i < |next.rows| ensures RowOk(p, |next.workers|, i, next.rows[i]) {
      assert RowOk(p, |db.workers|, i, db.rows[i]);
    }
  }

  lemma KeepsTwice(p: Policy, a: Db, b: Db, c: Db)
    requires Keeps(p, a, b) && Keeps(p, b, c)
    ensures Keeps(p, a, c)
  {
    hide RowOk;
    forall i | 0 <= i < |a.rows| ensures Later(a.rows[i], c.rows[i]) {
      assert Later(a.rows[i], b.rows[i]) && Later(b.rows[i], c.rows[i]);
    }
  }

  // ---------------------------------------------------------------- queries

  /** The best row is wanted, none is before it, and of equals it is the first; none means no row is wanted. */
  lemma {:induction false} BestIsBest(rows: seq<Row>, wanted: Row -> bool)
    ensures match Best(rows, wanted)
      case None => forall k | 0 <= k < |rows| :: !wanted(rows[k])
      case Some(b) =>
        b < |rows| && wanted(rows[b])
        && (forall k | 0 <= k < |rows| && wanted(rows[k]) :: !Before(rows[k], rows[b]))
        && (forall k | 0 <= k < b && wanted(rows[k]) :: Before(rows[b], rows[k]))
    decreases |rows|
  {
    if rows != [] {
      var last := |rows| - 1;
      BestIsBest(rows[..last], wanted);
    }
  }

  lemma {:induction false} ActiveIsActive(rows: seq<Row>, a: nat)
    ensures match ActiveOf(rows, a)
      case None => forall k | 0 <= k < |rows| :: !(Active(rows[k]) && OwnedBy(rows[k], a))
      case Some(b) => b < |rows| && Active(rows[b]) && OwnedBy(rows[b], a)
    decreases |rows|
  {
    if rows != [] { ActiveIsActive(rows[..|rows| - 1], a); }
  }

  lemma {:induction false} NamesakeHolds(db: Db, a: nat, upto: nat)
    requires a < |db.workers| && upto <= |db.workers|
    ensures match Namesake(db, a, upto)
      case None => forall b | 0 <= b < upto :: !IsNamesake(db, a, b)
      case Some(b) => b < upto && IsNamesake(db, a, b)
    decreases upto
  {
    if upto > 0 { NamesakeHolds(db, a, upto - 1); }
  }

  lemma {:induction false} SeenInRange(workers: seq<Worker>, wanted: Worker -> bool)
    ensures match LastSeen(workers, wanted)
      case None => forall k | 0 <= k < |workers| :: !wanted(workers[k])
      case Some(b) =>
        b < |workers| && wanted(workers[b])
        && forall k | 0 <= k < |workers| && wanted(workers[k]) :: workers[k].lastSeen <= workers[b].lastSeen
    decreases |workers|
  {
    if workers != [] { SeenInRange(workers[..|workers| - 1], wanted); }
  }

  // ---------------------------------------------------------------- every request keeps the invariant

  lemma GiveKeeps(p: Policy, db: Db, i: nat, a: nat)
    requires Good(p, db) && i < |db.rows| && a < |db.workers| && !Terminal(db.rows[i])
    ensures Keeps(p, db, Give(db, i, a))
  {
    assert RowOk(p, |db.workers|, i, db.rows[i]);
    OneRow(p, db, Give(db, i, a), i);
  }

  lemma NextTaskOpen(db: Db, a: nat, scope: Option<string>)
    ensures match NextTask(db, a, scope)
      case None =>
        forall k | 0 <= k < |db.rows| :: !ReservedFor(db.rows, a, db.rows[k]) && !OpenTo(db.rows, scope, db.rows[k])
      case Some(i) => i < |db.rows| && (ReservedFor(db.rows, a, db.rows[i]) || OpenTo(db.rows, scope, db.rows[i]))
  {
    BestIsBest(db.rows, r => ReservedFor(db.rows, a, r));
    BestIsBest(db.rows, r => OpenTo(db.rows, scope, r));
  }

  lemma MigrateKeeps(p: Policy, db: Db, a: nat)
    requires Good(p, db) && a < |db.workers| && Namesake(db, a, |db.workers|).Some?
    ensures Keeps(p, db, Migrate(db, a).0)
  {
    NamesakeHolds(db, a, |db.workers|);
    var b := Namesake(db, a, |db.workers|).value;
    ActiveIsActive(db.rows, b);
    var i := ActiveOf(db.rows, b).value;
    assert RowOk(p, |db.workers|, i, db.rows[i]);
    OneRow(p, db, Migrate(db, a).0, i);
  }

  lemma DispatchKeeps(p: Policy, db: Db, a: nat, scope: Option<string>, now: nat)
    requires Good(p, db)
    ensures Keeps(p, db, Dispatch(db, a, scope, now).0)
  {
    SameRows(p, db, db);
    SameRows(p, db, Probed(db, a, now));
    if ActiveOf(db.rows, a).None? {
      if a < |db.workers| && Namesake(db, a, |db.workers|).Some? {
        MigrateKeeps(p, db, a);
      } else if a < |db.workers| {
        NextTaskOpen(db, a, scope);
        var i := NextTask(db, a, scope);
        if i.Some? {
          var probed := Probed(db, a, now);
          GiveKeeps(p, probed, i.value, a);
          KeepsTwice(p, db, probed, Give(probed, i.value, a));
        }
      }
    }
  }

  lemma CheckInKeeps(p: Policy, db: Db, name: string, scope: Option<string>, now: nat)
    requires Good(p, db)
    ensures Keeps(p, db, CheckIn(db, name, scope, now).0)
    ensures CheckIn(db, name, scope, now).1 < |CheckIn(db, name, scope, now).0.workers|
  {
    SameRows(p, db, CheckIn(db, name, scope, now).0);
  }

  lemma NextKeeps(p: Policy, db: Db, name: string, scope: Option<string>, now: nat)
    requires Good(p, db)
    ensures Keeps(p, db, Next(db, name, scope, now).0)
  {
    var (db1, a) := CheckIn(db, name, scope, now);
    var (db2, r) := Dispatch(db1, a, scope, now);
    CheckInKeeps(p, db, name, scope, now);
    DispatchKeeps(p, db1, a, scope, now);
    KeepsTwice(p, db, db1, db2);
    SameRows(p, db2, Next(db, name, scope, now).0);
    KeepsTwice(p, db, db2, Next(db, name, scope, now).0);
  }

  lemma AssignKeeps(p: Policy, db: Db, to: Target, scope: Option<string>, priority: nat, blockedBy: Option<nat>,
                    description: Option<string>, now: nat)
    requires Good(p, db)
    ensures Keeps(p, db, Assign(db, to, scope, priority, blockedBy, description, now).0)
  {
    var next := Assign(db, to, scope, priority, blockedBy, description, now).0;
    SameRows(p, db, db);
    if next.rows != db.rows {
      var owner := Resolve(db, to, scope);
      assert next.rows == db.rows + [NewRow(owner, scope, priority, blockedBy, description, now)];
      assert |next.workers| == |db.workers|;
      assert RowOk(p, |db.workers|, |db.rows|, next.rows[|db.rows|]);
      hide RowOk;
    }
  }

  lemma UnblockKeeps(p: Policy, db: Db, done: nat)
    requires Good(p, db)
    ensures Keeps(p, db, db.(rows := Unblock(db.rows, done)))
  {
    var next := db.(rows := Unblock(db.rows, done));
    forall i | 0 <= i < |db.rows| ensures RowOk(p, |db.workers|, i, next.rows[i]) && Later(db.rows[i], next.rows[i]) {
      assert RowOk(p, |db.workers|, i, db.rows[i]);
    }
  }

  /** The update before its auto-unblock. */
  lemma UpdatedRow(p: Policy, db: Db, i: nat, to: Status, result: Option<string>, now: nat)
    requires Good(p, db) && i < |db.rows| && !to.Pending? && !to.Assigned? && Allowed(db.rows[i].status, to)
    requires to.Completed? ==> result.Some? && p.proves(result.value)
    ensures var r := db.rows[i].(status := to, result := result); RowOk(p, |db.workers|, i, r) && Later(db.rows[i], r)
  {
    assert RowOk(p, |db.workers|, i, db.rows[i]);
  }

  lemma UpdateKeeps(p: Policy, db: Db, i: nat, to: Status, result: Option<string>, now: nat)
    requires Good(p, db)
    ensures Keeps(p, db, Update(p, db, i, to, result, now).0)
  {
    var (next, response) := Update(p, db, i, to, result, now);
    SameRows(p, db, db);
    if response.Done? {
      UpdatedRow(p, db, i, to, result, now);
      var mid := next.(rows := db.rows[i := db.rows[i].(status := to, result := result)]);
      OneRow(p, db, mid, i);
      UnblockKeeps(p, mid, i);
      KeepsTwice(p, db, mid, mid.(rows := Unblock(mid.rows, i)));
      assert next == if to.Completed? then mid.(rows := Unblock(mid.rows, i)) else mid;
    }
  }

  lemma ReassignKeeps(p: Policy, db: Db, i: nat, to: Target)
    requires Good(p, db)
    ensures Keeps(p, db, Reassign(db, i, to).0)
  {
    var (next, response) := Reassign(db, i, to);
    SameRows(p, db, db);
    if response.Done? {
      assert RowOk(p, |db.workers|, i, db.rows[i]);
      OneRow(p, db, next, i);
    }
  }

  lemma FailKeeps(p: Policy, db: Db, i: nat, result: Option<string>, mode: Option<string>, now: nat)
    requires Good(p, db)
    ensures Keeps(p, db, Fail(p, db, i, result, mode, now).0)
  {
    var (next, response) := Fail(p, db, i, result, mode, now);
    SameRows(p, db, db);
    if response.Done? {
      assert RowOk(p, |db.workers|, i, db.rows[i]);
      RetryOk(p, |db.workers|, i, db.rows[i], if result.Some? then result.value else "worker-initiated failure", mode);
      OneRow(p, db, next, i);
    }
  }

  lemma KillKeeps(p: Policy, db: Db, a: nat)
    requires Good(p, db)
    ensures Keeps(p, db, Kill(db, a).0)
  {
    var next := Kill(db, a).0;
    forall i | 0 <= i < |db.rows| ensures RowOk(p, |db.workers|, i, next.rows[i]) && Later(db.rows[i], next.rows[i]) {
      assert RowOk(p, |db.workers|, i, db.rows[i]);
    }
  }

  lemma CleanWorkerKeeps(p: Policy, db: Db, a: nat, now: nat)
    requires Good(p, db) && a < |db.workers|
    ensures Keeps(p, db, CleanWorker(p, db, a, now))
  {
    var next := CleanWorker(p, db, a, now);
    forall i | 0 <= i < |db.rows| ensures RowOk(p, |db.workers|, i, next.rows[i]) && Later(db.rows[i], next.rows[i]) {
      assert RowOk(p, |db.workers|, i, db.rows[i]);
      if Active(db.rows[i]) { RetryOk(p, |db.workers|, i, db.rows[i], STALE_RESULT, None); }
    }
  }

  lemma {:induction false} CleanFirstKeeps(p: Policy, db: Db, stale: seq<nat>, n: nat, now: nat)
    requires Good(p, db) && n <= |stale| && forall i | 0 <= i < |stale| :: stale[i] < |db.workers|
    ensures Keeps(p, db, CleanFirst(p, db, stale, n, now).0)
    decreases n
  {
    SameRows(p, db, db);
    if n > 0 {
      var before := CleanFirst(p, db, stale, n - 1, now).0;
      CleanFirstKeeps(p, db, stale, n - 1, now);
      CleanWorkerKeeps(p, before, stale[n - 1], now);
      KeepsTwice(p, db, before, CleanWorker(p, before, stale[n - 1], now));
    }
  }

  lemma ServeKeeps(p: Policy, db: Db, q: Request, now: nat)
    requires Good(p, db)
    ensures Keeps(p, db, Serve(p, db, q, now).0)
  {
    hide Good, Onward, Next, Dispatch, Assign, Update, Reassign, Fail, Kill, CleanFirst;
    match q
    case NextR(name, scope) => NextKeeps(p, db, name, scope, now);
    case PollR(a) => DispatchKeeps(p, db, a, if a < |db.workers| then db.workers[a].workspace else None, now);
    case CheckInR(name, scope) => CheckInKeeps(p, db, name, scope, now);
    case AssignR(to, scope, priority, blockedBy, description) =>
      AssignKeeps(p, db, to, scope, priority, blockedBy, description, now);
    case ClaimR(i, a) =>
      SameRows(p, db, db);
      if i < |db.rows| && db.rows[i].status.Pending? && a < |db.workers| { GiveKeeps(p, db, i, a); }
    case UpdateR(i, status, result) => UpdateKeeps(p, db, i, status, result, now);
    case ReassignR(i, to) => ReassignKeeps(p, db, i, to);
    case FailR(i, result, mode) => FailKeeps(p, db, i, result, mode, now);
    case KillR(a) => KillKeeps(p, db, a);
    case CleanupR(seconds) =>
      var stale := StaleWorkers(db.workers, seconds, now);
      CleanFirstKeeps(p, db, stale, |stale|, now);
    case _ => SameRows(p, db, Serve(p, db, q, now).0);
  }

  lemma {:induction false} RunKeeps(p: Policy, db: Db, qs: seq<(Request, nat)>)
    requires Good(p, db)
    ensures Keeps(p, db, Run(p, db, qs))
    decreases |qs|
  {
    if qs == [] {
      SameRows(p, db, db);
    } else {
      var next := Serve(p, db, qs[0].0, qs[0].1).0;
      ServeKeeps(p, db, qs[0].0, qs[0].1);
      hide Good, Onward, Serve;
      assert Good(p, next) by { KeepsGood(p, db, next); }
      RunKeeps(p, next, qs[1..]);
      KeepsTwice(p, db, next, Run(p, next, qs[1..]));
    }
  }

  lemma KeepsGood(p: Policy, db: Db, next: Db)
    requires Keeps(p, db, next)
    ensures Good(p, next)
  {
  }

  // ---------------------------------------------------------------- ended tasks, retries, proofs

  /** Completed and failed are absorbing: whatever is asked afterwards, the whole row stays as it is. */
  lemma TerminalForever(p: Policy, db: Db, qs: seq<(Request, nat)>, i: nat)
    requires Good(p, db) && i < |db.rows| && Terminal(db.rows[i])
    ensures var db' := Run(p, db, qs); i < |db'.rows| && db'.rows[i] == db.rows[i]
  {
    RunKeeps(p, db, qs);
    assert Later(db.rows[i], Run(p, db, qs).rows[i]);
  }

  /**
   * In every reachable state a task was retried at most three times, its description is the
   * one it was created with followed by hint blocks numbered 1 to `attempt_count`, a pending
   * task has no owner, and a completed one carries a proof of work.
   */
  lemma RetriesAreBounded(p: Policy, qs: seq<(Request, nat)>, i: nat)
    requires i < |Run(p, EMPTY, qs).rows|
    ensures var r := Run(p, EMPTY, qs).rows[i];
      r.attempts == |r.hints| <= 3 && r.description == Described(r.original, r.hints)
      && (r.status.Pending? ==> r.owner.None?)
      && (r.status.Completed? ==> r.result.Some? && p.proves(r.result.value))
  {
    RunKeeps(p, EMPTY, qs);
    var db := Run(p, EMPTY, qs);
    assert RowOk(p, |db.workers|, i, db.rows[i]);
  }

  /** A task keeps the hints of its earlier retries, and the description it was created with. */
  lemma HintsAddUp(p: Policy, db: Db, qs: seq<(Request, nat)>, i: nat)
    requires Good(p, db) && i < |db.rows|
    ensures i < |Run(p, db, qs).rows|
    ensures var r, s := db.rows[i], Run(p, db, qs).rows[i];
      s.original == r.original && r.hints <= s.hints && r.attempts <= s.attempts
  {
    RunKeeps(p, db, qs);
    var db' := Run(p, db, qs);
    assert Later(db.rows[i], db'.rows[i]) && RowOk(p, |db'.workers|, i, db'.rows[i])
      && RowOk(p, |db.workers|, i, db.rows[i]);
  }

  /** Failing a task that is not over: one more retry while the budget lasts, the end for good after that. */
  lemma BudgetDecides(p: Policy, db: Db, i: nat, result: Option<string>, mode: Option<string>, now: nat,
                      qs: seq<(Request, nat)>)
    requires Good(p, db) && i < |db.rows| && !Terminal(db.rows[i])
    ensures var next := Fail(p, db, i, result, mode, now).0;
      if db.rows[i].attempts < 3
      then next.rows[i].status.Pending? && next.rows[i].owner.None? && next.rows[i].attempts == db.rows[i].attempts + 1
      else next.rows[i].status.Failed? && i < |Run(p, next, qs).rows| && Run(p, next, qs).rows[i] == next.rows[i]
  {
    var next := Fail(p, db, i, result, mode, now).0;
    FailKeeps(p, db, i, result, mode, now);
    if db.rows[i].attempts >= 3 { TerminalForever(p, next, qs, i); }
  }

  // ---------------------------------------------------------------- dependencies

  /** Following blockers leads to ever older tasks: `blocked_by` is well-founded. */
  lemma BlockersAreOlder(p: Policy, qs: seq<(Request, nat)>, i: nat)
    requires var db := Run(p, EMPTY, qs); i < |db.rows| && db.rows[i].blockedBy.Some?
    ensures Run(p, EMPTY, qs).rows[i].blockedBy.value < i
  {
    RunKeeps(p, EMPTY, qs);
    var db := Run(p, EMPTY, qs);
    assert RowOk(p, |db.workers|, i, db.rows[i]);
  }

  /** A task that was handed out, not carried over: pending before, the worker's now. */
  ghost predicate HandedOut(db: Db, a: nat, scope: Option<string>, now: nat, i: nat) {
    var (next, r) := Dispatch(db, a, scope, now);
    r == Given(Some(i)) && i < |db.rows| && db.rows[i].status.Pending?
  }

  /** A fresh task becomes the worker's, and only that row changes. */
  lemma HandedOutIsOwned(p: Policy, db: Db, a: nat, scope: Option<string>, now: nat, i: nat)
    requires Good(p, db) && HandedOut(db, a, scope, now, i)
    ensures var next := Dispatch(db, a, scope, now).0;
      a < |db.workers| && next.rows == db.rows[i := db.rows[i].(owner := Some(a), status := Assigned)]
      && C.Available(CircuitOf(db, a), now) && OpenTo(db.rows, scope, db.rows[i]) && NextTask(db, a, scope) == Some(i)
  {
    ActiveIsActive(db.rows, a);
    NextTaskOpen(db, a, scope);
    assert RowOk(p, |db.workers|, i, db.rows[i]);
    if a < |db.workers| && Namesake(db, a, |db.workers|).Some? {
      NamesakeHolds(db, a, |db.workers|);
      ActiveIsActive(db.rows, Namesake(db, a, |db.workers|).value);
    }
  }

  /** The blocker of a task handed out is completed then, and ever after. */
  lemma BlockerStaysDone(p: Policy, db: Db, a: nat, scope: Option<string>, now: nat, i: nat, qs: seq<(Request, nat)>)
    requires Good(p, db) && HandedOut(db, a, scope, now, i) && db.rows[i].blockedBy.Some?
    ensures var b, next := db.rows[i].blockedBy.value, Dispatch(db, a, scope, now).0;
      b < |db.rows| && db.rows[b].status.Completed? && b < |Run(p, next, qs).rows|
      && Run(p, next, qs).rows[b] == db.rows[b]
  {
    HandedOutIsOwned(p, db, a, scope, now, i);
    var b, next := db.rows[i].blockedBy.value, Dispatch(db, a, scope, now).0;
    DispatchKeeps(p, db, a, scope, now);
    assert next.rows[b] == db.rows[b];
    TerminalForever(p, next, qs, b);
  }

  /** Highest priority first, then the oldest: no open task the worker sees comes before the one it is handed. */
  lemma HandedOutInOrder(p: Policy, db: Db, a: nat, scope: Option<string>, now: nat, i: nat, k: nat)
    requires Good(p, db) && HandedOut(db, a, scope, now, i)
    requires k < |db.rows| && OpenTo(db.rows, scope, db.rows[k])
    ensures !Before(db.rows[k], db.rows[i]) && (k < i ==> Before(db.rows[i], db.rows[k]))
  {
    HandedOutIsOwned(p, db, a, scope, now, i);
    BestIsBest(db.rows, r => ReservedFor(db.rows, a, r));
    BestIsBest(db.rows, r => OpenTo(db.rows, scope, r));
    assert RowOk(p, |db.workers|, i, db.rows[i]);
  }

  /**
   * A worker whose circuit lets it is sent away empty exactly when it has nothing, nor a namesake, and
   * nothing is open to it.
   */
  lemma EmptyHanded(p: Policy, db: Db, a: nat, scope: Option<string>, now: nat)
    requires Good(p, db) && a < |db.workers| && C.Available(CircuitOf(db, a), now)
    ensures Dispatch(db, a, scope, now).1 == Given(None) <==>
      (forall k | 0 <= k < |db.rows| ::
         !(Active(db.rows[k]) && OwnedBy(db.rows[k], a)) && !OpenTo(db.rows, scope, db.rows[k]))
      && (forall b | 0 <= b < |db.workers| :: !IsNamesake(db, a, b))
  {
    ActiveIsActive(db.rows, a);
    NamesakeHolds(db, a, |db.workers|);
    NextTaskOpen(db, a, scope);
    if Namesake(db, a, |db.workers|).Some? { ActiveIsActive(db.rows, Namesake(db, a, |db.workers|).value); }
    forall k | 0 <= k < |db.rows| ensures !ReservedFor(db.rows, a, db.rows[k]) {
      assert RowOk(p, |db.workers|, k, db.rows[k]);
    }
  }

  /** The oldest pending task from `i` down its chain of blockers is not waiting for a pending one. */
  lemma {:induction false} ChainEnds(p: Policy, db: Db, i: nat) returns (k: nat)
    requires Good(p, db) && i < |db.rows| && db.rows[i].status.Pending?
    ensures k <= i && k < |db.rows| && db.rows[k].status.Pending?
    ensures db.rows[k].blockedBy.Some? ==>
      db.rows[k].blockedBy.value < k && !db.rows[db.rows[k].blockedBy.value].status.Pending?
    decreases i
  {
    assert RowOk(p, |db.workers|, i, db.rows[i]);
    if db.rows[i].blockedBy.Some? && db.rows[db.rows[i].blockedBy.value].status.Pending? {
      k := ChainEnds(p, db, db.rows[i].blockedBy.value);
    } else {
      k := i;
    }
  }

  /**
   * No deadlock among dependencies: if an unscoped worker with an available circuit is sent
   * away empty although something is pending, then a pending task waits for one that is
   * assigned, in progress, blocked or failed.
   */
  lemma NoDeadlock(p: Policy, qs: seq<(Request, nat)>, a: nat, now: nat, i: nat)
    requires var db := Run(p, EMPTY, qs);
      a < |db.workers| && C.Available(CircuitOf(db, a), now) && i < |db.rows| && db.rows[i].status.Pending?
      && Dispatch(db, a, None, now).1 == Given(None)
    ensures var db := Run(p, EMPTY, qs);
      exists k, b | 0 <= k < |db.rows| && 0 <= b < |db.rows| ::
        db.rows[k].status.Pending? && db.rows[k].blockedBy == Some(b)
        && (Active(db.rows[b]) || db.rows[b].status.Blocked? || db.rows[b].status.Failed?)
  {
    RunKeeps(p, EMPTY, qs);
    var db := Run(p, EMPTY, qs);
    EmptyHanded(p, db, a, None, now);
    var k := ChainEnds(p, db, i);
    assert RowOk(p, |db.workers|, k, db.rows[k]);
    assert !OpenTo(db.rows, None, db.rows[k]);
    var b := db.rows[k].blockedBy.value;
    assert db.rows[k].blockedBy == Some(b);
  }

  /**
   * Said the other way round: with something pending and nothing under way, stuck or failed, the worker is
   * handed a task.
   */
  lemma WorkIsHandedOut(p: Policy, qs: seq<(Request, nat)>, a: nat, now: nat, i: nat)
    requires var db := Run(p, EMPTY, qs);
      a < |db.workers| && C.Available(CircuitOf(db, a), now) && i < |db.rows| && db.rows[i].status.Pending?
      && forall k | 0 <= k < |db.rows| :: db.rows[k].status.Pending? || db.rows[k].status.Completed?
    ensures var db := Run(p, EMPTY, qs); exists k :: HandedOut(db, a, None, now, k)
  {
    var db := Run(p, EMPTY, qs);
    RunKeeps(p, EMPTY, qs);
    hide Run;
    if Dispatch(db, a, None, now).1 == Given(None) {
      NoDeadlock(p, qs, a, now, i);
    } else {
      NobodyActive(db, a);
      hide Good, IsNamesake, Namesake, NextTask, ActiveOf;
      NextTaskOpen(db, a, None);
      assert HandedOut(db, a, None, now, NextTask(db, a, None).value);
    }
  }

  /** Where nothing is assigned or in progress, dispatch gets as far as the open tasks. */
  lemma NobodyActive(db: Db, a: nat)
    requires a < |db.workers| && forall k | 0 <= k < |db.rows| :: !Active(db.rows[k])
    ensures ActiveOf(db.rows, a).None? && Namesake(db, a, |db.workers|).None?
  {
    ActiveIsActive(db.rows, a);
    NamesakeHolds(db, a, |db.workers|);
    if Namesake(db, a, |db.workers|).Some? { ActiveIsActive(db.rows, Namesake(db, a, |db.workers|).value); }
  }
}
