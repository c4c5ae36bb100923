/**
 * What the requests of the coordination layer do to locks, owners and circuits, said without
 * their bodies: who may lose a lock, what a reassignment and a kill leave behind, and that the
 * stored circuits are the histories the circuit breaker is about.
 */
module CoordinationEffects {
  import opened Prelude
  import opened Coordination
  import opened CoordinationRuns
  import opened StaleCleanup
  import C = Circuit

  // ---------------------------------------------------------------- locks

  /** The requests by which a worker may lose the locks it holds. */
  predicate TakesLocksOf(db: Db, q: Request, now: nat, b: nat, path: string) {
    match q
    case UnlockR(a, freed) => a == b && freed == path
    case CheckOutR(a) => a == b
    case KillR(a) => a == b
    case ReassignR(i, _) => i < |db.rows| && db.rows[i].owner == Some(b)
    case CleanupR(seconds) => b in StaleSet(db.workers, seconds, now)
    case _ => false
  }

  lemma DispatchLocks(db: Db, a: nat, scope: Option<string>, now: nat)
    ensures Dispatch(db, a, scope, now).0.locks == db.locks
  {
    hide Best, ActiveOf, Namesake, NextTask;
  }

  lemma QuietLocks(p: Policy, db: Db, q: Request, now: nat)
    requires !q.LockR? && !q.UnlockR? && !q.CheckOutR? && !q.KillR? && !q.ReassignR? && !q.CleanupR?
    ensures Serve(p, db, q, now).0.locks == db.locks
  {
    hide Best, ActiveOf, LastSeen, Namesake, FindWorker, Dispatch;
    if q.NextR? {
      DispatchLocks(CheckIn(db, q.name, q.scope, now).0, CheckIn(db, q.name, q.scope, now).1, q.scope, now);
    } else if q.PollR? {
      DispatchLocks(db, q.a, if q.a < |db.workers| then db.workers[q.a].workspace else None, now);
    }
  }

  lemma CleanupLocks(p: Policy, db: Db, seconds: nat, now: nat)
    ensures CleanupStale(p, db, seconds, now).0.locks ==
      map path | path in db.locks && db.locks[path] !in StaleSet(db.workers, seconds, now) :: db.locks[path]
  {
    CleanupIsExact(p, db, seconds, now);
    hide CleanupStale, StaleSet, RowsCleaned, WorkersCleaned, CircuitsCleaned;
  }

  /** How the locks may change in one request. */
  ghost predicate LocksMove(db: Db, next: Db, q: Request, now: nat, path: string) {
    && (path in db.locks && !(path in next.locks && next.locks[path] == db.locks[path]) ==>
          path !in next.locks && TakesLocksOf(db, q, now, db.locks[path], path))
    && (path !in db.locks && path in next.locks ==>
      q == LockR(next.locks[path], path) && next.locks[path] < |db.workers|)
  }

  lemma ReassignLocks(db: Db, i: nat, to: Target, now: nat, path: string)
    ensures LocksMove(db, Reassign(db, i, to).0, ReassignR(i, to), now, path)
  {
    hide LastSeen;
  }

  lemma OwnLocks(p: Policy, db: Db, q: Request, now: nat, path: string)
    requires q.LockR? || q.UnlockR? || q.CheckOutR? || q.KillR?
    ensures LocksMove(db, Serve(p, db, q, now).0, q, now, path)
  {
  }

  /**
   * A lock is exclusive: while a worker holds it, no request of anybody else takes it away,
   * other than those that end the holder's hold on all its locks. Nobody is given a lock he did not ask for.
   */
  lemma LockChangesHands(p: Policy, db: Db, q: Request, now: nat, path: string)
    ensures LocksMove(db, Serve(p, db, q, now).0, q, now, path)
  {
    if q.CleanupR? {
      CleanupLocks(p, db, q.seconds, now);
      hide CleanupStale, StaleSet;
    } else if q.ReassignR? {
      ReassignLocks(db, q.i, q.to, now, path);
      hide Reassign, LocksMove;
    } else if q.LockR? || q.UnlockR? || q.CheckOutR? || q.KillR? {
      OwnLocks(p, db, q, now, path);
      hide Serve, LocksMove;
    } else {
      QuietLocks(p, db, q, now);
      hide Serve;
    }
  }

  // ---------------------------------------------------------------- owners

  /** A task assigned when it is created is its owner's only task under way. */
  lemma AssignedAlone(p: Policy, db: Db, to: Target, scope: Option<string>, priority: nat, blockedBy: Option<nat>,
                      description: Option<string>, now: nat, k: nat)
    requires Assign(db, to, scope, priority, blockedBy, description, now).1.Created?
    ensures var (next, r) := Assign(db, to, scope, priority, blockedBy, description, now);
      |next.rows| == |db.rows| + 1 && next.rows[..|db.rows|] == db.rows && r.id == |db.rows|
      && var row := next.rows[|db.rows|];
         (row.owner.Some? <==> to != Nobody) && (row.status == if row.owner.Some? then Assigned else Pending)
         && row.attempts == 0 && (row.blockedBy.Some? ==> row.blockedBy.value < |db.rows|)
         && (row.owner.Some? && k < |next.rows| && Active(next.rows[k]) && next.rows[k].owner == row.owner ==>
           k == |db.rows|)
  {
    var owner := Resolve(db, to, scope);
    if owner.Some? { ActiveIsActive(db.rows, owner.value); }
    hide FindWorker, ActiveOf;
  }

  // ---------------------------------------------------------------- circuits

  /** Dispatch for this worker comes to a task and so looks at its circuit. */
  predicate Looks(db: Db, a: nat, scope: Option<string>) {
    && ActiveOf(db.rows, a).None?
    && !(a < |db.workers| && Namesake(db, a, |db.workers|).Some?)
    && NextTask(db, a, scope).Some?
  }

  /** What a request means to the circuit of worker `a`. */
  function CircuitEvents(p: Policy, db: Db, q: Request, now: nat, a: nat): seq<(C.Event, nat)> {
    match q
    case UpdateR(i, to, result) =>
      if Update(p, db, i, to, result, now).1.Done? && i < |db.rows| && db.rows[i].owner == Some(a) then
        if to.Completed? then [(C.Success, now)] else if to.Failed? then [(C.Failure, now)] else []
      else []
    case FailR(i, _, _) =>
      if i < |db.rows| && !Terminal(db.rows[i]) && db.rows[i].owner == Some(a) then [(C.Failure, now)] else []
    case CleanupR(seconds) =>
      if a in StaleSet(db.workers, seconds, now) && OrphanCount(db.rows, a) > 0 then [(C.Failure, now)] else []
    case NextR(name, scope) =>
      var (db1, b) := CheckIn(db, name, scope, now);
      if a == b && Looks(db1, a, scope) then [(C.Looked, now)] else []
    case PollR(b) =>
      var scope := if a < |db.workers| then db.workers[a].workspace else None;
      if a == b && Looks(db, a, scope) then [(C.Looked, now)] else []
    case _ => []
  }

  function AfterAll(row: Option<C.Circuit>, es: seq<(C.Event, nat)>): Option<C.Circuit> {
    if es == [] then row else C.After(AfterAll(row, es[..|es| - 1]), es[|es| - 1])
  }

  lemma OneEvent(row: Option<C.Circuit>, e: (C.Event, nat))
    ensures AfterAll(row, [e]) == C.After(row, e)
  {
    assert [e][..0] == [];
  }

  lemma DispatchCircuits(db: Db, b: nat, scope: Option<string>, now: nat, a: nat)
    ensures CircuitOf(Dispatch(db, b, scope, now).0, a) ==
      if a == b && Looks(db, b, scope) then C.Look(CircuitOf(db, a), now) else CircuitOf(db, a)
  {
    NextTaskOpen(db, b, scope);
    hide ActiveOf, Namesake, NextTask;
  }

  lemma UpdateCircuits(p: Policy, db: Db, i: nat, to: Status, result: Option<string>, now: nat, a: nat)
    ensures CircuitOf(Update(p, db, i, to, result, now).0, a) ==
      AfterAll(CircuitOf(db, a), CircuitEvents(p, db, UpdateR(i, to, result), now, a))
  {
    OneEvent(CircuitOf(db, a), (C.Success, now));
    OneEvent(CircuitOf(db, a), (C.Failure, now));
    hide Unblock, AfterAll;
    assert AfterAll(CircuitOf(db, a), []) == CircuitOf(db, a) by { NoEvent(CircuitOf(db, a)); }
  }

  lemma NoEvent(row: Option<C.Circuit>)
    ensures AfterAll(row, []) == row
  {
  }

  lemma FailCircuits(p: Policy, db: Db, i: nat, result: Option<string>, mode: Option<string>, now: nat, a: nat)
    ensures CircuitOf(Fail(p, db, i, result, mode, now).0, a) ==
      AfterAll(CircuitOf(db, a), CircuitEvents(p, db, FailR(i, result, mode), now, a))
  {
    OneEvent(CircuitOf(db, a), (C.Failure, now));
    NoEvent(CircuitOf(db, a));
    hide RetryOrFail, AfterAll;
  }

  lemma CleanupCircuits(p: Policy, db: Db, seconds: nat, now: nat, a: nat)
    ensures CircuitOf(CleanupStale(p, db, seconds, now).0, a) ==
      AfterAll(CircuitOf(db, a), CircuitEvents(p, db, CleanupR(seconds), now, a))
  {
    OneEvent(CircuitOf(db, a), (C.Failure, now));
    NoEvent(CircuitOf(db, a));
    CleanupIsExact(p, db, seconds, now);
    hide CleanupStale, StaleSet, RowsCleaned, WorkersCleaned, LocksCleaned, OrphanCount, AfterAll;
  }

  lemma QuietCircuits(p: Policy, db: Db, q: Request, now: nat, a: nat)
    requires !q.UpdateR? && !q.FailR? && !q.CleanupR? && !q.NextR? && !q.PollR?
    ensures CircuitOf(Serve(p, db, q, now).0, a) == CircuitOf(db, a)
  {
    hide ActiveOf, LastSeen, FindWorker;
  }

  /** One request moves a worker's circuit by exactly the events it means to it. */
  lemma ServeCircuits(p: Policy, db: Db, q: Request, now: nat, a: nat)
    ensures CircuitOf(Serve(p, db, q, now).0, a) == AfterAll(CircuitOf(db, a), CircuitEvents(p, db, q, now, a))
  {
    OneEvent(CircuitOf(db, a), (C.Looked, now));
    NoEvent(CircuitOf(db, a));
    hide AfterAll, Update, Fail, CleanupStale, Dispatch, Looks;
    match q
    case UpdateR(i, to, result) => UpdateCircuits(p, db, i, to, result, now, a);
    case FailR(i, result, mode) => FailCircuits(p, db, i, result, mode, now, a);
    case CleanupR(seconds) => CleanupCircuits(p, db, seconds, now, a);
    case NextR(name, scope) =>
      var (db1, b) := CheckIn(db, name, scope, now);
      DispatchCircuits(db1, b, scope, now, a);
      hide CheckIn;
    case PollR(b) => DispatchCircuits(db, b, if b < |db.workers| then db.workers[b].workspace else None, now, a);
    case _ => QuietCircuits(p, db, q, now, a);
  }

  /** All that a run meant to one circuit, oldest first. */
  ghost function History(p: Policy, db: Db, qs: seq<(Request, nat)>, a: nat): seq<(C.Event, nat)>
    decreases |qs|
  {
    if qs == [] then []
    else CircuitEvents(p, db, qs[0].0, qs[0].1, a) + History(p, Serve(p, db, qs[0].0, qs[0].1).0, qs[1..], a)
  }

  lemma {:induction false} AfterConcat(row: Option<C.Circuit>, x: seq<(C.Event, nat)>, y: seq<(C.Event, nat)>)
    ensures AfterAll(row, x + y) == AfterAll(AfterAll(row, x), y)
    decreases |y|
  {
    if y == [] {
      assert x + y == x;
    } else {
      assert (x + y)[..|x + y| - 1] == x + y[..|y| - 1];
      AfterConcat(row, x, y[..|y| - 1]);
    }
  }

  lemma {:induction false} RunCircuits(p: Policy, db: Db, qs: seq<(Request, nat)>, a: nat)
    ensures CircuitOf(Run(p, db, qs), a) == AfterAll(CircuitOf(db, a), History(p, db, qs, a))
    decreases |qs|
  {
    if qs == [] {
      NoEvent(CircuitOf(db, a));
    } else {
      var next := Serve(p, db, qs[0].0, qs[0].1).0;
      ServeCircuits(p, db, qs[0].0, qs[0].1, a);
      RunCircuits(p, next, qs[1..], a);
      hide Serve, AfterAll, CircuitEvents;
      AfterConcat(CircuitOf(db, a), CircuitEvents(p, db, qs[0].0, qs[0].1, a), History(p, next, qs[1..], a));
    }
  }

  lemma {:induction false} RowIsAfterAll(h: seq<(C.Event, nat)>)
    ensures AfterAll(None, h) == C.Row(h)
    decreases |h|
  {
    if h != [] { RowIsAfterAll(h[..|h| - 1]); }
  }

  /** After any run the stored circuit of a worker is the circuit of its history of successes, failures and looks. */
  lemma CircuitIsItsHistory(p: Policy, qs: seq<(Request, nat)>, a: nat)
    ensures CircuitOf(Run(p, EMPTY, qs), a) == C.Row(History(p, EMPTY, qs, a))
  {
    RunCircuits(p, EMPTY, qs, a);
    RowIsAfterAll(History(p, EMPTY, qs, a));
  }

  /**
   * A worker for whom dispatch comes to a task is refused exactly when, in its history, it has
   * failed five times or more since its last success and its circuit opened at most 30 s ago.
   */
  lemma RefusedByHistory(p: Policy, qs: seq<(Request, nat)>, a: nat, scope: Option<string>, now: nat)
    requires C.Past(History(p, EMPTY, qs, a), now) && Looks(Run(p, EMPTY, qs), a, scope)
    ensures var db, h := Run(p, EMPTY, qs), History(p, EMPTY, qs, a);
      Dispatch(db, a, scope, now).1 == CircuitOpen <==>
        C.FailuresSinceSuccess(h) >= C.FAILURE_THRESHOLD && C.Row(h).Some? && C.Row(h).value.openedAt.Some?
        && now <= C.Row(h).value.openedAt.value * 1000 + C.HALF_OPEN_DELAY_MS
  {
    var db, h := Run(p, EMPTY, qs), History(p, EMPTY, qs, a);
    CircuitIsItsHistory(p, qs, a);
    C.RefusedExactly(h, now);
    NextTaskOpen(db, a, scope);
    hide Run, History, ActiveOf, Namesake, NextTask;
  }
}
