/**
 * What one run of `cleanupStale` (src/coordination/stale.ts:88-132) amounts to, for any number
 * of stale workers, tasks and locks; and the retries of a task counted over whole runs.
 */
module StaleCleanup {
  import opened Prelude
  import opened Coordination
  import opened CoordinationRuns
  import C = Circuit

  // ---------------------------------------------------------------- the closed form

  predicate OrphanOf(r: Row, gone: set<nat>) { Active(r) && r.owner.Some? && r.owner.value in gone }

  /** How many tasks the workers of a set leave behind. */
  function OrphansAmong(rows: seq<Row>, gone: set<nat>): nat {
    if rows == [] then 0
    else OrphansAmong(rows[..|rows| - 1], gone) + if OrphanOf(rows[|rows| - 1], gone) then 1 else 0
  }

  function LocksAmong(db: Db, gone: set<nat>): set<string> { set path | path in db.locks && db.locks[path] in gone }

  ghost predicate RowsCleaned(p: Policy, db: Db, d: Db, gone: set<nat>) {
    |d.rows| == |db.rows| && forall k | 0 <= k < |db.rows| ::
      d.rows[k] == if OrphanOf(db.rows[k], gone) then RetryOrFail(p, db.rows[k], STALE_RESULT, None) else db.rows[k]
  }

  ghost predicate WorkersCleaned(db: Db, d: Db, gone: set<nat>) {
    |d.workers| == |db.workers| && forall a | 0 <= a < |db.workers| ::
      d.workers[a] == if a in gone then db.workers[a].(status := Dead, task := None) else db.workers[a]
  }

  ghost predicate LocksCleaned(db: Db, d: Db, gone: set<nat>) {
    d.locks == map path | path in db.locks && db.locks[path] !in gone :: db.locks[path]
  }

  /** One failure for each worker that left at least one task behind, however many it left. */
  ghost predicate CircuitsCleaned(db: Db, d: Db, gone: set<nat>, now: nat) {
    forall a: nat :: CircuitOf(d, a) ==
      if a in gone && OrphanCount(db.rows, a) > 0 then Some(C.RecordFailure(CircuitOf(db, a), now))
      else CircuitOf(db, a)
  }

  ghost predicate CleanedTo(p: Policy, db: Db, d: Db, gone: set<nat>, now: nat) {
    RowsCleaned(p, db, d, gone) && WorkersCleaned(db, d, gone) && LocksCleaned(db, d, gone)
      && CircuitsCleaned(db, d, gone, now)
  }

  // ---------------------------------------------------------------- one worker more

  lemma {:induction false} OrphansOfOne(rows: seq<Row>, after: seq<Row>, a: nat)
    requires |after| == |rows|
    requires forall k | 0 <= k < |rows| ::
      (Active(rows[k]) && OwnedBy(rows[k], a)) == (Active(after[k]) && OwnedBy(after[k], a))
    ensures OrphanCount(after, a) == OrphanCount(rows, a)
    decreases |rows|
  {
    if rows != [] { OrphansOfOne(rows[..|rows| - 1], after[..|rows| - 1], a); }
  }

  lemma {:induction false} OneMoreGone(rows: seq<Row>, gone: set<nat>, a: nat)
    requires a !in gone
    ensures OrphansAmong(rows, gone + {a}) == OrphansAmong(rows, gone) + OrphanCount(rows, a)
    decreases |rows|
  {
    if rows != [] { OneMoreGone(rows[..|rows| - 1], gone, a); }
  }

  lemma {:induction false} NobodyGone(rows: seq<Row>)
    ensures OrphansAmong(rows, {}) == 0
    decreases |rows|
  {
    if rows != [] { NobodyGone(rows[..|rows| - 1]); }
  }

  /** Cleaning others leaves a worker's own orphans and locks as they were. */
  lemma OthersUntouched(p: Policy, db: Db, d: Db, gone: set<nat>, a: nat)
    requires RowsCleaned(p, db, d, gone) && LocksCleaned(db, d, gone) && a !in gone
    ensures OrphanCount(d.rows, a) == OrphanCount(db.rows, a) && LocksOf(d, a) == LocksOf(db, a)
  {
    OrphansOfOne(db.rows, d.rows, a);
  }

  lemma RowsStep(p: Policy, db: Db, d: Db, gone: set<nat>, a: nat, now: nat)
    requires RowsCleaned(p, db, d, gone) && a !in gone && a < |d.workers|
    ensures RowsCleaned(p, db, CleanWorker(p, d, a, now), gone + {a})
  {
  }

  lemma CircuitsStep(p: Policy, db: Db, d: Db, gone: set<nat>, a: nat, now: nat)
    requires CircuitsCleaned(db, d, gone, now) && a !in gone && a < |d.workers|
        && OrphanCount(d.rows, a) == OrphanCount(db.rows, a)
    ensures CircuitsCleaned(db, CleanWorker(p, d, a, now), gone + {a}, now)
  {
    hide Orphaned, OrphanCount;
  }

  lemma TablesStep(p: Policy, db: Db, d: Db, gone: set<nat>, a: nat, now: nat)
    requires WorkersCleaned(db, d, gone) && LocksCleaned(db, d, gone) && a < |db.workers|
    ensures WorkersCleaned(db, CleanWorker(p, d, a, now), gone + {a})
        && LocksCleaned(db, CleanWorker(p, d, a, now), gone + {a})
  {
    hide Orphaned, OrphanCount;
  }

  lemma CleanStep(p: Policy, db: Db, d: Db, gone: set<nat>, a: nat, now: nat)
    requires CleanedTo(p, db, d, gone, now) && a !in gone && a < |db.workers|
    ensures CleanedTo(p, db, CleanWorker(p, d, a, now), gone + {a}, now)
    ensures OrphanCount(d.rows, a) == OrphanCount(db.rows, a) && LocksOf(d, a) == LocksOf(db, a)
  {
    assert |d.workers| == |db.workers|;
    hide RowsCleaned, CircuitsCleaned, LocksCleaned, WorkersCleaned, CleanWorker;
    OthersUntouched(p, db, d, gone, a);
    RowsStep(p, db, d, gone, a, now);
    CircuitsStep(p, db, d, gone, a, now);
    TablesStep(p, db, d, gone, a, now);
  }

  lemma LocksStep(db: Db, gone: set<nat>, a: nat)
    requires a !in gone
    ensures |LocksAmong(db, gone + {a})| == |LocksAmong(db, gone)| + |LocksOf(db, a)|
  {
    assert LocksAmong(db, gone + {a}) == LocksAmong(db, gone) + LocksOf(db, a);
    assert LocksAmong(db, gone) !! LocksOf(db, a);
  }

  // ---------------------------------------------------------------- the whole loop

  function Firsts(stale: seq<nat>, n: nat): (r: set<nat>)
    requires n <= |stale|
    ensures forall a :: a in r <==> a in stale[..n]
  {
    if n == 0 then {} else Firsts(stale, n - 1) + {stale[n - 1]}
  }

  ghost predicate Distinct(stale: seq<nat>) { forall i, k | 0 <= i < k < |stale| :: stale[i] != stale[k] }

  lemma NotYet(stale: seq<nat>, n: nat)
    requires Distinct(stale) && 0 < n <= |stale|
    ensures stale[n - 1] !in Firsts(stale, n - 1)
  {
  }

  /** The count, and the tables, of the first `n` turns of the loop. */
  ghost predicate Turned(p: Policy, db: Db, stale: seq<nat>, n: nat, now: nat)
    requires n <= |stale| && forall i | 0 <= i < |stale| :: stale[i] < |db.workers|
  {
    var (d, count) := CleanFirst(p, db, stale, n, now);
    CleanedTo(p, db, d, Firsts(stale, n), now)
    && count == OrphansAmong(db.rows, Firsts(stale, n)) + |LocksAmong(db, Firsts(stale, n))|
  }

  lemma NoTurn(p: Policy, db: Db, stale: seq<nat>, now: nat)
    requires forall i | 0 <= i < |stale| :: stale[i] < |db.workers|
    ensures Turned(p, db, stale, 0, now)
  {
    NobodyGone(db.rows);
    assert LocksAmong(db, {}) == {};
  }

  lemma OneTurn(p: Policy, db: Db, stale: seq<nat>, n: nat, now: nat)
    requires 0 < n <= |stale| && Distinct(stale) && forall i | 0 <= i < |stale| :: stale[i] < |db.workers|
    requires Turned(p, db, stale, n - 1, now)
    ensures Turned(p, db, stale, n, now)
  {
    var gone, a := Firsts(stale, n - 1), stale[n - 1];
    var d := CleanFirst(p, db, stale, n - 1, now).0;
    NotYet(stale, n);
    hide Distinct, CleanedTo, CleanWorker, LocksOf, LocksAmong, OrphanCount, OrphansAmong;
    CleanStep(p, db, d, gone, a, now);
    OneMoreGone(db.rows, gone, a);
    LocksStep(db, gone, a);
  }

  lemma {:induction false} CleanFirstIs(p: Policy, db: Db, stale: seq<nat>, n: nat, now: nat)
    requires n <= |stale| && Distinct(stale) && forall i | 0 <= i < |stale| :: stale[i] < |db.workers|
    ensures Turned(p, db, stale, n, now)
    decreases n
  {
    hide Turned, Distinct;
    if n == 0 {
      NoTurn(p, db, stale, now);
    } else {
      CleanFirstIs(p, db, stale, n - 1, now);
      OneTurn(p, db, stale, n, now);
    }
  }

  lemma {:induction false} StaleExactly(workers: seq<Worker>, seconds: nat, now: nat)
    ensures var stale := StaleWorkers(workers, seconds, now);
      (forall i, k | 0 <= i < k < |stale| :: stale[i] < stale[k])
      && forall a | 0 <= a < |workers| :: a in stale <==> Stale(workers[a], seconds, now)
    decreases |workers|
  {
    if workers != [] { StaleExactly(workers[..|workers| - 1], seconds, now); }
  }

  function StaleSet(workers: seq<Worker>, seconds: nat, now: nat): set<nat> {
    set a | 0 <= a < |workers| && Stale(workers[a], seconds, now)
  }

  lemma StaleAreFirst(workers: seq<Worker>, seconds: nat, now: nat)
    ensures var stale := StaleWorkers(workers, seconds, now);
      Firsts(stale, |stale|) == StaleSet(workers, seconds, now) && Distinct(stale)
  {
    var stale := StaleWorkers(workers, seconds, now);
    StaleExactly(workers, seconds, now);
    assert stale[..|stale|] == stale;
    hide Stale, StaleWorkers, Firsts;
  }

  /**
   * The cleanup in closed form. Every task a stale worker had assigned or in progress is
   * retried or failed, every lock it held is released and it is dead; its circuit gets one
   * failure if it left a task. `cleaned` is the tasks and locks together. All other rows,
   * workers, locks and circuits are as before.
   */
  lemma CleanupIsExact(p: Policy, db: Db, seconds: nat, now: nat)
    ensures var (d, r) := CleanupStale(p, db, seconds, now);
      var gone := StaleSet(db.workers, seconds, now);
      CleanedTo(p, db, d, gone, now) && r == Cleaned(OrphansAmong(db.rows, gone) + |LocksAmong(db, gone)|)
  {
    var stale := StaleWorkers(db.workers, seconds, now);
    StaleAreFirst(db.workers, seconds, now);
    hide CleanFirst, CleanedTo, StaleWorkers, StaleSet, Firsts, Distinct, OrphansAmong, LocksAmong;
    CleanFirstIs(p, db, stale, |stale|, now);
  }

  /** Afterwards no stale worker is alive, owns a task under way, or holds a lock. */
  lemma NothingStaleIsLeft(p: Policy, db: Db, seconds: nat, now: nat, a: nat)
    requires a < |db.workers| && Stale(db.workers[a], seconds, now)
    ensures var d := CleanupStale(p, db, seconds, now).0;
      a < |d.workers| && d.workers[a].status.Dead? && ActiveOf(d.rows, a).None? && LocksOf(d, a) == {}
  {
    CleanupIsExact(p, db, seconds, now);
    hide CleanupStale;
    var d := CleanupStale(p, db, seconds, now).0;
    ActiveIsActive(d.rows, a);
  }

  // ---------------------------------------------------------------- retries counted

  /** The request retries task `i`: it fails it, or cleans up its stale owner, with budget left. */
  predicate Retries(db: Db, q: Request, now: nat, i: nat) {
    i < |db.rows| && !Terminal(db.rows[i]) && db.rows[i].attempts < MAX_RETRY_ATTEMPTS
    && match q
       case FailR(k, _, _) => k == i
       case CleanupR(seconds) => OrphanOf(db.rows[i], StaleSet(db.workers, seconds, now))
       case _ => false
  }

  lemma QuietAttempts(p: Policy, db: Db, q: Request, now: nat, i: nat)
    requires i < |db.rows| && !q.FailR? && !q.CleanupR? && !q.NextR? && !q.PollR?
    ensures i < |Serve(p, db, q, now).0.rows| && Serve(p, db, q, now).0.rows[i].attempts == db.rows[i].attempts
  {
    hide Best, ActiveOf, LastSeen, Namesake, FindWorker;
    if q.UpdateR? {
      UpdateAttempts(p, db, q.i, q.status, q.result, now, i);
      hide Update;
    } else if q.ReassignR? {
      ReassignAttempts(db, q.i, q.to, i);
      hide Reassign;
    } else {
      hide Update, Reassign;
    }
  }

  lemma UpdateAttempts(p: Policy, db: Db, k: nat, to: Status, result: Option<string>, now: nat, i: nat)
    requires i < |db.rows|
    ensures var rows := Update(p, db, k, to, result, now).0.rows; i < |rows| && rows[i].attempts == db.rows[i].attempts
  {
  }

  lemma ReassignAttempts(db: Db, k: nat, to: Target, i: nat)
    requires i < |db.rows|
    ensures var rows := Reassign(db, k, to).0.rows; i < |rows| && rows[i].attempts == db.rows[i].attempts
  {
    hide LastSeen;
  }

  lemma DispatchAttempts(db: Db, a: nat, scope: Option<string>, now: nat, i: nat)
    requires i < |db.rows|
    ensures var rows := Dispatch(db, a, scope, now).0.rows; i < |rows| && rows[i].attempts == db.rows[i].attempts
  {
    hide Best, ActiveOf, LastSeen, Namesake;
  }

  lemma ServeAttempts(p: Policy, db: Db, q: Request, now: nat, i: nat)
    requires i < |db.rows|
    ensures var rows := Serve(p, db, q, now).0.rows;
      i < |rows| && rows[i].attempts == db.rows[i].attempts + if Retries(db, q, now, i) then 1 else 0
  {
    match q
    case FailR(_, _, _) =>
    case CleanupR(seconds) => CleanupIsExact(p, db, seconds, now); hide CleanupStale;
    case NextR(name, scope) =>
      var (db1, a) := CheckIn(db, name, scope, now);
      assert db1.rows == db.rows;
      hide CheckIn;
      DispatchAttempts(db1, a, scope, now, i);
      hide Dispatch;
    case PollR(a) =>
      DispatchAttempts(db, a, if a < |db.workers| then db.workers[a].workspace else None, now, i);
      hide Dispatch;
    case _ => QuietAttempts(p, db, q, now, i);
  }

  /** How many requests of a run retried task `i`. */
  ghost function RetriesIn(p: Policy, db: Db, qs: seq<(Request, nat)>, i: nat): nat
    decreases |qs|
  {
    if qs == [] then 0
    else (if Retries(db, qs[0].0, qs[0].1, i) then 1 else 0)
         + RetriesIn(p, Serve(p, db, qs[0].0, qs[0].1).0, qs[1..], i)
  }

  /** `attempt_count` is the number of retries so far, over any run; it never passes three. */
  lemma {:induction false} AttemptsCountRetries(p: Policy, db: Db, qs: seq<(Request, nat)>, i: nat)
    requires Good(p, db) && i < |db.rows|
    ensures i < |Run(p, db, qs).rows|
    ensures Run(p, db, qs).rows[i].attempts == db.rows[i].attempts + RetriesIn(p, db, qs, i) <= MAX_RETRY_ATTEMPTS
    decreases |qs|
  {
    if qs == [] {
      assert RowOk(p, |db.workers|, i, db.rows[i]);
    } else {
      var next := Serve(p, db, qs[0].0, qs[0].1).0;
      ServeKeeps(p, db, qs[0].0, qs[0].1);
      ServeAttempts(p, db, qs[0].0, qs[0].1, i);
      hide Serve, Retries, Onward;
      AttemptsCountRetries(p, next, qs[1..], i);
    }
  }
}
