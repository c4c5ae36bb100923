// Blocked tasks over whole runs: a completion wakes everything that waits for it, and the only way
// to wait for a completed task is to be reported blocked after the completion.
module CoordinationBlocking {
  import opened Prelude
  import opened Coordination
  import opened CoordinationRuns

  /** Row `k` is blocked on a task that is completed: no completion will wake it. */
  predicate Stuck(rows: seq<Row>, k: nat) {
    k < |rows| && rows[k].status.Blocked? && rows[k].blockedBy.Some?
    && rows[k].blockedBy.value < |rows| && rows[rows[k].blockedBy.value].status.Completed?
  }

  ghost predicate Awake(db: Db) { forall k | 0 <= k < |db.rows| :: !Stuck(db.rows, k) }

  /** A task that may go to blocked, and whose blocker is completed, is reported blocked. */
  predicate ReportedLate(db: Db, q: Request) {
    q.UpdateR? && q.status.Blocked? && q.i < |db.rows| && Allowed(db.rows[q.i].status, Blocked)
    && db.rows[q.i].blockedBy.Some? && db.rows[q.i].blockedBy.value < |db.rows|
    && db.rows[db.rows[q.i].blockedBy.value].status.Completed?
  }

  /** No row becomes completed or blocked, and blocked ones wait for what they waited for, or for nothing. */
  ghost predicate Calm(rows: seq<Row>, next: seq<Row>) {
    && |rows| <= |next|
    && (forall k | 0 <= k < |next| && next[k].status.Completed? :: k < |rows| && rows[k].status.Completed?)
    && (forall k | 0 <= k < |next| && next[k].status.Blocked? ::
          k < |rows| && rows[k].status.Blocked? && next[k].blockedBy in {None, rows[k].blockedBy})
  }

  lemma {:induction false} CalmKeepsAwake(db: Db, next: Db)
    requires Awake(db) && Calm(db.rows, next.rows)
    ensures Awake(next)
  {
    forall k | 0 <= k < |next.rows| ensures !Stuck(next.rows, k) {
      assert !Stuck(db.rows, k);
    }
  }

  // ---------------------------------------------------------------- requests other than an update

  lemma {:induction false} DispatchCalm(db: Db, a: nat, scope: Option<string>, now: nat)
    ensures Calm(db.rows, Dispatch(db, a, scope, now).0.rows)
  {
    if a < |db.workers| { NamesakeHolds(db, a, |db.workers|); }
    NextTaskOpen(db, a, scope);
    hide Namesake, NextTask, ActiveOf;
  }

  lemma {:induction false} CalmTwice(a: seq<Row>, b: seq<Row>, c: seq<Row>)
    requires Calm(a, b) && Calm(b, c)
    ensures Calm(a, c)
  {
  }

  lemma {:induction false} CalmSame(rows: seq<Row>)
    ensures Calm(rows, rows)
  {
  }

  lemma {:induction false} CleanOneCalm(p: Policy, db: Db, a: nat, now: nat)
    requires a < |db.workers|
    ensures Calm(db.rows, CleanWorker(p, db, a, now).rows)
  {
    hide HintBlock;
  }

  lemma {:induction false} CleanCalm(p: Policy, db: Db, stale: seq<nat>, n: nat, now: nat)
    requires n <= |stale| && forall i | 0 <= i < |stale| :: stale[i] < |db.workers|
    ensures Calm(db.rows, CleanFirst(p, db, stale, n, now).0.rows)
    decreases n
  {
    hide Calm, CleanWorker, OrphanCount, LocksOf;
    if n == 0 {
      CalmSame(db.rows);
    } else {
      var before := CleanFirst(p, db, stale, n - 1, now).0;
      CleanCalm(p, db, stale, n - 1, now);
      CleanOneCalm(p, before, stale[n - 1], now);
      CalmTwice(db.rows, before.rows, CleanWorker(p, before, stale[n - 1], now).rows);
    }
  }

  lemma {:induction false} FailCalm(p: Policy, db: Db, i: nat, result: Option<string>, mode: Option<string>, now: nat)
    ensures Calm(db.rows, Fail(p, db, i, result, mode, now).0.rows)
  {
  }

  lemma {:induction false} ReassignCalm(db: Db, i: nat, to: Target)
    ensures Calm(db.rows, Reassign(db, i, to).0.rows)
  {
    hide LastSeen;
  }

  lemma {:induction false} AssignCalm(db: Db, to: Target, scope: Option<string>, priority: nat, blockedBy: Option<nat>,
                                      description: Option<string>, now: nat)
    ensures Calm(db.rows, Assign(db, to, scope, priority, blockedBy, description, now).0.rows)
  {
    hide Resolve, ActiveOf;
  }

  lemma {:induction false} KillCalm(db: Db, a: nat)
    ensures Calm(db.rows, Kill(db, a).0.rows)
  {
  }

  lemma {:induction false} CheckInRows(db: Db, name: string, scope: Option<string>, now: nat)
    ensures CheckIn(db, name, scope, now).0.rows == db.rows
  {
  }

  lemma {:induction false} ServeCalm(p: Policy, db: Db, q: Request, now: nat)
    requires !q.UpdateR?
    ensures Calm(db.rows, Serve(p, db, q, now).0.rows)
  {
    hide Dispatch, Fail, CleanFirst, Reassign, Assign, Kill, CheckIn;
    match q
    case NextR(name, scope) =>
      var (db1, a) := CheckIn(db, name, scope, now);
      DispatchCalm(db1, a, scope, now);
      CheckInRows(db, name, scope, now);
      assert Next(db, name, scope, now).0.rows == Dispatch(db1, a, scope, now).0.rows;
    case CheckInR(name, scope) => CheckInRows(db, name, scope, now);
    case PollR(a) => DispatchCalm(db, a, if a < |db.workers| then db.workers[a].workspace else None, now);
    case FailR(i, result, mode) => FailCalm(p, db, i, result, mode, now);
    case ReassignR(i, to) => ReassignCalm(db, i, to);
    case AssignR(to, scope, priority, blockedBy, description) =>
      AssignCalm(db, to, scope, priority, blockedBy, description, now);
    case KillR(a) => KillCalm(db, a);
    case CleanupR(seconds) =>
      var stale := StaleWorkers(db.workers, seconds, now);
      CleanCalm(p, db, stale, |stale|, now);
    case _ =>
  }

  // ---------------------------------------------------------------- updates, and whole runs

  /** An update leaves nobody stuck unless it reports a task blocked whose blocker is completed. */
  lemma {:induction false} UpdateExactly(p: Policy, db: Db, i: nat, to: Status, result: Option<string>, now: nat)
    requires Awake(db)
    ensures Awake(Update(p, db, i, to, result, now).0) <==> !ReportedLate(db, UpdateR(i, to, result))
  {
    var next := Update(p, db, i, to, result, now).0;
    if next.rows != db.rows {
      if ReportedLate(db, UpdateR(i, to, result)) {
        assert Stuck(next.rows, i);
      } else {
        forall k | 0 <= k < |next.rows| ensures !Stuck(next.rows, k) {
          assert !Stuck(db.rows, k);
        }
      }
    }
  }

  /** The exact condition, request by request. */
  lemma {:induction false} AwakeExactly(p: Policy, db: Db, q: Request, now: nat)
    requires Awake(db)
    ensures Awake(Serve(p, db, q, now).0) <==> !ReportedLate(db, q)
  {
    if q.UpdateR? {
      UpdateExactly(p, db, q.i, q.status, q.result, now);
    } else {
      ServeCalm(p, db, q, now);
      CalmKeepsAwake(db, Serve(p, db, q, now).0);
    }
  }

  /** Some request of the run reports a task blocked after its blocker was completed. */
  predicate EverReportedLate(p: Policy, db: Db, qs: seq<(Request, nat)>)
    decreases |qs|
  {
    qs != [] && (ReportedLate(db, qs[0].0) || EverReportedLate(p, Serve(p, db, qs[0].0, qs[0].1).0, qs[1..]))
  }

  /** In every state of the run no blocked task waits for a completed one. */
  ghost predicate AlwaysAwake(p: Policy, db: Db, qs: seq<(Request, nat)>) {
    forall k | 0 <= k <= |qs| :: Awake(Run(p, db, qs[..k]))
  }

  lemma {:induction false} RunFirst(p: Policy, db: Db, qs: seq<(Request, nat)>, k: nat)
    requires 0 < k <= |qs|
    ensures Run(p, db, qs[..k]) == Run(p, Serve(p, db, qs[0].0, qs[0].1).0, qs[1..][..k - 1])
  {
    assert qs[..k][1..] == qs[1..][..k - 1];
  }

  lemma {:induction false} AlwaysAwakeFirst(p: Policy, db: Db, qs: seq<(Request, nat)>)
    requires qs != []
    ensures AlwaysAwake(p, db, qs) <==> Awake(db) && AlwaysAwake(p, Serve(p, db, qs[0].0, qs[0].1).0, qs[1..])
  {
    var next := Serve(p, db, qs[0].0, qs[0].1).0;
    assert Run(p, db, qs[..0]) == db;
    hide Awake, Run, Serve;
    forall k | 0 < k <= |qs| ensures Run(p, db, qs[..k]) == Run(p, next, qs[1..][..k - 1]) { RunFirst(p, db, qs, k); }
    if AlwaysAwake(p, db, qs) {
      forall k | 0 <= k <= |qs[1..]| ensures Awake(Run(p, next, qs[1..][..k])) {
        assert Awake(Run(p, db, qs[..k + 1]));
      }
    }
  }

  /**
   * Completions wake everybody, exactly: in every state of a run no blocked task waits for a completed
   * one, if and only if no task was reported blocked after its blocker was completed.
   */
  lemma {:induction false} CompletionsWakeAll(p: Policy, db: Db, qs: seq<(Request, nat)>)
    requires Awake(db)
    ensures (forall k | 0 <= k <= |qs| :: Awake(Run(p, db, qs[..k]))) <==> !EverReportedLate(p, db, qs)
    decreases |qs|
  {
    if qs != [] {
      var next := Serve(p, db, qs[0].0, qs[0].1).0;
      AwakeExactly(p, db, qs[0].0, qs[0].1);
      AlwaysAwakeFirst(p, db, qs);
      if Awake(next) {
        CompletionsWakeAll(p, next, qs[1..]);
      } else {
        assert Run(p, next, qs[1..][..0]) == next;
      }
    }
  }

  // ---------------------------------------------------------------- a task that stays blocked

  /** One task is done; another, which it blocks, starts all the same and is then reported blocked. */
  function LateReport(result: string): seq<(Request, nat)> {
    [(AssignR(Nobody, None, 0, None, None), 0), (UpdateR(0, InProgress, None), 0),
     (UpdateR(0, Completed, Some(result)), 0), (AssignR(Nobody, None, 0, Some(0), None), 0),
     (UpdateR(1, Blocked, None), 0)]
  }

  /** The run from the empty tables, and what it leaves: a task no completion will wake. */
  lemma {:induction false} ReportedLateIsStuck(p: Policy, result: string)
    requires p.proves(result)
    ensures Awake(EMPTY) && Stuck(Run(p, EMPTY, LateReport(result)).rows, 1)
  {
    var qs := LateReport(result);
    var d1 := Serve(p, EMPTY, qs[0].0, 0).0;
    var d2 := Serve(p, d1, qs[1].0, 0).0;
    var d3 := Serve(p, d2, qs[2].0, 0).0;
    var d4 := Serve(p, d3, qs[3].0, 0).0;
    var d5 := Serve(p, d4, qs[4].0, 0).0;
    var first := NewRow(None, None, 0, None, None, 0);
    assert d1.rows == [first];
    assert d2.rows == [first.(status := InProgress)];
    assert d3.rows == [first.(status := Completed, result := Some(result))];
    assert d4.rows == d3.rows + [NewRow(None, None, 0, Some(0), None, 0)];
    assert d5.rows[0].status.Completed? && Stuck(d5.rows, 1);
    hide Serve;
    assert qs[1..][1..] == qs[2..] && qs[2..][1..] == qs[3..] && qs[3..][1..] == qs[4..] && qs[4..][1..] == qs[5..];
    assert Run(p, EMPTY, qs) == Run(p, d1, qs[1..]) == Run(p, d2, qs[2..]) == Run(p, d3, qs[3..]);
    assert Run(p, d3, qs[3..]) == Run(p, d4, qs[4..]) == Run(p, d5, qs[5..]);
  }
}
