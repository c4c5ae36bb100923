// What each coordination request answers and stores, told without the functions that compute it:
// for every state of the tables, which rows, workers and locks a request changes, and to what.
module CoordinationAnswers {
  import opened Prelude
  import opened Coordination
  import opened CoordinationRuns
  import opened StaleCleanup
  import C = Circuit

  // ---------------------------------------------------------------- who has, and who may take, a task

  /** The row is the worker's, and it is at it. */
  predicate Has(r: Row, a: nat) { r.owner == Some(a) && r.status in {Assigned, InProgress} }

  /** Row `k` is the worker's, and none of its other tasks under way was created later. */
  ghost predicate Newest(rows: seq<Row>, a: nat, k: nat) {
    k < |rows| && Has(rows[k], a)
    && forall j | 0 <= j < |rows| && Has(rows[j], a) :: rows[j].createdAt <= rows[k].createdAt
  }

  ghost predicate HasNone(rows: seq<Row>, a: nat) { forall k | 0 <= k < |rows| :: !Has(rows[k], a) }

  lemma {:induction false} ActiveIsNewest(rows: seq<Row>, a: nat)
    ensures match ActiveOf(rows, a)
      case None => HasNone(rows, a)
      case Some(k) => Newest(rows, a, k)
    decreases |rows|
  {
    if rows != [] { ActiveIsNewest(rows[..|rows| - 1], a); }
  }

  /** A live worker of the same name under another id. */
  predicate Twin(workers: seq<Worker>, a: nat, b: nat) {
    a < |workers| && b < |workers| && b != a && workers[b].name == workers[a].name && workers[b].status != Dead
  }

  ghost predicate TwinsHaveNone(db: Db, a: nat) {
    forall b | 0 <= b < |db.workers| && Twin(db.workers, a, b) :: HasNone(db.rows, b)
  }

  lemma {:induction false} NamesakeIsTwin(db: Db, a: nat)
    requires a < |db.workers|
    ensures match Namesake(db, a, |db.workers|)
      case None => TwinsHaveNone(db, a)
      case Some(b) =>
        Twin(db.workers, a, b) && ActiveOf(db.rows, b).Some? && Newest(db.rows, b, ActiveOf(db.rows, b).value)
  {
    NamesakeHolds(db, a, |db.workers|);
    forall b | 0 <= b < |db.workers| && Twin(db.workers, a, b) && !IsNamesake(db, a, b) ensures HasNone(db.rows, b) {
      ActiveIsNewest(db.rows, b);
    }
    var found := Namesake(db, a, |db.workers|);
    if found.Some? { ActiveIsNewest(db.rows, found.value); }
  }

  /**
   * A task the worker may be handed: pending, its own or nobody's and in its sight, and not waiting for
   * an unfinished one.
   */
  predicate MayTake(rows: seq<Row>, a: nat, scope: Option<string>, r: Row) {
    && r.status == Pending
    && (r.owner == Some(a) || (r.owner == None && (scope == None || r.workspace == None || r.workspace == scope)))
    && (r.blockedBy == None || (r.blockedBy.value < |rows| && rows[r.blockedBy.value].status == Completed))
  }

  /** Of the tasks it may take, first its own, then by priority, then the oldest. */
  ghost predicate ToHandOut(rows: seq<Row>, a: nat, scope: Option<string>, i: nat) {
    && i < |rows| && MayTake(rows, a, scope, rows[i])
    && forall k | 0 <= k < |rows| && MayTake(rows, a, scope, rows[k]) ::
         (rows[i].owner == Some(a) || rows[k].owner != Some(a))
         && (rows[k].owner == rows[i].owner ==>
               rows[k].priority < rows[i].priority
               || (rows[k].priority == rows[i].priority && rows[k].createdAt >= rows[i].createdAt))
  }

  lemma {:induction false} NextTaskIsToHandOut(db: Db, a: nat, scope: Option<string>)
    ensures match NextTask(db, a, scope)
      case None => forall k | 0 <= k < |db.rows| :: !MayTake(db.rows, a, scope, db.rows[k])
      case Some(i) => ToHandOut(db.rows, a, scope, i)
  {
    BestIsBest(db.rows, r => ReservedFor(db.rows, a, r));
    BestIsBest(db.rows, r => OpenTo(db.rows, scope, r));
    assert forall r: Row :: MayTake(db.rows, a, scope, r) <==> ReservedFor(db.rows, a, r) || OpenTo(db.rows, scope, r);
  }

  // ---------------------------------------------------------------- dispatch

  /** A worker that has a task is told of its newest, and nothing changes. */
  lemma {:induction false} OwnTaskFirst(db: Db, a: nat, scope: Option<string>, now: nat)
    requires !HasNone(db.rows, a)
    ensures var (next, answer) := Dispatch(db, a, scope, now);
      next == db && exists k: nat :: Newest(db.rows, a, k) && answer == Given(Some(k))
  {
    ActiveIsNewest(db.rows, a);
  }

  /** The row, and nothing else of the task, goes to the worker, who is at it now. */
  function Taken(db: Db, a: nat, k: nat, r: Row): Db
    requires a < |db.workers| && k < |db.rows|
  {
    db.(rows := db.rows[k := r], workers := db.workers[a := db.workers[a].(status := Working, task := Some(k))])
  }

  /** Without one, a live worker of the same name under another id passes its newest on. */
  lemma {:induction false} TwinsTaskMoves(db: Db, a: nat, scope: Option<string>, now: nat)
    requires a < |db.workers| && HasNone(db.rows, a) && !TwinsHaveNone(db, a)
    ensures var (next, answer) := Dispatch(db, a, scope, now);
      exists b: nat, k: nat :: Twin(db.workers, a, b) && Newest(db.rows, b, k) && answer == Given(Some(k))
        && next == Taken(db, a, k, db.rows[k].(owner := Some(a)))
  {
    ActiveIsNewest(db.rows, a);
    NamesakeIsTwin(db, a);
    hide Newest, HasNone, TwinsHaveNone;
    var b := Namesake(db, a, |db.workers|).value;
    var k := ActiveOf(db.rows, b).value;
    assert Twin(db.workers, a, b) && Newest(db.rows, b, k) && k < |db.rows|;
  }

  /**
   * Otherwise the task to hand out, if there is one and the circuit lets the worker have it: it is
   * the worker's, assigned, and the worker is at it; no other row, worker or lock changes.
   */
  lemma {:induction false} OpenTaskNext(db: Db, a: nat, scope: Option<string>, now: nat)
    requires HasNone(db.rows, a) && (a < |db.workers| ==> TwinsHaveNone(db, a))
    ensures var (next, answer) := Dispatch(db, a, scope, now);
      if forall k | 0 <= k < |db.rows| :: !MayTake(db.rows, a, scope, db.rows[k]) then
        next == db && answer == Given(None)
      else if !C.Available(CircuitOf(db, a), now) then next == db && answer == CircuitOpen
      else if a >= |db.workers| then answer == ForeignKey && next == db.(circuits := next.circuits)
      else exists i: nat :: ToHandOut(db.rows, a, scope, i) && answer == Given(Some(i))
             && next == Taken(db, a, i, db.rows[i].(owner := Some(a), status := Assigned)).(circuits := next.circuits)
  {
    ActiveIsNewest(db.rows, a);
    if a < |db.workers| {
      NamesakeIsTwin(db, a);
      assert Namesake(db, a, |db.workers|).None?;
    }
    NextTaskIsToHandOut(db, a, scope);
    var i := NextTask(db, a, scope);
    if i.Some? { assert MayTake(db.rows, a, scope, db.rows[i.value]); }
    hide MayTake, ActiveOf, Namesake, NextTask;
  }

  /** Polling keeps to the worker's own workspace: what it newly hands out is of it or of none. */
  lemma {:induction false} PollStaysHome(db: Db, a: nat, now: nat, k: nat)
    requires a < |db.workers| && HasNone(db.rows, a) && TwinsHaveNone(db, a)
    requires Poll(db, a, now).1 == Given(Some(k)) && db.workers[a].workspace.Some?
    ensures k < |db.rows| && (db.rows[k].owner == Some(a) || db.rows[k].workspace in {None, db.workers[a].workspace})
  {
    OpenTaskNext(db, a, db.workers[a].workspace, now);
  }

  // ---------------------------------------------------------------- finding and registering workers

  predicate Fits(w: Worker, name: string, alive: bool) { w.name == name && (alive ==> w.status != Dead) }

  /** Of the workers of this name the one last seen, from the asked workspace if any of them is. */
  ghost predicate Chosen(workers: seq<Worker>, name: string, scope: Option<string>, alive: bool, a: nat) {
    && a < |workers| && Fits(workers[a], name, alive)
    && forall b | 0 <= b < |workers| && Fits(workers[b], name, alive) ::
         (workers[a].workspace == scope || workers[b].workspace != scope)
         && (workers[b].workspace == scope || workers[a].workspace != scope ==>
           workers[b].lastSeen <= workers[a].lastSeen)
  }

  ghost predicate NobodyFits(workers: seq<Worker>, name: string, alive: bool) {
    forall b | 0 <= b < |workers| :: !Fits(workers[b], name, alive)
  }

  lemma {:induction false} FoundIsChosen(workers: seq<Worker>, name: string, scope: Option<string>, alive: bool)
    ensures match FindWorker(workers, name, scope, alive)
      case None => NobodyFits(workers, name, alive)
      case Some(a) => Chosen(workers, name, scope, alive, a)
  {
    SeenInRange(workers, (w: Worker) => w.name == name && w.workspace == scope && (alive ==> !w.status.Dead?));
    SeenInRange(workers, (w: Worker) => w.name == name && (alive ==> !w.status.Dead?));
    hide LastSeen;
  }

  /** The other tables and workers are as they were; this worker is now `w`. */
  predicate OnlyWorker(db: Db, next: Db, a: nat, w: Worker) {
    a < |db.workers| && next == db.(workers := db.workers[a := w])
  }

  /** A check-in registers an unknown name and otherwise refreshes the chosen worker; a dead one is idle again. */
  lemma {:induction false} ChecksIn(db: Db, name: string, scope: Option<string>, now: nat)
    ensures var (next, a) := CheckIn(db, name, scope, now);
      if NobodyFits(db.workers, name, false) then
        a == |db.workers| && next == db.(workers := db.workers + [Worker(name, scope, Idle, now / 1000, None)])
      else
        Chosen(db.workers, name, scope, false, a)
        && var w := db.workers[a];
           OnlyWorker(db, next, a, Worker(w.name, if scope == None then w.workspace else scope,
                                          if w.status == Dead then Idle else w.status, now / 1000, w.task))
  {
    FoundIsChosen(db.workers, name, scope, false);
    hide FindWorker;
  }

  /** After a `next` that gives a task the worker is at work; the tables are otherwise those of the dispatch. */
  lemma {:induction false} NextPutsToWork(db: Db, name: string, scope: Option<string>, now: nat)
    ensures var (seen, a) := CheckIn(db, name, scope, now);
      var (given, first) := Dispatch(seen, a, scope, now);
      var (next, answer) := Next(db, name, scope, now);
      answer == first && a < |given.workers| == |next.workers|
      && next == given.(workers := given.workers[a := next.workers[a]])
      && next.workers[a] == (if answer.Given? && answer.task.Some? && given.workers[a].status != Working
                             then given.workers[a].(status := Working, task := answer.task) else given.workers[a])
      && (answer.Given? && answer.task.Some? ==> next.workers[a].status == Working)
  {
    var (seen, a) := CheckIn(db, name, scope, now);
    ChecksIn(db, name, scope, now);
    DispatchWorkers(seen, a, scope, now);
    hide Dispatch, CheckIn;
  }

  lemma {:induction false} DispatchWorkers(db: Db, a: nat, scope: Option<string>, now: nat)
    ensures |Dispatch(db, a, scope, now).0.workers| == |db.workers|
  {
    hide NextTask, ActiveOf, Namesake;
  }

  // ---------------------------------------------------------------- creating and claiming

  /** Whom a target names: nobody, the given id, or the chosen live worker of the name. */
  ghost predicate Named(db: Db, to: Target, scope: Option<string>, owner: Option<nat>) {
    match to
    case Nobody => owner == None
    case ById(a) => owner == Some(a)
    case ByName(name) => owner.Some? && Chosen(db.workers, name, scope, true, owner.value)
  }

  /** What happens to an assignment once it is clear whom it is for. */
  ghost predicate StoredFor(db: Db, owner: Option<nat>, scope: Option<string>, priority: nat, blockedBy: Option<nat>,
                            description: Option<string>, now: nat, next: Db, answer: Response)
  {
    if owner.Some? && !HasNone(db.rows, owner.value) then next == db && answer == Conflict
    else if (owner.Some? && owner.value >= |db.workers|) || (blockedBy.Some? && blockedBy.value >= |db.rows|) then
      next == db && answer == ForeignKey
    else
      var n := |db.rows|;
      answer == Created(n) && next.locks == db.locks && next.circuits == db.circuits
      && next.rows == db.rows + [Row(owner, if owner == None then Pending else Assigned, priority, blockedBy, scope,
                                     now / 1000, description, 0, None, None, description, [])]
      && next.workers == if owner == None then db.workers
                         else db.workers[owner.value := db.workers[owner.value].(status := Working, task := Some(n))]
  }

  /**
   * An assignment is refused for an unknown name, a worker that has a task, or an id of nobody; else it is
   * stored as asked, for the worker the target names, who is at it.
   */
  lemma {:induction false} AssignsAsAsked(db: Db, to: Target, scope: Option<string>, priority: nat,
                                          blockedBy: Option<nat>, description: Option<string>, now: nat)
    ensures var (next, answer) := Assign(db, to, scope, priority, blockedBy, description, now);
      if to.ByName? && NobodyFits(db.workers, to.name, true) then next == db && answer == Missing
      else exists owner: Option<nat> ::
             Named(db, to, scope, owner)
             && StoredFor(db, owner, scope, priority, blockedBy, description, now, next, answer)
  {
    var owner := Resolve(db, to, scope);
    if to.ByName? { FoundIsChosen(db.workers, to.name, scope, true); }
    if owner.Some? { ActiveIsNewest(db.rows, owner.value); }
    hide FindWorker, ActiveOf;
    assert !(to.ByName? && NobodyFits(db.workers, to.name, true)) ==> Named(db, to, scope, owner);
  }

  /** A claim takes a pending task, whatever it waits for, for a worker there is. */
  lemma {:induction false} ClaimsPending(db: Db, i: nat, a: nat)
    ensures var (next, answer) := Claim(db, i, a);
      if i >= |db.rows| || db.rows[i].status != Pending then next == db && answer == Conflict
      else if a >= |db.workers| then next == db && answer == ForeignKey
      else answer == Done && next == Taken(db, a, i, db.rows[i].(owner := Some(a), status := Assigned))
  {
  }

  // ---------------------------------------------------------------- updating

  /** The transitions the routes let through; from pending any of the four reported statuses. */
  predicate MayGo(from: Status, to: Status) {
    (from, to) in {
      (Pending, InProgress), (Pending, Completed), (Pending, Failed), (Pending, Blocked),
      (Assigned, InProgress), (Assigned, Failed),
      (InProgress, Completed), (InProgress, Failed), (InProgress, Blocked),
      (Blocked, InProgress), (Blocked, Failed)}
  }

  /** An update is done exactly when the transition is one of these and a completion carries proof. */
  lemma {:induction false} UpdateAnswers(p: Policy, db: Db, i: nat, to: Status, result: Option<string>, now: nat)
    ensures var (next, answer) := Update(p, db, i, to, result, now);
      (answer == Done <==> i < |db.rows| && MayGo(db.rows[i].status, to)
                           && (to == Completed ==> result.Some? && p.proves(result.value)))
      && (answer != Done ==> next == db && answer == if i < |db.rows| then Refused else Missing)
  {
  }

  /**
   * A done update stores the status and the result it was given. An ended task frees its owner; a completed one
   * also wakes the tasks blocked on it. No other row, worker or lock changes.
   */
  lemma {:induction false} UpdateStores(p: Policy, db: Db, i: nat, to: Status, result: Option<string>, now: nat)
    requires Update(p, db, i, to, result, now).1 == Done
    ensures var next := Update(p, db, i, to, result, now).0;
      i < |db.rows| == |next.rows| && next.locks == db.locks
      && (forall k | 0 <= k < |db.rows| ::
            var r := db.rows[k];
            next.rows[k] == if k == i then r.(status := to, result := result)
                            else if to == Completed && r.status == Blocked && r.blockedBy == Some(i)
                            then r.(status := Assigned, blockedBy := None)
                            else r)
      && var owner := db.rows[i].owner;
         next.workers == if owner.Some? && owner.value < |db.workers| && to in {Completed, Failed}
                         then db.workers[owner.value := db.workers[owner.value].(status := Idle, task := None)]
                         else db.workers
  {
  }

  // ---------------------------------------------------------------- reassigning, failing, killing

  /** The last seen of the live workers of this name, in any workspace. */
  ghost predicate LastOf(workers: seq<Worker>, name: string, a: nat) {
    && a < |workers| && Fits(workers[a], name, true)
    && forall b | 0 <= b < |workers| && Fits(workers[b], name, true) :: workers[b].lastSeen <= workers[a].lastSeen
  }

  ghost predicate Targeted(db: Db, to: Target, target: Option<nat>) {
    match to
    case Nobody => target == None
    case ById(a) => target == Some(a)
    case ByName(name) => target.Some? && LastOf(db.workers, name, target.value)
  }

  /** The workers after a task went from `from` to `target`: the one is idle, the other at the task. */
  function Handed(workers: seq<Worker>, from: Option<nat>, target: Option<nat>, i: nat): seq<Worker> {
    seq(|workers|, b requires 0 <= b < |workers| =>
      if target == Some(b) then workers[b].(status := Working, task := Some(i))
      else if from == Some(b) then workers[b].(status := Idle, task := None)
      else workers[b])
  }

  /** The effect of a reassignment that is let through. */
  ghost predicate HandedOver(db: Db, next: Db, i: nat, target: Option<nat>)
    requires i < |db.rows|
  {
    var from := db.rows[i].owner;
    && next.circuits == db.circuits
    && next.rows == db.rows[i := db.rows[i].(owner := target, status := if target == None then Pending else Assigned)]
    && next.workers == Handed(db.workers, from, target, i)
    && if from.Some? then LocksFreed(db.locks, next.locks, from.value) else next.locks == db.locks
  }

  lemma {:induction false} ReassignHands(db: Db, i: nat, to: Target, target: Option<nat>)
    requires i < |db.rows| && !Terminal(db.rows[i]) && (target.Some? ==> target.value < |db.workers|)
    requires target == match to
      case Nobody => None
      case ById(a) => Some(a)
      case ByName(name) => LastSeen(db.workers, (w: Worker) => w.name == name && !w.status.Dead?)
    requires to.ByName? ==> target.Some?
    ensures Reassign(db, i, to).1 == Done && HandedOver(db, Reassign(db, i, to).0, i, target)
  {
    hide LastSeen;
    var from := db.rows[i].owner;
    var freed := if from.Some? then DropLocks(SetWorker(db, from.value, Idle, None), from.value) else db;
    var next := if target.Some? then Give(freed, i, target.value)
                else SetRow(freed, i, db.rows[i].(owner := None, status := Pending));
    assert Reassign(db, i, to) == (next, Done);
    hide Reassign;
    HandedWorkers(db, i, from, target, freed, next);
  }

  lemma {:induction false} HandedWorkers(db: Db, i: nat, from: Option<nat>, target: Option<nat>, freed: Db, next: Db)
    requires i < |db.rows| && from == db.rows[i].owner && (target.Some? ==> target.value < |db.workers|)
    requires freed == if from.Some? then DropLocks(SetWorker(db, from.value, Idle, None), from.value) else db
    requires next == if target.Some? then Give(freed, i, target.value)
                     else SetRow(freed, i, db.rows[i].(owner := None, status := Pending))
    ensures HandedOver(db, next, i, target)
  {
    var workers := Handed(db.workers, from, target, i);
    assert |next.workers| == |workers| && forall b | 0 <= b < |workers| :: next.workers[b] == workers[b];
    assert from.Some? ==> LocksFreed(db.locks, next.locks, from.value);
  }

  ghost predicate MovedTo(db: Db, i: nat, target: Option<nat>, next: Db, answer: Response)
    requires i < |db.rows|
  {
    if target.Some? && target.value >= |db.workers| then next == db && answer == Missing
    else answer == Done && HandedOver(db, next, i, target)
  }

  /**
   * A reassignment is refused for no task, an ended one, or a target that is not there; else the task is the
   * target's and assigned, or nobody's and pending, and the old owner is idle and has lost all its locks.
   */
  lemma {:induction false} ReassignsAsAsked(db: Db, i: nat, to: Target)
    ensures var (next, answer) := Reassign(db, i, to);
      if i >= |db.rows| then next == db && answer == Missing
      else if db.rows[i].status in {Completed, Failed} then next == db && answer == Refused
      else if to.ByName? && NobodyFits(db.workers, to.name, true) then next == db && answer == Missing
      else exists target: Option<nat> :: Targeted(db, to, target) && MovedTo(db, i, target, next, answer)
  {
    var target := match to
      case Nobody => None
      case ById(a) => Some(a)
      case ByName(name) => LastSeen(db.workers, (w: Worker) => w.name == name && !w.status.Dead?);
    if to.ByName? { SeenInRange(db.workers, (w: Worker) => w.name == to.name && !w.status.Dead?); }
    hide LastSeen, HandedOver;
    if i < |db.rows| && !Terminal(db.rows[i]) && !(to.ByName? && NobodyFits(db.workers, to.name, true)) {
      assert Targeted(db, to, target);
      if target.Some? && target.value >= |db.workers| {
        assert Reassign(db, i, to) == (db, Missing);
      } else {
        ReassignHands(db, i, to, target);
      }
    }
  }

  /** The number a string of digits stands for. */
  function Reading(s: string): int {
    if s == "" then 0 else 10 * Reading(s[..|s| - 1]) + (s[|s| - 1] as int - '0' as int)
  }

  /** Attempts are written in decimal. */
  lemma {:induction false} DigitsRead(n: nat)
    ensures Reading(Digits(n)) == n && (forall i | 0 <= i < |Digits(n)| :: '0' <= Digits(n)[i] <= '9')
    ensures |Digits(n)| > 0 && (n > 0 ==> Digits(n)[0] != '0')
  {
    if n >= 10 {
      DigitsRead(n / 10);
      assert Digits(n)[..|Digits(n)| - 1] == Digits(n / 10);
    }
  }

  /** The hint a retried task carries from then on. */
  function Hinted(description: Option<string>, attempt: nat, hint: string): string {
    (if description.Some? then description.value else "")
    + ("\n\n--- RETRY HINT (attempt " + Digits(attempt) + ") ---\n" + hint)
  }

  /** A task given back with one attempt more and a hint while there were fewer than three, and ended after that. */
  function Returned(p: Policy, r: Row, why: string, mode: Option<string>): Row {
    var kind := if mode.Some? then mode.value else p.classify(why);
    if r.attempts >= 3 then Row(r.owner, Failed, r.priority, r.blockedBy, r.workspace, r.createdAt, r.description,
                                r.attempts, Some(kind), Some(why), r.original, r.hints)
    else Row(None, Pending, r.priority, r.blockedBy, r.workspace, r.createdAt,
             Some(Hinted(r.description, r.attempts + 1, p.hint(kind))), r.attempts + 1, Some(kind), None, r.original,
             r.hints + [p.hint(kind)])
  }

  lemma {:induction false} RetryIsReturned(p: Policy, r: Row, why: string, mode: Option<string>)
    ensures RetryOrFail(p, r, why, mode) == Returned(p, r, why, mode)
  {
  }

  /** A failed task that has not ended goes back, or ends, with its reason classified unless the worker did so. */
  lemma {:induction false} FailsTheTask(p: Policy, db: Db, i: nat, result: Option<string>, mode: Option<string>,
                                        now: nat)
    ensures var (next, answer) := Fail(p, db, i, result, mode, now);
      if i >= |db.rows| then next == db && answer == Missing
      else if db.rows[i].status in {Completed, Failed} then next == db && answer == Refused
      else
        var why := if result.Some? then result.value else "worker-initiated failure";
        answer == Done
        && next == db.(rows := db.rows[i := Returned(p, db.rows[i], why, mode)], circuits := next.circuits)
        && (db.rows[i].owner == None ==> next.circuits == db.circuits)
  {
  }

  /** Killing a live worker fails every task it is at, frees its locks, and leaves it dead; nothing else changes. */
  lemma {:induction false} KillsTheWorker(db: Db, a: nat)
    ensures var (next, answer) := Kill(db, a);
      if a >= |db.workers| then next == db && answer == Missing
      else if db.workers[a].status == Dead then next == db && answer == Done
      else
        answer == Done && |next.rows| == |db.rows| && next.circuits == db.circuits
        && (forall k | 0 <= k < |db.rows| ::
              next.rows[k] == if Has(db.rows[k], a)
                              then db.rows[k].(status := Failed, result := Some("agent killed by coordinator"))
                              else db.rows[k])
        && next.workers == db.workers[a := db.workers[a].(status := Dead, task := None)]
        && LocksFreed(db.locks, next.locks, a)
  {
  }

  /** Exactly the locks of this worker are gone. */
  ghost predicate LocksFreed(before: map<string, nat>, after: map<string, nat>, a: nat) {
    && (forall path :: path in after <==> path in before && before[path] != a)
    && (forall path | path in after :: after[path] == before[path])
  }

  /**
   * A check-out leaves the worker dead and seen now, with its task still noted and no lock; a pulse only
   * marks it seen.
   */
  lemma {:induction false} SignsOff(db: Db, a: nat, now: nat)
    ensures var next := CheckOut(db, a, now).0;
      CheckOut(db, a, now).1 == Done && next.rows == db.rows && next.circuits == db.circuits
      && LocksFreed(db.locks, next.locks, a)
      && next.workers == if a < |db.workers|
                         then db.workers[a := db.workers[a].(status := Dead, lastSeen := now / 1000)]
                         else db.workers
    ensures Pulse(db, a, now).1 == Done
      && if a < |db.workers| then OnlyWorker(db, Pulse(db, a, now).0, a, db.workers[a].(lastSeen := now / 1000))
         else Pulse(db, a, now).0 == db
  {
  }

  /**
   * A path is locked for whoever asks first; its holder may ask again, others conflict, and only the holder
   * frees it.
   */
  lemma {:induction false} LocksAndFrees(db: Db, a: nat, path: string)
    ensures var (next, answer) := TakeLock(db, a, path);
      (answer == Done <==> path in next.locks && next.locks[path] == a)
      && (answer == Conflict <==> path in db.locks && db.locks[path] != a)
      && (answer == ForeignKey <==> path !in db.locks && a >= |db.workers|)
      && answer in {Done, Conflict, ForeignKey} && next == db.(locks := next.locks)
      && (next.locks == db.locks || (path !in db.locks && a < |db.workers| && next.locks == db.locks[path := a]))
    ensures var (next, answer) := FreeLock(db, a, path);
      (answer == Done <==> path in db.locks && db.locks[path] == a) && answer in {Done, Missing}
      && next == db.(locks := if answer == Done then db.locks - {path} else db.locks)
  {
  }

  // ---------------------------------------------------------------- the cleanup

  /** Alive, and last seen longer ago than the limit. */
  predicate Overdue(w: Worker, seconds: nat, now: nat) {
    w.status != Dead && now - w.lastSeen * 1000 > seconds * 1000
  }

  /** The worker with this id is overdue. */
  predicate OverdueId(db: Db, seconds: nat, now: nat, a: Option<nat>) {
    a.Some? && a.value < |db.workers| && Overdue(db.workers[a.value], seconds, now)
  }

  /** Under way for a worker that is overdue. */
  predicate Abandoned(db: Db, seconds: nat, now: nat, r: Row) {
    r.status in {Assigned, InProgress} && OverdueId(db, seconds, now, r.owner)
  }

  lemma {:induction false} StaleIsOverdue(db: Db, seconds: nat, now: nat)
    ensures forall a: nat :: a in StaleSet(db.workers, seconds, now) <==> OverdueId(db, seconds, now, Some(a))
    ensures forall r: Row :: OrphanOf(r, StaleSet(db.workers, seconds, now)) <==> Abandoned(db, seconds, now, r)
  {
  }

  /**
   * The cleanup gives back or ends exactly the tasks under way for overdue workers, leaves exactly those workers
   * dead and without locks, and changes no other row, worker or lock.
   */
  lemma {:induction false} CleansTheOverdue(p: Policy, db: Db, seconds: nat, now: nat)
    ensures var next := CleanupStale(p, db, seconds, now).0;
      |next.rows| == |db.rows| && |next.workers| == |db.workers|
      && (forall k | 0 <= k < |db.rows| ::
            next.rows[k] == if Abandoned(db, seconds, now, db.rows[k])
                            then Returned(p, db.rows[k], "agent disconnected (stale)", None) else db.rows[k])
      && (forall a | 0 <= a < |db.workers| ::
            next.workers[a] == if Overdue(db.workers[a], seconds, now)
                               then db.workers[a].(status := Dead, task := None) else db.workers[a])
      && (forall path :: path in next.locks <==>
            path in db.locks && !OverdueId(db, seconds, now, Some(db.locks[path])))
      && (forall path | path in next.locks :: next.locks[path] == db.locks[path])
  {
    CleanupIsExact(p, db, seconds, now);
    StaleIsOverdue(db, seconds, now);
    hide CleanupStale, OrphanOf, StaleSet, Abandoned, RetryOrFail, Returned;
    forall k | 0 <= k < |db.rows|
      ensures RetryOrFail(p, db.rows[k], STALE_RESULT, None) == Returned(p, db.rows[k], STALE_RESULT, None)
    {
      RetryIsReturned(p, db.rows[k], STALE_RESULT, None);
    }
  }
}
