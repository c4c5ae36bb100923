// The coordination tables and the handlers that write them (src/coordination/routes.ts,
// src/coordination/stale.ts): functions from the tables to the tables and a response.
module Coordination {
  import opened Prelude
  import C = Circuit

  // Each table is a field of `Db`. A row of coord_assignments or coord_agents is named by its
  // place in the order of creation, since ids are fresh and rows are not deleted. `original`
  // and `hints` of a row record history; no branch reads them.

  datatype Status = Pending | Assigned | InProgress | Blocked | Completed | Failed

  datatype Row = Row(
    owner: Option<nat>,
    status: Status,
    priority: nat,
    blockedBy: Option<nat>,
    workspace: Option<string>,
    createdAt: nat,
    description: Option<string>,
    attempts: nat,
    mode: Option<string>,
    result: Option<string>,
    original: Option<string>,
    hints: seq<string>)

  datatype Presence = Idle | Working | Dead
  datatype Worker = Worker(name: string, workspace: Option<string>, status: Presence, lastSeen: nat, task: Option<nat>)

  datatype Db = Db(rows: seq<Row>, workers: seq<Worker>, locks: map<string, nat>, circuits: map<nat, C.Circuit>)

  const EMPTY: Db := Db([], [], map[], map[])

  /** The failure taxonomy, its hints, and what counts as proof of work in a completion result. */
  datatype Policy = Policy(classify: string -> string, hint: string -> string, proves: string -> bool)

  /** Who a task is for; a name is looked up among the workers. */
  datatype Target = Nobody | ById(id: nat) | ByName(name: string)

  datatype Response =
    | Done
    | Created(id: nat)
    | Missing
    | Refused
    | Conflict
    | ForeignKey
    | CircuitOpen
    | Given(task: Option<nat>)
    | Cleaned(count: nat)

  const MAX_RETRY_ATTEMPTS: nat := 3

  predicate Active(r: Row) { r.status.Assigned? || r.status.InProgress? }

  predicate Terminal(r: Row) { r.status.Completed? || r.status.Failed? }

  predicate OwnedBy(r: Row, a: nat) { r.owner == Some(a) }

  // ---------------------------------------------------------------- single rows

  function SetRow(db: Db, i: nat, r: Row): Db
    requires i < |db.rows|
  {
    db.(rows := db.rows[i := r])
  }

  /** An UPDATE by id touches no row when there is none. */
  function SetWorker(db: Db, a: nat, status: Presence, task: Option<nat>): Db {
    if a < |db.workers| then db.(workers := db.workers[a := db.workers[a].(status := status, task := task)]) else db
  }

  function DropLocks(db: Db, a: nat): Db {
    db.(locks := map path | path in db.locks && db.locks[path] != a :: db.locks[path])
  }

  function CircuitOf(db: Db, a: nat): Option<C.Circuit> { if a in db.circuits then Some(db.circuits[a]) else None }

  function NoteFailure(db: Db, a: nat, now: nat): Db {
    db.(circuits := db.circuits[a := C.RecordFailure(CircuitOf(db, a), now)])
  }

  function NoteSuccess(db: Db, a: nat): Db { db.(circuits := db.circuits[a := C.RECORD_SUCCESS]) }

  function Digits(n: nat): string {
    if n < 10 then ['0' + n as char] else Digits(n / 10) + ['0' + (n % 10) as char]
  }

  function HintBlock(attempt: nat, hint: string): string {
    "\n\n--- RETRY HINT (attempt " + Digits(attempt) + ") ---\n" + hint
  }

  function Text(s: Option<string>): string { if s.Some? then s.value else "" }

  /** `retryOrFailAssignment`: back to pending with a hint while the budget lasts, then failed. */
  function RetryOrFail(p: Policy, r: Row, why: string, given: Option<string>): Row {
    var mode := if given.Some? then given.value else p.classify(why);
    if r.attempts < MAX_RETRY_ATTEMPTS then
      var n := r.attempts + 1;
      r.(status := Pending, owner := None, result := None, attempts := n, mode := Some(mode),
         description := Some(Text(r.description) + HintBlock(n, p.hint(mode))), hints := r.hints + [p.hint(mode)])
    else r.(status := Failed, result := Some(why), mode := Some(mode))
  }

  // ---------------------------------------------------------------- queries

  /** The first row, of those that `wanted` accepts, with the highest priority and then the earliest creation. */
  function Best(rows: seq<Row>, wanted: Row -> bool): Option<nat> {
    if rows == [] then None
    else
      var last := |rows| - 1;
      var best := Best(rows[..last], wanted);
      if !wanted(rows[last]) then best
      else if best.None? || best.value >= last || Before(rows[last], rows[best.value]) then Some(last)
      else best
  }

  predicate Before(r: Row, s: Row) {
    r.priority > s.priority || (r.priority == s.priority && r.createdAt < s.createdAt)
  }

  /** The newest row of a worker that is assigned or in progress. */
  function ActiveOf(rows: seq<Row>, a: nat): Option<nat> {
    if rows == [] then None
    else
      var last := |rows| - 1;
      var best := ActiveOf(rows[..last], a);
      if !(Active(rows[last]) && OwnedBy(rows[last], a)) then best
      else if best.None? || best.value >= last || rows[last].createdAt > rows[best.value].createdAt then Some(last)
      else best
  }

  /** The worker, of those `wanted` accepts, that was seen last. */
  function LastSeen(workers: seq<Worker>, wanted: Worker -> bool): Option<nat> {
    if workers == [] then None
    else
      var last := |workers| - 1;
      var best := LastSeen(workers[..last], wanted);
      if !wanted(workers[last]) then best
      else if best.None? || best.value >= last || workers[last].lastSeen > workers[best.value].lastSeen then Some(last)
      else best
  }

  /** A worker under another id with the same name, alive, that holds an active task. */
  function Namesake(db: Db, a: nat, upto: nat): Option<nat>
    requires a < |db.workers| && upto <= |db.workers|
  {
    if upto == 0 then None
    else
      var found := Namesake(db, a, upto - 1);
      if found.Some? then found
      else if IsNamesake(db, a, upto - 1) then Some(upto - 1)
      else None
  }

  predicate IsNamesake(db: Db, a: nat, b: nat)
    requires a < |db.workers| && b < |db.workers|
  {
    b != a && db.workers[b].name == db.workers[a].name && !db.workers[b].status.Dead? && ActiveOf(db.rows, b).Some?
  }

  /** No blocker, or a completed one. */
  predicate Unblocked(rows: seq<Row>, r: Row) {
    r.blockedBy.None? || (r.blockedBy.value < |rows| && rows[r.blockedBy.value].status.Completed?)
  }

  /** A worker without a workspace sees every task; one with a workspace its own and the global ones. */
  predicate Visible(scope: Option<string>, r: Row) { scope.None? || r.workspace == scope || r.workspace.None? }

  predicate ReservedFor(rows: seq<Row>, a: nat, r: Row) {
    r.status.Pending? && r.owner == Some(a) && Unblocked(rows, r)
  }

  predicate OpenTo(rows: seq<Row>, scope: Option<string>, r: Row) {
    r.status.Pending? && r.owner.None? && Visible(scope, r) && Unblocked(rows, r)
  }

  function NextTask(db: Db, a: nat, scope: Option<string>): Option<nat> {
    var reserved := Best(db.rows, r => ReservedFor(db.rows, a, r));
    if reserved.Some? then reserved else Best(db.rows, r => OpenTo(db.rows, scope, r))
  }

  // ---------------------------------------------------------------- dispatch

  /** A task becomes a worker's. */
  function Give(db: Db, i: nat, a: nat): Db
    requires i < |db.rows|
  {
    SetWorker(SetRow(db, i, db.rows[i].(owner := Some(a), status := Assigned)), a, Working, Some(i))
  }

  /** The task the worker already has, here or under another id of the same name, or the next open one. */
  function Dispatch(db: Db, a: nat, scope: Option<string>, now: nat): (Db, Response) {
    var active := ActiveOf(db.rows, a);
    if active.Some? then (db, Given(active))
    else if a < |db.workers| && Namesake(db, a, |db.workers|).Some? then Migrate(db, a)
    else
      var i := NextTask(db, a, scope);
      if i.None? || i.value >= |db.rows| then (db, Given(None))
      else if !C.Available(CircuitOf(db, a), now) then (db, CircuitOpen)
      else if a >= |db.workers| then (Probed(db, a, now), ForeignKey)
      else (Give(Probed(db, a, now), i.value, a), Given(i))
  }

  /** Looking at a circuit may store it half open. */
  function Probed(db: Db, a: nat, now: nat): (r: Db)
    ensures r.rows == db.rows && r.workers == db.workers && r.locks == db.locks
  {
    var seen := C.Look(CircuitOf(db, a), now);
    if seen.Some? then db.(circuits := db.circuits[a := seen.value]) else db
  }

  function Migrate(db: Db, a: nat): (Db, Response)
    requires a < |db.workers| && Namesake(db, a, |db.workers|).Some?
  {
    var task := ActiveOf(db.rows, Namesake(db, a, |db.workers|).value);
    if task.None? || task.value >= |db.rows| then (db, Given(None))
    else (SetWorker(SetRow(db, task.value, db.rows[task.value].(owner := Some(a))), a, Working, task), Given(task))
  }

  function FindWorker(workers: seq<Worker>, name: string, scope: Option<string>, alive: bool): Option<nat> {
    var exact :=
      LastSeen(workers, (w: Worker) => w.name == name && w.workspace == scope && (alive ==> !w.status.Dead?));
    if exact.Some? then exact else LastSeen(workers, (w: Worker) => w.name == name && (alive ==> !w.status.Dead?))
  }

  /** The upsert of /checkin and /next: a dead worker comes back idle, an unknown one is registered. */
  function CheckIn(db: Db, name: string, scope: Option<string>, now: nat): (Db, nat) {
    var found := FindWorker(db.workers, name, scope, false);
    if found.Some? && found.value < |db.workers| then
      var w := db.workers[found.value];
      var w' := w.(lastSeen := now / 1000, status := if w.status.Dead? then Idle else w.status,
                   workspace := if scope.Some? then scope else w.workspace);
      (db.(workers := db.workers[found.value := w']), found.value)
    else (db.(workers := db.workers + [Worker(name, scope, Idle, now / 1000, None)]), |db.workers|)
  }

  /** POST /next: check in, then dispatch under the workspace of the request. */
  function Next(db: Db, name: string, scope: Option<string>, now: nat): (Db, Response) {
    var (db1, a) := CheckIn(db, name, scope, now);
    var (db2, r) := Dispatch(db1, a, scope, now);
    if r.Given? && r.task.Some? && a < |db2.workers| && !db2.workers[a].status.Working?
    then (SetWorker(db2, a, Working, r.task), r)
    else (db2, r)
  }

  /** GET /assignment: dispatch under the worker's own workspace. */
  function Poll(db: Db, a: nat, now: nat): (Db, Response) {
    Dispatch(db, a, if a < |db.workers| then db.workers[a].workspace else None, now)
  }

  // ---------------------------------------------------------------- the other routes

  function Resolve(db: Db, to: Target, scope: Option<string>): Option<nat> {
    match to
    case Nobody => None
    case ById(a) => Some(a)
    case ByName(name) => FindWorker(db.workers, name, scope, true)
  }

  function NewRow(owner: Option<nat>, scope: Option<string>, priority: nat, blockedBy: Option<nat>,
                  description: Option<string>, now: nat): Row
  {
    Row(owner, if owner.Some? then Assigned else Pending, priority, blockedBy, scope, now / 1000,
        description, 0, None, None, description, [])
  }

  /** POST /assign: one transaction, so a foreign key that fails leaves nothing behind. */
  function Assign(db: Db, to: Target, scope: Option<string>, priority: nat, blockedBy: Option<nat>,
                  description: Option<string>, now: nat): (Db, Response)
  {
    var owner := Resolve(db, to, scope);
    if to.ByName? && owner.None? then (db, Missing)
    else if owner.Some? && ActiveOf(db.rows, owner.value).Some? then (db, Conflict)
    else if (owner.Some? && owner.value >= |db.workers|) || (blockedBy.Some? && blockedBy.value >= |db.rows|)
    then (db, ForeignKey)
    else
      var db' := db.(rows := db.rows + [NewRow(owner, scope, priority, blockedBy, description, now)]);
      (if owner.Some? then SetWorker(db', owner.value, Working, Some(|db.rows|)) else db', Created(|db.rows|))
  }

  /** POST /assignment/:id/claim. */
  function Claim(db: Db, i: nat, a: nat): (Db, Response) {
    if i >= |db.rows| || !db.rows[i].status.Pending? then (db, Conflict)
    else if a >= |db.workers| then (db, ForeignKey)
    else (Give(db, i, a), Done)
  }

  /** VALID_TRANSITIONS; a pending task has no entry and is not ended, so any update passes. */
  predicate Allowed(from: Status, to: Status) {
    match from
    case Pending => true
    case Assigned => to.InProgress? || to.Failed?
    case InProgress => to.Completed? || to.Failed? || to.Blocked?
    case Blocked => to.InProgress? || to.Failed?
    case _ => false
  }

  function Unblock(rows: seq<Row>, done: nat): (r: seq<Row>)
    ensures |r| == |rows|
  {
    seq(|rows|, k requires 0 <= k < |rows| =>
      if rows[k].blockedBy == Some(done) && rows[k].status.Blocked? then rows[k].(blockedBy := None, status := Assigned)
      else rows[k])
  }

  /** handleAssignmentUpdate, for the four statuses the request schema lets through. */
  function Update(p: Policy, db: Db, i: nat, to: Status, result: Option<string>, now: nat): (Db, Response) {
    if i >= |db.rows| then (db, Missing)
    else if to.Pending? || to.Assigned? || !Allowed(db.rows[i].status, to) then (db, Refused)
    else if to.Completed? && !(result.Some? && p.proves(result.value)) then (db, Refused)
    else
      var owner := db.rows[i].owner;
      var db1 := SetRow(db, i, db.rows[i].(status := to, result := result));
      var db2 := if owner.Some? && (to.Completed? || to.Failed?) then SetWorker(db1, owner.value, Idle, None) else db1;
      var db3 :=
        if owner.Some? && to.Completed? then NoteSuccess(db2, owner.value)
        else if owner.Some? && to.Failed? then NoteFailure(db2, owner.value, now)
        else db2;
      (if to.Completed? then db3.(rows := Unblock(db3.rows, i)) else db3, Done)
  }

  /** POST /reassign: to a worker, or back to pending. */
  function Reassign(db: Db, i: nat, to: Target): (Db, Response) {
    if i >= |db.rows| then (db, Missing)
    else if Terminal(db.rows[i]) then (db, Refused)
    else
      var target :=
        match to
        case Nobody => None
        case ById(a) => Some(a)
        case ByName(name) => LastSeen(db.workers, (w: Worker) => w.name == name && !w.status.Dead?);
      if (to.ByName? && target.None?) || (target.Some? && target.value >= |db.workers|) then (db, Missing)
      else
        var owner := db.rows[i].owner;
        var db1 := if owner.Some? then DropLocks(SetWorker(db, owner.value, Idle, None), owner.value) else db;
        if target.Some? then (Give(db1, i, target.value), Done)
        else (SetRow(db1, i, db1.rows[i].(owner := None, status := Pending)), Done)
  }

  /** POST /assignment/:id/fail. */
  function Fail(p: Policy, db: Db, i: nat, result: Option<string>, mode: Option<string>, now: nat): (Db, Response) {
    if i >= |db.rows| then (db, Missing)
    else if Terminal(db.rows[i]) then (db, Refused)
    else
      var why := if result.Some? then result.value else "worker-initiated failure";
      var db' := SetRow(db, i, RetryOrFail(p, db.rows[i], why, mode));
      (if db.rows[i].owner.Some? then NoteFailure(db', db.rows[i].owner.value, now) else db', Done)
  }

  /** DELETE /agent/:id: its active tasks fail for good. */
  function Kill(db: Db, a: nat): (Db, Response) {
    if a >= |db.workers| then (db, Missing)
    else if db.workers[a].status.Dead? then (db, Done)
    else
      var rows := seq(|db.rows|, k requires 0 <= k < |db.rows| =>
        if Active(db.rows[k]) && OwnedBy(db.rows[k], a)
        then db.rows[k].(status := Failed, result := Some("agent killed by coordinator")) else db.rows[k]);
      (SetWorker(DropLocks(db.(rows := rows), a), a, Dead, None), Done)
  }

  function CheckOut(db: Db, a: nat, now: nat): (Db, Response) {
    var db' := DropLocks(db, a);
    if a >= |db.workers| then (db', Done)
    else (db'.(workers := db.workers[a := db.workers[a].(status := Dead, lastSeen := now / 1000)]), Done)
  }

  function Pulse(db: Db, a: nat, now: nat): (Db, Response) {
    if a >= |db.workers| then (db, Done)
    else (db.(workers := db.workers[a := db.workers[a].(lastSeen := now / 1000)]), Done)
  }

  function TakeLock(db: Db, a: nat, path: string): (Db, Response) {
    if path in db.locks then (db, if db.locks[path] == a then Done else Conflict)
    else if a >= |db.workers| then (db, ForeignKey)
    else (db.(locks := db.locks[path := a]), Done)
  }

  function FreeLock(db: Db, a: nat, path: string): (Db, Response) {
    if path in db.locks && db.locks[path] == a then (db.(locks := db.locks - {path}), Done) else (db, Missing)
  }

  // ---------------------------------------------------------------- stale cleanup

  predicate Stale(w: Worker, seconds: nat, now: nat) { !w.status.Dead? && now > (w.lastSeen + seconds) * 1000 }

  const STALE_RESULT: string := "agent disconnected (stale)"

  /** One worker's assigned and in-progress tasks, each retried or failed. */
  function Orphaned(p: Policy, rows: seq<Row>, a: nat): (r: seq<Row>)
    ensures |r| == |rows|
  {
    seq(|rows|, k requires 0 <= k < |rows| =>
      if Active(rows[k]) && OwnedBy(rows[k], a) then RetryOrFail(p, rows[k], STALE_RESULT, None) else rows[k])
  }

  function OrphanCount(rows: seq<Row>, a: nat): nat {
    if rows == [] then 0
    else OrphanCount(rows[..|rows| - 1], a) + if Active(rows[|rows| - 1]) && OwnedBy(rows[|rows| - 1], a) then 1 else 0
  }

  function LocksOf(db: Db, a: nat): set<string> { set path | path in db.locks && db.locks[path] == a }

  /** The body of the cleanup loop for one stale worker. */
  function CleanWorker(p: Policy, db: Db, a: nat, now: nat): Db
    requires a < |db.workers|
  {
    var db1 := db.(rows := Orphaned(p, db.rows, a));
    var db2 := if OrphanCount(db.rows, a) > 0 then NoteFailure(db1, a, now) else db1;
    SetWorker(DropLocks(db2, a), a, Dead, None)
  }

  /** The stale workers, found once before anything is cleaned. */
  function StaleWorkers(workers: seq<Worker>, seconds: nat, now: nat): (r: seq<nat>)
    ensures forall i | 0 <= i < |r| :: r[i] < |workers|
  {
    if workers == [] then []
    else
      var front := StaleWorkers(workers[..|workers| - 1], seconds, now);
      if Stale(workers[|workers| - 1], seconds, now) then front + [|workers| - 1] else front
  }

  /** The loop over the first `n` stale workers, with the running count of what was cleaned. */
  function CleanFirst(p: Policy, db: Db, stale: seq<nat>, n: nat, now: nat): (r: (Db, nat))
    requires n <= |stale| && forall i | 0 <= i < |stale| :: stale[i] < |db.workers|
    ensures |r.0.workers| == |db.workers| && |r.0.rows| == |db.rows|
  {
    if n == 0 then (db, 0)
    else
      var (before, count) := CleanFirst(p, db, stale, n - 1, now);
      var a := stale[n - 1];
      (CleanWorker(p, before, a, now), count + OrphanCount(before.rows, a) + |LocksOf(before, a)|)
  }

  function CleanupStale(p: Policy, db: Db, seconds: nat, now: nat): (Db, Response) {
    var stale := StaleWorkers(db.workers, seconds, now);
    var (db', count) := CleanFirst(p, db, stale, |stale|, now);
    (db', Cleaned(count))
  }

  // ---------------------------------------------------------------- runs

  datatype Request =
    | NextR(name: string, scope: Option<string>)
    | PollR(a: nat)
    | CheckInR(name: string, scope: Option<string>)
    | CheckOutR(a: nat)
    | PulseR(a: nat)
    | AssignR(to: Target, scope: Option<string>, priority: nat, blockedBy: Option<nat>, description: Option<string>)
    | ClaimR(i: nat, a: nat)
    | UpdateR(i: nat, status: Status, result: Option<string>)
    | ReassignR(i: nat, to: Target)
    | FailR(i: nat, result: Option<string>, mode: Option<string>)
    | KillR(a: nat)
    | LockR(a: nat, path: string)
    | UnlockR(a: nat, path: string)
    | CleanupR(seconds: nat)

  function Serve(p: Policy, db: Db, q: Request, now: nat): (Db, Response) {
    match q
    case NextR(name, scope) => Next(db, name, scope, now)
    case PollR(a) => Poll(db, a, now)
    case CheckInR(name, scope) => (CheckIn(db, name, scope, now).0, Done)
    case CheckOutR(a) => CheckOut(db, a, now)
    case PulseR(a) => Pulse(db, a, now)
    case AssignR(to, scope, priority, blockedBy, description) =>
      Assign(db, to, scope, priority, blockedBy, description, now)
    case ClaimR(i, a) => Claim(db, i, a)
    case UpdateR(i, status, result) => Update(p, db, i, status, result, now)
    case ReassignR(i, to) => Reassign(db, i, to)
    case FailR(i, result, mode) => Fail(p, db, i, result, mode, now)
    case KillR(a) => Kill(db, a)
    case LockR(a, path) => TakeLock(db, a, path)
    case UnlockR(a, path) => FreeLock(db, a, path)
    case CleanupR(seconds) => CleanupStale(p, db, seconds, now)
  }

  /** A run of timed requests. */
  function Run(p: Policy, db: Db, qs: seq<(Request, nat)>): Db
    decreases |qs|
  {
    if qs == [] then db else Run(p, Serve(p, db, qs[0].0, qs[0].1).0, qs[1..])
  }
}
