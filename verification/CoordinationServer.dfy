/**
 * The coordination routes as their source has them: an object whose tables the handlers
 * update in place, statement by statement. Each handler is proved equal to its function in
 * module Coordination, so what runs of those keep, runs of these keep.
 */
module CoordinationServer {
  import opened Prelude
  import opened Coordination
  import C = Circuit

  class Coordinator {
    const policy: Policy
    var rows: seq<Row>
    var workers: seq<Worker>
    var locks: map<string, nat>
    var circuits: map<nat, C.Circuit>

    ghost function View(): Db
      reads this
    {
      Db(rows, workers, locks, circuits)
    }

    constructor (policy: Policy)
      ensures View() == EMPTY && this.policy == policy
    {
      this.policy := policy;
      rows, workers, locks, circuits := [], [], map[], map[];
    }

    // -------------------------------------------------------------- queries

    method SelectBest(wanted: Row -> bool) returns (best: Option<nat>)
      ensures best == Best(rows, wanted)
    {
      best := None;
      var i := 0;
      while i < |rows|
        invariant i <= |rows| && best == Best(rows[..i], wanted) && (best.Some? ==> best.value < i)
      {
        assert rows[..i + 1][..i] == rows[..i];
        if wanted(rows[i]) && (best.None? || Before(rows[i], rows[best.value])) {
          best := Some(i);
        }
        i := i + 1;
      }
      assert rows[..i] == rows;
    }

    method SelectActive(a: nat) returns (best: Option<nat>)
      ensures best == ActiveOf(rows, a) && (best.Some? ==> best.value < |rows|)
    {
      best := None;
      var i := 0;
      while i < |rows|
        invariant i <= |rows| && best == ActiveOf(rows[..i], a) && (best.Some? ==> best.value < i)
      {
        assert rows[..i + 1][..i] == rows[..i];
        if Active(rows[i]) && OwnedBy(rows[i], a) && (best.None? || rows[i].createdAt > rows[best.value].createdAt) {
          best := Some(i);
        }
        i := i + 1;
      }
      assert rows[..i] == rows;
    }

    method SelectLastSeen(wanted: Worker -> bool) returns (best: Option<nat>)
      ensures best == LastSeen(workers, wanted) && (best.Some? ==> best.value < |workers|)
    {
      best := None;
      var i := 0;
      while i < |workers|
        invariant i <= |workers| && best == LastSeen(workers[..i], wanted) && (best.Some? ==> best.value < i)
      {
        assert workers[..i + 1][..i] == workers[..i];
        if wanted(workers[i]) && (best.None? || workers[i].lastSeen > workers[best.value].lastSeen) {
          best := Some(i);
        }
        i := i + 1;
      }
      assert workers[..i] == workers;
    }

    method SelectNamesake(a: nat) returns (task: Option<nat>)
      requires a < |workers|
      ensures var b := Namesake(View(), a, |workers|);
        task == (if b.None? then None else ActiveOf(rows, b.value)) && (task.Some? <==> b.Some?)
      ensures task.Some? ==> task.value < |rows|
    {
      var b := 0;
      while b < |workers|
        invariant b <= |workers| && Namesake(View(), a, b).None?
      {
        if b != a && workers[b].name == workers[a].name && !workers[b].status.Dead? {
          task := SelectActive(b);
          if task.Some? {
            FirstNamesake(View(), a, b, |workers|);
            return task;
          }
        }
        b := b + 1;
      }
      return None;
    }

    // -------------------------------------------------------------- single statements

    method UpdateWorker(a: nat, status: Presence, task: Option<nat>)
      modifies this`workers
      ensures View() == SetWorker(old(View()), a, status, task)
    {
      if a < |workers| {
        workers := workers[a := workers[a].(status := status, task := task)];
      }
    }

    method DeleteLocks(a: nat)
      modifies this`locks
      ensures View() == DropLocks(old(View()), a)
    {
      locks := map path | path in locks && locks[path] != a :: locks[path];
    }

    method CircuitFailure(a: nat, now: nat)
      modifies this`circuits
      ensures View() == NoteFailure(old(View()), a, now)
    {
      circuits := circuits[a := C.RecordFailure(if a in circuits then Some(circuits[a]) else None, now)];
    }

    method Retry(i: nat, why: string, given: Option<string>)
      requires i < |rows|
      modifies this`rows
      ensures View() == SetRow(old(View()), i, RetryOrFail(policy, old(rows)[i], why, given))
    {
      var mode := if given.Some? then given.value else policy.classify(why);
      var r := rows[i];
      if r.attempts < MAX_RETRY_ATTEMPTS {
        var hint := policy.hint(mode);
        var next := r.attempts + 1;
        var description := (if r.description.Some? then r.description.value else "") + HintBlock(next, hint);
        rows := rows[i := r.(status := Pending, owner := None, result := None, attempts := next, mode := Some(mode),
                             description := Some(description), hints := r.hints + [hint])];
      } else {
        rows := rows[i := r.(status := Failed, result := Some(why), mode := Some(mode))];
      }
    }

    // -------------------------------------------------------------- dispatch

    method GiveTask(i: nat, a: nat)
      requires i < |rows|
      modifies this`rows, this`workers
      ensures View() == Give(old(View()), i, a)
    {
      rows := rows[i := rows[i].(owner := Some(a), status := Assigned)];
      UpdateWorker(a, Working, Some(i));
    }

    method ProbeCircuit(a: nat, now: nat) returns (available: bool)
      modifies this`circuits
      ensures available == C.Available(CircuitOf(old(View()), a), now)
      ensures View() == if available then Probed(old(View()), a, now) else old(View())
    {
      var seen := C.Look(if a in circuits then Some(circuits[a]) else None, now);
      available := seen.None? || !seen.value.state.Open?;
      if seen.Some? {
        circuits := circuits[a := seen.value];
      }
    }

    method FindTask(a: nat, scope: Option<string>) returns (i: Option<nat>)
      ensures i == NextTask(View(), a, scope)
    {
      var all := rows;
      i := SelectBest(r => ReservedFor(all, a, r));
      assert i == Best(all, r => ReservedFor(all, a, r));
      if i.None? {
        i := SelectBest(r => OpenTo(all, scope, r));
      }
    }

    method OnPollFor(a: nat, scope: Option<string>, now: nat) returns (response: Response)
      modifies this
      ensures (View(), response) == Dispatch(old(View()), a, scope, now)
    {
      var active := SelectActive(a);
      if active.Some? {
        return Given(active);
      }
      if a < |workers| {
        var task := SelectNamesake(a);
        if task.Some? {
          rows := rows[task.value := rows[task.value].(owner := Some(a))];
          UpdateWorker(a, Working, task);
          return Given(task);
        }
      }
      var i := FindTask(a, scope);
      if i.None? || i.value >= |rows| {
        return Given(None);
      }
      var available := ProbeCircuit(a, now);
      if !available {
        return CircuitOpen;
      }
      if a >= |workers| {
        return ForeignKey;
      }
      GiveTask(i.value, a);
      return Given(i);
    }

    method FindByName(name: string, scope: Option<string>, alive: bool) returns (found: Option<nat>)
      ensures found == FindWorker(workers, name, scope, alive) && (found.Some? ==> found.value < |workers|)
    {
      found := SelectLastSeen((w: Worker) => w.name == name && w.workspace == scope && (alive ==> !w.status.Dead?));
      if found.None? {
        found := SelectLastSeen((w: Worker) => w.name == name && (alive ==> !w.status.Dead?));
      }
    }

    method OnCheckIn(name: string, scope: Option<string>, now: nat) returns (a: nat)
      modifies this`workers
      ensures (View(), a) == CheckIn(old(View()), name, scope, now) && a < |workers|
    {
      var found := FindByName(name, scope, false);
      if found.None? {
        a := |workers|;
        workers := workers + [Worker(name, scope, Idle, now / 1000, None)];
        return;
      }
      a := found.value;
      var w := workers[a].(lastSeen := now / 1000);
      if w.status.Dead? {
        w := w.(status := Idle);
      }
      if scope.Some? {
        w := w.(workspace := scope);
      }
      workers := workers[a := w];
    }

    method OnNext(name: string, scope: Option<string>, now: nat) returns (response: Response)
      modifies this
      ensures (View(), response) == Next(old(View()), name, scope, now)
    {
      hide Dispatch, CheckIn;
      var a := OnCheckIn(name, scope, now);
      response := OnPollFor(a, scope, now);
      if response.Given? && response.task.Some? && a < |workers| && !workers[a].status.Working? {
        UpdateWorker(a, Working, response.task);
      }
    }

    method OnPoll(a: nat, now: nat) returns (response: Response)
      modifies this
      ensures (View(), response) == Poll(old(View()), a, now)
    {
      hide Dispatch;
      var scope := None;
      if a < |workers| {
        scope := workers[a].workspace;
      }
      response := OnPollFor(a, scope, now);
    }

    // -------------------------------------------------------------- assignments

    method OnAssign(to: Target, scope: Option<string>, priority: nat, blockedBy: Option<nat>,
                    description: Option<string>, now: nat) returns (response: Response)
      modifies this
      ensures (View(), response) == Assign(old(View()), to, scope, priority, blockedBy, description, now)
    {
      var owner: Option<nat> := None;
      match to {
        case Nobody =>
        case ById(a) => owner := Some(a);
        case ByName(name) =>
          owner := FindByName(name, scope, true);
          if owner.None? {
            return Missing;
          }
      }
      if owner.Some? {
        var active := SelectActive(owner.value);
        if active.Some? {
          return Conflict;
        }
      }
      if (owner.Some? && owner.value >= |workers|) || (blockedBy.Some? && blockedBy.value >= |rows|) {
        return ForeignKey;
      }
      var id := |rows|;
      var status := if owner.Some? then Assigned else Pending;
      rows := rows +
        [Row(owner, status, priority, blockedBy, scope, now / 1000, description, 0, None, None, description, [])];
      if owner.Some? {
        UpdateWorker(owner.value, Working, Some(id));
      }
      return Created(id);
    }

    method OnClaim(i: nat, a: nat) returns (response: Response)
      modifies this
      ensures (View(), response) == Claim(old(View()), i, a)
    {
      if i >= |rows| || !rows[i].status.Pending? {
        return Conflict;
      }
      if a >= |workers| {
        return ForeignKey;
      }
      GiveTask(i, a);
      return Done;
    }

    /** The auto-unblock loop. */
    method UnblockAll(done: nat)
      modifies this`rows
      ensures rows == Unblock(old(rows), done)
    {
      var k := 0;
      while k < |rows|
        invariant k <= |rows| == |old(rows)|
        invariant forall j | 0 <= j < |rows| :: rows[j] == (if j < k then Unblock(old(rows), done)[j] else old(rows)[j])
      {
        if rows[k].blockedBy == Some(done) && rows[k].status.Blocked? {
          rows := rows[k := rows[k].(blockedBy := None, status := Assigned)];
        }
        k := k + 1;
      }
    }

    method OnUpdate(i: nat, to: Status, result: Option<string>, now: nat) returns (response: Response)
      modifies this
      ensures (View(), response) == Update(policy, old(View()), i, to, result, now)
    {
      if i >= |rows| {
        return Missing;
      }
      if to.Pending? || to.Assigned? || !Allowed(rows[i].status, to) {
        return Refused;
      }
      if to.Completed? && !(result.Some? && policy.proves(result.value)) {
        return Refused;
      }
      var owner := rows[i].owner;
      rows := rows[i := rows[i].(status := to, result := result)];
      if owner.Some? && (to.Completed? || to.Failed?) {
        UpdateWorker(owner.value, Idle, None);
        if to.Completed? {
          circuits := circuits[owner.value := C.Circuit(C.Closed, 0, None)];
        } else {
          CircuitFailure(owner.value, now);
        }
      }
      if to.Completed? {
        UnblockAll(i);
      }
      return Done;
    }

    method OnReassign(i: nat, to: Target) returns (response: Response)
      modifies this
      ensures (View(), response) == Reassign(old(View()), i, to)
    {
      if i >= |rows| {
        return Missing;
      }
      if rows[i].status.Completed? || rows[i].status.Failed? {
        return Refused;
      }
      var target: Option<nat> := None;
      match to {
        case Nobody =>
        case ById(a) => target := Some(a);
        case ByName(name) =>
          target := SelectLastSeen((w: Worker) => w.name == name && !w.status.Dead?);
          if target.None? {
            return Missing;
          }
      }
      if target.Some? && target.value >= |workers| {
        return Missing;
      }
      var owner := rows[i].owner;
      if owner.Some? {
        UpdateWorker(owner.value, Idle, None);
        DeleteLocks(owner.value);
      }
      if target.Some? {
        GiveTask(i, target.value);
      } else {
        rows := rows[i := rows[i].(owner := None, status := Pending)];
      }
      return Done;
    }

    method OnFail(i: nat, result: Option<string>, mode: Option<string>, now: nat) returns (response: Response)
      modifies this
      ensures (View(), response) == Fail(policy, old(View()), i, result, mode, now)
    {
      if i >= |rows| {
        return Missing;
      }
      if rows[i].status.Completed? || rows[i].status.Failed? {
        return Refused;
      }
      var owner := rows[i].owner;
      Retry(i, if result.Some? then result.value else "worker-initiated failure", mode);
      if owner.Some? {
        CircuitFailure(owner.value, now);
      }
      return Done;
    }

    // -------------------------------------------------------------- workers and locks

    method OnKill(a: nat) returns (response: Response)
      modifies this
      ensures (View(), response) == Kill(old(View()), a)
    {
      if a >= |workers| {
        return Missing;
      }
      if workers[a].status.Dead? {
        return Done;
      }
      ghost var goal := Kill(View(), a).0.rows;
      var k := 0;
      while k < |rows|
        invariant k <= |rows| == |old(rows)| == |goal|
        invariant forall j | 0 <= j < |rows| :: rows[j] == (if j < k then goal[j] else old(rows)[j])
        invariant workers == old(workers) && locks == old(locks) && circuits == old(circuits)
      {
        if Active(rows[k]) && OwnedBy(rows[k], a) {
          rows := rows[k := rows[k].(status := Failed, result := Some("agent killed by coordinator"))];
        }
        k := k + 1;
      }
      assert rows == goal;
      DeleteLocks(a);
      UpdateWorker(a, Dead, None);
      return Done;
    }

    method OnCheckOut(a: nat, now: nat)
      modifies this`locks, this`workers
      ensures (View(), Done) == CheckOut(old(View()), a, now)
    {
      DeleteLocks(a);
      if a < |workers| {
        workers := workers[a := workers[a].(status := Dead, lastSeen := now / 1000)];
      }
    }

    method OnPulse(a: nat, now: nat)
      modifies this`workers
      ensures (View(), Done) == Pulse(old(View()), a, now)
    {
      if a < |workers| {
        workers := workers[a := workers[a].(lastSeen := now / 1000)];
      }
    }

    method OnLock(a: nat, path: string) returns (response: Response)
      modifies this`locks
      ensures (View(), response) == TakeLock(old(View()), a, path)
    {
      if path !in locks {
        if a >= |workers| {
          return ForeignKey;
        }
        locks := locks[path := a];
        return Done;
      }
      return if locks[path] == a then Done else Conflict;
    }

    method OnUnlock(a: nat, path: string) returns (response: Response)
      modifies this`locks
      ensures (View(), response) == FreeLock(old(View()), a, path)
    {
      if path !in locks || locks[path] != a {
        return Missing;
      }
      locks := locks - {path};
      return Done;
    }

    // -------------------------------------------------------------- stale cleanup

    method DetectStale(seconds: nat, now: nat) returns (stale: seq<nat>)
      ensures stale == StaleWorkers(workers, seconds, now)
    {
      stale := [];
      var i := 0;
      while i < |workers|
        invariant i <= |workers| && stale == StaleWorkers(workers[..i], seconds, now)
      {
        assert workers[..i + 1][..i] == workers[..i];
        if Stale(workers[i], seconds, now) {
          stale := stale + [i];
        }
        i := i + 1;
      }
      assert workers[..i] == workers;
    }

    /** The inner loop: each task the worker left, retried or failed, and how many they were. */
    method RetryOrphans(a: nat) returns (orphans: nat)
      modifies this`rows
      ensures rows == Orphaned(policy, old(rows), a) && orphans == OrphanCount(old(rows), a)
    {
      orphans := 0;
      ghost var was := rows;
      var k := 0;
      while k < |rows|
        invariant k <= |rows| == |was| && orphans == OrphanCount(was[..k], a)
        invariant forall j | 0 <= j < |rows| :: rows[j] == (if j < k then Orphaned(policy, was, a)[j] else was[j])
      {
        assert was[..k + 1][..k] == was[..k];
        if Active(rows[k]) && OwnedBy(rows[k], a) {
          Retry(k, STALE_RESULT, None);
          orphans := orphans + 1;
        }
        k := k + 1;
      }
      assert was[..k] == was;
    }

    /** One turn of the cleanup loop. */
    method CleanOne(a: nat, now: nat) returns (cleaned: nat)
      requires a < |workers|
      modifies this
      ensures View() == CleanWorker(policy, old(View()), a, now)
      ensures cleaned == OrphanCount(old(rows), a) + |LocksOf(old(View()), a)| && |workers| == |old(workers)|
    {
      var orphans := RetryOrphans(a);
      if orphans > 0 {
        CircuitFailure(a, now);
      }
      var held := set path | path in locks && locks[path] == a;
      assert held == LocksOf(old(View()), a);
      DeleteLocks(a);
      UpdateWorker(a, Dead, None);
      return orphans + |held|;
    }

    method OnCleanupStale(seconds: nat, now: nat) returns (response: Response)
      modifies this
      ensures (View(), response) == CleanupStale(policy, old(View()), seconds, now)
    {
      hide CleanWorker, LocksOf, OrphanCount, StaleWorkers;
      var stale := DetectStale(seconds, now);
      var cleaned := 0;
      var n := 0;
      while n < |stale|
        invariant n <= |stale| && forall i | 0 <= i < |stale| :: stale[i] < |old(workers)|
        invariant |workers| == |old(workers)|
        invariant (View(), cleaned) == CleanFirst(policy, old(View()), stale, n, now)
      {
        var count := CleanOne(stale[n], now);
        cleaned := cleaned + count;
        n := n + 1;
      }
      return Cleaned(cleaned);
    }

    // -------------------------------------------------------------- any request

    /** Whatever the request, the tables and the response are those of `Serve`: runs of it are runs of this object. */
    method Handle(q: Request, now: nat) returns (response: Response)
      modifies this
      ensures (View(), response) == Serve(policy, old(View()), q, now)
    {
      hide Next, Poll, CheckIn, CheckOut, Pulse, Assign, Claim, Update;
      hide Reassign, Fail, Kill, TakeLock, FreeLock, CleanupStale;
      response := Done;
      match q
      case NextR(name, scope) => response := OnNext(name, scope, now);
      case PollR(a) => response := OnPoll(a, now);
      case CheckInR(name, scope) => var _ := OnCheckIn(name, scope, now);
      case CheckOutR(a) => OnCheckOut(a, now);
      case PulseR(a) => OnPulse(a, now);
      case AssignR(to, scope, priority, blockedBy, description) =>
        response := OnAssign(to, scope, priority, blockedBy, description, now);
      case ClaimR(i, a) => response := OnClaim(i, a);
      case UpdateR(i, status, result) => response := OnUpdate(i, status, result, now);
      case ReassignR(i, to) => response := OnReassign(i, to);
      case FailR(i, result, mode) => response := OnFail(i, result, mode, now);
      case KillR(a) => response := OnKill(a);
      case LockR(a, path) => response := OnLock(a, path);
      case UnlockR(a, path) => response := OnUnlock(a, path);
      case CleanupR(seconds) => response := OnCleanupStale(seconds, now);
    }
  }

  lemma {:induction false} FirstNamesake(db: Db, a: nat, b: nat, upto: nat)
    requires a < |db.workers| && b < upto <= |db.workers|
    requires Namesake(db, a, b).None? && IsNamesake(db, a, b)
    ensures Namesake(db, a, upto) == Some(b)
    decreases upto
  {
    if b + 1 < upto { FirstNamesake(db, a, b, upto - 1); }
  }
}
