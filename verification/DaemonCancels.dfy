// Cancels over whole runs: a job that is gone begins no further step, whatever is cancelled later, and
// a job cancelled in its step begins another exactly when the daemon has forgotten the id by its end.
module DaemonCancels {
  import opened Prelude
  import opened Daemon
  import opened DaemonRuns

  predicate Reuses(e: Event, c: Socket, id: nat) {
    e.Arrived? && e.socket == c && e.request.Submit? && e.request.id == id
  }

  predicate NeverReused(es: seq<Event>, c: Socket, id: nat) { forall i | 0 <= i < |es| :: !Reuses(es[i], c, id) }

  /** No step of the job begins between the two states. */
  ghost predicate Quiet(s: Server, t: Server, c: Socket, id: nat) {
    s.starts <= t.starts
    && forall i | |s.starts| <= i < |t.starts| :: t.starts[i] < |t.accepted| && !Names(t.accepted[t.starts[i]], c, id)
  }

  // ---------------------------------------------------------------- a job that is gone

  /** Not running, and not in a lane from where it could begin. */
  predicate Gone(s: Server, c: Socket, id: nat) {
    !IsRunning(s, c, id) && (c in s.destroyed || !InLane(s, c, id))
  }

  lemma {:induction false} NextGone(s: Server, c: Socket, id: nat)
    requires s.running.None? && Gone(s, c, id)
    ensures Gone(Next(s), c, id)
    decreases |s.interactive| + |s.background|
  {
    if s.interactive != [] {
      var rest := s.(interactive := s.interactive[1..]);
      if !Live(s, s.interactive[0]) { NextGone(Drop(rest, s.interactive[0]), c, id); }
    } else if s.background != [] {
      var rest := s.(background := s.background[1..]);
      if !Live(s, s.background[0]) { NextGone(Drop(rest, s.background[0]), c, id); }
    }
  }

  lemma {:induction false} ConcludeGone(h: Handlers, s: Server, r: Settled, c: Socket, id: nat)
    requires s.running.Some? && Gone(s, c, id)
    ensures Gone(Conclude(h, s, r), c, id)
  {
  }

  lemma {:induction false} EnqueueGone(s: Server, j: Job, c: Socket, id: nat)
    requires Gone(s, c, id) && (c in s.destroyed || !Names(j, c, id))
    ensures Gone(Enqueue(s, j), c, id) && Enqueue(s, j).running == s.running
  {
  }

  lemma {:induction false} ApplyGone(h: Handlers, s: Server, e: Event, c: Socket, id: nat)
    requires Gone(s, c, id) && !Reuses(e, c, id)
    ensures Gone(Apply(h, s, e), c, id)
  {
    if e.Arrived? && e.socket !in s.destroyed && e.request.Submit? {
      var j := Fresh(s, e.socket, e.request.id, e.request.lane, e.request.work);
      EnqueueGone(s, j, c, id);
      hide Enqueue, Gone;
      if s.running.None? { NextGone(Enqueue(s, j), c, id); }
    } else if e.StepSettled? && s.running.Some? {
      ConcludeGone(h, s, e.result, c, id);
      hide Conclude;
      NextGone(Conclude(h, s, e.result), c, id);
    }
  }

  /** A step that began is of a job the connection and id do not name. */
  lemma {:induction false} BeganQuietly(h: Handlers, s: Server, t: Server, c: Socket, id: nat)
    requires Inv(h, t) && !IsRunning(t, c, id)
    requires t.starts == s.starts || (t.running.Some? && t.starts == s.starts + [t.running.value.serial])
    ensures Quiet(s, t, c, id)
  {
    if t.running.Some? { assert Sound(h, t.accepted, t.running.value); }
  }

  lemma {:induction false} QuietThen(s: Server, m: Server, t: Server, c: Socket, id: nat)
    requires Quiet(s, m, c, id) && Quiet(m, t, c, id) && m.accepted <= t.accepted
    ensures Quiet(s, t, c, id)
  {
  }

  /** A job in no lane and not running begins no further step, however many cancels arrive later. */
  lemma {:induction false} GoneForGood(h: Handlers, s: Server, es: seq<Event>, c: Socket, id: nat)
    requires Inv(h, s) && Gone(s, c, id) && NeverReused(es, c, id)
    ensures Gone(Run(h, s, es), c, id) && Quiet(s, Run(h, s, es), c, id)
    decreases |es|
  {
    if es != [] {
      var m := Apply(h, s, es[0]);
      RunCons(h, s, es);
      ApplyGone(h, s, es[0], c, id);
      ApplyKeeps(h, s, es[0]);
      ApplyRuns(h, s, es[0]);
      BeganQuietly(h, s, m, c, id);
      hide Apply, Run, Inv, Gone, Quiet;
      RunGrows(h, m, es[1..]);
      GoneForGood(h, m, es[1..], c, id);
      QuietThen(s, m, Run(h, m, es[1..]), c, id);
    }
  }

  // ---------------------------------------------------------------- what the daemon still holds

  /** The ids a connection holds as cancelled after the events; a lost connection is not read any more. */
  function HeldAfter(held: set<nat>, up: bool, es: seq<Event>, c: Socket): set<nat>
    decreases |es|
  {
    if es == [] || !up then held
    else
      match es[0]
      case Arrived(socket, Cancel(_, target)) =>
        HeldAfter(if socket == c then Remember(held, target) else held, up, es[1..], c)
      case Disconnected(socket) => HeldAfter(held, socket != c, es[1..], c)
      case _ => HeldAfter(held, up, es[1..], c)
  }

  lemma {:induction false} ConcludeHolds(h: Handlers, s: Server, r: Settled)
    requires s.running.Some?
    ensures Conclude(h, s, r).cancelled == s.cancelled && Conclude(h, s, r).destroyed == s.destroyed
  {
  }

  /** Only cancels and lost connections change what is held and who is heard. */
  lemma {:induction false} ElseHolds(h: Handlers, s: Server, e: Event)
    requires !e.Disconnected? && !(e.Arrived? && e.request.Cancel?)
    ensures Apply(h, s, e).cancelled == s.cancelled && Apply(h, s, e).destroyed == s.destroyed
  {
    if e.Arrived? && e.socket !in s.destroyed && e.request.Submit? {
      if s.running.None? { NextLeaves(Enqueue(s, Fresh(s, e.socket, e.request.id, e.request.lane, e.request.work))); }
    } else if e.StepSettled? && s.running.Some? {
      ConcludeHolds(h, s, e.result);
      hide Conclude;
      NextLeaves(Conclude(h, s, e.result));
    }
  }

  lemma {:induction false} ApplyHolds(h: Handlers, s: Server, e: Event, c: Socket)
    ensures var t, up := Apply(h, s, e), c !in s.destroyed;
      CancelSet(t, c) == HeldAfter(CancelSet(s, c), up, [e], c)
      && (c in t.destroyed <==> c in s.destroyed || e == Disconnected(c))
  {
    assert [e][1..] == [];
    if e.Arrived? && e.request.Cancel? {
      hide Remember, IndexOf, Without, Picked;
    } else if !e.Disconnected? {
      ElseHolds(h, s, e);
      hide Apply;
    }
  }

  lemma {:induction false} HeldAfterFirst(held: set<nat>, up: bool, es: seq<Event>, c: Socket)
    requires es != []
    ensures HeldAfter(held, up, es, c) ==
      HeldAfter(HeldAfter(held, up, [es[0]], c), up && es[0] != Disconnected(c), es[1..], c)
  {
    assert [es[0]][1..] == [];
  }

  /** The fold is what the daemon holds after any run. */
  lemma {:induction false} HoldsTheFold(h: Handlers, s: Server, es: seq<Event>, c: Socket)
    ensures var t := Run(h, s, es);
      CancelSet(t, c) == HeldAfter(CancelSet(s, c), c !in s.destroyed, es, c)
      && (c in t.destroyed <==> c in s.destroyed || Disconnected(c) in es)
    decreases |es|
  {
    if es != [] {
      RunCons(h, s, es);
      ApplyHolds(h, s, es[0], c);
      HeldAfterFirst(CancelSet(s, c), c !in s.destroyed, es, c);
      assert es == [es[0]] + es[1..];
      hide Apply, Run, HeldAfter, CancelSet;
      HoldsTheFold(h, Apply(h, s, es[0]), es[1..], c);
    }
  }

  /** Cancel frames from this connection. */
  function Cancels(es: seq<Event>, c: Socket): nat {
    if es == [] then 0
    else (if es[0].Arrived? && es[0].socket == c && es[0].request.Cancel? then 1 else 0) + Cancels(es[1..], c)
  }

  /** Within the limit nothing is forgotten. */
  lemma {:induction false} HeldWithinLimit(held: set<nat>, up: bool, es: seq<Event>, c: Socket, id: nat)
    requires id in held && |held| + Cancels(es, c) <= CANCEL_LIMIT
    ensures id in HeldAfter(held, up, es, c)
    decreases |es|
  {
    if es != [] && up {
      match es[0]
      case Arrived(socket, Cancel(_, target)) =>
        if socket == c {
          assert |held + {target}| <= |held| + 1;
          HeldWithinLimit(Remember(held, target), up, es[1..], c, id);
        } else {
          HeldWithinLimit(held, up, es[1..], c, id);
        }
      case Disconnected(socket) => HeldWithinLimit(held, socket != c, es[1..], c, id);
      case _ => HeldWithinLimit(held, up, es[1..], c, id);
    }
  }

  // ---------------------------------------------------------------- the cancel frame

  predicate AtMostOne(q: seq<Job>, c: Socket, id: nat) {
    forall i, k | 0 <= i < k < |q| :: !(Names(q[i], c, id) && Names(q[k], c, id))
  }

  lemma {:induction false} RemovedExactly(q: seq<Job>, c: Socket, id: nat)
    ensures Absent(Without(q, IndexOf(q, c, id)), c, id) <==> AtMostOne(q, c, id)
  {
    var n := IndexOf(q, c, id);
    if n < |q| {
      var r := Without(q, n);
      assert forall k | 0 <= k < |r| :: r[k] == if k < n then q[k] else q[k + 1];
      assert forall k | n < k < |q| :: q[k] == r[k - 1];
    }
  }

  /** A cancel frame leaves the id held, and none of its jobs in a lane exactly when each lane had at most one. */
  lemma {:induction false} CancelEmpties(s: Server, c: Socket, id: nat)
    ensures var t := ArriveCancel(s, c, id);
      id in CancelSet(t, c) && t.running == s.running
      && (!InLane(t, c, id) <==> AtMostOne(s.interactive, c, id) && AtMostOne(s.background, c, id))
  {
    RemovedExactly(s.interactive, c, id);
    RemovedExactly(s.background, c, id);
    hide AtMostOne, IndexOf, Without, Picked, Absent;
  }

  // ---------------------------------------------------------------- the running step goes on

  predicate NoSettle(es: seq<Event>) { forall i | 0 <= i < |es| :: !es[i].StepSettled? }

  lemma {:induction false} ApplyWhileRunning(h: Handlers, s: Server, e: Event, c: Socket, id: nat)
    requires s.running.Some? && !e.StepSettled? && !Reuses(e, c, id) && !InLane(s, c, id)
    ensures var t := Apply(h, s, e); t.running == s.running && t.starts == s.starts && !InLane(t, c, id)
  {
    if e.Arrived? && e.socket !in s.destroyed {
      match e.request
      case Submit(_, lane, work) =>
        var j := Fresh(s, e.socket, e.request.id, lane, work);
        assert !Names(j, c, id) && !InLane(Enqueue(s, j), c, id);
      case Cancel(_, target) =>
        WithoutAbsent(s.interactive, IndexOf(s.interactive, e.socket, target), c, id);
        WithoutAbsent(s.background, IndexOf(s.background, e.socket, target), c, id);
        hide IndexOf, Without, Absent;
      case Stats(_) =>
    }
  }

  lemma {:induction false} WithoutAbsent(q: seq<Job>, i: nat, c: Socket, id: nat)
    requires Absent(q, c, id)
    ensures Absent(Without(q, i), c, id)
  {
  }

  /** While the step runs, no other begins and nothing brings the job back to a lane. */
  lemma {:induction false} WhileRunning(h: Handlers, s: Server, es: seq<Event>, c: Socket, id: nat)
    requires s.running.Some? && NoSettle(es) && NeverReused(es, c, id) && !InLane(s, c, id)
    ensures var t := Run(h, s, es); t.running == s.running && t.starts == s.starts && !InLane(t, c, id)
    decreases |es|
  {
    if es != [] {
      RunCons(h, s, es);
      ApplyWhileRunning(h, s, es[0], c, id);
      hide Apply, Run;
      WhileRunning(h, Apply(h, s, es[0]), es[1..], c, id);
    }
  }

  /** The running step is the last of its job if it ends with `r`. */
  predicate LastStep(h: Handlers, j: Job, r: Settled) {
    r.Threw? || j.work.Whole? || Advance(h, j).offset >= |j.work.texts|
  }

  /**
   * At the end of its step an unfinished embed goes back to a lane exactly when the daemon has
   * forgotten its id by then: when the fold over the cancels since `s` does not hold it.
   */
  lemma {:induction false} RequeuedExactly(h: Handlers, s: Server, es: seq<Event>, c: Socket, id: nat, value: string)
    requires Inv(h, s) && IsRunning(s, c, id) && !InLane(s, c, id) && !LastStep(h, s.running.value, Returned(value))
    requires NoSettle(es) && NeverReused(es, c, id)
    ensures var m := Run(h, s, es);
      m.running == s.running
      && (InLane(Conclude(h, m, Returned(value)), c, id)
          <==> id !in HeldAfter(CancelSet(s, c), c !in s.destroyed, es, c))
  {
    var m := Run(h, s, es);
    WhileRunning(h, s, es, c, id);
    HoldsTheFold(h, s, es, c);
    hide Run, HeldAfter, Inv, CancelSet;
    EndsInLane(h, m, c, id, Returned(value));
  }

  lemma {:induction false} EndsInLane(h: Handlers, m: Server, c: Socket, id: nat, r: Settled)
    requires IsRunning(m, c, id) && !InLane(m, c, id)
    ensures InLane(Conclude(h, m, r), c, id) <==> !LastStep(h, m.running.value, r) && id !in CancelSet(m, c)
  {
    var j, t := m.running.value, Conclude(h, m, r);
    if !LastStep(h, j, r) && id !in CancelSet(m, c) {
      var k := Advance(h, j);
      assert t == Requeue(m.(running := None), k);
      assert Names(k, c, id);
      if j.lane.Interactive? {
        assert Names(t.interactive[|m.interactive|], c, id);
      } else {
        assert Names(t.background[0], c, id);
      }
    } else {
      assert t.interactive == m.interactive && t.background == m.background;
    }
  }

  // ---------------------------------------------------------------- no further step, exactly

  /** The job waits in a lane and the pump will not skip it. */
  ghost predicate LiveInLane(s: Server, k: Job) {
    Live(s, k) && (k in s.interactive || k in s.background)
  }

  lemma {:induction false} NextLive(s: Server, k: Job)
    requires s.running.None? && LiveInLane(s, k)
    ensures LiveInLane(Next(s), k) || Next(s).running == Some(k)
    decreases |s.interactive| + |s.background|
  {
    if s.interactive != [] {
      var j, rest := s.interactive[0], s.(interactive := s.interactive[1..]);
      assert k in s.interactive ==> k == j || k in rest.interactive;
      if !Live(s, j) { NextLive(Drop(rest, j), k); }
    } else if s.background != [] {
      var j, rest := s.background[0], s.(background := s.background[1..]);
      assert k in s.background ==> k == j || k in rest.background;
      if !Live(s, j) { NextLive(Drop(rest, j), k); }
    }
  }

  /** Steps that all end with an error, and nothing else. */
  function Throws(n: nat): seq<Event> { if n == 0 then [] else [StepSettled(Threw(""))] + Throws(n - 1) }

  lemma {:induction false} ThrowsNoReuse(n: nat, c: Socket, id: nat)
    ensures NeverReused(Throws(n), c, id)
  {
    if n > 0 { ThrowsNoReuse(n - 1, c, id); }
  }

  lemma {:induction false} ThrowKeepsLive(h: Handlers, s: Server, k: Job)
    requires s.running.Some? && LiveInLane(s, k)
    ensures LiveInLane(Conclude(h, s, Threw("")), k)
  {
  }

  lemma {:induction false} BeganIsLoud(h: Handlers, s: Server, m: Server, t: Server, k: Job, c: Socket, id: nat)
    requires Inv(h, m) && m.running == Some(k) && m.starts == s.starts + [k.serial] && Names(k, c, id)
    requires m.starts <= t.starts && m.accepted <= t.accepted
    ensures !Quiet(s, t, c, id)
  {
    assert Sound(h, m.accepted, k);
    assert t.starts[|s.starts|] == k.serial;
  }

  lemma {:induction false} LoudThen(s: Server, m: Server, t: Server, c: Socket, id: nat)
    requires s.starts <= m.starts <= t.starts && !Quiet(m, t, c, id)
    ensures !Quiet(s, t, c, id)
  {
  }

  lemma {:induction false} LaneLoadPositive(s: Server, k: Job)
    requires LiveInLane(s, k)
    ensures Load(s) > 0
  {
    if s.interactive != [] { assert LaneLoad(s.interactive) >= Left(s.interactive[0]); }
    if s.background != [] { assert LaneLoad(s.background) >= Left(s.background[0]); }
  }

  lemma {:induction false} ThrowStep(h: Handlers, s: Server, k: Job)
    requires Inv(h, s) && LiveInLane(s, k)
    ensures var m := Apply(h, s, StepSettled(Threw("")));
      Inv(h, m) && Load(m) < Load(s) && s.starts <= m.starts
      && (LiveInLane(m, k) || (m.running == Some(k) && m.starts == s.starts + [k.serial]))
  {
    var d := Conclude(h, s, Threw(""));
    assert Apply(h, s, StepSettled(Threw(""))) == Next(d);
    ApplyKeeps(h, s, StepSettled(Threw("")));
    ThrowKeepsLive(h, s, k);
    LaneLoadPositive(s, k);
    StepLoad(h, s, Threw(""));
    ConcludeShape(h, s, Threw(""));
    hide Inv, Load, Apply, Conclude, LiveInLane;
    NextLive(d, k);
    NextLeaves(d);
  }

  lemma {:induction false} LoudAfterThrow(h: Handlers, s: Server, n: nat, c: Socket, id: nat)
    requires var m := Apply(h, s, StepSettled(Threw("")));
      s.starts <= m.starts && !Quiet(m, Run(h, m, Throws(n)), c, id)
    ensures !Quiet(s, Run(h, s, Throws(n + 1)), c, id)
  {
    hide Apply, Quiet, Run, Throws;
    var m := Apply(h, s, StepSettled(Threw("")));
    RunThrows(h, s, n);
    RunGrows(h, m, Throws(n));
    LoudThen(s, m, Run(h, m, Throws(n)), c, id);
  }

  lemma {:induction false} BeginsAtOnce(h: Handlers, s: Server, k: Job, c: Socket, id: nat)
    requires var m := Apply(h, s, StepSettled(Threw("")));
      Inv(h, m) && m.running == Some(k) && m.starts == s.starts + [k.serial] && Names(k, c, id)
    ensures !Quiet(s, Run(h, s, Throws(1)), c, id)
  {
    hide Apply, Quiet, Inv;
    var m := Apply(h, s, StepSettled(Threw("")));
    RunThrows(h, s, 0);
    assert Throws(0) == [];
    BeganIsLoud(h, s, m, m, k, c, id);
  }

  /** A live waiting job begins a step by the time the daemon is idle. */
  lemma {:induction false} LiveJobBegins(h: Handlers, s: Server, k: Job, c: Socket, id: nat) returns (n: nat)
    requires Inv(h, s) && LiveInLane(s, k) && Names(k, c, id)
    ensures !Quiet(s, Run(h, s, Throws(n)), c, id)
    decreases Load(s)
  {
    var m := Apply(h, s, StepSettled(Threw("")));
    ThrowStep(h, s, k);
    hide Apply, Inv, Load, Run, Quiet, LiveInLane, Names, Throws;
    if LiveInLane(m, k) {
      n := LiveJobBegins(h, m, k, c, id);
      LoudAfterThrow(h, s, n, c, id);
      n := n + 1;
    } else {
      BeginsAtOnce(h, s, k, c, id);
      n := 1;
    }
  }

  lemma {:induction false} RunThrows(h: Handlers, s: Server, n: nat)
    ensures Run(h, s, Throws(n + 1)) == Run(h, Apply(h, s, StepSettled(Threw(""))), Throws(n))
  {
    hide Apply;
    assert Throws(n + 1)[1..] == Throws(n);
  }

  lemma {:induction false} RunNone(h: Handlers, s: Server)
    ensures Run(h, s, []) == s
  {
  }

  /** The state at the end of the running step: from there on, is the job gone? */
  lemma {:induction false} EndGone(h: Handlers, m: Server, c: Socket, id: nat, r: Settled)
    requires IsRunning(m, c, id) && !InLane(m, c, id)
    requires LastStep(h, m.running.value, r) || id in CancelSet(m, c) || c in m.destroyed
    ensures Gone(EndStep(h, m, r), c, id)
  {
    EndsInLane(h, m, c, id, r);
    ConcludeHolds(h, m, r);
    hide LastStep, CancelSet, Conclude, InLane;
    NextGone(Conclude(h, m, r), c, id);
  }

  lemma {:induction false} EndLive(h: Handlers, m: Server, c: Socket, id: nat, r: Settled)
    requires IsRunning(m, c, id) && !LastStep(h, m.running.value, r) && id !in CancelSet(m, c) && c !in m.destroyed
    ensures var k, t := Advance(h, m.running.value), EndStep(h, m, r);
      Names(k, c, id) && (LiveInLane(t, k) || (t.running == Some(k) && t.starts == m.starts + [k.serial]))
  {
    var k, d := Advance(h, m.running.value), Conclude(h, m, r);
    assert d == Requeue(m.(running := None), k);
    assert k in d.interactive || k in d.background by {
      if k.lane.Interactive? { assert d.interactive[|m.interactive|] == k; } else { assert d.background[0] == k; }
    }
    ConcludeHolds(h, m, r);
    ConcludeShape(h, m, r);
    NextLive(d, k);
    NextLeaves(d);
  }

  ghost predicate NoFurtherStep(h: Handlers, s: Server, m: Server, c: Socket, id: nat) {
    forall es | NeverReused(es, c, id) :: Quiet(s, Run(h, m, es), c, id)
  }

  lemma {:induction false} EndDecides(h: Handlers, m: Server, c: Socket, id: nat, r: Settled)
    requires Inv(h, m) && IsRunning(m, c, id) && !InLane(m, c, id)
    ensures NoFurtherStep(h, m, EndStep(h, m, r), c, id)
      <==> LastStep(h, m.running.value, r) || id in CancelSet(m, c) || c in m.destroyed
  {
    var t := EndStep(h, m, r);
    assert t == Apply(h, m, StepSettled(r));
    ApplyKeeps(h, m, StepSettled(r));
    ApplyRuns(h, m, StepSettled(r));
    if LastStep(h, m.running.value, r) || id in CancelSet(m, c) || c in m.destroyed {
      EndGone(h, m, c, id, r);
      BeganQuietly(h, m, t, c, id);
      hide Inv, Apply, EndStep, Run, Gone, Quiet;
      forall es | NeverReused(es, c, id) ensures Quiet(m, Run(h, t, es), c, id) {
        GoneForGood(h, t, es, c, id);
        RunGrows(h, t, es);
        QuietThen(m, t, Run(h, t, es), c, id);
      }
    } else {
      EndLive(h, m, c, id, r);
      var k := Advance(h, m.running.value);
      hide Inv, Apply, EndStep, Run, Quiet, LiveInLane, Names, Advance;
      if LiveInLane(t, k) {
        var n := LiveJobBegins(h, t, k, c, id);
        RunGrows(h, t, Throws(n));
        LoudThen(m, t, Run(h, t, Throws(n)), c, id);
        ThrowsNoReuse(n, c, id);
      } else {
        RunNone(h, t);
        BeganIsLoud(h, m, t, t, k, c, id);
        assert NeverReused([], c, id);
      }
    }
  }

  /**
   * The exact condition. A job is in its step and nowhere else; `es` happens until that step
   * settles with `r`. No further step of it begins in any continuation that does not use the id
   * again, exactly when the step was its last one, or the connection was lost, or the daemon
   * still holds the id: the fold over the cancels of `es` has not forgotten it.
   */
  lemma {:induction false} NoFurtherStepExactly(h: Handlers, s: Server, es: seq<Event>, c: Socket, id: nat, r: Settled)
    requires Inv(h, s) && IsRunning(s, c, id) && !InLane(s, c, id)
    requires NoSettle(es) && NeverReused(es, c, id)
    ensures NoFurtherStep(h, s, Apply(h, Run(h, s, es), StepSettled(r)), c, id)
      <==> LastStep(h, s.running.value, r) || c in s.destroyed || Disconnected(c) in es
           || id in HeldAfter(CancelSet(s, c), c !in s.destroyed, es, c)
  {
    var m := Run(h, s, es);
    RunKeeps(h, s, es);
    WhileRunning(h, s, es, c, id);
    HoldsTheFold(h, s, es, c);
    EndDecides(h, m, c, id, r);
    var t := Apply(h, m, StepSettled(r));
    assert t == EndStep(h, m, r);
    hide Run, Apply, EndStep, HeldAfter, Inv, CancelSet, LastStep;
    SameSince(h, s, m, t, c, id);
  }

  lemma {:induction false} SameSince(h: Handlers, s: Server, m: Server, t: Server, c: Socket, id: nat)
    requires m.starts == s.starts
    ensures NoFurtherStep(h, s, t, c, id) <==> NoFurtherStep(h, m, t, c, id)
  {
    hide Run;
    assert forall x :: Quiet(s, x, c, id) <==> Quiet(m, x, c, id);
  }

  // ---------------------------------------------------------------- whole runs

  /** The events up to the end of the running step. */
  function UntilSettle(es: seq<Event>): (k: nat)
    ensures k <= |es| && NoSettle(es[..k]) && (k < |es| ==> es[k].StepSettled?)
  {
    if es == [] || es[0].StepSettled? then 0 else 1 + UntilSettle(es[1..])
  }

  lemma {:induction false} RunAppend(h: Handlers, s: Server, a: seq<Event>, b: seq<Event>)
    ensures Run(h, s, a + b) == Run(h, Run(h, s, a), b)
    decreases |a|
  {
    if a == [] {
      assert a + b == b;
    } else {
      assert (a + b)[1..] == a[1..] + b;
      RunAppend(h, Apply(h, s, a[0]), a[1..], b);
    }
  }

  /**
   * A job out of its lanes and cancelled stays stopped over the whole run, if the daemon still
   * holds the id when its running step ends; cancels that arrive later do not matter.
   */
  lemma {:induction false} CancelledStaysStopped(h: Handlers, s: Server, es: seq<Event>, c: Socket, id: nat)
    requires Inv(h, s) && !InLane(s, c, id) && NeverReused(es, c, id)
    requires IsRunning(s, c, id) ==> id in HeldAfter(CancelSet(s, c), c !in s.destroyed, es[..UntilSettle(es)], c)
    ensures Quiet(s, Run(h, s, es), c, id)
  {
    if IsRunning(s, c, id) {
      var k := UntilSettle(es);
      var es1, es2 := es[..k], es[k..];
      assert es1 + es2 == es;
      assert NeverReused(es1, c, id);
      RunAppend(h, s, es1, es2);
      if k == |es| {
        WhileRunning(h, s, es, c, id);
        assert es1 == es;
      } else {
        var r := es[k].result;
        assert es2[0] == StepSettled(r);
        assert NeverReused(es2[1..], c, id);
        NoFurtherStepExactly(h, s, es1, c, id, r);
        RunCons(h, Run(h, s, es1), es2);
      }
    } else {
      GoneForGood(h, s, es, c, id);
    }
  }

  // ---------------------------------------------------------------- the limit is reached

  /** An embed on one connection, `n` cancels with distinct targets, its own id first, then the end of its step. */
  function Cancelling(c: Socket, w: Work, n: nat): seq<Event> {
    if n == 0 then [Arrived(c, Submit(0, Interactive, w))]
    else Cancelling(c, w, n - 1) + [Arrived(c, Cancel(0, n - 1))]
  }

  function Numbers(n: nat): (r: set<nat>)
    ensures |r| == n && forall x: nat :: x in r <==> x < n
  {
    if n == 0 then {} else Numbers(n - 1) + {n - 1}
  }

  lemma {:induction false} RunOne(h: Handlers, s: Server, e: Event)
    ensures Run(h, s, [e]) == Apply(h, s, e)
  {
    RunCons(h, s, [e]);
    assert [e][1..] == [];
  }

  lemma {:induction false} RunOneMore(h: Handlers, s: Server, es: seq<Event>, e: Event)
    ensures Run(h, s, es + [e]) == Apply(h, Run(h, s, es), e)
  {
    RunAppend(h, s, es, [e]);
    RunOne(h, Run(h, s, es), e);
  }

  function FirstJob(c: Socket, w: Work): Job { Job(0, c, 0, Interactive, w, 0, []) }

  /** The first job runs, with an empty queue; `n` distinct ids have been cancelled, its own first. */
  ghost predicate Cancelled(s: Server, c: Socket, w: Work, n: nat) {
    && s.running == Some(FirstJob(c, w)) && s.interactive == [] && s.background == []
    && s.destroyed == {} && s.starts == [0]
    && (n <= CANCEL_LIMIT ==> CancelSet(s, c) == Numbers(n))
    && (n > CANCEL_LIMIT ==> 0 !in CancelSet(s, c))
  }

  lemma {:induction false} OneMoreCancelled(h: Handlers, s: Server, c: Socket, w: Work, n: nat)
    requires Cancelled(s, c, w, n)
    ensures Cancelled(Apply(h, s, Arrived(c, Cancel(0, n))), c, w, n + 1)
  {
    var t := ArriveCancel(s, c, n);
    assert Apply(h, s, Arrived(c, Cancel(0, n))) == t;
    assert CancelSet(t, c) == Remember(CancelSet(s, c), n);
    assert n < CANCEL_LIMIT ==> Remember(Numbers(n), n) == Numbers(n + 1);
  }

  lemma {:induction false} SubmittedFirst(h: Handlers, c: Socket, w: Work)
    ensures Cancelled(Apply(h, IDLE, Arrived(c, Submit(0, Interactive, w))), c, w, 0)
  {
    var j := FirstJob(c, w);
    var s := Enqueue(IDLE, j);
    assert s.interactive == [j] && Live(s, j);
    assert Apply(h, IDLE, Arrived(c, Submit(0, Interactive, w))) == Begin(s.(interactive := s.interactive[1..]), j);
  }

  lemma {:induction false} AfterCancels(h: Handlers, c: Socket, w: Work, n: nat)
    ensures Cancelled(Run(h, IDLE, Cancelling(c, w, n)), c, w, n)
  {
    if n == 0 {
      SubmittedFirst(h, c, w);
      hide Run, Apply, Cancelled;
      RunOne(h, IDLE, Arrived(c, Submit(0, Interactive, w)));
    } else {
      var s, e := Run(h, IDLE, Cancelling(c, w, n - 1)), Arrived(c, Cancel(0, n - 1));
      AfterCancels(h, c, w, n - 1);
      hide Run, Apply, Cancelled;
      RunOneMore(h, IDLE, Cancelling(c, w, n - 1), e);
      OneMoreCancelled(h, s, c, w, n - 1);
    }
  }

  /**
   * The limit matters in runs from the start: an embed of more texts than a chunk is cancelled in its
   * first step, with `n` distinct ids cancelled in all. Its second step begins exactly when there was
   * no cancel at all or more than the limit.
   */
  lemma {:induction false} ForgottenCancelResumes(h: Handlers, c: Socket, w: Work, n: nat, value: string)
    requires w.Embed? && |w.texts| > h.chunk > 0
    ensures var t := Run(h, IDLE, Cancelling(c, w, n) + [StepSettled(Returned(value))]);
      t.starts == if 1 <= n <= 10_000 then [0] else [0, 0]
  {
    var s := Run(h, IDLE, Cancelling(c, w, n));
    AfterCancels(h, c, w, n);
    RunOneMore(h, IDLE, Cancelling(c, w, n), StepSettled(Returned(value)));
    hide Run;
    var k := Advance(h, FirstJob(c, w));
    assert k.offset == h.chunk && k.socket == c && k.id == 0;
    var rest := s.(running := None);
    assert IsCancelled(rest, k) <==> 1 <= n <= CANCEL_LIMIT;
    var d := Conclude(h, s, Returned(value));
    assert d == if IsCancelled(rest, k) then Drop(rest, k) else Requeue(rest, k);
    assert !IsCancelled(rest, k) ==> d.interactive == [k] && d.background == [] && Live(d, k);
    assert Apply(h, s, StepSettled(Returned(value))) == Next(d);
  }
}
