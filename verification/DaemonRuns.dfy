/**
 * What the daemon's scheduler guarantees over whole runs: every job in exactly one place
 * and answered once, whole embeds out of chunks, no starvation, turns, background work in
 * order and behind interactive work, and a queue that drains.
 */
module DaemonRuns {
  import opened Prelude
  import opened Daemon

  // ---------------------------------------------------------------- conservation

  lemma {:induction false} IdleInv(h: Handlers)
    ensures Inv(h, IDLE)
  {
    assert Serials([]) == [] && AnswerSerials([]) == [] && Upto(0) == [];
  }

  lemma {:induction false} CountTwo(a: seq<nat>, i: nat, k: nat)
    requires i < k < |a| && a[i] == a[k]
    ensures multiset(a)[a[i]] >= 2
  {
    assert a == a[..i] + ([a[i]] + a[i + 1..]);
    assert a[i + 1..] == a[i + 1..k] + ([a[k]] + a[k + 1..]);
    assert a[i] in multiset(a[i + 1..]);
  }

  /** In any reachable state each accepted job is in one place; no job is answered twice. */
  lemma {:induction false} OnePlace(h: Handlers, es: seq<Event>, u: nat)
    requires u < |Run(h, IDLE, es).accepted|
    ensures var s := Run(h, IDLE, es);
      Places(s)[u] == 1
      && (forall i, k | 0 <= i < k < |s.answers| :: s.answers[i].serial != s.answers[k].serial)
  {
    IdleInv(h);
    RunKeeps(h, IDLE, es);
    var s := Run(h, IDLE, es);
    UptoOnce(|s.accepted|, u);
    forall i, k | 0 <= i < k < |s.answers| ensures s.answers[i].serial != s.answers[k].serial {
      var a := AnswerSerials(s.answers);
      if a[i] == a[k] {
        CountTwo(a, i, k);
        assert Places(s)[a[i]] >= 2;
        UptoOnce(|s.accepted|, a[i]);
      }
    }
  }

  /** A finished embed returns the vector of each of its texts in order, whatever ran in between. */
  lemma {:induction false} ChunkedEqualsWhole(h: Handlers, es: seq<Event>, i: nat)
    requires i < |Run(h, IDLE, es).answers|
    ensures var s := Run(h, IDLE, es);
      s.answers[i].serial < |s.accepted|
      && var w, reply := s.accepted[s.answers[i].serial].work, s.answers[i].reply;
         (reply.Vectors? ==>
            w.Embed? && |reply.vectors| == |w.texts|
            && forall k | 0 <= k < |w.texts| :: reply.vectors[k] == h.embed(w.pooling, w.dimensions, w.texts[k]))
         && (w.Embed? ==> reply.Vectors? || reply.Failed?)
  {
    IdleInv(h);
    RunKeeps(h, IDLE, es);
    var s := Run(h, IDLE, es);
    assert RightAnswer(h, s.accepted, s.answers[i]);
  }

  // ---------------------------------------------------------------- history only grows

  ghost predicate Grows(s: Server, t: Server) {
    s.starts <= t.starts && s.dropped <= t.dropped && s.accepted <= t.accepted && |t.starts| <= |s.starts| + 1
  }

  /** Settling a step begins none; a waiting job keeps its index. */
  lemma {:induction false} ConcludeShape(h: Handlers, s: Server, r: Settled)
    requires s.running.Some?
    ensures var c := Conclude(h, s, r);
      c.starts == s.starts && s.dropped <= c.dropped && s.interactive <= c.interactive && c.accepted == s.accepted
  {
  }

  lemma {:induction false} EnqueueShape(s: Server, j: Job)
    ensures var c := Enqueue(s, j);
      c.starts == s.starts && s.dropped == c.dropped && s.interactive <= c.interactive && c.accepted == s.accepted + [j]
      && c.running == s.running
  {
  }

  lemma {:induction false} ApplyGrows(h: Handlers, s: Server, e: Event)
    ensures Grows(s, Apply(h, s, e))
  {
    if e.Arrived? && e.socket !in s.destroyed && e.request.Submit? {
      var j := Fresh(s, e.socket, e.request.id, e.request.lane, e.request.work);
      EnqueueShape(s, j);
      hide Enqueue;
      if s.running.None? { NextLeaves(Enqueue(s, j)); }
    } else if e.StepSettled? && s.running.Some? {
      ConcludeShape(h, s, e.result);
      hide Conclude;
      NextLeaves(Conclude(h, s, e.result));
    }
  }

  lemma {:induction false} RunCons(h: Handlers, s: Server, es: seq<Event>)
    requires es != []
    ensures Run(h, s, es) == Run(h, Apply(h, s, es[0]), es[1..])
  {
  }

  // ---------------------------------------------------------------- no starvation

  predicate Waits(s: Server, u: nat, k: nat) { k < |s.interactive| && s.interactive[k].serial == u }

  /** Since `s`, the job began a step or was dropped. */
  predicate Served(s: Server, t: Server, u: nat)
    requires s.starts <= t.starts
  {
    u in t.starts[|s.starts|..] || u in t.dropped
  }

  /** Either served, or nearer the front by at least the number of steps begun meanwhile. */
  ghost predicate Nearer(s: Server, t: Server, u: nat, k: nat)
    requires s.starts <= t.starts
  {
    Served(s, t, u) || exists m: nat :: Waits(t, u, m) && m + |t.starts| <= k + |s.starts|
  }

  lemma {:induction false} NextNearer(s: Server, u: nat, k: nat)
    requires Waits(s, u, k) && s.running.None?
    ensures Grows(s, Next(s)) && Nearer(s, Next(s), u, k)
    decreases |s.interactive| + |s.background|
  {
    NextLeaves(s);
    var j := s.interactive[0];
    var rest := s.(interactive := s.interactive[1..]);
    if Live(s, j) {
      var t := Begin(rest, j);
      assert t.starts[|s.starts|..] == [j.serial];
      if k > 0 { assert Waits(t, u, k - 1); }
    } else {
      var d := Drop(rest, j);
      if k == 0 {
        NextLeaves(d);
        assert u in d.dropped;
      } else {
        assert Waits(d, u, k - 1);
        NextNearer(d, u, k - 1);
      }
    }
  }

  lemma {:induction false} CancelNearer(s: Server, socket: Socket, target: nat, u: nat, k: nat)
    requires Waits(s, u, k)
    ensures Nearer(s, ArriveCancel(s, socket, target), u, k)
  {
    var i := IndexOf(s.interactive, socket, target);
    var t := ArriveCancel(s, socket, target);
    if i == k {
      assert u in Picked(s.interactive, i);
    } else {
      assert Waits(t, u, if i < k then k - 1 else k);
    }
  }

  lemma {:induction false} ApplyNearer(h: Handlers, s: Server, e: Event, u: nat, k: nat)
    requires Waits(s, u, k)
    ensures Grows(s, Apply(h, s, e)) && Nearer(s, Apply(h, s, e), u, k)
  {
    ApplyGrows(h, s, e);
    if e.Arrived? && e.socket !in s.destroyed && e.request.Cancel? {
      CancelNearer(s, e.socket, e.request.target, u, k);
    } else if e.Arrived? && e.socket !in s.destroyed && e.request.Submit? {
      var j := Fresh(s, e.socket, e.request.id, e.request.lane, e.request.work);
      EnqueueShape(s, j);
      hide Enqueue;
      assert Waits(Enqueue(s, j), u, k);
      if s.running.None? { NextNearer(Enqueue(s, j), u, k); }
    } else if e.StepSettled? && s.running.Some? {
      ConcludeShape(h, s, e.result);
      hide Conclude;
      assert Waits(Conclude(h, s, e.result), u, k);
      NextNearer(Conclude(h, s, e.result), u, k);
    } else {
      assert Waits(Apply(h, s, e), u, k);
    }
  }

  lemma {:induction false} RunNearer(h: Handlers, s: Server, es: seq<Event>, u: nat, k: nat)
    requires Waits(s, u, k)
    ensures var t := Run(h, s, es); s.starts <= t.starts && s.dropped <= t.dropped && Nearer(s, t, u, k)
    decreases |es|
  {
    RunGrows(h, s, es);
    if es != [] {
      var m := Apply(h, s, es[0]);
      var t := Run(h, s, es);
      ApplyNearer(h, s, es[0], u, k);
      RunGrows(h, m, es[1..]);
      if Served(s, m, u) {
        if u in m.starts[|s.starts|..] {
          assert m.starts[|s.starts|..] <= t.starts[|s.starts|..];
        }
      } else {
        var k': nat :| Waits(m, u, k') && k' + |m.starts| <= k + |s.starts|;
        RunNearer(h, m, es[1..], u, k');
        if Served(m, t, u) && u in t.starts[|m.starts|..] {
          assert t.starts[|s.starts|..] == t.starts[|s.starts|..|m.starts|] + t.starts[|m.starts|..];
        }
      }
    }
  }

  lemma {:induction false} RunGrows(h: Handlers, s: Server, es: seq<Event>)
    ensures var t := Run(h, s, es); s.starts <= t.starts && s.dropped <= t.dropped && s.accepted <= t.accepted
    decreases |es|
  {
    if es != [] {
      ApplyGrows(h, s, es[0]);
      RunGrows(h, Apply(h, s, es[0]), es[1..]);
    }
  }

  /** No starvation: with `k` jobs ahead of it, a job is served by the time `k + 1` more steps have begun. */
  lemma {:induction false} NoStarvation(h: Handlers, s: Server, es: seq<Event>, u: nat, k: nat)
    requires Waits(s, u, k)
    requires |Run(h, s, es).starts| > |s.starts| + k
    ensures var t := Run(h, s, es); s.starts <= t.starts && Served(s, t, u)
  {
    RunNearer(h, s, es, u, k);
  }

  // ---------------------------------------------------------------- sessions take turns

  ghost predicate Ahead(s: Server, v: nat, u: nat) {
    exists a: nat, b: nat :: a < b && Waits(s, v, a) && Waits(s, u, b)
  }

  ghost predicate Distinct(q: seq<Job>) {
    forall i, k | 0 <= i < k < |q| :: q[i].serial != q[k].serial
  }

  lemma {:induction false} LaneDistinct(s: Server)
    requires Conserved(s)
    ensures Distinct(s.interactive)
  {
    var q := Serials(s.interactive);
    forall i, k | 0 <= i < k < |q| ensures s.interactive[i].serial != s.interactive[k].serial {
      if q[i] == q[k] {
        CountTwo(q, i, k);
        assert Places(s)[q[i]] >= 2;
        UptoOnce(|s.accepted|, q[i]);
      }
    }
  }

  lemma {:induction false} ApplyRuns(h: Handlers, s: Server, e: Event)
    ensures var t := Apply(h, s, e);
      t.starts == s.starts || (t.running.Some? && t.starts == s.starts + [t.running.value.serial])
  {
    match e
    case Arrived(socket, Submit(id, lane, work)) =>
      if socket !in s.destroyed && s.running.None? { NextLeaves(Enqueue(s, Fresh(s, socket, id, lane, work))); }
    case StepSettled(r) =>
      if s.running.Some? { NextLeaves(Conclude(h, s, r)); }
    case _ =>
  }

  lemma {:induction false} DroppedDoesNotRun(h: Handlers, s: Server, u: nat)
    requires Inv(h, s) && u in s.dropped && s.running.Some?
    ensures s.running.value.serial != u
  {
    UptoOnce(|s.accepted|, u);
    assert Places(s)[u] <= 1;
  }

  lemma {:induction false} DroppedNeverStarts(h: Handlers, s: Server, es: seq<Event>, u: nat)
    requires Inv(h, s) && u in s.dropped
    ensures var t := Run(h, s, es);
      s.starts <= t.starts && forall i | |s.starts| <= i < |t.starts| :: t.starts[i] != u
    decreases |es|
  {
    RunGrows(h, s, es);
    if es != [] {
      RunCons(h, s, es);
      hide Apply, Inv, Run;
      var m := Apply(h, s, es[0]);
      ApplyKeeps(h, s, es[0]);
      ApplyRuns(h, s, es[0]);
      ApplyGrows(h, s, es[0]);
      RunGrows(h, m, es[1..]);
      assert u in m.dropped;
      if m.running.Some? { DroppedDoesNotRun(h, m, u); }
      DroppedNeverStarts(h, m, es[1..], u);
      assert forall i | |s.starts| <= i < |m.starts| :: m.starts[i] != u;
    }
  }

  /** One event moves a pair of waiting jobs along, serves the one ahead, or drops one of them. */
  ghost predicate TurnKept(s: Server, t: Server, v: nat, u: nat)
    requires s.starts <= t.starts
  {
    || (Ahead(t, v, u) && u !in t.starts[|s.starts|..])
    || v in t.dropped
    || (u in t.dropped && t.starts == s.starts)
    || t.starts == s.starts + [v]
  }

  lemma {:induction false} NextTurn(s: Server, v: nat, u: nat)
    requires s.running.None? && Ahead(s, v, u) && Distinct(s.interactive)
    ensures Grows(s, Next(s)) && TurnKept(s, Next(s), v, u)
    decreases |s.interactive| + |s.background|
  {
    NextLeaves(s);
    var a: nat, b: nat :| a < b && Waits(s, v, a) && Waits(s, u, b);
    var j := s.interactive[0];
    var rest := s.(interactive := s.interactive[1..]);
    if Live(s, j) {
      var t := Begin(rest, j);
      assert t.starts == s.starts + [j.serial];
      if a > 0 { assert Waits(t, v, a - 1) && Waits(t, u, b - 1); }
    } else {
      var d := Drop(rest, j);
      NextLeaves(d);
      if a > 0 {
        assert Waits(d, v, a - 1) && Waits(d, u, b - 1);
        NextTurn(d, v, u);
      } else {
        assert v in d.dropped;
      }
    }
  }

  lemma {:induction false} CancelTurn(s: Server, socket: Socket, target: nat, v: nat, u: nat)
    requires Ahead(s, v, u)
    ensures TurnKept(s, ArriveCancel(s, socket, target), v, u)
  {
    var a: nat, b: nat :| a < b && Waits(s, v, a) && Waits(s, u, b);
    var i := IndexOf(s.interactive, socket, target);
    var t := ArriveCancel(s, socket, target);
    if i == a || i == b {
      assert Picked(s.interactive, i)[0] in t.dropped;
    } else {
      assert Waits(t, v, if i < a then a - 1 else a) && Waits(t, u, if i < b then b - 1 else b);
    }
  }

  lemma {:induction false} SettleTurn(h: Handlers, s: Server, r: Settled, v: nat, u: nat)
    requires Inv(h, s) && s.running.Some? && Ahead(s, v, u)
    ensures Grows(s, EndStep(h, s, r)) && TurnKept(s, EndStep(h, s, r), v, u)
  {
    var c := Conclude(h, s, r);
    ConcludeKeeps(h, s, r);
    ConcludeShape(h, s, r);
    hide Conclude;
    LaneDistinct(c);
    assert Ahead(c, v, u) by {
      var a: nat, b: nat :| a < b && Waits(s, v, a) && Waits(s, u, b);
      assert Waits(c, v, a) && Waits(c, u, b);
    }
    NextTurn(c, v, u);
  }

  lemma {:induction false} ApplyTurn(h: Handlers, s: Server, e: Event, v: nat, u: nat)
    requires Inv(h, s) && Ahead(s, v, u)
    ensures Grows(s, Apply(h, s, e)) && TurnKept(s, Apply(h, s, e), v, u)
  {
    ApplyGrows(h, s, e);
    if e.Arrived? && e.socket !in s.destroyed && e.request.Cancel? {
      CancelTurn(s, e.socket, e.request.target, v, u);
    } else if e.StepSettled? && s.running.Some? {
      SettleTurn(h, s, e.result, v, u);
    } else {
      var t := Apply(h, s, e);
      assert s.running.Some?;
      assert s.interactive <= t.interactive && t.starts == s.starts;
      assert Ahead(t, v, u) by {
        var a: nat, b: nat :| a < b && Waits(s, v, a) && Waits(s, u, b);
        assert Waits(t, v, a) && Waits(t, u, b);
      }
    }
  }

  /** Between `s` and the `i`-th start, the job began a step; or it was dropped. */
  predicate WentFirst(s: Server, t: Server, v: nat, i: nat)
    requires |s.starts| <= i <= |t.starts|
  {
    v in t.starts[|s.starts|..i] || v in t.dropped
  }

  lemma {:induction false} WentFirstEarlier(s: Server, m: Server, t: Server, v: nat, i: nat)
    requires |s.starts| <= |m.starts| <= i <= |t.starts| && WentFirst(m, t, v, i)
    ensures WentFirst(s, t, v, i)
  {
    assert t.starts[|s.starts|..i] == t.starts[|s.starts|..|m.starts|] + t.starts[|m.starts|..i];
  }

  /** The first event of a run either settles who goes first or leaves the pair waiting. */
  lemma {:induction false} TurnStep(h: Handlers, s: Server, m: Server, es: seq<Event>, v: nat, u: nat, i: nat)
    requires Inv(h, m) && Grows(s, m) && TurnKept(s, m, v, u) && u != v
    requires var t := Run(h, m, es);
      |s.starts| <= i < |t.starts| && t.starts[i] == u && m.starts <= t.starts && m.dropped <= t.dropped
    ensures (Ahead(m, v, u) && i >= |m.starts|) || WentFirst(s, Run(h, m, es), v, i)
  {
    hide Inv, Ahead;
    var t := Run(h, m, es);
    hide Run;
    if v in m.dropped {
    } else if m.starts == s.starts + [v] {
      assert t.starts[|s.starts|] == v;
      assert t.starts[|s.starts|..i][0] == v;
    } else if u in m.dropped && m.starts == s.starts {
      DroppedNeverStarts(h, m, es, u);
    } else {
      assert u !in m.starts[|s.starts|..];
      assert forall x | |s.starts| <= x < |m.starts| :: m.starts[x] == m.starts[|s.starts|..][x - |s.starts|];
    }
  }

  /** Whoever waits ahead of a job has its turn before that job's next step, or is dropped. */
  lemma {:induction false} WaitersGoFirst(h: Handlers, s: Server, es: seq<Event>, v: nat, u: nat, i: nat)
    requires Inv(h, s) && Ahead(s, v, u)
    requires var t := Run(h, s, es); |s.starts| <= i < |t.starts| && t.starts[i] == u
    ensures WentFirst(s, Run(h, s, es), v, i)
    decreases |es|
  {
    assert u != v by { LaneDistinct(s); }
    RunCons(h, s, es);
    hide Apply, Inv, Run, WentFirst, Ahead, TurnKept;
    var m := Apply(h, s, es[0]);
    ApplyTurn(h, s, es[0], v, u);
    ApplyKeeps(h, s, es[0]);
    RunGrows(h, m, es[1..]);
    TurnStep(h, s, m, es[1..], v, u, i);
    if Ahead(m, v, u) && i >= |m.starts| {
      WaitersGoFirst(h, m, es[1..], v, u, i);
      WentFirstEarlier(s, m, Run(h, m, es[1..]), v, i);
    }
  }

  /** The requeued job is last in its lane: everyone there is ahead of it. */
  lemma {:induction false} RequeuedLast(s: Server, j: Job, v: nat, a: nat)
    requires j.lane.Interactive? && Waits(s, v, a)
    ensures Ahead(Requeue(s, j), v, j.serial)
  {
    var t := Requeue(s, j);
    assert Waits(t, v, a) && Waits(t, j.serial, |s.interactive|);
  }

  /** An unfinished interactive embed: when its step ends, it goes behind everybody or is dropped. */
  predicate InterimStep(h: Handlers, s: Server, u: nat) {
    && s.running.Some? && s.running.value.serial == u && s.running.value.lane.Interactive?
    && s.running.value.work.Embed? && Advance(h, s.running.value).offset < |s.running.value.work.texts|
  }

  lemma {:induction false} InterimEnds(h: Handlers, s: Server, v: nat, a: nat, u: nat, value: string)
    requires Core(h, s) && Waits(s, v, a) && InterimStep(h, s, u)
    ensures var c := Conclude(h, s, Returned(value));
      Core(h, c) && c.starts == s.starts && c.accepted == s.accepted && (u in c.dropped || Ahead(c, v, u))
  {
    var k := Advance(h, s.running.value);
    RequeuedLast(s.(running := None), k, v, a);
    ConcludeKeeps(h, s, Returned(value));
    if IsCancelled(s, k) { assert Conclude(h, s, Returned(value)).dropped == s.dropped + [u]; }
  }

  /**
   * Sessions take turns: between two chunks of an interactive embed, everybody who waited in the
   * interactive lane when the first of them ended has begun a step or was dropped.
   */
  lemma {:induction false} ChunksTakeTurns(h: Handlers, s: Server, value: string, es: seq<Event>, v: nat, a: nat,
                                           u: nat, i: nat)
    requires Inv(h, s) && Waits(s, v, a) && InterimStep(h, s, u)
    requires var t := Run(h, Apply(h, s, StepSettled(Returned(value))), es);
      |s.starts| <= i < |t.starts| && t.starts[i] == u
    ensures WentFirst(s, Run(h, Apply(h, s, StepSettled(Returned(value))), es), v, i)
  {
    var c, m := Conclude(h, s, Returned(value)), Apply(h, s, StepSettled(Returned(value)));
    assert m == Next(c);
    InterimEnds(h, s, v, a, u, value);
    ApplyKeeps(h, s, StepSettled(Returned(value)));
    hide Apply, Conclude, Inv, Core, Run, WentFirst, Ahead, TurnKept;
    RunGrows(h, m, es);
    NextLeaves(c);
    if u in c.dropped {
      if m.running.Some? { DroppedDoesNotRun(h, m, u); }
      DroppedNeverStarts(h, m, es, u);
    } else {
      assert Conserved(c) by { assert Core(h, c); }
      LaneDistinct(c);
      assert u != v by { var x: nat, y: nat :| x < y && Waits(c, v, x) && Waits(c, u, y); }
      NextTurn(c, v, u);
      TurnStep(h, c, m, es, v, u, i);
      if Ahead(m, v, u) && i >= |m.starts| {
        WaitersGoFirst(h, m, es, v, u, i);
        WentFirstEarlier(c, m, Run(h, m, es), v, i);
      }
    }
  }

  // ---------------------------------------------------------------- background work

  lemma {:induction false} NextBackground(s: Server)
    requires s.running.None? && forall i | 0 <= i < |s.interactive| :: s.interactive[i].lane.Interactive?
    ensures var t := Next(s); t.running.Some? && t.running.value.lane.Background? ==> t.interactive == []
    decreases |s.interactive| + |s.background|
  {
    if s.interactive != [] {
      var rest := s.(interactive := s.interactive[1..]);
      if !Live(s, s.interactive[0]) { NextBackground(Drop(rest, s.interactive[0])); }
    } else if s.background != [] {
      var rest := s.(background := s.background[1..]);
      if !Live(s, s.background[0]) { NextBackground(Drop(rest, s.background[0])); }
    }
  }

  /** A background step begins only when the interactive lane is empty. */
  lemma {:induction false} BackgroundYields(h: Handlers, s: Server, e: Event)
    requires Inv(h, s)
    ensures var t := Apply(h, s, e);
      t.starts != s.starts && t.running.Some? && t.running.value.lane.Background? ==> t.interactive == []
  {
    if e.Arrived? && e.socket !in s.destroyed && e.request.Submit? {
      var j := Fresh(s, e.socket, e.request.id, e.request.lane, e.request.work);
      EnqueueShape(s, j);
      if s.running.None? { NextBackground(Enqueue(s, j)); }
    } else if e.StepSettled? && s.running.Some? {
      ConcludeKeeps(h, s, e.result);
      hide Conclude;
      NextBackground(Conclude(h, s, e.result));
    }
  }

  predicate IsBackground(accepted: seq<Job>, u: nat) { u < |accepted| && accepted[u].lane.Background? }

  /** No background step began after job `x`, and every background answer came before it. */
  ghost predicate Behind(accepted: seq<Job>, starts: seq<nat>, answers: seq<Answer>, x: nat) {
    && (forall i | 0 <= i < |starts| && IsBackground(accepted, starts[i]) :: starts[i] <= x)
    && (forall i | 0 <= i < |answers| && IsBackground(accepted, answers[i].serial) :: answers[i].serial < x)
  }

  ghost predicate InOrder(accepted: seq<Job>, starts: seq<nat>, answers: seq<Answer>) {
    && (forall i, k | 0 <= i < k < |starts| && IsBackground(accepted, starts[i]) && IsBackground(accepted, starts[k]) ::
          starts[i] <= starts[k])
    && (forall i, k | 0 <= i < k < |answers| && IsBackground(accepted, answers[i].serial)
      && IsBackground(accepted, answers[k].serial) ::
          answers[i].serial < answers[k].serial)
  }

  ghost predicate BehindAll(s: Server, q: seq<Job>) {
    forall i | 0 <= i < |q| :: Behind(s.accepted, s.starts, s.answers, q[i].serial)
  }

  ghost predicate BackgroundHistory(s: Server) {
    && InOrder(s.accepted, s.starts, s.answers)
    && BehindAll(s, s.background)
    && (s.running.Some? && s.running.value.lane.Background? ==> BehindAll(s, [s.running.value]))
    && (forall i | 0 <= i < |s.starts| :: s.starts[i] < |s.accepted|)
  }

  /** A step of `j`, which is behind all earlier background work, leaves later jobs behind. */
  lemma {:induction false} BehindStart(accepted: seq<Job>, starts: seq<nat>, answers: seq<Answer>, j: nat, x: nat)
    requires Behind(accepted, starts, answers, x) && (IsBackground(accepted, j) ==> j <= x)
    ensures Behind(accepted, starts + [j], answers, x)
  {
  }

  lemma {:induction false} ShiftOrder(h: Handlers, s: Server, rest: Server, j: Job)
    requires Tidy(h, s) && BackgroundHistory(s) && s.running.None? && Shifted(s, rest, j)
    ensures BackgroundHistory(Begin(rest, j)) && BackgroundHistory(Drop(rest, j))
  {
    assert Sound(h, s.accepted, j);
    var t := Begin(rest, j);
    assert t.accepted == s.accepted && t.starts == s.starts + [j.serial] && t.answers == s.answers;
    forall i | 0 <= i < |t.background| ensures Behind(t.accepted, t.starts, t.answers, t.background[i].serial) {
      assert Behind(s.accepted, s.starts, s.answers, t.background[i].serial);
      BehindStart(s.accepted, s.starts, s.answers, j.serial, t.background[i].serial);
    }
    if j.lane.Background? {
      assert Behind(s.accepted, s.starts, s.answers, j.serial);
      BehindStart(s.accepted, s.starts, s.answers, j.serial, j.serial);
    }
  }

  lemma {:induction false} CoreTidy(h: Handlers, s: Server)
    requires Core(h, s)
    ensures Tidy(h, s)
  {
  }

  lemma {:induction false} NextOrder(h: Handlers, s: Server)
    requires Core(h, s) && BackgroundHistory(s) && s.running.None?
    ensures BackgroundHistory(Next(s))
    decreases |s.interactive| + |s.background|
  {
    CoreTidy(h, s);
    hide Core, Tidy, BackgroundHistory;
    if s.interactive != [] {
      var j, rest := s.interactive[0], s.(interactive := s.interactive[1..]);
      ShiftKeeps(h, s, rest, j);
      ShiftOrder(h, s, rest, j);
      if !Live(s, j) { NextOrder(h, Drop(rest, j)); }
    } else if s.background != [] {
      var j, rest := s.background[0], s.(background := s.background[1..]);
      ShiftKeeps(h, s, rest, j);
      ShiftOrder(h, s, rest, j);
      if !Live(s, j) { NextOrder(h, Drop(rest, j)); }
    }
  }

  lemma {:induction false} FinishOrder(h: Handlers, s: Server, j: Job, reply: Reply)
    requires Tidy(h, s) && BackgroundHistory(s) && s.running.Some? && j.serial == s.running.value.serial
    ensures BackgroundHistory(Finish(s.(running := None), j, reply))
  {
    var t := Finish(s.(running := None), j, reply);
    var u := s.running.value;
    assert Sound(h, s.accepted, u);
    assert t.accepted == s.accepted && t.starts == s.starts && t.answers == s.answers + [Answer(j.serial, reply)];
    assert t.background == s.background;
    assert u.lane.Background? ==> Behind(s.accepted, s.starts, s.answers, [u][0].serial);
  }

  lemma {:induction false} RequeueOrder(s: Server, j: Job)
    requires BackgroundHistory(s) && s.running.Some? && j.serial == s.running.value.serial
        && j.lane == s.running.value.lane
    ensures BackgroundHistory(Requeue(s.(running := None), j)) && BackgroundHistory(Drop(s.(running := None), j))
  {
    var t := Requeue(s.(running := None), j);
    assert t.accepted == s.accepted && t.starts == s.starts && t.answers == s.answers;
    assert t.background == (if j.lane.Background? then [j] else []) + s.background;
    assert j.lane.Background? ==> Behind(s.accepted, s.starts, s.answers, [s.running.value][0].serial);
  }

  lemma {:induction false} ConcludeOrder(h: Handlers, s: Server, r: Settled)
    requires Tidy(h, s) && BackgroundHistory(s) && s.running.Some?
    ensures BackgroundHistory(Conclude(h, s, r))
  {
    hide Tidy, BackgroundHistory, Finish, Requeue, Drop;
    var j := s.running.value;
    if r.Threw? {
      FinishOrder(h, s, j, Failed(r.error));
    } else if j.work.Whole? {
      FinishOrder(h, s, j, Value(r.value));
    } else {
      var k := Advance(h, j);
      FinishOrder(h, s, k, Vectors(k.vectors));
      RequeueOrder(s, k);
    }
  }

  lemma {:induction false} EnqueueOrder(h: Handlers, s: Server, j: Job)
    requires AnswersRight(h, s) && BackgroundHistory(s) && j.serial == |s.accepted|
    ensures BackgroundHistory(Enqueue(s, j))
  {
    var t := Enqueue(s, j);
    assert forall i | 0 <= i < |s.answers| :: RightAnswer(h, s.accepted, s.answers[i]);
    assert forall u: nat | u < |s.accepted| :: IsBackground(t.accepted, u) == IsBackground(s.accepted, u);
    assert forall x | Behind(s.accepted, s.starts, s.answers, x) :: Behind(t.accepted, s.starts, s.answers, x);
    assert Behind(t.accepted, s.starts, s.answers, j.serial);
    assert t.starts == s.starts && t.answers == s.answers;
    assert t.background == s.background + if j.lane.Background? then [j] else [];
  }

  lemma {:induction false} CancelOrder(s: Server, socket: Socket, target: nat)
    requires BackgroundHistory(s)
    ensures BackgroundHistory(ArriveCancel(s, socket, target))
  {
    var t := ArriveCancel(s, socket, target);
    assert t.accepted == s.accepted && t.starts == s.starts && t.answers == s.answers && t.running == s.running;
    assert t.background == Without(s.background, IndexOf(s.background, socket, target));
  }

  lemma {:induction false} SendOrder(s: Server, socket: Socket, frame: Frame)
    requires BackgroundHistory(s)
    ensures BackgroundHistory(Send(s, socket, frame))
  {
  }

  lemma {:induction false} SubmitOrder(h: Handlers, s: Server, j: Job)
    requires Inv(h, s) && BackgroundHistory(s) && j == Fresh(s, j.socket, j.id, j.lane, j.work)
    ensures var s' := Enqueue(s, j); BackgroundHistory(if s'.running.Some? then s' else Next(s'))
  {
    EnqueueOrder(h, s, j);
    EnqueueConserves(s, j);
    EnqueueTidy(h, s, j);
    assert Core(h, Enqueue(s, j));
    hide Core, BackgroundHistory;
    if s.running.None? { NextOrder(h, Enqueue(s, j)); }
  }

  lemma {:induction false} ApplyOrder(h: Handlers, s: Server, e: Event)
    requires Inv(h, s) && BackgroundHistory(s)
    ensures BackgroundHistory(Apply(h, s, e))
  {
    if e.Arrived? && e.socket !in s.destroyed {
      hide BackgroundHistory;
      match e.request
      case Cancel(_, target) => CancelOrder(s, e.socket, target);
      case Stats(id) => SendOrder(s, e.socket, Final(id, Report));
      case Submit(id, lane, work) => SubmitOrder(h, s, Fresh(s, e.socket, id, lane, work));
    } else if e.StepSettled? && s.running.Some? {
      ConcludeKeeps(h, s, e.result);
      ConcludeOrder(h, s, e.result);
      hide Core, BackgroundHistory, Conclude;
      NextOrder(h, Conclude(h, s, e.result));
    }
  }

  lemma {:induction false} RunOrder(h: Handlers, s: Server, es: seq<Event>)
    requires Inv(h, s) && BackgroundHistory(s)
    ensures BackgroundHistory(Run(h, s, es))
    decreases |es|
  {
    if es != [] {
      ApplyKeeps(h, s, es[0]);
      ApplyOrder(h, s, es[0]);
      hide Apply, Inv, BackgroundHistory;
      RunOrder(h, Apply(h, s, es[0]), es[1..]);
    }
  }

  /**
   * Background jobs run one after another in arrival order: no step of one comes between
   * two steps of another, and they are answered in arrival order.
   */
  lemma {:induction false} BackgroundInOrder(h: Handlers, es: seq<Event>)
    ensures var s := Run(h, IDLE, es); InOrder(s.accepted, s.starts, s.answers)
  {
    IdleInv(h);
    RunOrder(h, IDLE, es);
  }

  // ---------------------------------------------------------------- the queue drains

  /** Steps a job may still need: each takes at least one text off an embed. */
  function Left(j: Job): nat {
    if j.work.Embed? && |j.work.texts| > j.offset then |j.work.texts| - j.offset else 1
  }

  function LaneLoad(q: seq<Job>): nat { if q == [] then 0 else Left(q[0]) + LaneLoad(q[1..]) }

  function Load(s: Server): nat {
    LaneLoad(s.interactive) + LaneLoad(s.background) + if s.running.Some? then Left(s.running.value) else 0
  }

  lemma {:induction false} LoadBack(q: seq<Job>, j: Job)
    ensures LaneLoad(q + [j]) == LaneLoad(q) + Left(j)
  {
    if q == [] {
      assert [j][1..] == [] && [] + [j] == [j];
    } else {
      assert (q + [j])[1..] == q[1..] + [j];
      LoadBack(q[1..], j);
    }
  }

  lemma {:induction false} NextLoad(s: Server)
    requires s.running.None?
    ensures Load(Next(s)) <= Load(s)
    decreases |s.interactive| + |s.background|
  {
    if s.interactive != [] {
      var rest := s.(interactive := s.interactive[1..]);
      if !Live(s, s.interactive[0]) { NextLoad(Drop(rest, s.interactive[0])); }
    } else if s.background != [] {
      var rest := s.(background := s.background[1..]);
      if !Live(s, s.background[0]) { NextLoad(Drop(rest, s.background[0])); }
    }
  }

  lemma {:induction false} ConcludeLoad(h: Handlers, s: Server, r: Settled)
    requires s.running.Some? && (s.running.value.work.Embed? ==> s.running.value.offset <= |s.running.value.work.texts|)
    ensures Load(Conclude(h, s, r)) < Load(s)
  {
    var j := s.running.value;
    if r.Returned? && j.work.Embed? {
      var k := Advance(h, j);
      LoadBack(s.interactive, k);
      assert ([k] + s.background)[1..] == s.background;
    }
  }

  lemma {:induction false} StepLoad(h: Handlers, s: Server, r: Settled)
    requires Inv(h, s)
    ensures var t := Apply(h, s, StepSettled(r)); Load(t) < Load(s) || (t == s && Load(s) == 0)
  {
    if s.running.Some? {
      ConcludeLoad(h, s, r);
      hide Inv, Conclude;
      NextLoad(Conclude(h, s, r));
    }
  }

  /**
   * With no further arrivals the daemon falls idle after at most `Load` steps, each of which
   * may return or throw; every job is then answered or dropped.
   */
  lemma {:induction false} Drains(h: Handlers, s: Server, es: seq<Event>)
    requires Inv(h, s) && |es| >= Load(s)
    requires forall i | 0 <= i < |es| :: es[i].StepSettled?
    ensures var t := Run(h, s, es); t.running.None? && t.interactive == [] && t.background == []
    decreases |es|
  {
    if es != [] {
      RunCons(h, s, es);
      ApplyKeeps(h, s, es[0]);
      StepLoad(h, s, es[0].result);
      hide Apply, Inv, Load, Run;
      Drains(h, Apply(h, s, es[0]), es[1..]);
    }
  }
}
