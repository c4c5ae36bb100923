// What the daemon accepts, told by the requests that arrived: in every run the accepted jobs are
// the submits of the run in order, each in the lane it asked for.
module DaemonRequests {
  import opened Prelude
  import opened Daemon
  import opened DaemonRuns
  import opened DaemonCancels

  /** A request for work as it came on a connection. */
  datatype Submission = Submission(socket: Socket, id: nat, lane: Lane, work: Work)

  /** The submits of a run; a connection in `lost` is not read any more. */
  function Submissions(lost: set<Socket>, es: seq<Event>): seq<Submission>
    decreases |es|
  {
    if es == [] then []
    else
      match es[0]
      case Arrived(c, Submit(id, lane, work)) =>
        (if c in lost then [] else [Submission(c, id, lane, work)]) + Submissions(lost, es[1..])
      case Disconnected(c) => Submissions(lost + {c}, es[1..])
      case _ => Submissions(lost, es[1..])
  }

  /** The job is this submission, numbered and not begun. */
  predicate IsFor(j: Job, serial: nat, x: Submission) {
    j == Job(serial, x.socket, x.id, x.lane, x.work, 0, [])
  }

  /** From number `from` on the accepted jobs are these submissions in order. */
  ghost predicate AsSubmitted(accepted: seq<Job>, from: nat, subs: seq<Submission>) {
    |accepted| == from + |subs| && forall k | 0 <= k < |subs| :: IsFor(accepted[from + k], from + k, subs[k])
  }

  predicate Submits(s: Server, e: Event) { e.Arrived? && e.socket !in s.destroyed && e.request.Submit? }

  /** A submit on a live connection is accepted as a new job with its socket, id, lane and work; nothing else is. */
  lemma {:induction false} ApplyAccepts(h: Handlers, s: Server, e: Event)
    ensures var t := Apply(h, s, e);
      t.accepted == (if Submits(s, e) then
                       s.accepted + [Job(|s.accepted|, e.socket, e.request.id, e.request.lane, e.request.work, 0, [])]
                     else s.accepted)
      && t.destroyed == s.destroyed + if e.Disconnected? then {e.socket} else {}
  {
    if Submits(s, e) {
      var j := Fresh(s, e.socket, e.request.id, e.request.lane, e.request.work);
      EnqueueShape(s, j);
      if s.running.None? { NextLeaves(Enqueue(s, j)); }
    } else if e.StepSettled? && s.running.Some? {
      ConcludeShape(h, s, e.result);
      ConcludeHolds(h, s, e.result);
      hide Conclude;
      NextLeaves(Conclude(h, s, e.result));
    }
  }

  lemma {:induction false} ApplySubmits(h: Handlers, s: Server, e: Event)
    ensures var t := Apply(h, s, e);
      s.accepted <= t.accepted && AsSubmitted(t.accepted, |s.accepted|, Submissions(s.destroyed, [e]))
      && t.destroyed == s.destroyed + if e.Disconnected? then {e.socket} else {}
  {
    ApplyAccepts(h, s, e);
    hide Apply;
    assert [e][1..] == [];
  }

  lemma {:induction false} SubmissionsFirst(lost: set<Socket>, es: seq<Event>)
    requires es != []
    ensures Submissions(lost, es) ==
      Submissions(lost, [es[0]]) + Submissions(lost + (if es[0].Disconnected? then {es[0].socket} else {}), es[1..])
  {
    assert [es[0]][1..] == [];
    assert lost + {} == lost;
  }

  lemma {:induction false} SubmittedTwice(a: seq<Job>, b: seq<Job>, from: nat, x: seq<Submission>, y: seq<Submission>)
    requires a <= b && AsSubmitted(a, from, x) && AsSubmitted(b, |a|, y)
    ensures AsSubmitted(b, from, x + y)
  {
    forall k | 0 <= k < |x + y| ensures IsFor(b[from + k], from + k, (x + y)[k]) {
      if k < |x| {
        assert IsFor(a[from + k], from + k, x[k]);
      } else {
        assert IsFor(b[|a| + (k - |x|)], |a| + (k - |x|), y[k - |x|]);
      }
    }
  }

  /** Over any run: the jobs accepted meanwhile are its submits, in order, with the lane and work of each. */
  lemma {:induction false} AcceptedAsSubmitted(h: Handlers, s: Server, es: seq<Event>)
    ensures var t := Run(h, s, es);
      s.accepted <= t.accepted && AsSubmitted(t.accepted, |s.accepted|, Submissions(s.destroyed, es))
    decreases |es|
  {
    if es != [] {
      var m := Apply(h, s, es[0]);
      RunCons(h, s, es);
      ApplySubmits(h, s, es[0]);
      SubmissionsFirst(s.destroyed, es);
      hide Apply, Run, Submissions, AsSubmitted;
      AcceptedAsSubmitted(h, m, es[1..]);
      SubmittedTwice(m.accepted, Run(h, m, es[1..]).accepted, |s.accepted|,
                   Submissions(s.destroyed, [es[0]]), Submissions(m.destroyed, es[1..]));
    }
  }

  /** Where a submit on a live connection ends up while a step runs: last in the lane it asked for. */
  lemma {:induction false} JoinsItsLane(h: Handlers, s: Server, c: Socket, id: nat, lane: Lane, work: Work)
    requires s.running.Some? && c !in s.destroyed
    ensures var t := Apply(h, s, Arrived(c, Submit(id, lane, work)));
      var j := Job(|s.accepted|, c, id, lane, work, 0, []);
      t.interactive == (if lane == Interactive then s.interactive + [j] else s.interactive)
      && t.background == (if lane == Background then s.background + [j] else s.background)
      && t.running == s.running && t.starts == s.starts && t.accepted == s.accepted + [j]
  {
  }

  /** With nothing to do the daemon begins a submit at once, unless it still holds its id as cancelled. */
  lemma {:induction false} BeginsWhenIdle(h: Handlers, s: Server, c: Socket, id: nat, lane: Lane, work: Work)
    requires Inv(h, s) && s.running.None? && c !in s.destroyed
    ensures var t := Apply(h, s, Arrived(c, Submit(id, lane, work)));
      var j := Job(|s.accepted|, c, id, lane, work, 0, []);
      t.interactive == [] && t.background == []
      && if id in CancelSet(s, c) then t.running == None && t.starts == s.starts && t.dropped == s.dropped + [j.serial]
         else t.running == Some(j) && t.starts == s.starts + [j.serial] && t.dropped == s.dropped
  {
    var j := Fresh(s, c, id, lane, work);
    var m := Enqueue(s, j);
    assert s.interactive == [] && s.background == [];
    hide Inv;
    assert Apply(h, s, Arrived(c, Submit(id, lane, work))) == Next(m);
    var rest := m.(interactive := [], background := []);
    assert Live(m, j) <==> id !in CancelSet(s, c);
    assert Next(m) == if Live(m, j) then Begin(rest, j) else Next(Drop(rest, j));
    assert Next(Drop(rest, j)) == Drop(rest, j);
  }

  /** The job was submitted for this lane. */
  predicate AskedFor(subs: seq<Submission>, u: nat, lane: Lane) { u < |subs| && subs[u].lane == lane }

  lemma {:induction false} WaitingAsAsked(h: Handlers, s: Server, subs: seq<Submission>)
    requires Inv(h, s) && AsSubmitted(s.accepted, 0, subs)
    ensures forall i | 0 <= i < |s.interactive| :: AskedFor(subs, s.interactive[i].serial, Interactive)
    ensures forall i | 0 <= i < |s.background| :: AskedFor(subs, s.background[i].serial, Background)
    ensures s.running.Some? ==> AskedFor(subs, s.running.value.serial, s.running.value.lane)
  {
    forall i | 0 <= i < |s.interactive| ensures AskedFor(subs, s.interactive[i].serial, Interactive) {
      assert Sound(h, s.accepted, s.interactive[i]);
    }
    forall i | 0 <= i < |s.background| ensures AskedFor(subs, s.background[i].serial, Background) {
      assert Sound(h, s.accepted, s.background[i]);
    }
    if s.running.Some? { assert Sound(h, s.accepted, s.running.value); }
  }

  /**
   * Background requests wait: in any run, whenever a step of a job begins that was submitted as
   * background, no job submitted as interactive is waiting anywhere.
   */
  lemma {:induction false} BackgroundWaits(h: Handlers, es: seq<Event>, e: Event)
    ensures var s := Run(h, IDLE, es);
      var t, subs := Apply(h, s, e), Submissions({}, es + [e]);
      |t.starts| > |s.starts| && AskedFor(subs, t.starts[|s.starts|], Background) ==>
        && (forall i | 0 <= i < |t.interactive| :: !AskedFor(subs, t.interactive[i].serial, Interactive))
        && (forall i | 0 <= i < |t.background| :: !AskedFor(subs, t.background[i].serial, Interactive))
  {
    var s := Run(h, IDLE, es);
    var t := Apply(h, s, e);
    IdleInv(h);
    RunKeeps(h, IDLE, es);
    ApplyKeeps(h, s, e);
    ApplyRuns(h, s, e);
    BackgroundYields(h, s, e);
    RunOneMore(h, IDLE, es, e);
    AcceptedAsSubmitted(h, IDLE, es + [e]);
    hide Apply, Run, Inv, AsSubmitted;
    WaitingAsAsked(h, t, Submissions({}, es + [e]));
  }
}
