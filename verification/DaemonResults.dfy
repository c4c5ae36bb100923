// Answers and outcomes are what the job's own step returned or threw, at the daemon and at the client;
// and, from any reachable state of both ends, a computed number of events settles every promise.
module DaemonResults {
  import opened Prelude
  import opened Daemon
  import opened DaemonRuns
  import C = DaemonCancels
  import opened DaemonFrames
  import opened DaemonClient
  import opened DaemonLink

  // ---------------------------------------------------------------- steps and their answers

  /** The job whose step this event ends, and how the step settled. */
  function EndOf(s: Server, e: Event): seq<(nat, Settled)> {
    if e.StepSettled? && s.running.Some? then [(s.running.value.serial, e.result)] else []
  }

  /** Every step that ended in the run, with how it settled. */
  function Settlements(h: Handlers, s: Server, es: seq<Event>): seq<(nat, Settled)>
    decreases |es|
  {
    if es == [] then [] else EndOf(s, es[0]) + Settlements(h, Apply(h, s, es[0]), es[1..])
  }

  function ReplyTo(r: Settled): Reply {
    match r
    case Returned(value) => Value(value)
    case Threw(error) => Failed(error)
  }

  predicate IsWhole(accepted: seq<Job>, u: nat) { u < |accepted| && accepted[u].work.Whole? }

  /** Values and errors answered to jobs from serial `from` on are exactly those their steps ended with. */
  ghost predicate Matches(accepted: seq<Job>, answers: seq<Answer>, log: seq<(nat, Settled)>, from: nat) {
    && (forall i | 0 <= i < |log| :: log[i].0 < |accepted|)
    && (forall u: nat, r: Settled | from <= u ::
          Answer(u, ReplyTo(r)) in answers <==> (u, r) in log && (r.Threw? || IsWhole(accepted, u)))
  }

  ghost predicate Logged(s: Server, log: seq<(nat, Settled)>, from: nat) { Matches(s.accepted, s.answers, log, from) }

  /** What the end of a step adds to the answers. */
  lemma {:induction false} ConcludeAnswers(h: Handlers, s: Server, r: Settled)
    requires s.running.Some?
    ensures var j, a := s.running.value, Conclude(h, s, r).answers;
      if r.Threw? || j.work.Whole? then a == s.answers + [Answer(j.serial, ReplyTo(r))]
      else a == s.answers || a == s.answers + [Answer(j.serial, Vectors(Advance(h, j).vectors))]
  {
  }

  lemma {:induction false} OneMoreMatch(accepted: seq<Job>, answers: seq<Answer>, log: seq<(nat, Settled)>, from: nat,
                                        u: nat, r: Settled, more: seq<Answer>)
    requires Matches(accepted, answers, log, from) && u < |accepted|
    requires if r.Threw? || IsWhole(accepted, u) then more == [Answer(u, ReplyTo(r))]
             else more == [] || exists v :: more == [Answer(u, Vectors(v))]
    ensures Matches(accepted, answers + more, log + [(u, r)], from)
  {
    forall x: nat, y: Settled | from <= x
      ensures Answer(x, ReplyTo(y)) in answers + more
          <==> (x, y) in log + [(u, r)] && (y.Threw? || IsWhole(accepted, x))
    {
      assert Answer(x, ReplyTo(y)) in answers <==> (x, y) in log && (y.Threw? || IsWhole(accepted, x));
      assert (x, y) in log + [(u, r)] <==> (x, y) in log || (x, y) == (u, r);
      assert Answer(x, ReplyTo(y)) in answers + more
        <==> Answer(x, ReplyTo(y)) in answers || Answer(x, ReplyTo(y)) in more;
    }
  }

  lemma {:induction false} ConcludeLogged(h: Handlers, s: Server, r: Settled, log: seq<(nat, Settled)>, from: nat)
    requires Inv(h, s) && s.running.Some? && Logged(s, log, from)
    ensures Logged(Conclude(h, s, r), log + [(s.running.value.serial, r)], from)
  {
    var j, t := s.running.value, Conclude(h, s, r);
    assert Sound(h, s.accepted, j);
    ConcludeAnswers(h, s, r);
    ConcludeAccepts(h, s, r);
    hide Conclude, Inv, Matches, Advance;
    var more := if t.answers == s.answers then [] else [t.answers[|s.answers|]];
    OneMoreMatch(s.accepted, s.answers, log, from, j.serial, r, more);
  }

  lemma {:induction false} EnqueueLogged(h: Handlers, s: Server, j: Job, log: seq<(nat, Settled)>, from: nat)
    requires AnswersRight(h, s) && Logged(s, log, from)
    ensures Logged(Enqueue(s, j), log, from)
  {
    var t := Enqueue(s, j);
    assert t.accepted == s.accepted + [j] && t.answers == s.answers;
    assert forall i | 0 <= i < |s.answers| :: RightAnswer(h, s.accepted, s.answers[i]);
    forall u: nat, r: Settled | from <= u
      ensures Answer(u, ReplyTo(r)) in t.answers <==> (u, r) in log && (r.Threw? || IsWhole(t.accepted, u))
    {
      assert Answer(u, ReplyTo(r)) in s.answers <==> (u, r) in log && (r.Threw? || IsWhole(s.accepted, u));
    }
  }

  lemma {:induction false} ApplyLogged(h: Handlers, s: Server, e: Event, log: seq<(nat, Settled)>, from: nat)
    requires Inv(h, s) && Logged(s, log, from)
    ensures Logged(Apply(h, s, e), log + EndOf(s, e), from)
  {
    if e.StepSettled? && s.running.Some? {
      ConcludeLogged(h, s, e.result, log, from);
      hide Conclude, Matches, Inv;
      NextLeaves(Conclude(h, s, e.result));
    } else {
      assert log + EndOf(s, e) == log;
      if e.Arrived? && e.socket !in s.destroyed && e.request.Submit? {
        var j := Daemon.Fresh(s, e.socket, e.request.id, e.request.lane, e.request.work);
        EnqueueLogged(h, s, j, log, from);
        hide Enqueue, Matches, Inv;
        if s.running.None? { EnqueueShape(s, j); NextLeaves(Enqueue(s, j)); }
      }
    }
  }

  lemma {:induction false} RunLogged(h: Handlers, s: Server, es: seq<Event>, log: seq<(nat, Settled)>, from: nat)
    requires Inv(h, s) && Logged(s, log, from)
    ensures Logged(Run(h, s, es), log + Settlements(h, s, es), from)
    decreases |es|
  {
    if es == [] {
      assert log + [] == log;
    } else {
      var m, now := Apply(h, s, es[0]), EndOf(s, es[0]);
      ApplyLogged(h, s, es[0], log, from);
      ApplyKeeps(h, s, es[0]);
      RunCons(h, s, es);
      hide Apply, Run, Inv, Logged, EndOf;
      RunLogged(h, m, es[1..], log + now, from);
      Reassociate(log, now, Settlements(h, m, es[1..]));
    }
  }

  /**
   * In every run the errors answered are exactly the errors steps threw, and the values answered
   * are exactly what the steps of whole jobs returned, job by job.
   */
  lemma {:induction false} AnswersAreSettlements(h: Handlers, es: seq<Event>, u: nat, r: Settled)
    ensures var s := Run(h, IDLE, es);
      Answer(u, ReplyTo(r)) in s.answers
      <==> (u, r) in Settlements(h, IDLE, es) && (r.Threw? || IsWhole(s.accepted, u))
  {
    IdleInv(h);
    RunLogged(h, IDLE, es, [], 0);
    assert [] + Settlements(h, IDLE, es) == Settlements(h, IDLE, es);
  }

  /** The answer is what the handler made of the job: its own step's value or error, or its texts' vectors. */
  ghost predicate AnswersItsJob(h: Handlers, accepted: seq<Job>, log: seq<(nat, Settled)>, a: Answer) {
    && RightAnswer(h, accepted, a)
    && (!a.reply.Vectors? ==> exists r :: (a.serial, r) in log && a.reply == ReplyTo(r))
    && (accepted[a.serial].work.Whole? ==> !a.reply.Vectors?)
  }

  lemma {:induction false} SettledAnswer(h: Handlers, accepted: seq<Job>, answers: seq<Answer>,
                                         log: seq<(nat, Settled)>, a: Answer)
    requires Matches(accepted, answers, log, 0) && a in answers && RightAnswer(h, accepted, a)
    ensures AnswersItsJob(h, accepted, log, a)
  {
    if !a.reply.Vectors? {
      var r := if a.reply.Value? then Returned(a.reply.value) else Threw(a.reply.error);
      assert a == Answer(a.serial, ReplyTo(r));
    }
  }

  /** Once the daemon is not busy, every job neither cancelled nor disconnected has its one answer, and it is right. */
  lemma {:induction false} IdleMeansAnswered(h: Handlers, es: seq<Event>, u: nat)
    requires var s := Run(h, IDLE, es); u < |s.accepted| && s.running.None? && !Excused(s, u)
    ensures var s := Run(h, IDLE, es);
      exists i | 0 <= i < |s.answers| :: s.answers[i].serial == u
          && AnswersItsJob(h, s.accepted, Settlements(h, IDLE, es), s.answers[i])
          && forall k | 0 <= k < |s.answers| && k != i :: s.answers[k].serial != u
  {
    var s := Run(h, IDLE, es);
    IdleInv(h);
    RunKeeps(h, IDLE, es);
    OnePlace(h, es, u);
    RunLogged(h, IDLE, es, [], 0);
    assert [] + Settlements(h, IDLE, es) == Settlements(h, IDLE, es);
    hide Run, Settlements;
    var i := AnsweredWhere(h, s, u);
    SettledAnswer(h, s.accepted, s.answers, Settlements(h, IDLE, es), s.answers[i]);
  }

  lemma {:induction false} AnsweredWhere(h: Handlers, s: Server, u: nat) returns (i: nat)
    requires Inv(h, s) && u < |s.accepted| && s.running.None? && !Excused(s, u) && Places(s)[u] == 1
    ensures i < |s.answers| && s.answers[i].serial == u && RightAnswer(h, s.accepted, s.answers[i])
  {
    assert Serials([]) == [];
    assert u !in s.dropped;
    assert u in multiset(AnswerSerials(s.answers));
    i :| 0 <= i < |s.answers| && AnswerSerials(s.answers)[i] == u;
  }

  // ---------------------------------------------------------------- from the answer to the wire

  /** A final frame other than a report carries the answer of a job of this connection and id. */
  ghost predicate Delivered(c: Socket, accepted: seq<Job>, answers: seq<Answer>, f: Frame) {
    f.Final? && !f.reply.Report? ==>
      exists u: nat :: u < |accepted| && Names(accepted[u], c, f.id) && Answer(u, f.reply) in answers
  }

  ghost predicate AllDelivered(c: Socket, s: Server) {
    forall k | 0 <= k < |Wire(s, c)| :: Delivered(c, s.accepted, s.answers, Wire(s, c)[k])
  }

  lemma {:induction false} MoreDelivered(c: Socket, s: Server, t: Server)
    requires AllDelivered(c, s) && s.accepted <= t.accepted && s.answers <= t.answers
    requires Wire(s, c) <= Wire(t, c)
    requires forall k | |Wire(s, c)| <= k < |Wire(t, c)| :: Delivered(c, t.accepted, t.answers, Wire(t, c)[k])
    ensures AllDelivered(c, t)
  {
    forall k | 0 <= k < |Wire(t, c)| ensures Delivered(c, t.accepted, t.answers, Wire(t, c)[k]) {
      if k < |Wire(s, c)| {
        var f := Wire(s, c)[k];
        assert Delivered(c, s.accepted, s.answers, f);
        if f.Final? && !f.reply.Report? {
          var u: nat :| u < |s.accepted| && Names(s.accepted[u], c, f.id) && Answer(u, f.reply) in s.answers;
          assert t.accepted[u] == s.accepted[u];
        }
      }
    }
  }

  /** Beginning a step, or going back to a lane, writes no final frame. */
  lemma {:induction false} NoFinal(c: Socket, s: Server, t: Server)
    requires AllDelivered(c, s) && t.accepted == s.accepted && t.answers == s.answers
    requires Wire(t, c) == Wire(s, c)
      || (|Wire(t, c)| == |Wire(s, c)| + 1 && Wire(s, c) <= Wire(t, c)
        && (var f := Wire(t, c)[|Wire(s, c)|]; f.Final? ==> f.reply.Report?))
    ensures AllDelivered(c, t)
  {
    MoreDelivered(c, s, t);
  }

  lemma {:induction false} NextDelivered(c: Socket, s: Server)
    requires s.running.None? && AllDelivered(c, s)
    ensures AllDelivered(c, Next(s)) && Wire(s, c) <= Wire(Next(s), c)
    decreases |s.interactive| + |s.background|
  {
    if s.interactive != [] || s.background != [] {
      var j := if s.interactive != [] then s.interactive[0] else s.background[0];
      var rest := if s.interactive != [] then s.(interactive := s.interactive[1..])
                  else s.(background := s.background[1..]);
      if Live(s, j) {
        NoFinal(c, s, Begin(rest, j));
      } else {
        NoFinal(c, s, Drop(rest, j));
        NextDelivered(c, Drop(rest, j));
      }
    }
  }

  lemma {:induction false} FinishDelivered(c: Socket, s: Server, j: Job, reply: Reply)
    requires AllDelivered(c, s) && j.serial < |s.accepted| && Names(s.accepted[j.serial], j.socket, j.id)
    ensures var t := Finish(s.(running := None), j, reply); AllDelivered(c, t) && Wire(s, c) <= Wire(t, c)
  {
    var t := Finish(s.(running := None), j, reply);
    assert Answer(j.serial, reply) == t.answers[|s.answers|];
    MoreDelivered(c, s, t);
  }

  lemma {:induction false} ConcludeDelivered(h: Handlers, c: Socket, s: Server, r: Settled)
    requires Inv(h, s) && s.running.Some? && AllDelivered(c, s)
    ensures var t := Conclude(h, s, r); AllDelivered(c, t) && Wire(s, c) <= Wire(t, c)
  {
    var j := s.running.value;
    assert Sound(h, s.accepted, j);
    hide Inv, AllDelivered, Finish;
    FinishDelivered(c, s, j, ReplyTo(r));
    if r.Returned? && j.work.Embed? {
      var k := Advance(h, j);
      FinishDelivered(c, s, k, Vectors(k.vectors));
      NoFinal(c, s, Drop(s.(running := None), k));
      NoFinal(c, s, Requeue(s.(running := None), k));
    }
  }

  lemma {:induction false} SubmitDelivered(c: Socket, s: Server, j: Job)
    requires AllDelivered(c, s)
    ensures var m := Enqueue(s, j);
      var t := if m.running.Some? then m else Next(m);
      AllDelivered(c, t) && Wire(s, c) <= Wire(t, c)
  {
    var m := Enqueue(s, j);
    assert m.accepted == s.accepted + [j] && m.answers == s.answers && Wire(m, c) == Wire(s, c);
    MoreDelivered(c, s, m);
    hide AllDelivered, Enqueue;
    if m.running.None? { NextDelivered(c, m); }
  }

  lemma {:induction false} CancelDelivered(c: Socket, s: Server, socket: Socket, target: nat)
    requires AllDelivered(c, s)
    ensures var t := ArriveCancel(s, socket, target); AllDelivered(c, t) && Wire(t, c) == Wire(s, c)
  {
    var t := ArriveCancel(s, socket, target);
    assert t.accepted == s.accepted && t.answers == s.answers && Wire(t, c) == Wire(s, c);
    hide ArriveCancel;
    NoFinal(c, s, t);
  }

  lemma {:induction false} ApplyDelivered(h: Handlers, c: Socket, s: Server, e: Event)
    requires Inv(h, s) && AllDelivered(c, s)
    ensures AllDelivered(c, Apply(h, s, e)) && Wire(s, c) <= Wire(Apply(h, s, e), c)
  {
    hide Inv, AllDelivered;
    if e.StepSettled? && s.running.Some? {
      ConcludeDelivered(h, c, s, e.result);
      hide Conclude;
      NextDelivered(c, Conclude(h, s, e.result));
    } else if e.Arrived? && e.socket !in s.destroyed {
      hide Enqueue, ArriveCancel;
      match e.request
      case Submit(id, lane, work) => SubmitDelivered(c, s, Daemon.Fresh(s, e.socket, id, lane, work));
      case Cancel(_, target) => CancelDelivered(c, s, e.socket, target);
      case Stats(id) => NoFinal(c, s, Send(s, e.socket, Final(id, Report)));
    } else {
      NoFinal(c, s, Apply(h, s, e));
    }
  }

  // ---------------------------------------------------------------- from the wire to the promise

  /** What the daemon takes from one event of the joint system. */
  function AtServer(c: Socket, y: Link, e: LinkEvent): Option<Event> {
    match e
    case UpArrives => if y.up == [] then None else Some(Arrived(c, y.up[0]))
    case Other(event) => if event.Arrived? && event.socket == c then None else Some(event)
    case _ => None
  }

  lemma {:induction false} ServerStep(h: Handlers, c: Socket, y: Link, e: LinkEvent)
    ensures var x := AtServer(c, y, e);
      Step(h, c, y, e).server == if x.Some? then Apply(h, y.server, x.value) else y.server
  {
  }

  /** Every step the daemon ended in a run of both ends. */
  function LinkSettlements(h: Handlers, c: Socket, y: Link, es: seq<LinkEvent>): seq<(nat, Settled)>
    decreases |es|
  {
    if es == [] then []
    else
      var x := AtServer(c, y, es[0]);
      (if x.Some? then EndOf(y.server, x.value) else []) + LinkSettlements(h, c, Step(h, c, y, es[0]), es[1..])
  }

  /** An outcome that is a result or a remote error came in a final frame the client has taken. */
  ghost predicate Heard(w: seq<Frame>, id: nat, outcome: Outcome) {
    outcome.Resolved? || outcome.RemoteError? ==>
      exists k :: 0 <= k < |w| && w[k].Final? && w[k].id == id && OutcomeOf(w[k].reply) == outcome
  }

  ghost predicate AllHeard(c: Socket, y: Link) {
    y.taken <= |Wire(y.server, c)|
    && forall id | id in y.client.settled :: Heard(Wire(y.server, c)[..y.taken], id, y.client.settled[id])
  }

  lemma {:induction false} HeardMore(w: seq<Frame>, v: seq<Frame>, id: nat, outcome: Outcome)
    requires w <= v && Heard(w, id, outcome)
    ensures Heard(v, id, outcome)
  {
    if outcome.Resolved? || outcome.RemoteError? {
      var k :| 0 <= k < |w| && w[k].Final? && w[k].id == id && OutcomeOf(w[k].reply) == outcome;
      assert v[k] == w[k];
    }
  }

  lemma {:induction false} StepHeard(h: Handlers, c: Socket, y: Link, e: LinkEvent)
    requires AllHeard(c, y) && Wire(y.server, c) <= Wire(Step(h, c, y, e).server, c)
    ensures AllHeard(c, Step(h, c, y, e))
  {
    var y' := Step(h, c, y, e);
    var w, v := Wire(y.server, c)[..y.taken], Wire(y'.server, c)[..y'.taken];
    if e.DownArrives? && y' != y {
      var f := Wire(y.server, c)[y.taken];
      assert v == w + [f];
      forall id | id in y'.client.settled ensures Heard(v, id, y'.client.settled[id]) {
        if id in y.client.settled && y'.client.settled[id] == y.client.settled[id] {
          HeardMore(w, v, id, y.client.settled[id]);
        } else {
          assert v[|w|] == f;
        }
      }
    } else {
      assert v == w;
      forall id | id in y'.client.settled ensures Heard(v, id, y'.client.settled[id]) {
        if id in y.client.settled && y'.client.settled[id] == y.client.settled[id] {
          assert Heard(w, id, y.client.settled[id]);
        }
      }
    }
  }

  ghost predicate ServerTraced(h: Handlers, c: Socket, s: Server, log: seq<(nat, Settled)>, from: nat) {
    && Inv(h, s) && Logged(s, log, from) && AllDelivered(c, s)
    && from <= |s.accepted| && forall u: nat | u < from :: s.accepted[u].socket != c
  }

  ghost predicate Traced(h: Handlers, c: Socket, y: Link, log: seq<(nat, Settled)>, from: nat) {
    Joint(h, c, y) && ServerTraced(h, c, y.server, log, from) && AllHeard(c, y)
  }

  lemma {:induction false} ApplyTraced(h: Handlers, c: Socket, s: Server, e: Event, log: seq<(nat, Settled)>, from: nat)
    requires ServerTraced(h, c, s, log, from)
    ensures var t := Apply(h, s, e); ServerTraced(h, c, t, log + EndOf(s, e), from) && Wire(s, c) <= Wire(t, c)
  {
    ApplyKeeps(h, s, e);
    ApplyDelivered(h, c, s, e);
    ApplyLogged(h, s, e, log, from);
    ApplyGrows(h, s, e);
    hide Apply, Inv, Logged, AllDelivered;
  }

  lemma {:induction false} StepTraced(h: Handlers, c: Socket, y: Link, e: LinkEvent, log: seq<(nat, Settled)>,
                                      from: nat)
    requires Traced(h, c, y, log, from)
    ensures var x := AtServer(c, y, e);
      Traced(h, c, Step(h, c, y, e), log + (if x.Some? then EndOf(y.server, x.value) else []), from)
  {
    hide Step, Joint, AllHeard, ServerTraced, AtServer, Apply, EndOf;
    var x := AtServer(c, y, e);
    ServerStep(h, c, y, e);
    StepKeeps(h, c, y, e);
    if x.Some? {
      ApplyTraced(h, c, y.server, x.value, log, from);
    } else {
      assert log + [] == log;
    }
    StepHeard(h, c, y, e);
  }

  lemma {:induction false} StepsTraced(h: Handlers, c: Socket, y: Link, es: seq<LinkEvent>, log: seq<(nat, Settled)>,
                                       from: nat)
    requires Traced(h, c, y, log, from)
    ensures Traced(h, c, Steps(h, c, y, es), log + LinkSettlements(h, c, y, es), from)
    decreases |es|
  {
    if es == [] {
      assert log + [] == log;
    } else {
      var x, m := AtServer(c, y, es[0]), Step(h, c, y, es[0]);
      var now := if x.Some? then EndOf(y.server, x.value) else [];
      StepTraced(h, c, y, es[0], log, from);
      hide Step, Traced, EndOf, AtServer;
      StepsTraced(h, c, m, es[1..], log + now, from);
      Reassociate(log, now, LinkSettlements(h, c, m, es[1..]));
    }
  }

  /** How the job's step settled, if the promise settled with a value or a remote error. */
  function SettledAs(o: Outcome): Option<Settled> {
    match o
    case Resolved(Value(value)) => Some(Returned(value))
    case RemoteError(error) => Some(Threw(error))
    case _ => None
  }

  /**
   * End to end for every operation: a value or a remote error a promise settles with is what a
   * step of its own job, with its own work, returned or threw at the daemon.
   */
  lemma {:induction false} OutcomeIsTheSteps(h: Handlers, c: Socket, y0: Link, es: seq<LinkEvent>, id: nat)
    requires Attached(h, c, y0)
    requires var cl := Steps(h, c, y0, es).client; id in cl.settled && SettledAs(cl.settled[id]).Some?
    ensures var y := Steps(h, c, y0, es);
      id in y.client.issued
      && exists u: nat :: u < |y.server.accepted| && Names(y.server.accepted[u], c, id)
           && y.client.issued[id] == Some(y.server.accepted[u].work)
           && (u, SettledAs(y.client.settled[id]).value) in LinkSettlements(h, c, y0, es)
  {
    var from := |y0.server.accepted|;
    var y, log := Steps(h, c, y0, es), LinkSettlements(h, c, y0, es);
    AttachedJoint(h, c, y0);
    AttachedTraced(h, c, y0);
    StepsTraced(h, c, y0, es, [], from);
    assert [] + log == log;
    hide Steps, LinkSettlements;
    var u := WhoseOutcome(h, c, y, log, from, id);
  }

  lemma {:induction false} AttachedTraced(h: Handlers, c: Socket, y: Link)
    requires Attached(h, c, y) && Joint(h, c, y)
    ensures Traced(h, c, y, [], |y.server.accepted|)
  {
    assert forall i | 0 <= i < |y.server.answers| :: RightAnswer(h, y.server.accepted, y.server.answers[i]);
  }

  lemma {:induction false} WhoseOutcome(h: Handlers, c: Socket, y: Link, log: seq<(nat, Settled)>, from: nat,
                                        id: nat) returns (u: nat)
    requires Traced(h, c, y, log, from) && id in y.client.settled && SettledAs(y.client.settled[id]).Some?
    ensures id in y.client.issued && u < |y.server.accepted| && Names(y.server.accepted[u], c, id)
    ensures y.client.issued[id] == Some(y.server.accepted[u].work)
    ensures (u, SettledAs(y.client.settled[id]).value) in log
  {
    var w, o := Wire(y.server, c), y.client.settled[id];
    assert Heard(w[..y.taken], id, o);
    var k :| 0 <= k < y.taken && w[..y.taken][k].Final? && w[..y.taken][k].id == id
      && OutcomeOf(w[..y.taken][k].reply) == o;
    var f := w[k];
    assert Delivered(c, y.server.accepted, y.server.answers, f);
    u :| u < |y.server.accepted| && Names(y.server.accepted[u], c, id) && Answer(u, f.reply) in y.server.answers;
    assert f.reply == ReplyTo(SettledAs(o).value);
  }

  // ---------------------------------------------------------------- every promise settles

  function Repeated<T>(x: T, n: nat): (r: seq<T>)
    ensures |r| == n
  {
    if n == 0 then [] else [x] + Repeated(x, n - 1)
  }

  /** Steps ending one after the other, each in its own way. */
  function Ends(results: seq<Settled>): (r: seq<Event>)
    ensures |r| == |results| && forall i | 0 <= i < |r| :: r[i] == StepSettled(results[i])
  {
    seq(|results|, i requires 0 <= i < |results| => StepSettled(results[i]))
  }

  function EndsHere(results: seq<Settled>): (r: seq<LinkEvent>)
    ensures |r| == |results| && forall i | 0 <= i < |r| :: r[i] == Other(StepSettled(results[i]))
  {
    seq(|results|, i requires 0 <= i < |results| => Other(StepSettled(results[i])))
  }

  /** All requests in flight arrive; the daemon settles steps; the frames in flight are taken. */
  function Flush(up: nat, results: seq<Settled>, down: nat): seq<LinkEvent> {
    Repeated(UpArrives, up) + (EndsHere(results) + Repeated(DownArrives, down))
  }

  lemma {:induction false} StepsAppend(h: Handlers, c: Socket, y: Link, a: seq<LinkEvent>, b: seq<LinkEvent>)
    ensures Steps(h, c, y, a + b) == Steps(h, c, Steps(h, c, y, a), b)
    decreases |a|
  {
    if a == [] {
      assert a + b == b;
    } else {
      assert (a + b)[1..] == a[1..] + b;
      StepsAppend(h, c, Step(h, c, y, a[0]), a[1..], b);
    }
  }

  lemma {:induction false} StepsCons(h: Handlers, c: Socket, y: Link, e: LinkEvent, n: nat)
    requires n > 0
    ensures Steps(h, c, y, Repeated(e, n)) == Steps(h, c, Step(h, c, y, e), Repeated(e, n - 1))
  {
    hide Step;
    assert Repeated(e, n)[1..] == Repeated(e, n - 1);
  }

  /** Requests arrive, nothing is lost and nothing taken. */
  lemma {:induction false} UpEmpties(h: Handlers, c: Socket, y: Link)
    requires c !in y.server.destroyed
    ensures var t := Steps(h, c, y, Repeated(UpArrives, |y.up|));
      t.up == [] && c !in t.server.destroyed && t.client == y.client
    decreases |y.up|
  {
    if y.up != [] {
      StepsCons(h, c, y, UpArrives, |y.up|);
      C.ApplyHolds(h, y.server, Arrived(c, y.up[0]), c);
      hide Apply, Steps;
      UpEmpties(h, c, Step(h, c, y, UpArrives));
    }
  }

  lemma {:induction false} EndsAreRun(h: Handlers, c: Socket, y: Link, results: seq<Settled>)
    ensures Steps(h, c, y, EndsHere(results)) == y.(server := Run(h, y.server, Ends(results)))
    decreases |results|
  {
    if results != [] {
      assert EndsHere(results)[1..] == EndsHere(results[1..]) && Ends(results)[1..] == Ends(results[1..]);
      RunCons(h, y.server, Ends(results));
      hide Apply, Run;
      EndsAreRun(h, c, Step(h, c, y, Other(StepSettled(results[0]))), results[1..]);
    }
  }

  lemma {:induction false} EndsKeepConnection(h: Handlers, s: Server, results: seq<Settled>, c: Socket)
    ensures c in Run(h, s, Ends(results)).destroyed <==> c in s.destroyed
  {
    C.HoldsTheFold(h, s, Ends(results), c);
  }

  lemma {:induction false} DownEmpties(h: Handlers, c: Socket, y: Link, n: nat)
    requires y.client.connected && y.taken <= |Wire(y.server, c)| <= y.taken + n
    ensures var t := Steps(h, c, y, Repeated(DownArrives, n));
      t.taken == |Wire(t.server, c)| && t.server == y.server && t.up == y.up
    decreases n
  {
    if n > 0 {
      StepsCons(h, c, y, DownArrives, n);
      hide Steps;
      DownEmpties(h, c, Step(h, c, y, DownArrives), n - 1);
    }
  }

  /** When the requests in flight have arrived, this is the daemon's state, and its load bounds its steps. */
  function AllArrived(h: Handlers, c: Socket, y: Link): Server { Steps(h, c, y, Repeated(UpArrives, |y.up|)).server }

  /** From any state both ends can be in, with the connection up: arrivals, enough steps, and the frames settle all. */
  lemma {:induction false} FlushSettles(h: Handlers, c: Socket, y: Link, results: seq<Settled>, down: nat)
    requires Joint(h, c, y) && y.client.connected && c !in y.server.destroyed
    requires var s := AllArrived(h, c, y);
      |results| >= Load(s) && y.taken + down >= |Wire(Run(h, s, Ends(results)), c)|
    ensures var t := Steps(h, c, y, Flush(|y.up|, results, down));
      Joint(h, c, t) && t.client.pending == map[] && t.client.settled.Keys == t.client.issued.Keys
  {
    var a := Steps(h, c, y, Repeated(UpArrives, |y.up|));
    var b := Steps(h, c, a, EndsHere(results));
    var t := Steps(h, c, b, Repeated(DownArrives, down));
    StepsAppend(h, c, y, Repeated(UpArrives, |y.up|), EndsHere(results) + Repeated(DownArrives, down));
    StepsAppend(h, c, a, EndsHere(results), Repeated(DownArrives, down));
    UpEmpties(h, c, y);
    UpsTakeNothing(h, c, y, |y.up|);
    StepsKeep(h, c, y, Repeated(UpArrives, |y.up|));
    StepsKeep(h, c, a, EndsHere(results));
    EndsAreRun(h, c, a, results);
    EndsKeepConnection(h, a.server, results, c);
    assert Inv(h, a.server) by { assert Joint(h, c, a); }
    assert b.taken <= |Wire(b.server, c)| by { assert Joint(h, c, b); }
    hide Steps, Joint, Inv, Run, Load;
    Drains(h, a.server, Ends(results));
    DownEmpties(h, c, b, down);
    StepsKeep(h, c, b, Repeated(DownArrives, down));
    NothingPending(h, c, t);
  }

  lemma {:induction false} UpsTakeNothing(h: Handlers, c: Socket, y: Link, n: nat)
    ensures Steps(h, c, y, Repeated(UpArrives, n)).taken == y.taken
    decreases n
  {
    if n > 0 {
      StepsCons(h, c, y, UpArrives, n);
      hide Apply, Steps;
      UpsTakeNothing(h, c, Step(h, c, y, UpArrives), n - 1);
    }
  }

  /**
   * Progress of both ends: from every reachable state with the connection up, once the requests in
   * flight have arrived, as many steps as the daemon's load have ended in any way, and the frames
   * have been taken, every promise ever made is settled.
   */
  lemma {:induction false} EveryPromiseSettles(h: Handlers, c: Socket, y0: Link, es: seq<LinkEvent>,
                                               results: seq<Settled>, down: nat)
    requires Attached(h, c, y0)
    requires var y := Steps(h, c, y0, es);
      y.client.connected && c !in y.server.destroyed
      && var s := AllArrived(h, c, y);
         |results| >= Load(s) && y.taken + down >= |Wire(Run(h, s, Ends(results)), c)|
    ensures var y := Steps(h, c, y0, es);
      var cl := Steps(h, c, y0, es + Flush(|y.up|, results, down)).client;
      cl.pending == map[] && cl.settled.Keys == cl.issued.Keys
  {
    var y := Steps(h, c, y0, es);
    AttachedJoint(h, c, y0);
    StepsKeep(h, c, y0, es);
    StepsAppend(h, c, y0, es, Flush(|y.up|, results, down));
    hide Steps, Joint, Run, Load, Flush;
    FlushSettles(h, c, y, results, down);
  }
}
