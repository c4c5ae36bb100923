// Client and daemon together, over one connection `c` with a first-in first-out channel each way,
// while any other clients do what they like.
module DaemonLink {
  // `up` is in flight to the daemon; the frames the daemon has written and the client has not
  // yet taken are `Wire(server, c)[taken..]`.
  import opened Prelude
  import opened Daemon
  import opened DaemonFrames
  import opened DaemonClient

  datatype Link = Link(server: Server, client: Client, up: seq<Request>, taken: nat)

  datatype LinkEvent =
    | Ask(lane: Lane, work: Option<Work>)
    | UpArrives
    | DownArrives
    | QueueTimerFires(id: nat)
    | RunTimerFires(id: nat)
    | CloseSeen
    | Other(event: Event)

  /** An event that cannot happen in this state changes nothing. */
  function Step(h: Handlers, c: Socket, y: Link, e: LinkEvent): Link {
    var cl := y.client;
    match e
    case Ask(lane, work) =>
      if !cl.connected then y
      else y.(client := Issue(cl, work), up := y.up + [RequestFrame(cl.nextId, lane, work)])
    case UpArrives =>
      if y.up == [] then y
      else y.(server := Apply(h, y.server, Arrived(c, y.up[0])), up := y.up[1..])
    case DownArrives =>
      if !cl.connected || y.taken >= |Wire(y.server, c)| then y
      else y.(client := OnResponse(cl, Wire(y.server, c)[y.taken]), taken := y.taken + 1)
    case QueueTimerFires(id) =>
      if id !in cl.pending || cl.pending[id] != QueueTimer then y
      else y.(client := OnQueueTimeout(cl, id), up := y.up + CancelFrames(cl, id))
    case RunTimerFires(id) =>
      if id !in cl.pending || cl.pending[id] != RunTimer then y
      else y.(client := OnStepTimeout(cl, id))
    case CloseSeen => y.(client := OnClose(cl))
    case Other(event) =>
      if event.Arrived? && event.socket == c then y else y.(server := Apply(h, y.server, event))
  }

  function Steps(h: Handlers, c: Socket, y: Link, es: seq<LinkEvent>): Link
    decreases |es|
  {
    if es == [] then y else Steps(h, c, Step(h, c, y, es[0]), es[1..])
  }

  /** A client has just been authenticated on a connection the daemon has not seen before. */
  ghost predicate Attached(h: Handlers, c: Socket, y: Link) {
    && Inv(h, y.server)
    && (forall u: nat | u < |y.server.accepted| :: y.server.accepted[u].socket != c)
    && Wire(y.server, c) == [] && c !in y.server.destroyed
    && (forall id: nat :: (c, id) !in y.server.asked)
    && y.client.pending == map[] && y.client.issued == map[] && y.client.settled == map[] && y.client.connected
    && y.up == [] && y.taken == 0
  }

  /** A request of an open connection is pending and on its way; both timers settle their own promise only. */
  lemma {:induction false} ClientActs(h: Handlers, c: Socket, y: Link, lane: Lane, work: Option<Work>, id: nat)
    ensures y.client.connected ==>
      Step(h, c, y, Ask(lane, work)) ==
        Link(y.server, Issue(y.client, work), y.up + [RequestFrame(y.client.nextId, lane, work)], y.taken)
    ensures id in y.client.pending && y.client.pending[id] == QueueTimer ==>
      Step(h, c, y, QueueTimerFires(id)) ==
        Link(y.server, OnQueueTimeout(y.client, id), y.up + CancelFrames(y.client, id), y.taken)
    ensures id in y.client.pending && y.client.pending[id] == RunTimer ==>
      Step(h, c, y, RunTimerFires(id)) == Link(y.server, OnStepTimeout(y.client, id), y.up, y.taken)
    ensures Step(h, c, y, CloseSeen) == Link(y.server, OnClose(y.client), y.up, y.taken)
  {
  }

  /** The channels are first in, first out: the daemon takes the oldest request, the client the oldest frame. */
  lemma {:induction false} ChannelsDeliver(h: Handlers, c: Socket, y: Link, r: Request, rest: seq<Request>, f: Frame)
    ensures y.up == [r] + rest ==>
      Step(h, c, y, UpArrives) == Link(Apply(h, y.server, Arrived(c, r)), y.client, rest, y.taken)
    ensures y.client.connected && y.taken < |Wire(y.server, c)| && Wire(y.server, c)[y.taken] == f ==>
      Step(h, c, y, DownArrives) == Link(y.server, OnResponse(y.client, f), y.up, y.taken + 1)
  {
  }

  // ---------------------------------------------------------------- the joint invariant

  function TimerFor(p: Phase): Option<Timer> {
    match p
    case Fresh => Some(QueueTimer)
    case Queued => Some(QueueTimer)
    case InStep => Some(RunTimer)
    case _ => None
  }

  ghost predicate UpEntry(c: Socket, y: Link, r: Request) {
    match r
    case Cancel(_, target) => target in y.client.settled
    case Submit(id, _, w) =>
      id in y.client.issued && y.client.issued[id] == Some(w) && FreshFor(c, y.server, c, id)
    case Stats(id) =>
      id in y.client.issued && y.client.issued[id] == None && FreshFor(c, y.server, c, id)
  }

  ghost predicate UpOk(c: Socket, y: Link) {
    && (forall k | 0 <= k < |y.up| :: UpEntry(c, y, y.up[k]))
    && (forall k, l | 0 <= k < l < |y.up| && !y.up[k].Cancel? && !y.up[l].Cancel? :: y.up[k].id != y.up[l].id)
  }

  ghost predicate InUp(y: Link, id: nat) {
    exists k | 0 <= k < |y.up| :: !y.up[k].Cancel? && y.up[k].id == id
  }

  ghost predicate JobsIssued(c: Socket, y: Link) {
    && (forall u: nat | u < |y.server.accepted| && y.server.accepted[u].socket == c ::
          var j := y.server.accepted[u];
          j.id in y.client.issued && y.client.issued[j.id] == Some(j.work))
    && (forall id: nat | id !in y.client.issued :: At(Wire(y.server, c), id).Fresh?)
  }

  ghost predicate CancelsSettled(c: Socket, y: Link) {
    forall id: nat | (c, id) in y.server.asked :: id in y.client.settled
  }

  /** The timer is the one the frames taken so far call for. */
  ghost predicate TimersRead(c: Socket, y: Link) {
    && y.taken <= |Wire(y.server, c)|
    && forall id | id in y.client.pending ::
      TimerFor(At(Wire(y.server, c)[..y.taken], id)) == Some(y.client.pending[id])
  }

  /** A pending request is in flight, or was accepted, or has its report written. */
  ghost predicate Accounted(c: Socket, y: Link) {
    c !in y.server.destroyed ==>
      forall id | id in y.client.pending ::
        InUp(y, id) || HasJob(y.server.accepted, c, id) || At(Wire(y.server, c), id).Ended?
  }

  ghost predicate RightOutcome(h: Handlers, cl: Client, id: nat)
    requires id in cl.settled
  {
    cl.settled[id].Resolved? && cl.settled[id].reply.Vectors? ==>
      id in cl.issued && cl.issued[id].Some? && cl.issued[id].value.Embed?
      && cl.settled[id].reply.vectors == MapEmbed(h, cl.issued[id].value, cl.issued[id].value.texts)
  }

  ghost predicate RightOutcomes(h: Handlers, cl: Client) {
    forall id | id in cl.settled :: RightOutcome(h, cl, id)
  }

  ghost predicate ServerOk(h: Handlers, c: Socket, s: Server) {
    Inv(h, s) && Unique(s.accepted, c) && Good(h, c, s)
  }

  ghost predicate Joint(h: Handlers, c: Socket, y: Link) {
    && ServerOk(h, c, y.server) && Books(y.client)
    && UpOk(c, y) && JobsIssued(c, y) && CancelsSettled(c, y)
    && TimersRead(c, y) && Accounted(c, y) && RightOutcomes(h, y.client)
  }

  lemma {:induction false} AttachedJoint(h: Handlers, c: Socket, y: Link)
    requires Attached(h, c, y)
    ensures Joint(h, c, y)
  {
    assert forall id: nat :: At([], id).Fresh?;
    forall i | 0 <= i < |y.server.interactive| ensures y.server.interactive[i].socket != c {
      assert Sound(h, y.server.accepted, y.server.interactive[i]);
    }
    forall i | 0 <= i < |y.server.background| ensures y.server.background[i].socket != c {
      assert Sound(h, y.server.accepted, y.server.background[i]);
    }
    if y.server.running.Some? { assert Sound(h, y.server.accepted, y.server.running.value); }
  }

  // ---------------------------------------------------------------- phases of prefixes

  lemma {:induction false} PrefixPhase(w: seq<Frame>, k: nat, id: nat)
    requires k <= |w|
    ensures At(w, id).Fresh? ==> At(w[..k], id).Fresh?
    ensures At(w[..k], id).Broken? ==> At(w, id).Broken?
    ensures At(w[..k], id).Ended? ==> At(w, id).Ended? || At(w, id).Broken?
  {
    if k < |w| {
      var v := w[..|w| - 1];
      PrefixPhase(v, k, id);
      assert v[..k] == w[..k];
    } else {
      assert w[..k] == w;
    }
  }

  // ---------------------------------------------------------------- the client's events

  lemma {:induction false} AskKeeps(h: Handlers, c: Socket, y: Link, lane: Lane, work: Option<Work>)
    requires Joint(h, c, y) && y.client.connected
    ensures Joint(h, c, Step(h, c, y, Ask(lane, work)))
  {
    var id := y.client.nextId;
    var y' := Step(h, c, y, Ask(lane, work));
    IssueKeeps(y.client, work);
    assert id !in y.client.issued;
    assert At(Wire(y.server, c), id).Fresh?;
    PrefixPhase(Wire(y.server, c), y.taken, id);
    assert !HasJob(y.server.accepted, c, id);
    forall k | 0 <= k < |y'.up| ensures UpEntry(c, y', y'.up[k]) {
      if k < |y.up| { assert UpEntry(c, y, y.up[k]); }
    }
    forall k | 0 <= k < |y.up| && !y.up[k].Cancel? ensures y.up[k].id != id { assert UpEntry(c, y, y.up[k]); }
    forall i | i in y'.client.pending
      ensures InUp(y', i) || HasJob(y'.server.accepted, c, i) || At(Wire(y'.server, c), i).Ended?
          || c in y.server.destroyed
    {
      if i == id { assert y'.up[|y.up|].id == id; }
      else if InUp(y, i) {
        var k :| 0 <= k < |y.up| && !y.up[k].Cancel? && y.up[k].id == i;
        assert y'.up[k] == y.up[k];
      }
    }
    forall i | i in y'.client.settled ensures RightOutcome(h, y'.client, i) { assert RightOutcome(h, y.client, i); }
  }

  /** The client settles some pending requests and keeps every other timer. */
  lemma {:induction false} LessPending(h: Handlers, c: Socket, y: Link, y': Link, more: seq<Request>)
    requires Joint(h, c, y) && Books(y'.client) && OnlySettlesMore(y.client, y'.client)
    requires y'.server == y.server && y'.taken == y.taken && y'.up == y.up + more
    requires y'.client.issued == y.client.issued
    requires forall id | id in y'.client.pending ::
      id in y.client.pending && y'.client.pending[id] == y.client.pending[id]
    requires forall id | id in y'.client.settled && id !in y.client.settled ::
      !y'.client.settled[id].Resolved?
    requires forall k | 0 <= k < |more| :: more[k].Cancel? && more[k].target in y'.client.settled
    ensures Joint(h, c, y')
  {
    forall k | 0 <= k < |y'.up| ensures UpEntry(c, y', y'.up[k]) {
      if k < |y.up| { assert UpEntry(c, y, y.up[k]); } else { assert y'.up[k] == more[k - |y.up|]; }
    }
    assert forall k | |y.up| <= k < |y'.up| :: y'.up[k] == more[k - |y.up|];
    forall i | i in y'.client.pending && InUp(y, i) ensures InUp(y', i) {
      var k :| 0 <= k < |y.up| && !y.up[k].Cancel? && y.up[k].id == i;
      assert y'.up[k] == y.up[k];
    }
    forall i | i in y'.client.settled ensures RightOutcome(h, y'.client, i) {
      if i in y.client.settled { assert RightOutcome(h, y.client, i); }
    }
  }

  lemma {:induction false} DownTimer(c: Socket, y: Link, id: nat)
    requires y.taken < |Wire(y.server, c)| && NoneBroken(Wire(y.server, c))
    requires TimersRead(c, y)
    ensures var w := Wire(y.server, c);
      var p, q := At(w[..y.taken], id), At(w[..y.taken + 1], id);
      q == (if w[y.taken].id == id then Move(p, w[y.taken]) else p) && !q.Broken?
  {
    var w := Wire(y.server, c);
    AtSnoc(w[..y.taken], w[y.taken], id);
    assert w[..y.taken] + [w[y.taken]] == w[..y.taken + 1];
    PrefixPhase(w, y.taken + 1, id);
  }

  lemma {:induction false} DownKeeps(h: Handlers, c: Socket, y: Link)
    requires Joint(h, c, y) && y.client.connected && y.taken < |Wire(y.server, c)|
    ensures Joint(h, c, Step(h, c, y, DownArrives))
  {
    var w := Wire(y.server, c);
    var f := w[y.taken];
    var y' := Step(h, c, y, DownArrives);
    ResponseKeeps(y.client, f);
    forall id | id in y'.client.pending ensures TimerFor(At(w[..y'.taken], id)) == Some(y'.client.pending[id]) {
      DownTimer(c, y, id);
    }
    assert UpOk(c, y') by {
      forall k | 0 <= k < |y'.up| ensures UpEntry(c, y', y'.up[k]) { assert UpEntry(c, y, y.up[k]); }
    }
    forall i | i in y'.client.pending && InUp(y, i) ensures InUp(y', i) {
      var k :| 0 <= k < |y.up| && !y.up[k].Cancel? && y.up[k].id == i;
      assert y'.up[k] == y.up[k];
    }
    forall i | i in y'.client.settled ensures RightOutcome(h, y'.client, i) {
      if i in y.client.settled {
        assert RightOutcome(h, y.client, i);
      } else {
        assert RightFinal(h, c, y.server.accepted, f);
      }
    }
  }

  lemma {:induction false} ClientKeeps(h: Handlers, c: Socket, y: Link, e: LinkEvent)
    requires Joint(h, c, y) && !e.UpArrives? && !e.Other?
    ensures Joint(h, c, Step(h, c, y, e)) && OnlySettlesMore(y.client, Step(h, c, y, e).client)
  {
    var cl, y' := y.client, Step(h, c, y, e);
    match e
    case Ask(lane, work) =>
      if cl.connected { AskKeeps(h, c, y, lane, work); IssueKeeps(cl, work); }
    case DownArrives =>
      if y' != y { DownKeeps(h, c, y); ResponseKeeps(cl, Wire(y.server, c)[y.taken]); }
    case QueueTimerFires(id) =>
      if y' != y {
        SettleKeeps(cl, id, QueueTimeout);
        LessPending(h, c, y, y', CancelFrames(cl, id));
      }
    case RunTimerFires(id) =>
      if y' != y {
        SettleKeeps(cl, id, StepTimeout);
        assert y'.up == y.up + [];
        LessPending(h, c, y, y', []);
      }
    case CloseSeen =>
      CloseKeeps(cl);
      assert y'.up == y.up + [];
      LessPending(h, c, y, y', []);
  }

  // ---------------------------------------------------------------- the daemon's events

  /** What the daemon may do without hearing from this client. */
  ghost predicate Apart(c: Socket, s: Server, t: Server) {
    && Extends(c, s, t)
    && s.destroyed <= t.destroyed
    && (forall u: nat | |s.accepted| <= u < |t.accepted| :: t.accepted[u].socket != c)
    && (forall id: nat | (c, id) in t.asked :: (c, id) in s.asked)
  }

  lemma {:induction false} ApartJobs(c: Socket, s: Server, t: Server, id: nat)
    requires Apart(c, s, t)
    ensures HasJob(s.accepted, c, id) <==> HasJob(t.accepted, c, id)
  {
    if HasJob(s.accepted, c, id) {
      var u: nat :| u < |s.accepted| && Names(s.accepted[u], c, id);
      assert Names(t.accepted[u], c, id);
    }
    if HasJob(t.accepted, c, id) {
      var u: nat :| u < |t.accepted| && Names(t.accepted[u], c, id);
      assert u < |s.accepted| && Names(s.accepted[u], c, id);
    }
  }

  lemma {:induction false} ApartKeeps(h: Handlers, c: Socket, y: Link, t: Server)
    requires Joint(h, c, y) && ServerOk(h, c, t) && Apart(c, y.server, t)
    ensures Joint(h, c, y.(server := t))
  {
    var s, y' := y.server, y.(server := t);
    forall id: nat ensures HasJob(s.accepted, c, id) <==> HasJob(t.accepted, c, id) { ApartJobs(c, s, t, id); }
    forall k | 0 <= k < |y.up| ensures UpEntry(c, y', y.up[k]) { assert UpEntry(c, y, y.up[k]); }
    forall id: nat | id !in y.client.issued ensures At(Wire(t, c), id).Fresh? {
      assert !HasJob(s.accepted, c, id);
    }
    assert Wire(t, c)[..y.taken] == Wire(s, c)[..y.taken];
    forall id | id in y.client.pending && At(Wire(s, c), id).Ended? ensures At(Wire(t, c), id).Ended? {
      assert Wire(t, c)[..|Wire(s, c)|] == Wire(s, c);
      PrefixPhase(Wire(t, c), |Wire(s, c)|, id);
    }
    forall id | id in y.client.pending && InUp(y, id) ensures InUp(y', id) {
      var k :| 0 <= k < |y.up| && !y.up[k].Cancel? && y.up[k].id == id;
      assert y'.up[k] == y.up[k];
    }
  }

  lemma {:induction false} CancelApart(c: Socket, s: Server, socket: Socket, target: nat)
    requires socket != c && Extends(c, s, ArriveCancel(s, socket, target))
    ensures Apart(c, s, ArriveCancel(s, socket, target)) && ArriveCancel(s, socket, target).accepted == s.accepted
  {
    hide Extends, IndexOf, Picked, Without, Remember;
  }

  lemma {:induction false} OtherCancels(h: Handlers, c: Socket, s: Server, socket: Socket, target: nat)
    requires ServerOk(h, c, s) && socket != c
    ensures ServerOk(h, c, ArriveCancel(s, socket, target)) && Apart(c, s, ArriveCancel(s, socket, target))
  {
    hide Inv, Good, ArriveCancel, Extends, Unique, Apart;
    ArriveKeeps(h, s, socket, Cancel(0, target));
    CancelLine(h, c, s, socket, target);
    CancelApart(c, s, socket, target);
  }

  lemma {:induction false} OtherAsksStats(h: Handlers, c: Socket, s: Server, socket: Socket, id: nat)
    requires ServerOk(h, c, s) && socket != c
    ensures ServerOk(h, c, Send(s, socket, Final(id, Report))) && Apart(c, s, Send(s, socket, Final(id, Report)))
  {
    var t := Send(s, socket, Final(id, Report));
    ArriveKeeps(h, s, socket, Stats(id));
    assert Arrive(s, socket, Stats(id)) == t;
    StatsLine(h, c, s, socket, id);
    OtherWrite(c, s, socket, Final(id, Report));
    hide Inv, Good, Unique, Apart, Send;
  }

  lemma {:induction false} OtherWrite(c: Socket, s: Server, socket: Socket, f: Frame)
    requires socket != c
    ensures Apart(c, s, Send(s, socket, f)) && Send(s, socket, f).accepted == s.accepted
  {
    assert Wire(Send(s, socket, f), c) == Wire(s, c);
  }

  /** The daemon after a request for work: on this client's connection a fresh one. */
  lemma {:induction false} SubmitReceived(h: Handlers, c: Socket, s: Server, socket: Socket, id: nat, lane: Lane,
                                          w: Work)
    requires ServerOk(h, c, s) && FreshFor(c, s, socket, id)
    ensures var t := Arrive(s, socket, Submit(id, lane, w));
      ServerOk(h, c, t) && Extends(c, s, t) && t.accepted == s.accepted + [Daemon.Fresh(s, socket, id, lane, w)]
      && t.asked == s.asked && t.destroyed == s.destroyed
  {
    var j := Daemon.Fresh(s, socket, id, lane, w);
    ArriveKeeps(h, s, socket, Submit(id, lane, w));
    SubmitLine(h, c, s, j);
    ArriveAsks(s, socket, Submit(id, lane, w));
    hide Enqueue, Next, Inv, Good, Unique, Extends;
  }

  lemma {:induction false} OtherArrives(h: Handlers, c: Socket, s: Server, socket: Socket, r: Request)
    requires ServerOk(h, c, s) && socket != c
    ensures ServerOk(h, c, Arrive(s, socket, r)) && Apart(c, s, Arrive(s, socket, r))
  {
    hide ServerOk, ArriveCancel, Send, Enqueue, Next, Extends;
    if r.Cancel? {
      OtherCancels(h, c, s, socket, r.target);
    } else if r.Stats? {
      OtherAsksStats(h, c, s, socket, r.id);
    } else {
      SubmitReceived(h, c, s, socket, r.id, r.lane, r.work);
      hide Arrive;
    }
  }

  lemma {:induction false} ArriveAsks(s: Server, socket: Socket, r: Request)
    requires !r.Cancel?
    ensures Arrive(s, socket, r).asked == s.asked && Arrive(s, socket, r).destroyed == s.destroyed
  {
    if r.Submit? {
      var m := Enqueue(s, Daemon.Fresh(s, socket, r.id, r.lane, r.work));
      if m.running.None? { NextLeaves(m); }
    }
  }

  lemma {:induction false} SettleAsks(h: Handlers, s: Server, r: Settled)
    requires s.running.Some?
    ensures EndStep(h, s, r).asked == s.asked && EndStep(h, s, r).destroyed == s.destroyed
  {
    assert Conclude(h, s, r).asked == s.asked && Conclude(h, s, r).destroyed == s.destroyed;
    hide Conclude;
    NextLeaves(Conclude(h, s, r));
  }

  lemma {:induction false} SettleApart(h: Handlers, c: Socket, s: Server, r: Settled)
    requires ServerOk(h, c, s) && s.running.Some?
    ensures ServerOk(h, c, EndStep(h, s, r)) && Apart(c, s, EndStep(h, s, r))
  {
    SettleLine(h, c, s, r);
    ApplyKeeps(h, s, StepSettled(r));
    assert Apply(h, s, StepSettled(r)) == EndStep(h, s, r);
    SettleAsks(h, s, r);
    hide EndStep, Inv, Good, Unique, Extends;
  }

  lemma {:induction false} OtherLeaves(h: Handlers, c: Socket, s: Server, socket: Socket)
    requires ServerOk(h, c, s)
    ensures var t := Apply(h, s, Disconnected(socket)); ServerOk(h, c, t) && Apart(c, s, t)
  {
    ApplyKeeps(h, s, Disconnected(socket));
    assert Wire(Apply(h, s, Disconnected(socket)), c) == Wire(s, c);
  }

  lemma {:induction false} OtherServer(h: Handlers, c: Socket, s: Server, e: Event)
    requires ServerOk(h, c, s) && !(e.Arrived? && e.socket == c) && Apply(h, s, e) != s
    ensures ServerOk(h, c, Apply(h, s, e)) && Apart(c, s, Apply(h, s, e))
  {
    hide ServerOk, Apart, Arrive, EndStep;
    match e
    case Arrived(socket, r) => OtherArrives(h, c, s, socket, r);
    case StepSettled(r) => SettleApart(h, c, s, r);
    case Disconnected(socket) => OtherLeaves(h, c, s, socket);
  }

  lemma {:induction false} OtherKeeps(h: Handlers, c: Socket, y: Link, e: Event)
    requires Joint(h, c, y) && !(e.Arrived? && e.socket == c)
    ensures Joint(h, c, Step(h, c, y, Other(e)))
  {
    assert ServerOk(h, c, y.server);
    var s, t := y.server, Apply(h, y.server, e);
    assert Step(h, c, y, Other(e)) == y.(server := t);
    hide Joint, Apply, ServerOk, Apart, Step;
    if t == s {
      assert y.(server := s) == y;
    } else {
      OtherServer(h, c, s, e);
      ApartKeeps(h, c, y, t);
    }
  }

  // ---------------------------------------------------------------- this client's frames arrive

  /** A request frame of this client reaches the daemon: `t` is the daemon afterwards, `id` its id. */
  ghost predicate Received(c: Socket, s: Server, t: Server, id: nat) {
    && Wire(s, c) <= Wire(t, c)
    && s.destroyed == t.destroyed && s.asked == t.asked
    && (forall i: nat | i != id :: HasJob(t.accepted, c, i) <==> HasJob(s.accepted, c, i))
    && (forall i: nat | i != id && !HasJob(s.accepted, c, i) :: At(Wire(t, c), i) == At(Wire(s, c), i))
    && (c !in s.destroyed ==> HasJob(t.accepted, c, id) || At(Wire(t, c), id).Ended?)
  }

  lemma {:induction false} UpRest(h: Handlers, c: Socket, y: Link, t: Server)
    requires Joint(h, c, y) && y.up != [] && !y.up[0].Cancel? && ServerOk(h, c, t)
    requires Received(c, y.server, t, y.up[0].id)
    ensures UpOk(c, y.(server := t, up := y.up[1..]))
    ensures forall i | i in y.client.pending && InUp(y, i) && i != y.up[0].id ::
      InUp(y.(server := t, up := y.up[1..]), i)
  {
    var y' := y.(server := t, up := y.up[1..]);
    forall k | 0 <= k < |y'.up| ensures UpEntry(c, y', y'.up[k]) { assert UpEntry(c, y, y.up[k + 1]); }
    forall i | i in y.client.pending && InUp(y, i) && i != y.up[0].id ensures InUp(y', i) {
      var k :| 0 <= k < |y.up| && !y.up[k].Cancel? && y.up[k].id == i;
      assert y'.up[k - 1] == y.up[k];
    }
  }

  lemma {:induction false} ReceivedKeeps(h: Handlers, c: Socket, y: Link, t: Server)
    requires Joint(h, c, y) && y.up != [] && !y.up[0].Cancel? && ServerOk(h, c, t)
    requires Received(c, y.server, t, y.up[0].id)
    requires JobsIssued(c, y.(server := t))
    ensures Joint(h, c, y.(server := t, up := y.up[1..]))
  {
    var s, id := y.server, y.up[0].id;
    var y' := y.(server := t, up := y.up[1..]);
    UpRest(h, c, y, t);
    assert Wire(t, c)[..y.taken] == Wire(s, c)[..y.taken];
    forall i | i in y.client.pending && At(Wire(s, c), i).Ended? ensures At(Wire(t, c), i).Ended? {
      assert Wire(t, c)[..|Wire(s, c)|] == Wire(s, c);
      PrefixPhase(Wire(t, c), |Wire(s, c)|, i);
    }
    assert Accounted(c, y');
  }

  /** One more job of this client: its other ids have the jobs they had. */
  lemma {:induction false} OneMoreJob(accepted: seq<Job>, j: Job, c: Socket, id: nat)
    requires j.socket == c && j.id == id
    ensures HasJob(accepted + [j], c, id)
    ensures forall i: nat | i != id :: HasJob(accepted + [j], c, i) <==> HasJob(accepted, c, i)
  {
    var more := accepted + [j];
    assert Names(more[|accepted|], c, id);
    forall i: nat | i != id ensures HasJob(more, c, i) <==> HasJob(accepted, c, i) {
      if HasJob(accepted, c, i) {
        var u: nat :| u < |accepted| && Names(accepted[u], c, i);
        assert Names(more[u], c, i);
      }
      if HasJob(more, c, i) {
        var u: nat :| u < |more| && Names(more[u], c, i);
        assert Names(accepted[u], c, i);
      }
    }
  }

  lemma {:induction false} SubmitIssued(c: Socket, y: Link, t: Server, j: Job)
    requires JobsIssued(c, y) && Extends(c, y.server, t) && t.accepted == y.server.accepted + [j]
    requires j.socket == c && j.id in y.client.issued && y.client.issued[j.id] == Some(j.work)
    ensures JobsIssued(c, y.(server := t))
  {
    OneMoreJob(y.server.accepted, j, c, j.id);
    forall i: nat | i !in y.client.issued ensures At(Wire(t, c), i).Fresh? {
      assert !HasJob(y.server.accepted, c, i);
    }
  }

  lemma {:induction false} SubmitIsReceived(c: Socket, s: Server, t: Server, j: Job)
    requires Extends(c, s, t) && t.accepted == s.accepted + [j] && j.socket == c
    requires t.asked == s.asked && t.destroyed == s.destroyed
    ensures Received(c, s, t, j.id)
  {
    OneMoreJob(s.accepted, j, c, j.id);
    hide HasJob;
  }

  lemma {:induction false} SubmitArrives(h: Handlers, c: Socket, y: Link, id: nat, lane: Lane, w: Work)
    requires Joint(h, c, y) && y.up != [] && y.up[0] == Submit(id, lane, w) && c !in y.server.destroyed
    ensures Joint(h, c, Step(h, c, y, UpArrives))
  {
    var s, r := y.server, y.up[0];
    var j, t := Daemon.Fresh(s, c, id, lane, w), Arrive(s, c, r);
    assert UpEntry(c, y, r);
    assert Step(h, c, y, UpArrives) == y.(server := t, up := y.up[1..]);
    hide Arrive, ServerOk, JobsIssued, Books, CancelsSettled, TimersRead, Accounted, RightOutcomes;
    hide Step, FreshFor, Received, Extends;
    SubmitReceived(h, c, s, c, id, lane, w);
    SubmitIsReceived(c, s, t, j);
    SubmitIssued(c, y, t, j);
    hide Joint;
    ReceivedKeeps(h, c, y, t);
  }

  /** The daemon after a fresh request of this client for a report. */
  lemma {:induction false} StatsReceived(h: Handlers, c: Socket, s: Server, id: nat)
    requires ServerOk(h, c, s) && FreshFor(c, s, c, id) && c !in s.destroyed
    ensures var t := Arrive(s, c, Stats(id));
      ServerOk(h, c, t) && Received(c, s, t, id) && t.accepted == s.accepted
      && forall i: nat | i != id :: At(Wire(t, c), i) == At(Wire(s, c), i)
  {
    var t := Arrive(s, c, Stats(id));
    ArriveKeeps(h, s, c, Stats(id));
    StatsLine(h, c, s, c, id);
    hide Inv, Good, Unique, HasJob;
    assert Wire(t, c) == Wire(s, c) + [Final(id, Report)];
    AtSnoc(Wire(s, c), Final(id, Report), id);
  }

  lemma {:induction false} StatsIssued(c: Socket, y: Link, t: Server, id: nat)
    requires JobsIssued(c, y) && t.accepted == y.server.accepted && id in y.client.issued
    requires forall i: nat | i != id :: At(Wire(t, c), i) == At(Wire(y.server, c), i)
    ensures JobsIssued(c, y.(server := t))
  {
  }

  lemma {:induction false} StatsArrives(h: Handlers, c: Socket, y: Link, id: nat)
    requires Joint(h, c, y) && y.up != [] && y.up[0] == Stats(id) && c !in y.server.destroyed
    ensures Joint(h, c, Step(h, c, y, UpArrives))
  {
    var s, t := y.server, Arrive(y.server, c, y.up[0]);
    assert UpEntry(c, y, y.up[0]);
    assert Step(h, c, y, UpArrives) == y.(server := t, up := y.up[1..]);
    hide Arrive, ServerOk, JobsIssued, Books, CancelsSettled, TimersRead, Accounted, RightOutcomes;
    hide Step, FreshFor, Received, At;
    StatsReceived(h, c, s, id);
    StatsIssued(c, y, t, id);
    hide Joint;
    ReceivedKeeps(h, c, y, t);
  }

  lemma {:induction false} CancelArrives(h: Handlers, c: Socket, y: Link, id: nat, target: nat)
    requires Joint(h, c, y) && y.up != [] && y.up[0] == Cancel(id, target) && c !in y.server.destroyed
    ensures Joint(h, c, Step(h, c, y, UpArrives))
  {
    var s := y.server;
    assert UpEntry(c, y, y.up[0]);
    var t := ArriveCancel(s, c, target);
    ArriveKeeps(h, s, c, y.up[0]);
    CancelLine(h, c, s, c, target);
    assert t.accepted == s.accepted && t.asked == s.asked + {(c, target)} && t.destroyed == s.destroyed
      && Wire(t, c) == Wire(s, c);
    hide Inv, Good, ArriveCancel;
    SameView(h, c, y, t);
  }

  /** Nothing this client can observe changed but the head of its channel. */
  lemma {:induction false} SameView(h: Handlers, c: Socket, y: Link, t: Server)
    requires Joint(h, c, y) && y.up != [] && ServerOk(h, c, t)
    requires t.accepted == y.server.accepted && t.destroyed == y.server.destroyed && Wire(t, c) == Wire(y.server, c)
    requires y.up[0].Cancel? || c in t.destroyed
    requires forall id: nat | (c, id) in t.asked :: id in y.client.settled
    ensures Joint(h, c, y.(server := t, up := y.up[1..]))
  {
    hide ServerOk, Books, RightOutcomes, At, HasJob;
    DropFirst(c, y, t);
    hide UpOk, InUp;
    var y' := y.(server := t, up := y.up[1..]);
    assert JobsIssued(c, y');
    assert TimersRead(c, y');
    assert Accounted(c, y');
  }

  /** The head of the channel is gone and the daemon's view of this connection is as before. */
  lemma {:induction false} DropFirst(c: Socket, y: Link, t: Server)
    requires y.up != [] && UpOk(c, y)
    requires t.accepted == y.server.accepted && Wire(t, c) == Wire(y.server, c)
    ensures var y' := y.(server := t, up := y.up[1..]);
      UpOk(c, y') && forall i: nat | InUp(y, i) && (y.up[0].Cancel? || i != y.up[0].id) :: InUp(y', i)
  {
    var y' := y.(server := t, up := y.up[1..]);
    forall k | 0 <= k < |y'.up| ensures UpEntry(c, y', y'.up[k]) { assert UpEntry(c, y, y.up[k + 1]); }
    forall i: nat | InUp(y, i) && (y.up[0].Cancel? || i != y.up[0].id) ensures InUp(y', i) {
      var k :| 0 <= k < |y.up| && !y.up[k].Cancel? && y.up[k].id == i;
      assert y'.up[k - 1] == y.up[k];
    }
  }

  lemma {:induction false} UpKeeps(h: Handlers, c: Socket, y: Link)
    requires Joint(h, c, y) && y.up != []
    ensures Joint(h, c, Step(h, c, y, UpArrives))
  {
    if c in y.server.destroyed {
      SameView(h, c, y, y.server);
    } else {
      match y.up[0]
      case Cancel(id, target) => CancelArrives(h, c, y, id, target);
      case Stats(id) => StatsArrives(h, c, y, id);
      case Submit(id, lane, w) => SubmitArrives(h, c, y, id, lane, w);
    }
  }

  lemma {:induction false} StepKeeps(h: Handlers, c: Socket, y: Link, e: LinkEvent)
    requires Joint(h, c, y)
    ensures var y' := Step(h, c, y, e); Joint(h, c, y') && OnlySettlesMore(y.client, y'.client)
  {
    if e.UpArrives? {
      if y.up != [] { UpKeeps(h, c, y); }
    } else if e.Other? {
      if !(e.event.Arrived? && e.event.socket == c) { OtherKeeps(h, c, y, e.event); }
    } else {
      ClientKeeps(h, c, y, e);
    }
  }

  lemma {:induction false} StepsKeep(h: Handlers, c: Socket, y: Link, es: seq<LinkEvent>)
    requires Joint(h, c, y)
    ensures var y' := Steps(h, c, y, es); Joint(h, c, y') && OnlySettlesMore(y.client, y'.client)
    decreases |es|
  {
    if es != [] {
      StepKeeps(h, c, y, es[0]);
      hide Step, Joint;
      StepsKeep(h, c, Step(h, c, y, es[0]), es[1..]);
    }
  }

  // ---------------------------------------------------------------- what the two ends agree on

  /** What the client's timer for `id` will be once it has taken the frames still in flight. */
  function Replay(t: Option<Timer>, frames: seq<Frame>, id: nat): Option<Timer>
    decreases |frames|
  {
    if t.None? || frames == [] then t
    else
      var f := frames[0];
      Replay(if f.id != id then t
             else if f.Started? then Some(RunTimer)
             else if f.Requeued? then Some(QueueTimer)
             else None,
             frames[1..], id)
  }

  lemma {:induction false} ReplayReads(w: seq<Frame>, k: nat, id: nat)
    requires k <= |w| && NoneBroken(w)
    ensures Replay(TimerFor(At(w[..k], id)), w[k..], id) == TimerFor(At(w, id))
    decreases |w| - k
  {
    if k == |w| {
      assert w[..k] == w;
    } else {
      AtSnoc(w[..k], w[k], id);
      assert w[..k] + [w[k]] == w[..k + 1] && w[k..][1..] == w[k + 1..] && w[k..][0] == w[k];
      PrefixPhase(w, k + 1, id);
      PrefixPhase(w, k, id);
      if At(w[..k], id).Ended? {
        PrefixPhase(w, k, id);
      }
      ReplayReads(w, k + 1, id);
    }
  }

  /** An accepted job that nobody cancelled, on a live connection, is in a lane, running or answered. */
  lemma {:induction false} JobPlace(h: Handlers, c: Socket, s: Server, id: nat)
    requires ServerOk(h, c, s) && HasJob(s.accepted, c, id) && c !in s.destroyed && (c, id) !in s.asked
    ensures InLane(s, c, id) || IsRunning(s, c, id) || At(Wire(s, c), id).Ended?
  {
    var u: nat :| u < |s.accepted| && Names(s.accepted[u], c, id);
    UptoOnce(|s.accepted|, u);
    assert Places(s)[u] == 1;
    assert u !in s.dropped by { assert !Excused(s, u); }
    if u in multiset(Serials(s.interactive)) {
      var i :| 0 <= i < |s.interactive| && Serials(s.interactive)[i] == u;
      assert Sound(h, s.accepted, s.interactive[i]) && Names(s.interactive[i], c, id);
    } else if u in multiset(Serials(s.background)) {
      var i :| 0 <= i < |s.background| && Serials(s.background)[i] == u;
      assert Sound(h, s.accepted, s.background[i]) && Names(s.background[i], c, id);
    } else if u in RunningBag(s.running) {
      assert Sound(h, s.accepted, s.running.value);
    } else {
      assert u in multiset(AnswerSerials(s.answers));
      var i :| 0 <= i < |s.answers| && AnswerSerials(s.answers)[i] == u;
      assert s.answers[i].serial == u;
    }
  }

  /**
   * The two ends agree. In every reachable state, for every pending request of a connection
   * that is up: replaying the frames in flight leaves the run timer exactly when the daemon
   * is running a step of the job, the queue timer exactly when the request or its job still
   * waits, and no timer exactly when the answer is among those frames.
   */
  lemma {:induction false} TimersAgree(h: Handlers, c: Socket, y0: Link, es: seq<LinkEvent>, id: nat)
    requires Attached(h, c, y0)
    requires var y := Steps(h, c, y0, es); id in y.client.pending && c !in y.server.destroyed
    ensures var y := Steps(h, c, y0, es);
      y.taken <= |Wire(y.server, c)|
      && Replay(Some(y.client.pending[id]), Wire(y.server, c)[y.taken..], id)
         == if IsRunning(y.server, c, id) then Some(RunTimer)
            else if InUp(y, id) || InLane(y.server, c, id) then Some(QueueTimer)
            else None
  {
    AttachedJoint(h, c, y0);
    StepsKeep(h, c, y0, es);
    var y := Steps(h, c, y0, es);
    PlaceOfPending(h, c, y, id);
    ReplayReads(Wire(y.server, c), y.taken, id);
  }

  /** A request still in flight has no job yet. */
  lemma {:induction false} PlaceInFlight(h: Handlers, c: Socket, y: Link, id: nat)
    requires Joint(h, c, y) && InUp(y, id)
    ensures TimerFor(At(Wire(y.server, c), id)) == Some(QueueTimer) && !HasJob(y.server.accepted, c, id)
  {
    var k :| 0 <= k < |y.up| && !y.up[k].Cancel? && y.up[k].id == id;
    assert UpEntry(c, y, y.up[k]);
  }

  lemma {:induction false} RunningHasJob(h: Handlers, c: Socket, s: Server, id: nat)
    requires Inv(h, s) && IsRunning(s, c, id)
    ensures HasJob(s.accepted, c, id)
  {
    assert Sound(h, s.accepted, s.running.value);
    assert Names(s.accepted[s.running.value.serial], c, id);
  }

  lemma {:induction false} PlaceOfAccepted(h: Handlers, c: Socket, s: Server, id: nat)
    requires ServerOk(h, c, s) && HasJob(s.accepted, c, id) && c !in s.destroyed && (c, id) !in s.asked
    ensures TimerFor(At(Wire(s, c), id)) ==
      if IsRunning(s, c, id) then Some(RunTimer) else if InLane(s, c, id) then Some(QueueTimer) else None
  {
    JobPlace(h, c, s, id);
    hide Inv;
    if InLane(s, c, id) { assert Waiting(At(Wire(s, c), id)); }
  }

  lemma {:induction false} PlaceOfPending(h: Handlers, c: Socket, y: Link, id: nat)
    requires Joint(h, c, y) && id in y.client.pending && c !in y.server.destroyed
    ensures TimerFor(At(Wire(y.server, c), id))
            == if IsRunning(y.server, c, id) then Some(RunTimer)
               else if InUp(y, id) || InLane(y.server, c, id) then Some(QueueTimer)
               else None
  {
    var s := y.server;
    assert (c, id) !in s.asked;
    if InUp(y, id) {
      PlaceInFlight(h, c, y, id);
      if IsRunning(s, c, id) { RunningHasJob(h, c, s, id); }
    } else if HasJob(s.accepted, c, id) {
      PlaceOfAccepted(h, c, s, id);
    } else {
      assert At(Wire(s, c), id).Ended?;
      assert !InLane(s, c, id) && !IsRunning(s, c, id);
    }
  }

  /** A run timer with nothing in flight for it times a step the daemon is running: never queue time. */
  lemma {:induction false} RunTimerTimesTheStep(h: Handlers, c: Socket, y0: Link, es: seq<LinkEvent>, id: nat)
    requires Attached(h, c, y0)
    requires var y := Steps(h, c, y0, es);
      id in y.client.pending && y.client.pending[id].RunTimer? && c !in y.server.destroyed
      && forall k | y.taken <= k < |Wire(y.server, c)| :: Wire(y.server, c)[k].id != id
    ensures IsRunning(Steps(h, c, y0, es).server, c, id)
  {
    TimersAgree(h, c, y0, es, id);
    var y := Steps(h, c, y0, es);
    ReplayNothing(Some(RunTimer), Wire(y.server, c)[y.taken..], id);
  }

  lemma {:induction false} ReplayNothing(t: Option<Timer>, frames: seq<Frame>, id: nat)
    requires forall k | 0 <= k < |frames| :: frames[k].id != id
    ensures Replay(t, frames, id) == t
    decreases |frames|
  {
    if t.Some? && frames != [] { ReplayNothing(t, frames[1..], id); }
  }

  lemma {:induction false} NothingPending(h: Handlers, c: Socket, y: Link)
    requires Joint(h, c, y)
    requires c !in y.server.destroyed && y.up == [] && y.taken == |Wire(y.server, c)| && y.server.running.None?
    ensures y.client.pending == map[] && y.client.settled.Keys == y.client.issued.Keys
  {
    assert Wire(y.server, c)[..y.taken] == Wire(y.server, c);
    forall id | id in y.client.pending ensures false {
      PlaceOfPending(h, c, y, id);
    }
  }

  /** No promise is lost: with both channels empty and the daemon idle, nothing is pending. */
  lemma {:induction false} NothingLost(h: Handlers, c: Socket, y0: Link, es: seq<LinkEvent>)
    requires Attached(h, c, y0)
    requires var y := Steps(h, c, y0, es);
      c !in y.server.destroyed && y.up == [] && y.taken == |Wire(y.server, c)| && y.server.running.None?
    ensures var cl := Steps(h, c, y0, es).client; cl.pending == map[] && cl.settled.Keys == cl.issued.Keys
  {
    AttachedJoint(h, c, y0);
    StepsKeep(h, c, y0, es);
    NothingPending(h, c, Steps(h, c, y0, es));
  }

  /** Every promise settles at most once, and stays pending until it does. */
  lemma {:induction false} SettledOnce(h: Handlers, c: Socket, y0: Link, es: seq<LinkEvent>, more: seq<LinkEvent>)
    requires Attached(h, c, y0)
    ensures var y := Steps(h, c, y0, es);
      Books(y.client) && OnlySettlesMore(y.client, Steps(h, c, y, more).client)
  {
    AttachedJoint(h, c, y0);
    StepsKeep(h, c, y0, es);
    StepsKeep(h, c, Steps(h, c, y0, es), more);
  }

  /**
   * End to end: when an embed resolves with vectors they are the handler's vectors of the
   * request's own texts in order, whatever chunking and whatever other traffic there was.
   */
  lemma {:induction false} EmbedThroughDaemon(h: Handlers, c: Socket, y0: Link, es: seq<LinkEvent>, id: nat)
    requires Attached(h, c, y0)
    requires id in Steps(h, c, y0, es).client.settled
    ensures RightOutcome(h, Steps(h, c, y0, es).client, id)
    ensures var cl := Steps(h, c, y0, es).client;
      cl.settled[id].Resolved? && cl.settled[id].reply.Vectors? ==>
        id in cl.issued && cl.issued[id].Some? && cl.issued[id].value.Embed?
        && var w, vectors := cl.issued[id].value, cl.settled[id].reply.vectors;
           |vectors| == |w.texts|
           && forall k | 0 <= k < |w.texts| :: vectors[k] == h.embed(w.pooling, w.dimensions, w.texts[k])
  {
    AttachedJoint(h, c, y0);
    StepsKeep(h, c, y0, es);
  }

  /** The frames written for one request are `(started requeued)* started final` so far, or one report. */
  lemma {:induction false} FrameLanguage(h: Handlers, c: Socket, y0: Link, es: seq<LinkEvent>, id: nat)
    requires Attached(h, c, y0)
    ensures Spoken(Trace(Wire(Steps(h, c, y0, es).server, c), id))
  {
    AttachedJoint(h, c, y0);
    StepsKeep(h, c, y0, es);
    PhaseReadsTrace(Wire(Steps(h, c, y0, es).server, c), id);
  }
}
