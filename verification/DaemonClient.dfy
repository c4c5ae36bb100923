/**
 * The client half (src/core/model-daemon-client.ts): the map of pending requests, each with
 * the one timer that `started` and `requeued` frames flip, and the five ways a promise is
 * settled. `issued` and `settled` record history; no branch reads them.
 */
module DaemonClient {
  import opened Prelude
  import opened Daemon

  datatype Timer = QueueTimer | RunTimer

  datatype Outcome = Resolved(reply: Reply) | RemoteError(error: string) | QueueTimeout | StepTimeout | ConnectionLost

  datatype Client = Client(
    pending: map<nat, Timer>,
    nextId: nat,
    connected: bool,
    issued: map<nat, Option<Work>>,
    settled: map<nat, Outcome>)

  function Settle(cl: Client, id: nat, outcome: Outcome): Client {
    cl.(pending := cl.pending - {id}, settled := cl.settled[id := outcome])
  }

  /** A request for `work`, or for the daemon's statistics, on the open connection. */
  function Issue(cl: Client, work: Option<Work>): Client {
    cl.(pending := cl.pending[cl.nextId := QueueTimer],
        issued := cl.issued[cl.nextId := work],
        nextId := cl.nextId + 1)
  }

  function RequestFrame(id: nat, lane: Lane, work: Option<Work>): Request {
    match work
    case Some(w) => Submit(id, lane, w)
    case None => Stats(id)
  }

  function OutcomeOf(reply: Reply): Outcome {
    if reply.Failed? then RemoteError(reply.error) else Resolved(reply)
  }

  function OnResponse(cl: Client, f: Frame): Client {
    if f.id !in cl.pending then cl
    else match f
      case Started(id) => cl.(pending := cl.pending[id := RunTimer])
      case Requeued(id) => cl.(pending := cl.pending[id := QueueTimer])
      case Final(id, reply) => Settle(cl, id, OutcomeOf(reply))
  }

  /** The queue timer fires: this request fails, and the daemon is told to drop the job. */
  function OnQueueTimeout(cl: Client, id: nat): Client {
    var cl' := Settle(cl, id, QueueTimeout);
    if cl.connected then cl'.(nextId := cl.nextId + 1) else cl'
  }

  function CancelFrames(cl: Client, id: nat): seq<Request> {
    if cl.connected then [Cancel(cl.nextId, id)] else []
  }

  /** The run timer fires: the daemon is stuck, the connection is dropped. */
  function OnStepTimeout(cl: Client, id: nat): Client {
    Settle(cl, id, StepTimeout).(connected := false)
  }

  function OnClose(cl: Client): Client {
    cl.(pending := map[], connected := false,
        settled := cl.settled + map id | id in cl.pending :: ConnectionLost)
  }

  /** Every request issued is pending or settled, and not both. */
  ghost predicate Books(cl: Client) {
    && cl.pending.Keys !! cl.settled.Keys
    && cl.issued.Keys == cl.pending.Keys + cl.settled.Keys
    && forall id | id in cl.issued :: id < cl.nextId
  }

  /** No settled promise is settled again. */
  ghost predicate OnlySettlesMore(a: Client, b: Client) {
    forall id | id in a.settled :: id in b.settled && b.settled[id] == a.settled[id]
  }

  lemma IssueKeeps(cl: Client, work: Option<Work>)
    requires Books(cl)
    ensures Books(Issue(cl, work)) && OnlySettlesMore(cl, Issue(cl, work)) && cl.nextId !in cl.issued
  {
  }

  lemma SettleKeeps(cl: Client, id: nat, outcome: Outcome)
    requires Books(cl) && id in cl.pending
    ensures Books(Settle(cl, id, outcome)) && OnlySettlesMore(cl, Settle(cl, id, outcome))
  {
  }

  lemma ResponseKeeps(cl: Client, f: Frame)
    requires Books(cl)
    ensures Books(OnResponse(cl, f)) && OnlySettlesMore(cl, OnResponse(cl, f))
  {
    if f.id in cl.pending && f.Final? { SettleKeeps(cl, f.id, OutcomeOf(f.reply)); }
  }

  lemma CloseKeeps(cl: Client)
    requires Books(cl)
    ensures Books(OnClose(cl)) && OnlySettlesMore(cl, OnClose(cl))
  {
  }

  // ---------------------------------------------------------------- what settles a promise, and how

  /** The promises in `ids` are settled with this outcome; every other one is as it was. */
  ghost predicate SettlesJust(a: Client, b: Client, ids: set<nat>, outcome: Outcome) {
    && (forall id: nat :: id in b.pending <==> id in a.pending && id !in ids)
    && (forall id | id in b.pending :: b.pending[id] == a.pending[id])
    && (forall id: nat :: id in b.settled <==> id in a.settled || id in ids)
    && (forall id | id in b.settled :: b.settled[id] == if id in ids then outcome else a.settled[id])
    && b.issued == a.issued
  }

  /** The queue timer rejects its own request and asks the daemon to drop the job; the connection stays. */
  lemma QueueTimeoutSettles(cl: Client, id: nat)
    ensures var next := OnQueueTimeout(cl, id);
      SettlesJust(cl, next, {id}, QueueTimeout) && next.connected == cl.connected
      && CancelFrames(cl, id) == (if cl.connected then [Cancel(cl.nextId, id)] else [])
      && next.nextId == cl.nextId + |CancelFrames(cl, id)|
  {
  }

  /** The run timer rejects its own request and drops the connection; a lost connection rejects all that is left. */
  lemma ConnectionDropSettles(cl: Client, id: nat)
    ensures SettlesJust(cl, OnStepTimeout(cl, id), {id}, StepTimeout)
      && !OnStepTimeout(cl, id).connected && OnStepTimeout(cl, id).nextId == cl.nextId
    ensures SettlesJust(cl, OnClose(cl), cl.pending.Keys, ConnectionLost)
      && !OnClose(cl).connected && OnClose(cl).nextId == cl.nextId
  {
  }

  /** A frame flips the one timer of its request, or settles it: an error rejects, anything else resolves. */
  lemma FrameSettles(cl: Client, f: Frame)
    ensures var next := OnResponse(cl, f);
      if f.id !in cl.pending then next == cl
      else if f.Started? then next == cl.(pending := cl.pending[f.id := RunTimer])
      else if f.Requeued? then next == cl.(pending := cl.pending[f.id := QueueTimer])
      else SettlesJust(cl, next, {f.id}, if f.reply.Failed? then RemoteError(f.reply.error) else Resolved(f.reply))
           && next.connected == cl.connected && next.nextId == cl.nextId
  {
  }

  /** A request gets a fresh id and the queue timer, and its frame says what is asked for. */
  lemma RequestIsIssued(cl: Client, lane: Lane, work: Option<Work>)
    requires Books(cl)
    ensures var next, id := Issue(cl, work), cl.nextId;
      id !in cl.issued && next.pending == cl.pending[id := QueueTimer] && next.issued == cl.issued[id := work]
      && next.nextId == id + 1 && next.settled == cl.settled && next.connected == cl.connected
      && RequestFrame(id, lane, work) == if work.Some? then Submit(id, lane, work.value) else Stats(id)
  {
  }

  class ModelDaemonClient {
    var pending: map<nat, Timer>
    var nextId: nat
    var connected: bool
    ghost var issued: map<nat, Option<Work>>
    ghost var settled: map<nat, Outcome>
    /** The frames handed to the socket. */
    var written: seq<Request>

    ghost function View(): Client
      reads this
    {
      Client(pending, nextId, connected, issued, settled)
    }

    constructor ()
      ensures View() == Client(map[], 1, false, map[], map[]) && written == []
    {
      pending, nextId, connected, issued, settled, written := map[], 1, false, map[], map[], [];
    }

    method Attach()
      modifies this`connected
      ensures View() == old(View()).(connected := true)
    {
      connected := true;
    }

    method Request(lane: Lane, work: Option<Work>) returns (id: nat)
      requires connected
      modifies this
      ensures View() == Issue(old(View()), work) && id == old(nextId)
      ensures written == old(written) + [RequestFrame(id, lane, work)]
    {
      id := nextId;
      nextId := nextId + 1;
      pending := pending[id := QueueTimer];
      issued := issued[id := work];
      written := written + [RequestFrame(id, lane, work)];
    }

    method OnFrame(f: Frame)
      modifies this`pending, this`settled
      ensures View() == OnResponse(old(View()), f)
    {
      if f.id !in pending {
        return;
      }
      match f
      case Started(id) => pending := pending[id := RunTimer];
      case Requeued(id) => pending := pending[id := QueueTimer];
      case Final(id, reply) =>
        pending := pending - {id};
        settled := settled[id := OutcomeOf(reply)];
    }

    method QueueTimerFires(id: nat)
      requires id in pending
      modifies this
      ensures View() == OnQueueTimeout(old(View()), id) && written == old(written) + CancelFrames(old(View()), id)
    {
      pending := pending - {id};
      settled := settled[id := QueueTimeout];
      if connected {
        written := written + [Cancel(nextId, id)];
        nextId := nextId + 1;
      }
    }

    method RunTimerFires(id: nat)
      requires id in pending
      modifies this
      ensures View() == OnStepTimeout(old(View()), id) && written == old(written)
    {
      pending := pending - {id};
      settled := settled[id := StepTimeout];
      connected := false;
    }

    /** The close handler rejects the pending requests one by one, then clears the map. */
    method SocketCloses()
      modifies this
      ensures View() == OnClose(old(View())) && written == old(written)
    {
      connected := false;
      var left := pending.Keys;
      ghost var before := settled;
      while left != {}
        invariant left <= pending.Keys && pending == old(pending)
        invariant nextId == old(nextId) && issued == old(issued) && written == old(written) && !connected
        invariant settled == before + map id | id in pending.Keys - left :: ConnectionLost
        decreases |left|
      {
        var id :| id in left;
        settled := settled[id := ConnectionLost];
        left := left - {id};
      }
      assert pending.Keys - {} == pending.Keys;
      pending := map[];
    }
  }
}
