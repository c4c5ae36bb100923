/**
 * One daemon process around its scheduler (src/core/model-daemon-server.ts:136-168, 262-352):
 * the handshake of each connection, the idle lease, and closing. A daemon's token is the
 * number of its process, because tokens are fresh; a proof made with a token is that number.
 */
module Lifecycle {
  import opened Prelude
  import opened Daemon

  /** How far the process has come. It accepts connections from `Writing` to `Serving`. */
  datatype Phase = Booting | Lost | Writing | Renamed | WriteFailed | Serving | Closing | Gone

  datatype Stage = AwaitHello | AwaitAuth | Ready

  datatype Hello =
    | HelloFrame(protocol: nat, fingerprint: string, nonce: string)
    | AuthFrame(proof: nat)
    | OtherFrame

  datatype Reason = IsClosing | Starting | ExpectedHello | WrongProtocol | WrongFingerprint | BadNonce | BadToken
  datatype Response = Refused(reason: Reason) | Challenge(proof: nat) | Welcome

  datatype Config = Config(protocol: nat, fingerprint: string, idleMs: int, handlers: Handlers)

  /** `timer` says whether the idle timer is armed; a connection keeps its stage when it is gone. */
  datatype Proc = Proc(
    phase: Phase,
    stages: map<Socket, Stage>,
    sockets: set<Socket>,
    clients: set<Socket>,
    timer: bool,
    work: Server)

  const NEWBORN: Proc := Proc(Booting, map[], {}, {}, false, IDLE)

  predicate Listening(p: Proc) { p.phase.Writing? || p.phase.Renamed? || p.phase.Serving? }

  predicate TokenReady(p: Proc) { p.phase.Serving? || p.phase.Closing? }

  predicate Busy(s: Server) { s.running.Some? || s.interactive != [] || s.background != [] }

  // ---------------------------------------------------------------- the code between awaits

  function ArmIdle(cfg: Config, p: Proc): Proc {
    if p.timer || p.clients != {} || cfg.idleMs <= 0 || p.phase.Closing? then p else p.(timer := true)
  }

  /** Every connection is destroyed, one in its handshake too; later their `close` events follow. */
  function Close(p: Proc): Proc {
    if p.phase.Closing? then p
    else p.(phase := Closing, timer := false, work := p.work.(destroyed := p.work.destroyed + p.sockets))
  }

  /** The idle timer fires: a step still running or queued re-arms it. */
  function IdleFires(cfg: Config, p: Proc): Proc {
    var p' := p.(timer := false);
    if p.clients != {} then p'
    else if Busy(p.work) then ArmIdle(cfg, p')
    else Close(p')
  }

  function Connected(p: Proc, c: Socket): Proc {
    p.(stages := p.stages[c := AwaitHello], sockets := p.sockets + {c})
  }

  /** What a frame before `ready` is answered with; a refused connection keeps its stage. */
  function Respond(cfg: Config, me: nat, p: Proc, c: Socket, f: Hello): Response
    requires c in p.stages
  {
    if p.phase.Closing? then Refused(IsClosing)
    else if !TokenReady(p) then Refused(Starting)
    else if p.stages[c].AwaitHello? then
      if !f.HelloFrame? then Refused(ExpectedHello)
      else if f.protocol != cfg.protocol then Refused(WrongProtocol)
      else if f.fingerprint != cfg.fingerprint then Refused(WrongFingerprint)
      else if |f.nonce| < 32 then Refused(BadNonce)
      else Challenge(me)
    else if f == AuthFrame(me) then Welcome
    else Refused(BadToken)
  }

  function Handshake(cfg: Config, me: nat, p: Proc, c: Socket, f: Hello): Proc
    requires c in p.stages
  {
    match Respond(cfg, me, p, c, f)
    case Refused(_) => p
    case Challenge(_) => p.(stages := p.stages[c := AwaitAuth])
    case Welcome => p.(stages := p.stages[c := Ready], clients := p.clients + {c}, timer := false)
  }

  /** The exact conditions of every answer before `ready`; only a challenge and a welcome move the connection on. */
  lemma HandshakeExactly(cfg: Config, me: nat, p: Proc, c: Socket, f: Hello)
    requires c in p.stages
    ensures var answer, open := Respond(cfg, me, p, c, f), p.phase == Serving;
      (answer == Refused(IsClosing) <==> p.phase == Closing)
      && (answer == Refused(Starting) <==> p.phase !in {Serving, Closing})
      && (answer == Refused(ExpectedHello) <==> open && p.stages[c] == AwaitHello && !f.HelloFrame?)
      && (answer == Refused(WrongProtocol) <==>
            open && p.stages[c] == AwaitHello && f.HelloFrame? && f.protocol != cfg.protocol)
      && (answer == Refused(WrongFingerprint) <==>
            open && p.stages[c] == AwaitHello && f.HelloFrame? && f.protocol == cfg.protocol
            && f.fingerprint != cfg.fingerprint)
      && (answer == Refused(BadNonce) <==>
            open && p.stages[c] == AwaitHello && f.HelloFrame? && f.protocol == cfg.protocol
            && f.fingerprint == cfg.fingerprint && |f.nonce| < 32)
      && (answer == Challenge(me) <==>
            open && p.stages[c] == AwaitHello && f.HelloFrame? && f.protocol == cfg.protocol
            && f.fingerprint == cfg.fingerprint && |f.nonce| >= 32)
      && (answer == Welcome <==> open && p.stages[c] != AwaitHello && f == AuthFrame(me))
      && (answer == Refused(BadToken) <==> open && p.stages[c] != AwaitHello && f != AuthFrame(me))
    ensures var answer, next := Respond(cfg, me, p, c, f), Handshake(cfg, me, p, c, f);
      if answer.Challenge? then next == p.(stages := p.stages[c := AwaitAuth])
      else if answer.Welcome? then
        next == p.(stages := p.stages[c := Ready], clients := p.clients + {c}, timer := false)
      else next == p
  {
  }

  /** The `close` event of a connection: the lease is re-armed only when a client left. */
  function SocketClosed(cfg: Config, p: Proc, c: Socket): Proc {
    var p' := p.(sockets := p.sockets - {c}, clients := p.clients - {c},
                 work := p.work.(destroyed := p.work.destroyed + {c}));
    if c in p.clients then ArmIdle(cfg, p') else p'
  }

  function OnRequest(cfg: Config, p: Proc, c: Socket, r: Request): Proc {
    p.(work := Apply(cfg.handlers, p.work, Arrived(c, r)))
  }

  function OnSettled(cfg: Config, p: Proc, r: Settled): Proc {
    p.(work := Apply(cfg.handlers, p.work, StepSettled(r)))
  }

  // ---------------------------------------------------------------- the invariant

  /** The idle timer is armed exactly while the daemon serves and nobody holds the lease. */
  ghost predicate LeaseExact(cfg: Config, p: Proc) {
    p.timer <==> p.phase.Serving? && p.clients == {} && cfg.idleMs > 0
  }

  /** Clients are the open connections that authenticated, and only clients own work. */
  ghost predicate Doors(p: Proc) {
    && p.clients <= p.sockets <= p.stages.Keys
    && (forall c | c in p.sockets :: p.stages[c].Ready? <==> c in p.clients)
    && (forall c | c in p.stages && c !in p.sockets :: c in p.work.destroyed)
    && (p.phase.Closing? ==> p.sockets <= p.work.destroyed)
    && (!TokenReady(p) && !p.phase.Gone? ==> p.clients == {})
    && (forall i | 0 <= i < |p.work.accepted| ::
          p.work.accepted[i].socket in p.stages && p.stages[p.work.accepted[i].socket].Ready?)
  }

  ghost predicate Sane(cfg: Config, p: Proc) { LeaseExact(cfg, p) && Doors(p) && Inv(cfg.handlers, p.work) }

  lemma NewbornSane(cfg: Config)
    ensures Sane(cfg, NEWBORN)
  {
    assert Serials([]) == [] && AnswerSerials([]) == [] && Upto(0) == [];
  }

  /** Which jobs a scheduler event adds: at most one, for the connection the request came on. */
  lemma ApplyAccepts(h: Handlers, s: Server, e: Event)
    ensures var t := Apply(h, s, e);
      s.accepted <= t.accepted && s.destroyed <= t.destroyed
      && (forall i | |s.accepted| <= i < |t.accepted| :: e.Arrived? && t.accepted[i].socket == e.socket)
      && (e.Disconnected? ==> e.socket in t.destroyed)
  {
    match e
    case Arrived(c, r) =>
      if c !in s.destroyed && r.Submit? {
        var j := Fresh(s, c, r.id, r.lane, r.work);
        if Enqueue(s, j).running.None? { NextLeaves(Enqueue(s, j)); }
      }
    case StepSettled(r) =>
      if s.running.Some? {
        ConcludeAccepts(h, s, r);
        NextLeaves(Conclude(h, s, r));
      }
    case Disconnected(c) =>
  }

  lemma DestroyKeeps(h: Handlers, s: Server, more: set<Socket>)
    requires Inv(h, s)
    ensures Inv(h, s.(destroyed := s.destroyed + more))
  {
    var t := s.(destroyed := s.destroyed + more);
    KeepExcuses(s, t, []);
    assert Places(t) == Places(s);
  }

  lemma CloseKeeps(cfg: Config, p: Proc)
    requires p.phase.Serving? && Doors(p) && Inv(cfg.handlers, p.work)
    ensures Sane(cfg, Close(p))
  {
    DestroyKeeps(cfg.handlers, p.work, p.sockets);
    hide Inv;
  }

  lemma ServingCloseKeeps(cfg: Config, p: Proc)
    requires p.phase.Serving? && Sane(cfg, p)
    ensures Sane(cfg, Close(p))
  {
    hide Doors, Inv, LeaseExact, Close;
    CloseKeeps(cfg, p);
  }

  lemma IdleKeeps(cfg: Config, p: Proc)
    requires Sane(cfg, p) && p.timer
    ensures Sane(cfg, IdleFires(cfg, p))
  {
    CloseKeeps(cfg, p.(timer := false));
  }

  lemma ConnectedKeeps(cfg: Config, p: Proc, c: Socket)
    requires Sane(cfg, p) && Listening(p) && c !in p.stages
    ensures Sane(cfg, Connected(p, c))
  {
    hide Inv;
  }

  lemma HandshakeKeeps(cfg: Config, me: nat, p: Proc, c: Socket, f: Hello)
    requires Sane(cfg, p) && c in p.sockets && !p.stages[c].Ready? && !p.phase.Gone?
    ensures Sane(cfg, Handshake(cfg, me, p, c, f))
  {
    hide Inv;
  }

  lemma ClosedKeeps(cfg: Config, p: Proc, c: Socket)
    requires Sane(cfg, p) && c in p.sockets && !p.phase.Gone?
    ensures Sane(cfg, SocketClosed(cfg, p, c))
  {
    DestroyKeeps(cfg.handlers, p.work, {c});
    hide Inv;
  }

  lemma WorkKeeps(cfg: Config, p: Proc, e: Event)
    requires Sane(cfg, p) && !e.Disconnected?
    requires e.Arrived? ==> e.socket in p.clients
    ensures Sane(cfg, p.(work := Apply(cfg.handlers, p.work, e)))
  {
    ApplyKeeps(cfg.handlers, p.work, e);
    ApplyAccepts(cfg.handlers, p.work, e);
    hide Inv, Apply;
  }

  /**
   * The lease closes only a daemon that owes nobody anything: no client, no step running,
   * both lanes empty, and every job it ever accepted answered or excused.
   */
  lemma LeaseCutsNothing(cfg: Config, p: Proc, u: nat)
    requires Sane(cfg, p) && p.timer && IdleFires(cfg, p).phase.Closing? && u < |p.work.accepted|
    ensures p.clients == {} && !Busy(p.work)
    ensures u in AnswerSerials(p.work.answers) || Excused(p.work, u)
  {
    var s := p.work;
    UptoOnce(|s.accepted|, u);
    assert Serials([]) == [];
    assert Places(s) == multiset(AnswerSerials(s.answers)) + multiset(s.dropped);
    if u in s.dropped {
      var i :| 0 <= i < |s.dropped| && s.dropped[i] == u;
      assert Excused(s, s.dropped[i]);
    }
  }

  /**
   * The exact condition: when the lease runs out, the daemon closes, destroying every connection, if nothing runs
   * or waits, and otherwise nothing changes and the timer is armed again.
   */
  lemma LeaseExactly(cfg: Config, p: Proc)
    requires Sane(cfg, p) && p.timer
    ensures IdleFires(cfg, p) ==
      if p.work.running == None && p.work.interactive == [] && p.work.background == []
      then Proc(Closing, p.stages, p.sockets, p.clients, false, p.work.(destroyed := p.work.destroyed + p.sockets))
      else p
  {
    hide Inv, Doors;
  }

  /**
   * A process takes a client's request for work as the scheduler does, and the end of a step; nothing else of
   * it changes.
   */
  lemma RequestsReachTheScheduler(cfg: Config, p: Proc, c: Socket, id: nat, lane: Lane, work: Work, r: Settled)
    ensures var next := OnRequest(cfg, p, c, Submit(id, lane, work));
      next == p.(work := next.work)
      && (c !in p.work.destroyed ==>
            next.work.accepted == p.work.accepted + [Job(|p.work.accepted|, c, id, lane, work, 0, [])])
    ensures var next := OnSettled(cfg, p, r);
      next == p.(work := if p.work.running.Some? then EndStep(cfg.handlers, p.work, r) else p.work)
  {
    if c !in p.work.destroyed {
      var m := Enqueue(p.work, Fresh(p.work, c, id, lane, work));
      if m.running.None? { NextLeaves(m); }
    }
  }

  /** A connection that goes away takes its requests with it; the lease is armed when it was the last client. */
  lemma GoesAway(cfg: Config, p: Proc, c: Socket)
    ensures var next := SocketClosed(cfg, p, c);
      next.sockets == p.sockets - {c} && next.clients == p.clients - {c} && next.stages == p.stages
      && next.phase == p.phase
      && next.work == p.work.(destroyed := p.work.destroyed + {c})
      && (next.timer <==> p.timer || (p.clients == {c} && cfg.idleMs > 0 && p.phase != Closing))
  {
    assert c in p.clients ==> (p.clients - {c} == {} <==> p.clients == {c});
  }

  // ---------------------------------------------------------------- the object

  /**
   * The closure of `startModelDaemon` after it was called: its flags, sets and timer. Each
   * method moves the state as the function of the same step, so what those keep (`Sane`), it keeps.
   */
  class DaemonProcess {
    const cfg: Config
    const token: nat
    var phase: Phase
    var stages: map<Socket, Stage>
    var sockets: set<Socket>
    var clients: set<Socket>
    var tokenReady: bool
    var closing: bool
    var idleTimer: bool
    var work: Server

    ghost predicate Valid()
      reads this
    {
      tokenReady == TokenReady(View()) && closing == phase.Closing?
    }

    ghost function View(): Proc
      reads this
    {
      Proc(phase, stages, sockets, clients, idleTimer, work)
    }

    constructor (cfg: Config, token: nat)
      ensures Valid() && View() == NEWBORN && this.cfg == cfg && this.token == token
    {
      this.cfg, this.token := cfg, token;
      phase, stages, sockets, clients := Booting, map[], {}, {};
      tokenReady, closing, idleTimer, work := false, false, false, IDLE;
    }

    method Arm()
      requires Valid()
      modifies this`idleTimer
      ensures View() == ArmIdle(cfg, old(View()))
    {
      if idleTimer || clients != {} || cfg.idleMs <= 0 || closing {
        return;
      }
      idleTimer := true;
    }

    /** The token file is in place: proofs may be given, and the lease begins to run. */
    method BecomeReady()
      requires Valid() && phase.Renamed?
      modifies this
      ensures View() == ArmIdle(cfg, old(View()).(phase := Serving)) && Valid()
    {
      phase, tokenReady := Serving, true;
      Arm();
    }

    method CloseAll()
      requires Valid() && (phase.Serving? || phase.Closing?)
      modifies this
      ensures View() == Close(old(View())) && Valid()
    {
      if closing {
        return;
      }
      phase, closing, idleTimer := Closing, true, false;
      var left := sockets;
      ghost var before := work;
      while left != {}
        invariant left <= sockets && sockets == old(sockets) && stages == old(stages) && clients == old(clients)
        invariant phase.Closing? && closing && !idleTimer && tokenReady
        invariant work == before.(destroyed := before.destroyed + (sockets - left))
        decreases |left|
      {
        var c :| c in left;
        assert sockets - (left - {c}) == (sockets - left) + {c};
        work := work.(destroyed := work.destroyed + {c});
        assert work.destroyed == before.destroyed + (sockets - (left - {c}));
        left := left - {c};
      }
      assert sockets - {} == sockets;
    }

    method OnIdle()
      requires Valid() && idleTimer && (phase.Serving? || phase.Closing?)
      modifies this
      ensures View() == IdleFires(cfg, old(View())) && Valid()
    {
      idleTimer := false;
      if clients != {} {
        return;
      }
      if work.running.Some? || work.interactive != [] || work.background != [] {
        Arm();
        return;
      }
      CloseAll();
    }

    method OnConnection(c: Socket)
      requires Valid() && Listening(View()) && c !in stages
      modifies this
      ensures View() == Connected(old(View()), c) && Valid()
    {
      stages, sockets := stages[c := AwaitHello], sockets + {c};
    }

    /** The frame callback of a connection that is not ready yet. */
    method OnHandshakeFrame(c: Socket, f: Hello) returns (r: Response)
      requires Valid() && c in sockets && c in stages && !stages[c].Ready?
      modifies this
      ensures r == Respond(cfg, token, old(View()), c, f)
      ensures View() == Handshake(cfg, token, old(View()), c, f) && Valid()
    {
      if closing {
        return Refused(IsClosing);
      }
      if !tokenReady {
        return Refused(Starting);
      }
      if stages[c].AwaitHello? {
        match f
        case HelloFrame(protocol, fingerprint, nonce) =>
          if protocol != cfg.protocol {
            return Refused(WrongProtocol);
          }
          if fingerprint != cfg.fingerprint {
            return Refused(WrongFingerprint);
          }
          if |nonce| < 32 {
            return Refused(BadNonce);
          }
          stages := stages[c := AwaitAuth];
          return Challenge(token);
        case _ => return Refused(ExpectedHello);
      }
      if f != AuthFrame(token) {
        return Refused(BadToken);
      }
      stages, clients, idleTimer := stages[c := Ready], clients + {c}, false;
      return Welcome;
    }

    method OnSocketClose(c: Socket)
      requires Valid() && c in sockets
      modifies this
      ensures View() == SocketClosed(cfg, old(View()), c) && Valid()
    {
      sockets := sockets - {c};
      work := work.(destroyed := work.destroyed + {c});
      if c in clients {
        clients := clients - {c};
        Arm();
      } else {
        assert clients - {c} == clients;
      }
    }
  }
}
