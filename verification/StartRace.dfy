// Any number of daemon processes racing for one address and one token file
// (src/core/model-daemon-server.ts:262-352).
module StartRace {
  // What the system gives is: listening is exclusive, a rename replaces the token file at once,
  // and comparing and unlinking it is one step.
  import opened Prelude
  import opened Daemon
  import opened Lifecycle

  /** Process `d` is `procs[d]` and its token is `d`; `writers` are those that ever wrote the file. */
  datatype World = World(procs: seq<Proc>, listener: Option<nat>, token: Option<nat>, writers: set<nat>)

  const NOTHING: World := World([], None, None, {})

  datatype Deed =
    | Spawn
    | Bind(d: nat)
    | Rename(d: nat)
    | RenameFails(d: nat)
    | TokenInPlace(d: nat)
    | Connect(d: nat, c: Socket)
    | Say(d: nat, c: Socket, f: Hello)
    | Ask(d: nat, c: Socket, r: Request)
    | Settle(d: nat, how: Settled)
    | Hangup(d: nat, c: Socket)
    | LeaseTimer(d: nat)
    | CallClose(d: nat)
    | Unlink(d: nat)
    | Crash(d: nat)

  // ---------------------------------------------------------------- the steps

  /** The address is free again once its owner stops listening, however that came about. */
  function Put(w: World, d: nat, p: Proc): World
    requires d < |w.procs|
  {
    w.(procs := w.procs[d := p], listener := if w.listener == Some(d) && !Listening(p) then None else w.listener)
  }

  /** What a deed does to its own process; a deed that cannot happen there changes nothing. */
  function Local(cfg: Config, d: nat, p: Proc, e: Deed): Proc {
    match e
    case RenameFails(_) => if p.phase.Writing? then p.(phase := WriteFailed) else p
    case TokenInPlace(_) => if p.phase.Renamed? then ArmIdle(cfg, p.(phase := Serving)) else p
    case Connect(_, c) => if Listening(p) && c !in p.stages then Connected(p, c) else p
    case Say(_, c, f) =>
      if c in p.sockets && c in p.stages && !p.stages[c].Ready? && !p.phase.Gone? then Handshake(cfg, d, p, c, f) else p
    case Ask(_, c, r) => if c in p.clients && !p.phase.Gone? then OnRequest(cfg, p, c, r) else p
    case Settle(_, r) => if !p.phase.Gone? then OnSettled(cfg, p, r) else p
    case Hangup(_, c) => if c in p.sockets && !p.phase.Gone? then SocketClosed(cfg, p, c) else p
    case LeaseTimer(_) => if p.timer then IdleFires(cfg, p) else p
    case CallClose(_) => if p.phase.Serving? then Close(p) else p
    case Crash(_) => p.(phase := Gone, timer := false)
    case _ => p
  }

  function Step(cfg: Config, w: World, e: Deed): World {
    if e.Spawn? then w.(procs := w.procs + [NEWBORN])
    else if e.d >= |w.procs| then w
    else
      var d, p := e.d, w.procs[e.d];
      match e
      case Bind(_) =>
        if !p.phase.Booting? then w
        else if w.listener.Some? then Put(w, d, p.(phase := Lost))
        else Put(w, d, p.(phase := Writing)).(listener := Some(d))
      case Rename(_) =>
        if !p.phase.Writing? then w
        else Put(w, d, p.(phase := Renamed)).(token := Some(d), writers := w.writers + {d})
      case Unlink(_) =>
        if !(p.phase.Closing? && p.sockets == {}) then w
        else Put(w, d, p.(phase := Gone)).(token := if w.token == Some(d) then None else w.token)
      case _ => Put(w, d, Local(cfg, d, p, e))
  }

  function Run(cfg: Config, w: World, es: seq<Deed>): World
    decreases |es|
  {
    if es == [] then w else Run(cfg, Step(cfg, w, es[0]), es[1..])
  }

  // ---------------------------------------------------------------- the invariant

  ghost predicate OwnsToken(p: Proc) { p.phase.Renamed? || p.phase.Serving? }

  /** Before the rename, or after losing the address, a process has not written the token. */
  ghost predicate NeverWrote(p: Proc) { p.phase.Booting? || p.phase.Lost? || p.phase.Writing? || p.phase.WriteFailed? }

  ghost predicate Fits(w: World, d: nat, p: Proc) {
    && (Listening(p) <==> w.listener == Some(d))
    && (OwnsToken(p) ==> w.token == Some(d))
    && (NeverWrote(p) ==> d !in w.writers)
  }

  ghost predicate Files(w: World) {
    && (w.listener.Some? ==> w.listener.value < |w.procs|)
    && (w.token.Some? ==> w.token.value in w.writers)
    && (forall d | d in w.writers :: d < |w.procs|)
  }

  ghost predicate Good(cfg: Config, w: World) {
    Files(w) && forall d | 0 <= d < |w.procs| :: Sane(cfg, w.procs[d]) && Fits(w, d, w.procs[d])
  }

  lemma SocketDeedsKeep(cfg: Config, d: nat, p: Proc, e: Deed)
    requires Sane(cfg, p) && (e.Connect? || e.Say? || e.Hangup?)
    ensures Sane(cfg, Local(cfg, d, p, e))
  {
    hide Sane, Doors, LeaseExact, Inv, Handshake, Connected, SocketClosed, IdleFires, Close, ArmIdle, Apply;
    if e.Connect? {
      if Listening(p) && e.c !in p.stages { ConnectedKeeps(cfg, p, e.c); }
    } else if e.Say? {
      if e.c in p.sockets && e.c in p.stages && !p.stages[e.c].Ready? && !p.phase.Gone? {
        HandshakeKeeps(cfg, d, p, e.c, e.f);
      }
    } else if e.c in p.sockets && !p.phase.Gone? {
      ClosedKeeps(cfg, p, e.c);
    }
  }

  lemma WorkDeedsKeep(cfg: Config, d: nat, p: Proc, e: Deed)
    requires Sane(cfg, p) && (e.Ask? || e.Settle?)
    ensures Sane(cfg, Local(cfg, d, p, e))
  {
    hide Sane, Apply, Handshake, SocketClosed, IdleFires, Close;
    if e.Ask? {
      if e.c in p.clients && !p.phase.Gone? { WorkKeeps(cfg, p, Arrived(e.c, e.r)); }
    } else if !p.phase.Gone? {
      WorkKeeps(cfg, p, StepSettled(e.how));
    }
  }

  lemma LeaseDeedKeeps(cfg: Config, d: nat, p: Proc, e: Deed)
    requires Sane(cfg, p) && e.LeaseTimer?
    ensures Sane(cfg, Local(cfg, d, p, e))
  {
    hide Sane, IdleFires;
    if p.timer { IdleKeeps(cfg, p); }
  }

  lemma CloseDeedKeeps(cfg: Config, d: nat, p: Proc, e: Deed)
    requires Sane(cfg, p) && e.CallClose?
    ensures Sane(cfg, Local(cfg, d, p, e))
  {
    hide Sane, Close;
    if p.phase.Serving? { ServingCloseKeeps(cfg, p); }
  }

  lemma PhaseDeedsKeep(cfg: Config, d: nat, p: Proc, e: Deed)
    requires Sane(cfg, p) && (e.TokenInPlace? || e.RenameFails? || e.Crash?)
    ensures Sane(cfg, Local(cfg, d, p, e))
  {
    hide Sane, ArmIdle;
    PhaseKeeps(cfg, p);
  }

  /** A process's own deeds keep it sane. */
  lemma LocalKeeps(cfg: Config, d: nat, p: Proc, e: Deed)
    requires Sane(cfg, p)
    ensures Sane(cfg, Local(cfg, d, p, e))
  {
    hide Sane;
    if e.Connect? || e.Say? || e.Hangup? {
      SocketDeedsKeep(cfg, d, p, e);
    } else if e.Ask? || e.Settle? {
      WorkDeedsKeep(cfg, d, p, e);
    } else if e.LeaseTimer? {
      LeaseDeedKeeps(cfg, d, p, e);
    } else if e.CallClose? {
      CloseDeedKeeps(cfg, d, p, e);
    } else if e.TokenInPlace? || e.RenameFails? || e.Crash? {
      PhaseDeedsKeep(cfg, d, p, e);
    }
  }

  lemma PhaseKeeps(cfg: Config, p: Proc)
    requires Sane(cfg, p)
    ensures p.phase.Renamed? ==> Sane(cfg, ArmIdle(cfg, p.(phase := Serving)))
    ensures p.phase.Writing? ==> Sane(cfg, p.(phase := WriteFailed)) && Sane(cfg, p.(phase := Renamed))
    ensures p.phase.Booting? ==> Sane(cfg, p.(phase := Lost)) && Sane(cfg, p.(phase := Writing))
    ensures p.phase.Closing? ==> Sane(cfg, p.(phase := Gone))
    ensures Sane(cfg, p.(phase := Gone, timer := false))
  {
    hide Inv;
  }

  /** How a local deed moves the phase. */
  lemma LocalPhase(cfg: Config, d: nat, p: Proc, e: Deed)
    requires Sane(cfg, p)
    ensures var q := Local(cfg, d, p, e);
      (Listening(q) ==> Listening(p)) && (OwnsToken(q) ==> OwnsToken(p)) && (NeverWrote(q) ==> NeverWrote(p))
      && (p.phase.Serving? ==> q.phase.Serving? || q.phase.Closing? || q.phase.Gone?)
      && (p.phase.Closing? ==> q.phase.Closing? || q.phase.Gone?)
      && (p.phase.Gone? ==> q.phase.Gone?)
      && (p.phase.Booting? ==> q.phase.Booting? || q.phase.Gone?)
      && (p.phase.Lost? ==> q.phase.Lost? || q.phase.Gone?)
  {
    hide Inv, Apply;
  }

  /** Replacing one process by one that fits leaves every other process fitting. */
  lemma PutKeeps(cfg: Config, w: World, d: nat, p: Proc)
    requires Good(cfg, w) && d < |w.procs| && Sane(cfg, p)
    requires (Listening(p) ==> Listening(w.procs[d])) && (OwnsToken(p) ==> OwnsToken(w.procs[d]))
    requires NeverWrote(p) ==> NeverWrote(w.procs[d])
    ensures Good(cfg, Put(w, d, p))
  {
    hide Sane;
  }

  /** Replacing process `d` keeps the invariant when the files still suit all the others. */
  lemma Replaced(cfg: Config, w: World, w': World, d: nat)
    requires Good(cfg, w) && Files(w') && d < |w.procs| == |w'.procs|
    requires Sane(cfg, w'.procs[d]) && Fits(w', d, w'.procs[d])
    requires forall k | 0 <= k < |w.procs| && k != d ::
      w'.procs[k] == w.procs[k] && (w'.listener == Some(k) <==> w.listener == Some(k))
      && (k in w'.writers <==> k in w.writers)
    requires forall k | 0 <= k < |w.procs| && k != d && OwnsToken(w.procs[k]) :: w'.token == Some(k)
    ensures Good(cfg, w')
  {
    hide Sane;
    forall k | 0 <= k < |w'.procs| ensures Sane(cfg, w'.procs[k]) && Fits(w', k, w'.procs[k]) {
      assert Sane(cfg, w.procs[k]) && Fits(w, k, w.procs[k]);
    }
  }

  lemma SpawnKeeps(cfg: Config, w: World)
    requires Good(cfg, w)
    ensures Good(cfg, Step(cfg, w, Spawn))
  {
    NewbornSane(cfg);
    hide Sane;
  }

  lemma LostKeeps(cfg: Config, w: World, d: nat)
    requires Good(cfg, w) && d < |w.procs| && w.procs[d].phase.Booting? && w.listener.Some?
    ensures Good(cfg, Put(w, d, w.procs[d].(phase := Lost)))
  {
    assert Sane(cfg, w.procs[d]) && Fits(w, d, w.procs[d]);
    PhaseKeeps(cfg, w.procs[d]);
    PutKeeps(cfg, w, d, w.procs[d].(phase := Lost));
  }

  lemma WonKeeps(cfg: Config, w: World, d: nat)
    requires Good(cfg, w) && d < |w.procs| && w.procs[d].phase.Booting? && w.listener.None?
    ensures Good(cfg, Put(w, d, w.procs[d].(phase := Writing)).(listener := Some(d)))
  {
    var w' := Put(w, d, w.procs[d].(phase := Writing)).(listener := Some(d));
    assert Sane(cfg, w.procs[d]) && Fits(w, d, w.procs[d]);
    PhaseKeeps(cfg, w.procs[d]);
    hide Sane;
    forall k | 0 <= k < |w.procs| && k != d && OwnsToken(w.procs[k]) ensures w'.token == Some(k) {
      assert Fits(w, k, w.procs[k]);
    }
    Replaced(cfg, w, w', d);
  }

  lemma BindKeeps(cfg: Config, w: World, d: nat)
    requires Good(cfg, w) && d < |w.procs|
    ensures Good(cfg, Step(cfg, w, Bind(d)))
  {
    hide Good, Put, Local;
    if w.procs[d].phase.Booting? {
      if w.listener.Some? { LostKeeps(cfg, w, d); } else { WonKeeps(cfg, w, d); }
    }
  }

  lemma RenameKeeps(cfg: Config, w: World, d: nat)
    requires Good(cfg, w) && d < |w.procs|
    ensures Good(cfg, Step(cfg, w, Rename(d)))
  {
    var w' := Step(cfg, w, Rename(d));
    assert Sane(cfg, w.procs[d]) && Fits(w, d, w.procs[d]);
    PhaseKeeps(cfg, w.procs[d]);
    hide Sane, Local;
    if w' != w {
      forall k | 0 <= k < |w.procs| && k != d && OwnsToken(w.procs[k]) ensures w'.token == Some(k) {
        assert Fits(w, k, w.procs[k]);
      }
      Replaced(cfg, w, w', d);
    }
  }

  lemma UnlinkKeeps(cfg: Config, w: World, d: nat)
    requires Good(cfg, w) && d < |w.procs|
    ensures Good(cfg, Step(cfg, w, Unlink(d)))
  {
    var w' := Step(cfg, w, Unlink(d));
    assert Sane(cfg, w.procs[d]) && Fits(w, d, w.procs[d]);
    PhaseKeeps(cfg, w.procs[d]);
    hide Sane, Local;
    if w' != w {
      forall k | 0 <= k < |w.procs| && k != d && OwnsToken(w.procs[k]) ensures w'.token == Some(k) {
        assert Fits(w, k, w.procs[k]);
      }
      Replaced(cfg, w, w', d);
    }
  }

  predicate IsLocal(e: Deed) { !e.Spawn? && !e.Bind? && !e.Rename? && !e.Unlink? }

  lemma LocalStep(cfg: Config, w: World, e: Deed)
    requires IsLocal(e) && e.d < |w.procs|
    ensures Step(cfg, w, e) == Put(w, e.d, Local(cfg, e.d, w.procs[e.d], e))
  {
    hide Local, Put;
  }

  lemma LocalStepKeeps(cfg: Config, w: World, e: Deed)
    requires Good(cfg, w) && IsLocal(e) && e.d < |w.procs|
    ensures Good(cfg, Step(cfg, w, e))
  {
    var d, p := e.d, w.procs[e.d];
    LocalStep(cfg, w, e);
    assert Sane(cfg, p);
    hide Sane, Local, Step, Put, Good, Fits;
    LocalKeeps(cfg, d, p, e);
    LocalPhase(cfg, d, p, e);
    PutKeeps(cfg, w, d, Local(cfg, d, p, e));
  }

  lemma StepKeeps(cfg: Config, w: World, e: Deed)
    requires Good(cfg, w)
    ensures Good(cfg, Step(cfg, w, e))
  {
    hide Good, Local, Put;
    if e.Spawn? {
      SpawnKeeps(cfg, w);
    } else if e.d < |w.procs| {
      match e {
        case Bind(d) => BindKeeps(cfg, w, d);
        case Rename(d) => RenameKeeps(cfg, w, d);
        case Unlink(d) => UnlinkKeeps(cfg, w, d);
        case _ => LocalStepKeeps(cfg, w, e);
      }
    }
  }

  lemma {:induction false} RunKeeps(cfg: Config, w: World, es: seq<Deed>)
    requires Good(cfg, w)
    ensures Good(cfg, Run(cfg, w, es))
    decreases |es|
  {
    if es != [] {
      StepKeeps(cfg, w, es[0]);
      RunKeeps(cfg, Step(cfg, w, es[0]), es[1..]);
    }
  }

  // ---------------------------------------------------------------- what the race cannot break

  /** At most one daemon listens, whatever was spawned, crashed or closed. */
  lemma OneListener(cfg: Config, es: seq<Deed>, a: nat, b: nat)
    requires var w := Run(cfg, NOTHING, es);
      a < |w.procs| && b < |w.procs| && Listening(w.procs[a]) && Listening(w.procs[b])
    ensures a == b
  {
    RunKeeps(cfg, NOTHING, es);
    var w := Run(cfg, NOTHING, es);
    assert Fits(w, a, w.procs[a]) && Fits(w, b, w.procs[b]);
  }

  /** A daemon that lost the address, or failed to write, never wrote the token. */
  lemma LoserNeverWrites(cfg: Config, es: seq<Deed>, d: nat)
    requires var w := Run(cfg, NOTHING, es); d < |w.procs| && (w.procs[d].phase.Lost? || w.procs[d].phase.WriteFailed?)
    ensures var w := Run(cfg, NOTHING, es); d !in w.writers && w.token != Some(d)
  {
    RunKeeps(cfg, NOTHING, es);
    var w := Run(cfg, NOTHING, es);
    assert Fits(w, d, w.procs[d]);
  }

  /**
   * Whoever listens and gives proofs has its token in the file, even while a predecessor is
   * still closing and about to compare and unlink.
   */
  lemma TokenIsTheListeners(cfg: Config, es: seq<Deed>, d: nat)
    requires var w := Run(cfg, NOTHING, es); d < |w.procs| && Listening(w.procs[d]) && TokenReady(w.procs[d])
    ensures Run(cfg, NOTHING, es).token == Some(d)
  {
    RunKeeps(cfg, NOTHING, es);
    var w := Run(cfg, NOTHING, es);
    assert Fits(w, d, w.procs[d]);
  }

  /** The lease of a serving daemon: armed exactly while nobody holds it; nothing is owed when it closes. */
  lemma LeaseOfTheLiving(cfg: Config, es: seq<Deed>, d: nat)
    requires d < |Run(cfg, NOTHING, es).procs|
    ensures var p := Run(cfg, NOTHING, es).procs[d];
      (p.timer <==> p.phase.Serving? && p.clients == {} && cfg.idleMs > 0)
      && (p.timer && IdleFires(cfg, p).phase.Closing? ==>
            !Busy(p.work)
            && forall u | 0 <= u < |p.work.accepted| :: u in AnswerSerials(p.work.answers) || Excused(p.work, u))
  {
    RunKeeps(cfg, NOTHING, es);
    var p := Run(cfg, NOTHING, es).procs[d];
    assert Sane(cfg, p);
    if p.timer && IdleFires(cfg, p).phase.Closing? {
      assert !Busy(p.work);
      forall u: nat | u < |p.work.accepted| ensures u in AnswerSerials(p.work.answers) || Excused(p.work, u) {
        LeaseCutsNothing(cfg, p, u);
      }
    }
  }

  // ---------------------------------------------------------------- authentication

  ghost predicate Ending(p: Proc) { p.phase.Closing? || p.phase.Gone? }

  /** The phase moves of binding, renaming and unlinking. */
  ghost predicate PhaseMove(p: Proc, q: Proc) {
    && q == p.(phase := q.phase)
    && ((p.phase.Booting? && (q.phase.Lost? || q.phase.Writing?)) || (p.phase.Writing? && q.phase.Renamed?)
        || (p.phase.Closing? && q.phase.Gone?))
  }

  /** A deed changes only its own process, by a phase move or as a local deed. */
  lemma OnlyItsOwn(cfg: Config, w: World, e: Deed, d: nat)
    requires d < |w.procs|
    ensures var w' := Step(cfg, w, e);
      d < |w'.procs| &&
      (w'.procs[d] == w.procs[d]
       || (!e.Spawn? && e.d == d
           && (PhaseMove(w.procs[d], w'.procs[d]) || w'.procs[d] == Local(cfg, d, w.procs[d], e))))
  {
    hide Local;
  }

  lemma LocalShrinks(cfg: Config, d: nat, p: Proc, e: Deed)
    requires Ending(p)
    ensures Ending(Local(cfg, d, p, e)) && Local(cfg, d, p, e).clients <= p.clients
  {
    hide Apply;
  }

  lemma StepShrinks(cfg: Config, w: World, e: Deed, d: nat)
    requires d < |w.procs| && Ending(w.procs[d])
    ensures var w' := Step(cfg, w, e);
      d < |w'.procs| && Ending(w'.procs[d]) && w'.procs[d].clients <= w.procs[d].clients
  {
    OnlyItsOwn(cfg, w, e, d);
    LocalShrinks(cfg, d, w.procs[d], e);
    hide Step, Local;
  }

  /** Once a daemon is closing, its set of authenticated clients never grows again. */
  lemma {:induction false} ClosingNeverGrows(cfg: Config, w: World, es: seq<Deed>, d: nat)
    requires Good(cfg, w) && d < |w.procs| && Ending(w.procs[d])
    ensures var w' := Run(cfg, w, es);
      d < |w'.procs| && Ending(w'.procs[d]) && w'.procs[d].clients <= w.procs[d].clients
    decreases |es|
  {
    if es != [] {
      StepKeeps(cfg, w, es[0]);
      StepShrinks(cfg, w, es[0], d);
      hide Step, Good;
      ClosingNeverGrows(cfg, Step(cfg, w, es[0]), es[1..], d);
    }
  }

  lemma LocalAdmits(cfg: Config, d: nat, p: Proc, e: Deed, c: Socket)
    requires c !in p.clients && c in Local(cfg, d, p, e).clients
    ensures e.Say? && e.c == c && e.f == AuthFrame(d) && TokenReady(p) && !p.phase.Closing? && c in p.stages
        && p.stages[c].AwaitAuth?
  {
    hide Apply;
  }

  /** The only way in is the daemon's own token, spoken on an open connection after a challenge. */
  lemma OnlyTheToken(cfg: Config, w: World, e: Deed, d: nat, c: Socket)
    requires Good(cfg, w) && d < |w.procs| && c !in w.procs[d].clients
    requires c in Step(cfg, w, e).procs[d].clients
    ensures e == Say(d, c, AuthFrame(d)) && w.procs[d].phase.Serving? && w.token == Some(d)
      && c in w.procs[d].stages && w.procs[d].stages[c].AwaitAuth?
  {
    assert Fits(w, d, w.procs[d]);
    OnlyItsOwn(cfg, w, e, d);
    hide Step, Good, Local;
    LocalAdmits(cfg, d, w.procs[d], e, c);
  }

  /** `e` is not a frame or the end of connection `c` to daemon `d`. */
  predicate Spares(e: Deed, d: nat, c: Socket) {
    e != Hangup(d, c) && !(e.Say? && e.d == d && e.c == c)
  }

  /** Still serving, and the connection still open at the stage it had. */
  ghost predicate KeptStage(p: Proc, q: Proc, c: Socket) {
    q.phase.Serving? && c in q.sockets && c in p.stages && c in q.stages && q.stages[c] == p.stages[c]
  }

  lemma LocalSpares(cfg: Config, d: nat, p: Proc, e: Deed, c: Socket)
    requires p.phase.Serving? && c in p.sockets && c in p.stages && (e.Spawn? || e.d == d) && Spares(e, d, c)
    ensures var q := Local(cfg, d, p, e); Ending(q) || KeptStage(p, q, c)
  {
    hide Apply;
  }

  lemma StepSpares(cfg: Config, w: World, e: Deed, d: nat, c: Socket)
    requires Good(cfg, w) && d < |w.procs| && w.procs[d].phase.Serving? && c in w.procs[d].sockets && Spares(e, d, c)
    ensures var w' := Step(cfg, w, e);
      d < |w'.procs| && (Ending(w'.procs[d]) || KeptStage(w.procs[d], w'.procs[d], c))
  {
    assert Sane(cfg, w.procs[d]);
    OnlyItsOwn(cfg, w, e, d);
    hide Step, Good, Local, Inv, LeaseExact;
    if !e.Spawn? && e.d == d { LocalSpares(cfg, d, w.procs[d], e, c); }
  }

  /** While the daemon serves, what others do leaves a connection's stage and the token alone. */
  lemma {:induction false} ServedMeanwhile(cfg: Config, w: World, es: seq<Deed>, d: nat, c: Socket)
    requires Good(cfg, w) && d < |w.procs| && w.procs[d].phase.Serving? && c in w.procs[d].sockets
    requires forall i | 0 <= i < |es| :: Spares(es[i], d, c)
    requires var w' := Run(cfg, w, es); d < |w'.procs| ==> w'.procs[d].phase.Serving?
    ensures var w' := Run(cfg, w, es);
      Good(cfg, w') && d < |w'.procs| && KeptStage(w.procs[d], w'.procs[d], c) && w'.token == Some(d)
    decreases |es|
  {
    if es == [] {
      assert Fits(w, d, w.procs[d]);
      assert Sane(cfg, w.procs[d]);
    } else {
      var w1 := Step(cfg, w, es[0]);
      StepKeeps(cfg, w, es[0]);
      StepSpares(cfg, w, es[0], d, c);
      hide Step, Good, Sane, Fits;
      if Ending(w1.procs[d]) {
        ClosingNeverGrows(cfg, w1, es[1..], d);
        assert false;
      } else {
        ServedMeanwhile(cfg, w1, es[1..], d, c);
      }
    }
  }

  /**
   * A client gets in: it connects to a serving daemon, says hello, reads the token file when
   * the challenge comes and proves it. Whatever else happens in between, as long as the daemon
   * still serves, the challenge verifies against the file and the proof is accepted.
   */
  lemma ClientGetsIn(cfg: Config, w: World, d: nat, c: Socket, nonce: string, before: seq<Deed>, meanwhile: seq<Deed>)
    requires Good(cfg, w) && d < |w.procs| && w.procs[d].phase.Serving? && c !in w.procs[d].stages && |nonce| >= 32
    requires forall i | 0 <= i < |before| :: Spares(before[i], d, c)
    requires forall i | 0 <= i < |meanwhile| :: Spares(meanwhile[i], d, c)
    requires Serves(AfterHello(cfg, w, d, c, nonce, before), d)
    requires Serves(Run(cfg, AfterHello(cfg, w, d, c, nonce, before), meanwhile), d)
    ensures var atHello := Run(cfg, Step(cfg, w, Connect(d, c)), before);
      d < |atHello.procs| && c in atHello.procs[d].stages
      && Respond(cfg, d, atHello.procs[d], c, HelloFrame(cfg.protocol, cfg.fingerprint, nonce)) == Challenge(d)
    ensures var atProof := Run(cfg, AfterHello(cfg, w, d, c, nonce, before), meanwhile);
      atProof.token == Some(d) && c in Step(cfg, atProof, Say(d, c, AuthFrame(atProof.token.value))).procs[d].clients
  {
    var f := HelloFrame(cfg.protocol, cfg.fingerprint, nonce);
    var w1 := Step(cfg, w, Connect(d, c));
    StepKeeps(cfg, w, Connect(d, c));
    ConnectStep(cfg, w, d, c);
    var w2 := Run(cfg, w1, before);
    RunKeeps(cfg, w1, before);
    RunLength(cfg, w1, before);
    SayServes(cfg, w2, d, c, f);
    ServedMeanwhile(cfg, w1, before, d, c);
    var w3 := Step(cfg, w2, Say(d, c, f));
    StepKeeps(cfg, w2, Say(d, c, f));
    HelloStep(cfg, w2, d, c, nonce);
    RunLength(cfg, w3, meanwhile);
    ServedMeanwhile(cfg, w3, meanwhile, d, c);
    ProofStep(cfg, Run(cfg, w3, meanwhile), d, c);
  }

  lemma ConnectStep(cfg: Config, w: World, d: nat, c: Socket)
    requires d < |w.procs| && w.procs[d].phase.Serving? && c !in w.procs[d].stages
    ensures var w' := Step(cfg, w, Connect(d, c)); d < |w'.procs| && w'.procs[d] == Connected(w.procs[d], c)
  {
  }

  lemma HelloStep(cfg: Config, w: World, d: nat, c: Socket, nonce: string)
    requires d < |w.procs| && w.procs[d].phase.Serving? && c in w.procs[d].sockets && c in w.procs[d].stages
    requires w.procs[d].stages[c].AwaitHello? && |nonce| >= 32
    ensures var f := HelloFrame(cfg.protocol, cfg.fingerprint, nonce);
      var w' := Step(cfg, w, Say(d, c, f));
      d < |w'.procs| && w'.procs[d] == w.procs[d].(stages := w.procs[d].stages[c := AwaitAuth])
      && Respond(cfg, d, w.procs[d], c, f) == Challenge(d)
  {
  }

  lemma ProofStep(cfg: Config, w: World, d: nat, c: Socket)
    requires d < |w.procs| && w.procs[d].phase.Serving? && c in w.procs[d].sockets && c in w.procs[d].stages
    requires w.procs[d].stages[c].AwaitAuth?
    ensures var w' := Step(cfg, w, Say(d, c, AuthFrame(d))); d < |w'.procs| && c in w'.procs[d].clients
  {
  }

  ghost predicate Serves(w: World, d: nat) { d < |w.procs| && w.procs[d].phase.Serving? }

  ghost function AfterHello(cfg: Config, w: World, d: nat, c: Socket, nonce: string, before: seq<Deed>): World {
    Step(cfg, Run(cfg, Step(cfg, w, Connect(d, c)), before),
      Say(d, c, HelloFrame(cfg.protocol, cfg.fingerprint, nonce)))
  }

  lemma SayServes(cfg: Config, w: World, d: nat, c: Socket, f: Hello)
    requires Good(cfg, w) && Serves(Step(cfg, w, Say(d, c, f)), d)
    ensures Serves(w, d)
  {
  }

  lemma {:induction false} RunLength(cfg: Config, w: World, es: seq<Deed>)
    ensures |Run(cfg, w, es).procs| >= |w.procs|
    decreases |es|
  {
    if es != [] { RunLength(cfg, Step(cfg, w, es[0]), es[1..]); }
  }

  // ---------------------------------------------------------------- starting, serving, leaving

  lemma {:induction false} RunThree(cfg: Config, w: World, a: Deed, b: Deed, c: Deed)
    ensures Run(cfg, w, [a, b, c]) == Step(cfg, Step(cfg, Step(cfg, w, a), b), c)
  {
    var w1 := Step(cfg, w, a);
    var w2 := Step(cfg, w1, b);
    hide Step;
    assert [a, b, c][1..] == [b, c] && [b, c][1..] == [c] && [c][1..] == [];
    assert Run(cfg, w2, [c]) == Run(cfg, Step(cfg, w2, c), []);
    assert Run(cfg, w1, [b, c]) == Run(cfg, w2, [c]);
  }

  /**
   * A start: with the address free the process listens, its token is in the file, and it serves, with the
   * idle timer running if there is a lease; with the address taken it has lost and nothing else changes.
   */
  lemma {:induction false} StartsExactly(cfg: Config, w: World, d: nat)
    requires Good(cfg, w) && d < |w.procs| && w.procs[d].phase == Booting
    ensures var t := Run(cfg, w, [Bind(d), Rename(d), TokenInPlace(d)]);
      |t.procs| == |w.procs| && t.procs == w.procs[d := t.procs[d]]
      && if w.listener == None
         then t.listener == Some(d) && t.token == Some(d) && t.writers == w.writers + {d}
              && t.procs[d] == w.procs[d].(phase := Serving, timer := cfg.idleMs > 0)
         else t.listener == w.listener && t.token == w.token && t.writers == w.writers
              && t.procs[d] == w.procs[d].(phase := Lost)
  {
    var p := w.procs[d];
    assert Sane(cfg, p) && Fits(w, d, p);
    assert p.clients == {} && !p.timer;
    RunThree(cfg, w, Bind(d), Rename(d), TokenInPlace(d));
    hide Sane, Good, Run;
    var w1 := Step(cfg, w, Bind(d));
    var w2 := Step(cfg, w1, Rename(d));
    if w.listener == None {
      assert w1.procs == w.procs[d := p.(phase := Writing)] && w1.listener == Some(d);
      assert w2.procs == w.procs[d := p.(phase := Renamed)] && w2.listener == Some(d) && w2.token == Some(d);
    } else {
      assert w1.procs == w.procs[d := p.(phase := Lost)] && w1.listener == w.listener;
      assert w2 == w1;
    }
  }

  /** A process that cannot write its token gives the address back and leaves the file alone. */
  lemma {:induction false} WriteFailureFrees(cfg: Config, w: World, d: nat)
    requires Good(cfg, w) && d < |w.procs| && w.procs[d].phase == Writing
    ensures var t := Step(cfg, w, RenameFails(d));
      t == World(w.procs[d := w.procs[d].(phase := WriteFailed)], None, w.token, w.writers)
  {
    assert Fits(w, d, w.procs[d]);
  }

  /**
   * A closing process leaves once its last connection is gone, and takes its token along only if it is still
   * its own.
   */
  lemma {:induction false} LeavesWithItsToken(cfg: Config, w: World, d: nat)
    requires Good(cfg, w) && d < |w.procs|
    ensures var t, p := Step(cfg, w, Unlink(d)), w.procs[d];
      if p.phase == Closing && p.sockets == {}
      then t == w.(procs := w.procs[d := p.(phase := Gone)], token := if w.token == Some(d) then None else w.token)
      else t == w
  {
    assert Fits(w, d, w.procs[d]);
  }

  /** What a serving process is asked, told, or left by reaches it and no other. */
  lemma {:induction false} ServingTakesDeeds(cfg: Config, w: World, d: nat, c: Socket, r: Request, how: Settled)
    requires Good(cfg, w) && Serves(w, d)
    ensures var p := w.procs[d];
      Step(cfg, w, Ask(d, c, r)) == w.(procs := w.procs[d := if c in p.clients then OnRequest(cfg, p, c, r) else p])
      && Step(cfg, w, Settle(d, how)) == w.(procs := w.procs[d := OnSettled(cfg, p, how)])
      && Step(cfg, w, Hangup(d, c)) == w.(procs := w.procs[d := if c in p.sockets then SocketClosed(cfg, p, c) else p])
  {
    assert Fits(w, d, w.procs[d]);
    hide Good, Apply;
  }

  /** Its timer and a call to close it act on it; once it is closing, the address is free. */
  lemma {:induction false} ServingCloses(cfg: Config, w: World, d: nat)
    requires Good(cfg, w) && Serves(w, d)
    ensures var p := w.procs[d];
      var after := if p.timer then IdleFires(cfg, p) else p;
      Step(cfg, w, CallClose(d)) == w.(procs := w.procs[d := Close(p)], listener := None)
      && Step(cfg, w, LeaseTimer(d)) ==
           w.(procs := w.procs[d := after], listener := if after.phase == Closing then None else Some(d))
  {
    assert Fits(w, d, w.procs[d]);
    hide Good;
  }

  /** A new process is the last one, and has done nothing yet. */
  lemma {:induction false} SpawnsOne(cfg: Config, w: World)
    ensures var t, n := Step(cfg, w, Spawn), |w.procs|;
      |t.procs| == n + 1 && t == w.(procs := t.procs) && t.procs[..n] == w.procs
      && t.procs[n] == Proc(Booting, map[], {}, {}, false, IDLE)
  {
  }

  /** A crash frees the address and leaves the token file behind. */
  lemma {:induction false} CrashFreesTheAddress(cfg: Config, w: World, d: nat)
    requires Good(cfg, w) && d < |w.procs|
    ensures Step(cfg, w, Crash(d)) ==
      w.(procs := w.procs[d := w.procs[d].(phase := Gone, timer := false)],
         listener := if w.listener == Some(d) then None else w.listener)
  {
  }
}
