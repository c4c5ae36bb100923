/**
 * What the daemon writes to one connection, request by request.
 *
 * The frames of each request follow `(started requeued)* started final`, or are a single
 * report for a `stats` request, and how far along they are says where the job is: waiting in
 * a lane, in a step, or over.
 *
 * The language is stated twice: `Spoken`, on the trace of one id, and `At`, a phase computed
 * from all frames of the connection. `PhaseReadsTrace` ties the two; the invariant `Line` and
 * the lemmas about single steps use the phase.
 */
module DaemonFrames {
  import opened Prelude
  import opened Daemon

  // ---------------------------------------------------------------- the frame language

  datatype Phase = Fresh | Queued | InStep | Ended | Broken

  function Move(p: Phase, f: Frame): Phase {
    match f
    case Started(_) => if p.Fresh? || p.Queued? then InStep else Broken
    case Requeued(_) => if p.InStep? then Queued else Broken
    case Final(_, reply) =>
      if reply.Report? then (if p.Fresh? then Ended else Broken) else if p.InStep? then Ended else Broken
  }

  /** The phase of request `id` after the frames `w` of a connection. */
  function At(w: seq<Frame>, id: nat): Phase {
    if w == [] then Fresh
    else
      var last := w[|w| - 1];
      var p := At(w[..|w| - 1], id);
      if last.id == id then Move(p, last) else p
  }

  lemma AtSnoc(w: seq<Frame>, f: Frame, id: nat)
    ensures At(w + [f], id) == if f.id == id then Move(At(w, id), f) else At(w, id)
  {
    assert (w + [f])[..|w|] == w;
  }

  /** The frames of one request among those of its connection. */
  function Trace(w: seq<Frame>, id: nat): seq<Frame> {
    if w == [] then []
    else
      var last := w[|w| - 1];
      Trace(w[..|w| - 1], id) + if last.id == id then [last] else []
  }

  /** A prefix of `(started requeued)* started final`. */
  ghost predicate Turns(f: seq<Frame>) {
    forall i | 0 <= i < |f| ::
      if i % 2 == 0 then f[i].Started?
      else f[i].Requeued? || (f[i].Final? && !f[i].reply.Report? && i == |f| - 1)
  }

  ghost predicate Spoken(f: seq<Frame>) {
    Turns(f) || (|f| == 1 && f[0].Final? && f[0].reply.Report?)
  }

  function PhaseOf(f: seq<Frame>): Phase
    requires Spoken(f)
  {
    if f == [] then Fresh
    else if f[|f| - 1].Final? then Ended
    else if f[|f| - 1].Started? then InStep
    else Queued
  }

  /** The phase is broken exactly when the frames leave the language; otherwise the last frame gives it. */
  lemma {:induction false} PhaseReadsTrace(w: seq<Frame>, id: nat)
    ensures !At(w, id).Broken? <==> Spoken(Trace(w, id))
    ensures Spoken(Trace(w, id)) ==> At(w, id) == PhaseOf(Trace(w, id))
  {
    if w != [] {
      var v, last := w[..|w| - 1], w[|w| - 1];
      PhaseReadsTrace(v, id);
      if last.id == id {
        LanguageStep(Trace(v, id), last);
        if At(v, id).Broken? { assert !Spoken(Trace(v, id)); }
      } else {
        assert Trace(w, id) == Trace(v, id);
      }
    }
  }

  lemma LanguageStep(f: seq<Frame>, x: Frame)
    ensures Spoken(f + [x]) <==> Spoken(f) && !Move(PhaseOf(f), x).Broken?
    ensures Spoken(f + [x]) ==> PhaseOf(f + [x]) == Move(PhaseOf(f), x)
  {
    var g, n := f + [x], |f|;
    assert forall i | 0 <= i < n :: g[i] == f[i];
    if n > 0 { assert n % 2 == 0 <==> (n - 1) % 2 == 1; }
    if Turns(g) {
      assert Turns(f);
      assert g[n] == x;
      if n % 2 == 0 {
        assert x.Started?;
        if n > 0 { assert g[n - 1] == f[n - 1] && f[n - 1].Requeued?; }
      } else {
        assert g[n - 1] == f[n - 1] && f[n - 1].Started?;
      }
      assert Spoken(f) && !Move(PhaseOf(f), x).Broken?;
    } else if Spoken(f) && n > 0 {
      assert !Spoken(g);
      if Turns(f) && !f[n - 1].Final? {
        var i :| 0 <= i <= n && !(if i % 2 == 0 then g[i].Started?
                                  else g[i].Requeued? || (g[i].Final? && !g[i].reply.Report? && i == n));
        assert i == n;
        assert (n - 1) % 2 == 0 <==> f[n - 1].Started?;
      }
    } else if n > 0 {
      assert !Turns(f);
      assert !Spoken(g);
    }
  }

  // ---------------------------------------------------------------- one connection at the daemon

  ghost predicate HasJob(accepted: seq<Job>, c: Socket, id: nat) {
    exists u: nat :: u < |accepted| && Names(accepted[u], c, id)
  }

  /** The client numbers its requests: no two jobs of the connection share an id. */
  ghost predicate Unique(accepted: seq<Job>, c: Socket) {
    forall a: nat, b: nat | a < b < |accepted| && accepted[a].socket == c && accepted[b].socket == c ::
      accepted[a].id != accepted[b].id
  }

  predicate Waiting(p: Phase) { p.Fresh? || p.Queued? }

  ghost predicate LaneWaits(c: Socket, w: seq<Frame>, q: seq<Job>) {
    forall i | 0 <= i < |q| && q[i].socket == c :: Waiting(At(w, q[i].id))
  }

  ghost predicate AnswersEnded(c: Socket, w: seq<Frame>, accepted: seq<Job>, answers: seq<Answer>) {
    forall i | 0 <= i < |answers| && answers[i].serial < |accepted| && accepted[answers[i].serial].socket == c ::
      At(w, accepted[answers[i].serial].id).Ended?
  }

  ghost predicate NoneBroken(w: seq<Frame>) { forall id: nat :: !At(w, id).Broken? }

  /** The frames written to a live connection say where each of its jobs is. */
  ghost predicate Line(c: Socket, s: Server) {
    var w := Wire(s, c);
    && NoneBroken(w)
    && (c !in s.destroyed ==>
          && LaneWaits(c, w, s.interactive)
          && LaneWaits(c, w, s.background)
          && (s.running.Some? && s.running.value.socket == c ==> At(w, s.running.value.id).InStep?)
          && AnswersEnded(c, w, s.accepted, s.answers))
  }

  /** Frames are only added, and only for ids of accepted jobs. */
  ghost predicate Extends(c: Socket, s: Server, t: Server) {
    && Wire(s, c) <= Wire(t, c)
    && s.accepted <= t.accepted
    && forall id: nat | !HasJob(t.accepted, c, id) :: At(Wire(t, c), id) == At(Wire(s, c), id)
  }

  ghost predicate RightFinal(h: Handlers, c: Socket, accepted: seq<Job>, f: Frame) {
    f.Final? && f.reply.Vectors? ==>
      exists u: nat :: u < |accepted| && Names(accepted[u], c, f.id) && accepted[u].work.Embed?
                       && f.reply.vectors == MapEmbed(h, accepted[u].work, accepted[u].work.texts)
  }

  ghost predicate RightFinals(h: Handlers, c: Socket, accepted: seq<Job>, w: seq<Frame>) {
    forall k | 0 <= k < |w| :: RightFinal(h, c, accepted, w[k])
  }

  ghost predicate Good(h: Handlers, c: Socket, s: Server) {
    Line(c, s) && RightFinals(h, c, s.accepted, Wire(s, c))
  }

  // ---------------------------------------------------------------- no two places, so no two ids

  /** `serial` is at none of the waiting, running or answered places. */
  ghost predicate Elsewhere(s: Server, serial: nat) {
    && (forall i | 0 <= i < |s.interactive| :: s.interactive[i].serial != serial)
    && (forall i | 0 <= i < |s.background| :: s.background[i].serial != serial)
    && (s.running.Some? ==> s.running.value.serial != serial)
    && (forall i | 0 <= i < |s.answers| :: s.answers[i].serial != serial)
  }

  /** What the pump shifted, or what was running, is nowhere else. */
  lemma TakenElsewhere(s: Server, serial: nat)
    requires Places(s)[serial] == 0
    ensures Elsewhere(s, serial)
  {
    assert forall i | 0 <= i < |s.interactive| :: Serials(s.interactive)[i] in multiset(Serials(s.interactive));
    assert forall i | 0 <= i < |s.background| :: Serials(s.background)[i] in multiset(Serials(s.background));
    assert forall i | 0 <= i < |s.answers| :: AnswerSerials(s.answers)[i] in multiset(AnswerSerials(s.answers));
  }

  lemma ShiftedElsewhere(s: Server, rest: Server, j: Job)
    requires Conserved(s) && s.running.None? && Shifted(s, rest, j)
    ensures Elsewhere(rest, j.serial)
  {
    if s.interactive != [] { PopFront(s.interactive); } else { PopFront(s.background); }
    assert Places(s) == Places(rest) + multiset{j.serial};
    UptoOnce(|s.accepted|, j.serial);
    TakenElsewhere(rest, j.serial);
  }

  lemma RunningElsewhere(s: Server)
    requires Conserved(s) && s.running.Some?
    ensures Elsewhere(s.(running := None), s.running.value.serial)
  {
    var rest := s.(running := None);
    assert Places(s) == Places(rest) + multiset{s.running.value.serial};
    UptoOnce(|s.accepted|, s.running.value.serial);
    TakenElsewhere(rest, s.running.value.serial);
  }

  /** Jobs of the connection elsewhere bear other ids. */
  ghost predicate OtherIds(c: Socket, s: Server, id: nat) {
    && (forall i | 0 <= i < |s.interactive| && s.interactive[i].socket == c :: s.interactive[i].id != id)
    && (forall i | 0 <= i < |s.background| && s.background[i].socket == c :: s.background[i].id != id)
    && (forall i | 0 <= i < |s.answers| && s.answers[i].serial < |s.accepted|
      && s.accepted[s.answers[i].serial].socket == c ::
          s.accepted[s.answers[i].serial].id != id)
  }

  lemma ElsewhereOtherIds(h: Handlers, c: Socket, s: Server, j: Job)
    requires LanesSound(h, s) && Unique(s.accepted, c) && Sound(h, s.accepted, j) && Names(j, c, j.id)
    requires Elsewhere(s, j.serial)
    ensures OtherIds(c, s, j.id)
  {
    assert Names(s.accepted[j.serial], c, j.id);
    forall i | 0 <= i < |s.interactive| && s.interactive[i].socket == c ensures s.interactive[i].id != j.id {
      assert Sound(h, s.accepted, s.interactive[i]);
    }
    forall i | 0 <= i < |s.background| && s.background[i].socket == c ensures s.background[i].id != j.id {
      assert Sound(h, s.accepted, s.background[i]);
    }
  }

  // ---------------------------------------------------------------- one frame more

  /** A frame for a job at no other place moves only that job's phase. */
  lemma FrameAdded(c: Socket, w: seq<Frame>, f: Frame)
    requires NoneBroken(w) && !Move(At(w, f.id), f).Broken?
    ensures NoneBroken(w + [f]) && At(w + [f], f.id) == Move(At(w, f.id), f)
    ensures forall id: nat | id != f.id :: At(w + [f], id) == At(w, id)
  {
    forall id: nat ensures At(w + [f], id) == if f.id == id then Move(At(w, id), f) else At(w, id) { AtSnoc(w, f, id); }
  }

  lemma SendExtends(c: Socket, s: Server, socket: Socket, f: Frame)
    requires socket == c ==> HasJob(s.accepted, c, f.id)
    ensures Extends(c, s, Send(s, socket, f))
  {
    if socket == c && c !in s.destroyed {
      forall id: nat | !HasJob(s.accepted, c, id) ensures At(Wire(s, c) + [f], id) == At(Wire(s, c), id) {
        AtSnoc(Wire(s, c), f, id);
      }
    }
  }

  lemma BeginOther(h: Handlers, c: Socket, s: Server, rest: Server, j: Job)
    requires Good(h, c, s) && s.running.None? && Shifted(s, rest, j) && j.socket != c
    ensures Good(h, c, Begin(rest, j)) && Extends(c, s, Begin(rest, j))
  {
    assert Wire(Begin(rest, j), c) == Wire(s, c);
  }

  lemma BeginOwn(h: Handlers, c: Socket, s: Server, rest: Server, j: Job)
    requires Good(h, c, s) && s.running.None? && Shifted(s, rest, j) && j.socket == c && c !in s.destroyed
    requires OtherIds(c, rest, j.id) && HasJob(s.accepted, c, j.id)
    ensures Good(h, c, Begin(rest, j)) && Extends(c, s, Begin(rest, j))
  {
    var w := Wire(s, c);
    assert Waiting(At(w, j.id));
    FrameAdded(c, w, Started(j.id));
    SendExtends(c, rest.(running := Some(j), starts := s.starts + [j.serial]), c, Started(j.id));
    var t := Begin(rest, j);
    assert Wire(t, c) == w + [Started(j.id)];
    hide At;
    assert RightFinals(h, c, t.accepted, w + [Started(j.id)]);
  }

  lemma BeginLine(h: Handlers, c: Socket, s: Server, rest: Server, j: Job)
    requires Core(h, s) && Unique(s.accepted, c) && Good(h, c, s)
    requires s.running.None? && Shifted(s, rest, j) && Live(s, j)
    ensures Good(h, c, Begin(rest, j)) && Extends(c, s, Begin(rest, j))
  {
    if j.socket == c {
      assert Sound(h, s.accepted, j);
      ShiftedElsewhere(s, rest, j);
      ElsewhereOtherIds(h, c, rest, j);
      assert Names(s.accepted[j.serial], c, j.id);
      hide Good, Core, Unique, OtherIds;
      BeginOwn(h, c, s, rest, j);
    } else {
      BeginOther(h, c, s, rest, j);
    }
  }

  lemma SkipLine(h: Handlers, c: Socket, s: Server, rest: Server, j: Job)
    requires Good(h, c, s) && s.running.None? && Shifted(s, rest, j)
    ensures Good(h, c, Drop(rest, j)) && Extends(c, s, Drop(rest, j))
  {
  }

  lemma {:induction false} NextLine(h: Handlers, c: Socket, s: Server)
    requires Core(h, s) && Unique(s.accepted, c) && Good(h, c, s) && s.running.None?
    ensures Good(h, c, Next(s)) && Extends(c, s, Next(s)) && Next(s).accepted == s.accepted
    decreases |s.interactive| + |s.background|
  {
    hide Core, Good, Unique;
    if s.interactive != [] || s.background != [] {
      var j := if s.interactive != [] then s.interactive[0] else s.background[0];
      var rest := if s.interactive != [] then s.(interactive := s.interactive[1..])
        else s.(background := s.background[1..]);
      assert Shifted(s, rest, j);
      if Live(s, j) {
        BeginLine(h, c, s, rest, j);
      } else {
        ShiftKeeps(h, s, rest, j);
        SkipLine(h, c, s, rest, j);
        NextLine(h, c, Drop(rest, j));
      }
    }
  }

  // ---------------------------------------------------------------- the step's end

  /** The settled job, `rest` being the state without it, gets one more frame. */
  ghost predicate Settling(h: Handlers, c: Socket, s: Server, rest: Server, j: Job) {
    && Core(h, s) && Unique(s.accepted, c) && Good(h, c, s)
    && s.running.Some? && rest == s.(running := None)
    && Sound(h, s.accepted, j) && j.serial == s.running.value.serial
  }

  lemma SettlingFacts(h: Handlers, c: Socket, s: Server, rest: Server, j: Job)
    requires Settling(h, c, s, rest, j) && j.socket == c
    ensures OtherIds(c, rest, j.id) && HasJob(s.accepted, c, j.id)
    ensures c !in s.destroyed ==> At(Wire(s, c), j.id).InStep?
    ensures s.running.value.socket == c && s.running.value.id == j.id
  {
    assert Sound(h, s.accepted, s.running.value);
    RunningElsewhere(s);
    ElsewhereOtherIds(h, c, rest, j);
    assert Names(s.accepted[j.serial], c, j.id);
  }

  lemma FinishOther(h: Handlers, c: Socket, s: Server, rest: Server, j: Job, reply: Reply)
    requires Settling(h, c, s, rest, j) && j.socket != c
    ensures Good(h, c, Finish(rest, j, reply)) && Extends(c, s, Finish(rest, j, reply))
  {
    assert Wire(Finish(rest, j, reply), c) == Wire(s, c);
    assert s.accepted[j.serial].socket != c;
  }

  lemma FinishOwn(h: Handlers, c: Socket, s: Server, rest: Server, j: Job, reply: Reply)
    requires Good(h, c, s) && rest == s.(running := None) && j.socket == c && c !in s.destroyed && !reply.Report?
    requires OtherIds(c, rest, j.id) && HasJob(s.accepted, c, j.id) && At(Wire(s, c), j.id).InStep?
    requires j.serial < |s.accepted| && Names(s.accepted[j.serial], c, j.id)
    requires RightAnswer(h, s.accepted, Answer(j.serial, reply))
    ensures Good(h, c, Finish(rest, j, reply)) && Extends(c, s, Finish(rest, j, reply))
  {
    var w, f := Wire(s, c), Final(j.id, reply);
    FrameAdded(c, w, f);
    SendExtends(c, rest.(answers := s.answers + [Answer(j.serial, reply)]), c, f);
    var t := Finish(rest, j, reply);
    assert Wire(t, c) == w + [f];
    hide At;
    assert RightFinal(h, c, s.accepted, f);
    assert RightFinals(h, c, t.accepted, w + [f]);
  }

  lemma FinishLine(h: Handlers, c: Socket, s: Server, rest: Server, j: Job, reply: Reply)
    requires Settling(h, c, s, rest, j) && RightAnswer(h, s.accepted, Answer(j.serial, reply))
    ensures Good(h, c, Finish(rest, j, reply)) && Extends(c, s, Finish(rest, j, reply))
  {
    if j.socket != c {
      FinishOther(h, c, s, rest, j, reply);
    } else {
      SettlingFacts(h, c, s, rest, j);
      if c in s.destroyed {
        assert Wire(Finish(rest, j, reply), c) == Wire(s, c);
      } else {
        assert Names(s.accepted[j.serial], c, j.id);
        FinishOwn(h, c, s, rest, j, reply);
      }
    }
  }

  lemma GiveUpLine(h: Handlers, c: Socket, s: Server, rest: Server, j: Job)
    requires Good(h, c, s) && rest == s.(running := None)
    ensures Good(h, c, Drop(rest, j)) && Extends(c, s, Drop(rest, j))
  {
    assert Wire(Drop(rest, j), c) == Wire(s, c);
  }

  lemma RequeueOther(h: Handlers, c: Socket, s: Server, rest: Server, j: Job)
    requires Good(h, c, s) && rest == s.(running := None) && (j.socket != c || c in s.destroyed)
    ensures Good(h, c, Requeue(rest, j)) && Extends(c, s, Requeue(rest, j))
  {
    assert Wire(Requeue(rest, j), c) == Wire(s, c);
  }

  lemma RequeueOwn(h: Handlers, c: Socket, s: Server, rest: Server, j: Job)
    requires Good(h, c, s) && rest == s.(running := None) && j.socket == c && c !in s.destroyed
    requires OtherIds(c, rest, j.id) && HasJob(s.accepted, c, j.id) && At(Wire(s, c), j.id).InStep?
    ensures Good(h, c, Requeue(rest, j)) && Extends(c, s, Requeue(rest, j))
  {
    var w, f := Wire(s, c), Requeued(j.id);
    FrameAdded(c, w, f);
    SendExtends(c, rest, c, f);
    var t := Requeue(rest, j);
    assert Wire(t, c) == w + [f];
    hide At;
    assert LaneWaits(c, w + [f], s.interactive) && LaneWaits(c, w + [f], s.background);
    assert RightFinals(h, c, t.accepted, w + [f]);
  }

  lemma RequeueLine(h: Handlers, c: Socket, s: Server, rest: Server, j: Job)
    requires Settling(h, c, s, rest, j)
    ensures Good(h, c, Requeue(rest, j)) && Extends(c, s, Requeue(rest, j))
  {
    if j.socket == c && c !in s.destroyed {
      SettlingFacts(h, c, s, rest, j);
      RequeueOwn(h, c, s, rest, j);
    } else {
      RequeueOther(h, c, s, rest, j);
    }
  }

  lemma ConcludeLine(h: Handlers, c: Socket, s: Server, r: Settled)
    requires Core(h, s) && Unique(s.accepted, c) && Good(h, c, s) && s.running.Some?
    ensures Good(h, c, Conclude(h, s, r)) && Extends(c, s, Conclude(h, s, r))
  {
    var j, rest := s.running.value, s.(running := None);
    if r.Threw? {
      FinishLine(h, c, s, rest, j, Failed(r.error));
    } else if j.work.Whole? {
      FinishLine(h, c, s, rest, j, Value(r.value));
    } else {
      AdvanceSound(h, s.accepted, j);
      var k := Advance(h, j);
      hide Core, Good, Unique, Advance, Finish, Requeue;
      if k.offset >= |k.work.texts| {
        FinishLine(h, c, s, rest, k, Vectors(k.vectors));
      } else if IsCancelled(rest, k) {
        GiveUpLine(h, c, s, rest, k);
      } else {
        RequeueLine(h, c, s, rest, k);
      }
    }
  }

  // ---------------------------------------------------------------- arrivals

  /** A new job of the connection must bring an id it has not used. */
  ghost predicate FreshFor(c: Socket, s: Server, socket: Socket, id: nat) {
    socket == c ==> At(Wire(s, c), id).Fresh? && !HasJob(s.accepted, c, id)
  }

  lemma EnqueueLine(h: Handlers, c: Socket, s: Server, j: Job)
    requires AnswersRight(h, s) && Unique(s.accepted, c) && Good(h, c, s) && FreshFor(c, s, j.socket, j.id)
    ensures var t := Enqueue(s, j); Good(h, c, t) && Unique(t.accepted, c) && Extends(c, s, t)
  {
    var t := Enqueue(s, j);
    assert Wire(t, c) == Wire(s, c);
    assert forall i | 0 <= i < |s.answers| :: RightAnswer(h, s.accepted, s.answers[i]);
    forall a: nat, b: nat | a < b < |t.accepted| && t.accepted[a].socket == c && t.accepted[b].socket == c
      ensures t.accepted[a].id != t.accepted[b].id
    {
      if b == |s.accepted| { assert Names(s.accepted[a], c, s.accepted[a].id); }
    }
    forall k | 0 <= k < |Wire(s, c)| ensures RightFinal(h, c, t.accepted, Wire(s, c)[k]) {
      var f := Wire(s, c)[k];
      assert RightFinal(h, c, s.accepted, f);
      if f.Final? && f.reply.Vectors? {
        var u: nat :| u < |s.accepted| && Names(s.accepted[u], c, f.id) && s.accepted[u].work.Embed?
                      && f.reply.vectors == MapEmbed(h, s.accepted[u].work, s.accepted[u].work.texts);
        assert t.accepted[u] == s.accepted[u];
      }
    }
  }

  lemma CancelLine(h: Handlers, c: Socket, s: Server, socket: Socket, target: nat)
    requires Good(h, c, s)
    ensures var t := ArriveCancel(s, socket, target); Good(h, c, t) && Extends(c, s, t)
  {
    assert Wire(ArriveCancel(s, socket, target), c) == Wire(s, c);
  }

  /** A report is the only frame of its id; every other id is as it was. */
  lemma StatsLine(h: Handlers, c: Socket, s: Server, socket: Socket, id: nat)
    requires Good(h, c, s) && LanesSound(h, s) && FreshFor(c, s, socket, id)
    ensures var t := Send(s, socket, Final(id, Report));
      Good(h, c, t) && Wire(s, c) <= Wire(t, c)
      && forall i: nat | socket != c || i != id :: At(Wire(t, c), i) == At(Wire(s, c), i)
  {
    var w, f := Wire(s, c), Final(id, Report);
    var t := Send(s, socket, f);
    if socket == c && c !in s.destroyed {
      FrameAdded(c, w, f);
      assert Wire(t, c) == w + [f];
      assert RightFinals(h, c, t.accepted, w + [f]);
      forall i | 0 <= i < |s.interactive| && s.interactive[i].socket == c ensures s.interactive[i].id != id {
        assert Sound(h, s.accepted, s.interactive[i]);
        assert Names(s.accepted[s.interactive[i].serial], c, s.interactive[i].id);
      }
      forall i | 0 <= i < |s.background| && s.background[i].socket == c ensures s.background[i].id != id {
        assert Sound(h, s.accepted, s.background[i]);
        assert Names(s.accepted[s.background[i].serial], c, s.background[i].id);
      }
      if s.running.Some? {
        assert Sound(h, s.accepted, s.running.value);
        assert Names(s.accepted[s.running.value.serial], s.running.value.socket, s.running.value.id);
      }
      forall i | 0 <= i < |s.answers| && s.answers[i].serial < |s.accepted|
        && s.accepted[s.answers[i].serial].socket == c
        ensures s.accepted[s.answers[i].serial].id != id
      {
        assert Names(s.accepted[s.answers[i].serial], c, s.accepted[s.answers[i].serial].id);
      }
    } else {
      assert Wire(t, c) == w;
    }
  }

  lemma ExtendsTrans(c: Socket, s: Server, m: Server, t: Server)
    requires Extends(c, s, m) && Extends(c, m, t)
    ensures Extends(c, s, t)
  {
    forall id: nat | !HasJob(t.accepted, c, id) ensures At(Wire(t, c), id) == At(Wire(s, c), id) {
      assert !HasJob(m.accepted, c, id);
    }
  }

  lemma SettleLine(h: Handlers, c: Socket, s: Server, r: Settled)
    requires Inv(h, s) && Unique(s.accepted, c) && Good(h, c, s) && s.running.Some?
    ensures var t := EndStep(h, s, r); Good(h, c, t) && Extends(c, s, t) && t.accepted == s.accepted
  {
    var m := Conclude(h, s, r);
    ConcludeKeeps(h, s, r);
    ConcludeAccepts(h, s, r);
    ConcludeLine(h, c, s, r);
    hide Conclude, Core, Good, Unique;
    NextLine(h, c, m);
    ExtendsTrans(c, s, m, Next(m));
  }

  lemma SubmitLine(h: Handlers, c: Socket, s: Server, j: Job)
    requires Inv(h, s) && Unique(s.accepted, c) && Good(h, c, s) && FreshFor(c, s, j.socket, j.id)
    requires j == Daemon.Fresh(s, j.socket, j.id, j.lane, j.work)
    ensures var m := Enqueue(s, j);
      var t := if m.running.Some? then m else Next(m);
      Good(h, c, t) && Extends(c, s, t) && t.accepted == s.accepted + [j] && Unique(t.accepted, c)
  {
    var m := Enqueue(s, j);
    EnqueueConserves(s, j);
    EnqueueTidy(h, s, j);
    assert Core(h, m);
    EnqueueLine(h, c, s, j);
    assert m.accepted == s.accepted + [j] && m.running == s.running;
    hide Enqueue, Core, Good, Unique;
    if m.running.None? {
      NextLine(h, c, m);
      ExtendsTrans(c, s, m, Next(m));
    }
  }
}
