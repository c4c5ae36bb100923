/**
 * The model daemon's scheduler (src/core/model-daemon-server.ts:136-260): one executor, an
 * interactive and a background lane, chunked embeds, cancels and dropped connections.
 *
 * Every stretch of code between two awaits is one function on `Server` values. `serial`
 * numbers the accepted jobs; it and the fields `accepted`, `starts`, `answers`, `dropped`
 * and `asked` are the history the theorems talk about, and no branch reads them.
 *
 * The invariant `Inv` says where every job is, that it still is the request it came from, and
 * that nothing is dropped without a reason; `RunKeeps` carries it over every run.
 */
module Daemon {
  import opened Prelude

  type Socket = nat
  type Text = string
  type Vector = seq<real>

  datatype Lane = Interactive | Background
  datatype Pooling = Cls | Mean

  /** An embed with a list of texts runs in chunks; anything else is one handler call. */
  datatype Work =
    | Embed(pooling: Pooling, dimensions: nat, texts: seq<Text>)
    | Whole(op: string, args: string)

  datatype Request =
    | Submit(id: nat, lane: Lane, work: Work)
    | Cancel(id: nat, target: nat)
    | Stats(id: nat)

  datatype Reply = Vectors(vectors: seq<Vector>) | Value(value: string) | Report | Failed(error: string)
  datatype Frame = Started(id: nat) | Requeued(id: nat) | Final(id: nat, reply: Reply)

  /** The inference handlers: an embed is a function of one text, and `chunk` texts make a step. */
  datatype Handlers = Handlers(embed: (Pooling, nat, Text) -> Vector, chunk: nat)

  datatype Job = Job(serial: nat, socket: Socket, id: nat, lane: Lane, work: Work, offset: nat, vectors: seq<Vector>)
  datatype Answer = Answer(serial: nat, reply: Reply)

  datatype Server = Server(
    interactive: seq<Job>,
    background: seq<Job>,
    running: Option<Job>,
    cancelled: map<Socket, set<nat>>,
    destroyed: set<Socket>,
    wire: map<Socket, seq<Frame>>,
    accepted: seq<Job>,
    starts: seq<nat>,
    answers: seq<Answer>,
    dropped: seq<nat>,
    asked: set<(Socket, nat)>)

  const CANCEL_LIMIT: nat := 10_000

  const IDLE: Server := Server([], [], None, map[], {}, map[], [], [], [], [], {})

  // ---------------------------------------------------------------- the code between awaits

  function CancelSet(s: Server, socket: Socket): set<nat> {
    if socket in s.cancelled then s.cancelled[socket] else {}
  }

  predicate IsCancelled(s: Server, j: Job) { j.id in CancelSet(s, j.socket) }

  predicate Live(s: Server, j: Job) { j.socket !in s.destroyed && !IsCancelled(s, j) }

  /** Everything ever written to a connection, in order. */
  function Wire(s: Server, socket: Socket): seq<Frame> {
    if socket in s.wire then s.wire[socket] else []
  }

  /** A write to a destroyed socket is skipped. */
  function Send(s: Server, socket: Socket, frame: Frame): Server {
    if socket in s.destroyed then s else s.(wire := s.wire[socket := Wire(s, socket) + [frame]])
  }

  function Drop(s: Server, j: Job): Server { s.(dropped := s.dropped + [j.serial]) }

  function Begin(s: Server, j: Job): Server {
    Send(s.(running := Some(j), starts := s.starts + [j.serial]), j.socket, Started(j.id))
  }

  function Finish(s: Server, j: Job, reply: Reply): Server {
    Send(s.(answers := s.answers + [Answer(j.serial, reply)]), j.socket, Final(j.id, reply))
  }

  /** Back in the queue between chunks: an interactive job last, a background job first. */
  function Requeue(s: Server, j: Job): Server {
    var s' := Send(s, j.socket, Requeued(j.id));
    if j.lane.Interactive? then s'.(interactive := s'.interactive + [j]) else s'.(background := [j] + s'.background)
  }

  /** The pump's loop up to its next await: skip dead jobs, begin the first live one. */
  function Next(s: Server): Server
    requires s.running.None?
    decreases |s.interactive| + |s.background|
  {
    if s.interactive != [] then
      var j := s.interactive[0];
      var rest := s.(interactive := s.interactive[1..]);
      if Live(s, j) then Begin(rest, j) else Next(Drop(rest, j))
    else if s.background != [] then
      var j := s.background[0];
      var rest := s.(background := s.background[1..]);
      if Live(s, j) then Begin(rest, j) else Next(Drop(rest, j))
    else s
  }

  predicate Names(j: Job, c: Socket, id: nat) { j.socket == c && j.id == id }

  predicate Absent(q: seq<Job>, c: Socket, id: nat) { forall i | 0 <= i < |q| :: !Names(q[i], c, id) }

  predicate InLane(s: Server, c: Socket, id: nat) { !Absent(s.interactive, c, id) || !Absent(s.background, c, id) }

  predicate IsRunning(s: Server, c: Socket, id: nat) { s.running.Some? && Names(s.running.value, c, id) }

  function IndexOf(q: seq<Job>, socket: Socket, id: nat): (i: nat)
    ensures i <= |q|
    ensures i < |q| ==> Names(q[i], socket, id)
    ensures forall k | 0 <= k < i :: !Names(q[k], socket, id)
  {
    if q == [] then 0
    else if Names(q[0], socket, id) then 0
    else 1 + IndexOf(q[1..], socket, id)
  }

  function Without(q: seq<Job>, i: nat): seq<Job> {
    if i < |q| then q[..i] + q[i + 1..] else q
  }

  function Picked(q: seq<Job>, i: nat): seq<nat> {
    if i < |q| then [q[i].serial] else []
  }

  /** The entry remembers the id, forgetting all others when it already holds the limit. */
  function Remember(held: set<nat>, target: nat): set<nat> {
    (if |held| >= CANCEL_LIMIT then {} else held) + {target}
  }

  function ArriveCancel(s: Server, socket: Socket, target: nat): Server {
    var i := IndexOf(s.interactive, socket, target);
    var b := IndexOf(s.background, socket, target);
    s.(cancelled := s.cancelled[socket := Remember(CancelSet(s, socket), target)],
       asked := s.asked + {(socket, target)},
       interactive := Without(s.interactive, i),
       background := Without(s.background, b),
       dropped := s.dropped + Picked(s.interactive, i) + Picked(s.background, b))
  }

  function Fresh(s: Server, socket: Socket, id: nat, lane: Lane, work: Work): Job {
    Job(|s.accepted|, socket, id, lane, work, 0, [])
  }

  function Enqueue(s: Server, j: Job): Server {
    var s' := s.(accepted := s.accepted + [j]);
    if j.lane.Background? then s'.(background := s'.background + [j]) else s'.(interactive := s'.interactive + [j])
  }

  /** A request frame on an authenticated connection. */
  function Arrive(s: Server, socket: Socket, request: Request): Server {
    match request
    case Cancel(_, target) => ArriveCancel(s, socket, target)
    case Stats(id) => Send(s, socket, Final(id, Report))
    case Submit(id, lane, work) =>
      var s' := Enqueue(s, Fresh(s, socket, id, lane, work));
      if s'.running.Some? then s' else Next(s')
  }

  /** How a handler call settles; an embed's vectors come from the handler, see `Advance`. */
  datatype Settled = Returned(value: string) | Threw(error: string)

  function Min(a: nat, b: nat): nat { if a <= b then a else b }

  function MapEmbed(h: Handlers, w: Work, texts: seq<Text>): seq<Vector>
    requires w.Embed?
  {
    seq(|texts|, i requires 0 <= i < |texts| => h.embed(w.pooling, w.dimensions, texts[i]))
  }

  /** One embed step: the next slice (all texts when `chunk` is 0) is embedded and appended. */
  function Advance(h: Handlers, j: Job): Job
    requires j.work.Embed?
  {
    var texts := j.work.texts;
    var size := if h.chunk > 0 then h.chunk else |texts|;
    var lo := Min(j.offset, |texts|);
    var slice := texts[lo..Min(lo + size, |texts|)];
    j.(vectors := j.vectors + MapEmbed(h, j.work, slice), offset := j.offset + |slice|)
  }

  /** The running step settles: answer, or requeue, or drop; then the pump goes on. */
  function EndStep(h: Handlers, s: Server, r: Settled): Server
    requires s.running.Some?
  {
    Next(Conclude(h, s, r))
  }

  function Conclude(h: Handlers, s: Server, r: Settled): (s': Server)
    requires s.running.Some?
    ensures s'.running.None?
  {
    var j := s.running.value;
    var rest := s.(running := None);
    match r
    case Threw(error) => Finish(rest, j, Failed(error))
    case Returned(value) =>
      if j.work.Whole? then Finish(rest, j, Value(value))
      else
        var k := Advance(h, j);
        if k.offset >= |k.work.texts| then Finish(rest, k, Vectors(k.vectors))
        else if IsCancelled(rest, k) then Drop(rest, k)
        else Requeue(rest, k)
  }

  // ---------------------------------------------------------------- runs

  datatype Event =
    | Arrived(socket: Socket, request: Request)
    | StepSettled(result: Settled)
    | Disconnected(socket: Socket)

  /** Frames on a destroyed connection are not read; a step settles only if one is running. */
  function Apply(h: Handlers, s: Server, e: Event): Server {
    match e
    case Arrived(socket, request) => if socket in s.destroyed then s else Arrive(s, socket, request)
    case StepSettled(r) => if s.running.None? then s else EndStep(h, s, r)
    case Disconnected(socket) => s.(destroyed := s.destroyed + {socket})
  }

  function Run(h: Handlers, s: Server, es: seq<Event>): Server
    decreases |es|
  {
    if es == [] then s else Run(h, Apply(h, s, es[0]), es[1..])
  }

  // ---------------------------------------------------------------- the invariant

  function Serials(q: seq<Job>): (r: seq<nat>)
    ensures |r| == |q| && forall i | 0 <= i < |q| :: r[i] == q[i].serial
  {
    seq(|q|, i requires 0 <= i < |q| => q[i].serial)
  }

  function AnswerSerials(a: seq<Answer>): (r: seq<nat>)
    ensures |r| == |a| && forall i | 0 <= i < |a| :: r[i] == a[i].serial
  {
    seq(|a|, i requires 0 <= i < |a| => a[i].serial)
  }

  function Upto(n: nat): (r: seq<nat>)
    ensures |r| == n && forall i | 0 <= i < n :: r[i] == i
  {
    seq(n, i => i)
  }

  ghost function RunningBag(r: Option<Job>): multiset<nat> {
    if r.Some? then multiset{r.value.serial} else multiset{}
  }

  /** Where every job is, with multiplicity. */
  ghost function Places(s: Server): multiset<nat> {
    multiset(Serials(s.interactive)) + multiset(Serials(s.background)) + RunningBag(s.running)
    + multiset(AnswerSerials(s.answers)) + multiset(s.dropped)
  }

  ghost predicate Conserved(s: Server) { Places(s) == multiset(Upto(|s.accepted|)) }

  /** A job is still the request it was accepted as, and its vectors are those of its first texts. */
  ghost predicate Sound(h: Handlers, accepted: seq<Job>, j: Job) {
    && j.serial < |accepted|
    && accepted[j.serial] == j.(offset := 0, vectors := [])
    && (j.work.Embed? ==>
          j.offset == |j.vectors| <= |j.work.texts| && j.vectors == MapEmbed(h, j.work, j.work.texts[..j.offset]))
  }

  /** An answered embed carries the vector of every text, in order. */
  ghost predicate RightAnswer(h: Handlers, accepted: seq<Job>, a: Answer) {
    && a.serial < |accepted|
    && (a.reply.Vectors? ==>
          var w := accepted[a.serial].work; w.Embed? && a.reply.vectors == MapEmbed(h, w, w.texts))
    && (a.reply.Value? ==> accepted[a.serial].work.Whole?)
    && !a.reply.Report?
  }

  /** Background serials ascend along the lane, behind the running background job. */
  ghost predicate BackgroundOrder(s: Server) {
    && (forall i, k | 0 <= i < k < |s.background| :: s.background[i].serial < s.background[k].serial)
    && (s.running.Some? && s.running.value.lane.Background? ==>
          forall i | 0 <= i < |s.background| :: s.running.value.serial < s.background[i].serial)
  }

  ghost predicate Excused(s: Server, serial: nat) {
    serial < |s.accepted| &&
    var j := s.accepted[serial];
    j.socket in s.destroyed || (j.socket, j.id) in s.asked
  }

  ghost predicate LanesSound(h: Handlers, s: Server) {
    && (forall i | 0 <= i < |s.interactive| ::
          s.interactive[i].lane.Interactive? && Sound(h, s.accepted, s.interactive[i]))
    && (forall i | 0 <= i < |s.background| :: s.background[i].lane.Background? && Sound(h, s.accepted, s.background[i]))
    && (s.running.Some? ==> Sound(h, s.accepted, s.running.value))
  }

  ghost predicate AnswersRight(h: Handlers, s: Server) {
    forall i | 0 <= i < |s.answers| :: RightAnswer(h, s.accepted, s.answers[i])
  }

  ghost predicate DropsExcused(s: Server) {
    && (forall i | 0 <= i < |s.dropped| :: Excused(s, s.dropped[i]))
    && (forall c, id | c in s.cancelled && id in s.cancelled[c] :: (c, id) in s.asked)
  }

  ghost predicate Tidy(h: Handlers, s: Server) {
    LanesSound(h, s) && AnswersRight(h, s) && DropsExcused(s) && BackgroundOrder(s)
  }

  ghost predicate Core(h: Handlers, s: Server) { Conserved(s) && Tidy(h, s) }

  /** `busy` is false only when both lanes are empty. */
  ghost predicate Settles(s: Server) { s.running.None? ==> s.interactive == [] && s.background == [] }

  ghost predicate Inv(h: Handlers, s: Server) { Core(h, s) && Settles(s) }

  // ---------------------------------------------------------------- preservation

  lemma {:induction false} UptoOnce(n: nat, u: nat)
    ensures multiset(Upto(n))[u] == if u < n then 1 else 0
  {
    if n > 0 {
      UptoOnce(n - 1, u);
      assert Upto(n) == Upto(n - 1) + [n - 1];
    }
  }

  lemma SerialsConcat(a: seq<Job>, b: seq<Job>)
    ensures Serials(a + b) == Serials(a) + Serials(b)
  {
  }

  lemma PopFront(q: seq<Job>)
    requires q != []
    ensures multiset(Serials(q)) == multiset{q[0].serial} + multiset(Serials(q[1..]))
  {
    SerialsConcat([q[0]], q[1..]);
    assert [q[0]] + q[1..] == q;
    assert Serials([q[0]]) == [q[0].serial];
  }

  lemma PushBack(q: seq<Job>, j: Job)
    ensures multiset(Serials(q + [j])) == multiset(Serials(q)) + multiset{j.serial}
  {
    SerialsConcat(q, [j]);
    assert Serials([j]) == [j.serial];
  }

  lemma PushFront(q: seq<Job>, j: Job)
    ensures multiset(Serials([j] + q)) == multiset(Serials(q)) + multiset{j.serial}
  {
    SerialsConcat([j], q);
    assert Serials([j]) == [j.serial];
  }

  lemma TakeOut(q: seq<Job>, i: nat)
    ensures multiset(Serials(q)) == multiset(Serials(Without(q, i))) + multiset(Picked(q, i))
  {
    if i < |q| {
      assert q == q[..i] + ([q[i]] + q[i + 1..]);
      SerialsConcat(q[..i], [q[i]] + q[i + 1..]);
      SerialsConcat([q[i]], q[i + 1..]);
      SerialsConcat(q[..i], q[i + 1..]);
      assert Serials([q[i]]) == [q[i].serial];
    }
  }

  lemma MoreAnswers(a: seq<Answer>, x: Answer)
    ensures multiset(AnswerSerials(a + [x])) == multiset(AnswerSerials(a)) + multiset{x.serial}
  {
    assert AnswerSerials(a + [x]) == AnswerSerials(a) + [x.serial];
  }

  /** `rest` is `s` with the job `j` the pump shifted removed from its lane. */
  ghost predicate Shifted(s: Server, rest: Server, j: Job) {
    if s.interactive != [] then j == s.interactive[0] && rest == s.(interactive := s.interactive[1..])
    else s.background != [] && j == s.background[0] && rest == s.(background := s.background[1..])
  }

  lemma ShiftPlaces(s: Server, rest: Server, j: Job)
    requires Shifted(s, rest, j)
    ensures Places(s) == Places(rest) + multiset{j.serial}
  {
    if s.interactive != [] { PopFront(s.interactive); } else { PopFront(s.background); }
    hide Serials, AnswerSerials;
  }

  lemma BeginConserves(s: Server, rest: Server, j: Job)
    requires Conserved(s) && s.running.None? && Shifted(s, rest, j)
    ensures Conserved(Begin(rest, j))
  {
    var s' := Begin(rest, j);
    ShiftPlaces(s, rest, j);
    assert rest.running.None? && s'.accepted == rest.accepted == s.accepted;
    assert s'.interactive == rest.interactive && s'.background == rest.background && s'.running == Some(j);
    assert s'.answers == rest.answers && s'.dropped == rest.dropped;
    hide Serials, AnswerSerials, Begin, Shifted;
    assert Places(s') == Places(rest) + multiset{j.serial};
  }

  lemma SkipConserves(s: Server, rest: Server, j: Job)
    requires Conserved(s) && s.running.None? && Shifted(s, rest, j)
    ensures Conserved(Drop(rest, j))
  {
    ShiftPlaces(s, rest, j);
    assert rest.accepted == s.accepted;
    hide Serials, AnswerSerials, Shifted;
    assert multiset(rest.dropped + [j.serial]) == multiset(rest.dropped) + multiset{j.serial};
    assert Places(Drop(rest, j)) == Places(rest) + multiset{j.serial};
  }

  lemma BeginTidy(h: Handlers, s: Server, rest: Server, j: Job)
    requires Tidy(h, s) && s.running.None? && Shifted(s, rest, j)
    ensures Tidy(h, Begin(rest, j))
  {
    assert Sound(h, s.accepted, j);
    KeepExcuses(s, Begin(rest, j), []);
    hide Sound, RightAnswer, Excused, DropsExcused;
    var t := Begin(rest, j);
    assert t.interactive == rest.interactive && t.background == rest.background && t.running == Some(j);
    assert t.accepted == s.accepted && t.answers == s.answers;
    hide Begin;
  }

  lemma SkipTidy(h: Handlers, s: Server, rest: Server, j: Job)
    requires Tidy(h, s) && s.running.None? && Shifted(s, rest, j) && !Live(s, j)
    ensures Tidy(h, Drop(rest, j))
  {
    assert Sound(h, s.accepted, j);
    KeepExcuses(s, Drop(rest, j), [j.serial]);
    hide Sound, RightAnswer, Excused;
  }

  lemma ShiftKeeps(h: Handlers, s: Server, rest: Server, j: Job)
    requires Core(h, s) && s.running.None? && Shifted(s, rest, j)
    ensures Core(h, Begin(rest, j))
    ensures !Live(s, j) ==> Core(h, Drop(rest, j))
  {
    BeginConserves(s, rest, j);
    SkipConserves(s, rest, j);
    BeginTidy(h, s, rest, j);
    if !Live(s, j) { SkipTidy(h, s, rest, j); }
  }

  /** More connections lost, more cancels, more jobs: an excuse stays one. */
  lemma KeepExcuses(s: Server, s': Server, more: seq<nat>)
    requires DropsExcused(s)
    requires s.accepted <= s'.accepted && s.destroyed <= s'.destroyed && s.asked <= s'.asked
    requires s'.dropped == s.dropped + more
    requires forall i | 0 <= i < |more| :: Excused(s', more[i])
    requires forall c, id | c in s'.cancelled && id in s'.cancelled[c] :: (c, id) in s'.asked
    ensures DropsExcused(s')
  {
    forall i | 0 <= i < |s'.dropped| ensures Excused(s', s'.dropped[i]) {
      if i < |s.dropped| { assert Excused(s, s.dropped[i]); }
    }
  }

  /** What the pump does not touch; a job it skips is dropped, and one it begins is the one that runs. */
  lemma {:induction false} NextLeaves(s: Server)
    requires s.running.None?
    ensures var t := Next(s);
      t.accepted == s.accepted && t.answers == s.answers && t.asked == s.asked
      && t.cancelled == s.cancelled && t.destroyed == s.destroyed && s.dropped <= t.dropped
      && t.starts == if t.running.Some? then s.starts + [t.running.value.serial] else s.starts
    decreases |s.interactive| + |s.background|
  {
    if s.interactive != [] {
      var rest := s.(interactive := s.interactive[1..]);
      if !Live(s, s.interactive[0]) { NextLeaves(Drop(rest, s.interactive[0])); }
    } else if s.background != [] {
      var rest := s.(background := s.background[1..]);
      if !Live(s, s.background[0]) { NextLeaves(Drop(rest, s.background[0])); }
    }
  }

  lemma {:induction false} NextKeeps(h: Handlers, s: Server)
    requires Core(h, s) && s.running.None?
    ensures Inv(h, Next(s))
    decreases |s.interactive| + |s.background|
  {
    if s.interactive != [] {
      var j := s.interactive[0];
      var rest := s.(interactive := s.interactive[1..]);
      ShiftKeeps(h, s, rest, j);
      if !Live(s, j) { NextKeeps(h, Drop(rest, j)); }
    } else if s.background != [] {
      var j := s.background[0];
      var rest := s.(background := s.background[1..]);
      ShiftKeeps(h, s, rest, j);
      if !Live(s, j) { NextKeeps(h, Drop(rest, j)); }
    }
  }

  lemma EnqueueConserves(s: Server, j: Job)
    requires Conserved(s) && j.serial == |s.accepted|
    ensures Conserved(Enqueue(s, j))
  {
    var s' := Enqueue(s, j);
    PushBack(s.interactive, j);
    PushBack(s.background, j);
    assert Upto(|s'.accepted|) == Upto(|s.accepted|) + [j.serial];
    assert Places(s') == Places(s) + multiset{j.serial};
  }

  lemma FreshSound(h: Handlers, s: Server, j: Job)
    requires j == Fresh(s, j.socket, j.id, j.lane, j.work)
    ensures Sound(h, s.accepted + [j], j)
  {
    if j.work.Embed? { assert MapEmbed(h, j.work, j.work.texts[..0]) == []; }
  }

  lemma MoreSound(h: Handlers, accepted: seq<Job>, j: Job, x: Job)
    requires Sound(h, accepted, x)
    ensures Sound(h, accepted + [j], x)
  {
  }

  lemma EnqueueLanes(h: Handlers, s: Server, j: Job)
    requires LanesSound(h, s) && Sound(h, s.accepted + [j], j)
    ensures LanesSound(h, Enqueue(s, j))
  {
    forall x | Sound(h, s.accepted, x) ensures Sound(h, s.accepted + [j], x) { MoreSound(h, s.accepted, j, x); }
    hide Sound;
  }

  lemma EnqueueTidy(h: Handlers, s: Server, j: Job)
    requires Core(h, s)
    requires j == Fresh(s, j.socket, j.id, j.lane, j.work)
    ensures Tidy(h, Enqueue(s, j))
  {
    KeepExcuses(s, Enqueue(s, j), []);
    FreshSound(h, s, j);
    EnqueueLanes(h, s, j);
    forall i | 0 <= i < |s.background| ensures s.background[i].serial < j.serial {
      assert Sound(h, s.accepted, s.background[i]);
    }
    assert AnswersRight(h, Enqueue(s, j)) by {
      forall i | 0 <= i < |s.answers| ensures RightAnswer(h, s.accepted + [j], s.answers[i]) {
        assert RightAnswer(h, s.accepted, s.answers[i]);
      }
    }
    hide LanesSound, DropsExcused, AnswersRight, Conserved;
  }

  lemma CancelConserves(s: Server, socket: Socket, target: nat)
    requires Conserved(s)
    ensures Conserved(ArriveCancel(s, socket, target))
  {
    var i := IndexOf(s.interactive, socket, target);
    var b := IndexOf(s.background, socket, target);
    TakeOut(s.interactive, i);
    TakeOut(s.background, b);
    var s' := ArriveCancel(s, socket, target);
    assert multiset(s'.dropped) == multiset(s.dropped) + multiset(Picked(s.interactive, i))
      + multiset(Picked(s.background, b));
    assert Places(s') == Places(s);
  }

  lemma WithoutSound(h: Handlers, accepted: seq<Job>, q: seq<Job>, lane: Lane, i: nat)
    requires forall k | 0 <= k < |q| :: q[k].lane == lane && Sound(h, accepted, q[k])
    ensures forall k | 0 <= k < |Without(q, i)| :: Without(q, i)[k].lane == lane && Sound(h, accepted, Without(q, i)[k])
  {
  }

  lemma CancelLanes(h: Handlers, s: Server, socket: Socket, target: nat)
    requires LanesSound(h, s) && BackgroundOrder(s)
    ensures LanesSound(h, ArriveCancel(s, socket, target)) && BackgroundOrder(ArriveCancel(s, socket, target))
  {
    WithoutSound(h, s.accepted, s.interactive, Interactive, IndexOf(s.interactive, socket, target));
    WithoutSound(h, s.accepted, s.background, Background, IndexOf(s.background, socket, target));
    hide Sound;
  }

  lemma PickedExcused(h: Handlers, s: Server, q: seq<Job>, s': Server, socket: Socket, target: nat)
    requires forall k | 0 <= k < |q| :: Sound(h, s.accepted, q[k])
    requires s'.accepted == s.accepted && (socket, target) in s'.asked
    ensures var more := Picked(q, IndexOf(q, socket, target)); forall k | 0 <= k < |more| :: Excused(s', more[k])
  {
    var i := IndexOf(q, socket, target);
    if i < |q| { assert Sound(h, s.accepted, q[i]); }
  }

  lemma CancelAsked(s: Server, socket: Socket, target: nat)
    requires DropsExcused(s)
    ensures var s' := ArriveCancel(s, socket, target);
      forall c, id | c in s'.cancelled && id in s'.cancelled[c] :: (c, id) in s'.asked
  {
    hide Excused, IndexOf, Picked, Without;
  }

  lemma CancelExcuses(h: Handlers, s: Server, socket: Socket, target: nat)
    requires DropsExcused(s) && LanesSound(h, s)
    ensures DropsExcused(ArriveCancel(s, socket, target))
  {
    var s' := ArriveCancel(s, socket, target);
    CancelAsked(s, socket, target);
    PickedExcused(h, s, s.interactive, s', socket, target);
    PickedExcused(h, s, s.background, s', socket, target);
    hide LanesSound, Excused, IndexOf, Picked, Without, Remember;
    var a := Picked(s.interactive, IndexOf(s.interactive, socket, target));
    var b := Picked(s.background, IndexOf(s.background, socket, target));
    assert s'.dropped == s.dropped + a + b == s.dropped + (a + b);
    KeepExcuses(s, s', a + b);
  }

  lemma CancelTidy(h: Handlers, s: Server, socket: Socket, target: nat)
    requires Tidy(h, s)
    ensures Tidy(h, ArriveCancel(s, socket, target))
  {
    CancelLanes(h, s, socket, target);
    CancelExcuses(h, s, socket, target);
    hide LanesSound, BackgroundOrder, DropsExcused;
  }

  lemma AdvanceSound(h: Handlers, accepted: seq<Job>, j: Job)
    requires j.work.Embed? && Sound(h, accepted, j)
    ensures var k := Advance(h, j);
      Sound(h, accepted, k) && (k.offset >= |j.work.texts| ==> k.vectors == MapEmbed(h, j.work, j.work.texts))
  {
    var k := Advance(h, j);
    var texts := j.work.texts;
    assert texts[..k.offset] == texts[..j.offset] + texts[j.offset..k.offset];
    assert k.vectors == MapEmbed(h, j.work, texts[..k.offset]);
    if k.offset == |texts| { assert texts[..k.offset] == texts; }
  }

  lemma FinishConserves(s: Server, j: Job, reply: Reply)
    requires Conserved(s) && s.running.Some? && j.serial == s.running.value.serial
    ensures Conserved(Finish(s.(running := None), j, reply))
  {
    var s' := Finish(s.(running := None), j, reply);
    MoreAnswers(s.answers, Answer(j.serial, reply));
    assert s'.interactive == s.interactive && s'.background == s.background && s'.dropped == s.dropped;
    assert Places(s') == Places(s) && s'.accepted == s.accepted;
  }

  lemma FinishTidy(h: Handlers, s: Server, j: Job, reply: Reply)
    requires Tidy(h, s) && s.running.Some? && RightAnswer(h, s.accepted, Answer(j.serial, reply))
    ensures Tidy(h, Finish(s.(running := None), j, reply))
  {
    hide Sound, RightAnswer;
    KeepExcuses(s, Finish(s.(running := None), j, reply), []);
  }

  lemma FinishKeeps(h: Handlers, s: Server, j: Job, reply: Reply)
    requires Core(h, s) && s.running.Some? && j.serial == s.running.value.serial
    requires RightAnswer(h, s.accepted, Answer(j.serial, reply))
    ensures Core(h, Finish(s.(running := None), j, reply))
  {
    FinishConserves(s, j, reply);
    FinishTidy(h, s, j, reply);
    hide Conserved, Tidy, Finish;
  }

  lemma GiveUpKeeps(h: Handlers, s: Server, j: Job)
    requires Core(h, s) && s.running.Some? && j.serial == s.running.value.serial
    requires Excused(s, j.serial)
    ensures Core(h, Drop(s.(running := None), j))
  {
    var s' := Drop(s.(running := None), j);
    assert multiset(s'.dropped) == multiset(s.dropped) + multiset{j.serial};
    assert Places(s') == Places(s) && s'.accepted == s.accepted;
    KeepExcuses(s, s', [j.serial]);
  }

  lemma RequeueConserves(s: Server, j: Job)
    requires Conserved(s) && s.running.Some? && j.serial == s.running.value.serial
    ensures Conserved(Requeue(s.(running := None), j))
  {
    var s' := Requeue(s.(running := None), j);
    if j.lane.Interactive? {
      PushBack(s.interactive, j);
      assert s'.interactive == s.interactive + [j] && s'.background == s.background;
    } else {
      PushFront(s.background, j);
      assert s'.background == [j] + s.background && s'.interactive == s.interactive;
    }
    assert s'.answers == s.answers && s'.dropped == s.dropped && RunningBag(s'.running) == multiset{};
    assert Places(s') == Places(s) && s'.accepted == s.accepted;
  }

  lemma RequeueTidy(h: Handlers, s: Server, j: Job)
    requires Tidy(h, s) && s.running.Some?
    requires j.serial == s.running.value.serial && j.lane == s.running.value.lane && Sound(h, s.accepted, j)
    ensures Tidy(h, Requeue(s.(running := None), j))
  {
    KeepExcuses(s, Requeue(s.(running := None), j), []);
  }

  lemma ConcludeAccepts(h: Handlers, s: Server, r: Settled)
    requires s.running.Some?
    ensures Conclude(h, s, r).accepted == s.accepted
  {
  }

  lemma RequeueKeeps(h: Handlers, s: Server, j: Job)
    requires Core(h, s) && s.running.Some?
    requires j.serial == s.running.value.serial && j.lane == s.running.value.lane && Sound(h, s.accepted, j)
    ensures Core(h, Requeue(s.(running := None), j))
  {
    RequeueConserves(s, j);
    RequeueTidy(h, s, j);
    hide Conserved, Tidy, Requeue;
  }

  /** An embed's step: the answer, the end, or the next turn of `k`, the job one slice further. */
  lemma EmbedStepKeeps(h: Handlers, s: Server, k: Job)
    requires Core(h, s) && s.running.Some? && s.running.value.work.Embed? && k == Advance(h, s.running.value)
    ensures k.offset >= |k.work.texts| ==> Core(h, Finish(s.(running := None), k, Vectors(k.vectors)))
    ensures IsCancelled(s, k) ==> Core(h, Drop(s.(running := None), k))
    ensures Core(h, Requeue(s.(running := None), k))
  {
    var j := s.running.value;
    assert Sound(h, s.accepted, j);
    AdvanceSound(h, s.accepted, j);
    assert k.serial == j.serial && k.lane == j.lane && k.work == j.work && k.socket == j.socket && k.id == j.id;
    assert k.offset >= |k.work.texts| ==> RightAnswer(h, s.accepted, Answer(k.serial, Vectors(k.vectors)));
    assert IsCancelled(s, k) ==> Excused(s, k.serial);
    hide Conserved, Tidy, Core, Finish, Requeue, Advance, Sound, RightAnswer, Excused, IsCancelled;
    if k.offset >= |k.work.texts| { FinishKeeps(h, s, k, Vectors(k.vectors)); }
    if IsCancelled(s, k) { GiveUpKeeps(h, s, k); }
    RequeueKeeps(h, s, k);
  }

  lemma ConcludeKeeps(h: Handlers, s: Server, r: Settled)
    requires Core(h, s) && s.running.Some?
    ensures Core(h, Conclude(h, s, r))
  {
    var j := s.running.value;
    assert Sound(h, s.accepted, j);
    assert r.Returned? && j.work.Whole? ==> RightAnswer(h, s.accepted, Answer(j.serial, Value(r.value)));
    assert r.Threw? ==> RightAnswer(h, s.accepted, Answer(j.serial, Failed(r.error)));
    hide Conserved, Tidy, Core, Finish, Requeue, Advance, Sound, RightAnswer, Drop;
    if r.Threw? {
      FinishKeeps(h, s, j, Failed(r.error));
    } else if j.work.Whole? {
      FinishKeeps(h, s, j, Value(r.value));
    } else {
      EmbedStepKeeps(h, s, Advance(h, j));
    }
  }

  lemma SendKeeps(h: Handlers, s: Server, socket: Socket, frame: Frame)
    requires Core(h, s)
    ensures Core(h, Send(s, socket, frame))
  {
    var s' := Send(s, socket, frame);
    KeepExcuses(s, s', []);
    hide Sound, RightAnswer, Excused, Serials, AnswerSerials;
    assert Places(s') == Places(s);
  }

  lemma SubmitKeeps(h: Handlers, s: Server, j: Job)
    requires Inv(h, s) && j == Fresh(s, j.socket, j.id, j.lane, j.work)
    ensures var s' := Enqueue(s, j); Inv(h, if s'.running.Some? then s' else Next(s'))
  {
    EnqueueConserves(s, j);
    EnqueueTidy(h, s, j);
    if s.running.None? { NextKeeps(h, Enqueue(s, j)); }
  }

  lemma ArriveKeeps(h: Handlers, s: Server, socket: Socket, request: Request)
    requires Inv(h, s)
    ensures Inv(h, Arrive(s, socket, request))
  {
    if request.Cancel? {
      CancelConserves(s, socket, request.target);
      CancelTidy(h, s, socket, request.target);
      assert s.running.None? ==> Without(s.interactive, IndexOf(s.interactive, socket, request.target)) == [];
      assert s.running.None? ==> Without(s.background, IndexOf(s.background, socket, request.target)) == [];
    } else if request.Stats? {
      SendKeeps(h, s, socket, Final(request.id, Report));
    } else {
      SubmitKeeps(h, s, Fresh(s, socket, request.id, request.lane, request.work));
    }
  }

  lemma ApplyKeeps(h: Handlers, s: Server, e: Event)
    requires Inv(h, s)
    ensures Inv(h, Apply(h, s, e))
  {
    match e
    case Arrived(socket, request) =>
      if socket !in s.destroyed { ArriveKeeps(h, s, socket, request); }
    case StepSettled(r) =>
      if s.running.Some? {
        ConcludeKeeps(h, s, r);
        NextKeeps(h, Conclude(h, s, r));
      }
    case Disconnected(socket) =>
      KeepExcuses(s, Apply(h, s, e), []);
  }

  lemma {:induction false} RunKeeps(h: Handlers, s: Server, es: seq<Event>)
    requires Inv(h, s)
    ensures Inv(h, Run(h, s, es))
    decreases |es|
  {
    if es != [] {
      ApplyKeeps(h, s, es[0]);
      RunKeeps(h, Apply(h, s, es[0]), es[1..]);
    }
  }
}
