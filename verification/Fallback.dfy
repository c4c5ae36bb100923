// The fallback machine above the client (src/core/ml-worker.ts:277-369, 377-389): requests go to the
// daemon until it fails, then run in this process while probes ask, ever later, whether it is back.
module Fallback {
  import opened Prelude

  // Any number of requests, probes and warms interleave at their awaits. `ended`, `local`,
  // `probes`, `streak`, `delays` and `failedAt` record history; no branch of the source reads them.

  const RETRY_FIRST_MS: nat := 60_000
  const RETRY_MAX_MS: nat := 15 * 60_000

  /** How an attempt at the daemon ends. */
  datatype End = Answered | RemoteError | Disconnected | QueueTimeout | Unavailable

  /** One `dispatch`: the attempts that ended, whether one is open, and its in-process runs. */
  datatype Call = Call(ended: seq<End>, open: bool, local: nat)

  /** A probe under way: asked, or decided with the flag still to be cleared. */
  datatype Probe = Asked | Decided

  datatype Machine = Machine(
    enabled: bool,
    fallbackActive: bool,
    retryMs: nat,
    retryAt: nat,
    probing: bool,
    probes: seq<Probe>,
    queueTimeouts: nat,
    calls: map<nat, Call>,
    streak: nat,
    delays: seq<nat>,
    failedAt: nat)

  function Initial(enabled: bool): Machine {
    Machine(enabled, false, RETRY_FIRST_MS, 0, false, [], 0, map[], 0, [], 0)
  }

  function Min(a: nat, b: nat): nat { if a <= b then a else b }

  function Pow2(k: nat): (p: nat)
    ensures p >= 1
  {
    if k == 0 then 1 else 2 * Pow2(k - 1)
  }

  // ---------------------------------------------------------------- the steps

  function NoteFallback(m: Machine, now: nat): Machine {
    m.(retryAt := now + m.retryMs, retryMs := Min(m.retryMs * 2, RETRY_MAX_MS), fallbackActive := true,
       streak := m.streak + 1, delays := m.delays + [m.retryMs], failedAt := now)
  }

  function NoteConnected(m: Machine): Machine {
    m.(fallbackActive := false, retryMs := RETRY_FIRST_MS, streak := 0, delays := [])
  }

  function ProbeInBackground(m: Machine, now: nat): Machine {
    if m.probing || now < m.retryAt then m else m.(probing := true, probes := m.probes + [Asked])
  }

  function Put(m: Machine, id: nat, c: Call): Machine { m.(calls := m.calls[id := c]) }

  /** `dispatch` up to its first await. */
  function Dispatch(m: Machine, id: nat, now: nat): Machine {
    if !m.enabled then Put(m, id, Call([], false, 1))
    else if m.fallbackActive then Put(ProbeInBackground(m, now), id, Call([], false, 1))
    else Put(m, id, Call([], true, 0))
  }

  /** The await of an attempt settles: the loop goes on only after a first disconnect. */
  function After(c: Call, end: End): Call {
    var ended := c.ended + [end];
    match end
    case Answered => Call(ended, false, c.local)
    case RemoteError => Call(ended, false, c.local)
    case Disconnected => if |c.ended| == 0 then Call(ended, true, c.local) else Call(ended, false, c.local + 1)
    case _ => Call(ended, false, c.local + 1)
  }

  /** The ends that count as the daemon being down. */
  predicate IsDown(c: Call, end: End) { end.Unavailable? || (end.Disconnected? && |c.ended| > 0) }

  function Settle(m: Machine, id: nat, end: End, now: nat): Machine
    requires id in m.calls
  {
    var c := m.calls[id];
    var m' :=
      if IsDown(c, end) then NoteFallback(m, now)
      else if end.QueueTimeout? then m.(queueTimeouts := m.queueTimeouts + 1)
      else m;
    Put(m', id, After(c, end))
  }

  /** The probe's answer: healthy, or any failure, a wedged daemon too. */
  function ProbeAnswers(m: Machine, i: nat, healthy: bool, now: nat): Machine
    requires i < |m.probes|
  {
    (if healthy then NoteConnected(m) else NoteFallback(m, now)).(probes := m.probes[i := Decided])
  }

  /** `finally`: the flag is cleared, the probe is over. */
  function ProbeEnds(m: Machine, i: nat): Machine
    requires i < |m.probes|
  {
    m.(probing := false, probes := m.probes[..i] + m.probes[i + 1..])
  }

  function WarmSettles(m: Machine, end: End, now: nat): Machine {
    match end
    case Answered => NoteConnected(m)
    case RemoteError => m
    case _ => NoteFallback(m, now)
  }

  datatype Event =
    | Dispatched(id: nat)
    | Settled(id: nat, end: End)
    | ProbeAnswered(i: nat, healthy: bool)
    | ProbeEnded(i: nat)
    | Warmed(end: End)

  function Apply(m: Machine, e: Event, now: nat): Machine {
    match e
    case Dispatched(id) => if id in m.calls then m else Dispatch(m, id, now)
    case Settled(id, end) => if id in m.calls && m.calls[id].open then Settle(m, id, end, now) else m
    case ProbeAnswered(i, healthy) =>
      if i < |m.probes| && m.probes[i].Asked? then ProbeAnswers(m, i, healthy, now) else m
    case ProbeEnded(i) => if i < |m.probes| && m.probes[i].Decided? then ProbeEnds(m, i) else m
    case Warmed(end) => WarmSettles(m, end, now)
  }

  /** A run of timed events. */
  function Run(m: Machine, es: seq<(Event, nat)>): Machine
    decreases |es|
  {
    if es == [] then m else Run(Apply(m, es[0].0, es[0].1), es[1..])
  }

  // ---------------------------------------------------------------- the invariant

  /** The delay the k-th fallback since the last connect sets. */
  function Delay(k: nat): nat
    requires k > 0
  {
    if 60_000 * Pow2(k - 1) < 900_000 then 60_000 * Pow2(k - 1) else 900_000
  }

  ghost predicate Backoff(m: Machine) {
    && m.retryMs == Delay(m.streak + 1)
    && (m.fallbackActive <==> m.streak > 0)
    && |m.delays| == m.streak
    && (forall k | 0 < k <= m.streak :: m.delays[k - 1] == Delay(k))
    && (m.streak > 0 ==> m.retryAt == m.failedAt + Delay(m.streak))
  }

  /**
   * A dispatch makes at most two attempts, the second only after a first one that was
   * disconnected; it runs here exactly once if no attempt brought an answer or a remote
   * error, and then only when it is over, and never otherwise.
   */
  ghost predicate Proper(c: Call) {
    && |c.ended| <= 2
    && (c.open ==> |c.ended| <= 1 && c.local == 0 && (|c.ended| == 1 ==> c.ended[0] == Disconnected))
    && (|c.ended| == 2 ==> c.ended[0] == Disconnected)
    && (!c.open ==> c.ended != [Disconnected])
    && (!c.open ==>
          var answered := c.ended != [] && (c.ended[|c.ended| - 1].Answered? || c.ended[|c.ended| - 1].RemoteError?);
          c.local == if answered then 0 else 1)
  }

  /** The flag keeps probes apart: it is set exactly while one is under way. */
  ghost predicate Alone(m: Machine) { |m.probes| <= 1 && (m.probing <==> |m.probes| == 1) }

  ghost predicate Inv(m: Machine) {
    Backoff(m) && Alone(m) && forall id | id in m.calls :: Proper(m.calls[id])
  }

  lemma NextDelay(k: nat)
    requires k > 0
    ensures Min(Delay(k) * 2, RETRY_MAX_MS) == Delay(k + 1)
    ensures Delay(k) > RETRY_FIRST_MS <==> k > 1
  {
    assert Pow2(k) == 2 * Pow2(k - 1);
    if k > 1 { assert Pow2(k - 1) == 2 * Pow2(k - 2); }
  }

  lemma NoteFallbackKeeps(m: Machine, now: nat)
    requires Backoff(m)
    ensures Backoff(NoteFallback(m, now))
  {
    NextDelay(m.streak + 1);
  }

  lemma DelayOne()
    ensures Delay(1) == RETRY_FIRST_MS
  {
    assert Pow2(0) == 1;
  }

  lemma NoteConnectedKeeps(m: Machine)
    ensures Backoff(NoteConnected(m))
  {
    DelayOne();
  }

  /** `m` but for its probes, its calls and the count of queue timeouts, which are those of `n`. */
  function With(m: Machine, n: Machine): Machine {
    m.(probing := n.probing, probes := n.probes, queueTimeouts := n.queueTimeouts, calls := n.calls)
  }

  datatype Note = Down | Up

  /** What an event tells about the daemon: it is down, it is up, or nothing. */
  function NoteOf(m: Machine, e: Event): seq<Note> {
    match e
    case Settled(id, end) =>
      if id in m.calls && m.calls[id].open && (end == Unavailable || (end == Disconnected && m.calls[id].ended != []))
      then [Down] else []
    case ProbeAnswered(i, healthy) =>
      if i < |m.probes| && m.probes[i].Asked? then [if healthy then Up else Down] else []
    case Warmed(end) => if end.Answered? then [Up] else if end.RemoteError? then [] else [Down]
    case _ => []
  }

  /** An event leaves the backoff alone, notes a failure, or notes a connection. */
  lemma BackoffMoves(m: Machine, e: Event, now: nat)
    ensures var m', note := Apply(m, e, now), NoteOf(m, e);
      m' == With(if note == [] then m else if note == [Down] then NoteFallback(m, now) else NoteConnected(m), m')
  {
  }

  lemma BackoffKeeps(m: Machine, e: Event, now: nat)
    requires Backoff(m)
    ensures Backoff(Apply(m, e, now))
  {
    NoteFallbackKeeps(m, now);
    NoteConnectedKeeps(m);
    BackoffMoves(m, e, now);
    hide Delay, Apply, NoteFallback, NoteConnected, NoteOf;
  }

  lemma AloneKeeps(m: Machine, e: Event, now: nat)
    requires Alone(m)
    ensures Alone(Apply(m, e, now))
  {
  }

  lemma AfterKeeps(c: Call, end: End)
    requires Proper(c) && c.open
    ensures Proper(After(c, end))
  {
    assert (c.ended + [end])[|c.ended|] == end;
  }

  lemma CallsKeep(m: Machine, e: Event, now: nat, id: nat)
    requires id in m.calls ==> Proper(m.calls[id])
    ensures id in Apply(m, e, now).calls ==> Proper(Apply(m, e, now).calls[id])
  {
    if e.Settled? && id in m.calls && m.calls[id].open { AfterKeeps(m.calls[id], e.end); }
    assert Proper(Call([], false, 1)) && Proper(Call([], true, 0));
    hide Proper, After;
  }

  lemma ApplyKeeps(m: Machine, e: Event, now: nat)
    requires Inv(m)
    ensures Inv(Apply(m, e, now))
  {
    BackoffKeeps(m, e, now);
    AloneKeeps(m, e, now);
    hide Backoff, Alone, Proper, Apply;
    forall id | id in Apply(m, e, now).calls ensures Proper(Apply(m, e, now).calls[id]) {
      CallsKeep(m, e, now, id);
    }
  }

  lemma {:induction false} RunKeeps(m: Machine, es: seq<(Event, nat)>)
    requires Inv(m)
    ensures Inv(Run(m, es))
    decreases |es|
  {
    if es != [] {
      ApplyKeeps(m, es[0].0, es[0].1);
      RunKeeps(Apply(m, es[0].0, es[0].1), es[1..]);
    }
  }

  // ---------------------------------------------------------------- what every run keeps

  lemma Reachable(enabled: bool, es: seq<(Event, nat)>)
    ensures Inv(Run(Initial(enabled), es))
  {
    DelayOne();
    RunKeeps(Initial(enabled), es);
  }

  /** In fallback exactly when the retry delay has grown; its k-th failure in a row set Delay(k). */
  lemma BackoffIsExact(enabled: bool, es: seq<(Event, nat)>, k: nat)
    ensures var m := Run(Initial(enabled), es);
      (m.fallbackActive <==> m.retryMs > RETRY_FIRST_MS)
      && (0 < k <= m.streak ==>
            |m.delays| == m.streak && m.delays[k - 1] == Delay(k))
  {
    Reachable(enabled, es);
    var m := Run(Initial(enabled), es);
    NextDelay(m.streak + 1);
    if 0 < k <= m.streak { assert m.delays[k - 1] == Delay(k); }
  }

  lemma DispatchIsProper(enabled: bool, es: seq<(Event, nat)>, id: nat)
    requires id in Run(Initial(enabled), es).calls
    ensures Proper(Run(Initial(enabled), es).calls[id])
  {
    Reachable(enabled, es);
  }

  /** At most one probe is under way; another starts only in fallback and once the whole delay has passed. */
  lemma ProbeWaits(enabled: bool, es: seq<(Event, nat)>, e: Event, now: nat)
    ensures var m := Run(Initial(enabled), es);
      |m.probes| <= 1 && (m.probing <==> |m.probes| == 1)
      && (|Apply(m, e, now).probes| > |m.probes| ==>
            m.probes == [] && m.fallbackActive && m.streak > 0 && now >= m.failedAt + Delay(m.streak))
  {
    Reachable(enabled, es);
  }

  // ---------------------------------------------------------------- busy is not down

  function Notes(m: Machine, es: seq<(Event, nat)>): seq<Note>
    decreases |es|
  {
    if es == [] then [] else NoteOf(m, es[0].0) + Notes(Apply(m, es[0].0, es[0].1), es[1..])
  }

  /** How many times in a row, up to now, the daemon was found down. */
  function DownsInARow(ns: seq<Note>): nat {
    if ns == [] || ns[|ns| - 1].Up? then 0 else 1 + DownsInARow(ns[..|ns| - 1])
  }

  lemma {:induction false} OneMoreNote(m: Machine, e: Event, now: nat, past: seq<Note>)
    requires m.streak == DownsInARow(past)
    ensures Apply(m, e, now).streak == DownsInARow(past + NoteOf(m, e))
  {
    BackoffMoves(m, e, now);
    var note := NoteOf(m, e);
    if note == [] {
      assert past + note == past;
    } else {
      assert (past + note)[..|past|] == past;
    }
  }

  lemma {:induction false} RunNotes(m: Machine, es: seq<(Event, nat)>, past: seq<Note>)
    requires m.streak == DownsInARow(past)
    ensures Run(m, es).streak == DownsInARow(past + Notes(m, es))
    decreases |es|
  {
    if es == [] {
      assert past + [] == past;
    } else {
      var m' := Apply(m, es[0].0, es[0].1);
      OneMoreNote(m, es[0].0, es[0].1, past);
      RunNotes(m', es[1..], past + NoteOf(m, es[0].0));
      assert past + (NoteOf(m, es[0].0) + Notes(m', es[1..])) == (past + NoteOf(m, es[0].0)) + Notes(m', es[1..]);
    }
  }

  /**
   * Busy is not down: requests go to this process exactly while the last word about the daemon was
   * that it is down, and the delay grows with such words only. An answer, a remote error, a queue
   * timeout and a first disconnect are no such word.
   */
  lemma {:induction false} BusyIsNotDown(enabled: bool, es: seq<(Event, nat)>)
    ensures var m, downs := Run(Initial(enabled), es), DownsInARow(Notes(Initial(enabled), es));
      m.streak == downs && (m.fallbackActive <==> downs > 0) && m.retryMs == Delay(downs + 1)
  {
    RunNotes(Initial(enabled), es, []);
    Reachable(enabled, es);
    assert [] + Notes(Initial(enabled), es) == Notes(Initial(enabled), es);
  }

  /** When the daemon was last found down, if it was found down in the run. */
  function LastDown(m: Machine, es: seq<(Event, nat)>, before: nat): nat
    decreases |es|
  {
    if es == [] then before
    else LastDown(Apply(m, es[0].0, es[0].1), es[1..], if NoteOf(m, es[0].0) == [Down] then es[0].1 else before)
  }

  lemma {:induction false} FailedAtLastDown(m: Machine, es: seq<(Event, nat)>)
    ensures Run(m, es).failedAt == LastDown(m, es, m.failedAt)
    decreases |es|
  {
    if es != [] {
      BackoffMoves(m, es[0].0, es[0].1);
      hide Apply, NoteOf;
      FailedAtLastDown(Apply(m, es[0].0, es[0].1), es[1..]);
    }
  }

  lemma {:induction false} EnabledStays(m: Machine, es: seq<(Event, nat)>)
    ensures Run(m, es).enabled == m.enabled
    decreases |es|
  {
    if es != [] {
      BackoffMoves(m, es[0].0, es[0].1);
      EnabledStays(Apply(m, es[0].0, es[0].1), es[1..]);
    }
  }

  /**
   * Where requests go, over any run: to the daemon exactly when it is enabled and was not last found
   * down, and otherwise once to this process. Such a request starts a probe exactly when the daemon is
   * enabled, none is under way, and the whole delay since it was last found down has passed.
   */
  lemma {:induction false} GoesToTheDaemon(enabled: bool, es: seq<(Event, nat)>, id: nat, now: nat)
    requires id !in Run(Initial(enabled), es).calls
    ensures var m, downs := Run(Initial(enabled), es), DownsInARow(Notes(Initial(enabled), es));
      var next := Apply(m, Dispatched(id), now);
      next.calls == m.calls[id := if enabled && downs == 0 then Call([], true, 0) else Call([], false, 1)]
      && next.probes == m.probes + (if enabled && downs > 0 && m.probes == []
                                       && now >= LastDown(Initial(enabled), es, 0) + Delay(downs)
                                    then [Asked] else [])
      && next == m.(calls := next.calls, probes := next.probes, probing := next.probing)
  {
    BusyIsNotDown(enabled, es);
    Reachable(enabled, es);
    FailedAtLastDown(Initial(enabled), es);
    EnabledStays(Initial(enabled), es);
    hide Delay, DownsInARow, Notes, LastDown, Run;
  }

  /**
   * How an attempt that ends goes on: a first disconnect is tried again, an answer or a remote error is
   * the end of it, and after anything else the request runs here.
   */
  lemma {:induction false} AttemptEnds(m: Machine, id: nat, end: End, now: nat)
    requires Inv(m) && id in m.calls && m.calls[id].open
    ensures var next, c := Apply(m, Settled(id, end), now), m.calls[id];
      var again := end == Disconnected && c.ended == [];
      var here := if again || end in {Answered, RemoteError} then 0 else 1;
      next.calls == m.calls[id := Call(c.ended + [end], again, here)]
      && next.queueTimeouts == m.queueTimeouts + (if end == QueueTimeout then 1 else 0)
      && next.probes == m.probes && next.probing == m.probing
  {
  }

  /** In any run a probe is answered once and then ends once; only its end lets the next one start. */
  lemma {:induction false} ProbeTurns(enabled: bool, es: seq<(Event, nat)>, i: nat, healthy: bool, now: nat)
    ensures var m := Run(Initial(enabled), es);
      var answered, ended := Apply(m, ProbeAnswered(i, healthy), now), Apply(m, ProbeEnded(i), now);
      (if m.probes == [Asked] && i == 0 then answered.probes == [Decided] && answered.probing else answered == m)
      && (if m.probes == [Decided] && i == 0 then ended.probes == [] && !ended.probing else ended == m)
  {
    Reachable(enabled, es);
  }

  // ---------------------------------------------------------------- the module's variables

  class DaemonDispatch {
    const enabled: bool
    var fallbackActive: bool
    var retryMs: nat
    var retryAt: nat
    var probing: bool
    var probes: seq<Probe>
    var queueTimeouts: nat
    var calls: map<nat, Call>
    ghost var streak: nat
    ghost var delays: seq<nat>
    ghost var failedAt: nat

    ghost function View(): Machine
      reads this
    {
      Machine(enabled, fallbackActive, retryMs, retryAt, probing, probes, queueTimeouts, calls,
              streak, delays, failedAt)
    }

    constructor (enabled: bool)
      ensures View() == Initial(enabled)
    {
      this.enabled := enabled;
      fallbackActive, retryMs, retryAt := false, RETRY_FIRST_MS, 0;
      probing, probes, queueTimeouts, calls := false, [], 0, map[];
      streak, delays, failedAt := 0, [], 0;
    }

    method Failed(now: nat)
      modifies this
      ensures View() == NoteFallback(old(View()), now)
    {
      retryAt := now + retryMs;
      delays, streak, failedAt := delays + [retryMs], streak + 1, now;
      retryMs := Min(retryMs * 2, RETRY_MAX_MS);
      fallbackActive := true;
    }

    method Connected()
      modifies this
      ensures View() == NoteConnected(old(View()))
    {
      fallbackActive, retryMs := false, RETRY_FIRST_MS;
      streak, delays := 0, [];
    }

    method StartProbe(now: nat)
      modifies this`probing, this`probes
      ensures View() == ProbeInBackground(old(View()), now)
    {
      if probing || now < retryAt {
        return;
      }
      probing := true;
      probes := probes + [Asked];
    }

    method Begin(id: nat, now: nat)
      requires id !in calls
      modifies this
      ensures View() == Dispatch(old(View()), id, now)
    {
      if !enabled {
        calls := calls[id := Call([], false, 1)];
        return;
      }
      if fallbackActive {
        StartProbe(now);
        calls := calls[id := Call([], false, 1)];
        return;
      }
      calls := calls[id := Call([], true, 0)];
    }

    /** One turn of the retry loop, from the settled await to the next await or the return. */
    method Resume(id: nat, end: End, now: nat)
      requires id in calls && calls[id].open
      modifies this
      ensures View() == Settle(old(View()), id, end, now)
    {
      var attempt := |calls[id].ended|;
      var c := calls[id].(ended := calls[id].ended + [end]);
      if end.Answered? || end.RemoteError? {
        calls := calls[id := c.(open := false)];
        return;
      }
      if attempt == 0 && end.Disconnected? {
        calls := calls[id := c.(open := true)];
        return;
      }
      calls := calls[id := c.(open := false, local := c.local + 1)];
      if end.QueueTimeout? {
        queueTimeouts := queueTimeouts + 1;
        return;
      }
      Failed(now);
    }

    method OnProbe(i: nat, healthy: bool, now: nat)
      requires i < |probes|
      modifies this
      ensures View() == ProbeAnswers(old(View()), i, healthy, now)
    {
      if healthy {
        Connected();
      } else {
        Failed(now);
      }
      probes := probes[i := Decided];
    }

    method ProbeOver(i: nat)
      requires i < |probes|
      modifies this`probing, this`probes
      ensures View() == ProbeEnds(old(View()), i)
    {
      probing := false;
      probes := probes[..i] + probes[i + 1..];
    }

    method OnWarm(end: End, now: nat)
      modifies this
      ensures View() == WarmSettles(old(View()), end, now)
    {
      if end.Answered? {
        Connected();
      } else if !end.RemoteError? {
        Failed(now);
      }
    }
  }
}
