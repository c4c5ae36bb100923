// The lock file by which clients agree on one spawner (src/core/model-daemon-client.ts:314-341):
// when it excludes, and why it does not always.
module StartLock {
  import opened Prelude

  /** The file's content; before it is written nothing can be read from it. */
  datatype Entry = Entry(owner: nat, at: Option<nat>)

  /** Where a process is in `takeLock`: about to create, to look at the file it met, or to unlink it. */
  datatype Stage = Trying(attempt: nat) | Looking(attempt: nat) | Unlinking(attempt: nat)

  /** `holders` created the file and have neither released it nor died; `leaving` are about to unlink it. */
  datatype Lock = Lock(
    file: Option<Entry>,
    stages: map<nat, Stage>,
    holders: set<nat>,
    leaving: set<nat>,
    dead: set<nat>)

  const UNUSED: Lock := Lock(None, map[], {}, {}, {})

  /** The system calls of the processes, in any order. */
  datatype Deed =
    | Create(p: nat)
    | Write(p: nat, now: nat)
    | Look(p: nat, now: nat)
    | TakeOver(p: nat)
    | ReadOwn(p: nat)
    | UnlinkOwn(p: nat)
    | Crash(p: nat)

  const ATTEMPTS: nat := 2

  /** A process calls `takeLock` unless it holds the lock; the first attempt is number 0. */
  function StageOf(l: Lock, p: nat): Stage { if p in l.stages then l.stages[p] else Trying(0) }

  /** No file, a half-written one, a dead owner, or one older than the time a start may take. */
  predicate Stale(l: Lock, now: nat, timeout: nat) {
    l.file.None? || l.file.value.at.None? || l.file.value.owner in l.dead || now - l.file.value.at.value >= timeout
  }

  /** A system call the process is not about to make changes nothing. */
  function Step(timeout: nat, l: Lock, e: Deed): Lock {
    var p := e.p;
    if p in l.dead then l
    else
      match e
      case Create(_) =>
        if p in l.holders || !StageOf(l, p).Trying? then l
        else if l.file.Some? then l.(stages := l.stages[p := Looking(StageOf(l, p).attempt)])
        else l.(file := Some(Entry(p, None)), holders := l.holders + {p}, stages := l.stages - {p})
      case Write(_, now) =>
        if l.file == Some(Entry(p, None)) then l.(file := Some(Entry(p, Some(now)))) else l
      case Look(_, now) =>
        if !StageOf(l, p).Looking? then l
        else if Stale(l, now, timeout) then l.(stages := l.stages[p := Unlinking(StageOf(l, p).attempt)])
        else l.(stages := l.stages - {p})
      case TakeOver(_) =>
        if !TakesOver(l, e) then l
        else
          var next := StageOf(l, p).attempt + 1;
          l.(file := None, stages := if next < ATTEMPTS then l.stages[p := Trying(next)] else l.stages - {p})
      case ReadOwn(_) =>
        if p !in l.holders || p in l.leaving then l
        else if l.file.Some? && l.file.value.owner == p && l.file.value.at.Some? then l.(leaving := l.leaving + {p})
        else l.(holders := l.holders - {p})
      case UnlinkOwn(_) =>
        if p !in l.leaving then l else l.(file := None, leaving := l.leaving - {p}, holders := l.holders - {p})
      case Crash(_) =>
        l.(stages := l.stages - {p}, holders := l.holders - {p}, leaving := l.leaving - {p}, dead := l.dead + {p})
  }

  /** A takeover that happens: the process judged the file stale, whatever the file is by now. */
  predicate TakesOver(l: Lock, e: Deed) { e.TakeOver? && e.p !in l.dead && StageOf(l, e.p).Unlinking? }

  function Run(timeout: nat, l: Lock, es: seq<Deed>): Lock {
    if es == [] then l else Step(timeout, Run(timeout, l, es[..|es| - 1]), es[|es| - 1])
  }

  // ---------------------------------------------------------------- when it excludes

  /** Whoever holds the lock owns the file, so there is at most one. */
  predicate Exclusive(l: Lock) { forall p | p in l.holders :: l.file.Some? && l.file.value.owner == p }

  ghost predicate Orderly(l: Lock) { l.leaving <= l.holders && l.holders !! l.dead }

  lemma {:induction false} StepOrderly(timeout: nat, l: Lock, e: Deed)
    requires Orderly(l)
    ensures Orderly(Step(timeout, l, e))
  {
  }

  /** From an exclusive state only a takeover with the lock held leads to one that is not, and it always does. */
  lemma {:induction false} StepExclusive(timeout: nat, l: Lock, e: Deed)
    requires Orderly(l) && Exclusive(l)
    ensures Exclusive(Step(timeout, l, e)) <==> (TakesOver(l, e) ==> l.holders == {})
  {
    if TakesOver(l, e) && l.holders != {} {
      var p :| p in l.holders;
      assert p in Step(timeout, l, e).holders;
    }
  }

  lemma {:induction false} RunStep(timeout: nat, l: Lock, es: seq<Deed>, k: nat)
    requires k < |es|
    ensures Run(timeout, l, es[..k + 1]) == Step(timeout, Run(timeout, l, es[..k]), es[k])
  {
    assert es[..k + 1][..k] == es[..k];
  }

  ghost predicate ExclusiveUpTo(timeout: nat, l: Lock, es: seq<Deed>, n: nat)
    requires n <= |es|
  {
    forall k | 0 <= k <= n :: Exclusive(Run(timeout, l, es[..k]))
  }

  /** Every takeover among the first `n` system calls meets nobody who holds the lock. */
  ghost predicate MeetsNobody(timeout: nat, l: Lock, es: seq<Deed>, n: nat)
    requires n <= |es|
  {
    forall k | 0 <= k < n && TakesOver(Run(timeout, l, es[..k]), es[k]) :: Run(timeout, l, es[..k]).holders == {}
  }

  lemma {:induction false} RunOrderly(timeout: nat, l: Lock, es: seq<Deed>)
    requires Orderly(l)
    ensures Orderly(Run(timeout, l, es))
  {
    if es != [] {
      RunOrderly(timeout, l, es[..|es| - 1]);
      StepOrderly(timeout, Run(timeout, l, es[..|es| - 1]), es[|es| - 1]);
    }
  }

  lemma {:induction false} ExclusiveUpToExactly(timeout: nat, l: Lock, es: seq<Deed>, n: nat)
    requires Orderly(l) && Exclusive(l) && n <= |es|
    ensures ExclusiveUpTo(timeout, l, es, n) <==> MeetsNobody(timeout, l, es, n)
  {
    if n == 0 {
      assert es[..0] == [];
    } else {
      ExclusiveUpToExactly(timeout, l, es, n - 1);
      var m := Run(timeout, l, es[..n - 1]);
      RunStep(timeout, l, es, n - 1);
      RunOrderly(timeout, l, es[..n - 1]);
      hide Run, Step, Exclusive, Orderly, TakesOver;
      if ExclusiveUpTo(timeout, l, es, n - 1) { StepExclusive(timeout, m, es[n - 1]); }
      assert ExclusiveUpTo(timeout, l, es, n)
        <==> ExclusiveUpTo(timeout, l, es, n - 1) && Exclusive(Run(timeout, l, es[..n]));
      assert MeetsNobody(timeout, l, es, n)
        <==> MeetsNobody(timeout, l, es, n - 1) && (TakesOver(m, es[n - 1]) ==> m.holders == {});
    }
  }

  /**
   * The exact condition. Over any run of any processes the lock excludes throughout if and only if
   * each takeover in it meets nobody who holds the lock.
   */
  lemma {:induction false} ExclusiveExactly(timeout: nat, l: Lock, es: seq<Deed>)
    requires Orderly(l) && Exclusive(l)
    ensures (forall k | 0 <= k <= |es| :: Exclusive(Run(timeout, l, es[..k])))
      <==> (forall k | 0 <= k < |es| && TakesOver(Run(timeout, l, es[..k]), es[k]) ::
              Run(timeout, l, es[..k]).holders == {})
  {
    ExclusiveUpToExactly(timeout, l, es, |es|);
  }

  lemma {:induction false} RunTwo(timeout: nat, l: Lock, a: Deed, b: Deed)
    ensures Run(timeout, l, [a, b]) == Step(timeout, Step(timeout, l, a), b)
  {
    assert [a, b][..1] == [a] && [a][..0] == [];
    assert Run(timeout, l, [a]) == Step(timeout, l, a);
  }

  lemma {:induction false} RunAppend(timeout: nat, l: Lock, a: seq<Deed>, b: seq<Deed>)
    ensures Run(timeout, l, a + b) == Run(timeout, Run(timeout, l, a), b)
    decreases |b|
  {
    if b == [] {
      assert a + b == a;
    } else {
      assert (a + b)[..|a + b| - 1] == a + b[..|b| - 1];
      RunAppend(timeout, l, a, b[..|b| - 1]);
    }
  }

  /**
   * What the retry is for: a spawner that crashed mid-start blocks nobody. The next process finds
   * the lock in its way, takes it over and holds it alone.
   */
  lemma {:induction false} DeadOwnerIsReplaced(timeout: nat, l: Lock, p: nat, now: nat)
    requires Orderly(l) && Exclusive(l) && l.file.Some? && l.file.value.owner in l.dead
    requires p !in l.dead && p !in l.stages
    ensures var t := Run(timeout, l, [Create(p), Look(p, now)] + [TakeOver(p), Create(p)]);
      Exclusive(t) && t.holders == {p} && t.file == Some(Entry(p, None))
  {
    assert l.holders == {};
    var l1 := Step(timeout, l, Create(p));
    var l2 := Step(timeout, l1, Look(p, now));
    var l3 := Step(timeout, l2, TakeOver(p));
    assert l1 == l.(stages := l.stages[p := Looking(0)]);
    assert StageOf(l2, p) == Unlinking(0) && l2.holders == {} && l2.dead == l.dead;
    assert StageOf(l3, p) == Trying(1) && l3.holders == {} && l3.file == None;
    RunAppend(timeout, l, [Create(p), Look(p, now)], [TakeOver(p), Create(p)]);
    RunTwo(timeout, l, Create(p), Look(p, now));
    RunTwo(timeout, l2, TakeOver(p), Create(p));
  }

  // ---------------------------------------------------------------- one process with nobody interfering

  /** Nobody's, half-written, of a dead process, or older than a start may take. */
  predicate FreeToTake(l: Lock, now: nat, timeout: nat) {
    match l.file
    case None => true
    case Some(Entry(_, None)) => true
    case Some(Entry(owner, Some(at))) => owner in l.dead || at + timeout <= now
  }

  /**
   * `takeLock` on its own gets the lock exactly when nobody has it or it may be taken, and then its file is in
   * place; otherwise file and holders stay as they are.
   */
  lemma {:induction false} TakesWhenFree(timeout: nat, l: Lock, p: nat, now: nat)
    requires p !in l.dead && p !in l.holders && p !in l.stages && p !in l.leaving
    ensures var t := Run(timeout, l, [Create(p), Look(p, now)] + [TakeOver(p), Create(p)]);
      (p in t.holders <==> FreeToTake(l, now, timeout)) && t.dead == l.dead && t.leaving == l.leaving
      && if FreeToTake(l, now, timeout)
         then t.file == Some(Entry(p, None)) && t.holders == l.holders + {p} && t.stages == l.stages
         else t.file == l.file && t.holders == l.holders
  {
    var l1 := Step(timeout, l, Create(p));
    var l2 := Step(timeout, l1, Look(p, now));
    var l3 := Step(timeout, l2, TakeOver(p));
    var l4 := Step(timeout, l3, Create(p));
    RunAppend(timeout, l, [Create(p), Look(p, now)], [TakeOver(p), Create(p)]);
    RunTwo(timeout, l, Create(p), Look(p, now));
    RunTwo(timeout, l2, TakeOver(p), Create(p));
    assert l.file.Some? ==> l1 == l.(stages := l.stages[p := Looking(0)]);
    assert l.file.Some? && !FreeToTake(l, now, timeout) ==> l2.stages == l.stages && l3 == l2;
    assert l.file.Some? && FreeToTake(l, now, timeout) ==>
      l3.stages == l.stages[p := Trying(1)] && l4.stages == l.stages;
    assert l.file.None? ==> l1.stages == l.stages && l4 == l1;
  }

  /** The second attempt is the last: a process that unlinks a second time gives up. */
  lemma {:induction false} GivesUpAfterTwo(timeout: nat, l: Lock, p: nat, attempt: nat)
    requires p !in l.dead && p in l.stages && l.stages[p] == Unlinking(attempt)
    ensures var t := Step(timeout, l, TakeOver(p));
      t == l.(file := None, stages := t.stages) && (forall q | q != p :: q in t.stages <==> q in l.stages)
      && (forall q | q != p && q in t.stages :: t.stages[q] == l.stages[q])
      && (if attempt == 0 then p in t.stages && t.stages[p] == Trying(1) else p !in t.stages)
  {
  }

  /** Giving the lock back unlinks the file exactly when it is written and the process's own. */
  lemma {:induction false} GivesBack(timeout: nat, l: Lock, p: nat)
    requires p !in l.dead && p in l.holders && p !in l.leaving
    ensures var t := Run(timeout, l, [ReadOwn(p), UnlinkOwn(p)]);
      t.holders == l.holders - {p} && t.leaving == l.leaving && t.stages == l.stages && t.dead == l.dead
      && t.file == match l.file
         case Some(Entry(owner, Some(_))) => if owner == p then None else l.file
         case _ => l.file
  {
    RunTwo(timeout, l, ReadOwn(p), UnlinkOwn(p));
  }

  /** What a process is not about to do it does not do: no look without a file met, no unlinking without a judgement. */
  lemma {:induction false} InTurn(timeout: nat, l: Lock, p: nat, now: nat)
    ensures (p !in l.stages || !l.stages[p].Looking?) ==> Step(timeout, l, Look(p, now)) == l
    ensures (p !in l.stages || !l.stages[p].Unlinking?) ==> Step(timeout, l, TakeOver(p)) == l
    ensures p in l.holders || (p in l.stages && !l.stages[p].Trying?) ==> Step(timeout, l, Create(p)) == l
    ensures p !in l.leaving ==> Step(timeout, l, UnlinkOwn(p)) == l
    ensures p !in l.holders ==> Step(timeout, l, ReadOwn(p)) == l
  {
  }

  // ---------------------------------------------------------------- when it does not

  /** A spawner dies, and two others find its file. */
  function BothLook(d: nat, a: nat, b: nat, now: nat): seq<Deed> {
    [Create(d), Write(d, now)] + ([Crash(d), Create(a)] + [Create(b), Look(a, now)])
  }

  /** The second to unlink removes the first one's new lock. */
  function BothTakeOver(a: nat, b: nat, now: nat): seq<Deed> {
    [Look(b, now), TakeOver(a)] + ([Create(a), TakeOver(b)] + [Create(b)])
  }

  lemma {:induction false} AfterBothLook(timeout: nat, d: nat, a: nat, b: nat, now: nat)
    requires d != a && d != b && a != b
    ensures Run(timeout, UNUSED, BothLook(d, a, b, now))
      == Lock(Some(Entry(d, Some(now))), map[a := Unlinking(0), b := Looking(0)], {}, {}, {d})
  {
    var l2 := Step(timeout, Step(timeout, UNUSED, Create(d)), Write(d, now));
    var l4 := Step(timeout, Step(timeout, l2, Crash(d)), Create(a));
    assert l2 == Lock(Some(Entry(d, Some(now))), map[], {d}, {}, {});
    assert l4 == Lock(l2.file, map[a := Looking(0)], {}, {}, {d});
    RunTwo(timeout, UNUSED, Create(d), Write(d, now));
    RunTwo(timeout, l2, Crash(d), Create(a));
    RunTwo(timeout, l4, Create(b), Look(a, now));
    RunAppend(timeout, UNUSED, [Create(d), Write(d, now)], [Crash(d), Create(a)] + [Create(b), Look(a, now)]);
    RunAppend(timeout, l2, [Crash(d), Create(a)], [Create(b), Look(a, now)]);
    hide Run;
  }

  lemma {:induction false} AfterBothTakeOver(timeout: nat, l: Lock, d: nat, a: nat, b: nat, now: nat)
    requires d != a && d != b && a != b
    requires l == Lock(Some(Entry(d, Some(now))), map[a := Unlinking(0), b := Looking(0)], {}, {}, {d})
    ensures Run(timeout, l, BothTakeOver(a, b, now)).holders == {a, b}
  {
    var l2 := Step(timeout, Step(timeout, l, Look(b, now)), TakeOver(a));
    var l4 := Step(timeout, Step(timeout, l2, Create(a)), TakeOver(b));
    assert l2 == Lock(None, map[a := Trying(1), b := Unlinking(0)], {}, {}, {d});
    assert l4 == Lock(None, map[b := Trying(1)], {a}, {}, {d});
    RunTwo(timeout, l, Look(b, now), TakeOver(a));
    RunTwo(timeout, l2, Create(a), TakeOver(b));
    assert Run(timeout, l4, [Create(b)]) == Step(timeout, l4, Create(b)) by { assert [Create(b)][..0] == []; }
    RunAppend(timeout, l, [Look(b, now), TakeOver(a)], [Create(a), TakeOver(b)] + [Create(b)]);
    RunAppend(timeout, l2, [Create(a), TakeOver(b)], [Create(b)]);
    hide Run;
  }

  /** From the unused lock: a spawner crashes, two judge its file stale and take it over, and both hold it. */
  lemma {:induction false} TwoSpawners(timeout: nat, d: nat, a: nat, b: nat, now: nat)
    requires d != a && d != b && a != b
    ensures Run(timeout, UNUSED, BothLook(d, a, b, now) + BothTakeOver(a, b, now)).holders == {a, b}
  {
    AfterBothLook(timeout, d, a, b, now);
    RunAppend(timeout, UNUSED, BothLook(d, a, b, now), BothTakeOver(a, b, now));
    AfterBothTakeOver(timeout, Run(timeout, UNUSED, BothLook(d, a, b, now)), d, a, b, now);
  }

  /**
   * A lock just created and not yet written is taken over at once, at any age: its owner's id cannot
   * be read, and an unknown owner counts as dead. Nobody crashes, nothing is old, and both hold it.
   */
  lemma {:induction false} HalfWrittenIsTakenOver(timeout: nat, a: nat, b: nat, now: nat)
    requires a != b
    ensures Run(timeout, UNUSED, [Create(a), Create(b)] + ([Look(b, now), TakeOver(b)] + [Create(b)])).holders == {a, b}
  {
    var l0 := UNUSED;
    var l2 := Step(timeout, Step(timeout, l0, Create(a)), Create(b));
    var l4 := Step(timeout, Step(timeout, l2, Look(b, now)), TakeOver(b));
    assert l2 == Lock(Some(Entry(a, None)), map[b := Looking(0)], {a}, {}, {});
    assert l4 == Lock(None, map[b := Trying(1)], {a}, {}, {});
    assert Step(timeout, l4, Create(b)).holders == {a, b};
    RunTwo(timeout, l0, Create(a), Create(b));
    RunTwo(timeout, l2, Look(b, now), TakeOver(b));
    assert Run(timeout, l4, [Create(b)]) == Step(timeout, l4, Create(b)) by { assert [Create(b)][..0] == []; }
    hide Run, Step;
    RunAppend(timeout, l0, [Create(a), Create(b)], [Look(b, now), TakeOver(b)] + [Create(b)]);
    RunAppend(timeout, l2, [Look(b, now), TakeOver(b)], [Create(b)]);
  }
}
