/**
 * The write mutex of the coordination routes (src/coordination/write-mutex.ts:19-50). Callers
 * are numbered in the order they ask; `granted` lists those let in, `holders` those of them
 * that have not released, and every caller let in releases once.
 */
module WriteMutex {
  datatype State = State(queue: seq<nat>, locked: bool, acquired: nat, granted: seq<nat>, holders: set<nat>)

  datatype Event = Acquired | Released(holder: nat)

  const UNLOCKED: State := State([], false, 0, [], {})

  function Step(s: State, e: Event): State {
    match e
    case Acquired =>
      var me := s.acquired;
      if !s.locked then s.(locked := true, acquired := me + 1, granted := s.granted + [me], holders := s.holders + {me})
      else s.(queue := s.queue + [me], acquired := me + 1)
    case Released(h) =>
      if h !in s.holders then s
      else if s.queue != [] then
        s.(queue := s.queue[1..], granted := s.granted + [s.queue[0]], holders := s.holders - {h} + {s.queue[0]})
      else s.(locked := false, holders := s.holders - {h})
  }

  function Run(s: State, es: seq<Event>): State
    decreases |es|
  {
    if es == [] then s else Run(Step(s, es[0]), es[1..])
  }

  ghost predicate Exclusive(s: State) {
    && (s.locked <==> s.holders != {})
    && (forall a, b | a in s.holders && b in s.holders :: a == b)
    && (s.queue != [] ==> s.locked)
    && s.acquired == |s.granted| + |s.queue|
    && (forall i | 0 <= i < |s.granted| :: s.granted[i] == i)
    && (forall i | 0 <= i < |s.queue| :: s.queue[i] == |s.granted| + i)
  }

  lemma {:induction false} RunExclusive(s: State, es: seq<Event>)
    requires Exclusive(s)
    ensures Exclusive(Run(s, es))
    decreases |es|
  {
    if es != [] { RunExclusive(Step(s, es[0]), es[1..]); }
  }

  /**
   * In every reachable state at most one caller holds the lock, callers were let in in the
   * order they asked, somebody waits only while somebody holds, and `pending` is acquires
   * minus grants.
   */
  lemma OneWriterInOrder(es: seq<Event>, a: nat, b: nat)
    ensures var s := Run(UNLOCKED, es);
      (a in s.holders && b in s.holders ==> a == b)
      && (forall i | 0 <= i < |s.granted| :: s.granted[i] == i)
      && (s.queue != [] ==> s.holders != {})
      && |s.queue| == s.acquired - |s.granted|
  {
    RunExclusive(UNLOCKED, es);
  }

  /** Hand-off without a gap: a release with somebody waiting leaves the lock held, by the longest waiting. */
  lemma HandOff(es: seq<Event>, h: nat)
    requires var s := Run(UNLOCKED, es); h in s.holders && s.queue != []
    ensures var s, t := Run(UNLOCKED, es), Step(Run(UNLOCKED, es), Released(h)); t.locked && t.holders == {s.queue[0]}
  {
    RunExclusive(UNLOCKED, es);
    var s := Run(UNLOCKED, es);
    assert s.holders - {h} == {};
  }

  /** The closure's `queue` and `locked`; a queued caller stands for its resolve function. */
  class Mutex {
    var queue: seq<nat>
    var locked: bool
    var acquired: nat
    ghost var granted: seq<nat>
    ghost var holders: set<nat>

    ghost function View(): State
      reads this
    {
      State(queue, locked, acquired, granted, holders)
    }

    constructor ()
      ensures View() == UNLOCKED
    {
      queue, locked, acquired, granted, holders := [], false, 0, [], {};
    }

    /** `entered` says whether the promise is resolved at once. */
    method Acquire() returns (entered: bool)
      requires Exclusive(View())
      modifies this
      ensures View() == Step(old(View()), Acquired) && Exclusive(View())
      ensures entered <==> old(holders) == {}
    {
      acquired := acquired + 1;
      if !locked {
        locked, granted, holders := true, granted + [acquired - 1], holders + {acquired - 1};
        return true;
      }
      queue := queue + [acquired - 1];
      return false;
    }

    method Release(ghost holder: nat)
      requires Exclusive(View()) && holder in holders
      modifies this
      ensures View() == Step(old(View()), Released(holder)) && Exclusive(View())
      ensures locked <==> old(queue) != []
    {
      holders := holders - {holder};
      if queue != [] {
        granted, holders, queue := granted + [queue[0]], holders + {queue[0]}, queue[1..];
      } else {
        locked := false;
      }
    }

    method Pending() returns (n: nat)
      requires Exclusive(View())
      ensures n == acquired - |granted|
    {
      return |queue|;
    }
  }
}
