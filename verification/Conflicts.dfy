/**
 * Conflict marks among recalled memories and the reorder that uses them
 * (src/core/conflicts.ts). Extraction of values from text, relatedness and staleness are
 * inputs: a candidate carries its value sets and whether it is stale, and `related` is any
 * relation.
 */
module Conflicts {
  import opened Prelude
  import opened ConflictSort

  datatype SlotKind = Time | Date | Money | Number | Status

  /** A date comes at three grains; every other kind of value is text. */
  datatype Value =
    | IsoDate(year: nat, month: nat, day: nat)
    | MonthDay(month: nat, day: nat)
    | MonthOnly(month: nat)
    | Text(text: string)

  datatype Candidate =
    Candidate(id: string, created: Option<int>, supersedes: Option<string>, stale: bool,
              slots: map<SlotKind, set<Value>>)

  datatype Mark = Mark(id: string, newer: bool, slot: SlotKind)

  // ---------------------------------------------------------------- disagreement

  const KINDS: seq<SlotKind> := [Time, Date, Money, Status, Number]

  function MonthOf(v: Value): Value {
    match v
    case IsoDate(_, m, _) => if 1 <= m <= 12 then MonthOnly(m) else v
    case MonthDay(m, _) => MonthOnly(m)
    case MonthOnly(_) => v
    case Text(t) => Text(if |t| > 3 then t[..3] else t)
  }

  function MonthsOf(vs: set<Value>): set<Value> { set v | v in vs :: MonthOf(v) }

  predicate Coarse(vs: set<Value>) { exists v | v in vs :: v.MonthOnly? }

  /** Both value sets of a kind, at the coarser of their grains. */
  function Grained(kind: SlotKind, a: set<Value>, b: set<Value>): (set<Value>, set<Value>) {
    if kind == Date && (Coarse(a) || Coarse(b)) then (MonthsOf(a), MonthsOf(b)) else (a, b)
  }

  /** Neither memory's values of this kind contain the other's. */
  predicate Clash(kind: SlotKind, a: Candidate, b: Candidate) {
    kind in a.slots && kind in b.slots &&
    var (va, vb) := Grained(kind, a.slots[kind], b.slots[kind]);
    !(va <= vb) && !(vb <= va)
  }

  function FirstClash(kinds: seq<SlotKind>, a: Candidate, b: Candidate): Option<SlotKind> {
    if kinds == [] then None
    else if Clash(kinds[0], a, b) then Some(kinds[0])
    else FirstClash(kinds[1..], a, b)
  }

  function Disagreement(a: Candidate, b: Candidate): Option<SlotKind> { FirstClash(KINDS, a, b) }

  lemma {:induction false} FirstClashSpec(kinds: seq<SlotKind>, a: Candidate, b: Candidate)
    ensures var r := FirstClash(kinds, a, b);
      && r == FirstClash(kinds, b, a)
      && (r.None? <==> forall i | 0 <= i < |kinds| :: !Clash(kinds[i], a, b))
      && (r.Some? ==> exists i | 0 <= i < |kinds| ::
            kinds[i] == r.value && Clash(kinds[i], a, b) && forall k | 0 <= k < i :: !Clash(kinds[k], a, b))
  {
    if kinds != [] {
      FirstClashSpec(kinds[1..], a, b);
      if !Clash(kinds[0], a, b) {
        var r := FirstClash(kinds[1..], a, b);
        if r.Some? {
          var i :| 0 <= i < |kinds[1..]| && kinds[1..][i] == r.value && Clash(kinds[1..][i], a, b)
            && forall k | 0 <= k < i :: !Clash(kinds[1..][k], a, b);
          assert kinds[i + 1] == r.value && forall k | 0 <= k < i + 1 :: !Clash(kinds[k], a, b);
        }
      } else {
        assert kinds[0] == FirstClash(kinds, a, b).value;
      }
      assert (forall i | 0 <= i < |kinds[1..]| :: !Clash(kinds[1..][i], a, b))
        <==> forall i | 1 <= i < |kinds| :: !Clash(kinds[i], a, b) by {
        assert forall i | 1 <= i < |kinds| :: kinds[i] == kinds[1..][i - 1];
      }
    }
  }

  /** Disagreement is symmetric, and a memory whose values repeat or extend the other's does not disagree. */
  lemma DisagreementSymmetric(a: Candidate, b: Candidate)
    ensures Disagreement(a, b) == Disagreement(b, a)
    ensures Disagreement(a, b).None? <==> forall kind: SlotKind :: !Clash(kind, a, b)
  {
    FirstClashSpec(KINDS, a, b);
    assert KINDS[0] == Time && KINDS[1] == Date && KINDS[2] == Money && KINDS[3] == Status && KINDS[4] == Number;
    forall kind: SlotKind | Clash(kind, a, b) ensures exists i | 0 <= i < |KINDS| :: Clash(KINDS[i], a, b) {
      assert kind in KINDS;
    }
  }

  // ---------------------------------------------------------------- marks

  type Relation = (Candidate, Candidate) -> bool

  /** The kind two results of one recall conflict on; `a` comes before `b` in the results. */
  function Conflict(related: Relation, a: Candidate, b: Candidate): Option<SlotKind> {
    if a.stale || b.stale then None
    else if a.supersedes == Some(b.id) || b.supersedes == Some(a.id) then None
    else if !related(a, b) then None
    else Disagreement(a, b)
  }

  predicate WrittenAfter(a: Candidate, b: Candidate) {
    a.created.Some? && b.created.Some? && a.created.value > b.created.value
  }

  /** The mark, if any, that result `k` carries for result `p`. */
  function MarkFor(related: Relation, rs: seq<Candidate>, k: nat, p: nat): seq<Mark>
    requires k < |rs| && p < |rs|
  {
    if k == p then []
    else
      match Conflict(related, rs[if k < p then k else p], rs[if k < p then p else k])
      case None => []
      case Some(slot) => [Mark(rs[p].id, WrittenAfter(rs[k], rs[p]), slot)]
  }

  /** Result `k`'s marks for the first `n` results, in their order. */
  function MarksUpto(related: Relation, rs: seq<Candidate>, k: nat, n: nat): seq<Mark>
    requires k < |rs| && n <= |rs|
  {
    if n == 0 then [] else MarksUpto(related, rs, k, n - 1) + MarkFor(related, rs, k, n - 1)
  }

  /** The body of the inner loop: one pair is compared and, in conflict, both are marked. */
  method MarkPair(related: Relation, rs: seq<Candidate>, marks: seq<seq<Mark>>, i: nat, j: nat)
    returns (marked: seq<seq<Mark>>)
    requires i < j < |rs| == |marks| && !rs[i].stale
    ensures |marked| == |marks|
    ensures marked[i] == marks[i] + MarkFor(related, rs, i, j) && marked[j] == marks[j] + MarkFor(related, rs, j, i)
    ensures forall k | 0 <= k < |marks| && k != i && k != j :: marked[k] == marks[k]
  {
    var a, b := rs[i], rs[j];
    marked := marks;
    if b.stale { return; }
    if a.supersedes == Some(b.id) || b.supersedes == Some(a.id) { return; }
    if !related(a, b) { return; }
    var slot := Disagreement(a, b);
    if slot.None? { return; }
    var mine := marks[i] + [Mark(b.id, WrittenAfter(a, b), slot.value)];
    var theirs := marks[j] + [Mark(a.id, WrittenAfter(b, a), slot.value)];
    marked := marks[i := mine][j := theirs];
  }

  /** After `done` results have been compared with all later ones, and the next with those before `j`. */
  ghost predicate MarkedSoFar(related: Relation, rs: seq<Candidate>, marks: seq<seq<Mark>>, done: nat, j: nat)
    requires done <= |rs|
  {
    && |marks| == |rs|
    && (forall k | 0 <= k < done :: marks[k] == MarksUpto(related, rs, k, |rs|))
    && (done < |rs| && done < j <= |rs| ==>
          && marks[done] == MarksUpto(related, rs, done, j)
          && (forall k | done < k < j :: marks[k] == MarksUpto(related, rs, k, done + 1))
          && (forall k | j <= k < |rs| :: marks[k] == MarksUpto(related, rs, k, done)))
  }

  lemma MarksMore(related: Relation, rs: seq<Candidate>, k: nat, n: nat)
    requires k < |rs| && n < |rs|
    ensures MarksUpto(related, rs, k, n + 1) == MarksUpto(related, rs, k, n) + MarkFor(related, rs, k, n)
    ensures k == n ==> MarksUpto(related, rs, k, n + 1) == MarksUpto(related, rs, k, n)
  {
  }

  lemma PairDone(related: Relation, rs: seq<Candidate>, marks: seq<seq<Mark>>, marked: seq<seq<Mark>>, i: nat, j: nat)
    requires i < j < |rs| && MarkedSoFar(related, rs, marks, i, j) && |marked| == |marks|
    requires marked[i] == marks[i] + MarkFor(related, rs, i, j) && marked[j] == marks[j] + MarkFor(related, rs, j, i)
    requires forall k | 0 <= k < |marks| && k != i && k != j :: marked[k] == marks[k]
    ensures MarkedSoFar(related, rs, marked, i, j + 1)
  {
    MarksMore(related, rs, i, j);
    MarksMore(related, rs, j, i);
    hide MarksUpto, MarkFor;
  }

  /** A finished row: the next result's own entry adds nothing. */
  lemma RowDone(related: Relation, rs: seq<Candidate>, marks: seq<seq<Mark>>, i: nat)
    requires i < |rs| && MarkedSoFar(related, rs, marks, i, |rs|)
    ensures MarkedSoFar(related, rs, marks, i + 1, i + 2)
  {
    if i + 1 < |rs| { MarksMore(related, rs, i + 1, i + 1); }
    hide MarksUpto, MarkFor;
  }

  lemma StaleRow(related: Relation, rs: seq<Candidate>, marks: seq<seq<Mark>>, i: nat)
    requires i < |rs| && rs[i].stale && MarkedSoFar(related, rs, marks, i, i + 1)
    ensures MarkedSoFar(related, rs, marks, i, |rs|)
  {
    StaleUnmarked(related, rs, i, i + 1, |rs|);
    forall k | i < k < |rs| ensures MarksUpto(related, rs, k, i + 1) == MarksUpto(related, rs, k, i) {
      MarksMore(related, rs, k, i);
    }
    hide MarksUpto, MarkFor;
  }

  /** The inner loop: one result against all later ones. */
  method MarkRow(related: Relation, rs: seq<Candidate>, marks: seq<seq<Mark>>, i: nat) returns (marked: seq<seq<Mark>>)
    requires i < |rs| && !rs[i].stale && MarkedSoFar(related, rs, marks, i, i + 1)
    ensures MarkedSoFar(related, rs, marked, i + 1, i + 2)
  {
    marked := marks;
    for j := i + 1 to |rs|
      invariant |marked| == |rs| && MarkedSoFar(related, rs, marked, i, j)
    {
      var next := MarkPair(related, rs, marked, i, j);
      PairDone(related, rs, marked, next, i, j);
      hide MarkedSoFar;
      marked := next;
    }
    RowDone(related, rs, marked, i);
  }

  lemma NothingMarked(related: Relation, rs: seq<Candidate>, marks: seq<seq<Mark>>)
    requires |marks| == |rs| && forall k | 0 <= k < |rs| :: marks[k] == []
    ensures MarkedSoFar(related, rs, marks, 0, 1)
  {
    if |rs| > 0 { MarksMore(related, rs, 0, 0); }
  }

  lemma AllMarked(related: Relation, rs: seq<Candidate>, marks: seq<seq<Mark>>)
    requires MarkedSoFar(related, rs, marks, |rs|, |rs| + 1)
    ensures |marks| == |rs| && forall k | 0 <= k < |rs| :: marks[k] == MarksUpto(related, rs, k, |rs|)
  {
  }

  /** One list of marks per result, in input order, each listing the others in input order. */
  method DetectConflicts(related: Relation, rs: seq<Candidate>) returns (marks: seq<seq<Mark>>)
    ensures |marks| == |rs|
    ensures forall k | 0 <= k < |rs| :: marks[k] == MarksUpto(related, rs, k, |rs|)
  {
    hide MarkedSoFar, MarksUpto;
    marks := seq(|rs|, _ => []);
    NothingMarked(related, rs, marks);
    for i := 0 to |rs|
      invariant MarkedSoFar(related, rs, marks, i, i + 1)
    {
      if rs[i].stale {
        StaleRow(related, rs, marks, i);
        RowDone(related, rs, marks, i);
        continue;
      }
      marks := MarkRow(related, rs, marks, i);
    }
    AllMarked(related, rs, marks);
  }

  lemma {:induction false} StaleUnmarked(related: Relation, rs: seq<Candidate>, k: nat, m: nat, n: nat)
    requires k < |rs| && m <= n <= |rs| && rs[k].stale
    ensures MarksUpto(related, rs, k, n) == MarksUpto(related, rs, k, m)
    decreases n - m
  {
    if m < n { StaleUnmarked(related, rs, k, m, n - 1); }
  }

  // ---------------------------------------------------------------- newest first

  /** The mark `find` returns for an id: the first with it. */
  function Find(marks: seq<Mark>, id: string): Option<Mark> {
    if marks == [] then None else if marks[0].id == id then Some(marks[0]) else Find(marks[1..], id)
  }

  predicate MarkedNewer(marks: seq<Mark>, id: string) {
    Find(marks, id).Some? && Find(marks, id).value.newer
  }

  function NewerPairs(rs: seq<Candidate>, marks: seq<seq<Mark>>): (n: Newer)
    requires |rs| == |marks|
    ensures forall a: nat, b: nat :: (a, b) in n <==> a < |rs| && b < |rs| && MarkedNewer(marks[a], rs[b].id)
  {
    set a: nat, b: nat | a < |rs| && b < |rs| && MarkedNewer(marks[a], rs[b].id) :: (a, b)
  }

  function Positions(n: nat): (p: seq<nat>)
    ensures |p| == n && forall i | 0 <= i < n :: p[i] == i
  {
    seq(n, i => i)
  }

  /** The order the loop leaves the results in, by original position. */
  function Order(rs: seq<Candidate>, marks: seq<seq<Mark>>): seq<nat>
    requires |rs| == |marks|
  {
    Sort(NewerPairs(rs, marks), Positions(|rs|), |rs| * |rs|)
  }

  ghost predicate Permuted<T>(q: seq<T>, original: seq<T>, p: seq<nat>) {
    |q| == |p| && forall i | 0 <= i < |q| :: p[i] < |original| && q[i] == original[p[i]]
  }

  lemma MovedPermuted<T>(q: seq<T>, original: seq<T>, p: seq<nat>, j: nat, i: nat)
    requires i <= j < |q| && Permuted(q, original, p)
    ensures Permuted(Moved(q, j, i), original, Moved(p, j, i))
  {
  }

  /** One splice of results and marks alike is one step of `Sort`. */
  lemma SpliceStep(rs: seq<Candidate>, marks: seq<seq<Mark>>, out: seq<Candidate>, m: seq<seq<Mark>>, p: seq<nat>,
                   g: nat, j: nat, i: nat)
    requires |rs| == |marks| && g > 0 && Permuted(out, rs, p) && Permuted(m, marks, p)
    requires i < j < |p| && FirstLate(NewerPairs(rs, marks), p, 0) == j && FirstOlder(NewerPairs(rs, marks), p, j) == i
    ensures Permuted(Moved(out, j, i), rs, Moved(p, j, i)) && Permuted(Moved(m, j, i), marks, Moved(p, j, i))
    ensures Sort(NewerPairs(rs, marks), p, g) == Sort(NewerPairs(rs, marks), Moved(p, j, i), g - 1)
    ensures multiset(Moved(out, j, i)) == multiset(out)
  {
    MovedPermuted(out, rs, p, j, i);
    MovedPermuted(m, marks, p, j, i);
    MovedBag(out, j, i);
    SortStep(NewerPairs(rs, marks), p, g, j, i);
  }

  /** Splicing: the results and their marks are moved alike, so they stay aligned. */
  method NewestFirst(rs: seq<Candidate>, marks: seq<seq<Mark>>) returns (out: seq<Candidate>, m: seq<seq<Mark>>)
    requires |rs| == |marks|
    ensures Permuted(out, rs, Order(rs, marks)) && Permuted(m, marks, Order(rs, marks))
    ensures multiset(out) == multiset(rs)
  {
    hide Moved, Permuted, FirstLate, FirstOlder;
    out, m := rs, marks;
    ghost var p := Positions(|rs|);
    assert Permuted(out, rs, p) && Permuted(m, marks, p) by { PositionsPermute(rs); PositionsPermute(marks); }
    var guard := 0;
    while guard < |out| * |out|
      invariant |out| == |m| == |p| == |rs| && guard <= |out| * |out|
      invariant Permuted(out, rs, p) && Permuted(m, marks, p) && multiset(out) == multiset(rs)
      invariant Sort(NewerPairs(rs, marks), p, |rs| * |rs| - guard) == Order(rs, marks)
      decreases |rs| * |rs| - guard
    {
      var j, i, moved := FindMove(out, m, rs, marks, p);
      if !moved {
        return;
      }
      SpliceStep(rs, marks, out, m, p, |rs| * |rs| - guard, j, i);
      out, m, p := Moved(out, j, i), Moved(m, j, i), Moved(p, j, i);
      guard := guard + 1;
    }
  }

  lemma PositionsPermute<T>(q: seq<T>)
    ensures Permuted(q, q, Positions(|q|))
  {
  }

  /** The two inner loops: the first result that follows one it is marked newer than. */
  method FindMove(out: seq<Candidate>, m: seq<seq<Mark>>, ghost rs: seq<Candidate>, ghost marks: seq<seq<Mark>>,
                  ghost p: seq<nat>)
    returns (j: nat, i: nat, moved: bool)
    requires |out| == |m| == |p| && |rs| == |marks| && Permuted(out, rs, p) && Permuted(m, marks, p)
    ensures var newer := NewerPairs(rs, marks);
      if moved then i < j < |out| && FirstLate(newer, p, 0) == j && FirstOlder(newer, p, j) == i
      else FirstLate(newer, p, 0) == |p|
  {
    ghost var newer := NewerPairs(rs, marks);
    i, moved := 0, false;
    j := 1;
    while j < |out|
      invariant 1 <= j
      invariant forall k | 0 <= k < j && k < |p| :: FirstOlder(newer, p, k) == k
      decreases |out| - j
    {
      i := 0;
      while i < j
        invariant i <= j
        invariant forall k | 0 <= k < i :: (p[j], p[k]) !in newer
      {
        if MarkedNewer(m[j], out[i].id) {
          ghost var u := p[..j];
          forall a, b | 0 <= a < b < |u| ensures (u[b], u[a]) !in newer { assert FirstOlder(newer, p, b) == b; }
          LateIs(newer, p, j, i);
          return j, i, true;
        }
        i := i + 1;
      }
      j := j + 1;
    }
  }

  // ---------------------------------------------------------------- what the reorder promises

  /** An id names one memory, so it has one creation time. */
  ghost predicate IdsDate(rs: seq<Candidate>) {
    forall a, b | 0 <= a < |rs| && 0 <= b < |rs| && rs[a].id == rs[b].id :: rs[a].created == rs[b].created
  }

  ghost predicate Detected(related: Relation, rs: seq<Candidate>, marks: seq<seq<Mark>>) {
    |marks| == |rs| && forall k | 0 <= k < |rs| :: marks[k] == MarksUpto(related, rs, k, |rs|)
  }

  ghost predicate FoundFrom(related: Relation, rs: seq<Candidate>, k: nat, p: nat, mark: Mark)
    requires k < |rs|
  {
    p < |rs| && p != k && rs[p].id == mark.id && mark.newer == WrittenAfter(rs[k], rs[p])
  }

  /** What `find` sees of a result's marks for the first `n`: the first conflicting result with the id. */
  ghost predicate FoundRight(related: Relation, rs: seq<Candidate>, k: nat, n: nat, id: string, f: Option<Mark>)
    requires k < |rs| && n <= |rs|
  {
    && (f.Some? ==> f.value.id == id && exists p: nat :: FoundFrom(related, rs, k, p, f.value))
    && (f.None? ==> forall p: nat | p < n && p != k && rs[p].id == id :: MarkFor(related, rs, k, p) == [])
  }

  lemma FoundNext(related: Relation, rs: seq<Candidate>, k: nat, n: nat, id: string, f: Option<Mark>)
    requires k < |rs| && n < |rs| && FoundRight(related, rs, k, n, id, f)
    ensures FoundRight(related, rs, k, n + 1, id, if f.Some? then f else Find(MarkFor(related, rs, k, n), id))
  {
    var b := MarkFor(related, rs, k, n);
    hide Conflict;
    if f.None? && b != [] {
      assert b == [b[0]] && b[0].id == rs[n].id;
      assert FoundFrom(related, rs, k, n, b[0]);
      assert Find(b, id) == if b[0].id == id then Some(b[0]) else None;
    }
  }

  lemma {:induction false} FindInMarks(related: Relation, rs: seq<Candidate>, k: nat, n: nat, id: string)
    requires k < |rs| && n <= |rs|
    ensures FoundRight(related, rs, k, n, id, Find(MarksUpto(related, rs, k, n), id))
    decreases n
  {
    hide MarksUpto, MarkFor, FoundRight, Find;
    if n == 0 {
      NothingFound(related, rs, k, id);
    } else {
      var a, b := MarksUpto(related, rs, k, n - 1), MarkFor(related, rs, k, n - 1);
      FindInMarks(related, rs, k, n - 1, id);
      MarksMore(related, rs, k, n - 1);
      FindConcat(a, b, id);
      FoundNext(related, rs, k, n - 1, id, Find(a, id));
    }
  }

  lemma NothingFound(related: Relation, rs: seq<Candidate>, k: nat, id: string)
    requires k < |rs|
    ensures FoundRight(related, rs, k, 0, id, Find(MarksUpto(related, rs, k, 0), id))
  {
  }

  lemma {:induction false} FindConcat(a: seq<Mark>, b: seq<Mark>, id: string)
    ensures Find(a + b, id) == if Find(a, id).Some? then Find(a, id) else Find(b, id)
  {
    if a == [] {
      assert a + b == b;
    } else {
      assert (a + b)[1..] == a[1..] + b;
      FindConcat(a[1..], b, id);
    }
  }

  /** Creation times with the undated ones at zero: an undated result is marked newer than nothing. */
  function TimesOf(rs: seq<Candidate>): (t: seq<int>)
    ensures |t| == |rs| && forall i | 0 <= i < |rs| :: rs[i].created.Some? ==> t[i] == rs[i].created.value
  {
    seq(|rs|, i requires 0 <= i < |rs| => if rs[i].created.Some? then rs[i].created.value else 0)
  }

  lemma MarksAreDated(related: Relation, rs: seq<Candidate>, marks: seq<seq<Mark>>)
    requires Detected(related, rs, marks) && IdsDate(rs)
    ensures Dated(NewerPairs(rs, marks), TimesOf(rs))
  {
    var newer := NewerPairs(rs, marks);
    forall a, b | (a, b) in newer ensures a < |rs| && b < |rs| && TimesOf(rs)[a] > TimesOf(rs)[b] {
      FindInMarks(related, rs, a, |rs|, rs[b].id);
      var p: nat :| FoundFrom(related, rs, a, p, Find(marks[a], rs[b].id).value);
      assert rs[p].created == rs[b].created;
    }
  }

  /**
   * Newest first: whatever the marks, the reordered results have none that follows one it is
   * marked newer than. The bound on the loop never ends it early.
   */
  lemma NoneFollowsOlder(related: Relation, rs: seq<Candidate>, marks: seq<seq<Mark>>)
    requires Detected(related, rs, marks) && IdsDate(rs)
    ensures var p := Order(rs, marks);
      |p| == |rs| && multiset(p) == multiset(Positions(|rs|))
      && InOrder(NewerPairs(rs, marks), p)
  {
    MarksAreDated(related, rs, marks);
    SortBag(NewerPairs(rs, marks), Positions(|rs|), |rs| * |rs|);
    GuardIsEnough(NewerPairs(rs, marks), TimesOf(rs), Positions(|rs|));
  }

  /** The same of the returned lists themselves, results and marks aligned. */
  lemma ReturnedInOrder(related: Relation, rs: seq<Candidate>, marks: seq<seq<Mark>>, out: seq<Candidate>,
                        m: seq<seq<Mark>>)
    requires Detected(related, rs, marks) && IdsDate(rs)
    requires Permuted(out, rs, Order(rs, marks)) && Permuted(m, marks, Order(rs, marks))
    ensures forall i, j | 0 <= i < j < |out| :: !MarkedNewer(m[j], out[i].id)
  {
    NoneFollowsOlder(related, rs, marks);
    var p := Order(rs, marks);
    forall i, j | 0 <= i < j < |out| ensures !MarkedNewer(m[j], out[i].id) {
      assert (p[j], p[i]) !in NewerPairs(rs, marks);
    }
  }

  /** The later of two conflicting results is marked newer than the other, whatever else has its id. */
  lemma ConflictIsNewer(related: Relation, rs: seq<Candidate>, marks: seq<seq<Mark>>, a: nat, b: nat)
    requires Detected(related, rs, marks) && IdsDate(rs) && a < |rs| && b < |rs|
    requires a != b && Conflict(related, rs[if a < b then a else b], rs[if a < b then b else a]).Some?
    requires WrittenAfter(rs[a], rs[b])
    ensures MarkedNewer(marks[a], rs[b].id)
  {
    FindInMarks(related, rs, a, |rs|, rs[b].id);
    assert MarkFor(related, rs, a, b) != [];
    var q: nat :| FoundFrom(related, rs, a, q, Find(marks[a], rs[b].id).value);
    assert rs[q].created == rs[b].created;
  }

  /** Of two versions of one fact, the one written later comes first. */
  lemma NewerVersionFirst(related: Relation, rs: seq<Candidate>, marks: seq<seq<Mark>>, a: nat, b: nat)
    requires Detected(related, rs, marks) && IdsDate(rs) && a < |rs| && b < |rs|
    requires a != b && Conflict(related, rs[if a < b then a else b], rs[if a < b then b else a]).Some?
    requires WrittenAfter(rs[a], rs[b])
    ensures Before(Order(rs, marks), a, b)
  {
    var newer, p := NewerPairs(rs, marks), Order(rs, marks);
    NoneFollowsOlder(related, rs, marks);
    ConflictIsNewer(related, rs, marks, a, b);
    assert (a, b) in newer;
    hide Detected, IdsDate, Conflict, WrittenAfter, NewerPairs, Order;
    InSomePlace(p, a, |rs|);
    InSomePlace(p, b, |rs|);
    var x :| 0 <= x < |p| && p[x] == a;
    var y :| 0 <= y < |p| && p[y] == b;
    assert !(y < x);
  }

  lemma InSomePlace(p: seq<nat>, a: nat, n: nat)
    requires multiset(p) == multiset(Positions(n)) && a < n
    ensures exists x :: 0 <= x < |p| && p[x] == a
  {
    assert Positions(n)[a] in multiset(p);
  }

  /** A result marked newer than nothing keeps every earlier result before it. */
  lemma UnmarkedKeepPlace(rs: seq<Candidate>, marks: seq<seq<Mark>>, x: nat, y: nat)
    requires |marks| == |rs| && x < y < |rs|
    requires forall k | 0 <= k < |marks[y]| :: !marks[y][k].newer
    ensures Before(Order(rs, marks), x, y)
  {
    var newer, p := NewerPairs(rs, marks), Positions(|rs|);
    forall z: nat ensures (y, z) !in newer {
      if z < |rs| { FindNone(marks[y], rs[z].id); }
    }
    assert p[x] == x && p[y] == y;
    UnmarkedNeverOvertakes(newer, p, |rs| * |rs|, x, y);
  }

  lemma {:induction false} FindNone(marks: seq<Mark>, id: string)
    requires forall k | 0 <= k < |marks| :: !marks[k].newer
    ensures !MarkedNewer(marks, id)
  {
    if marks != [] && marks[0].id != id { FindNone(marks[1..], id); }
  }
}
