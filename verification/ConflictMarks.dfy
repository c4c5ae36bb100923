// When two memories disagree and which marks they get, told without the functions that compute it:
// value by value, and for dates month by month.
module ConflictMarks {
  import opened Prelude
  import opened Conflicts

  // ---------------------------------------------------------------- values

  /** The month a date names, if it names one of the twelve or came as a month. */
  function Month(v: Value): Option<nat> {
    match v
    case IsoDate(_, month, _) => if 1 <= month <= 12 then Some(month) else None
    case MonthDay(month, _) => Some(month)
    case MonthOnly(month) => Some(month)
    case Text(_) => None
  }

  function Short(word: string): string { if |word| <= 3 then word else word[..3] }

  /** Equal at the grain of months; a word counts by its first three letters. */
  predicate SameMonth(v: Value, w: Value) {
    || v == w
    || (Month(v).Some? && Month(v) == Month(w))
    || (v.Text? && w.Text? && Short(v.text) == Short(w.text))
  }

  lemma {:induction false} MonthOfIsMonth(v: Value, w: Value)
    ensures MonthOf(v) == MonthOf(w) <==> SameMonth(v, w)
  {
  }

  /** One of the two has a month without a day. */
  ghost predicate ByMonth(kind: SlotKind, va: set<Value>, vb: set<Value>) {
    kind == Date && exists v :: (v in va || v in vb) && v.MonthOnly?
  }

  /** Every value of the one occurs in the other, dates by month where one side has only months. */
  ghost predicate Repeats(kind: SlotKind, a: Candidate, b: Candidate)
    requires kind in a.slots && kind in b.slots
  {
    var va, vb := a.slots[kind], b.slots[kind];
    forall v | v in va :: if ByMonth(kind, va, vb) then exists w :: w in vb && SameMonth(v, w) else v in vb
  }

  /** Both carry values of the kind, and neither repeats all of the other's. */
  ghost predicate Differ(kind: SlotKind, a: Candidate, b: Candidate) {
    kind in a.slots && kind in b.slots && !Repeats(kind, a, b) && !Repeats(kind, b, a)
  }

  lemma {:induction false} MonthsContain(va: set<Value>, vb: set<Value>)
    ensures MonthsOf(va) <= MonthsOf(vb) <==> forall v | v in va :: exists w :: w in vb && SameMonth(v, w)
  {
    forall v, w ensures MonthOf(v) == MonthOf(w) <==> SameMonth(v, w) { MonthOfIsMonth(v, w); }
    hide MonthOf, SameMonth;
    if MonthsOf(va) <= MonthsOf(vb) {
      forall v | v in va ensures exists w :: w in vb && SameMonth(v, w) {
        assert MonthOf(v) in MonthsOf(vb);
        var w :| w in vb && MonthOf(w) == MonthOf(v);
        assert SameMonth(v, w);
      }
    }
    if forall v | v in va :: exists w :: w in vb && SameMonth(v, w) {
      forall x | x in MonthsOf(va) ensures x in MonthsOf(vb) {
        var v :| v in va && MonthOf(v) == x;
        var w :| w in vb && SameMonth(v, w);
        assert MonthOf(w) == x;
      }
    }
  }

  lemma {:induction false} CoarseIsByMonth(kind: SlotKind, va: set<Value>, vb: set<Value>)
    ensures kind == Date && (Coarse(va) || Coarse(vb)) <==> ByMonth(kind, va, vb)
    ensures ByMonth(kind, va, vb) <==> ByMonth(kind, vb, va)
  {
  }

  lemma {:induction false} RepeatsAtGrain(kind: SlotKind, a: Candidate, b: Candidate)
    requires kind in a.slots && kind in b.slots
    ensures var va, vb := a.slots[kind], b.slots[kind];
      Repeats(kind, a, b) <==> if ByMonth(kind, va, vb) then MonthsOf(va) <= MonthsOf(vb) else va <= vb
  {
    MonthsContain(a.slots[kind], b.slots[kind]);
    hide MonthsOf, SameMonth, ByMonth;
  }

  lemma {:induction false} ClashIsDiffer(kind: SlotKind, a: Candidate, b: Candidate)
    ensures Clash(kind, a, b) <==> Differ(kind, a, b)
  {
    if kind in a.slots && kind in b.slots {
      CoarseIsByMonth(kind, a.slots[kind], b.slots[kind]);
      RepeatsAtGrain(kind, a, b);
      RepeatsAtGrain(kind, b, a);
      hide MonthsOf, Repeats, ByMonth, Coarse;
    }
  }

  /** The order in which kinds are compared. */
  function Turn(kind: SlotKind): nat {
    match kind
    case Time => 0
    case Date => 1
    case Money => 2
    case Status => 3
    case Number => 4
  }

  /** The kind is the first on which the two differ. */
  ghost predicate FirstDifference(kind: SlotKind, a: Candidate, b: Candidate) {
    Differ(kind, a, b) && forall earlier: SlotKind | Turn(earlier) < Turn(kind) :: !Differ(earlier, a, b)
  }

  /**
   * Two memories disagree on the first kind, in the order time, date, money, status, number, on which both have
   * values and neither repeats all of the other's; they do not disagree exactly when there is none.
   */
  lemma {:induction false} DisagreesExactly(a: Candidate, b: Candidate)
    ensures match Disagreement(a, b)
      case None => forall kind: SlotKind :: !Differ(kind, a, b)
      case Some(kind) => FirstDifference(kind, a, b)
  {
    forall kind: SlotKind ensures Clash(kind, a, b) <==> Differ(kind, a, b) { ClashIsDiffer(kind, a, b); }
    hide Clash, Differ;
    assert KINDS == [Time] + [Date, Money, Status, Number];
    var r := Disagreement(a, b);
    FirstClashSpec(KINDS, a, b);
    assert forall kind: SlotKind :: kind == KINDS[Turn(kind)];
    if r.Some? {
      var i :| 0 <= i < |KINDS| && KINDS[i] == r.value && Clash(KINDS[i], a, b)
        && forall k | 0 <= k < i :: !Clash(KINDS[k], a, b);
      assert Turn(r.value) == i;
      forall earlier: SlotKind | Turn(earlier) < i ensures !Differ(earlier, a, b) {
        assert KINDS[Turn(earlier)] == earlier;
      }
    } else {
      forall kind: SlotKind ensures !Differ(kind, a, b) { assert KINDS[Turn(kind)] == kind; }
    }
  }

  // ---------------------------------------------------------------- marks

  /**
   * Two current results about the same thing, neither a stated successor of the other, that differ on this
   * kind first.
   */
  ghost predicate InConflict(related: Relation, rs: seq<Candidate>, k: nat, p: nat, kind: SlotKind)
    requires k < |rs| && p < |rs|
  {
    && k != p && !rs[k].stale && !rs[p].stale
    && rs[k].supersedes != Some(rs[p].id) && rs[p].supersedes != Some(rs[k].id)
    && (if k < p then related(rs[k], rs[p]) else related(rs[p], rs[k]))
    && FirstDifference(kind, rs[k], rs[p])
  }

  /** Result `k` was written after result `p`, both times being known. */
  predicate Later(rs: seq<Candidate>, k: nat, p: nat)
    requires k < |rs| && p < |rs|
  {
    rs[k].created.Some? && rs[p].created.Some? && rs[p].created.value < rs[k].created.value
  }

  lemma {:induction false} FirstDifferenceBothWays(kind: SlotKind, a: Candidate, b: Candidate)
    ensures FirstDifference(kind, a, b) <==> FirstDifference(kind, b, a)
  {
    hide Repeats;
  }

  lemma {:induction false} OneFirst(x: SlotKind, y: SlotKind, a: Candidate, b: Candidate)
    requires FirstDifference(x, a, b) && FirstDifference(y, a, b)
    ensures x == y
  {
    hide Differ;
    assert Turn(x) == Turn(y);
  }

  /**
   * A result's mark for another says on which kind they conflict and which of them is newer; without a
   * conflict there is none.
   */
  lemma {:induction false} MarkIsConflict(related: Relation, rs: seq<Candidate>, k: nat, p: nat)
    requires k < |rs| && p < |rs|
    ensures var m := MarkFor(related, rs, k, p);
      if exists kind :: InConflict(related, rs, k, p, kind)
      then |m| == 1 && m[0].id == rs[p].id && m[0].newer == Later(rs, k, p) && InConflict(related, rs, k, p, m[0].slot)
      else m == []
  {
    var a, b := rs[if k < p then k else p], rs[if k < p then p else k];
    DisagreesExactly(a, b);
    forall kind: SlotKind ensures FirstDifference(kind, a, b) <==> FirstDifference(kind, b, a) {
      FirstDifferenceBothWays(kind, a, b);
    }
    if Disagreement(a, b).None? {
      forall kind: SlotKind ensures !FirstDifference(kind, a, b) { NoFirst(kind, a, b); }
    }
    hide Disagreement, FirstDifference, Differ;
    var m := MarkFor(related, rs, k, p);
    if m != [] { assert InConflict(related, rs, k, p, m[0].slot); }
  }

  lemma {:induction false} NoFirst(kind: SlotKind, a: Candidate, b: Candidate)
    requires !Differ(kind, a, b)
    ensures !FirstDifference(kind, a, b)
  {
  }

  /**
   * Every mark of a list is for one of these results, which come in input order; every result in conflict is
   * among them.
   */
  ghost predicate Listed(related: Relation, rs: seq<Candidate>, k: nat, n: nat, marks: seq<Mark>, ps: seq<nat>)
    requires k < |rs| && n <= |rs|
  {
    && |ps| == |marks|
    && (forall i | 0 <= i < |ps| :: ps[i] < n && marks[i].id == rs[ps[i]].id && marks[i].newer == Later(rs, k, ps[i])
                                    && InConflict(related, rs, k, ps[i], marks[i].slot))
    && (forall i, j | 0 <= i < j < |ps| :: ps[i] < ps[j])
    && (forall p: nat, kind | p < n && InConflict(related, rs, k, p, kind) :: p in ps)
  }

  /** The marks of a result, in closed form: one for each result it is in conflict with, in input order. */
  lemma {:induction false} MarksExactly(related: Relation, rs: seq<Candidate>, k: nat, n: nat) returns (ps: seq<nat>)
    requires k < |rs| && n <= |rs|
    ensures Listed(related, rs, k, n, MarksUpto(related, rs, k, n), ps)
  {
    if n == 0 {
      ps := [];
    } else {
      var before := MarksExactly(related, rs, k, n - 1);
      MarkIsConflict(related, rs, k, n - 1);
      ps := before + if MarkFor(related, rs, k, n - 1) == [] then [] else [n - 1];
      hide InConflict, Later, MarkFor;
      var marks, m := MarksUpto(related, rs, k, n - 1), MarkFor(related, rs, k, n - 1);
      OneMoreListed(related, rs, k, n - 1, marks, before, m, ps);
    }
  }

  lemma {:induction false} OneMoreListed(related: Relation, rs: seq<Candidate>, k: nat, n: nat, marks: seq<Mark>,
                                         before: seq<nat>, m: seq<Mark>, ps: seq<nat>)
    requires k < |rs| && n < |rs| && Listed(related, rs, k, n, marks, before)
    requires if exists kind :: InConflict(related, rs, k, n, kind)
             then |m| == 1 && m[0].id == rs[n].id && m[0].newer == Later(rs, k, n)
                  && InConflict(related, rs, k, n, m[0].slot)
             else m == []
    requires ps == before + if m == [] then [] else [n]
    ensures Listed(related, rs, k, n + 1, marks + m, ps)
  {
    hide InConflict, Later;
    forall p: nat, kind | p < n + 1 && InConflict(related, rs, k, p, kind) ensures p in ps {
      if p == n { assert ps[|before|] == n; } else { assert p in before; }
    }
  }
}
