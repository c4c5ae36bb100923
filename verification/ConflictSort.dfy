// The reorder of src/core/conflicts.ts:250-269 on positions. The loop moves the leftmost
// result that follows one it is newer than to just before the first such one, at most n * n times.
module ConflictSort {
  // `newer` holds the pairs (a, b) where a is marked newer than b; `p` lists the original
  // indices in their current order. Here: the bound of n * n moves is always enough.
  type Newer = set<(nat, nat)>

  // ---------------------------------------------------------------- the loop

  /** The first position before `j` that `p[j]` is newer than, or `j`. */
  function FirstOlder(newer: Newer, p: seq<nat>, j: nat): (i: nat)
    requires j < |p|
    ensures i <= j
    ensures i < j ==> (p[j], p[i]) in newer
    ensures forall k | 0 <= k < i :: (p[j], p[k]) !in newer
  {
    FirstOlderFrom(newer, p, j, 0)
  }

  function FirstOlderFrom(newer: Newer, p: seq<nat>, j: nat, i: nat): (r: nat)
    requires i <= j < |p|
    ensures i <= r <= j
    ensures r < j ==> (p[j], p[r]) in newer
    ensures forall k | i <= k < r :: (p[j], p[k]) !in newer
    decreases j - i
  {
    if i == j || (p[j], p[i]) in newer then i else FirstOlderFrom(newer, p, j, i + 1)
  }

  /** The first position from `j` on that follows one it is newer than, or the length. */
  function FirstLate(newer: Newer, p: seq<nat>, j: nat): (r: nat)
    requires j <= |p|
    ensures j <= r <= |p|
    ensures r < |p| ==> FirstOlder(newer, p, r) < r
    ensures forall k | j <= k < r :: FirstOlder(newer, p, k) == k
    decreases |p| - j
  {
    if j == |p| || FirstOlder(newer, p, j) < j then j else FirstLate(newer, p, j + 1)
  }

  function Moved<T>(q: seq<T>, j: nat, i: nat): (r: seq<T>)
    requires i <= j < |q|
    ensures |r| == |q|
  {
    q[..i] + [q[j]] + q[i..j] + q[j + 1..]
  }

  /** The loop with `guard` iterations left. */
  function Sort(newer: Newer, p: seq<nat>, guard: nat): seq<nat>
    decreases guard
  {
    var j := FirstLate(newer, p, 0);
    if guard == 0 || j == |p| then p
    else Sort(newer, Moved(p, j, FirstOlder(newer, p, j)), guard - 1)
  }

  /** Nothing follows something it is newer than. */
  ghost predicate InOrder(newer: Newer, p: seq<nat>) {
    forall i, j | 0 <= i < j < |p| :: (p[j], p[i]) !in newer
  }

  lemma LateIffOutOfOrder(newer: Newer, p: seq<nat>)
    ensures FirstLate(newer, p, 0) == |p| <==> InOrder(newer, p)
  {
    var j := FirstLate(newer, p, 0);
    if j == |p| {
      forall a, b | 0 <= a < b < |p| ensures (p[b], p[a]) !in newer { assert FirstOlder(newer, p, b) == b; }
    }
  }

  // ---------------------------------------------------------------- each move goes up

  /** Left to right, the first difference is an increase. */
  ghost predicate LexLess(a: seq<int>, b: seq<int>) {
    |a| == |b| && exists k | 0 <= k < |a| :: a[..k] == b[..k] && a[k] < b[k]
  }

  function Times(time: seq<int>, p: seq<nat>): (t: seq<int>)
    requires forall i | 0 <= i < |p| :: p[i] < |time|
    ensures |t| == |p| && forall i | 0 <= i < |p| :: t[i] == time[p[i]]
  {
    seq(|p|, i requires 0 <= i < |p| => time[p[i]])
  }

  /** Marks say newer only of later creation times. */
  ghost predicate Dated(newer: Newer, time: seq<int>) {
    forall a, b | (a, b) in newer :: a < |time| && b < |time| && time[a] > time[b]
  }

  /** A move strictly increases the left-to-right sequence of creation times. */
  lemma MoveClimbs(newer: Newer, time: seq<int>, p: seq<nat>)
    requires Dated(newer, time) && FirstLate(newer, p, 0) < |p|
    requires forall i | 0 <= i < |p| :: p[i] < |time|
    ensures var j := FirstLate(newer, p, 0);
      var q := Moved(p, j, FirstOlder(newer, p, j));
      (forall i | 0 <= i < |q| :: q[i] < |time|) && LexLess(Times(time, p), Times(time, q))
  {
    var j := FirstLate(newer, p, 0);
    var i := FirstOlder(newer, p, j);
    var q := Moved(p, j, i);
    assert forall k | 0 <= k < |q| :: q[k] in p;
    var a, b := Times(time, p), Times(time, q);
    assert a[..i] == b[..i] && a[i] < b[i];
  }

  lemma MovedBag<T>(q: seq<T>, j: nat, i: nat)
    requires i <= j < |q|
    ensures multiset(Moved(q, j, i)) == multiset(q)
  {
    var a, m, x, d := q[..i], q[i..j], [q[j]], q[j + 1..];
    assert q == a + (m + (x + d));
    assert Moved(q, j, i) == a + (x + (m + d));
  }

  lemma SortStep(newer: Newer, p: seq<nat>, g: nat, j: nat, i: nat)
    requires FirstLate(newer, p, 0) == j < |p| && FirstOlder(newer, p, j) == i && g > 0
    ensures Sort(newer, p, g) == Sort(newer, Moved(p, j, i), g - 1)
  {
  }

  lemma {:induction false} SortBag(newer: Newer, p: seq<nat>, guard: nat)
    ensures multiset(Sort(newer, p, guard)) == multiset(p) && |Sort(newer, p, guard)| == |p|
    decreases guard
  {
    var j := FirstLate(newer, p, 0);
    if guard > 0 && j < |p| {
      var i := FirstOlder(newer, p, j);
      MovedBag(p, j, i);
      SortStep(newer, p, guard, j, i);
      hide Moved, FirstLate, FirstOlder, Sort;
      SortBag(newer, Moved(p, j, i), guard - 1);
    }
  }

  // ---------------------------------------------------------------- the guard is enough

  /**
   * While one newly reached result and those newer than it are being put back in order, the
   * list is `pre + s + r` and a tail: `s` the results moved in this stage, `r` those not yet
   * moved, `entered` when each came into `s`. No result is moved twice in a stage.
   */
  ghost predicate Stage(newer: Newer, time: seq<int>, pre: seq<nat>, s: seq<nat>, r: seq<nat>, entered: map<nat, nat>) {
    && Dated(newer, time)
    && (forall a | 0 <= a < |s| :: s[a] in entered && entered[s[a]] < |s|)
    && (forall a, b | 0 <= a < b < |s| :: entered[s[a]] != entered[s[b]])
    && (forall k, l | 0 <= k < l < |r| :: r[k] != r[l])
    && (forall a, k | 0 <= a < |s| && 0 <= k < |r| :: s[a] != r[k])
    && InOrder(newer, pre + r)
    && InOrder(newer, s)
    && (forall a, x | 0 <= a < |s| && 0 <= x < |pre| :: (s[a], pre[x]) !in newer)
    && Nested(newer, s, r, entered)
    && LeftFirst(newer, s, r, entered)
    && Rising(time, s, entered)
  }

  /** Whatever came after a moved result that still has a newer one in `r` stands before it. */
  ghost predicate Nested(newer: Newer, s: seq<nat>, r: seq<nat>, entered: map<nat, nat>)
    requires forall a | 0 <= a < |s| :: s[a] in entered
  {
    forall a, b, k | 0 <= a < |s| && 0 <= b < |s| && 0 <= k < |r| && (r[k], s[a]) in newer
      && entered[s[a]] < entered[s[b]] :: b < a
  }

  /** Of two moved results, the later one's newer results in `r` lie left of the earlier one's. */
  ghost predicate LeftFirst(newer: Newer, s: seq<nat>, r: seq<nat>, entered: map<nat, nat>)
    requires forall a | 0 <= a < |s| :: s[a] in entered
  {
    forall a, b, k, l | 0 <= a < |s| && 0 <= b < |s| && 0 <= k < |r| && 0 <= l < |r|
      && entered[s[a]] < entered[s[b]] && (r[k], s[a]) in newer && (r[l], s[b]) in newer :: l < k
  }

  /** A result that came later and stands before is the newer of the two. */
  ghost predicate Rising(time: seq<int>, s: seq<nat>, entered: map<nat, nat>)
    requires forall a | 0 <= a < |s| :: s[a] in entered
  {
    forall a, b | 0 <= a < b < |s| && entered[s[a]] > entered[s[b]] ::
      s[a] < |time| && s[b] < |time| && time[s[a]] > time[s[b]]
  }

  /** The next move of a stage takes `z == r[k]` to just before `s[c]`. */
  ghost predicate NextMove(newer: Newer, s: seq<nat>, r: seq<nat>, k: nat, c: nat) {
    && k < |r| && c < |s|
    && (r[k], s[c]) in newer
    && (forall a | 0 <= a < c :: (r[k], s[a]) !in newer)
    && (forall l, a | 0 <= l < k && 0 <= a < |s| :: (r[l], s[a]) !in newer)
  }

  function Inserted(s: seq<nat>, c: nat, z: nat): (s': seq<nat>)
    requires c <= |s|
    ensures |s'| == |s| + 1
  {
    s[..c] + [z] + s[c..]
  }

  function Removed(r: seq<nat>, k: nat): seq<nat>
    requires k < |r|
  {
    r[..k] + r[k + 1..]
  }

  /** Nothing moved earlier at or behind the insertion point is newer than the result moved now. */
  lemma NothingBehindIsNewer(newer: Newer, time: seq<int>, pre: seq<nat>, s: seq<nat>, r: seq<nat>,
                             entered: map<nat, nat>, k: nat, c: nat, b: nat)
    requires Stage(newer, time, pre, s, r, entered) && NextMove(newer, s, r, k, c) && c <= b < |s|
    ensures (s[b], r[k]) !in newer
  {
    var at_b, at_c := entered[s[b]], entered[s[c]];
    assert b != c ==> at_b != at_c;
  }

  lemma InsertInOrder(newer: Newer, time: seq<int>, pre: seq<nat>, s: seq<nat>, r: seq<nat>, entered: map<nat, nat>,
                      k: nat, c: nat)
    requires Stage(newer, time, pre, s, r, entered) && NextMove(newer, s, r, k, c)
    ensures InOrder(newer, Inserted(s, c, r[k])) && InOrder(newer, pre + Removed(r, k))
    ensures forall a, x | 0 <= a < |s| + 1 && 0 <= x < |pre| :: (Inserted(s, c, r[k])[a], pre[x]) !in newer
  {
    var z, s' := r[k], Inserted(s, c, r[k]);
    forall a, b | 0 <= a < b < |s'| ensures (s'[b], s'[a]) !in newer {
      if a == c {
        assert s'[b] == s[b - 1];
        NothingBehindIsNewer(newer, time, pre, s, r, entered, k, c, b - 1);
      }
    }
    var q, q' := pre + r, pre + Removed(r, k);
    assert q[|pre| + k] == z;
    forall x, y | 0 <= x < y < |q'| ensures (q'[y], q'[x]) !in newer {
      var x0, y0 := if x < |pre| + k then x else x + 1, if y < |pre| + k then y else y + 1;
      assert q'[x] == q[x0] && q'[y] == q[y0];
    }
    forall a, x | 0 <= a < |s'| && 0 <= x < |pre| ensures (s'[a], pre[x]) !in newer {
      if a == c { assert (q[|pre| + k], q[x]) !in newer; }
    }
  }

  /** Waiting newer results: the moved one goes before every earlier one that still has some. */
  lemma BeforeTheUnfinished(newer: Newer, time: seq<int>, pre: seq<nat>, s: seq<nat>, r: seq<nat>,
                            entered: map<nat, nat>, k: nat, c: nat, a: nat, l: nat)
    requires Stage(newer, time, pre, s, r, entered) && NextMove(newer, s, r, k, c)
    requires a < |s| && l < |r| && l != k && (r[l], s[a]) in newer
    ensures c <= a
  {
    var at_a, at_c := entered[s[a]], entered[s[c]];
    assert a != c ==> at_a != at_c;
  }

  lemma InsertNested(newer: Newer, time: seq<int>, pre: seq<nat>, s: seq<nat>, r: seq<nat>, entered: map<nat, nat>,
                     k: nat, c: nat)
    requires Stage(newer, time, pre, s, r, entered) && NextMove(newer, s, r, k, c)
    requires var s', e' := Inserted(s, c, r[k]), entered[r[k] := |s|]; forall a | 0 <= a < |s'| :: s'[a] in e'
    ensures Nested(newer, Inserted(s, c, r[k]), Removed(r, k), entered[r[k] := |s|])
  {
    var z, s', r', e' := r[k], Inserted(s, c, r[k]), Removed(r, k), entered[r[k] := |s|];
    forall a, b, l | 0 <= a < |s'| && 0 <= b < |s'| && 0 <= l < |r'| && (r'[l], s'[a]) in newer && e'[s'[a]] < e'[s'[b]]
      ensures b < a
    {
      var m := if l < k then l else l + 1;
      assert r'[l] == r[m];
      var at_a := e'[s'[a]];
      assert a == c ==> at_a == |s|;
      if a != c {
        var a0 := if a < c then a else a - 1;
        assert s'[a] == s[a0];
        if b == c {
          BeforeTheUnfinished(newer, time, pre, s, r, entered, k, c, a0, m);
        } else {
          var b0 := if b < c then b else b - 1;
          assert s'[b] == s[b0];
          hide LeftFirst, Rising, InOrder, Dated;
          assert b0 < a0;
        }
      }
    }
  }

  lemma InsertEntries(newer: Newer, time: seq<int>, pre: seq<nat>, s: seq<nat>, r: seq<nat>, entered: map<nat, nat>,
                      k: nat, c: nat)
    requires Stage(newer, time, pre, s, r, entered) && NextMove(newer, s, r, k, c)
    ensures var s', e' := Inserted(s, c, r[k]), entered[r[k] := |s|];
      (forall a | 0 <= a < |s'| :: s'[a] in e' && e'[s'[a]] < |s'|)
      && (forall a, b | 0 <= a < b < |s'| :: e'[s'[a]] != e'[s'[b]])
  {
    hide Nested, LeftFirst, Rising, InOrder, Dated;
    var s' := Inserted(s, c, r[k]);
    assert forall a | 0 <= a < |s'| :: s'[a] == if a < c then s[a] else if a == c then r[k] else s[a - 1];
  }

  /** A result newer than the one moved now lies left of it, hence left of the rest that wait. */
  lemma ParentsLeft(newer: Newer, time: seq<int>, pre: seq<nat>, s: seq<nat>, r: seq<nat>, entered: map<nat, nat>,
                    k: nat, c: nat, a: nat, x: nat, y: nat)
    requires Stage(newer, time, pre, s, r, entered) && NextMove(newer, s, r, k, c)
    requires a < |s| && x < |r| && y < |r| && x != k && (r[x], s[a]) in newer && (r[y], r[k]) in newer
    ensures y < k < x
  {
    var q := pre + r;
    assert q[|pre| + y] == r[y] && q[|pre| + k] == r[k];
    assert time[r[y]] > time[r[k]];
    var late := (q[|pre| + y], q[|pre| + k]);
    assert k < y ==> late !in newer;
  }

  lemma InsertLeftFirst(newer: Newer, time: seq<int>, pre: seq<nat>, s: seq<nat>, r: seq<nat>, entered: map<nat, nat>,
                        k: nat, c: nat)
    requires Stage(newer, time, pre, s, r, entered) && NextMove(newer, s, r, k, c)
    requires var s', e' := Inserted(s, c, r[k]), entered[r[k] := |s|]; forall a | 0 <= a < |s'| :: s'[a] in e'
    ensures LeftFirst(newer, Inserted(s, c, r[k]), Removed(r, k), entered[r[k] := |s|])
  {
    var z, s', r', e' := r[k], Inserted(s, c, r[k]), Removed(r, k), entered[r[k] := |s|];
    forall a, b, x, y | 0 <= a < |s'| && 0 <= b < |s'| && 0 <= x < |r'| && 0 <= y < |r'|
      && e'[s'[a]] < e'[s'[b]] && (r'[x], s'[a]) in newer && (r'[y], s'[b]) in newer ensures y < x
    {
      var x0, y0 := if x < k then x else x + 1, if y < k then y else y + 1;
      assert r'[x] == r[x0] && r'[y] == r[y0];
      var at_a := e'[s'[a]];
      assert a == c ==> at_a == |s|;
      if a != c {
        var a0 := if a < c then a else a - 1;
        assert s'[a] == s[a0];
        if b == c {
          assert s'[b] == z;
          ParentsLeft(newer, time, pre, s, r, entered, k, c, a0, x0, y0);
        } else {
          var b0 := if b < c then b else b - 1;
          assert s'[b] == s[b0];
          hide Nested, Rising, InOrder, Dated;
          assert y0 < x0;
        }
      }
    }
  }

  lemma InsertRising(newer: Newer, time: seq<int>, pre: seq<nat>, s: seq<nat>, r: seq<nat>, entered: map<nat, nat>,
                     k: nat, c: nat)
    requires Stage(newer, time, pre, s, r, entered) && NextMove(newer, s, r, k, c)
    requires var s', e' := Inserted(s, c, r[k]), entered[r[k] := |s|]; forall a | 0 <= a < |s'| :: s'[a] in e'
    ensures Rising(time, Inserted(s, c, r[k]), entered[r[k] := |s|])
  {
    var z, s', e' := r[k], Inserted(s, c, r[k]), entered[r[k] := |s|];
    assert forall a | 0 <= a < |s'| :: s'[a] == if a < c then s[a] else if a == c then z else s[a - 1];
    assert forall a | 0 <= a < |s| :: e'[s[a]] == entered[s[a]];
    forall a, b | 0 <= a < b < |s'| && e'[s'[a]] > e'[s'[b]]
      ensures s'[a] < |time| && s'[b] < |time| && time[s'[a]] > time[s'[b]]
    {
      if a == c && b > c + 1 {
        assert s'[b] == s[b - 1] && entered[s[c]] != entered[s[b - 1]];
        assert entered[s[c]] > entered[s[b - 1]];
      }
    }
  }

  lemma StageStep(newer: Newer, time: seq<int>, pre: seq<nat>, s: seq<nat>, r: seq<nat>, entered: map<nat, nat>,
                  k: nat, c: nat)
    requires Stage(newer, time, pre, s, r, entered) && NextMove(newer, s, r, k, c)
    ensures Stage(newer, time, pre, Inserted(s, c, r[k]), Removed(r, k), entered[r[k] := |s|])
  {
    InsertInOrder(newer, time, pre, s, r, entered, k, c);
    InsertEntries(newer, time, pre, s, r, entered, k, c);
    InsertNested(newer, time, pre, s, r, entered, k, c);
    InsertLeftFirst(newer, time, pre, s, r, entered, k, c);
    InsertRising(newer, time, pre, s, r, entered, k, c);
    hide InOrder, Nested, LeftFirst, Rising;
    var r' := Removed(r, k);
    assert forall l | 0 <= l < |r'| :: r'[l] == if l < k then r[l] else r[l + 1];
  }

  // ---------------------------------------------------------------- counting the moves

  ghost predicate Distinct(p: seq<nat>) { forall i, j | 0 <= i < j < |p| :: p[i] != p[j] }

  lemma MovedDistinct(p: seq<nat>, j: nat, i: nat)
    requires i <= j < |p| && Distinct(p)
    ensures Distinct(Moved(p, j, i))
  {
    var q := Moved(p, j, i);
    assert forall k | 0 <= k < |q| :: q[k] == p[if k < i then k else if k == i then j else if k <= j then k - 1 else k];
  }

  /** The scan stops at the first position that follows something it is newer than. */
  lemma LateIs(newer: Newer, p: seq<nat>, j: nat, i: nat)
    requires i < j < |p| && InOrder(newer, p[..j])
    requires (p[j], p[i]) in newer && forall k | 0 <= k < i :: (p[j], p[k]) !in newer
    ensures FirstLate(newer, p, 0) == j && FirstOlder(newer, p, j) == i
  {
    var u := p[..j];
    forall a, b | 0 <= a < b < j ensures (p[b], p[a]) !in newer { assert (u[b], u[a]) !in newer; }
    assert FirstOlder(newer, p, j) == i;
    assert forall r | 0 <= r < j :: FirstOlder(newer, p, r) == r;
  }

  lemma MovedPieces(pre: seq<nat>, s: seq<nat>, r: seq<nat>, tail: seq<nat>, k: nat, c: nat)
    requires k < |r| && c <= |s|
    ensures Moved(pre + s + r + tail, |pre| + |s| + k, |pre| + c) == pre + Inserted(s, c, r[k]) + Removed(r, k) + tail
  {
    var p := pre + s + r + tail;
    var j, i := |pre| + |s| + k, |pre| + c;
    assert p[..i] == pre + s[..c];
    assert p[i..j] == s[c..] + r[..k];
    assert p[j + 1..] == r[k + 1..] + tail;
    assert Moved(p, j, i) == (pre + s[..c]) + [r[k]] + (s[c..] + r[..k]) + (r[k + 1..] + tail);
  }

  /** A move of a stage is the move the loop makes. */
  lemma StageMove(newer: Newer, time: seq<int>, pre: seq<nat>, s: seq<nat>, r: seq<nat>, tail: seq<nat>,
                  entered: map<nat, nat>, k: nat, c: nat)
    requires Stage(newer, time, pre, s, r, entered) && NextMove(newer, s, r, k, c)
    ensures var p := pre + s + r + tail;
      FirstLate(newer, p, 0) == |pre| + |s| + k && FirstOlder(newer, p, |pre| + |s| + k) == |pre| + c
  {
    hide Nested, LeftFirst, Rising, Dated;
    var p := pre + s + r + tail;
    var j, i := |pre| + |s| + k, |pre| + c;
    var q, u := pre + r, p[..j];
    forall a, b | 0 <= a < b < j ensures (u[b], u[a]) !in newer {
      if b < |pre| {
        assert (q[b], q[a]) !in newer;
      } else if b >= |pre| + |s| {
        if a < |pre| { assert (q[b - |s|], q[a]) !in newer; }
        else if a >= |pre| + |s| { assert (q[b - |s|], q[a - |s|]) !in newer; }
      }
    }
    forall x | 0 <= x < i ensures (p[j], p[x]) !in newer {
      if x < |pre| { assert (q[|pre| + k], q[x]) !in newer; } else { assert p[x] == s[x - |pre|]; }
    }
    LateIs(newer, p, j, i);
  }

  /** With nothing in `r` newer than anything in `s`, the stage is over. */
  lemma StageOver(newer: Newer, time: seq<int>, pre: seq<nat>, s: seq<nat>, r: seq<nat>, entered: map<nat, nat>)
    requires Stage(newer, time, pre, s, r, entered)
    requires forall k, a | 0 <= k < |r| && 0 <= a < |s| :: (r[k], s[a]) !in newer
    ensures InOrder(newer, pre + s + r)
  {
    hide Nested, LeftFirst, Rising, Dated;
    var p, q := pre + s + r, pre + r;
    forall a, b | 0 <= a < b < |p| ensures (p[b], p[a]) !in newer {
      if b < |pre| {
        assert (q[b], q[a]) !in newer;
      } else if b >= |pre| + |s| {
        if a < |pre| { assert (q[b - |s|], q[a]) !in newer; }
        else if a >= |pre| + |s| { assert (q[b - |s|], q[a - |s|]) !in newer; }
      }
    }
  }

  lemma {:induction false} LeastIn(newer: Newer, s: seq<nat>, z: nat, a: nat) returns (c: nat)
    requires a < |s| && (z, s[a]) in newer
    ensures c < |s| && (z, s[c]) in newer && forall b | 0 <= b < c :: (z, s[b]) !in newer
    decreases a
  {
    c := a;
    if b: nat :| b < a && (z, s[b]) in newer { c := LeastIn(newer, s, z, b); }
  }

  lemma {:induction false} LeftmostMove(newer: Newer, s: seq<nat>, r: seq<nat>, k: nat, a: nat)
    returns (k': nat, c: nat)
    requires k < |r| && a < |s| && (r[k], s[a]) in newer
    ensures NextMove(newer, s, r, k', c)
    decreases k
  {
    if l: nat, b: nat :| l < k && b < |s| && (r[l], s[b]) in newer {
      k', c := LeftmostMove(newer, s, r, l, b);
    } else {
      k' := k;
      c := LeastIn(newer, s, r[k], a);
    }
  }

  /** Moves that may be needed once the first `m` of `n` results are in order. */
  function Budget(m: nat, n: nat): nat
    decreases n - m
  {
    if m >= n then 0 else m + 1 + Budget(m + 1, n)
  }

  lemma {:induction false} BudgetIs(m: nat, n: nat)
    requires m <= n
    ensures 2 * Budget(m, n) == n * (n + 1) - m * (m + 1)
    decreases n - m
  {
    if m < n { BudgetIs(m + 1, n); }
  }

  /** One move of a stage, as the loop makes it. */
  lemma StageAdvance(newer: Newer, time: seq<int>, pre: seq<nat>, s: seq<nat>, r: seq<nat>, tail: seq<nat>,
                     entered: map<nat, nat>, g: nat, k: nat, a: nat)
    returns (s': seq<nat>, r': seq<nat>, entered': map<nat, nat>)
    requires Stage(newer, time, pre, s, r, entered) && Distinct(pre + s + r + tail) && g > 0
    requires k < |r| && a < |s| && (r[k], s[a]) in newer
    ensures Stage(newer, time, pre, s', r', entered') && Distinct(pre + s' + r' + tail)
    ensures |s'| == |s| + 1 && |r'| == |r| - 1
    ensures Sort(newer, pre + s + r + tail, g) == Sort(newer, pre + s' + r' + tail, g - 1)
  {
    hide Stage, Distinct, Sort, Moved, FirstLate, FirstOlder;
    var k', c := LeftmostMove(newer, s, r, k, a);
    s', r', entered' := Inserted(s, c, r[k']), Removed(r, k'), entered[r[k'] := |s|];
    StageMove(newer, time, pre, s, r, tail, entered, k', c);
    MovedPieces(pre, s, r, tail, k', c);
    StageStep(newer, time, pre, s, r, entered, k', c);
    hide NextMove, Inserted;
    var p := pre + s + r + tail;
    MovedDistinct(p, |pre| + |s| + k', |pre| + c);
    SortStep(newer, p, g, |pre| + |s| + k', |pre| + c);
  }

  /** A stage ends within one move for each result not yet moved in it. */
  lemma {:induction false} StageEnds(newer: Newer, time: seq<int>, pre: seq<nat>, s: seq<nat>, r: seq<nat>,
                                     tail: seq<nat>, entered: map<nat, nat>, g: nat)
    requires Stage(newer, time, pre, s, r, entered) && Distinct(pre + s + r + tail)
    requires g >= |r| + Budget(|pre| + |s| + |r|, |pre| + |s| + |r| + |tail|)
    ensures InOrder(newer, Sort(newer, pre + s + r + tail, g))
    decreases |tail|, 1, |r|
  {
    assert Dated(newer, time);
    hide Stage, Distinct, InOrder, Sort, Budget;
    if k: nat, a: nat :| k < |r| && a < |s| && (r[k], s[a]) in newer {
      var s', r', entered' := StageAdvance(newer, time, pre, s, r, tail, entered, g, k, a);
      StageEnds(newer, time, pre, s', r', tail, entered', g - 1);
    } else {
      StageOver(newer, time, pre, s, r, entered);
      assert (pre + s + r + tail)[..|pre| + |s| + |r|] == pre + s + r;
      PrefixEnds(newer, time, pre + s + r + tail, |pre| + |s| + |r|, g);
    }
  }

  /** The result at `m` is late: its stage starts with it moved to `i`. */
  lemma StageStarts(newer: Newer, time: seq<int>, p: seq<nat>, m: nat, i: nat)
    requires Dated(newer, time) && Distinct(p) && i < m < |p| && InOrder(newer, p[..m])
    requires forall k | 0 <= k < i :: (p[m], p[k]) !in newer
    ensures Stage(newer, time, p[..i], [p[m]], p[i..m], map[p[m] := 0])
  {
    assert p[..i] + p[i..m] == p[..m];
    hide InOrder;
    assert InOrder(newer, [p[m]]) by { OneInOrder(newer, p[m]); }
  }

  lemma OneInOrder(newer: Newer, x: nat)
    ensures InOrder(newer, [x])
  {
  }

  lemma OneMoreSettled(newer: Newer, p: seq<nat>, m: nat)
    requires m < |p| && InOrder(newer, p[..m]) && FirstOlder(newer, p, m) == m
    ensures InOrder(newer, p[..m + 1])
  {
    var u, v := p[..m + 1], p[..m];
    forall a, b | 0 <= a < b < m + 1 ensures (u[b], u[a]) !in newer {
      if b < m { assert (v[b], v[a]) !in newer; }
    }
  }

  lemma InOrderStays(newer: Newer, p: seq<nat>, g: nat)
    requires InOrder(newer, p)
    ensures Sort(newer, p, g) == p
  {
    LateIffOutOfOrder(newer, p);
  }

  lemma {:induction false} PrefixEnds(newer: Newer, time: seq<int>, p: seq<nat>, m: nat, g: nat)
    requires Dated(newer, time) && Distinct(p) && m <= |p| && InOrder(newer, p[..m])
    requires g >= Budget(m, |p|)
    ensures InOrder(newer, Sort(newer, p, g))
    decreases |p| - m, 0, 0
  {
    hide Distinct, InOrder, Sort, FirstLate, FirstOlder, Stage;
    if m == |p| {
      assert p[..m] == p;
      InOrderStays(newer, p, g);
    } else if FirstOlder(newer, p, m) == m {
      OneMoreSettled(newer, p, m);
      hide Budget;
      PrefixEnds(newer, time, p, m + 1, g);
    } else {
      var i := FirstOlder(newer, p, m);
      LateIs(newer, p, m, i);
      StageStarts(newer, time, p, m, i);
      MovedDistinct(p, m, i);
      SortStep(newer, p, g, m, i);
      StageEnds(newer, time, p[..i], [p[m]], p[i..m], p[m + 1..], map[p[m] := 0], g - 1);
    }
  }

  /** The guard never cuts the loop off: after at most n * n moves nothing follows something it is newer than. */
  lemma GuardIsEnough(newer: Newer, time: seq<int>, p: seq<nat>)
    requires Dated(newer, time) && Distinct(p)
    ensures InOrder(newer, Sort(newer, p, |p| * |p|))
  {
    var n := |p|;
    BudgetIs(0, n);
    assert n * (n + 1) <= 2 * (n * n);
    assert p[..0] == [];
    PrefixEnds(newer, time, p, 0, n * n);
  }

  // ---------------------------------------------------------------- what does not move

  ghost predicate Before(p: seq<nat>, x: nat, y: nat) {
    exists a, b | 0 <= a < b < |p| :: p[a] == x && p[b] == y
  }

  lemma {:induction false} MoveKeepsBehind(newer: Newer, p: seq<nat>, j: nat, i: nat, x: nat, y: nat)
    requires i < j < |p| && (p[j], p[i]) in newer
    requires Before(p, x, y) && forall z: nat :: (y, z) !in newer
    ensures Before(Moved(p, j, i), x, y)
  {
    var q := Moved(p, j, i);
    var a, b :| 0 <= a < b < |p| && p[a] == x && p[b] == y;
    var a' := if a < i || j < a then a else if a == j then i else a + 1;
    var b' := if b < i || j < b then b else b + 1;
    assert q[a'] == x && q[b'] == y && a' < b';
  }

  /** A result marked newer than nothing never overtakes: all that stood before it still do. */
  lemma {:induction false} UnmarkedNeverOvertakes(newer: Newer, p: seq<nat>, guard: nat, x: nat, y: nat)
    requires Before(p, x, y) && forall z: nat :: (y, z) !in newer
    ensures Before(Sort(newer, p, guard), x, y)
    decreases guard
  {
    var j := FirstLate(newer, p, 0);
    if guard > 0 && j < |p| {
      var i := FirstOlder(newer, p, j);
      hide Before, Sort, Moved, FirstLate, FirstOlder;
      MoveKeepsBehind(newer, p, j, i, x, y);
      SortStep(newer, p, guard, j, i);
      UnmarkedNeverOvertakes(newer, Moved(p, j, i), guard - 1, x, y);
    }
  }
}
