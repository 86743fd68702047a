/** Removing elements from a list while walking it. The game walks its entity
    arrays in two ways: backwards by index, splicing out the element at the
    current index (safe: every element is visited once), and forwards with
    `forEach`/`for...of` while the visited element splices itself out (the
    element after it slides into the freed slot and is never visited). Also
    the two searches the game runs over its enemy list. */
module Removal {
  import opened Wrappers

  /** `s.splice(i, 1)`. */
  function RemoveAt<T>(s: seq<T>, i: nat): (r: seq<T>)
    requires i < |s|
    ensures |r| == |s| - 1
    ensures forall j :: 0 <= j < i ==> r[j] == s[j]
    ensures forall j :: i <= j < |r| ==> r[j] == s[j + 1]
    ensures multiset(r) + multiset{s[i]} == multiset(s)
  {
    assert s == s[..i] + [s[i]] + s[i + 1..];
    s[..i] + s[i + 1..]
  }

  /** The complement of a test. */
  function Not<T>(p: T -> bool): T -> bool {
    x => !p(x)
  }

  /** The elements of s that satisfy keep, in order. */
  function Filter<T>(s: seq<T>, keep: T -> bool): (r: seq<T>)
    ensures |r| <= |s|
  {
    if s == [] then []
    else (if keep(s[0]) then [s[0]] else []) + Filter(s[1..], keep)
  }

  lemma {:induction false} FilterAppend<T>(a: seq<T>, b: seq<T>, keep: T -> bool)
    ensures Filter(a + b, keep) == Filter(a, keep) + Filter(b, keep)
  {
    if a == [] {
      assert a + b == b;
    } else {
      var h := if keep(a[0]) then [a[0]] else [];
      assert (a + b)[0] == a[0];
      assert (a + b)[1..] == a[1..] + b;
      FilterAppend(a[1..], b, keep);
      calc {
        Filter(a + b, keep);
        h + Filter(a[1..] + b, keep);
        h + (Filter(a[1..], keep) + Filter(b, keep));
        (h + Filter(a[1..], keep)) + Filter(b, keep);
        Filter(a, keep) + Filter(b, keep);
      }
    }
  }

  lemma {:induction false} FilterRemoveAt<T>(s: seq<T>, i: nat, keep: T -> bool)
    requires i < |s| && !keep(s[i])
    ensures Filter(RemoveAt(s, i), keep) == Filter(s, keep)
  {
    var a, x, b := s[..i], s[i], s[i + 1..];
    assert s == a + ([x] + b);
    assert RemoveAt(s, i) == a + b;
    assert Filter([x] + b, keep) == Filter(b, keep) by {
      assert ([x] + b)[0] == x;
      assert ([x] + b)[1..] == b;
    }
    FilterAppend(a, [x] + b, keep);
    FilterAppend(a, b, keep);
  }

  lemma {:induction false} FilterMultiset<T>(s: seq<T>, keep: T -> bool)
    ensures multiset(Filter(s, keep)) <= multiset(s)
  {
    if s != [] {
      FilterMultiset(s[1..], keep);
      assert s == [s[0]] + s[1..];
    }
  }

  lemma {:induction false} FilterMember<T>(s: seq<T>, keep: T -> bool, x: T)
    ensures x in Filter(s, keep) <==> x in s && keep(x)
    decreases |s|
  {
    if s != [] {
      FilterMember(s[1..], keep, x);
      assert s == [s[0]] + s[1..];
    }
  }

  // ---------------------------------------------------------------------------
  // Backward walk by index with in-place splice (the `for (i = len-1; i >= 0; i--)`
  // loops of the collision resolver).

  /** The list after visiting indices i, i-1, ..., 0, splicing out each visited
      element that `dies`. */
  function ReverseSweep<T>(s: seq<T>, i: int, dies: T -> bool): (r: seq<T>)
    requires i < |s|
    decreases i + 1
  {
    if i < 0 then s
    else ReverseSweep(if dies(s[i]) then RemoveAt(s, i) else s, i - 1, dies)
  }

  /** One step of the backward walk at the seam between p and x :: q. */
  lemma {:induction false} ReverseSweepStep<T>(p: seq<T>, x: T, q: seq<T>, dies: T -> bool)
    ensures ReverseSweep(p + ([x] + q), |p|, dies) ==
      if dies(x) then ReverseSweep(p + q, |p| - 1, dies) else ReverseSweep(p + ([x] + q), |p| - 1, dies)
  {
    var s := p + ([x] + q);
    assert s[|p|] == x;
    if dies(x) {
      assert RemoveAt(s, |p|) == p + q;
    }
  }

  lemma {:induction false} ReverseSweepSplit<T>(p: seq<T>, q: seq<T>, dies: T -> bool)
    ensures ReverseSweep(p + q, |p| - 1, dies) == Filter(p, Not(dies)) + q
    decreases |p|
  {
    if p == [] {
      assert p + q == q;
    } else {
      var n := |p| - 1;
      var x := p[n];
      var p' := p[..n];
      var keep := Not(dies);
      assert p == p' + [x];
      assert p + q == p' + ([x] + q);
      FilterAppend(p', [x], keep);
      ReverseSweepStep(p', x, q, dies);
      if dies(x) {
        ReverseSweepSplit(p', q, dies);
        assert Filter([x], keep) == [];
        assert Filter(p, keep) == Filter(p', keep);
      } else {
        ReverseSweepSplit(p', [x] + q, dies);
        assert Filter([x], keep) == [x];
        assert Filter(p, keep) + q == Filter(p', keep) + ([x] + q);
      }
    }
  }

  /** Safe: walking backwards visits every element exactly once, so the result
      is exactly the elements that do not die, in their original order. */
  lemma ReverseSweepIsFilter<T>(s: seq<T>, dies: T -> bool)
    ensures ReverseSweep(s, |s| - 1, dies) == Filter(s, Not(dies))
  {
    ReverseSweepSplit(s, [], dies);
    assert s + [] == s;
  }

  // ---------------------------------------------------------------------------
  // Forward walk where the visited element splices itself out (`forEach` and
  // `for...of` over a live array whose element calls `splice(indexOf(this), 1)`).

  /** The list after a forward walk that starts at index k; after a removal the
      walk still moves on to index k + 1. */
  function ForwardSweep<T>(s: seq<T>, k: nat, dies: T -> bool): (r: seq<T>)
    decreases |s| - k
  {
    if k >= |s| then s
    else if dies(s[k]) then ForwardSweep(RemoveAt(s, k), k + 1, dies)
    else ForwardSweep(s, k + 1, dies)
  }

  /** What the forward walk does, element by element: an element that dies
      shields the element right after it, which stays without being examined. */
  function Skipping<T>(s: seq<T>, dies: T -> bool): seq<T>
    decreases |s|
  {
    if s == [] then []
    else if !dies(s[0]) then [s[0]] + Skipping(s[1..], dies)
    else if |s| == 1 then []
    else [s[1]] + Skipping(s[2..], dies)
  }

  lemma {:induction false} ForwardSweepSplit<T>(p: seq<T>, q: seq<T>, dies: T -> bool)
    ensures ForwardSweep(p + q, |p|, dies) == p + Skipping(q, dies)
    decreases |q|
  {
    var s := p + q;
    if q == [] {
      assert s == p;
    } else {
      assert s[|p|] == q[0];
      if !dies(q[0]) {
        var p1 := p + [q[0]];
        assert s == p1 + q[1..];
        assert ForwardSweep(s, |p|, dies) == ForwardSweep(p1 + q[1..], |p1|, dies);
        ForwardSweepSplit(p1, q[1..], dies);
        assert Skipping(q, dies) == [q[0]] + Skipping(q[1..], dies);
      } else if |q| == 1 {
        assert RemoveAt(s, |p|) == p;
        assert ForwardSweep(s, |p|, dies) == ForwardSweep(p, |p| + 1, dies);
      } else {
        var p1 := p + [q[1]];
        assert RemoveAt(s, |p|) == p1 + q[2..];
        assert ForwardSweep(s, |p|, dies) == ForwardSweep(p1 + q[2..], |p1|, dies);
        ForwardSweepSplit(p1, q[2..], dies);
        assert Skipping(q, dies) == [q[1]] + Skipping(q[2..], dies);
      }
    }
  }

  lemma ForwardSweepIsSkipping<T>(s: seq<T>, dies: T -> bool)
    ensures ForwardSweep(s, 0, dies) == Skipping(s, dies)
  {
    ForwardSweepSplit([], s, dies);
    assert [] + s == s;
  }

  /** The forward walk never removes an element that does not die and removes
      nothing twice: what remains is a sub-multiset of the input that keeps
      every survivor in order. */
  lemma {:induction false} SkippingKeepsSurvivors<T>(s: seq<T>, dies: T -> bool)
    ensures Filter(Skipping(s, dies), Not(dies)) == Filter(s, Not(dies))
    ensures multiset(Skipping(s, dies)) <= multiset(s)
    decreases |s|
  {
    var keep := Not(dies);
    if s == [] {
    } else if !dies(s[0]) {
      SkippingKeepsSurvivors(s[1..], dies);
      FilterAppend([s[0]], Skipping(s[1..], dies), keep);
      assert s == [s[0]] + s[1..];
    } else if |s| == 1 {
    } else {
      SkippingKeepsSurvivors(s[2..], dies);
      FilterAppend([s[1]], Skipping(s[2..], dies), keep);
      assert s == [s[0]] + ([s[1]] + s[2..]);
      FilterAppend([s[0]], [s[1]] + s[2..], keep);
      FilterAppend([s[1]], s[2..], keep);
    }
  }

  /** No element that must go follows another one that must go. */
  predicate NoAdjacentDeaths<T>(s: seq<T>, dies: T -> bool) {
    forall i :: 0 <= i < |s| - 1 ==> !(dies(s[i]) && dies(s[i + 1]))
  }

  lemma {:induction false} SkippingFilterWhenIsolated<T>(s: seq<T>, dies: T -> bool)
    requires NoAdjacentDeaths(s, dies)
    ensures Skipping(s, dies) == Filter(s, Not(dies))
    decreases |s|
  {
    if s == [] {
    } else if !dies(s[0]) {
      SkippingFilterWhenIsolated(s[1..], dies);
    } else if |s| == 1 {
    } else {
      assert !dies(s[1]);
      assert s[1..][1..] == s[2..];
      SkippingFilterWhenIsolated(s[2..], dies);
    }
  }

  /** Two neighbours that both go leave at least one element behind that a
      filter would drop. */
  lemma {:induction false} SkippingKeepsExtra<T>(s: seq<T>, dies: T -> bool)
    requires !NoAdjacentDeaths(s, dies)
    ensures |Skipping(s, dies)| > |Filter(s, Not(dies))|
    decreases |s|
  {
    var keep := Not(dies);
    var i :| 0 <= i < |s| - 1 && dies(s[i]) && dies(s[i + 1]);
    if !dies(s[0]) {
      assert s[1..][i - 1] == s[i] && s[1..][i] == s[i + 1];
      SkippingKeepsExtra(s[1..], dies);
    } else {
      assert s[1..][1..] == s[2..];
      if dies(s[1]) {
        SkippingKeepsSurvivors(s[2..], dies);
        assert |Filter(s[2..], keep)| == |Filter(Skipping(s[2..], dies), keep)| <= |Skipping(s[2..], dies)|;
      } else {
        assert s[2..][i - 2] == s[i] && s[2..][i - 1] == s[i + 1];
        SkippingKeepsExtra(s[2..], dies);
      }
    }
  }

  /** The forward walk removes everything it should exactly when no two
      neighbours both go; otherwise it leaves some of them behind. */
  lemma SkippingExactWhenIsolated<T>(s: seq<T>, dies: T -> bool)
    ensures Skipping(s, dies) == Filter(s, Not(dies)) <==> NoAdjacentDeaths(s, dies)
    ensures !NoAdjacentDeaths(s, dies) ==> |Skipping(s, dies)| > |Filter(s, Not(dies))|
  {
    if NoAdjacentDeaths(s, dies) {
      SkippingFilterWhenIsolated(s, dies);
    } else {
      SkippingKeepsExtra(s, dies);
    }
  }

  /** The skip made concrete: two neighbours that both go, and the second one
      survives the walk although a filter would drop it. */
  lemma SkipExample<T>(x: T, y: T, dies: T -> bool)
    requires dies(x) && dies(y)
    ensures ForwardSweep([x, y], 0, dies) == [y]
    ensures Filter([x, y], Not(dies)) == []
  {
    ForwardSweepIsSkipping([x, y], dies);
    assert [x, y][2..] == [];
  }

  /** The forward walk of a `forEach` whose callback first updates the visited
      element in place and then may splice it out: an element that stays is
      replaced by `upd` of itself. */
  function ForwardUpdate<T>(s: seq<T>, k: nat, dies: T -> bool, upd: T -> T): (r: seq<T>)
    decreases |s| - k
  {
    if k >= |s| then s
    else if dies(s[k]) then ForwardUpdate(RemoveAt(s, k), k + 1, dies, upd)
    else ForwardUpdate(s[k := upd(s[k])], k + 1, dies, upd)
  }

  /** Element by element: a visited element that stays is updated, one that goes
      shields its right neighbour, which stays as it was, neither updated nor
      examined. */
  function SkippingUpdate<T>(s: seq<T>, dies: T -> bool, upd: T -> T): seq<T>
    decreases |s|
  {
    if s == [] then []
    else if !dies(s[0]) then [upd(s[0])] + SkippingUpdate(s[1..], dies, upd)
    else if |s| == 1 then []
    else [s[1]] + SkippingUpdate(s[2..], dies, upd)
  }

  lemma {:induction false} ForwardUpdateSplit<T>(p: seq<T>, q: seq<T>, dies: T -> bool, upd: T -> T)
    ensures ForwardUpdate(p + q, |p|, dies, upd) == p + SkippingUpdate(q, dies, upd)
    decreases |q|
  {
    var s := p + q;
    if q == [] {
      assert s == p;
    } else {
      assert s[|p|] == q[0];
      if !dies(q[0]) {
        var p1 := p + [upd(q[0])];
        assert s[|p| := upd(q[0])] == p1 + q[1..];
        assert ForwardUpdate(s, |p|, dies, upd) == ForwardUpdate(p1 + q[1..], |p1|, dies, upd);
        ForwardUpdateSplit(p1, q[1..], dies, upd);
        assert SkippingUpdate(q, dies, upd) == [upd(q[0])] + SkippingUpdate(q[1..], dies, upd);
      } else if |q| == 1 {
        assert RemoveAt(s, |p|) == p;
        assert ForwardUpdate(s, |p|, dies, upd) == ForwardUpdate(p, |p| + 1, dies, upd);
      } else {
        var p1 := p + [q[1]];
        assert RemoveAt(s, |p|) == p1 + q[2..];
        assert ForwardUpdate(s, |p|, dies, upd) == ForwardUpdate(p1 + q[2..], |p1|, dies, upd);
        ForwardUpdateSplit(p1, q[2..], dies, upd);
        assert SkippingUpdate(q, dies, upd) == [q[1]] + SkippingUpdate(q[2..], dies, upd);
      }
    }
  }

  lemma ForwardUpdateIsSkipping<T>(s: seq<T>, dies: T -> bool, upd: T -> T)
    ensures ForwardUpdate(s, 0, dies, upd) == SkippingUpdate(s, dies, upd)
  {
    ForwardUpdateSplit([], s, dies, upd);
    assert [] + s == s;
  }

  /** With an update the skip is visible twice over: of two neighbours that
      both qualify, the second stays and is not even updated. */
  lemma UpdateSkipExample<T>(x: T, y: T, dies: T -> bool, upd: T -> T)
    requires dies(x) && dies(y)
    ensures ForwardUpdate([x, y], 0, dies, upd) == [y]
  {
    ForwardUpdateIsSkipping([x, y], dies, upd);
    assert [x, y][2..] == [];
  }

  // ---------------------------------------------------------------------------
  // Searches.

  /** Index of the first element satisfying p (`for...of` with `break`). */
  function FirstIndex<T>(s: seq<T>, p: T -> bool): (r: Option<nat>)
    ensures r.None? <==> forall j :: 0 <= j < |s| ==> !p(s[j])
    ensures r.Some? ==> r.value < |s| && p(s[r.value]) && forall j :: 0 <= j < r.value ==> !p(s[j])
    decreases |s|
  {
    if s == [] then None
    else if p(s[0]) then Some(0)
    else match FirstIndex(s[1..], p)
      case None => None
      case Some(j) => Some(j + 1)
  }

  method FirstMatch<T>(s: seq<T>, p: T -> bool) returns (r: Option<nat>)
    ensures r == FirstIndex(s, p)
  {
    var j := 0;
    while j < |s|
      invariant 0 <= j <= |s|
      invariant FirstIndex(s, p) == (match FirstIndex(s[j..], p) case None => None case Some(k) => Some(k + j))
    {
      if p(s[j]) {
        return Some(j);
      }
      assert s[j..][1..] == s[j + 1..];
      j := j + 1;
    }
    return None;
  }

  /** A first nearest element: no element is nearer, and every earlier element
      is strictly farther (ties go to the first). */
  ghost predicate IsFirstNearest<T>(s: seq<T>, d: T -> real, i: nat) {
    i < |s| &&
    (forall j :: 0 <= j < |s| ==> d(s[i]) <= d(s[j])) &&
    (forall j :: 0 <= j < i ==> d(s[i]) < d(s[j]))
  }

  /** The scan of `fireSpecial`: keep the first element, replace it only by a
      strictly nearer one. */
  function Nearest<T>(s: seq<T>, d: T -> real): (r: Option<nat>)
    ensures r.None? <==> s == []
    ensures r.Some? ==> IsFirstNearest(s, d, r.value)
    decreases |s|
  {
    if s == [] then None
    else
      var n := |s| - 1;
      var best := Nearest(s[..n], d);
      assert forall j :: 0 <= j < n ==> s[..n][j] == s[j];
      if best.None? || d(s[n]) < d(s[best.value]) then Some(n) else best
  }

  method FindNearest<T>(s: seq<T>, d: T -> real) returns (r: Option<nat>)
    ensures r == Nearest(s, d)
  {
    r := None;
    var bestDist := 0.0;
    var k := 0;
    while k < |s|
      invariant 0 <= k <= |s|
      invariant r == Nearest(s[..k], d)
      invariant r.Some? ==> r.value < k && bestDist == d(s[r.value])
    {
      assert s[..k + 1][..k] == s[..k];
      var dist := d(s[k]);
      if r.None? || dist < bestDist {
        r, bestDist := Some(k), dist;
      }
      k := k + 1;
    }
    assert s[..k] == s;
  }
}
