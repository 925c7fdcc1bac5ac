module SaneSort {
  /*
   sane_qsort of src/funceval.c.  The comparison may be a user's softcode, so it is an oracle: the answer may depend on
   how often it has been asked.  So is random().  Permutation, termination and the bound on the recursion hold for every
   oracle; the result is sorted when the oracle compares by a total preorder.
   */

  /** The elements are the words of a list. */
  type Elem = string

  type Compare = (nat, Elem, Elem) -> int

  type Order = (Elem, Elem) -> bool

  // ------------------------------------------------------------------ orders on sequences

  ghost predicate TotalPreorder(le: Order) {
    (forall x, y :: le(x, y) || le(y, x)) && forall x, y, z :: le(x, y) && le(y, z) ==> le(x, z)
  }

  /** The oracle answers "less" exactly for strictly smaller elements, whenever it is asked. */
  ghost predicate ComparesBy(compare: Compare, le: Order) {
    forall k, x, y :: compare(k, x, y) < 0 <==> !le(y, x)
  }

  ghost predicate Sorted(le: Order, s: seq<Elem>) { forall i, j :: 0 <= i < j < |s| ==> le(s[i], s[j]) }

  /** Nothing in s is above anything in t. */
  ghost predicate Under(le: Order, s: seq<Elem>, t: seq<Elem>) { forall x, y :: x in s && y in t ==> le(x, y) }

  ghost predicate Perm(s: seq<Elem>, t: seq<Elem>) { multiset(s) == multiset(t) }

  lemma PermMembers(s: seq<Elem>, t: seq<Elem>)
    requires Perm(s, t)
    ensures |s| == |t| && forall x :: x in s <==> x in t
  {
    assert |multiset(s)| == |multiset(t)|;
    assert forall x :: x in s <==> x in multiset(s);
    assert forall x :: x in t <==> x in multiset(t);
  }

  lemma UnderPerm(le: Order, s: seq<Elem>, s': seq<Elem>, t: seq<Elem>, t': seq<Elem>)
    requires Under(le, s, t) && Perm(s, s') && Perm(t, t')
    ensures Under(le, s', t')
  {
    PermMembers(s, s');
    PermMembers(t, t');
  }

  lemma SortedJoin(le: Order, s: seq<Elem>, t: seq<Elem>)
    requires Sorted(le, s) && Sorted(le, t) && Under(le, s, t)
    ensures Sorted(le, s + t)
  {
    var r := s + t;
    forall i, j | 0 <= i < j < |r| ensures le(r[i], r[j]) {
      if i < |s| <= j { assert r[i] in s && r[j] in t; }
    }
  }

  lemma UnderSplit(le: Order, s: seq<Elem>, t: seq<Elem>, u: seq<Elem>)
    ensures Under(le, s + t, u) <==> Under(le, s, u) && Under(le, t, u)
    ensures Under(le, u, s + t) <==> Under(le, u, s) && Under(le, u, t)
  {
    assert forall x :: x in s + t <==> x in s || x in t;
  }

  /** Changing a window by a permutation permutes the whole, and only the window matters. */
  lemma WindowPerm(s: seq<Elem>, t: seq<Elem>, l: nat, r: nat)
    requires l <= r <= |s| == |t| && s[..l] == t[..l] && s[r..] == t[r..] && Perm(s, t)
    ensures Perm(s[l..r], t[l..r])
  {
    assert s == s[..l] + s[l..r] + s[r..];
    assert t == t[..l] + t[l..r] + t[r..];
    var ends := multiset(s[..l]) + multiset(s[r..]);
    assert multiset(s[l..r]) == multiset(s) - ends && multiset(t[l..r]) == multiset(t) - ends;
  }

  // ------------------------------------------------------------------ how deep it goes

  /** floor(log2 n) + 1 for n > 0 */
  function Levels(n: nat): nat { if n < 2 then 1 else 1 + Levels(n / 2) }

  lemma {:induction false} LevelsGrow(m: nat, n: nat)
    requires m <= n
    ensures Levels(m) <= Levels(n)
  {
    if n >= 2 && m >= 2 { LevelsGrow(m / 2, n / 2); }
  }

  function Pow2(k: nat): nat { if k == 0 then 1 else 2 * Pow2(k - 1) }

  /** Levels(n) is floor(log2 n) + 1. */
  lemma {:induction false} LevelsIsLog(n: nat)
    requires n > 0
    ensures Pow2(Levels(n) - 1) <= n < Pow2(Levels(n))
  {
    if n >= 2 { LevelsIsLog(n / 2); } else { assert Pow2(1) == 2; }
  }

  // ------------------------------------------------------------------ the sort

  method Swap(a: array<Elem>, i: nat, j: nat)
    requires i < a.Length && j < a.Length
    modifies a
    ensures a[i] == old(a[j]) && a[j] == old(a[i])
    ensures forall k :: 0 <= k < a.Length && k != i && k != j ==> a[k] == old(a[k])
    ensures Perm(old(a[..]), a[..])
  {
    var tmp := a[i];
    a[i] := a[j];
    a[j] := tmp;
  }

  /** The walk over the array: what the oracle calls less than the pivot at `left` moves to the front, and the pivot
      goes behind it. */
  method Partition(a: array<Elem>, left: nat, right: nat, compare: Compare, calls: nat, ghost le: Order)
      returns (last: nat, calls': nat)
    requires left < right < a.Length
    modifies a
    ensures left <= last <= right
    ensures Perm(old(a[..]), a[..])
    ensures forall k :: 0 <= k < left || right < k < a.Length ==> a[k] == old(a[k])
    ensures ComparesBy(compare, le) ==> forall k :: left <= k < last ==> !le(a[last], a[k])
    ensures ComparesBy(compare, le) ==> forall k :: last < k <= right ==> le(a[last], a[k])
  {
    last, calls' := left, calls;
    var i := left + 1;
    while i <= right
      invariant left <= last < i <= right + 1
      invariant Perm(old(a[..]), a[..]) && a[left] == old(a[left])
      invariant forall k :: 0 <= k < left || right < k < a.Length ==> a[k] == old(a[k])
      invariant ComparesBy(compare, le) ==> forall k :: left < k <= last ==> !le(a[left], a[k])
      invariant ComparesBy(compare, le) ==> forall k :: last < k < i ==> le(a[left], a[k])
    {
      var less := compare(calls', a[i], a[left]) < 0;
      calls' := calls' + 1;
      if less {
        last := last + 1;
        if last != i { Swap(a, last, i); }
      }
      i := i + 1;
    }
    Swap(a, last, left);
  }

  /** What the loop keeps: the part A before `left` and the part B behind `right` are sorted and in place. */
  ghost predicate Placed(le: Order, A: seq<Elem>, M: seq<Elem>, B: seq<Elem>) {
    Sorted(le, A) && Sorted(le, B) && Under(le, A, M) && Under(le, A, B) && Under(le, M, B)
  }

  lemma PlacedPerm(le: Order, A: seq<Elem>, M: seq<Elem>, B: seq<Elem>, M': seq<Elem>)
    requires Placed(le, A, M, B) && Perm(M, M')
    ensures Placed(le, A, M', B)
  {
    UnderPerm(le, A, A, M, M');
    UnderPerm(le, M, M', B, B);
  }

  /** L, pivot and R are in order; once L is sorted, A grows by L and the pivot. */
  lemma PlacedLeft(le: Order, A: seq<Elem>, L: seq<Elem>, p: Elem, R: seq<Elem>, B: seq<Elem>)
    requires TotalPreorder(le) && Placed(le, A, L + [p] + R, B) && Sorted(le, L) && Under(le, L, [p]) && Under(le, [p], R)
    ensures Placed(le, A + L + [p], R, B)
  {
    hide Sorted, Under;
    UnderThrough(le, L, p, R);
    UnderSplit(le, L + [p], R, A);
    UnderSplit(le, L, [p], A);
    UnderSplit(le, L + [p], R, B);
    UnderSplit(le, L, [p], B);
    SortedOne(le, p);
    SortedJoin(le, A, L);
    UnderSplit(le, A, L, [p]);
    SortedJoin(le, A + L, [p]);
    UnderSplit(le, A, L, R);
    UnderSplit(le, A + L, [p], R);
    UnderSplit(le, A, L, B);
    UnderSplit(le, A + L, [p], B);
    assert Under(le, A, R);
  }

  lemma PlacedRight(le: Order, A: seq<Elem>, L: seq<Elem>, p: Elem, R: seq<Elem>, B: seq<Elem>)
    requires TotalPreorder(le) && Placed(le, A, L + [p] + R, B) && Sorted(le, R) && Under(le, L, [p]) && Under(le, [p], R)
    ensures Placed(le, A, L, [p] + R + B)
  {
    hide Sorted, Under;
    UnderThrough(le, L, p, R);
    UnderSplit(le, L + [p], R, A);
    UnderSplit(le, L, [p], A);
    UnderSplit(le, L + [p], R, B);
    UnderSplit(le, L, [p], B);
    SortedOne(le, p);
    SortedJoin(le, [p], R);
    UnderSplit(le, [p], R, B);
    SortedJoin(le, [p] + R, B);
    UnderSplit(le, [p], R, A);
    UnderSplit(le, [p] + R, B, A);
    UnderSplit(le, [p], R, L);
    UnderSplit(le, [p] + R, B, L);
  }

  lemma SortedOne(le: Order, p: Elem) ensures Sorted(le, [p]) { }

  lemma UnderThrough(le: Order, L: seq<Elem>, p: Elem, R: seq<Elem>)
    requires TotalPreorder(le) && Under(le, L, [p]) && Under(le, [p], R)
    ensures Under(le, L, R)
  {
    forall x, y | x in L && y in R ensures le(x, y) { assert p in [p] && le(x, p) && le(p, y); }
  }

  /** The three parts of the range l0..r0 */
  ghost predicate PlacedIn(le: Order, s: seq<Elem>, l0: nat, left: nat, right: int, r0: int)
    requires l0 <= left <= right + 1 <= r0 + 1 <= |s|
  {
    Placed(le, s[l0..left], s[left..right + 1], s[right + 1..r0 + 1])
  }

  lemma AfterLeft(le: Order, s: seq<Elem>, l0: nat, left: nat, last: nat, right: int, r0: int)
    requires l0 <= left <= last <= right <= r0 < |s|
    requires TotalPreorder(le) && PlacedIn(le, s, l0, left, right, r0) && Sorted(le, s[left..last])
    requires Under(le, s[left..last], [s[last]]) && Under(le, [s[last]], s[last + 1..right + 1])
    ensures PlacedIn(le, s, l0, last + 1, right, r0)
  {
    hide Placed, Sorted, Under;
    var A, L, R, B := s[l0..left], s[left..last], s[last + 1..right + 1], s[right + 1..r0 + 1];
    assert s[left..right + 1] == L + [s[last]] + R;
    PlacedLeft(le, A, L, s[last], R, B);
    assert s[l0..last + 1] == A + L + [s[last]];
  }

  lemma AfterRight(le: Order, s: seq<Elem>, l0: nat, left: nat, last: nat, right: int, r0: int)
    requires l0 <= left <= last <= right <= r0 < |s|
    requires TotalPreorder(le) && PlacedIn(le, s, l0, left, right, r0) && Sorted(le, s[last + 1..right + 1])
    requires Under(le, s[left..last], [s[last]]) && Under(le, [s[last]], s[last + 1..right + 1])
    ensures PlacedIn(le, s, l0, left, last - 1, r0)
  {
    hide Placed, Sorted, Under;
    var A, L, R, B := s[l0..left], s[left..last], s[last + 1..right + 1], s[right + 1..r0 + 1];
    assert s[left..right + 1] == L + [s[last]] + R;
    PlacedRight(le, A, L, s[last], R, B);
    assert s[last..r0 + 1] == [s[last]] + R + B;
  }

  ghost predicate SameOutside(s: seq<Elem>, t: seq<Elem>, l: nat, r: int)
    requires l <= r + 1 <= |s|
  {
    |s| == |t| && s[..l] == t[..l] && s[r + 1..] == t[r + 1..]
  }

  /** A permutation inside left..right keeps what is outside and the bounds between the parts. */
  lemma InsideKeeps(le: Order, s: seq<Elem>, t: seq<Elem>, l0: nat, left: nat, right: int, r0: int)
    requires l0 <= left <= right + 1 <= r0 + 1 <= |s| && SameOutside(s, t, left, right) && Perm(s, t)
    ensures SameOutside(s, t, l0, r0)
    ensures PlacedIn(le, s, l0, left, right, r0) ==> PlacedIn(le, t, l0, left, right, r0)
  {
    hide Placed;
    assert s[..l0] == s[..left][..l0] == t[..l0];
    assert s[r0 + 1..] == s[right + 1..][r0 - right..] == t[r0 + 1..];
    assert s[l0..left] == s[..left][l0..] == t[l0..left];
    assert s[right + 1..r0 + 1] == s[right + 1..][..r0 - right] == t[right + 1..r0 + 1];
    WindowPerm(s, t, left, right + 1);
    if PlacedIn(le, s, l0, left, right, r0) {
      PlacedPerm(le, s[l0..left], s[left..right + 1], s[right + 1..r0 + 1], t[left..right + 1]);
    }
  }

  lemma SameSlice(s: seq<Elem>, t: seq<Elem>, x: nat, y: nat, i: nat, j: nat)
    requires x <= y <= |s| == |t| && s[..x] == t[..x] && s[y..] == t[y..]
    requires i <= j <= x || y <= i <= j <= |s|
    ensures s[i..j] == t[i..j]
  {
    forall k | i <= k < j ensures s[k] == t[k] {
      if k < x { assert s[k] == s[..x][k] && t[k] == t[..x][k]; } else { assert s[k] == s[y..][k - y] && t[k] == t[y..][k - y]; }
    }
  }

  /** Sorting one part keeps the pivot above it. */
  lemma PivotStays(le: Order, s: seq<Elem>, t: seq<Elem>, l: nat, last: nat, right: nat, x: nat, y: nat)
    requires l <= last <= right < |s| && Perm(s, t) && x <= y
    requires (x == l && y == last) || (x == last + 1 && y == right + 1)
    requires SameOutside(s, t, x, y - 1)
    requires Under(le, s[l..last], [s[last]]) && Under(le, [s[last]], s[last + 1..right + 1])
    ensures Under(le, t[l..last], [t[last]]) && Under(le, [t[last]], t[last + 1..right + 1])
  {
    hide Under;
    WindowPerm(s, t, x, y);
    assert s[..x] == t[..x] && s[y..] == t[y..];
    if x == l {
      SameSlice(s, t, x, y, last, last + 1);
      SameSlice(s, t, x, y, last + 1, right + 1);
      assert s[last] == s[last..last + 1][0] == t[last];
      UnderPerm(le, s[l..last], t[l..last], [s[last]], [t[last]]);
    } else {
      SameSlice(s, t, x, y, last, last + 1);
      SameSlice(s, t, x, y, l, last);
      assert s[last] == s[last..last + 1][0] == t[last];
      UnderPerm(le, [s[last]], [t[last]], s[last + 1..right + 1], t[last + 1..right + 1]);
    }
  }

  lemma Parts(le: Order, s: seq<Elem>, left: nat, last: nat, right: nat)
    requires left <= last <= right < |s| && TotalPreorder(le)
    requires (forall k :: left <= k < last ==> !le(s[last], s[k])) && forall k :: last < k <= right ==> le(s[last], s[k])
    ensures Under(le, s[left..last], [s[last]]) && Under(le, [s[last]], s[last + 1..right + 1])
  {
  }

  ghost predicate Ordered(compare: Compare, le: Order) { TotalPreorder(le) && ComparesBy(compare, le) }

  /** The smaller side goes one level deeper. */
  lemma OneDeeper(n0: nat, n: nat, m: nat, depth: nat)
    requires 2 <= n <= n0 && 2 * m < n && depth <= Levels(m)
    ensures 1 + depth <= Levels(n0)
  {
    LevelsGrow(m, n0 / 2);
  }

  /** The range has not changed outside, is a permutation, and the parts around left..right are in place. */
  ghost predicate Progress(compare: Compare, le: Order, s0: seq<Elem>, s: seq<Elem>, l0: nat, left: nat, right: int, r0: int)
    requires l0 <= left <= right + 1 <= r0 + 1 <= |s| == |s0|
  {
    SameOutside(s0, s, l0, r0) && Perm(s0, s) && (Ordered(compare, le) ==> PlacedIn(le, s, l0, left, right, r0))
  }

  lemma ProgressInside(compare: Compare, le: Order, s0: seq<Elem>, s: seq<Elem>, t: seq<Elem>, l0: nat, left: nat, right: int,
      r0: int)
    requires l0 <= left <= right + 1 <= r0 + 1 <= |s| == |s0| && Progress(compare, le, s0, s, l0, left, right, r0)
    requires SameOutside(s, t, left, right) && Perm(s, t)
    ensures Progress(compare, le, s0, t, l0, left, right, r0)
  {
    hide PlacedIn;
    InsideKeeps(le, s, t, l0, left, right, r0);
  }

  /** One turn of the loop: partitioned to s, then the part before the pivot sorted to t */
  lemma TurnLeft(compare: Compare, le: Order, s0: seq<Elem>, s: seq<Elem>, t: seq<Elem>, l0: nat, left: nat, last: nat, right: nat,
      r0: nat)
    requires l0 <= left <= last <= right <= r0 < |s| == |s0| && Progress(compare, le, s0, s, l0, left, right, r0)
    requires SameOutside(s, t, left, last - 1) && Perm(s, t) && (Ordered(compare, le) ==> Sorted(le, t[left..last]))
    requires Ordered(compare, le) ==> Under(le, s[left..last], [s[last]]) && Under(le, [s[last]], s[last + 1..right + 1])
    ensures Progress(compare, le, s0, t, l0, last + 1, right, r0)
  {
    hide PlacedIn, Sorted, Under;
    InsideKeeps(le, s, t, left, left, last - 1, right);
    ProgressInside(compare, le, s0, s, t, l0, left, right, r0);
    if Ordered(compare, le) {
      PivotStays(le, s, t, left, last, right, left, last);
      AfterLeft(le, t, l0, left, last, right, r0);
    }
  }

  lemma TurnRight(compare: Compare, le: Order, s0: seq<Elem>, s: seq<Elem>, t: seq<Elem>, l0: nat, left: nat, last: nat, right: nat,
      r0: nat)
    requires l0 <= left <= last <= right <= r0 < |s| == |s0| && Progress(compare, le, s0, s, l0, left, right, r0)
    requires SameOutside(s, t, last + 1, right) && Perm(s, t) && (Ordered(compare, le) ==> Sorted(le, t[last + 1..right + 1]))
    requires Ordered(compare, le) ==> Under(le, s[left..last], [s[last]]) && Under(le, [s[last]], s[last + 1..right + 1])
    ensures Progress(compare, le, s0, t, l0, left, last - 1, r0)
  {
    hide PlacedIn, Sorted, Under;
    InsideKeeps(le, s, t, left, last + 1, right, right);
    ProgressInside(compare, le, s0, s, t, l0, left, right, r0);
    if Ordered(compare, le) {
      PivotStays(le, s, t, left, last, right, last + 1, right + 1);
      AfterRight(le, t, l0, left, last, right, r0);
    }
  }

  lemma Start(compare: Compare, le: Order, s: seq<Elem>, l0: nat, r0: int)
    requires l0 <= r0 + 1 <= |s|
    ensures Progress(compare, le, s, s, l0, l0, r0, r0)
  {
  }

  lemma Finish(compare: Compare, le: Order, s0: seq<Elem>, s: seq<Elem>, l0: nat, left: nat, right: int, r0: int)
    requires l0 <= left <= right + 1 <= r0 + 1 <= |s| == |s0| && Progress(compare, le, s0, s, l0, left, right, r0)
    requires left >= right
    ensures Ordered(compare, le) ==> Sorted(le, s[l0..r0 + 1])
  {
    if Ordered(compare, le) {
      var A, M, B := s[l0..left], s[left..right + 1], s[right + 1..r0 + 1];
      assert Sorted(le, M);
      SortedJoin(le, A, M);
      UnderSplit(le, A, M, B);
      SortedJoin(le, A + M, B);
      assert s[l0..r0 + 1] == A + M + B;
    }
  }

  lemma Outside(s: seq<Elem>, t: seq<Elem>, left: nat, right: int)
    requires left <= right + 1 <= |s| == |t| && forall k :: 0 <= k < left || right < k < |s| ==> t[k] == s[k]
    ensures SameOutside(s, t, left, right)
  {
  }

  /** sane_qsort: it permutes its range for every oracle, sorts it when the oracle compares by a total preorder, and
      nests at most floor(log2 n) + 1 deep. */
  method SaneQsort(a: array<Elem>, l0: nat, r0: int, compare: Compare, random: nat -> nat, calls: nat, ghost le: Order)
      returns (calls': nat, ghost depth: nat)
    requires l0 <= r0 + 1 <= a.Length
    modifies a
    ensures SameOutside(old(a[..]), a[..], l0, r0) && Perm(old(a[..]), a[..])
    ensures Ordered(compare, le) ==> Sorted(le, a[l0..r0 + 1])
    ensures 1 <= depth <= Levels(r0 + 1 - l0)
    decreases r0 + 1 - l0
  {
    hide Progress, Ordered, Sorted, Under, SameOutside, Perm, Levels;
    var left: nat, right: int := l0, r0;
    calls', depth := calls, 1;
    ghost var s0 := a[..];
    Start(compare, le, s0, l0, r0);
    OneLevel(r0 + 1 - l0);
    while left < right
      invariant l0 <= left <= right + 1 <= r0 + 1 && Progress(compare, le, s0, a[..], l0, left, right, r0)
      invariant 1 <= depth <= Levels(r0 + 1 - l0)
      decreases right - left
    {
      ghost var before := a[..];
      var i := random(calls') % (1 + (right - left));
      Swap(a, left + i, left);
      ghost var picked := a[..];
      var last;
      last, calls' := Partition(a, left, right, compare, calls' + 1, le);
      Partitioned(compare, le, s0, before, picked, a[..], l0, left, last, right, r0);
      ghost var s, d := a[..], 0;
      if last - left < right - last {
        calls', d := SaneQsort(a, left, last - 1, compare, random, calls', le);
        OneDeeper(r0 + 1 - l0, right + 1 - left, last - left, d);
        TurnLeft(compare, le, s0, s, a[..], l0, left, last, right, r0);
        left := last + 1;
      } else {
        calls', d := SaneQsort(a, last + 1, right, compare, random, calls', le);
        OneDeeper(r0 + 1 - l0, right + 1 - left, right - last, d);
        TurnRight(compare, le, s0, s, a[..], l0, left, last, right, r0);
        right := last - 1;
      }
      depth := if depth < 1 + d then 1 + d else depth;
    }
    Finish(compare, le, s0, a[..], l0, left, right, r0);
    ProgressGives(compare, le, s0, a[..], l0, left, right, r0);
  }

  lemma OneLevel(n: nat) ensures Levels(n) >= 1 { }

  lemma ProgressGives(compare: Compare, le: Order, s0: seq<Elem>, s: seq<Elem>, l0: nat, left: nat, right: int, r0: int)
    requires l0 <= left <= right + 1 <= r0 + 1 <= |s| == |s0| && Progress(compare, le, s0, s, l0, left, right, r0)
    ensures SameOutside(s0, s, l0, r0) && Perm(s0, s)
  {
  }

  /** Picking the pivot and partitioning happen inside left..right. */
  lemma Partitioned(compare: Compare, le: Order, s0: seq<Elem>, before: seq<Elem>, picked: seq<Elem>, s: seq<Elem>, l0: nat,
      left: nat, last: nat, right: nat, r0: nat)
    requires l0 <= left <= last <= right <= r0 < |before| == |s0| == |picked| == |s|
    requires Progress(compare, le, s0, before, l0, left, right, r0)
    requires Perm(before, picked) && forall k :: 0 <= k < left || right < k < |s| ==> picked[k] == before[k]
    requires Perm(picked, s) && forall k :: 0 <= k < left || right < k < |s| ==> s[k] == picked[k]
    requires ComparesBy(compare, le) ==> forall k :: left <= k < last ==> !le(s[last], s[k])
    requires ComparesBy(compare, le) ==> forall k :: last < k <= right ==> le(s[last], s[k])
    ensures Progress(compare, le, s0, s, l0, left, right, r0)
    ensures Ordered(compare, le) ==> Under(le, s[left..last], [s[last]]) && Under(le, [s[last]], s[last + 1..right + 1])
  {
    hide Progress, Under, SameOutside;
    Outside(before, s, left, right);
    ProgressInside(compare, le, s0, before, s, l0, left, right, r0);
    if Ordered(compare, le) { Parts(le, s, left, last, right); }
  }
}
