/** 'table.sort': a quicksort with sentinels that recurses into the smaller side.

    Index k of the array is index k + 1 of the Lua table. */
module Sort {
  // ----- orders and permutations -----

  /** A strict weak order: asymmetric, and "not greater" is transitive. */
  ghost predicate StrictWeak<T(!new)>(lt: (T, T) -> bool) {
    && (forall x, y :: lt(x, y) ==> !lt(y, x))
    && (forall x, y, z :: !lt(y, x) && !lt(z, y) ==> !lt(z, x))
  }

  /** No call of the comparator ever departs from 'lt'. */
  ghost predicate Follows<T(!new)>(cmp: (nat, T, T) -> bool, lt: (T, T) -> bool) {
    forall n: nat, x, y :: cmp(n, x, y) == lt(x, y)
  }

  /** 't' is 's' with the elements lo..hi-1 permuted. */
  ghost predicate PermutedIn<T>(s: seq<T>, t: seq<T>, lo: int, hi: int) {
    && 0 <= lo <= hi <= |s| == |t|
    && s[..lo] == t[..lo] && s[hi..] == t[hi..]
    && multiset(s[lo..hi]) == multiset(t[lo..hi])
  }

  lemma PermutedTrans<T>(s: seq<T>, t: seq<T>, u: seq<T>, lo: int, hi: int)
    requires PermutedIn(s, t, lo, hi) && PermutedIn(t, u, lo, hi)
    ensures PermutedIn(s, u, lo, hi)
  {
  }

  lemma PermutedWiden<T>(s: seq<T>, t: seq<T>, lo: int, hi: int, lo2: int, hi2: int)
    requires PermutedIn(s, t, lo, hi) && 0 <= lo2 <= lo && hi <= hi2 <= |s|
    ensures PermutedIn(s, t, lo2, hi2)
  {
    assert s[lo2..hi2] == s[..lo][lo2..] + s[lo..hi] + s[hi..][..hi2 - hi];
    assert t[lo2..hi2] == t[..lo][lo2..] + t[lo..hi] + t[hi..][..hi2 - hi];
    assert s[..lo2] == s[..lo][..lo2] && t[..lo2] == t[..lo][..lo2];
    assert s[hi2..] == s[hi..][hi2 - hi..] && t[hi2..] == t[hi..][hi2 - hi..];
  }

  /** Exchanging two elements is a permutation. */
  lemma SwapPermutes<T>(s: seq<T>, i: int, j: int, lo: int, hi: int)
    requires 0 <= lo <= i <= j < hi <= |s|
    ensures PermutedIn(s, s[i := s[j]][j := s[i]], lo, hi)
  {
    hide PermutedIn;
    SwapHere(s, i, j);
    PermutedWiden(s, s[i := s[j]][j := s[i]], i, j + 1, lo, hi);
  }

  lemma SwapHere<T>(s: seq<T>, i: int, j: int)
    requires 0 <= i <= j < |s|
    ensures PermutedIn(s, s[i := s[j]][j := s[i]], i, j + 1)
  {
    var t := s[i := s[j]][j := s[i]];
    if i < j {
      var mid := s[i + 1..j];
      assert s[i..j + 1] == [s[i]] + mid + [s[j]];
      assert t[i..j + 1] == [s[j]] + mid + [s[i]];
      assert s[..i] == t[..i] && s[j + 1..] == t[j + 1..];
    } else {
      assert t == s;
    }
  }

  /** Every element of the permuted range was in it before. */
  lemma PermutedFrom<T>(s: seq<T>, t: seq<T>, lo: int, hi: int, i: int) returns (j: int)
    requires PermutedIn(s, t, lo, hi) && lo <= i < hi
    ensures lo <= j < hi && t[i] == s[j]
  {
    assert t[i] == t[lo..hi][i - lo];
    assert t[i] in multiset(t[lo..hi]);
    assert t[i] in s[lo..hi];
    var k :| 0 <= k < hi - lo && s[lo..hi][k] == t[i];
    j := lo + k;
  }

  lemma PermutedOutside<T>(s: seq<T>, t: seq<T>, lo: int, hi: int, i: int)
    requires PermutedIn(s, t, lo, hi) && 0 <= i < |s| && !(lo <= i < hi)
    ensures t[i] == s[i]
  {
    if i < lo {
      assert s[i] == s[..lo][i] && t[i] == t[..lo][i];
    } else {
      assert s[i] == s[hi..][i - hi] && t[i] == t[hi..][i - hi];
    }
  }

  // ----- sortedness -----

  ghost predicate SortedIn<T>(s: seq<T>, lt: (T, T) -> bool, lo: int, up: int) {
    0 <= lo && up < |s| && forall x, y :: lo <= x < y <= up ==> !lt(s[y], s[x])
  }

  /** Sorted from 'lo0' to 'up0', but for pairs inside the window lo..up. */
  ghost predicate SortedBut<T>(s: seq<T>, lt: (T, T) -> bool, lo0: int, up0: int, lo: int, up: int) {
    && 0 <= lo0 <= lo && up <= up0 < |s|
    && forall x, y :: lo0 <= x < y <= up0 && !(lo <= x && y <= up) ==> !lt(s[y], s[x])
  }

  /** Everything in lo..p is at most s[p], everything in p..up at least. */
  ghost predicate Split<T>(s: seq<T>, lt: (T, T) -> bool, lo: int, p: int, up: int) {
    && 0 <= lo <= p <= up < |s|
    && (forall x :: lo <= x <= p ==> !lt(s[p], s[x]))
    && (forall x :: p <= x <= up ==> !lt(s[x], s[p]))
  }

  /** s[lo .. hi - 1] <= p */
  ghost predicate AtMost<T>(s: seq<T>, lt: (T, T) -> bool, lo: int, hi: int, p: T) {
    0 <= lo && hi <= |s| && forall k :: lo <= k < hi ==> !lt(p, s[k])
  }

  /** p <= s[lo .. hi - 1] */
  ghost predicate AtLeast<T>(s: seq<T>, lt: (T, T) -> bool, lo: int, hi: int, p: T) {
    0 <= lo && hi <= |s| && forall k :: lo <= k < hi ==> !lt(s[k], p)
  }

  lemma PivotPlaced<T>(s: seq<T>, t: seq<T>, lt: (T, T) -> bool, lo: int, i: int, up: int)
    requires 0 <= lo < i < up < |s| && t == s[i := s[up - 1]][up - 1 := s[i]]
    requires !lt(s[up - 1], s[up - 1])
    requires AtMost(s, lt, lo, i, s[up - 1]) && AtLeast(s, lt, i, up + 1, s[up - 1])
    ensures Split(t, lt, lo, i, up)
  {
  }

  lemma SwapParts<T>(s: seq<T>, t: seq<T>, lt: (T, T) -> bool, lo: int, i: int, j: int, up: int, p: T)
    requires 0 <= lo <= i <= j <= up < |s| && t == s[i := s[j]][j := s[i]]
    requires AtMost(s, lt, lo, i, p) && !lt(s[i], p) && !lt(p, s[j]) && AtLeast(s, lt, j + 1, up + 1, p)
    ensures AtMost(t, lt, lo, i + 1, p) && AtLeast(t, lt, j, up + 1, p)
  {
  }

  lemma Joined<T>(s: seq<T>, lt: (T, T) -> bool, lo: int, mid: int, hi: int, p: T)
    ensures AtMost(s, lt, lo, mid, p) && AtMost(s, lt, mid, hi, p) ==> AtMost(s, lt, lo, hi, p)
    ensures AtLeast(s, lt, lo, mid, p) && AtLeast(s, lt, mid, hi, p) ==> AtLeast(s, lt, lo, hi, p)
  {
  }

  lemma PermutedSortedBut<T>(s: seq<T>, t: seq<T>, lt: (T, T) -> bool, lo0: int, up0: int, lo: int, up: int)
    requires SortedBut(s, lt, lo0, up0, lo, up) && PermutedIn(s, t, lo, up + 1)
    ensures SortedBut(t, lt, lo0, up0, lo, up)
  {
    assert |s| == |t|;
    hide PermutedIn;
    assert 0 <= lo0 <= lo && up <= up0 < |s|;
    forall x, y | lo0 <= x < y <= up0 && !(lo <= x && y <= up)
      ensures !lt(t[y], t[x])
    {
      var x1, y1 := x, y;
      if lo <= x <= up {
        x1 := PermutedFrom(s, t, lo, up + 1, x);
      } else {
        PermutedOutside(s, t, lo, up + 1, x);
      }
      if lo <= y <= up {
        y1 := PermutedFrom(s, t, lo, up + 1, y);
      } else {
        PermutedOutside(s, t, lo, up + 1, y);
      }
      assert x1 < y1;
    }
  }

  lemma PermutedSplit<T>(s: seq<T>, t: seq<T>, lt: (T, T) -> bool, lo: int, p: int, up: int, from: int, to: int)
    requires Split(s, lt, lo, p, up) && PermutedIn(s, t, from, to)
    requires (from == lo && to == p) || (from == p + 1 && to == up + 1)
    ensures Split(t, lt, lo, p, up)
  {
    PermutedOutside(s, t, from, to, p);
    forall x | lo <= x <= up
      ensures x <= p ==> !lt(t[p], t[x])
      ensures p <= x ==> !lt(t[x], t[p])
    {
      if from <= x < to {
        var j := PermutedFrom(s, t, from, to, x);
      } else {
        PermutedOutside(s, t, from, to, x);
      }
    }
  }

  /** With one side of a split sorted, the window shrinks to the other side. */
  lemma Narrow<T(!new)>(s: seq<T>, lt: (T, T) -> bool, lo0: int, up0: int, lo: int, p: int, up: int)
    requires StrictWeak(lt) && SortedBut(s, lt, lo0, up0, lo, up) && Split(s, lt, lo, p, up)
    ensures SortedIn(s, lt, lo, p - 1) ==> SortedBut(s, lt, lo0, up0, p + 1, up)
    ensures SortedIn(s, lt, p + 1, up) ==> SortedBut(s, lt, lo0, up0, lo, p - 1)
  {
    forall x, y | lo <= x < y <= up && x <= p <= y
      ensures !lt(s[y], s[x])
    {
      assert !lt(s[p], s[x]) && !lt(s[y], s[p]);
    }
  }

  function Pow2(n: nat): nat {
    if n == 0 then 1 else 2 * Pow2(n - 1)
  }

  // ----- the sort -----

  const RANLIMIT: nat := 100
  const INT_MAX: nat := 0x7FFF_FFFF

  datatype Outcome = Finished | InvalidOrder | TooBig

  /** 'choosePivot': an element in the second or third quarter. */
  function ChoosePivot(lo: nat, up: nat, rnd: nat): (p: nat)
    requires up - lo >= 4
    ensures lo + (up - lo) / 4 <= p <= up - (up - lo) / 4
  {
    var r4 := (up - lo) / 4;
    rnd % (r4 * 2) + (lo + r4)
  }

  function PivotIndex(lo: nat, up: nat, rnd: nat): (p: nat)
    requires up - lo >= 2
    ensures lo < p < up
    ensures up - lo < 100 || rnd == 0 ==> p == (lo + up) / 2
    ensures up - lo >= 100 ==> lo + (up - lo) / 4 <= p <= up - (up - lo) / 4
  {
    if up - lo < RANLIMIT || rnd == 0 then (lo + up) / 2 else ChoosePivot(lo, up, rnd)
  }

  class Sorter<T(!new)> {
    const a: array<T>
    const cmp: (nat, T, T) -> bool   // the answer of each call of the comparator
    ghost const lt: (T, T) -> bool   // the order it is meant to follow, if any
    var calls: nat

    /** The comparator is a strict weak order. */
    ghost predicate Good() {
      Follows(cmp, lt) && StrictWeak(lt)
    }

    constructor (a: array<T>, cmp: (nat, T, T) -> bool, ghost lt: (T, T) -> bool)
      ensures this.a == a && this.cmp == cmp && this.lt == lt
    {
      this.a, this.cmp, this.lt, this.calls := a, cmp, lt, 0;
    }

    /** 'sort_comp' */
    method Less(x: T, y: T) returns (r: bool)
      modifies this`calls
      ensures Good() ==> r == lt(x, y)
      ensures r == cmp(old(calls), x, y) && calls == old(calls) + 1
    {
      r := cmp(calls, x, y);
      calls := calls + 1;
    }

    /** 'set2', which always writes a pair of elements back exchanged. */
    method Swap(i: nat, j: nat, ghost lo: nat, ghost hi: nat)
      requires lo <= i <= j < hi <= a.Length
      modifies a
      ensures a[..] == old(a[..])[i := old(a[j])][j := old(a[i])]
      ensures PermutedIn(old(a[..]), a[..], lo, hi)
    {
      SwapPermutes(a[..], i, j, lo, hi);
      a[i], a[j] := a[j], a[i];
    }

    lemma NeverLess(p: T)
      ensures Good() ==> !lt(p, p) && forall x {:trigger lt(x, p)} {:trigger lt(p, x)} :: !(lt(x, p) && lt(p, x))
    {
    }

    lemma Asymmetric(x: T, y: T)
      ensures Good() && lt(x, y) ==> !lt(y, x)
    {
      NeverLess(x);
    }

    lemma Irreflexive(p: T)
      ensures Good() ==> !lt(p, p)
    {
      NeverLess(p);
    }

    /** 'repeat ++i while a[i] < P' */
    method ScanUp(i0: nat, up: nat, pivot: T) returns (i: nat, ok: bool)
      requires i0 < up - 1 < a.Length && a[up - 1] == pivot
      modifies this`calls
      ensures i0 < i <= up - 1 && calls > 0
      ensures if ok then !cmp(calls - 1, a[i], pivot) else i == up - 1 && cmp(calls - 1, a[i], pivot)
      ensures Good() ==> ok && !lt(a[i], pivot) && AtMost(a[..], lt, i0 + 1, i, pivot)
    {
      hide StrictWeak;
      NeverLess(pivot);
      i := i0 + 1;
      var r := Less(a[i], pivot);
      while r
        invariant i0 < i <= up - 1 && calls > 0 && r == cmp(calls - 1, a[i], pivot)
        invariant Good() ==> r == lt(a[i], pivot) && AtMost(a[..], lt, i0 + 1, i, pivot)
        decreases up - i, r
      {
        if i == up - 1 {
          return i, false;
        }
        i := i + 1;
        r := Less(a[i], pivot);
      }
      ok := true;
    }

    /** 'repeat --j while P < a[j]' */
    method ScanDown(j0: nat, i: nat, pivot: T, ghost lo: nat) returns (j: nat, ok: bool)
      requires lo < i < a.Length && lo < j0 < a.Length
      modifies this`calls
      ensures lo <= j < j0 && calls > 0
      ensures if ok then !cmp(calls - 1, pivot, a[j]) else j < i && cmp(calls - 1, pivot, a[j])
      ensures Good() && AtMost(a[..], lt, lo, i, pivot) ==> ok && !lt(pivot, a[j]) && AtLeast(a[..], lt, j + 1, j0, pivot)
    {
      hide StrictWeak;
      NeverLess(pivot);
      j := j0 - 1;
      var r := Less(pivot, a[j]);
      while r
        invariant lo <= j < j0 && calls > 0 && r == cmp(calls - 1, pivot, a[j])
        invariant Good() ==> r == lt(pivot, a[j]) && AtLeast(a[..], lt, j + 1, j0, pivot)
        decreases j, r
      {
        if j < i {
          return j, false;
        }
        j := j - 1;
        r := Less(pivot, a[j]);
      }
      ok := true;
    }

    /** Swap the pivot, a[up - 1], with a[i]. */
    method PlacePivot(ghost s: seq<T>, lo: nat, i: nat, up: nat)
      requires lo < i < up < a.Length && PermutedIn(s, a[..], lo, up + 1)
      requires Good() ==> AtMost(a[..], lt, lo, i, a[up - 1]) && AtLeast(a[..], lt, i, up + 1, a[up - 1])
      modifies a
      ensures PermutedIn(s, a[..], lo, up + 1)
      ensures Good() ==> Split(a[..], lt, lo, i, up)
    {
      hide Good, PermutedIn, Split, AtMost, AtLeast;
      ghost var t := a[..];
      Swap(i, up - 1, lo, up + 1);
      PermutedTrans(s, t, a[..], lo, up + 1);
      if Good() {
        Irreflexive(t[up - 1]);
        PivotPlaced(t, a[..], lt, lo, i, up);
      }
    }

    /** Swap a[i] - a[j] to restore the invariant of the partition. */
    method SwapOut(ghost s: seq<T>, lo: nat, i: nat, j: nat, up: nat, ghost p: T)
      requires lo <= i <= j < up - 1 && up < a.Length && PermutedIn(s, a[..], lo, up + 1)
      requires Good() ==> AtMost(a[..], lt, lo, i, p) && !lt(a[i], p) && !lt(p, a[j]) && AtLeast(a[..], lt, j + 1, up + 1, p)
      modifies a
      ensures PermutedIn(s, a[..], lo, up + 1) && a[up - 1] == old(a[up - 1])
      ensures Good() ==> AtMost(a[..], lt, lo, i + 1, p) && AtLeast(a[..], lt, j, up + 1, p)
    {
      hide Good, PermutedIn, AtMost, AtLeast;
      ghost var t := a[..];
      Swap(i, j, lo, up + 1);
      PermutedTrans(s, t, a[..], lo, up + 1);
      if Good() {
        SwapParts(t, a[..], lt, lo, i, j, up, p);
      }
    }

    /** 'partition': the pivot is at 'up - 1' and ends at the returned index. */
    method Partition(lo: nat, up: nat) returns (i: nat, ok: bool)
      requires lo + 3 <= up < a.Length
      requires Good() ==> !lt(a[up - 1], a[lo]) && !lt(a[up], a[up - 1])
      modifies a, this`calls
      ensures PermutedIn(old(a[..]), a[..], lo, up + 1) && (Good() ==> ok)
      ensures ok ==> lo < i < up
      ensures Good() ==> Split(a[..], lt, lo, i, up)
    {
      NeverLess(a[up - 1]);
      assert PermutedIn(a[..], a[..], lo, up + 1);
      i := lo;
      var j, pivot := up - 1, a[up - 1];
      assert Good() ==> AtMost(a[..], lt, lo, i + 1, pivot) && AtLeast(a[..], lt, j, up + 1, pivot);
      hide Good, PermutedIn, AtMost, AtLeast, Split;
      while true
        invariant lo <= i <= j <= up - 1 && i < up - 1 && lo < j && a[up - 1] == pivot
        invariant PermutedIn(old(a[..]), a[..], lo, up + 1)
        invariant Good() ==> AtMost(a[..], lt, lo, i + 1, pivot) && AtLeast(a[..], lt, j, up + 1, pivot)
        decreases j - i
      {
        ghost var i0, j0 := i, j;
        i, ok := ScanUp(i, up, pivot);
        if !ok {
          return;
        }
        Joined(a[..], lt, lo, i0 + 1, i, pivot);
        j, ok := ScanDown(j, i, pivot, lo);
        if !ok {
          return;
        }
        Joined(a[..], lt, j + 1, j0, up + 1, pivot);
        if j < i {
          Shrunk(a[..], lt, j + 1, i, up + 1, pivot);
          PlacePivot(old(a[..]), lo, i, up);
          return;
        }
        SwapOut(old(a[..]), lo, i, j, up, pivot);
      }
    }

    /** Sort elements 'lo' and 'up'. */
    method OrderEnds(lo: nat, up: nat)
      requires lo < up < a.Length
      modifies a, this`calls
      ensures PermutedIn(old(a[..]), a[..], lo, up + 1)
      ensures Good() ==> !lt(a[up], a[lo])
    {
      var r := Less(a[up], a[lo]);
      Asymmetric(a[up], a[lo]);
      assert PermutedIn(a[..], a[..], lo, up + 1);
      hide Good, PermutedIn;
      if r {
        Swap(lo, up, lo, up + 1);
      }
    }

    /** Put element 'p' in order with 'lo' and 'up'. */
    method OrderMiddle(lo: nat, p: nat, up: nat)
      requires lo < p < up < a.Length && (Good() ==> !lt(a[up], a[lo]))
      modifies a, this`calls
      ensures PermutedIn(old(a[..]), a[..], lo, up + 1)
      ensures Good() ==> !lt(a[p], a[lo]) && !lt(a[up], a[p])
    {
      assert PermutedIn(a[..], a[..], lo, up + 1);
      hide Good, PermutedIn;
      Asymmetric(a[p], a[lo]);
      var r := Less(a[p], a[lo]);
      if r {
        Swap(lo, p, lo, up + 1);
      } else {
        OrderUpper(lo, p, up);
      }
    }

    method OrderUpper(lo: nat, p: nat, up: nat)
      requires lo < p < up < a.Length && (Good() ==> !lt(a[up], a[lo]) && !lt(a[p], a[lo]))
      modifies a, this`calls
      ensures PermutedIn(old(a[..]), a[..], lo, up + 1)
      ensures Good() ==> !lt(a[p], a[lo]) && !lt(a[up], a[p])
    {
      assert PermutedIn(a[..], a[..], lo, up + 1);
      hide Good, PermutedIn;
      Asymmetric(a[up], a[p]);
      var r := Less(a[up], a[p]);
      if r {
        Swap(p, up, lo, up + 1);
      }
    }

    method MovePivot(lo: nat, p0: nat, up: nat)
      requires lo < p0 < up < a.Length && lo + 3 <= up
      modifies a
      ensures PermutedIn(old(a[..]), a[..], lo, up + 1)
      ensures a[up - 1] == old(a[p0]) && a[lo] == old(a[lo]) && a[up] == old(a[up])
    {
      hide PermutedIn;
      Swap(p0, up - 1, lo, up + 1);
    }

    /** Move the pivot to 'up - 1' and partition. */
    method SplitAt(lo: nat, p0: nat, up: nat) returns (p: nat, ok: bool)
      requires lo + 3 <= up < a.Length && lo < p0 < up
      requires Good() ==> !lt(a[p0], a[lo]) && !lt(a[up], a[p0])
      modifies a, this`calls
      ensures PermutedIn(old(a[..]), a[..], lo, up + 1) && (Good() ==> ok)
      ensures ok ==> lo < p < up
      ensures Good() ==> Split(a[..], lt, lo, p, up)
    {
      hide Good, PermutedIn, Split;
      MovePivot(lo, p0, up);
      ghost var s := a[..];
      p, ok := Partition(lo, up);
      PermutedTrans(old(a[..]), s, a[..], lo, up + 1);
    }

    /** One round of 'auxsort': the interval is sorted, or is split at the pivot. */
    method Divide(lo: nat, up: nat, rnd: nat) returns (p: nat, done: bool, ok: bool)
      requires lo < up < a.Length
      modifies a, this`calls
      ensures PermutedIn(old(a[..]), a[..], lo, up + 1) && (Good() ==> ok)
      ensures ok && !done ==> lo < p < up
      ensures Good() ==> if done then SortedIn(a[..], lt, lo, up) else Split(a[..], lt, lo, p, up)
    {
      hide Good, PermutedIn, Split, SortedIn;
      p, done, ok := 0, true, true;
      OrderEnds(lo, up);
      ghost var s := a[..];
      if up - lo == 1 {
        if Good() {
          TwoSorted(a[..], lt, lo);
        }
        return;
      }
      p := PivotIndex(lo, up, rnd);
      OrderMiddle(lo, p, up);
      PermutedTrans(old(a[..]), s, a[..], lo, up + 1);
      s := a[..];
      if up - lo == 2 {
        if Good() {
          ThreeSorted(lo);
        }
        return;
      }
      done := false;
      p, ok := SplitAt(lo, p, up);
      PermutedTrans(old(a[..]), s, a[..], lo, up + 1);
    }

    lemma ThreeSorted(lo: nat)
      requires Good() && lo + 2 < a.Length && !lt(a[lo + 1], a[lo]) && !lt(a[lo + 2], a[lo + 1])
      ensures SortedIn(a[..], lt, lo, lo + 2)
    {
    }

    /** 'auxsort': a loop for the larger side, a recursive call for the smaller one.  'depth' is
        the number of nested calls. */
    method AuxSort(lo0: nat, up0: nat, rnd0: nat) returns (ok: bool, ghost depth: nat)
      requires lo0 <= up0 < a.Length
      modifies a, this`calls
      ensures PermutedIn(old(a[..]), a[..], lo0, up0 + 1)
      ensures Good() ==> ok && SortedIn(a[..], lt, lo0, up0)
      ensures Pow2(depth) <= up0 - lo0 + 1
      decreases up0 - lo0, 1
    {
      var lo, up, rnd := lo0, up0, rnd0;
      ok, depth := true, 0;
      ghost var s0 := a[..];
      assert PermutedIn(s0, a[..], lo0, up0 + 1) && SortedBut(a[..], lt, lo0, up0, lo, up);
      hide Good, PermutedIn, SortedBut, SortedIn, Split, Pow2;
      while lo < up
        invariant lo0 <= lo <= up <= up0
        invariant PermutedIn(s0, a[..], lo0, up0 + 1)
        invariant Good() ==> ok && SortedBut(a[..], lt, lo0, up0, lo, up)
        invariant Pow2(depth) <= up0 - lo0 + 1
        decreases up - lo
      {
        ghost var s := a[..];
        var p, done;
        p, done, ok := Divide(lo, up, rnd);
        Round(s0, s, a[..], lo0, up0, lo, up);
        if done || !ok {
          if Good() {
            LastWindow(a[..], lt, lo0, up0, lo, up);
          }
          return;
        }
        ghost var d;
        var n;
        ok, lo, up, n, d := SortSmaller(lo, p, up, rnd, s0, lo0, up0);
        if !ok {
          return;
        }
        depth := if d > depth then d else depth;
        if (up - lo) / 128 > n {
          rnd := *;
        }
      }
      if Good() {
        SmallWindow(a[..], lt, lo0, up0, lo, up);
      }
    }

    /** The recursive call of 'auxsort', and the interval and size it leaves for the loop. */
    method SortSmaller(lo: nat, p: nat, up: nat, rnd: nat, ghost s0: seq<T>, ghost lo0: nat, ghost up0: nat)
      returns (ok: bool, lo1: nat, up1: nat, n: nat, ghost depth: nat)
      requires lo0 <= lo < p < up <= up0 < a.Length && PermutedIn(s0, a[..], lo0, up0 + 1)
      requires Good() ==> SortedBut(a[..], lt, lo0, up0, lo, up) && Split(a[..], lt, lo, p, up)
      modifies a, this`calls
      ensures lo <= lo1 <= up1 <= up && up1 - lo1 < up - lo
      ensures (n, lo1, up1) == if p - lo < up - p then (p - lo, p + 1, up) else (up - p, lo, p - 1)
      ensures PermutedIn(s0, a[..], lo0, up0 + 1)
      ensures Good() ==> ok && SortedBut(a[..], lt, lo0, up0, lo1, up1)
      ensures Pow2(depth) <= up - lo + 1
      decreases up - lo, 0
    {
      hide Good, PermutedIn, SortedBut, SortedIn, Split;
      ghost var s := a[..];
      if p - lo < up - p {
        ok, depth := AuxSort(lo, p - 1, rnd);
        Nested(s0, s, a[..], lo0, up0, lo, p, up, true);
        n, lo1, up1 := p - lo, p + 1, up;
      } else {
        ok, depth := AuxSort(p + 1, up, rnd);
        Nested(s0, s, a[..], lo0, up0, lo, p, up, false);
        n, lo1, up1 := up - p, lo, p - 1;
      }
      depth := depth + 1;
    }

    /** Permuting the window keeps what is known outside it. */
    lemma Round(s0: seq<T>, s: seq<T>, t: seq<T>, lo0: nat, up0: nat, lo: nat, up: nat)
      requires lo0 <= lo <= up <= up0 && PermutedIn(s0, s, lo0, up0 + 1) && PermutedIn(s, t, lo, up + 1)
      ensures PermutedIn(s0, t, lo0, up0 + 1)
      ensures SortedBut(s, lt, lo0, up0, lo, up) ==> SortedBut(t, lt, lo0, up0, lo, up)
    {
      assert |s| == |s0| && up0 + 1 <= |s|;
      hide PermutedIn, SortedBut;
      PermutedWiden(s, t, lo, up + 1, lo0, up0 + 1);
      PermutedTrans(s0, s, t, lo0, up0 + 1);
      if SortedBut(s, lt, lo0, up0, lo, up) {
        PermutedSortedBut(s, t, lt, lo0, up0, lo, up);
      }
    }

    /** Sorting one side of a split. */
    lemma Nested(s0: seq<T>, s: seq<T>, t: seq<T>, lo0: nat, up0: nat, lo: nat, p: nat, up: nat, lower: bool)
      requires lo0 <= lo < p < up <= up0 && PermutedIn(s0, s, lo0, up0 + 1)
      requires if lower then PermutedIn(s, t, lo, p) else PermutedIn(s, t, p + 1, up + 1)
      ensures PermutedIn(s0, t, lo0, up0 + 1)
      ensures Good() && SortedBut(s, lt, lo0, up0, lo, up) && Split(s, lt, lo, p, up) ==>
        if lower then SortedIn(t, lt, lo, p - 1) ==> SortedBut(t, lt, lo0, up0, p + 1, up)
        else SortedIn(t, lt, p + 1, up) ==> SortedBut(t, lt, lo0, up0, lo, p - 1)
    {
      assert |s| == |s0| && up0 + 1 <= |s|;
      hide PermutedIn, SortedBut, SortedIn, Split, StrictWeak;
      var from, to := if lower then lo else p + 1, if lower then p else up + 1;
      PermutedWiden(s, t, from, to, lo, up + 1);
      Round(s0, s, t, lo0, up0, lo, up);
      if Good() && SortedBut(s, lt, lo0, up0, lo, up) && Split(s, lt, lo, p, up) {
        PermutedSplit(s, t, lt, lo, p, up, from, to);
        Narrow(t, lt, lo0, up0, lo, p, up);
      }
    }
  }

  lemma TwoSorted<T>(s: seq<T>, lt: (T, T) -> bool, lo: nat)
    requires lo + 1 < |s| && !lt(s[lo + 1], s[lo])
    ensures SortedIn(s, lt, lo, lo + 1)
  {
  }

  lemma LastWindow<T>(s: seq<T>, lt: (T, T) -> bool, lo0: int, up0: int, lo: int, up: int)
    requires SortedBut(s, lt, lo0, up0, lo, up) && SortedIn(s, lt, lo, up)
    ensures SortedIn(s, lt, lo0, up0)
  {
  }

  lemma SmallWindow<T>(s: seq<T>, lt: (T, T) -> bool, lo0: int, up0: int, lo: int, up: int)
    requires SortedBut(s, lt, lo0, up0, lo, up) && lo >= up
    ensures SortedIn(s, lt, lo0, up0)
  {
  }

  lemma Shrunk<T>(s: seq<T>, lt: (T, T) -> bool, lo: int, mid: int, hi: int, p: T)
    requires lo <= mid
    ensures AtLeast(s, lt, lo, hi, p) ==> AtLeast(s, lt, mid, hi, p)
  {
  }

  /** 'sort': for a strict weak order the array ends sorted and no error is raised; for any
      comparator it ends as a permutation, and calls nest logarithmically. */
  method TableSort<T(!new)>(a: array<T>, cmp: (nat, T, T) -> bool, ghost lt: (T, T) -> bool)
    returns (o: Outcome, ghost depth: nat)
    modifies a
    ensures multiset(a[..]) == multiset(old(a[..]))
    ensures o == TooBig <==> a.Length >= INT_MAX
    ensures a.Length < INT_MAX && Follows(cmp, lt) && StrictWeak(lt) ==>
      o == Finished && SortedIn(a[..], lt, 0, a.Length - 1)
    ensures a.Length > 0 ==> Pow2(depth) <= a.Length
  {
    depth := 0;
    if a.Length > 1 {
      if a.Length >= INT_MAX {
        return TooBig, 0;
      }
      var sorter := new Sorter(a, cmp, lt);
      var ok;
      ghost var s := a[..];
      ok, depth := sorter.AuxSort(0, a.Length - 1, 0);
      assert s[0..a.Length] == s && a[..][0..a.Length] == a[..];
      return if ok then Finished else InvalidOrder, depth;
    }
    return Finished, 0;
  }
}
