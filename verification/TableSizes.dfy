/** Choosing the size of the array part: 'luaO_ceillog2', the counting of integer keys and
    'computesizes'. */
module TableSizes {
  import opened TableBits

  const MAXABITS: nat := 31

  // ----- ceil(log2(x)) -----

  /** The table 'log_2': entry i is ceil(log2(i + 1)). */
  function Log2Table(i: nat): (r: nat)
    requires i < 256
    ensures i < Pow2(r) && (r > 0 ==> Pow2(r - 1) <= i)
  {
    assert Pow2(1) == 2 && Pow2(2) == 4 && Pow2(3) == 8 && Pow2(4) == 16;
    assert Pow2(5) == 32 && Pow2(6) == 64 && Pow2(7) == 128 && Pow2(8) == 256;
    if i < 1 then 0 else if i < 2 then 1 else if i < 4 then 2 else if i < 8 then 3
    else if i < 16 then 4 else if i < 32 then 5 else if i < 64 then 6 else if i < 128 then 7 else 8
  }

  /** 'r' is the exponent of the slice (2^(r-1), 2^r] that holds 'x'. */
  ghost predicate IsCeilLog2(x: nat, r: nat) {
    x <= Pow2(r) && (r > 0 ==> Pow2(r - 1) < x)
  }

  lemma CeilLog2Unique(x: nat, r: nat, q: nat)
    requires IsCeilLog2(x, r) && IsCeilLog2(x, q)
    ensures r == q
  {
    if r < q - 1 {
      Pow2Mono(r, q - 1);
    } else if q < r - 1 {
      Pow2Mono(q, r - 1);
    }
  }

  lemma MulMono(a: nat, b: nat, p: nat)
    requires a <= b
    ensures a * p <= b * p
  {
  }

  lemma MulAssoc(a: nat, b: nat, p: nat)
    ensures a * b * p == a * (b * p)
  {
  }

  method CeilLog2(x: nat) returns (r: nat)
    requires x > 0
    ensures IsCeilLog2(x, r)
  {
    var l := 0;
    var y := x - 1;
    while y >= 256
      invariant y * Pow2(l) <= x - 1 < (y + 1) * Pow2(l)
      invariant l > 0 ==> y > 0
    {
      ShiftDown(x, y, l);
      l := l + 8;
      y := y / 256;
    }
    r := l + Log2Table(y);
    LogFinish(x, y, l, Log2Table(y));
  }

  lemma ShiftDown(x: nat, y: nat, l: nat)
    requires x > 0 && y * Pow2(l) <= x - 1 < (y + 1) * Pow2(l)
    ensures (y / 256) * Pow2(l + 8) <= x - 1 < (y / 256 + 1) * Pow2(l + 8)
  {
    Pow2Add(8, l);
    Pow2Values();
    MulMono(y / 256 * 256, y, Pow2(l));
    MulMono(y + 1, (y / 256 + 1) * 256, Pow2(l));
    MulAssoc(y / 256, 256, Pow2(l));
    MulAssoc(y / 256 + 1, 256, Pow2(l));
  }

  lemma LogFinish(x: nat, y: nat, l: nat, t: nat)
    requires x > 0 && y * Pow2(l) <= x - 1 < (y + 1) * Pow2(l)
    requires y < Pow2(t) && (t > 0 ==> Pow2(t - 1) <= y) && (t == 0 ==> l == 0)
    ensures IsCeilLog2(x, l + t)
  {
    Pow2Add(t, l);
    MulMono(y + 1, Pow2(t), Pow2(l));
    if t > 0 {
      Pow2Add(t - 1, l);
      MulMono(Pow2(t - 1), y, Pow2(l));
    }
  }

  // ----- counting integer keys -----

  /** The keys of 's' in the slice (2^(lg-1), 2^lg]. */
  ghost function Slice(s: set<nat>, lg: nat): set<nat> {
    set k | k in s && IsCeilLog2(k, lg)
  }

  ghost function UpTo(s: set<nat>, n: nat): set<nat> {
    set k | k in s && k <= n
  }

  /** 'nums[lg]' counts the keys of 's' in slice 'lg'. */
  ghost predicate Counts(nums: seq<nat>, s: set<nat>) {
    && |nums| == MAXABITS + 1
    && forall lg :: 0 <= lg < |nums| ==> nums[lg] == |Slice(s, lg)|
  }

  /** 'countint' for a key not counted yet. */
  lemma CountOne(nums: seq<nat>, s: set<nat>, k: nat, lg: nat)
    requires Counts(nums, s) && k !in s && IsCeilLog2(k, lg) && lg <= MAXABITS
    ensures Counts(nums[lg := nums[lg] + 1], s + {k})
  {
    forall q | 0 <= q < |nums|
      ensures |Slice(s + {k}, q)| == |Slice(s, q)| + (if q == lg then 1 else 0)
    {
      if q == lg {
        assert Slice(s + {k}, q) == Slice(s, q) + {k};
      } else {
        if IsCeilLog2(k, q) {
          CeilLog2Unique(k, lg, q);
        }
        assert Slice(s + {k}, q) == Slice(s, q);
      }
    }
  }

  lemma NextSlice(s: set<nat>, lg: nat)
    requires forall k :: k in s ==> k > 0
    ensures |UpTo(s, Pow2(lg))| == |Slice(s, lg)| + (if lg == 0 then 0 else |UpTo(s, Pow2(lg - 1))|)
  {
    if lg == 0 {
      assert UpTo(s, 1) == Slice(s, 0);
    } else {
      assert UpTo(s, Pow2(lg)) == Slice(s, lg) + UpTo(s, Pow2(lg - 1));
      assert Slice(s, lg) !! UpTo(s, Pow2(lg - 1));
    }
  }

  /** More than half of the slots 1..n are in use. */
  ghost predicate MoreThanHalf(s: set<nat>, n: nat) {
    |UpTo(s, n)| > n / 2
  }

  /** The largest power of two with more than half of its slots in use, or 0. */
  ghost predicate OptimalSize(s: set<nat>, n: nat) {
    && (n == 0 || (IsPow2(n) && n <= MAXASIZE && MoreThanHalf(s, n)))
    && forall p: nat :: p <= MAXABITS && MoreThanHalf(s, Pow2(p)) ==> Pow2(p) <= n
  }

  lemma SubsetSize(a: set<nat>, b: set<nat>)
    requires a <= b
    ensures |a| <= |b|
  {
    if a != b {
      assert b == a + (b - a);
    }
  }

  /** 'computesizes': the largest power of two such that more than half its slots are in use. */
  method ComputeSizes(nums: seq<nat>, pna: nat, ghost s: set<nat>) returns (optimal: nat, na: nat)
    requires Counts(nums, s) && pna == |s| && forall k :: k in s ==> 0 < k <= MAXASIZE
    ensures na == |UpTo(s, optimal)|
    ensures OptimalSize(s, optimal)
  {
    hide IsPow2, Pow2, Slice;
    var i, twotoi, a := 0, 1, 0;
    na, optimal := 0, 0;
    assert UpTo(s, 0) == {};
    PowZero();
    while twotoi > 0 && pna > twotoi / 2
      invariant i <= MAXABITS + 1
      invariant twotoi == if i <= MAXABITS then Pow2(i) else 0
      invariant a == if i == 0 then 0 else |UpTo(s, Pow2(i - 1))|
      invariant na == |UpTo(s, optimal)|
      invariant optimal == 0 || (IsPow2(optimal) && optimal <= MAXASIZE && MoreThanHalf(s, optimal))
      invariant forall p: nat :: p < i && MoreThanHalf(s, Pow2(p)) ==> Pow2(p) <= optimal
      invariant optimal == 0 || (i > 0 && optimal <= Pow2(i - 1))
      decreases MAXABITS + 1 - i
    {
      NextSlice(s, i);
      SizeFound(i);
      a := a + nums[i];
      if a > twotoi / 2 {
        optimal, na := twotoi, a;
      }
      i := i + 1;
      twotoi := (twotoi * 2) % 0x1_0000_0000;  // unsigned wrap-around ends the loop
    }
    forall p: nat | p <= MAXABITS && MoreThanHalf(s, Pow2(p))
      ensures Pow2(p) <= optimal
    {
      if i <= p {
        TooBig(s, i, p);
      }
    }
  }

  lemma TooBig(s: set<nat>, i: nat, p: nat)
    requires i <= p && |s| <= Pow2(i) / 2
    ensures !MoreThanHalf(s, Pow2(p))
  {
    if i < p {
      Pow2Mono(i, p);
    }
    SubsetSize(UpTo(s, Pow2(p)), s);
  }

  lemma PowZero()
    ensures Pow2(0) == 1
  {
  }

  lemma SizeFound(i: nat)
    requires i <= MAXABITS
    ensures IsPow2(Pow2(i)) && Pow2(i) <= MAXASIZE
    ensures (Pow2(i) * 2) % 0x1_0000_0000 == if i < MAXABITS then Pow2(i + 1) else 0
    ensures i > 0 ==> Pow2(i - 1) < Pow2(i)
  {
    Pow2Values();
    Pow2Mono(i, i + 1);
    assert i <= Pow2(i);
    if i < MAXABITS {
      Pow2Mono(i, MAXABITS);
      if i + 1 < MAXABITS {
        Pow2Mono(i + 1, MAXABITS);
      }
    }
    if i > 0 {
      Pow2Mono(i - 1, i);
    }
  }
}
