/** The two parts of a table seen as one map, and the counting of its keys. */
module TableContents {
  import opened Options
  import opened TableBits
  import opened TableSizes
  import opened TableHash

  const MAXINTEGER: int := 0x7FFF_FFFF_FFFF_FFFF

  predicate LuaInteger(i: int) {
    -MAXINTEGER - 1 <= i <= MAXINTEGER
  }

  /** 'l_castS2U' */
  function Unsigned(i: int): (u: nat)
    ensures u < TWO64
  {
    i % TWO64
  }

  lemma UnsignedBound(key: int, n: nat)
    requires LuaInteger(key) && n <= MAXASIZE
    ensures Unsigned(key - 1) < n <==> 1 <= key <= n
  {
    if key >= 1 {
      assert Unsigned(key - 1) == key - 1;
    } else {
      assert (key - 1) % TWO64 == key - 1 + TWO64;
    }
  }

  /** Keys of the hash part: none belongs to an array of size 'asize', integers are in range. */
  ghost predicate HashKeysOk<V>(ns: seq<Node<V>>, asize: nat) {
    forall k :: k in KeySet(ns) ==> !ArrayIndex(k, asize) && (k.IntKey? ==> LuaInteger(k.i))
  }

  /** Every node from 'from' up has a key. */
  ghost predicate Taken<V>(ns: seq<Node<V>>, from: nat) {
    from <= |ns| && forall i :: from <= i < |ns| ==> ns[i].key.Some?
  }

  ghost predicate CursorAt<V>(ns: seq<Node<V>>, lastfree: nat, dummy: bool) {
    if dummy then ns == [Node(None, None, 0)] && lastfree == 0 else Taken(ns, lastfree)
  }

  ghost predicate TakenBut<V>(ns: seq<Node<V>>, from: nat, used: nat) {
    forall i :: from <= i < |ns| ==> i == used || ns[i].key.Some?
  }

  /** What an insertion into the hash part leaves of the table's own invariant. */
  lemma InsertedKeeps<V>(ns: seq<Node<V>>, ns2: seq<Node<V>>, k: Key, v: V, used: nat, asize: nat, from: nat)
    requires Inserted(ns, ns2, k, v, used) && HashKeysOk(ns, asize) && from <= |ns|
    requires TakenBut(ns, from, used)
    requires !ArrayIndex(k, asize) && (k.IntKey? ==> LuaInteger(k.i))
    ensures HashKeysOk(ns2, asize) && Taken(ns2, from) && |ns2| == |ns| && KeySet(ns2) <= KeySet(ns) + {k}
    ensures forall k2 :: Value(ns2, k2) == if k2 == k then Some(v) else Value(ns, k2)
  {
    hide Value, KeySet;
  }

  predicate ArrayIndex(k: Key, asize: nat) {
    k.IntKey? && 1 <= k.i <= asize
  }

  // ----- contents -----

  /** The map that an array part and a hash part stand for. */
  ghost function Lookup<V>(a: seq<Option<V>>, ns: seq<Node<V>>, k: Key): Option<V> {
    if ArrayIndex(k, |a|) then a[k.i - 1] else Value(ns, k)
  }

  ghost function ArrayKeys<V>(a: seq<Option<V>>): set<Key> {
    set i | 0 <= i < |a| && a[i].Some? :: IntKey(i + 1)
  }

  /** The keys of nodes that hold a value. */
  ghost function ValueKeys<V>(ns: seq<Node<V>>): set<Key> {
    set i | 0 <= i < |ns| && ns[i].key.Some? && ns[i].val.Some? :: ns[i].key.value
  }

  /** The keys bound in the table. */
  ghost function Bound<V>(a: seq<Option<V>>, ns: seq<Node<V>>): set<Key> {
    ArrayKeys(a) + ValueKeys(ns)
  }

  lemma ValueKeysMeaning<V>(ns: seq<Node<V>>, k: Key)
    requires UniqueKeys(ns)
    ensures k in ValueKeys(ns) <==> Value(ns, k).Some?
  {
    if HasKey(ns, k) {
      var i :| 0 <= i < |ns| && ns[i].key == Some(k);
      ValueAt(ns, i);
      if k in ValueKeys(ns) {
        var j :| 0 <= j < |ns| && ns[j].key.Some? && ns[j].val.Some? && ns[j].key.value == k;
        assert j == i;
      }
    }
  }

  lemma BoundMeaning<V>(a: seq<Option<V>>, ns: seq<Node<V>>, k: Key)
    requires UniqueKeys(ns) && HashKeysOk(ns, |a|)
    ensures k in Bound(a, ns) <==> Lookup(a, ns, k).Some?
  {
    hide Value, HashKeysOk, ValueKeys;
    ValueKeysMeaning(ns, k);
    ValueKeysOutside(ns, |a|);
    if ArrayIndex(k, |a|) && a[k.i - 1].Some? {
      assert IntKey((k.i - 1) + 1) in ArrayKeys(a);
    }
  }

  lemma ValueKeysOutside<V>(ns: seq<Node<V>>, n: nat)
    requires HashKeysOk(ns, n)
    ensures forall k :: k in ValueKeys(ns) ==> k in KeySet(ns) && !ArrayIndex(k, n)
  {
  }

  // ----- sizes -----

  /** The keys of 's' that do not go to an array of size 'n'. */
  ghost function Outside(s: set<Key>, n: nat): set<Key> {
    set k | k in s && !ArrayIndex(k, n)
  }

  /** The candidates for the array part. */
  ghost function Candidates(s: set<Key>): set<nat> {
    set k | k in s && ArrayIndex(k, MAXASIZE) :: k.i
  }

  lemma CandidatesAdd(s: set<Key>, k: Key)
    ensures Candidates(s + {k}) == Candidates(s) + (if ArrayIndex(k, MAXASIZE) then {k.i} else {})
    ensures k !in s && ArrayIndex(k, MAXASIZE) ==> k.i !in Candidates(s)
  {
    var c, d := Candidates(s + {k}), Candidates(s) + (if ArrayIndex(k, MAXASIZE) then {k.i} else {});
    forall i: nat
      ensures i in c <==> i in d
    {
      if i in c {
        assert IntKey(i) in s + {k};
      }
      if i in d {
        assert IntKey(i) in s + {k};
      }
    }
    if ArrayIndex(k, MAXASIZE) && k.i in Candidates(s) {
      assert IntKey(k.i) in s;
    }
  }

  lemma OutsideStep(r: set<Key>, c: set<nat>, c2: set<nat>, k: Key, n: nat)
    requires n <= MAXASIZE && k !in r && c2 == c + (if ArrayIndex(k, MAXASIZE) then {k.i} else {})
    requires ArrayIndex(k, MAXASIZE) ==> k.i !in c
    ensures |Outside(r + {k}, n)| + |UpTo(c2, n)| == |Outside(r, n)| + |UpTo(c, n)| + 1
  {
    if ArrayIndex(k, n) {
      assert UpTo(c2, n) == UpTo(c, n) + {k.i};
      assert Outside(r + {k}, n) == Outside(r, n);
    } else {
      assert UpTo(c2, n) == UpTo(c, n);
      assert Outside(r + {k}, n) == Outside(r, n) + {k};
    }
  }

  /** Every key goes to the array part or stays in the hash part. */
  lemma {:induction false} OutsideSize(s: set<Key>, n: nat)
    requires n <= MAXASIZE
    ensures |s| == |Outside(s, n)| + |UpTo(Candidates(s), n)|
    decreases |s|
  {
    if s == {} {
      assert Outside(s, n) == {} && UpTo(Candidates(s), n) == {};
    } else {
      hide Outside, Candidates, UpTo, ArrayIndex;
      var k :| k in s;
      var r := s - {k};
      assert s == r + {k};
      OutsideSize(r, n);
      CandidatesAdd(r, k);
      OutsideStep(r, Candidates(r), Candidates(s), k, n);
    }
  }

  // ----- counting -----

  /** 'countint' */
  method CountInt(key: int, nums: seq<nat>, ghost s: set<Key>) returns (after: seq<nat>, c: nat)
    requires LuaInteger(key) && IntKey(key) !in s && Counts(nums, Candidates(s))
    ensures Counts(after, Candidates(s + {IntKey(key)}))
    ensures c == |Candidates(s + {IntKey(key)})| - |Candidates(s)|
  {
    hide Counts, Candidates, Pow2, IsCeilLog2;
    CandidatesAdd(s, IntKey(key));
    UnsignedBound(key, MAXASIZE);
    if Unsigned(key - 1) < MAXASIZE {
      var lg := CeilLog2(key);
      LogOfIndex(key, lg);
      CountOne(nums, Candidates(s), key, lg);
      CountsSize(nums, Candidates(s));
      return nums[lg := nums[lg] + 1], 1;
    }
    assert Candidates(s) + {} == Candidates(s);
    return nums, 0;
  }

  lemma CountsSize(nums: seq<nat>, s: set<nat>)
    requires Counts(nums, s)
    ensures |nums| == MAXABITS + 1
  {
  }

  lemma LogOfIndex(k: nat, lg: nat)
    requires 0 < k <= MAXASIZE && IsCeilLog2(k, lg)
    ensures lg <= MAXABITS
  {
    Pow2Values();
    if lg > MAXABITS + 1 {
      Pow2Mono(MAXABITS, lg - 1);
    }
  }

  lemma NothingCounted()
    ensures Counts(seq(MAXABITS + 1, _ => 0), Candidates({}))
  {
    assert Candidates({}) == {};
    assert forall lg :: Slice({}, lg) == {};
  }

  lemma ArrayStep<V>(a: seq<Option<V>>, i: nat)
    requires i < |a| <= MAXASIZE
    ensures ArrayKeys(a[..i + 1]) == ArrayKeys(a[..i]) + (if a[i].Some? then {IntKey(i + 1)} else {})
    ensures IntKey(i + 1) !in ArrayKeys(a[..i])
  {
    var b := a[..i + 1];
    assert forall j :: 0 <= j < i ==> a[..i][j] == b[j];
    if a[i].Some? {
      assert b[i].Some?;
    }
  }

  lemma CandidatesOfArray<V>(a: seq<Option<V>>)
    requires |a| <= MAXASIZE
    ensures |Candidates(ArrayKeys(a))| == |ArrayKeys(a)|
  {
    var s := ArrayKeys(a);
    OutsideSize(s, MAXASIZE);
    assert Outside(s, MAXASIZE) == {};
    assert UpTo(Candidates(s), MAXASIZE) == Candidates(s);
  }

  /** Counting one more slot of the array. */
  lemma CountSlot<V>(a: seq<Option<V>>, i: nat, nums: seq<nat>, lg: nat)
    requires i < |a| <= MAXASIZE && lg <= MAXABITS && IsCeilLog2(i + 1, lg)
    requires Counts(nums, Candidates(ArrayKeys(a[..i])))
    ensures Counts(if a[i].Some? then nums[lg := nums[lg] + 1] else nums, Candidates(ArrayKeys(a[..i + 1])))
    ensures |ArrayKeys(a[..i + 1])| == |ArrayKeys(a[..i])| + (if a[i].Some? then 1 else 0)
  {
    hide Counts, Candidates, ArrayKeys, IsCeilLog2;
    ArrayStep(a, i);
    CountsSize(nums, Candidates(ArrayKeys(a[..i])));
    CandidatesAdd(ArrayKeys(a[..i]), IntKey(i + 1));
    assert ArrayKeys(a[..i]) + {} == ArrayKeys(a[..i]);
    if a[i].Some? {
      CountOne(nums, Candidates(ArrayKeys(a[..i])), i + 1, lg);
    }
  }

  /** 'numusearray' */
  method NumUseArray<V>(a: seq<Option<V>>, nums0: seq<nat>) returns (nums: seq<nat>, ause: nat)
    requires |a| <= MAXASIZE && nums0 == seq(MAXABITS + 1, _ => 0)
    ensures Counts(nums, Candidates(ArrayKeys(a))) && ause == |ArrayKeys(a)|
  {
    hide Counts, Candidates, ArrayKeys, IsCeilLog2, Pow2;
    nums, ause := nums0, 0;
    var i, lg, ttlg := 1, 0, 1;
    NothingCounted();
    NoArrayKeys(a);
    PowZero();
    while lg <= MAXABITS
      invariant lg <= MAXABITS + 1 && |nums| == MAXABITS + 1
      invariant lg <= MAXABITS ==> ttlg == Pow2(lg)
      invariant 1 <= i <= |a| + 1 && (i <= |a| ==> i == if lg == 0 then 1 else Pow2(lg - 1) + 1)
      invariant lg == 0 ==> i == 1
      invariant i == |a| + 1 && lg > 0 ==> |a| <= Pow2(lg - 1)
      invariant Counts(nums, Candidates(ArrayKeys(a[..i - 1]))) && ause == |ArrayKeys(a[..i - 1])|
      decreases MAXABITS + 1 - lg
    {
      var lim := ttlg;
      SizeFound(lg);
      if lim > |a| {
        lim := |a|;
        if i > lim {
          break;
        }
      }
      var lc;
      i, lc := CountSlice(a, i, lim, lg, nums);
      nums := nums[lg := nums[lg] + lc];
      ause := ause + lc;
      lg, ttlg := lg + 1, (ttlg * 2) % 0x1_0000_0000;
    }
    Pow2Values();
    assert a[..i - 1] == a;
  }

  lemma NoArrayKeys<V>(a: seq<Option<V>>)
    ensures ArrayKeys(a[..0]) == {}
  {
  }

  /** The inner loop of 'numusearray': the elements in (2^(lg - 1), 2^lg]. */
  method CountSlice<V>(a: seq<Option<V>>, from: nat, lim: nat, lg: nat, nums: seq<nat>) returns (i: nat, lc: nat)
    requires 0 < from <= lim + 1 <= |a| + 1 && |a| <= MAXASIZE && lg <= MAXABITS && |nums| == MAXABITS + 1
    requires lim <= Pow2(lg) && (lg > 0 ==> Pow2(lg - 1) < from)
    requires Counts(nums, Candidates(ArrayKeys(a[..from - 1])))
    ensures i == lim + 1
    ensures Counts(nums[lg := nums[lg] + lc], Candidates(ArrayKeys(a[..lim])))
    ensures |ArrayKeys(a[..lim])| == |ArrayKeys(a[..from - 1])| + lc
  {
    hide Counts, Candidates, ArrayKeys, Pow2;
    i, lc := from, 0;
    assert nums[lg := nums[lg] + 0] == nums;
    while i <= lim
      invariant from <= i <= lim + 1
      invariant Counts(nums[lg := nums[lg] + lc], Candidates(ArrayKeys(a[..i - 1])))
      invariant |ArrayKeys(a[..i - 1])| == |ArrayKeys(a[..from - 1])| + lc
    {
      CountSlot(a, i - 1, nums[lg := nums[lg] + lc], lg);
      assert nums[lg := nums[lg] + lc][lg := nums[lg] + lc + 1] == nums[lg := nums[lg] + (lc + 1)];
      if a[i - 1].Some? {
        lc := lc + 1;
      }
      i := i + 1;
    }
  }

  lemma NodeStep<V>(ns: seq<Node<V>>, i: nat)
    requires i < |ns| && UniqueKeys(ns)
    ensures ValueKeys(ns[i..]) == ValueKeys(ns[i + 1..]) +
              (if ns[i].key.Some? && ns[i].val.Some? then {ns[i].key.value} else {})
    ensures ns[i].key.Some? ==> ns[i].key.value !in ValueKeys(ns[i + 1..])
  {
    var b, c := ns[i..], ns[i + 1..];
    assert forall j :: 0 <= j < |c| ==> c[j] == ns[i + 1 + j] == b[j + 1];
    assert b[0] == ns[i];
  }

  lemma NodeKeyInRange<V>(ns: seq<Node<V>>, i: nat, n: nat)
    requires i < |ns| && HashKeysOk(ns, n) && ns[i].key.Some?
    ensures ns[i].key.value in KeySet(ns) && !ArrayIndex(ns[i].key.value, n)
    ensures ns[i].key.value.IntKey? ==> LuaInteger(ns[i].key.value.i)
  {
  }

  ghost predicate AllIndices(s: set<Key>, n: nat) {
    forall k :: k in s ==> ArrayIndex(k, n)
  }

  lemma NodeCounted<V>(ns: seq<Node<V>>, i: nat, asize: nat, base: set<Key>)
    requires i < |ns| && UniqueKeys(ns) && FreeNodes(ns) && HashKeysOk(ns, asize) && AllIndices(base, asize)
    ensures ns[i].val.None? ==> ValueKeys(ns[i..]) == ValueKeys(ns[i + 1..])
    ensures ns[i].val.Some? ==>
      && ns[i].key.Some? && (ns[i].key.value.IntKey? ==> LuaInteger(ns[i].key.value.i))
      && var before := base + ValueKeys(ns[i + 1..]);
        base + ValueKeys(ns[i..]) == before + {ns[i].key.value} && ns[i].key.value !in before
    ensures ns[i].val.Some? ==> |ValueKeys(ns[i..])| == |ValueKeys(ns[i + 1..])| + 1
  {
    hide ValueKeys, UniqueKeys, HashKeysOk, KeySet;
    NodeStep(ns, i);
    if ns[i].val.Some? {
      NodeKeyInRange(ns, i, asize);
    }
  }

  /** 'numusehash'; 'base' are the keys counted before. */
  method NumUseHash<V>(ns: seq<Node<V>>, ghost asize: nat, ghost base: set<Key>, nums0: seq<nat>, pna: nat)
    returns (nums: seq<nat>, na: nat, totaluse: nat)
    requires UniqueKeys(ns) && FreeNodes(ns) && HashKeysOk(ns, asize)
    requires AllIndices(base, asize)
    requires Counts(nums0, Candidates(base)) && pna == |Candidates(base)|
    ensures Counts(nums, Candidates(base + ValueKeys(ns))) && na == |Candidates(base + ValueKeys(ns))|
    ensures totaluse == |ValueKeys(ns)|
  {
    hide Counts, Candidates, ValueKeys, UniqueKeys, FreeNodes, HashKeysOk, KeySet, AllIndices;
    nums, totaluse := nums0, 0;
    var i, ause := |ns|, 0;
    NoValueKeys(ns);
    assert base + {} == base;
    while i > 0
      invariant 0 <= i <= |ns|
      invariant Counts(nums, Candidates(base + ValueKeys(ns[i..])))
      invariant pna + ause == |Candidates(base + ValueKeys(ns[i..]))|
      invariant totaluse == |ValueKeys(ns[i..])|
    {
      i := i - 1;
      NodeCounted(ns, i, asize, base);
      if ns[i].val.Some? {
        var c;
        nums, c := CountKey(ns[i].key.value, nums, base + ValueKeys(ns[i + 1..]));
        ause := ause + c;
        totaluse := totaluse + 1;
      }
    }
    na := pna + ause;
    assert ns[0..] == ns;
  }

  /** A key that is not an integer is not counted. */
  method CountKey(key: Key, nums: seq<nat>, ghost s: set<Key>) returns (after: seq<nat>, c: nat)
    requires (key.IntKey? ==> LuaInteger(key.i)) && key !in s && Counts(nums, Candidates(s))
    ensures Counts(after, Candidates(s + {key}))
    ensures c == |Candidates(s + {key})| - |Candidates(s)|
  {
    if key.IntKey? {
      after, c := CountInt(key.i, nums, s);
    } else {
      CandidatesAdd(s, key);
      assert Candidates(s) + {} == Candidates(s);
      after, c := nums, 0;
    }
  }

  lemma NoValueKeys<V>(ns: seq<Node<V>>)
    ensures ValueKeys(ns[|ns|..]) == {}
  {
  }

  // ----- moving entries between the parts -----

  /** An array prefix alone, as a map. */
  ghost function PrefixAt<V>(a: seq<Option<V>>, i: nat, k: Key): Option<V>
    requires i <= |a|
  {
    if ArrayIndex(k, i) then a[k.i - 1] else None
  }

  /** Fewer keys than nodes leave a free node. */
  lemma RoomLeft<V>(ns: seq<Node<V>>, done: set<Key>, k: Key, t: set<Key>)
    requires UniqueKeys(ns) && KeySet(ns) <= done && k !in done && done + {k} <= t && |t| <= |ns|
    ensures !Taken(ns, 0) && !HasKey(ns, k)
  {
    assert HasKey(ns, k) ==> k in KeySet(ns);
    KeysSubset(KeySet(ns) + {k}, t);
    HasFreeNode(ns);
  }

  lemma KeysSubset(a: set<Key>, b: set<Key>)
    requires a <= b
    ensures |a| <= |b|
  {
    if a != b {
      assert b == a + (b - a);
    }
  }

  lemma PrefixNode<V>(ns: seq<Node<V>>, j: nat, k: Key)
    requires j < |ns| && UniqueKeys(ns)
    ensures Value(ns[..j + 1], k) == if ns[j].key == Some(k) then ns[j].val else Value(ns[..j], k)
    ensures ns[j].key == Some(k) ==> Value(ns[..j], k).None? && k !in ValueKeys(ns[..j])
    ensures ValueKeys(ns[..j + 1]) == ValueKeys(ns[..j]) +
              (if ns[j].key.Some? && ns[j].val.Some? then {ns[j].key.value} else {})
  {
    var a, b := ns[..j], ns[..j + 1];
    assert forall i :: 0 <= i < j ==> a[i] == ns[i] == b[i];
    assert b[j] == ns[j];
    if HasKey(b, k) {
      var i :| 0 <= i < |b| && b[i].key == Some(k);
      ValueAt(b, i);
      if i < j {
        ValueAt(a, i);
      }
    }
  }

  lemma StoreKeepsInv<V>(ns: seq<Node<V>>, rank: seq<nat>, pos: Hash, i: nat, v: Option<V>)
    requires HashInv(ns, rank, pos) && i < |ns| && ns[i].key.Some?
    ensures var ns2 := ns[i := ns[i].(val := v)];
      && HashInv(ns2, rank, pos) && KeySet(ns2) == KeySet(ns)
      && forall j :: 0 <= j < |ns| ==> ns2[j].key == ns[j].key
  {
    var ns2 := ns[i := ns[i].(val := v)];
    assert forall j :: 0 <= j < |ns| ==> ns2[j].key == ns[j].key && ns2[j].next == ns[j].next;
    StoreKeepsShape(ns, rank, i, v);
    hide UniqueKeys, SinglePrev, FreeNodes, Reaches;
    forall j | 0 <= j < |ns2| && ns2[j].key.Some?
      ensures Own(ns2, pos, MainPos(pos, ns2[j].key.value, |ns2|))
      ensures Reaches(ns2, rank, MainPos(pos, ns2[j].key.value, |ns2|), j)
    {
      assert Own(ns, pos, MainPos(pos, ns[j].key.value, |ns|));
      SameLinksReach(ns, ns2, rank, MainPos(pos, ns[j].key.value, |ns|), j);
    }
  }

  lemma StoreKeepsShape<V>(ns: seq<Node<V>>, rank: seq<nat>, i: nat, v: Option<V>)
    requires Ranked(ns, rank) && UniqueKeys(ns) && SinglePrev(ns) && FreeNodes(ns) && i < |ns| && ns[i].key.Some?
    ensures var ns2 := ns[i := ns[i].(val := v)];
      Ranked(ns2, rank) && UniqueKeys(ns2) && SinglePrev(ns2) && FreeNodes(ns2) && KeySet(ns2) == KeySet(ns)
  {
    var ns2 := ns[i := ns[i].(val := v)];
    assert forall j :: 0 <= j < |ns| ==> ns2[j].key == ns[j].key && ns2[j].next == ns[j].next;
  }

  lemma HashInvKeys<V>(ns: seq<Node<V>>, rank: seq<nat>, pos: Hash)
    requires HashInv(ns, rank, pos)
    ensures |ns| > 0 && UniqueKeys(ns) && FreeNodes(ns)
  {
  }

  lemma KeysOkAgain<V>(ns: seq<Node<V>>, ns2: seq<Node<V>>, n: nat)
    requires HashKeysOk(ns, n) && KeySet(ns2) <= KeySet(ns)
    ensures HashKeysOk(ns2, n)
  {
  }

  lemma HashBits(size: nat, lsize: nat)
    requires IsCeilLog2(size, lsize)
    ensures forall bits: nat {:trigger Pow2(bits)} :: lsize > bits <==> size > Pow2(bits)
  {
    forall bits: nat {:trigger Pow2(bits)}
      ensures lsize > bits <==> size > Pow2(bits)
    {
      if lsize < bits {
        Pow2Mono(lsize, bits);
      } else if lsize > bits + 1 {
        Pow2Mono(bits, lsize - 1);
      }
    }
  }

  /** One more slot of the vanishing slice. */
  lemma SliceStep<V>(a: seq<Option<V>>, i: nat, n: nat)
    requires n <= i < |a| <= MAXASIZE
    ensures Outside(ArrayKeys(a[..i + 1]), n) ==
              Outside(ArrayKeys(a[..i]), n) + (if a[i].Some? then {IntKey(i + 1)} else {})
    ensures IntKey(i + 1) !in Outside(ArrayKeys(a[..i]), n)
    ensures Outside(ArrayKeys(a[..i + 1]), n) <= Outside(ArrayKeys(a), n)
    ensures forall k :: PrefixAt(a, i + 1, k) == if k == IntKey(i + 1) then a[i] else PrefixAt(a, i, k)
    ensures PrefixAt(a, i, IntKey(i + 1)).None?
  {
    ArrayStep(a, i);
    ArrayPrefixKeys(a, i + 1);
    forall k: Key
      ensures PrefixAt(a, i + 1, k) == if k == IntKey(i + 1) then a[i] else PrefixAt(a, i, k)
    {
      assert k.IntKey? ==> k == IntKey(k.i);
    }
  }

  lemma ArrayPrefixKeys<V>(a: seq<Option<V>>, i: nat)
    requires i <= |a|
    ensures ArrayKeys(a[..i]) <= ArrayKeys(a)
  {
    assert forall j :: 0 <= j < i ==> a[..i][j] == a[j];
  }

  /** One more node of the old hash part. */
  lemma ReinsertStep<V>(a: seq<Option<V>>, ns: seq<Node<V>>, j: nat)
    requires j < |ns| && UniqueKeys(ns) && HashKeysOk(ns, |a|) && FreeNodes(ns)
    ensures var before, after := Bound(a, ns[..j]), Bound(a, ns[..j + 1]);
      && (ns[j].val.None? ==> after == before && forall k :: Lookup(a, ns[..j + 1], k) == Lookup(a, ns[..j], k))
      && (ns[j].val.Some? ==>
        && ns[j].key.Some? && (ns[j].key.value.IntKey? ==> LuaInteger(ns[j].key.value.i))
        && ns[j].key.value !in before && after == before + {ns[j].key.value} && after <= Bound(a, ns)
        && forall k :: Lookup(a, ns[..j + 1], k) == if Some(k) == ns[j].key then ns[j].val else Lookup(a, ns[..j], k))
  {
    hide Value, ValueKeys, ArrayKeys, UniqueKeys, HashKeysOk, KeySet;
    forall k: Key
      ensures Value(ns[..j + 1], k) == if ns[j].key == Some(k) then ns[j].val else Value(ns[..j], k)
      ensures ns[j].key == Some(k) ==> Value(ns[..j], k).None?
    {
      PrefixNode(ns, j, k);
    }
    PrefixNode(ns, j, IntKey(0));
    if ns[j].key.Some? {
      NodeKeyInRange(ns, j, |a|);
      PrefixNode(ns, j, ns[j].key.value);
      ArrayKeysAreIndices(a);
    }
    ValuePrefix(ns, j + 1);
  }

  lemma ArrayKeysAreIndices<V>(a: seq<Option<V>>)
    ensures AllIndices(ArrayKeys(a), |a|)
  {
  }

  lemma ValuePrefix<V>(ns: seq<Node<V>>, j: nat)
    requires j <= |ns|
    ensures ValueKeys(ns[..j]) <= ValueKeys(ns)
  {
    assert forall i :: 0 <= i < j ==> ns[..j][i] == ns[i];
  }

  lemma NoNodes<V>(a: seq<Option<V>>, ns: seq<Node<V>>)
    ensures Bound(a, ns[..0]) == ArrayKeys(a)
    ensures forall k :: Lookup(a, ns[..0], k) == PrefixAt(a, |a|, k)
  {
  }

  /** The array after reallocation to 'n' slots, with the new ones cleared. */
  function Reallocated<V>(a: seq<Option<V>>, n: nat): (b: seq<Option<V>>)
    ensures |b| == n && forall i :: 0 <= i < n ==> b[i] == if i < |a| then a[i] else None
  {
    if n <= |a| then a[..n] else a + seq(n - |a|, _ => None)
  }

  lemma GrownLookup<V>(a: seq<Option<V>>, n: nat, ns: seq<Node<V>>)
    requires |a| <= n && forall k :: Value(ns, k).None?
    ensures forall k :: Lookup(Reallocated(a, n), ns, k) == PrefixAt(a, |a|, k)
  {
  }

  lemma FreshIsReady<V>(ns: seq<Node<V>>, isdummy: bool, n: nat)
    requires ns == FreshNodes(|ns|) && (isdummy ==> |ns| == 1)
    ensures CursorAt(ns, if isdummy then 0 else |ns|, isdummy) && HashKeysOk(ns, n)
  {
  }

  lemma ArrayKeysBound<V>(a: seq<Option<V>>, ns: seq<Node<V>>, n: nat)
    ensures Outside(ArrayKeys(a), n) <= Outside(Bound(a, ns), n)
  {
  }

  /** The keys to place when 'ek' is about to enter the table. */
  lemma BoundSize<V>(a: seq<Option<V>>, ns: seq<Node<V>>, ek: Key)
    requires HashKeysOk(ns, |a|) && ek !in Bound(a, ns)
    ensures |Bound(a, ns) + {ek}| == |ArrayKeys(a)| + |ValueKeys(ns)| + 1
  {
    hide ArrayKeys, ValueKeys;
    ValueKeysOutside(ns, |a|);
    ArrayKeysAreIndices(a);
    assert ArrayKeys(a) !! ValueKeys(ns);
  }

  lemma OutsideAdd(s: set<Key>, ek: Key, n: nat)
    ensures Outside(s + {ek}, n) == Outside(s, n) + (if ArrayIndex(ek, n) then {} else {ek})
    ensures |Outside(s, n)| <= |Outside(s + {ek}, n)| && (ek !in s ==> ek !in Outside(s, n))
  {
    KeysSubset(Outside(s, n), Outside(s + {ek}, n));
  }

  lemma CandidatesInRange(s: set<Key>)
    ensures forall k :: k in Candidates(s) ==> 0 < k <= MAXASIZE
  {
  }

  lemma OutsideSmaller(s: set<Key>, n: nat)
    ensures |Outside(s, n)| <= |s|
  {
    KeysSubset(Outside(s, n), s);
  }

  lemma {:induction false} ValueKeysFit<V>(ns: seq<Node<V>>)
    ensures |ValueKeys(ns)| <= |ns|
    decreases |ns|
  {
    if |ns| > 0 {
      var r := ns[..|ns| - 1];
      var last := ns[|ns| - 1];
      ValueKeysFit(r);
      var more := if last.key.Some? then {last.key.value} else {};
      assert forall i :: 0 <= i < |r| ==> r[i] == ns[i];
      assert ValueKeys(ns) <= ValueKeys(r) + more;
      KeysSubset(ValueKeys(ns), ValueKeys(r) + more);
    }
  }

  lemma DummyEmpty<V>(ns: seq<Node<V>>, k: Key)
    requires ns == [Node(None, None, 0)]
    ensures Value(ns, k).None?
  {
  }

  lemma EvenPow2(n: nat)
    requires IsPow2(n) && n >= 2
    ensures n % 2 == 0
  {
    var p: nat :| p <= n && n == Pow2(p);
    assert Pow2(p) == 2 * Pow2(p - 1);
  }
}
