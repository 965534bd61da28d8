/** Lua tables: an array part and a hash part behind one map from keys to values. */
module LuaTable {
  import opened Options
  import opened TableHash
  import opened TableBits
  import opened TableSizes
  import opened TableContents

  /** Where a lookup ends: the C code returns a pointer to the value or 'absentkey'. */
  datatype Slot = ArraySlot(i: nat) | NodeSlot(j: nat) | Absent

  /** Keys as the API sees them: nil, NaN, a float with an integral value, or the rest. */
  datatype RawKey = NilKey | NaNKey | FloatKey(i: int) | PlainKey(k: Key)

  /** The key that a raw key is stored under: integral floats become integers. */
  function Normal(key: RawKey): Option<Key> {
    match key
    case NilKey => None
    case NaNKey => None
    case FloatKey(i) => Some(IntKey(i))
    case PlainKey(k) => Some(k)
  }

  predicate InRange(key: RawKey) {
    var k := Normal(key);
    k.Some? && k.value.IntKey? ==> -0x8000_0000_0000_0000 <= k.value.i <= 0x7FFF_FFFF_FFFF_FFFF
  }

  datatype Outcome = Done | IndexIsNil | IndexIsNaN | TableOverflow | NoMemory

  const MAXHBITS: nat := 30

  /** 'alimit' is the size of the array, or a hint above half of a size that is a power of two. */
  ghost predicate LimitOk(alimit: nat, asize: nat, isreal: bool) {
    if isreal then alimit == asize else IsPow2(asize) && asize / 2 < alimit <= asize
  }

  class Table<V> {
    const pos: Hash
    var node: seq<Node<V>>
    var lastfree: nat
    var dummy: bool          // the hash part is the shared empty node
    var arr: seq<Option<V>>
    var alimit: nat
    var isreal: bool
    ghost var rank: seq<nat>

    ghost predicate CursorOk()
      reads this`node, this`lastfree, this`dummy
    {
      CursorAt(node, lastfree, dummy)
    }

    ghost predicate Valid()
      reads this
    {
      && HashInv(node, rank, pos)
      && CursorOk() && HashKeysOk(node, |arr|)
      && LimitOk(alimit, |arr|, isreal) && |arr| <= MAXASIZE
    }

    /** The map the table stands for. */
    ghost function At(k: Key): Option<V>
      reads this`node, this`arr
    {
      Lookup(arr, node, k)
    }

    ghost predicate SlotFor(k: Key, s: Slot)
      reads this`node, this`arr
    {
      match s
      case ArraySlot(i) => ArrayIndex(k, |arr|) && i == k.i - 1
      case NodeSlot(j) => !ArrayIndex(k, |arr|) && j < |node| && node[j].key == Some(k)
      case Absent => !ArrayIndex(k, |arr|) && !HasKey(node, k)
    }

    constructor (pos: Hash)
      ensures Valid() && forall k :: At(k).None?
    {
      this.pos := pos;
      node, lastfree, dummy := [Node(None, None, 0)], 0, true;
      arr, alimit, isreal := [], 0, true;
      rank := [0];
      new;
      hide HashInv, Value;
      FreshHash<V>(1, pos);
      assert node == FreshNodes(1) && rank == seq(1, _ => 0);
    }

    // ----- the array part -----

    /** 'limitequalsasize' */
    predicate LimitEqualsSize()
      reads this`isreal, this`alimit
    {
      isreal || Pow2Test(alimit)
    }

    /** 'luaH_realasize' */
    method RealASize() returns (n: nat)
      requires LimitOk(alimit, |arr|, isreal) && |arr| <= MAXASIZE
      ensures n == |arr|
    {
      SizeFromLimit();
      if LimitEqualsSize() {
        n := alimit;
      } else {
        n := SmearedSize(alimit);
      }
    }

    lemma SizeFromLimit()
      requires LimitOk(alimit, |arr|, isreal) && |arr| <= MAXASIZE
      ensures LimitEqualsSize() ==> alimit == |arr|
      ensures !LimitEqualsSize() ==> 0 < alimit < |arr| && SmearedSize(alimit) == |arr| && IsPow2(|arr|)
    {
      if !isreal {
        Pow2TestCorrect(alimit);
        if alimit < |arr| {
          SmearRecovers(alimit, |arr|);
        }
      }
    }

    /** 'luaH_getint': the mask test agrees with a bounds check for every key. */
    method GetInt(key: int) returns (s: Slot)
      requires Valid() && LuaInteger(key)
      modifies this`alimit
      ensures Valid() && SlotFor(IntKey(key), s)
      ensures alimit == old(alimit) || (old(alimit) < key <= |arr| && alimit == key)
    {
      hide HashInv, HashKeysOk, CursorOk, IsPow2, MaskTest, Bits;
      ghost var k1 := Unsigned(key - 1);
      UnsignedBound(key, alimit);
      UnsignedBound(key, |arr|);
      if Unsigned(key - 1) < alimit {
        return ArraySlot(key - 1);
      }
      if !isreal {
        MaskTestCorrect(k1, alimit, |arr|);
      }
      if !isreal && MaskTest(Bits(Unsigned(key - 1)), Bits(alimit)) {
        alimit := key;
        return ArraySlot(key - 1);
      }
      s := GetGeneric(IntKey(key));
    }

    // ----- lookup in the hash part -----

    /** 'getgeneric' */
    method GetGeneric(k: Key) returns (s: Slot)
      requires Valid() && !ArrayIndex(k, |arr|)
      ensures SlotFor(k, s) && !s.ArraySlot?
    {
      hide UniqueKeys, SinglePrev, FreeNodes, MainOwned, AllReached, HashKeysOk, CursorOk, HasKey;
      var n: nat := MainPos(pos, k, |node|);
      LookupCorrect(node, rank, pos, k);
      while true
        invariant n < |node|
        invariant Walk(node, rank, n, k) == Walk(node, rank, MainPos(pos, k, |node|), k)
        decreases rank[n]
      {
        if node[n].key == Some(k) {
          return NodeSlot(n);
        }
        var nx := node[n].next;
        if nx == 0 {
          return Absent;
        }
        n := n + nx;
      }
    }

    method GetSlot(k: Key) returns (s: Slot)
      requires Valid() && (k.IntKey? ==> LuaInteger(k.i))
      modifies this`alimit
      ensures Valid() && SlotFor(k, s)
    {
      match k {
        case IntKey(i) => s := GetInt(i);
        case OtherKey(_) => s := GetGeneric(k);
      }
    }

    /** 'luaH_get' */
    method Get(key: RawKey) returns (v: Option<V>)
      requires Valid() && InRange(key)
      modifies this`alimit
      ensures Valid() && v == if Normal(key).Some? then At(Normal(key).value) else None
      ensures v == match key case FloatKey(i) => At(IntKey(i)) case PlainKey(k) => At(k) case _ => None
    {
      var s := Absent;
      match key {
        case FloatKey(i) => s := GetInt(i);
        case PlainKey(k) => s := GetSlot(k);
        case _ =>
      }
      match s {
        case ArraySlot(i) => v := arr[i];
        case NodeSlot(j) =>
          v := node[j].val;
          ValueAt(node, j);
        case Absent => v := None;
      }
    }

    // ----- insertion -----

    /** 'getfreepos' */
    method GetFreePos() returns (f: Option<nat>)
      requires CursorOk()
      modifies this`lastfree
      ensures f.None? ==> CursorOk() && (dummy || Taken(node, 0))
      ensures f.Some? ==> !dummy && f.value == lastfree < |node| && node[f.value].key.None?
      ensures f.Some? ==> TakenBut(node, lastfree, f.value)
    {
      if !dummy {
        while lastfree > 0
          invariant CursorOk()
        {
          lastfree := lastfree - 1;
          if node[lastfree].key.None? {
            return Some(lastfree);
          }
        }
      }
      return None;
    }

    /** The loop that finds the node before 'mp' in its chain. */
    method FindPrevious(start: nat, mp: nat) returns (prev: nat)
      requires Ranked(node, rank) && start < |node| && start != mp && Reaches(node, rank, start, mp)
      ensures prev < |node| && prev != mp && node[prev].next != 0 && prev + node[prev].next == mp
    {
      prev := start;
      while prev + node[prev].next != mp
        invariant prev < |node| && prev != mp && Reaches(node, rank, prev, mp)
        decreases rank[prev]
      {
        prev := prev + node[prev].next;
      }
    }

    /** The colliding node is out of its main position: move it to the free node 'f'. */
    method MoveColliding(k: Key, v: V, mp: nat, f: nat)
      requires HashInv(node, rank, pos) && !HasKey(node, k) && mp == MainPos(pos, k, |node|)
      requires f < |node| && node[f].key.None? && node[mp].key.Some? && !Own(node, pos, mp)
      modifies this`node, this`rank
      ensures HashInv(node, rank, pos) && Inserted(old(node), node, k, v, f)
    {
      var othern := MainPos(pos, node[mp].key.value, |node|);
      hide UniqueKeys, MainOwned, FreeNodes, SinglePrev, HasKey, Inserted;
      var prev := FindPrevious(othern, mp);
      PutMoveFrame(node, rank, pos, prev, mp, f, k, v);
      rank := rank[f := rank[mp]];
      Relocate(k, v, prev, mp, f);
    }

    method Relocate(k: Key, v: V, prev: nat, mp: nat, f: nat)
      requires CanMove(node, prev, mp, f)
      modifies this`node
      ensures node == PutMove(old(node), prev, mp, f, k, v)
    {
      ghost var was := node;
      node := node[prev := node[prev].(next := f - prev)];
      node := node[f := node[mp]];
      if node[mp].next != 0 {
        node := node[f := node[f].(next := node[f].next + (mp - f))];
        node := node[mp := node[mp].(next := 0)];
      }
      node := node[mp := node[mp].(val := None)];
      node := node[mp := node[mp].(key := Some(k), val := Some(v))];
      assert node == PutMove(was, prev, mp, f, k, v);
    }

    /** The colliding node is in its main position: chain 'f' after it. */
    method ChainNew(k: Key, v: V, mp: nat, f: nat)
      requires HashInv(node, rank, pos) && !HasKey(node, k) && mp == MainPos(pos, k, |node|)
      requires f < |node| && node[f].key.None? && Own(node, pos, mp)
      modifies this`node, this`rank
      ensures HashInv(node, rank, pos) && Inserted(old(node), node, k, v, f)
    {
      PutChainFrame(node, rank, pos, mp, f, k, v);
      assert node[f].next == 0 && f != mp;
      hide HashInv, HasKey, Inserted;
      ghost var was, newrank := node, RoomAfter(rank, mp, f);
      if node[mp].next != 0 {
        node := node[f := node[f].(next := mp + node[mp].next - f)];
      }
      node := node[mp := node[mp].(next := f - mp)];
      node := node[f := node[f].(key := Some(k), val := Some(v))];
      assert node == PutChain(was, mp, f, k, v);
      rank := newrank;
    }

    method ResolveCollision(k: Key, v: V, mp: nat, f: nat)
      requires HashInv(node, rank, pos) && !HasKey(node, k) && mp == MainPos(pos, k, |node|)
      requires f < |node| && node[f].key.None? && node[mp].val.Some?
      modifies this`node, this`rank
      ensures HashInv(node, rank, pos) && Inserted(old(node), node, k, v, f)
    {
      hide HasKey, HashInv, Inserted;
      TakenNode(node, rank, pos, mp);
      if !Own(node, pos, mp) {
        MoveColliding(k, v, mp, f);
      } else {
        ChainNew(k, v, mp, f);
      }
    }

    /** The main position is free or holds a tombstone. */
    method PutInMain(k: Key, v: V, mp: nat)
      requires HashInv(node, rank, pos) && !HasKey(node, k) && mp == MainPos(pos, k, |node|)
      requires node[mp].val.None?
      modifies this`node
      ensures HashInv(node, rank, pos) && Inserted(old(node), node, k, v, mp)
    {
      hide HasKey, HashInv, Inserted;
      PutFreeFrame(node, rank, pos, mp, k, v);
      node := node[mp := node[mp].(key := Some(k))];
      node := node[mp := node[mp].(val := Some(v))];
      assert node == PutFree(old(node), mp, k, v);
    }

    /** 'luaH_newkey' up to the search for room; the result tells whether there was any. */
    method InsertKey(k: Key, v: V) returns (ok: bool)
      requires Valid() && !ArrayIndex(k, |arr|) && !HasKey(node, k) && (k.IntKey? ==> LuaInteger(k.i))
      modifies this`node, this`lastfree, this`rank
      ensures Valid() && |node| == |old(node)|
      ensures ok ==> KeySet(node) <= KeySet(old(node)) + {k}
      ensures ok ==> forall k2 :: At(k2) == if k2 == k then Some(v) else old(At(k2))
      ensures !ok ==> node == old(node) && (dummy || Taken(node, 0))
    {
      hide HashInv, Value, KeySet, HasKey, HashKeysOk, Inserted, IsPow2, Taken;
      ghost var used;
      ok, used := PlaceKey(k, v);
      if ok {
        InsertedKeeps(old(node), node, k, v, used, |arr|, lastfree);
      }
    }

    method PlaceKey(k: Key, v: V) returns (ok: bool, ghost used: nat)
      requires HashInv(node, rank, pos) && CursorOk() && !HasKey(node, k)
      modifies this`node, this`lastfree, this`rank
      ensures HashInv(node, rank, pos)
      ensures ok ==> !dummy && Inserted(old(node), node, k, v, used) && lastfree <= |old(node)|
      ensures ok ==> TakenBut(old(node), lastfree, used)
      ensures !ok ==> node == old(node) && CursorOk() && (dummy || Taken(node, 0))
    {
      var mp := MainPos(pos, k, |node|);
      hide HashInv, HasKey, Inserted;
      used := mp;
      if node[mp].val.Some? || dummy {
        var free := GetFreePos();
        if free.None? {
          return false, 0;
        }
        var f := free.value;
        used := f;
        ResolveCollision(k, v, mp, f);
      } else {
        PutInMain(k, v, mp);
      }
      ok := true;
    }

    // ----- storing -----

    ghost predicate HasRoom(k: Key)
      reads this`node, this`arr, this`dummy
    {
      ArrayIndex(k, |arr|) || HasKey(node, k) || (!dummy && !Taken(node, 0))
    }

    /** 'setobj2t' to the slot of a key; storing nil leaves a tombstone. */
    method Store(ghost k: Key, s: Slot, v: Option<V>)
      requires Valid() && SlotFor(k, s) && !s.Absent?
      modifies this`node, this`arr
      ensures Valid() && |arr| == old(|arr|) && |node| == old(|node|) && KeySet(node) == old(KeySet(node))
      ensures forall k2 :: At(k2) == if k2 == k then v else old(At(k2))
    {
      hide HashInv, Value, KeySet, HasKey, IsPow2, HashKeysOk;
      match s {
        case ArraySlot(i) =>
          arr := arr[i := v];
        case NodeSlot(j) =>
          HashInvKeys(node, rank, pos);
          StoreKeepsInv(node, rank, pos, j, v);
          forall k2 { StoreValue(node, j, v, k2); }
          KeysOkAgain(node, node[j := node[j].(val := v)], |arr|);
          node := node[j := node[j].(val := v)];
      }
    }

    /** 'luaH_set' on a table with room: the search for a free node succeeds. */
    method SetWithRoom(k: Key, v: V)
      requires Valid() && HasRoom(k) && (k.IntKey? ==> LuaInteger(k.i))
      modifies this`node, this`lastfree, this`rank, this`arr, this`alimit
      ensures Valid() && |arr| == old(|arr|) && |node| == old(|node|)
      ensures KeySet(node) <= old(KeySet(node)) + (if ArrayIndex(k, |arr|) then {} else {k})
      ensures forall k2 :: At(k2) == if k2 == k then Some(v) else old(At(k2))
    {
      hide HashInv, Lookup, KeySet, HasKey, LimitOk, HashKeysOk, Taken, CursorOk;
      var s := GetSlot(k);
      if s.Absent? {
        var ok := InsertKey(k, v);
      } else {
        Store(k, s, Some(v));
      }
    }

    // ----- resizing -----

    /** 'setlimittosize' */
    method SetLimitToSize()
      requires Valid()
      modifies this`alimit, this`isreal
      ensures Valid() && isreal && alimit == |arr|
    {
      hide HashInv, HashKeysOk, CursorOk;
      alimit := RealASize();
      isreal := true;
    }

    /** The result of 'setnodevector'. */
    static method NewNodeVector(size: nat, granted: bool) returns (o: Outcome, ns: seq<Node<V>>)
      ensures o == if size == 0 then Done
                   else if size > Pow2(30) then TableOverflow
                   else if !granted then NoMemory else Done
      ensures o.Done? ==> |ns| > 0 && ns == FreshNodes(|ns|) && |ns| >= size
      ensures o.Done? ==> if size == 0 then |ns| == 1 else exists r: nat :: IsCeilLog2(size, r) && |ns| == Pow2(r)
    {
      hide Pow2;
      if size == 0 {
        return Done, FreshNodes(1);
      }
      var lsize := CeilLog2(size);
      HashBits(size, lsize);
      if lsize > MAXHBITS {
        return TableOverflow, [];
      }
      if !granted {
        return NoMemory, [];
      }
      return Done, FreshNodes(Pow2(lsize));
    }

    /** The new hash part has a node for each key of 't'. */
    ghost predicate Roomy(t: set<Key>)
      reads this`node, this`dummy
    {
      (dummy ==> t == {}) && |t| <= |node|
    }

    /** Give the table a new, empty hash part. */
    method InstallFresh(ns: seq<Node<V>>, isdummy: bool)
      requires |ns| > 0 && ns == FreshNodes(|ns|) && (isdummy ==> |ns| == 1)
      requires LimitOk(alimit, |arr|, isreal) && |arr| <= MAXASIZE
      modifies this`node, this`lastfree, this`dummy, this`rank
      ensures Valid() && node == ns && dummy == isdummy && KeySet(node) == {}
      ensures forall k :: At(k) == PrefixAt(arr, |arr|, k)
    {
      hide HashInv, Value, IsPow2, KeySet;
      FreshHash<V>(|ns|, pos);
      node, dummy, lastfree := ns, isdummy, if isdummy then 0 else |ns|;
      rank := seq(|ns|, _ => 0);
    }

    /** Re-insert into the new hash the elements of the vanishing slice of array 'olda'. */
    method InsertSlice(olda: seq<Option<V>>, ghost t: set<Key>)
      requires Valid() && |arr| <= |olda| <= MAXASIZE && arr == olda[..|arr|]
      requires KeySet(node) == {} && forall k :: At(k) == PrefixAt(olda, |arr|, k)
      requires Roomy(t) && Outside(ArrayKeys(olda), |arr|) <= t
      modifies this`node, this`lastfree, this`rank, this`arr, this`alimit
      ensures Valid() && |arr| == old(|arr|) && |node| == old(|node|)
      ensures KeySet(node) <= Outside(ArrayKeys(olda), |arr|)
      ensures forall k :: At(k) == PrefixAt(olda, |olda|, k)
      ensures arr == old(arr)
    {
      hide HashInv, Lookup, KeySet, HasKey, LimitOk, HashKeysOk, Taken, CursorOk, ArrayKeys, Outside;
      ghost var n := |arr|;
      var i := |arr|;
      while i < |olda|
        invariant n <= i <= |olda| && |arr| == n && |node| == old(|node|) && Valid()
        invariant KeySet(node) <= Outside(ArrayKeys(olda[..i]), n)
        invariant forall k :: At(k) == PrefixAt(olda, i, k)
      {
        SliceStep(olda, i, n);
        if olda[i].Some? {
          HashInvKeys(node, rank, pos);
          RoomLeft(node, Outside(ArrayKeys(olda[..i]), n), IntKey(i + 1), t);
          SetWithRoom(IntKey(i + 1), olda[i].value);
        }
        i := i + 1;
      }
      assert olda[..i] == olda;
      SameArray(olda);
    }

    lemma SameArray(olda: seq<Option<V>>)
      requires |arr| <= |olda| && forall k :: At(k) == PrefixAt(olda, |olda|, k)
      ensures arr == olda[..|arr|]
    {
      forall i | 0 <= i < |arr|
        ensures arr[i] == olda[i]
      {
        assert At(IntKey(i + 1)) == PrefixAt(olda, |olda|, IntKey(i + 1));
      }
    }

    /** 'reinsert': the elements of the old hash part go to either part of the table. */
    method Reinsert(ghost olda: seq<Option<V>>, oldn: seq<Node<V>>, ghost t: set<Key>)
      requires Valid() && UniqueKeys(oldn) && FreeNodes(oldn) && HashKeysOk(oldn, |olda|)
      requires forall k :: At(k) == PrefixAt(olda, |olda|, k)
      requires KeySet(node) <= Outside(ArrayKeys(olda), |arr|)
      requires Roomy(t) && Outside(Bound(olda, oldn), |arr|) <= t
      modifies this`node, this`lastfree, this`rank, this`arr, this`alimit
      ensures Valid() && |arr| == old(|arr|) && |node| == old(|node|)
      ensures KeySet(node) <= t
      ensures forall k :: At(k) == Lookup(olda, oldn, k)
    {
      hide HashInv, KeySet, HasKey, LimitOk, HashKeysOk, Taken, CursorOk, UniqueKeys, FreeNodes, Bound, Lookup;
      ghost var n := |arr|;
      NoNodes(olda, oldn);
      var j := 0;
      while j < |oldn|
        invariant 0 <= j <= |oldn| && |arr| == n && |node| == old(|node|) && Valid()
        invariant KeySet(node) <= Outside(Bound(olda, oldn[..j]), n)
        invariant forall k :: At(k) == Lookup(olda, oldn[..j], k)
      {
        ReinsertStep(olda, oldn, j);
        if oldn[j].val.Some? {
          if !ArrayIndex(oldn[j].key.value, n) {
            HashInvKeys(node, rank, pos);
            RoomLeft(node, Outside(Bound(olda, oldn[..j]), n), oldn[j].key.value, t);
          }
          SetWithRoom(oldn[j].key.value, oldn[j].val.value);
        }
        j := j + 1;
      }
      assert oldn[..j] == oldn;
    }

    /** The new hash part with the vanishing slice in it; the table itself is as before. */
    method PrepareHash(newasize: nat, ns: seq<Node<V>>, isdummy: bool, ghost t: set<Key>)
      returns (newn: seq<Node<V>>, newlast: nat, ghost newrank: seq<nat>)
      requires Valid() && isreal && newasize <= MAXASIZE
      requires |ns| > 0 && ns == FreshNodes(|ns|) && (isdummy ==> |ns| == 1)
      requires (isdummy ==> t == {}) && |t| <= |ns| && Outside(ArrayKeys(arr), newasize) <= t
      modifies this
      ensures node == old(node) && lastfree == old(lastfree) && dummy == old(dummy) && rank == old(rank)
      ensures arr == old(arr) && alimit == old(alimit) && isreal
      ensures HashInv(newn, newrank, pos) && CursorAt(newn, newlast, isdummy) && HashKeysOk(newn, newasize)
      ensures |newn| == |ns| && KeySet(newn) <= Outside(ArrayKeys(arr), newasize)
      ensures forall k :: Lookup(Reallocated(arr, newasize), newn, k) == PrefixAt(arr, |arr|, k)
    {
      hide HashInv, Lookup, KeySet, HashKeysOk, CursorAt, ArrayKeys, Outside, FreshNodes, IsPow2;
      var olda, oldn, oldlast, olddummy := arr, node, lastfree, dummy;
      ghost var oldrank := rank;
      if newasize < |arr| {
        arr, alimit := arr[..newasize], newasize;  // pretend array has new size
        InstallFresh(ns, isdummy);
        InsertSlice(olda, t);
        newn, newlast, newrank := node, lastfree, rank;
        node, lastfree, dummy, rank := oldn, oldlast, olddummy, oldrank;
        arr, alimit := olda, |olda|;
      } else {
        FreshHash<V>(|ns|, pos);
        newn, newlast, newrank := ns, if isdummy then 0 else |ns|, seq(|ns|, _ => 0);
        FreshIsReady(ns, isdummy, newasize);
        GrownLookup(arr, newasize, ns);
      }
    }

    /** 'luaH_resize', for a hash part with a node for each key outside the new array:
        no entry is lost, and a failed allocation leaves both parts as they were. */
    method Resize(newasize: nat, nhsize: nat, hashGranted: bool, arrayGranted: bool) returns (o: Outcome)
      requires Valid() && newasize <= MAXASIZE && |Outside(Bound(arr, node), newasize)| <= nhsize
      modifies this
      ensures Valid() && forall k :: At(k) == old(At(k))
      ensures o == if nhsize > Pow2(30) then TableOverflow
                   else if (nhsize > 0 && !hashGranted) || (newasize > 0 && !arrayGranted) then NoMemory else Done
      ensures !o.Done? ==> node == old(node) && arr == old(arr)
      ensures o.Done? ==> |arr| == newasize && isreal && (dummy <==> nhsize == 0)
      ensures o.Done? ==> KeySet(node) <= old(Outside(Bound(arr, node), newasize))
      ensures o.Done? && nhsize > 0 ==> exists r: nat :: IsCeilLog2(nhsize, r) && |node| == Pow2(r)
    {
      hide HashInv, Lookup, KeySet, HashKeysOk, CursorAt, Bound, ArrayKeys, Outside, FreshNodes, Pow2, IsPow2, Reallocated;
      SetLimitToSize();
      var ns;
      o, ns := NewNodeVector(nhsize, hashGranted);
      if !o.Done? {
        return;
      }
      ghost var t := Outside(Bound(arr, node), newasize);
      ArrayKeysBound(arr, node, newasize);
      var olda, oldn := arr, node;
      HashInvKeys(node, rank, pos);
      var newn, newlast;
      ghost var newrank;
      newn, newlast, newrank := PrepareHash(newasize, ns, nhsize == 0, t);
      if newasize > 0 && !arrayGranted {
        return NoMemory;
      }
      node, lastfree, dummy, rank := newn, newlast, nhsize == 0, newrank;
      arr, alimit := Reallocated(arr, newasize), newasize;
      Reinsert(olda, oldn, t);
    }

    /** The counting half of 'rehash': the sizes of both parts once 'ek' is in the table. */
    method ChooseSizes(ek: Key) returns (asize: nat, nhsize: nat)
      requires Valid() && isreal && ek !in Bound(arr, node) && (ek.IntKey? ==> LuaInteger(ek.i))
      ensures OptimalSize(Candidates(Bound(arr, node) + {ek}), asize) && asize <= MAXASIZE
      ensures nhsize == |Outside(Bound(arr, node) + {ek}, asize)|
    {
      hide HashInv, UniqueKeys, FreeNodes, HashKeysOk, CursorAt, Counts, Candidates, ArrayKeys, ValueKeys, Outside, UpTo, MoreThanHalf, Pow2, IsPow2;
      var nums := seq(MAXABITS + 1, _ => 0);
      var na;
      nums, na := NumUseArray(arr, nums);
      var totaluse := na;
      CandidatesOfArray(arr);
      ArrayKeysAreIndices(arr);
      HashInvKeys(node, rank, pos);
      var hashuse, c;
      nums, na, hashuse := NumUseHash(node, |arr|, ArrayKeys(arr), nums, na);
      totaluse := totaluse + hashuse;
      nums, c := CountKey(ek, nums, Bound(arr, node));
      na := na + c;
      totaluse := totaluse + 1;
      BoundSize(arr, node, ek);
      ghost var s := Bound(arr, node) + {ek};
      CandidatesInRange(s);
      asize, na := ComputeSizes(nums, na, Candidates(s));
      OutsideSize(s, asize);
      nhsize := totaluse - na;
    }

    /** 'rehash': the array gets its optimal size, nothing is lost, and 'ek' has room. */
    method Rehash(ek: Key, hashGranted: bool, arrayGranted: bool) returns (o: Outcome)
      requires Valid() && ek !in Bound(arr, node) && (ek.IntKey? ==> LuaInteger(ek.i))
      modifies this
      ensures Valid() && forall k :: At(k) == old(At(k))
      ensures o.Done? ==> HasRoom(ek) && OptimalSize(old(Candidates(Bound(arr, node) + {ek})), |arr|)
      ensures !o.Done? ==> node == old(node) && arr == old(arr)
      ensures o in {Done, TableOverflow, NoMemory}
      ensures hashGranted && arrayGranted && !o.Done? ==>
        o == TableOverflow && Pow2(30) <= old(|Bound(arr, node)|)
    {
      hide HashInv, HashKeysOk, CursorAt, Lookup, Bound, Candidates, OptimalSize, Outside, KeySet, Pow2, IsPow2, Taken;
      ghost var b := Bound(arr, node);
      SetLimitToSize();
      var asize, nhsize := ChooseSizes(ek);
      OutsideAdd(b, ek, asize);
      OutsideSmaller(b, asize);
      o := Resize(asize, nhsize, hashGranted, arrayGranted);
      if o.Done? && !ArrayIndex(ek, asize) {
        HashInvKeys(node, rank, pos);
        RoomLeft(node, Outside(b, asize), ek, Outside(b + {ek}, asize));
      }
    }

    // ----- setting -----

    /** 'luaH_newkey'; the attempt after a rehash always finds room. */
    method NewKey(key: RawKey, v: Option<V>, hashGranted: bool, arrayGranted: bool) returns (o: Outcome)
      requires Valid() && InRange(key)
      requires Normal(key).Some? ==> SlotFor(Normal(key).value, Absent)
      modifies this
      ensures Valid()
      ensures key.NilKey? <==> o == IndexIsNil
      ensures key.NaNKey? <==> o == IndexIsNaN
      ensures o.Done? ==> forall k :: At(k) == if Some(k) == Normal(key) then v else old(At(k))
      ensures !o.Done? ==> forall k :: At(k) == old(At(k))
      ensures hashGranted && arrayGranted && Normal(key).Some? && old(|Bound(arr, node)|) < Pow2(30) ==> o.Done?
    {
      hide HashInv, HashKeysOk, CursorAt, LimitOk, Lookup, Bound, Candidates, OptimalSize, Outside, KeySet, Pow2, Taken, HasKey;
      if key.NilKey? {
        return IndexIsNil;
      } else if key.NaNKey? {
        return IndexIsNaN;
      }
      var k := Normal(key).value;
      AbsentKey(k);
      if v.None? {
        return Done;
      }
      var ok := InsertKey(k, v.value);
      if ok {
        return Done;
      }
      o := Rehash(k, hashGranted, arrayGranted);
      if o.Done? {
        SetWithRoom(k, v.value);
      }
    }

    lemma AbsentKey(k: Key)
      requires Valid() && SlotFor(k, Absent)
      ensures k !in Bound(arr, node) && At(k).None?
    {
      hide Bound;
      BoundMeaning(arr, node, k);
    }

    /** 'luaH_set': the table behaves as a map. */
    method Set(key: RawKey, v: Option<V>, hashGranted: bool, arrayGranted: bool) returns (o: Outcome)
      requires Valid() && InRange(key)
      modifies this
      ensures Valid()
      ensures key.NilKey? <==> o == IndexIsNil
      ensures key.NaNKey? <==> o == IndexIsNaN
      ensures o.Done? ==> forall k :: At(k) == if Some(k) == Normal(key) then v else old(At(k))
      ensures o.Done? ==> At(if key.FloatKey? then IntKey(key.i) else key.k) == v
      ensures !o.Done? ==> forall k :: At(k) == old(At(k))
      ensures hashGranted && arrayGranted && Normal(key).Some? && old(|Bound(arr, node)|) < Pow2(30) ==> o.Done?
    {
      hide HashInv, HashKeysOk, CursorAt, LimitOk, Lookup, Bound, Pow2, HasKey;
      var s := Absent;
      match key {
        case FloatKey(i) => s := GetInt(i);
        case PlainKey(k) => s := GetSlot(k);
        case _ =>
      }
      if s.Absent? {
        o := NewKey(key, v, hashGranted, arrayGranted);
      } else {
        Store(Normal(key).value, s, v);
        o := Done;
      }
    }

    /** 'luaH_resizearray' to a larger array: the hash part keeps its size. */
    method GrowArray(nasize: nat, hashGranted: bool, arrayGranted: bool) returns (o: Outcome)
      requires Valid() && |arr| <= nasize <= MAXASIZE
      modifies this
      ensures Valid() && forall k :: At(k) == old(At(k))
      ensures o.Done? ==> |arr| == nasize && dummy == old(dummy)
    {
      hide HashInv, HashKeysOk, CursorAt, LimitOk, Lookup, Bound, Pow2, HasKey, LuaInteger, Outside, KeySet;
      HashFits(nasize);
      NodesExist();
      o := Resize(nasize, if dummy then 0 else |node|, hashGranted, arrayGranted);
    }

    lemma NodesExist()
      requires Valid()
      ensures |node| > 0
    {
    }

    lemma HashFits(nasize: nat)
      requires Valid() && |arr| <= nasize
      ensures |Outside(Bound(arr, node), nasize)| <= if dummy then 0 else |node|
    {
      hide HashInv, HashKeysOk;
      HashInvKeys(node, rank, pos);
      ArrayKeysAreIndices(arr);
      ValueKeysFit(node);
      KeysSubset(Outside(Bound(arr, node), nasize), ValueKeys(node));
    }

    // ----- length -----

    ghost predicate Present(i: int)
      reads this`node, this`arr
    {
      At(IntKey(i)).Some?
    }

    /** A border, as section 3.4.7 of the Lua 5.4 Reference Manual defines it. */
    ghost predicate Border(n: int)
      reads this`node, this`arr
    {
      && 0 <= n <= MAXINTEGER
      && (n == 0 || Present(n))
      && (n == MAXINTEGER || !Present(n + 1))
    }

    /** 'luaH_getint' followed by 'isempty' */
    method IsEmptyAt(i: int) returns (e: bool)
      requires Valid() && LuaInteger(i)
      modifies this`alimit
      ensures Valid() && e == !Present(i)
      ensures i > |arr| ==> alimit == old(alimit)
    {
      hide HashInv, HashKeysOk, CursorAt, LimitOk, Value, LuaInteger;
      var s := GetInt(i);
      match s {
        case ArraySlot(j) => e := arr[j].None?;
        case NodeSlot(j) =>
          HashInvKeys(node, rank, pos);
          ValueAt(node, j);
          e := node[j].val.None?;
        case Absent =>
          AbsentKey(IntKey(i));
          e := true;
      }
    }

    /** 'binsearch' between a present (or zero) index and an absent one. */
    method BinSearch(from: nat, to: nat) returns (i: nat)
      requires from < to <= |arr| && (from == 0 || arr[from - 1].Some?) && arr[to - 1].None?
      ensures from <= i < to && (i == 0 || arr[i - 1].Some?) && arr[i].None?
    {
      i := from;
      var j := to;
      while j - i > 1
        invariant from <= i < j <= to && (i == 0 || arr[i - 1].Some?) && arr[j - 1].None?
      {
        var m := (i + j) / 2;
        if arr[m - 1].None? {
          j := m;
        } else {
          i := m;
        }
      }
    }

    /** 'hash_search': 'j' is zero or present, and 'j + 1' is present. */
    method HashSearch(j0: nat) returns (n: nat)
      requires Valid() && |arr| <= j0 < MAXINTEGER && (j0 == 0 || Present(j0)) && Present(j0 + 1)
      modifies this`alimit
      ensures Valid() && Border(n)
    {
      hide HashInv, HashKeysOk, CursorAt, LimitOk, Lookup;
      var j := if j0 == 0 then 1 else j0;
      var i := j;
      var absent := false;
      while !absent
        invariant Valid() && 0 < i <= j <= MAXINTEGER && Present(i)
        invariant absent ==> i < j && !Present(j)
        invariant !absent ==> Present(j)
        decreases !absent, MAXINTEGER - j
      {
        i := j;
        if j <= MAXINTEGER / 2 {
          j := j * 2;
          absent := IsEmptyAt(j);
        } else {
          j := MAXINTEGER;
          absent := IsEmptyAt(j);
          if !absent {
            return j;
          }
        }
      }
      while j - i > 1
        invariant Valid() && 0 < i < j <= MAXINTEGER && Present(i) && !Present(j)
      {
        var m := (i + j) / 2;
        var e := IsEmptyAt(m);
        if e {
          j := m;
        } else {
          i := m;
        }
      }
      return i;
    }

    /** 'ispow2realasize' */
    predicate Pow2RealSize()
      reads this`isreal, this`alimit
    {
      !isreal || Pow2Test(alimit)
    }

    /** Whether the size of the array is a power of two, told without knowing it. */
    lemma SizeIsPow2()
      requires LimitOk(alimit, |arr|, isreal) && |arr| <= MAXASIZE
      ensures Pow2RealSize() <==> |arr| == 0 || IsPow2(|arr|)
    {
      hide IsPow2, Pow2Test;
      Pow2TestCorrect(alimit);
    }

    lemma NewLimit(limit: nat)
      requires LimitOk(alimit, |arr|, isreal) && |arr| <= MAXASIZE && Pow2RealSize() && alimit > 0
      ensures IsPow2(|arr|) && |arr| / 2 < alimit
      ensures |arr| / 2 < limit <= |arr| ==> LimitOk(limit, |arr|, false)
      ensures alimit >= 2 && !Pow2Test(alimit - 1) ==> LimitOk(alimit - 1, |arr|, false)
    {
      hide IsPow2, Pow2Test;
      Pow2TestCorrect(alimit);
      Pow2TestCorrect(alimit - 1);
      if |arr| >= 2 {
        EvenPow2(|arr|);
        IsPow2Half(|arr|);
      }
    }

    /** Case (1) of 'luaH_getn': the last element before the limit is empty. */
    method BorderBelow() returns (n: nat)
      requires Valid() && alimit > 0 && arr[alimit - 1].None?
      modifies this`alimit, this`isreal
      ensures Valid() && n < |arr| && (n == 0 || arr[n - 1].Some?) && arr[n].None?
    {
      hide HashInv, HashKeysOk, CursorAt, IsPow2, Pow2Test;
      var limit := alimit;
      if Pow2RealSize() {
        NewLimit(0);
      }
      if limit >= 2 && arr[limit - 2].Some? {
        if Pow2RealSize() && !Pow2Test(limit - 1) {
          alimit, isreal := limit - 1, false;
        }
        return limit - 1;
      }
      n := BinSearch(0, limit);
      var size := RealASize();
      if Pow2RealSize() && n > size / 2 {
        alimit, isreal := n, false;
      }
    }

    /** 'luaH_getn' returns a border. */
    method GetN() returns (n: nat)
      requires Valid()
      modifies this`alimit, this`isreal
      ensures Valid() && Border(n)
    {
      hide HashInv, HashKeysOk, CursorAt, IsPow2, Pow2Test, Value;
      var limit := alimit;
      if limit > 0 && arr[limit - 1].None? {
        n := BorderBelow();
        return;
      }
      SizeFromLimit();
      if !LimitEqualsSize() {
        if arr[limit].None? {
          return limit;
        }
        limit := RealASize();
        if arr[limit - 1].None? {
          n := BinSearch(alimit, limit);
          alimit := n;
          return;
        }
      }
      n := BorderInHash(limit);
    }

    /** Case (3) of 'luaH_getn': the array part has no border. */
    method BorderInHash(limit: nat) returns (n: nat)
      requires Valid() && limit == |arr| && (limit == 0 || arr[limit - 1].Some?)
      modifies this`alimit
      ensures Valid() && Border(n)
    {
      hide HashInv, HashKeysOk, IsPow2, Value;
      if dummy {
        DummyEmpty(node, IntKey(limit + 1));
        return limit;
      }
      var e := IsEmptyAt(limit + 1);
      if e {
        return limit;
      }
      n := HashSearch(limit);
    }
  }
}
