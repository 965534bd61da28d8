/** The hash part of a Lua table: a chained scatter table with Brent's variation.

    'pos(k, n)' stands for any hash function; a key's main position is that value reduced
    to the size of the node vector.  A node whose key is 'None' is free; a node with a key
    and no value is a tombstone.  'next' is relative, and 0 ends a chain.
 */
module TableHash {
  import opened Options

  datatype Key = IntKey(i: int) | OtherKey(id: nat)

  type Hash = (Key, nat) -> nat

  datatype Node<V> = Node(key: Option<Key>, val: Option<V>, next: int)

  function MainPos(pos: Hash, k: Key, n: nat): (m: nat)
    requires n > 0
    ensures m < n
  {
    pos(k, n) % n
  }

  // ----- chains -----

  /** 'rank' strictly decreases along every chain: chains are acyclic and in range. */
  ghost predicate Ranked<V>(ns: seq<Node<V>>, rank: seq<nat>) {
    && |rank| == |ns|
    && forall i :: 0 <= i < |ns| && ns[i].next != 0 ==>
         0 <= i + ns[i].next < |ns| && rank[i + ns[i].next] < rank[i]
  }

  ghost predicate Reaches<V>(ns: seq<Node<V>>, rank: seq<nat>, i: nat, j: nat)
    requires Ranked(ns, rank) && i < |ns|
    decreases rank[i]
  {
    i == j || (ns[i].next != 0 && Reaches(ns, rank, i + ns[i].next, j))
  }

  // ----- invariant -----

  ghost predicate UniqueKeys<V>(ns: seq<Node<V>>) {
    forall i, j :: 0 <= i < |ns| && 0 <= j < |ns| && ns[i].key.Some? && ns[i].key == ns[j].key ==> i == j
  }

  ghost predicate SinglePrev<V>(ns: seq<Node<V>>) {
    forall i, j :: 0 <= i < |ns| && 0 <= j < |ns| && i != j && ns[i].next != 0 && ns[j].next != 0 ==>
      i + ns[i].next != j + ns[j].next
  }

  /** Free nodes are empty and in no chain. */
  ghost predicate FreeNodes<V>(ns: seq<Node<V>>) {
    && (forall i :: 0 <= i < |ns| && ns[i].key.None? ==> ns[i].val.None? && ns[i].next == 0)
    && (forall i :: 0 <= i < |ns| && ns[i].next != 0 ==>
          0 <= i + ns[i].next < |ns| && ns[i + ns[i].next].key.Some?)
  }

  /** A node is in its own main position. */
  predicate Own<V>(ns: seq<Node<V>>, pos: Hash, i: nat)
    requires i < |ns|
  {
    ns[i].key.Some? && MainPos(pos, ns[i].key.value, |ns|) == i
  }

  /** If an element is not in its main position, the colliding element is in its own. */
  ghost predicate MainOwned<V>(ns: seq<Node<V>>, pos: Hash) {
    forall i :: 0 <= i < |ns| && ns[i].key.Some? ==> Own(ns, pos, MainPos(pos, ns[i].key.value, |ns|))
  }

  /** Every element is in the chain of its main position. */
  ghost predicate AllReached<V>(ns: seq<Node<V>>, rank: seq<nat>, pos: Hash)
    requires Ranked(ns, rank)
  {
    forall i :: 0 <= i < |ns| && ns[i].key.Some? ==>
      Reaches(ns, rank, MainPos(pos, ns[i].key.value, |ns|), i)
  }

  ghost predicate HashInv<V>(ns: seq<Node<V>>, rank: seq<nat>, pos: Hash) {
    && |ns| > 0 && Ranked(ns, rank)
    && UniqueKeys(ns) && SinglePrev(ns) && FreeNodes(ns)
    && MainOwned(ns, pos) && AllReached(ns, rank, pos)
  }

  // ----- lookup -----

  /** Walk of 'getgeneric' along a chain. */
  ghost function Walk<V>(ns: seq<Node<V>>, rank: seq<nat>, i: nat, k: Key): Option<nat>
    requires Ranked(ns, rank) && i < |ns|
    decreases rank[i]
  {
    if ns[i].key == Some(k) then Some(i)
    else if ns[i].next == 0 then None
    else Walk(ns, rank, i + ns[i].next, k)
  }

  ghost predicate HasKey<V>(ns: seq<Node<V>>, k: Key) {
    exists i :: 0 <= i < |ns| && ns[i].key == Some(k)
  }

  lemma {:induction false} WalkFinds<V>(ns: seq<Node<V>>, rank: seq<nat>, i: nat, j: nat, k: Key)
    requires Ranked(ns, rank) && UniqueKeys(ns) && i < |ns| && j < |ns|
    requires ns[j].key == Some(k) && Reaches(ns, rank, i, j)
    ensures Walk(ns, rank, i, k) == Some(j)
    decreases rank[i]
  {
    if i != j {
      WalkFinds(ns, rank, i + ns[i].next, j, k);
    }
  }

  lemma {:induction false} WalkSound<V>(ns: seq<Node<V>>, rank: seq<nat>, i: nat, k: Key)
    requires Ranked(ns, rank) && i < |ns|
    ensures var r := Walk(ns, rank, i, k); r.Some? ==> r.value < |ns| && ns[r.value].key == Some(k)
    decreases rank[i]
  {
    if ns[i].key != Some(k) && ns[i].next != 0 {
      WalkSound(ns, rank, i + ns[i].next, k);
    }
  }

  /** The walk from the main position finds a key exactly when some node holds it. */
  lemma LookupCorrect<V>(ns: seq<Node<V>>, rank: seq<nat>, pos: Hash, k: Key)
    requires HashInv(ns, rank, pos)
    ensures var r := Walk(ns, rank, MainPos(pos, k, |ns|), k);
      if r.Some? then r.value < |ns| && ns[r.value].key == Some(k) else !HasKey(ns, k)
  {
    WalkSound(ns, rank, MainPos(pos, k, |ns|), k);
    if HasKey(ns, k) {
      var j :| 0 <= j < |ns| && ns[j].key == Some(k);
      WalkFinds(ns, rank, MainPos(pos, k, |ns|), j, k);
    }
  }

  // ----- contents -----

  /** The value stored for 'k'; a tombstone stores none. */
  ghost function Value<V>(ns: seq<Node<V>>, k: Key): Option<V> {
    if i :| 0 <= i < |ns| && ns[i].key == Some(k) then ns[i].val else None
  }

  lemma ValueAt<V>(ns: seq<Node<V>>, i: nat)
    requires UniqueKeys(ns) && i < |ns| && ns[i].key.Some?
    ensures Value(ns, ns[i].key.value) == ns[i].val
  {
  }

  ghost predicate Holds<V>(ns: seq<Node<V>>, k: Key, v: V) {
    exists i :: 0 <= i < |ns| && ns[i].key == Some(k) && ns[i].val == Some(v)
  }

  lemma ValueHolds<V>(ns: seq<Node<V>>, k: Key)
    requires UniqueKeys(ns)
    ensures forall v :: Value(ns, k) == Some(v) <==> Holds(ns, k, v)
  {
  }

  /** Nodes that hold the same entries, up to one new key, give the same values. */
  lemma SameHoldings<V>(ns: seq<Node<V>>, ns2: seq<Node<V>>, k: Key, v: V, k2: Key)
    requires UniqueKeys(ns) && UniqueKeys(ns2)
    requires Holds(ns2, k, v)
    requires forall w :: k2 != k ==> (Holds(ns2, k2, w) <==> Holds(ns, k2, w))
    ensures Value(ns2, k2) == if k2 == k then Some(v) else Value(ns, k2)
  {
    ValueHolds(ns, k2);
    ValueHolds(ns2, k2);
    if k2 != k {
      if Value(ns, k2).Some? {
        assert Holds(ns, k2, Value(ns, k2).value);
      }
      if Value(ns2, k2).Some? {
        assert Holds(ns2, k2, Value(ns2, k2).value);
      }
    }
  }

  /** Storing into the node that holds 'k'. */
  lemma StoreValue<V>(ns: seq<Node<V>>, i: nat, v: Option<V>, k2: Key)
    requires UniqueKeys(ns) && i < |ns| && ns[i].key.Some?
    ensures var ns2 := ns[i := ns[i].(val := v)];
      UniqueKeys(ns2) && Value(ns2, k2) == if Some(k2) == ns[i].key then v else Value(ns, k2)
  {
    var ns2 := ns[i := ns[i].(val := v)];
    assert forall j :: 0 <= j < |ns| ==> ns2[j].key == ns[j].key;
    if HasKey(ns, k2) {
      var j :| 0 <= j < |ns| && ns[j].key == Some(k2);
      ValueAt(ns, j);
      ValueAt(ns2, j);
    }
  }

  /** The node vector made by 'setnodevector'. */
  function FreshNodes<V>(n: nat): seq<Node<V>> {
    seq(n, _ => Node(None, None, 0))
  }

  lemma FreshHash<V>(n: nat, pos: Hash)
    requires n > 0
    ensures HashInv<V>(FreshNodes(n), seq(n, _ => 0), pos)
    ensures forall k :: Value<V>(FreshNodes(n), k).None? && !HasKey<V>(FreshNodes(n), k)
    ensures KeySet<V>(FreshNodes(n)) == {}
  {
  }

  // ----- insertion, as 'luaH_newkey' does it -----

  /** The main position holds no value: the key goes there. */
  function PutFree<V>(ns: seq<Node<V>>, mp: nat, k: Key, v: V): seq<Node<V>>
    requires mp < |ns|
  {
    ns[mp := ns[mp].(key := Some(k), val := Some(v))]
  }

  /** The colliding node is out of its main position: it moves to 'f', after 'prev'. */
  function PutMove<V>(ns: seq<Node<V>>, prev: nat, mp: nat, f: nat, k: Key, v: V): seq<Node<V>>
    requires prev < |ns| && mp < |ns| && f < |ns|
  {
    var moved := ns[mp].(next := if ns[mp].next != 0 then mp + ns[mp].next - f else 0);
    ns[prev := ns[prev].(next := f - prev)][f := moved][mp := Node(Some(k), Some(v), 0)]
  }

  /** The colliding node is in its main position: the key goes to 'f', chained after it. */
  function PutChain<V>(ns: seq<Node<V>>, mp: nat, f: nat, k: Key, v: V): seq<Node<V>>
    requires mp < |ns| && f < |ns|
  {
    var next := if ns[mp].next != 0 then mp + ns[mp].next - f else 0;
    ns[f := Node(Some(k), Some(v), next)][mp := ns[mp].(next := f - mp)]
  }

  lemma {:induction false} SameLinksReach<V>(ns: seq<Node<V>>, ns2: seq<Node<V>>, rank: seq<nat>, i: nat, j: nat)
    requires Ranked(ns, rank) && Ranked(ns2, rank) && i < |ns| == |ns2|
    requires forall x :: 0 <= x < |ns| ==> ns2[x].next == ns[x].next
    requires Reaches(ns, rank, i, j)
    ensures Reaches(ns2, rank, i, j)
    decreases rank[i]
  {
    if i != j {
      SameLinksReach(ns, ns2, rank, i + ns[i].next, j);
    }
  }

  // --- case 1: the main position is free ---

  lemma PutFreeShape<V>(ns: seq<Node<V>>, rank: seq<nat>, mp: nat, k: Key, v: V)
    requires Ranked(ns, rank) && UniqueKeys(ns) && SinglePrev(ns) && FreeNodes(ns)
    requires mp < |ns| && !HasKey(ns, k)
    ensures var ns2 := PutFree(ns, mp, k, v);
      Ranked(ns2, rank) && UniqueKeys(ns2) && SinglePrev(ns2) && FreeNodes(ns2)
  {
    var ns2 := PutFree(ns, mp, k, v);
    assert forall i :: 0 <= i < |ns| ==> ns2[i].next == ns[i].next;
  }

  /** Overwriting a free node or a tombstone in the key's main position. */
  lemma PutFreeInv<V>(ns: seq<Node<V>>, rank: seq<nat>, pos: Hash, k: Key, v: V)
    requires HashInv(ns, rank, pos) && !HasKey(ns, k)
    ensures HashInv(PutFree(ns, MainPos(pos, k, |ns|), k, v), rank, pos)
  {
    hide UniqueKeys, SinglePrev, FreeNodes, HasKey, Reaches;
    var mp := MainPos(pos, k, |ns|);
    var ns2 := PutFree(ns, mp, k, v);
    PutFreeShape(ns, rank, mp, k, v);
    forall i | 0 <= i < |ns2| && ns2[i].key.Some?
      ensures Own(ns2, pos, MainPos(pos, ns2[i].key.value, |ns2|))
      ensures Reaches(ns2, rank, MainPos(pos, ns2[i].key.value, |ns2|), i)
    {
      if i != mp {
        assert Own(ns, pos, MainPos(pos, ns[i].key.value, |ns|));
        SameLinksReach(ns, ns2, rank, MainPos(pos, ns[i].key.value, |ns|), i);
      } else {
        ReachesSelf(ns2, rank, mp);
      }
    }
  }

  lemma ReachesSelf<V>(ns: seq<Node<V>>, rank: seq<nat>, i: nat)
    requires Ranked(ns, rank) && i < |ns|
    ensures Reaches(ns, rank, i, i)
  {
  }

  // --- case 2: the colliding node moves away ---

  ghost predicate CanMove<V>(ns: seq<Node<V>>, prev: nat, mp: nat, f: nat) {
    && prev < |ns| && mp < |ns| && f < |ns|
    && ns[f].key.None? && ns[mp].key.Some? && prev != mp
    && ns[prev].next != 0 && prev + ns[prev].next == mp
  }

  lemma PutMoveLinks<V>(ns: seq<Node<V>>, rank: seq<nat>, prev: nat, mp: nat, f: nat, k: Key, v: V)
    requires Ranked(ns, rank) && SinglePrev(ns) && FreeNodes(ns) && CanMove(ns, prev, mp, f)
    ensures var ns2 := PutMove(ns, prev, mp, f, k, v);
      Ranked(ns2, rank[f := rank[mp]]) && FreeNodes(ns2)
  {
    var ns2, rank2 := PutMove(ns, prev, mp, f, k, v), rank[f := rank[mp]];
    forall i | 0 <= i < |ns2| && ns2[i].next != 0
      ensures 0 <= i + ns2[i].next < |ns2| && rank2[i + ns2[i].next] < rank2[i] && ns2[i + ns2[i].next].key.Some?
    {
      var was := if i == f then mp else i;
      assert ns[was].next != 0 && was + ns[was].next != f;
    }
  }

  lemma PutMovePrev<V>(ns: seq<Node<V>>, prev: nat, mp: nat, f: nat, k: Key, v: V)
    requires SinglePrev(ns) && FreeNodes(ns) && CanMove(ns, prev, mp, f)
    ensures SinglePrev(PutMove(ns, prev, mp, f, k, v))
  {
    var ns2 := PutMove(ns, prev, mp, f, k, v);
    forall i, j | 0 <= i < |ns2| && 0 <= j < |ns2| && i != j && ns2[i].next != 0 && ns2[j].next != 0
      ensures i + ns2[i].next != j + ns2[j].next
    {
      var wi, wj := if i == f then mp else i, if j == f then mp else j;
      assert ns[wi].next != 0 && wi + ns[wi].next != f;
      assert ns[wj].next != 0 && wj + ns[wj].next != f;
      assert wi + ns[wi].next != wj + ns[wj].next;
    }
  }

  lemma PutMoveKeys<V>(ns: seq<Node<V>>, prev: nat, mp: nat, f: nat, k: Key, v: V)
    requires UniqueKeys(ns) && CanMove(ns, prev, mp, f) && !HasKey(ns, k)
    ensures UniqueKeys(PutMove(ns, prev, mp, f, k, v))
  {
    var ns2 := PutMove(ns, prev, mp, f, k, v);
    assert forall i :: 0 <= i < |ns| && i != mp ==> ns2[i].key == ns[if i == f then mp else i].key;
  }

  /** Chains keep their elements; 'f' takes the place of 'mp'. */
  lemma {:induction false} MovedReach<V>(ns: seq<Node<V>>, rank: seq<nat>, prev: nat, mp: nat, f: nat, k: Key, v: V, i: nat, j: nat)
    requires Ranked(ns, rank) && SinglePrev(ns) && CanMove(ns, prev, mp, f)
    requires Ranked(PutMove(ns, prev, mp, f, k, v), rank[f := rank[mp]])
    requires i < |ns| && i != f && Reaches(ns, rank, i, j)
    requires forall x :: 0 <= x < |ns| && ns[x].next != 0 ==> x + ns[x].next != f
    ensures Reaches(PutMove(ns, prev, mp, f, k, v), rank[f := rank[mp]], if i == mp then f else i, if j == mp then f else j)
    decreases rank[i]
  {
    if i != j {
      MovedReach(ns, rank, prev, mp, f, k, v, i + ns[i].next, j);
    }
  }

  lemma PutMoveInv<V>(ns: seq<Node<V>>, rank: seq<nat>, pos: Hash, prev: nat, mp: nat, f: nat, k: Key, v: V)
    requires HashInv(ns, rank, pos) && !HasKey(ns, k) && mp == MainPos(pos, k, |ns|)
    requires CanMove(ns, prev, mp, f) && !Own(ns, pos, mp)
    ensures HashInv(PutMove(ns, prev, mp, f, k, v), rank[f := rank[mp]], pos)
  {
    var ns2, rank2 := PutMove(ns, prev, mp, f, k, v), rank[f := rank[mp]];
    PutMoveLinks(ns, rank, prev, mp, f, k, v);
    PutMovePrev(ns, prev, mp, f, k, v);
    PutMoveKeys(ns, prev, mp, f, k, v);
    assert forall x :: 0 <= x < |ns| && ns[x].next != 0 ==> x + ns[x].next != f;
    hide UniqueKeys, FreeNodes, HasKey, Reaches;
    forall i | 0 <= i < |ns2| && ns2[i].key.Some?
      ensures Own(ns2, pos, MainPos(pos, ns2[i].key.value, |ns2|))
      ensures Reaches(ns2, rank2, MainPos(pos, ns2[i].key.value, |ns2|), i)
    {
      if i == mp {
        ReachesSelf(ns2, rank2, mp);
      } else {
        var was := if i == f then mp else i;
        var m := MainPos(pos, ns[was].key.value, |ns|);
        assert ns2[i].key == ns[was].key;
        assert Own(ns, pos, m);
        MovedReach(ns, rank, prev, mp, f, k, v, m, was);
      }
    }
  }

  // --- case 3: the new key is chained after the colliding node ---

  /** Doubled ranks leave room for one more node after 'mp'. */
  ghost function RoomAfter(rank: seq<nat>, mp: nat, f: nat): seq<nat>
    requires mp < |rank|
  {
    seq(|rank|, i requires 0 <= i < |rank| => if i == f then 2 * rank[mp] + 1 else 2 * rank[i] + 2)
  }

  lemma PutChainLinks<V>(ns: seq<Node<V>>, rank: seq<nat>, mp: nat, f: nat, k: Key, v: V)
    requires Ranked(ns, rank) && FreeNodes(ns)
    requires mp < |ns| && f < |ns| && ns[f].key.None? && ns[mp].key.Some?
    ensures var ns2 := PutChain(ns, mp, f, k, v);
      Ranked(ns2, RoomAfter(rank, mp, f)) && FreeNodes(ns2)
  {
    var ns2, rank2 := PutChain(ns, mp, f, k, v), RoomAfter(rank, mp, f);
    forall i | 0 <= i < |ns2| && ns2[i].next != 0
      ensures 0 <= i + ns2[i].next < |ns2| && rank2[i + ns2[i].next] < rank2[i] && ns2[i + ns2[i].next].key.Some?
    {
      if i != mp {
        var was := if i == f then mp else i;
        assert ns[was].next != 0 && was + ns[was].next != f;
      }
    }
  }

  lemma PutChainPrev<V>(ns: seq<Node<V>>, mp: nat, f: nat, k: Key, v: V)
    requires SinglePrev(ns) && FreeNodes(ns)
    requires mp < |ns| && f < |ns| && ns[f].key.None? && ns[mp].key.Some?
    ensures SinglePrev(PutChain(ns, mp, f, k, v))
  {
    var ns2 := PutChain(ns, mp, f, k, v);
    forall i, j | 0 <= i < |ns2| && 0 <= j < |ns2| && i != j && ns2[i].next != 0 && ns2[j].next != 0
      ensures i + ns2[i].next != j + ns2[j].next
    {
      var wi, wj := if i == f then mp else i, if j == f then mp else j;
      assert i != mp ==> ns[wi].next != 0 && wi + ns[wi].next != f && i + ns2[i].next == wi + ns[wi].next;
      assert j != mp ==> ns[wj].next != 0 && wj + ns[wj].next != f && j + ns2[j].next == wj + ns[wj].next;
    }
  }

  lemma PutChainKeys<V>(ns: seq<Node<V>>, mp: nat, f: nat, k: Key, v: V)
    requires UniqueKeys(ns) && mp < |ns| && f < |ns| && f != mp && !HasKey(ns, k)
    ensures UniqueKeys(PutChain(ns, mp, f, k, v))
  {
    var ns2 := PutChain(ns, mp, f, k, v);
    assert forall i :: 0 <= i < |ns| && i != f ==> ns2[i].key == ns[i].key;
  }

  lemma {:induction false} ChainedReach<V>(ns: seq<Node<V>>, rank: seq<nat>, mp: nat, f: nat, k: Key, v: V, i: nat, j: nat)
    requires Ranked(ns, rank) && mp < |ns| && f < |ns| && f != mp
    requires Ranked(PutChain(ns, mp, f, k, v), RoomAfter(rank, mp, f))
    requires i < |ns| && i != f && Reaches(ns, rank, i, j)
    requires forall x :: 0 <= x < |ns| && ns[x].next != 0 ==> x + ns[x].next != f
    ensures Reaches(PutChain(ns, mp, f, k, v), RoomAfter(rank, mp, f), i, j)
    decreases rank[i]
  {
    if i != j {
      ChainedReach(ns, rank, mp, f, k, v, i + ns[i].next, j);
      if i == mp {
        assert Reaches(PutChain(ns, mp, f, k, v), RoomAfter(rank, mp, f), f, j);
      }
    }
  }

  lemma PutChainInv<V>(ns: seq<Node<V>>, rank: seq<nat>, pos: Hash, mp: nat, f: nat, k: Key, v: V)
    requires HashInv(ns, rank, pos) && !HasKey(ns, k) && mp == MainPos(pos, k, |ns|)
    requires f < |ns| && ns[f].key.None? && Own(ns, pos, mp)
    ensures HashInv(PutChain(ns, mp, f, k, v), RoomAfter(rank, mp, f), pos)
  {
    var ns2, rank2 := PutChain(ns, mp, f, k, v), RoomAfter(rank, mp, f);
    PutChainLinks(ns, rank, mp, f, k, v);
    PutChainPrev(ns, mp, f, k, v);
    PutChainKeys(ns, mp, f, k, v);
    assert forall x :: 0 <= x < |ns| && ns[x].next != 0 ==> x + ns[x].next != f;
    hide UniqueKeys, SinglePrev, FreeNodes, HasKey;
    forall i | 0 <= i < |ns2| && ns2[i].key.Some?
      ensures Own(ns2, pos, MainPos(pos, ns2[i].key.value, |ns2|))
      ensures Reaches(ns2, rank2, MainPos(pos, ns2[i].key.value, |ns2|), i)
    {
      if i == f {
        ReachesSelf(ns2, rank2, f);
      } else {
        var m := MainPos(pos, ns[i].key.value, |ns|);
        assert Own(ns, pos, m);
        ChainedReach(ns, rank, mp, f, k, v, m, i);
      }
    }
  }

  // ----- insertions change one key only -----

  lemma PutFreeValue<V>(ns: seq<Node<V>>, mp: nat, k: Key, v: V, k2: Key)
    requires UniqueKeys(ns) && !HasKey(ns, k) && mp < |ns| && ns[mp].val.None?
    requires UniqueKeys(PutFree(ns, mp, k, v))
    ensures Value(PutFree(ns, mp, k, v), k2) == if k2 == k then Some(v) else Value(ns, k2)
  {
    var ns2 := PutFree(ns, mp, k, v);
    assert ns2[mp].key == Some(k) && ns2[mp].val == Some(v);
    assert Holds(ns2, k, v);
    assert forall i :: 0 <= i < |ns| && i != mp ==> ns2[i] == ns[i];
    SameHoldings(ns, ns2, k, v, k2);
  }

  lemma PutMoveValue<V>(ns: seq<Node<V>>, prev: nat, mp: nat, f: nat, k: Key, v: V, k2: Key)
    requires UniqueKeys(ns) && !HasKey(ns, k) && CanMove(ns, prev, mp, f)
    requires UniqueKeys(PutMove(ns, prev, mp, f, k, v))
    ensures Value(PutMove(ns, prev, mp, f, k, v), k2) == if k2 == k then Some(v) else Value(ns, k2)
  {
    var ns2 := PutMove(ns, prev, mp, f, k, v);
    assert ns2[mp].key == Some(k) && ns2[mp].val == Some(v);
    assert Holds(ns2, k, v);
    assert forall i :: 0 <= i < |ns| && i != mp ==>
      var was := if i == f then mp else i; ns2[i].key == ns[was].key && ns2[i].val == ns[was].val;
    forall w | k2 != k
      ensures Holds(ns2, k2, w) <==> Holds(ns, k2, w)
    {
      if Holds(ns, k2, w) {
        var i :| 0 <= i < |ns| && ns[i].key == Some(k2) && ns[i].val == Some(w);
        var now := if i == mp then f else i;
        assert ns2[now].key == Some(k2) && ns2[now].val == Some(w);
      }
    }
    SameHoldings(ns, ns2, k, v, k2);
  }

  lemma PutChainValue<V>(ns: seq<Node<V>>, mp: nat, f: nat, k: Key, v: V, k2: Key)
    requires UniqueKeys(ns) && !HasKey(ns, k) && mp < |ns| && f < |ns| && f != mp && ns[f].key.None?
    requires UniqueKeys(PutChain(ns, mp, f, k, v))
    ensures Value(PutChain(ns, mp, f, k, v), k2) == if k2 == k then Some(v) else Value(ns, k2)
  {
    var ns2 := PutChain(ns, mp, f, k, v);
    assert ns2[f].key == Some(k) && ns2[f].val == Some(v);
    assert Holds(ns2, k, v);
    assert forall i :: 0 <= i < |ns| && i != f ==> ns2[i].key == ns[i].key && ns2[i].val == ns[i].val;
    forall w | k2 != k
      ensures Holds(ns2, k2, w) <==> Holds(ns, k2, w)
    {
      if Holds(ns, k2, w) {
        var i :| 0 <= i < |ns| && ns[i].key == Some(k2) && ns[i].val == Some(w);
        assert ns2[i].key == Some(k2) && ns2[i].val == Some(w);
      }
    }
    SameHoldings(ns, ns2, k, v, k2);
  }

  // ----- room -----

  ghost function KeySet<V>(ns: seq<Node<V>>): set<Key> {
    set i | 0 <= i < |ns| && ns[i].key.Some? :: ns[i].key.value
  }

  lemma {:induction false} FullPrefix<V>(ns: seq<Node<V>>, n: nat)
    requires n <= |ns| && UniqueKeys(ns) && forall i :: 0 <= i < n ==> ns[i].key.Some?
    ensures |KeySet(ns[..n])| == n
  {
    if n > 0 {
      FullPrefix(ns, n - 1);
      var k := ns[n - 1].key.value;
      assert KeySet(ns[..n]) == KeySet(ns[..n - 1]) + {k};
      assert k !in KeySet(ns[..n - 1]);
    }
  }

  /** A node vector with fewer keys than nodes has a free node. */
  lemma HasFreeNode<V>(ns: seq<Node<V>>)
    requires UniqueKeys(ns) && |KeySet(ns)| < |ns|
    ensures exists i :: 0 <= i < |ns| && ns[i].key.None?
  {
    if forall i :: 0 <= i < |ns| ==> ns[i].key.Some? {
      assert ns[..|ns|] == ns;
      FullPrefix(ns, |ns|);
    }
  }

  // ----- what an insertion means for its caller -----

  /** 'ns2' is 'ns' with 'k' bound to 'v', using node 'used' if it was free. */
  ghost predicate Inserted<V>(ns: seq<Node<V>>, ns2: seq<Node<V>>, k: Key, v: V, used: nat) {
    && |ns2| == |ns|
    && KeySet(ns2) <= KeySet(ns) + {k}
    && (forall i :: 0 <= i < |ns2| && ns2[i].key.Some? ==> ns2[i].key == Some(k) || ns2[i].key.value in KeySet(ns))
    && (forall i :: 0 <= i < |ns2| && (i == used || ns[i].key.Some?) ==> ns2[i].key.Some?)
    && (forall k2 :: Value(ns2, k2) == if k2 == k then Some(v) else Value(ns, k2))
  }

  lemma TakenNode<V>(ns: seq<Node<V>>, rank: seq<nat>, pos: Hash, mp: nat)
    requires HashInv(ns, rank, pos) && mp < |ns| && ns[mp].val.Some?
    ensures ns[mp].key.Some?
  {
  }

  lemma PutFreeFrame<V>(ns: seq<Node<V>>, rank: seq<nat>, pos: Hash, mp: nat, k: Key, v: V)
    requires HashInv(ns, rank, pos) && !HasKey(ns, k) && mp == MainPos(pos, k, |ns|) && ns[mp].val.None?
    ensures HashInv(PutFree(ns, mp, k, v), rank, pos) && Inserted(ns, PutFree(ns, mp, k, v), k, v, mp)
  {
    var ns2 := PutFree(ns, mp, k, v);
    PutFreeInv(ns, rank, pos, k, v);
    forall k2
      ensures Value(ns2, k2) == if k2 == k then Some(v) else Value(ns, k2)
    {
      PutFreeValue(ns, mp, k, v, k2);
    }
  }

  lemma PutMoveFrame<V>(ns: seq<Node<V>>, rank: seq<nat>, pos: Hash, prev: nat, mp: nat, f: nat, k: Key, v: V)
    requires HashInv(ns, rank, pos) && !HasKey(ns, k) && mp == MainPos(pos, k, |ns|)
    requires CanMove(ns, prev, mp, f) && !Own(ns, pos, mp)
    ensures HashInv(PutMove(ns, prev, mp, f, k, v), rank[f := rank[mp]], pos)
    ensures Inserted(ns, PutMove(ns, prev, mp, f, k, v), k, v, f)
  {
    var ns2 := PutMove(ns, prev, mp, f, k, v);
    PutMoveInv(ns, rank, pos, prev, mp, f, k, v);
    forall k2
      ensures Value(ns2, k2) == if k2 == k then Some(v) else Value(ns, k2)
    {
      PutMoveValue(ns, prev, mp, f, k, v, k2);
    }
  }

  lemma PutChainFrame<V>(ns: seq<Node<V>>, rank: seq<nat>, pos: Hash, mp: nat, f: nat, k: Key, v: V)
    requires HashInv(ns, rank, pos) && !HasKey(ns, k) && mp == MainPos(pos, k, |ns|)
    requires f < |ns| && ns[f].key.None? && Own(ns, pos, mp)
    ensures HashInv(PutChain(ns, mp, f, k, v), RoomAfter(rank, mp, f), pos)
    ensures Inserted(ns, PutChain(ns, mp, f, k, v), k, v, f)
  {
    var ns2 := PutChain(ns, mp, f, k, v);
    PutChainInv(ns, rank, pos, mp, f, k, v);
    forall k2
      ensures Value(ns2, k2) == if k2 == k then Some(v) else Value(ns, k2)
    {
      PutChainValue(ns, mp, f, k, v, k2);
    }
  }
}
