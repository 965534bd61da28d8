/** The table of interned short strings: chains in buckets, rehashed in place. */
module StringTable {
  import opened Options

  /** A string object; 'id' is its address. */
  datatype TString = TString(id: nat, text: string)

  type Hash = string -> nat

  type Buckets = seq<seq<TString>>

  const MAXSTRTB: nat := 0x7FFF_FFFF

  // ----- what the table holds -----

  ghost function All(v: Buckets): multiset<TString> {
    if v == [] then multiset{} else multiset(v[0]) + All(v[1..])
  }

  /** Each string sits in the bucket its hash selects. */
  ghost predicate Placed(h: Hash, v: Buckets, size: nat) {
    0 < size && forall j :: 0 <= j < |v| ==> InBucket(h, v[j], size, j)
  }

  ghost predicate InBucket(h: Hash, chain: seq<TString>, size: nat, j: nat)
    requires 0 < size
  {
    (j < size || chain == []) && forall a :: 0 <= a < |chain| ==> h(chain[a].text) % size == j
  }

  /** Each content has at most one object. */
  ghost predicate Unique(all: multiset<TString>) {
    && (forall x :: x in all ==> all[x] == 1)
    && (forall x, y :: x in all && y in all && x.text == y.text ==> x == y)
  }

  lemma Cancel(x: multiset<TString>, y: multiset<TString>, c: multiset<TString>)
    requires x + c == y + c
    ensures x == y
  {
    forall o: TString
      ensures x[o] == y[o]
    {
      assert (x + c)[o] == (y + c)[o];
    }
  }

  lemma {:induction false} AllUpdate(v: Buckets, i: nat, c: seq<TString>)
    requires i < |v|
    ensures All(v[i := c]) + multiset(v[i]) == All(v) + multiset(c)
  {
    if i == 0 {
      assert v[i := c][0] == c && v[i := c][1..] == v[1..];
    } else {
      AllUpdate(v[1..], i - 1, c);
      var w := v[1..][i - 1 := c];
      assert v[i := c][0] == v[0] && v[i := c][1..] == w;
      assert All(v[i := c]) + multiset(v[i]) == multiset(v[0]) + (All(w) + multiset(v[i]));
      assert All(v) + multiset(c) == multiset(v[0]) + (All(v[1..]) + multiset(c));
    }
  }

  lemma {:induction false} AllAppend(v: Buckets, w: Buckets)
    ensures All(v + w) == All(v) + All(w)
  {
    if v == [] {
      assert v + w == w;
    } else {
      AllAppend(v[1..], w);
      assert (v + w)[0] == v[0] && (v + w)[1..] == v[1..] + w;
      assert multiset(v[0]) + (All(v[1..]) + All(w)) == multiset(v[0]) + All(v[1..]) + All(w);
    }
  }

  lemma {:induction false} AllEmpty(v: Buckets)
    requires forall j :: 0 <= j < |v| ==> v[j] == []
    ensures All(v) == multiset{}
  {
    if v != [] {
      AllEmpty(v[1..]);
    }
  }

  lemma {:induction false} InAll(v: Buckets, x: TString) returns (j: nat, a: nat)
    requires x in All(v)
    ensures j < |v| && a < |v[j]| && v[j][a] == x
  {
    if x in multiset(v[0]) {
      j := 0;
      a :| 0 <= a < |v[0]| && v[0][a] == x;
    } else {
      var k;
      k, a := InAll(v[1..], x);
      j := k + 1;
    }
  }

  lemma {:induction false} AllHas(v: Buckets, j: nat, a: nat)
    requires j < |v| && a < |v[j]|
    ensures v[j][a] in All(v)
  {
    if j > 0 {
      AllHas(v[1..], j - 1, a);
    }
  }

  // ----- rehashing -----

  /** Buckets below 'i', and those from 'osize' up, are in order for 'nsize'. */
  ghost predicate PartlyPlaced(h: Hash, v: Buckets, nsize: nat, i: nat, osize: nat) {
    0 < nsize && forall j :: 0 <= j < |v| && (j < i || osize <= j) ==> InBucket(h, v[j], nsize, j)
  }

  /** Move every string of the chain 'p0' to its new bucket. */
  method MoveChain(h: Hash, v0: Buckets, p0: seq<TString>, nsize: nat, ghost i: nat, ghost osize: nat) returns (v: Buckets)
    requires 0 < nsize <= |v0| && PartlyPlaced(h, v0, nsize, i, osize) && i < |v0| && v0[i] == []
    ensures |v| == |v0| && All(v) == All(v0) + multiset(p0)
    ensures PartlyPlaced(h, v, nsize, i + 1, osize)
  {
    hide InBucket, All;
    v := v0;
    var p := p0;
    EmptyIsPlaced(h, v, nsize, i, osize);
    while p != []
      invariant |v| == |v0| && All(v) + multiset(p) == All(v0) + multiset(p0)
      invariant PartlyPlaced(h, v, nsize, i + 1, osize)
      decreases |p|
    {
      var x, rest := p[0], p[1..];
      assert p == [x] + rest;
      var b := h(x.text) % nsize;
      PlaceOne(h, v, x, nsize, i + 1, osize);
      AllPrepend(v, b, x);
      v := v[b := [x] + v[b]];
      p := rest;
    }
  }

  lemma EmptyIsPlaced(h: Hash, v: Buckets, nsize: nat, i: nat, osize: nat)
    requires PartlyPlaced(h, v, nsize, i, osize) && i < |v| && v[i] == []
    ensures PartlyPlaced(h, v, nsize, i + 1, osize)
  {
    forall j | 0 <= j < |v| && (j < i + 1 || osize <= j)
      ensures InBucket(h, v[j], nsize, j)
    {
      assert j != i ==> InBucket(h, v[j], nsize, j);
    }
  }

  lemma AllPrepend(v: Buckets, b: nat, x: TString)
    requires b < |v|
    ensures All(v[b := [x] + v[b]]) == All(v) + multiset{x}
  {
    hide All;
    AllUpdate(v, b, [x] + v[b]);
    assert multiset([x] + v[b]) == multiset{x} + multiset(v[b]);
    assert All(v) + multiset([x] + v[b]) == All(v) + multiset{x} + multiset(v[b]);
    Cancel(All(v[b := [x] + v[b]]), All(v) + multiset{x}, multiset(v[b]));
  }

  lemma PlaceOne(h: Hash, v: Buckets, x: TString, nsize: nat, i: nat, osize: nat)
    requires 0 < nsize <= |v| && PartlyPlaced(h, v, nsize, i, osize)
    ensures var b := h(x.text) % nsize; PartlyPlaced(h, v[b := [x] + v[b]], nsize, i, osize)
  {
    var b := h(x.text) % nsize;
    var v2 := v[b := [x] + v[b]];
    forall j | 0 <= j < |v2| && (j < i || osize <= j)
      ensures InBucket(h, v2[j], nsize, j)
    {
      assert InBucket(h, v[j], nsize, j);
    }
  }

  /** 'tablerehash', in place: nothing is lost, and every string ends in its new bucket. */
  method TableRehash(h: Hash, v0: Buckets, osize: nat, nsize: nat) returns (v: Buckets)
    requires 0 < osize <= |v0| && 0 < nsize <= |v0|
    requires forall j :: osize <= j < |v0| ==> v0[j] == []
    ensures |v| == |v0| && All(v) == All(v0) && Placed(h, v, nsize)
    ensures forall j :: nsize <= j < |v| ==> v[j] == []
  {
    v := v0;
    var i := 0;
    while i < osize
      invariant 0 <= i <= osize && |v| == |v0| && All(v) == All(v0)
      invariant PartlyPlaced(h, v, nsize, i, osize)
    {
      var p := v[i];
      AllUpdate(v, i, []);
      v := v[i := []];
      v := MoveChain(h, v, p, nsize, i, osize);
      i := i + 1;
    }
    BeyondEmpty(h, v, nsize);
  }

  lemma BeyondEmpty(h: Hash, v: Buckets, size: nat)
    requires Placed(h, v, size)
    ensures forall j :: size <= j < |v| ==> v[j] == []
  {
  }

  // ----- the table -----

  class Table {
    const h: Hash
    var hash: Buckets
    var nuse: nat
    var nextId: nat    // addresses not in use yet

    ghost predicate Valid()
      reads this
    {
      && Placed(h, hash, |hash|) && Unique(All(hash)) && nuse == |All(hash)|
      && forall x :: x in All(hash) ==> x.id < nextId
    }

    constructor (h: Hash, size: nat)
      requires size > 0
      ensures Valid() && All(hash) == multiset{} && |hash| == size
    {
      this.h := h;
      hash, nuse, nextId := seq(size, _ => []), 0, 0;
      new;
      AllEmpty(hash);
    }

    /** 'luaS_resize': on failure the table is as it was, up to the order in its chains. */
    method Resize(nsize: nat, granted: bool)
      requires Valid() && nsize > 0
      modifies this`hash
      ensures Valid() && All(hash) == old(All(hash))
      ensures |hash| == if granted then nsize else old(|hash|)
    {
      hide All, Unique, InBucket;
      var osize := |hash|;
      var v := hash;
      if nsize < osize {
        v := TableRehash(h, v, osize, nsize);
        if !granted {
          v := TableRehash(h, v, nsize, osize);
        } else {
          CutEmpty(h, v, nsize);
          v := v[..nsize];
        }
      } else if granted {
        GrowEmpty(v, nsize - osize);
        v := v + seq(nsize - osize, _ => []);
        v := TableRehash(h, v, osize, nsize);
      }
      hash := v;
    }

    /** 'luaS_remove' */
    method Remove(ts: TString)
      requires Valid() && ts in All(hash)
      modifies this`hash, this`nuse
      ensures Valid() && All(hash) == old(All(hash)) - multiset{ts} && |hash| == old(|hash|)
    {
      hide All, Unique;
      var b := h(ts.text) % |hash|;
      ghost var j, a := InAll(hash, ts);
      assert InBucket(h, hash[j], |hash|, j);
      var chain := hash[b];
      var i := 0;
      while chain[i] != ts
        invariant 0 <= i <= a < |chain|
        decreases a - i
      {
        i := i + 1;
      }
      TakeOut(h, hash, b, i);
      hash := hash[b := chain[..i] + chain[i + 1..]];
      nuse := nuse - 1;
    }

    /** 'internshrstr': the one object with that content, made if there was none. */
    method Intern(text: string, granted: bool) returns (ts: TString)
      requires Valid()
      modifies this
      ensures Valid() && ts.text == text && ts in All(hash)
      ensures if exists x :: x in old(All(hash)) && x.text == text
              then All(hash) == old(All(hash)) && |hash| == old(|hash|)
              else All(hash) == old(All(hash)) + multiset{ts} && ts !in old(All(hash))
      ensures (forall x :: x in old(All(hash)) ==> x.text != text) ==>
        |hash| == (if granted && old(nuse >= |hash| && |hash| <= MAXSTRTB / 2) then 2 * old(|hash|) else old(|hash|))
    {
      var found := Search(text);
      if found.Some? {
        return found.value;
      }
      if nuse >= |hash| && |hash| <= MAXSTRTB / 2 {
        Resize(|hash| * 2, granted);
      }
      ts := Add(text);
    }

    method Search(text: string) returns (found: Option<TString>)
      requires Valid()
      ensures found.Some? ==> found.value in All(hash) && found.value.text == text
      ensures found.None? ==> forall x :: x in All(hash) ==> x.text != text
    {
      var b := h(text) % |hash|;
      var chain := hash[b];
      var i := 0;
      while i < |chain|
        invariant 0 <= i <= |chain| && forall a :: 0 <= a < i ==> chain[a].text != text
      {
        if chain[i].text == text {
          AllHas(hash, b, i);
          return Some(chain[i]);
        }
        i := i + 1;
      }
      forall x | x in All(hash)
        ensures x.text != text
      {
        var j, a := InAll(hash, x);
        assert InBucket(h, hash[j], |hash|, j);
      }
      return None;
    }

    method Add(text: string) returns (ts: TString)
      requires Valid() && forall x :: x in All(hash) ==> x.text != text
      modifies this
      ensures Valid() && ts.text == text && ts !in old(All(hash)) && All(hash) == old(All(hash)) + multiset{ts} && |hash| == old(|hash|)
    {
      hide All, InBucket;
      ts := TString(nextId, text);
      nextId := nextId + 1;
      var b := h(text) % |hash|;
      AllPrepend(hash, b, ts);
      PutIn(h, hash, ts);
      hash := hash[b := [ts] + hash[b]];
      nuse := nuse + 1;
    }
  }

  lemma PutIn(h: Hash, v: Buckets, x: TString)
    requires |v| > 0 && Placed(h, v, |v|)
    ensures var b := h(x.text) % |v|; Placed(h, v[b := [x] + v[b]], |v|)
  {
    PlaceOne(h, v, x, |v|, |v|, |v|);
  }

  lemma TakeOut(h: Hash, v: Buckets, b: nat, i: nat)
    requires |v| > 0 && Placed(h, v, |v|) && Unique(All(v)) && b < |v| && i < |v[b]|
    ensures var v2 := v[b := v[b][..i] + v[b][i + 1..]];
      && Placed(h, v2, |v|) && All(v2) == All(v) - multiset{v[b][i]} && Unique(All(v2))
      && |All(v2)| == |All(v)| - 1
  {
    hide All;
    AllTake(v, b, i);
    var v2 := v[b := v[b][..i] + v[b][i + 1..]];
    PlacedLess(h, v, b, v[b][..i] + v[b][i + 1..]);
    assert All(v2) == All(v) - multiset{v[b][i]};
  }

  lemma AllTake(v: Buckets, b: nat, i: nat)
    requires b < |v| && i < |v[b]|
    ensures All(v) == All(v[b := v[b][..i] + v[b][i + 1..]]) + multiset{v[b][i]}
  {
    hide All;
    var chain, x := v[b], v[b][i];
    var shorter := chain[..i] + chain[i + 1..];
    AllUpdate(v, b, shorter);
    assert chain == chain[..i] + [x] + chain[i + 1..];
    assert multiset(chain) == multiset(shorter) + multiset{x};
    var v2 := v[b := shorter];
    assert All(v2) + multiset(chain) == All(v2) + multiset{x} + multiset(shorter);
    Cancel(All(v), All(v2) + multiset{x}, multiset(shorter));
  }

  lemma PlacedLess(h: Hash, v: Buckets, b: nat, chain: seq<TString>)
    requires |v| > 0 && Placed(h, v, |v|) && b < |v| && forall x :: x in chain ==> x in v[b]
    ensures Placed(h, v[b := chain], |v|)
  {
    var v2 := v[b := chain];
    forall j | 0 <= j < |v2|
      ensures InBucket(h, v2[j], |v|, j)
    {
      assert InBucket(h, v[j], |v|, j);
      if j == b {
        forall a | 0 <= a < |chain|
          ensures h(chain[a].text) % |v| == b
        {
          assert chain[a] in v[b];
        }
      }
    }
  }

  lemma CutEmpty(h: Hash, v: Buckets, n: nat)
    requires n <= |v| && Placed(h, v, n) && forall j :: n <= j < |v| ==> v[j] == []
    ensures All(v[..n]) == All(v) && Placed(h, v[..n], n)
  {
    AllAppend(v[..n], v[n..]);
    AllEmpty(v[n..]);
    assert v[..n] + v[n..] == v;
  }

  lemma GrowEmpty(v: Buckets, k: nat)
    ensures All(v + seq(k, _ => [])) == All(v)
  {
    var more: Buckets := seq(k, _ => []);
    AllAppend(v, more);
    AllEmpty(more);
  }
}
