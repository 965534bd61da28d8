/** Whole runs of table operations, against a plain map. */
module TableRuns {
  import opened Options
  import opened TableHash
  import opened TableBits
  import opened TableContents
  import opened LuaTable

  datatype Op<V> =
    | SetOp(key: RawKey, v: Option<V>, hashGranted: bool, arrayGranted: bool)
    | GetOp(key: RawKey)
    | LenOp

  datatype Answer<V> = SetAnswer(o: Outcome) | GetAnswer(v: Option<V>) | LenAnswer(n: nat)

  ghost function Find<V>(m: map<Key, V>, k: Key): Option<V> {
    if k in m then Some(m[k]) else None
  }

  /** The reference: one operation on a map, with the answers it allows. */
  ghost predicate Allowed<V>(m: map<Key, V>, op: Op<V>, a: Answer<V>) {
    match op
    case SetOp(key, v, hg, ag) =>
      && a.SetAnswer? && (key.NilKey? <==> a.o == IndexIsNil) && (key.NaNKey? <==> a.o == IndexIsNaN)
      && (hg && ag && Normal(key).Some? && |m| < Pow2(30) ==> a.o == Done)
    case GetOp(key) =>
      a == GetAnswer(if Normal(key).Some? then Find(m, Normal(key).value) else None)
    case LenOp =>
      && a.LenAnswer? && a.n <= MAXINTEGER
      && (a.n == 0 || IntKey(a.n) in m) && (a.n == MAXINTEGER || IntKey(a.n + 1) !in m)
  }

  ghost function Next<V>(m: map<Key, V>, op: Op<V>, a: Answer<V>): map<Key, V> {
    if op.SetOp? && a == SetAnswer(Done) && Normal(op.key).Some? then
      if op.v.Some? then m[Normal(op.key).value := op.v.value] else m - {Normal(op.key).value}
    else m
  }

  /** A float with an integral value and that integer are one key, nil and NaN are none. */
  lemma FloatsAreIntegers<V>(m: map<Key, V>, i: int, v: Option<V>, hg: bool, ag: bool, a: Answer<V>, b: Answer<V>)
    ensures a == SetAnswer(Done) && Allowed(Next(m, SetOp(FloatKey(i), v, hg, ag), a), GetOp(PlainKey(IntKey(i))), b) ==> b == GetAnswer(v)
    ensures a == SetAnswer(Done) && Allowed(Next(m, SetOp(PlainKey(IntKey(i)), v, hg, ag), a), GetOp(FloatKey(i)), b) ==> b == GetAnswer(v)
    ensures Allowed(m, GetOp(FloatKey(i)), b) <==> Allowed(m, GetOp(PlainKey(IntKey(i))), b)
    ensures Allowed(m, GetOp(NilKey), b) || Allowed(m, GetOp(NaNKey), b) ==> b == GetAnswer(None)
    ensures Allowed(m, SetOp(NilKey, v, hg, ag), b) ==> b == SetAnswer(IndexIsNil)
    ensures Allowed(m, SetOp(NaNKey, v, hg, ag), b) ==> b == SetAnswer(IndexIsNaN)
  {
  }

  /** The answers are those of a plain map that starts as 'm'. */
  ghost predicate Explained<V>(m: map<Key, V>, ops: seq<Op<V>>, answers: seq<Answer<V>>)
    decreases |ops|
  {
    && |answers| == |ops|
    && (ops == [] || (Allowed(m, ops[0], answers[0])
                      && Explained(Next(m, ops[0], answers[0]), ops[1..], answers[1..])))
  }

  ghost function FinalMap<V>(m: map<Key, V>, ops: seq<Op<V>>, answers: seq<Answer<V>>): map<Key, V>
    requires |answers| == |ops|
    decreases |ops|
  {
    if ops == [] then m else FinalMap(Next(m, ops[0], answers[0]), ops[1..], answers[1..])
  }

  ghost predicate Represents<V>(t: Table<V>, m: map<Key, V>)
    reads t
  {
    t.Valid() && forall k :: t.At(k) == Find(m, k)
  }

  lemma SameSize<V>(t: Table<V>, m: map<Key, V>)
    requires Represents(t, m)
    ensures |m| == |Bound(t.arr, t.node)|
  {
    hide HashInv, HashKeysOk, CursorAt, LimitOk, Bound, Lookup;
    forall k: Key
      ensures k in Bound(t.arr, t.node) <==> k in m
    {
      HashInvKeys(t.node, t.rank, t.pos);
      BoundMeaning(t.arr, t.node, k);
      assert t.At(k) == Find(m, k);
    }
    assert m.Keys == Bound(t.arr, t.node);
    assert |m| == |m.Keys|;
  }

  method RunOne<V>(t: Table<V>, op: Op<V>, ghost m: map<Key, V>) returns (a: Answer<V>)
    requires Represents(t, m) && (!op.LenOp? ==> InRange(op.key))
    modifies t
    ensures Allowed(m, op, a) && Represents(t, Next(m, op, a))
  {
    hide HashInv, HashKeysOk, CursorAt, LimitOk, Bound, Lookup, Pow2, InRange, Normal;
    SameSize(t, m);
    match op {
      case SetOp(key, v, hg, ag) =>
        var o := t.Set(key, v, hg, ag);
        a := SetAnswer(o);
      case GetOp(key) =>
        var v := t.Get(key);
        a := GetAnswer(v);
      case LenOp =>
        var n := t.GetN();
        a := LenAnswer(n);
    }
  }

  /** For any hash function and any run of sets, gets and length queries, the answers are
      those of a plain map. */
  method Run<V>(t: Table<V>, ops: seq<Op<V>>, ghost m: map<Key, V>) returns (answers: seq<Answer<V>>)
    requires Represents(t, m) && forall i :: 0 <= i < |ops| && !ops[i].LenOp? ==> InRange(ops[i].key)
    modifies t
    ensures Explained(m, ops, answers) && Represents(t, FinalMap(m, ops, answers))
  {
    hide Represents, Allowed, Next, InRange;
    if ops == [] {
      return [];
    }
    var a := RunOne(t, ops[0], m);
    var rest := Run(t, ops[1..], Next(m, ops[0], a));
    answers := [a] + rest;
    assert answers[1..] == rest;
  }
}
