/** The ordered map of the INI structure: a vector of entries and an index of their positions. */
module IniMap {
  import opened IniText
  import opened Ini
  import opened IniFile
  import opened IniMeaning

  /** The entries without the one at 'i'. */
  function Without<T>(es: Entries<T>, i: nat): Entries<T>
    requires i < |es|
  {
    es[..i] + es[i + 1..]
  }

  ghost predicate Agrees<T>(data: Entries<T>, index: map<string, nat>) {
    && (forall i :: 0 <= i < |data| ==> data[i].0 in index && index[data[i].0] == i)
    && (forall k :: k in index ==> index[k] < |data| && data[index[k]].0 == k)
  }

  /** The index after the entry at 'i' is gone. */
  function Shifted(index: map<string, nat>, key: string, i: nat): map<string, nat> {
    map x | x in index && x != key :: if index[x] > i then index[x] - 1 else index[x]
  }

  lemma ShiftedAgrees<T>(data: Entries<T>, index: map<string, nat>, key: string)
    requires Agrees(data, index) && key in index
    ensures Agrees(Without(data, index[key]), Shifted(index, key, index[key]))
    ensures !HasKey(Without(data, index[key]), key)
  {
    var i := index[key];
    var data2, index2 := Without(data, i), Shifted(index, key, i);
    assert forall j :: 0 <= j < |data2| ==> data2[j] == data[if j < i then j else j + 1];
    forall j | 0 <= j < |data2|
      ensures data2[j].0 in index2 && index2[data2[j].0] == j && data2[j].0 != key
    {
      assert data2[j] == data[if j < i then j else j + 1];
    }
    forall k | k in index2
      ensures index2[k] < |data2| && data2[index2[k]].0 == k
    {
      assert data[index[k]].0 == k && index[k] != i;
    }
  }

  ghost predicate AllStored<T>(data: Entries<T>) {
    forall i :: 0 <= i < |data| ==> Stored(data[i].0)
  }

  /** Some entry belongs to the key. */
  ghost predicate HasSame<T>(data: Entries<T>, key: string) {
    exists i :: 0 <= i < |data| && SameKey(data[i].0, key)
  }

  /** The entries of a key are those that are stored under it. */
  lemma SameEntries<T>(data: Entries<T>, key: string)
    requires AllStored(data)
    ensures forall i :: 0 <= i < |data| ==> (SameKey(data[i].0, key) <==> data[i].0 == Norm(key))
    ensures Stored(Norm(key)) && SameKey(Norm(key), key)
  {
    NormStored(key);
    forall i | 0 <= i < |data|
      ensures SameKey(data[i].0, key) <==> data[i].0 == Norm(key)
    {
      StoredSame(data[i].0, key);
    }
  }

  /** Exactly the entry of the key has got the value, at its place or at the end. */
  ghost predicate SetUnder<T>(before: Entries<T>, data: Entries<T>, key: string, v: T) {
    && (exists i :: 0 <= i < |data| && SameKey(data[i].0, key) && data[i].1 == v)
    && |data| == |before| + (if HasSame(before, key) then 0 else 1)
    && forall i :: 0 <= i < |before| ==> data[i].0 == before[i].0 && (!SameKey(before[i].0, key) ==> data[i] == before[i])
  }

  lemma SetIsUnder<T>(data: Entries<T>, key: string, v: T)
    requires AllStored(data) && DistinctKeys(data)
    ensures SetUnder(data, SetEntry(data, Norm(key), v), key, v) && Stored(Norm(key))
  {
    SameEntries(data, key);
    var k, r := Norm(key), SetEntry(data, Norm(key), v);
    if HasKey(data, k) {
      var i :| 0 <= i < |data| && data[i].0 == k;
      assert r == data[i := (k, v)];
      ChangedUnder(data, i, key, v);
    } else {
      assert r == data + [(k, v)];
      AddedUnder(data, key, k, v);
    }
  }

  lemma ChangedUnder<T>(data: Entries<T>, i: nat, key: string, v: T)
    requires i < |data| && SameKey(data[i].0, key)
    requires forall j :: 0 <= j < |data| && SameKey(data[j].0, key) ==> data[j].0 == data[i].0
    requires DistinctKeys(data)
    ensures SetUnder(data, data[i := (data[i].0, v)], key, v)
  {
    hide SameKey;
    var r := data[i := (data[i].0, v)];
    assert SameKey(r[i].0, key) && r[i].1 == v;
    assert HasSame(data, key);
  }

  lemma AddedUnder<T>(data: Entries<T>, key: string, k: string, v: T)
    requires SameKey(k, key) && forall j :: 0 <= j < |data| ==> !SameKey(data[j].0, key)
    ensures SetUnder(data, data + [(k, v)], key, v)
  {
    hide SameKey;
    var r := data + [(k, v)];
    assert SameKey(r[|data|].0, key) && r[|data|].1 == v;
  }

  lemma AgreesAdded<T>(data: Entries<T>, index: map<string, nat>, k: string, v: T)
    requires Agrees(data, index) && AllStored(data) && Stored(k) && k !in index
    ensures Agrees(data + [(k, v)], index[k := |data|]) && AllStored(data + [(k, v)])
  {
    hide Stored;
  }

  lemma AgreesChanged<T>(data: Entries<T>, index: map<string, nat>, k: string, v: T)
    requires Agrees(data, index) && AllStored(data) && k in index
    ensures Agrees(data[index[k] := (k, v)], index) && AllStored(data[index[k] := (k, v)])
  {
    hide Stored;
  }

  class Map<T> {
    var data: Entries<T>
    var index: map<string, nat>

    /** The index names exactly the positions of the keys, which are stored in lower case. */
    ghost predicate Valid()
      reads this
    {
      Agrees(data, index) && AllStored(data)
    }

    lemma ValidKeys()
      requires Valid()
      ensures DistinctKeys(data) && forall k :: k in index <==> HasKey(data, k)
    {
    }

    constructor ()
      ensures Valid() && data == []
    {
      data, index := [], map[];
    }

    method Has(key: string) returns (r: bool)
      requires Valid()
      ensures r <==> HasKey(data, Norm(key))
      ensures r <==> HasSame(data, key)
    {
      ValidKeys();
      SameEntries(data, key);
      r := Norm(key) in index;
    }

    method Get(key: string, empty: T) returns (v: T)
      requires Valid()
      ensures v == Find(data, Norm(key), empty)
      ensures forall i :: 0 <= i < |data| && SameKey(data[i].0, key) ==> v == data[i].1
      ensures !HasSame(data, key) ==> v == empty
    {
      ValidKeys();
      SameEntries(data, key);
      hide SameKey, Stored, Norm;
      var k := Norm(key);
      FindAt(data, k, empty);
      v := if k in index then data[index[k]].1 else empty;
    }

    /** 'operator[]': the position of the key, which is added with an empty value if missing. */
    method At(key: string, empty: T) returns (i: nat)
      requires Valid()
      modifies this
      ensures Valid() && data == Touch(old(data), Norm(key), empty)
      ensures i < |data| && data[i].0 == Norm(key) && SameKey(data[i].0, key)
      ensures if HasSame(old(data), key) then data == old(data) else data == old(data) + [(data[i].0, empty)]
    {
      ValidKeys();
      SameEntries(data, key);
      hide SameKey, Stored, Norm;
      var k := Norm(key);
      if k in index {
        TouchOld(data, k, empty);
        return index[k];
      }
      TouchNew(data, k, empty);
      AgreesAdded(data, index, k, empty);
      i := |data|;
      index := index[k := i];
      data := data + [(k, empty)];
    }

    method Set(key: string, v: T)
      requires Valid()
      modifies this
      ensures Valid() && data == SetEntry(old(data), Norm(key), v)
      ensures SetUnder(old(data), data, key, v)
    {
      ValidKeys();
      SetIsUnder(data, key, v);
      var k := Norm(key);
      if k in index {
        assert data[index[k]].0 == k;
        AgreesChanged(data, index, k, v);
        hide *;
        data := data[index[k] := (k, v)];
      } else {
        AgreesAdded(data, index, k, v);
        hide *;
        index := index[k := |data|];
        data := data + [(k, v)];
      }
    }

    /** 'remove': later entries move down, and so do their positions in the index. */
    method Remove(key: string) returns (removed: bool)
      requires Valid()
      modifies this
      ensures Valid() && (removed <==> HasKey(old(data), Norm(key))) && !HasKey(data, Norm(key))
      ensures !HasSame(data, key) && (removed <==> HasSame(old(data), key))
      ensures !removed ==> data == old(data)
      ensures removed ==> exists i: nat :: i < |old(data)| && old(data)[i].0 == Norm(key) && data == Without(old(data), i)
    {
      ValidKeys();
      SameEntries(data, key);
      hide SameKey, Stored, Norm;
      var k := Norm(key);
      if k !in index {
        return false;
      }
      var i := index[k];
      assert data[i].0 == k;
      ShiftedAgrees(data, index, k);
      SameEntries(Without(data, i), key);
      hide Agrees;
      data := data[..i] + data[i + 1..];
      index := map x | x in index && x != k :: if index[x] > i then index[x] - 1 else index[x];
      assert data == Without(old(data), i) && index == Shifted(old(index), k, i);
      return true;
    }
  }

  /** A value set under one key is the value got under another exactly if both are the same up to
      case and blanks around them; other keys keep their values. */
  method SetThenGet<T>(m: Map<T>, key: string, v: T, other: string, empty: T) returns (before: T, after: T)
    requires m.Valid()
    modifies m
    ensures m.Valid() && after == if SameKey(key, other) then v else before
  {
    NormSame(key, other);
    before := m.Get(other, empty);
    SetFinds(m.data, Norm(key), v, Norm(other), empty);
    m.Set(key, v);
    after := m.Get(other, empty);
  }

  lemma {:induction false} SetFinds<T>(es: Entries<T>, key: string, v: T, other: string, empty: T)
    ensures Find(SetEntry(es, key, v), other, empty) == if key == other then v else Find(es, other, empty)
  {
    if es != [] && es[0].0 != key {
      SetFinds(es[1..], key, v, other, empty);
    }
  }

  lemma {:induction false} FindAt<T>(es: Entries<T>, key: string, empty: T)
    requires DistinctKeys(es)
    ensures !HasKey(es, key) ==> Find(es, key, empty) == empty
    ensures forall i :: 0 <= i < |es| && es[i].0 == key ==> Find(es, key, empty) == es[i].1
  {
    if es != [] {
      assert forall i :: 0 <= i < |es| - 1 ==> es[1..][i] == es[i + 1];
      FindAt(es[1..], key, empty);
    }
  }

  lemma {:induction false} TouchOld<T>(es: Entries<T>, key: string, empty: T)
    requires HasKey(es, key)
    ensures Touch(es, key, empty) == es
  {
    if es[0].0 != key {
      var i :| 0 <= i < |es| && es[i].0 == key;
      assert es[1..][i - 1].0 == key;
      TouchOld(es[1..], key, empty);
    }
  }
}
