/** The atomic phase: remarking open upvalues, and clearing weak tables. */
module GcAtomic {
  import opened Options
  import opened GcHeap
  import opened GcSteps
  import opened GcMarking

  function OpenUpvalues(s: State): set<Id> {
    set u | u in MarkedSet(s) && u in s.heap && s.heap[u].OpenUp?
  }

  /** Entering the atomic phase: 'grayagain' and the open upvalues are pending. */
  lemma AtomicStart(s: State, s1: State)
    requires s.color.Keys == s.heap.Keys && TriColor(s)
    requires s1 == s.(phase := Atomic, again := {})
    ensures AtomicLists(s1, s.allweak) && Apart(s1, s.again + OpenUpvalues(s))
    ensures Settled(s1, s.allweak, s1.gray + (s.again + OpenUpvalues(s)))
    ensures MarkedSet(s1) == MarkedSet(s)
  {
    assert MarkedSet(s1) == MarkedSet(s);
    forall o | o in MarkedSet(s1) && o in s1.heap && o !in s1.gray + (s.again + OpenUpvalues(s))
      ensures Done(s1, s.allweak, o)
    {
      assert o in GraySet(s) || o in BlackSet(s);
    }
    forall o | o in OpenUpvalues(s)
      ensures o !in s.gray && o !in s.allweak
    {
      assert o in s.gray || o in s.allweak ==> o in GraySet(s);
    }
    forall o | o in s.gray
      ensures o in GraySet(s) && Linkable(s.heap[o])
    {
    }
  }

  lemma MarksSettles(s: State, parked: set<Id>, skip: set<Id>, s2: State)
    requires AtomicLists(s, parked) && Settled(s, parked, s.gray + skip) && Apart(s, skip) && Marks(s, s2)
    ensures AtomicLists(s2, parked) && Settled(s2, parked, s2.gray + skip) && Apart(s2, skip)
  {
    hide Done, FreshMark;
    MarksKeepsAtomicLists(s, parked, s2);
    MarksGrow(s, s2);
    forall o | o in MarkedSet(s2) && o in s.heap && o !in s2.gray + skip
      ensures Done(s2, parked, o)
    {
      if o in MarkedSet(s) {
        DoneMono(s, parked, o, s2);
      } else {
        assert o in Fresh(s, s2);
        FreshIsDone(s.heap, s2, parked, o);
      }
    }
  }

  /** Threads leave 'twups' only if they are unmarked or have no open upvalues. */
  lemma TwupsShrinks(s: State, parked: set<Id>, pending: set<Id>, th: Id, s2: State)
    requires Settled(s, parked, pending) && s2 == s.(twups := s.twups - {th})
    requires th !in MarkedSet(s) || !HasOpenUpvalues(s.heap, th)
    ensures Settled(s2, parked, pending) && MarkedSet(s2) == MarkedSet(s)
  {
    hide HasOpenUpvalues;
    assert MarkedSet(s2) == MarkedSet(s);
    forall o | o in MarkedSet(s2) && o in s2.heap && o !in pending
      ensures Done(s2, parked, o)
    {
      assert Done(s, parked, o);
    }
  }

  /** An open upvalue is accounted for: its content is marked, or its thread is. */
  ghost predicate Remarked(s: State, u: Id)
    requires u in s.heap && s.heap[u].OpenUp?
  {
    Refs(s.heap, u) <= MarkedSet(s) || s.heap[u].thread in MarkedSet(s)
  }

  /** Once the marked threads are done, so are the upvalues open on them. */
  lemma UpvaluesSettle(s: State, parked: set<Id>, ups: set<Id>)
    requires Settled(s, parked, ups)
    requires forall u :: u in ups ==> u in s.heap && s.heap[u].OpenUp? && UpvalueOk(s.heap, u) && Remarked(s, u)
    ensures Settled(s, parked, {})
  {
    forall o | o in MarkedSet(s) && o in s.heap
      ensures Done(s, parked, o)
    {
      if o in ups && s.heap[o].thread in MarkedSet(s) {
        var th := s.heap[o].thread;
        assert s.heap[th].stack[s.heap[o].slot] in s.heap[th].stack;
        assert Refs(s.heap, o) <= StackRefs(s.heap[th].stack);
        assert Done(s, parked, th);
      }
    }
  }

  lemma UpvalueRefs(h: Heap, u: Id)
    requires HeapOk(h) && u in h && h[u].OpenUp?
    ensures Refs(h, u) == RefSet(UpContent(h, u)) == StrongRefs(h, u) && Refs(h, u) <= h.Keys
    ensures UpContent(h, u).Some? ==> Rank(h[UpContent(h, u).value]) < 3
  {
    assert Refs(h, u) <= h.Keys;
  }

  lemma SpreadsAdvances(s: State, parked: set<Id>, s2: State)
    requires Spreads(s, parked, s2)
    ensures Advances(s, parked, s2) && s2.twups == s.twups
  {
    MarksGrow(s, s2);
  }

  lemma ListsSame(s: State, parked: set<Id>, s2: State, skip: set<Id>)
    requires AtomicLists(s, parked) && Apart(s, skip) && s2 == s.(twups := s2.twups)
    ensures AtomicLists(s2, parked) && Apart(s2, skip)
  {
    assert MarkedSet(s2) == MarkedSet(s);
  }

  lemma RemarkAdvances(s0: State, parked: set<Id>, s1: State, s2: State, s3: State)
    requires Advances(s0, parked, s1.(twups := s0.twups)) && s2 == s1.(twups := s2.twups)
    requires Advances(s2, parked, s3)
    ensures Advances(s0, parked, s3.(twups := s0.twups)) && MarkedSet(s1) <= MarkedSet(s3)
    ensures MarkedSet(s3.(twups := s0.twups)) == MarkedSet(s3)
  {
    hide WithinBut, ClosedBut;
    var a, b, c := s1.(twups := s0.twups), s2.(twups := s0.twups), s3.(twups := s0.twups);
    assert MarkedSet(a) == MarkedSet(s1) == MarkedSet(s2) && MarkedSet(c) == MarkedSet(s3);
    assert Advances(a, parked, c);
    AdvancesTransitive(s0, parked, a, c);
  }

  // ----- clearing weak tables -----

  function WeakPart(e: Entry, byKey: bool): Ref {
    if byKey then e.key else e.val
  }

  function PartsIn(es: set<Entry>, byKey: bool): set<Id> {
    if byKey then Keys(es) else Vals(es)
  }

  /** The weak keys or values of the tables in 'l'. */
  function Parts(h: Heap, l: set<Id>, byKey: bool): set<Id> {
    set t, x | t in l && t in h && h[t].Table? && x in PartsIn(h[t].entries, byKey) :: x
  }

  /** Tables of 'l' keep the entries whose weak part is in 'c'. */
  function Filter(h: Heap, l: set<Id>, byKey: bool, c: set<Id>): Heap {
    map o | o in h ::
      if o in l && h[o].Table? then
        h[o].(entries := set e | e in h[o].entries && RefSet(WeakPart(e, byKey)) <= c)
      else h[o]
  }

  /** Clearing marks the strings among the parts it looks at, and nothing else. */
  ghost predicate MarksStrings(s: State, parts: set<Id>, s2: State) {
    && s2 == s.(heap := s2.heap, color := s2.color)
    && s2.color.Keys == s.color.Keys
    && MarkedSet(s2) == MarkedSet(s) + Strings(s.heap, parts)
    && (forall x :: x in s.color && !Marked(s2, x) ==> s2.color[x] == s.color[x])
  }

  lemma ClearStep(s0: State, s1: State, s2: State, done: set<Entry>, e: Entry, byKey: bool)
    requires MarksStrings(s0, PartsIn(done, byKey), s1) && s1.heap == s0.heap && s1.color.Keys == s0.heap.Keys
    requires Marks(s1, s2) && Fresh(s1, s2) <= Strings(s0.heap, RefSet(WeakPart(e, byKey)))
    requires Strings(s0.heap, RefSet(WeakPart(e, byKey))) <= MarkedSet(s2)
    ensures MarksStrings(s0, PartsIn(done + {e}, byKey), s2)
    ensures forall x :: x in s0.heap && !s0.heap[x].Str? ==> (x in MarkedSet(s2) <==> x in MarkedSet(s1))
    ensures Strings(s0.heap, PartsIn(done, byKey)) <= MarkedSet(s1) <= MarkedSet(s2)
  {
    hide FreshMark;
    MarksGrow(s1, s2);
    assert PartsIn(done + {e}, byKey) == PartsIn(done, byKey) + RefSet(WeakPart(e, byKey));
    assert LinkableOf(s1.heap, Fresh(s1, s2)) == {};
    assert s1.gray + {} == s1.gray;
    assert s2 == s1.(color := s2.color);
    assert MarkedSet(s2) == MarkedSet(s1) + Fresh(s1, s2);
    forall x | x in s0.heap && !s0.heap[x].Str?
      ensures x in MarkedSet(s2) <==> x in MarkedSet(s1)
    {
      assert x !in Strings(s0.heap, RefSet(WeakPart(e, byKey)));
      assert x !in Fresh(s1, s2);
    }
  }

  /** The entries kept so far, as the strings among their parts get marked. */
  lemma KeptStep(h: Heap, done: set<Entry>, e: Entry, byKey: bool, kept: set<Entry>, m1: set<Id>, m2: set<Id>, cleared: bool)
    requires kept == set x | x in done && RefSet(WeakPart(x, byKey)) <= m1
    requires PartsIn(done, byKey) + RefSet(WeakPart(e, byKey)) <= h.Keys
    requires m1 <= m2 && Strings(h, PartsIn(done, byKey)) <= m1
    requires forall x :: x in h && !h[x].Str? ==> (x in m2 <==> x in m1)
    requires cleared ==> var r := WeakPart(e, byKey); r.Some? && !h[r.value].Str? && r.value !in m1
    requires !cleared ==> RefSet(WeakPart(e, byKey)) <= m2
    ensures (if cleared then kept else kept + {e})
      == set x | x in done + {e} && RefSet(WeakPart(x, byKey)) <= m2
  {
    forall x | x in done
      ensures RefSet(WeakPart(x, byKey)) <= m2 <==> RefSet(WeakPart(x, byKey)) <= m1
    {
      assert RefSet(WeakPart(x, byKey)) <= PartsIn(done, byKey);
    }
  }

  lemma PartsOne(h: Heap, t: Id, byKey: bool)
    requires t in h && h[t].Table?
    ensures Parts(h, {t}, byKey) == PartsIn(h[t].entries, byKey)
  {
  }

  lemma TableCleared(s0: State, s: State, t: Id, byKey: bool, kept: set<Entry>, s2: State)
    requires t in s0.heap && s0.heap[t].Table? && s.heap == s0.heap
    requires MarksStrings(s0, PartsIn(s0.heap[t].entries, byKey), s)
    requires kept == set e | e in s0.heap[t].entries && RefSet(WeakPart(e, byKey)) <= MarkedSet(s)
    requires s2 == s.(heap := s.heap[t := s.heap[t].(entries := kept)])
    ensures MarksStrings(s0, Parts(s0.heap, {t}, byKey), s2)
    ensures s2.heap == Filter(s0.heap, {t}, byKey, MarkedSet(s2))
  {
    PartsOne(s0.heap, t, byKey);
    assert MarkedSet(s2) == MarkedSet(s);
  }

  lemma FilterHeapOk(h: Heap, l: set<Id>, byKey: bool, c: set<Id>)
    requires HeapOk(h)
    ensures HeapOk(Filter(h, l, byKey, c))
  {
    var h2 := Filter(h, l, byKey, c);
    forall o | o in h2
      ensures Refs(h2, o) <= h2.Keys && Typed(h2, o)
    {
      assert Refs(h, o) <= h.Keys && Typed(h, o);
      if h[o].Thread? {
        assert forall u :: OpenOn(h2, u, o) <==> OpenOn(h, u, o);
      } else if h[o].OpenUp? {
        assert UpContent(h2, o) == UpContent(h, o);
      }
    }
  }

  lemma PartsAllocated(h: Heap, l: set<Id>, byKey: bool)
    requires HeapOk(h)
    ensures Parts(h, l, byKey) <= h.Keys
  {
    forall t, x | t in l && t in h && h[t].Table? && x in PartsIn(h[t].entries, byKey)
      ensures x in h
    {
      assert x in Refs(h, t);
    }
  }

  lemma PartMarkedEarly(h: Heap, parts: set<Id>, c: set<Id>, c2: set<Id>, x: Id)
    requires c <= c2 && Strings(h, parts) <= c && x in parts && x in h
    requires c2 - c <= Strings(h, h.Keys)
    ensures x in c2 <==> x in c
  {
    assert x in c2 <==> x in c || x in c2 - c;
  }

  /** Filtering with more marks, all of them on other strings, keeps the same entries. */
  lemma FilterSame(h: Heap, l: set<Id>, byKey: bool, c: set<Id>, c2: set<Id>)
    requires c <= c2 && Strings(h, Parts(h, l, byKey)) <= c && Parts(h, l, byKey) <= h.Keys
    requires c2 - c <= Strings(h, h.Keys)
    ensures Filter(h, l, byKey, c) == Filter(h, l, byKey, c2)
  {
    forall o, e | o in l && o in h && h[o].Table? && e in h[o].entries
      ensures RefSet(WeakPart(e, byKey)) <= c <==> RefSet(WeakPart(e, byKey)) <= c2
    {
      var r := WeakPart(e, byKey);
      if r.Some? {
        assert r.value in PartsIn(h[o].entries, byKey);
        assert r.value in Parts(h, l, byKey);
        PartMarkedEarly(h, Parts(h, l, byKey), c, c2, r.value);
      }
    }
    forall o | o in l && o in h && h[o].Table?
      ensures (set e | e in h[o].entries && RefSet(WeakPart(e, byKey)) <= c)
        == set e | e in h[o].entries && RefSet(WeakPart(e, byKey)) <= c2
    {
    }
  }

  lemma FilterMore(h: Heap, l: set<Id>, t: Id, byKey: bool, c: set<Id>)
    requires t in h && t !in l
    ensures Filter(Filter(h, l, byKey, c), {t}, byKey, c) == Filter(h, l + {t}, byKey, c)
    ensures Parts(h, l + {t}, byKey) == Parts(h, l, byKey) + Parts(h, {t}, byKey)
    ensures Parts(Filter(h, l, byKey, c), {t}, byKey) == Parts(h, {t}, byKey)
  {
  }

  lemma StringsFilter(h: Heap, l: set<Id>, byKey: bool, c: set<Id>, ids: set<Id>)
    ensures Strings(Filter(h, l, byKey, c), ids) == Strings(h, ids)
  {
  }

  /** One more table cleared. */
  lemma ClearListStep(s0: State, s1: State, s2: State, done: set<Id>, t: Id, byKey: bool)
    requires HeapOk(s0.heap) && s0.color.Keys == s0.heap.Keys && t in s0.heap && t !in done
    requires MarksStrings(s0, Parts(s0.heap, done, byKey), s1) && s1.heap == Filter(s0.heap, done, byKey, MarkedSet(s1))
    requires MarksStrings(s1, Parts(s1.heap, {t}, byKey), s2) && s2.heap == Filter(s1.heap, {t}, byKey, MarkedSet(s2))
    ensures MarksStrings(s0, Parts(s0.heap, done + {t}, byKey), s2)
    ensures s2.heap == Filter(s0.heap, done + {t}, byKey, MarkedSet(s2))
  {
    hide HeapOk, Filter, Parts;
    var h, c1, c2 := s0.heap, MarkedSet(s1), MarkedSet(s2);
    FilterMore(h, done, t, byKey, c1);
    FilterMore(h, done, t, byKey, c2);
    StringsFilter(h, done, byKey, c1, Parts(h, {t}, byKey));
    PartsAllocated(h, done, byKey);
    assert c2 - c1 <= Strings(h, h.Keys);
    FilterSame(h, done, byKey, c1, c2);
  }

  lemma ClearNone(s: State, byKey: bool)
    ensures MarksStrings(s, Parts(s.heap, {}, byKey), s)
    ensures s.heap == Filter(s.heap, {}, byKey, MarkedSet(s))
    ensures forall l: set<Id> :: l - l == {}
  {
    assert Parts(s.heap, {}, byKey) == {};
  }

  // ----- the result of the four clearing passes -----

  ghost predicate Clears(s: State, l: set<Id>, byKey: bool, s2: State) {
    MarksStrings(s, Parts(s.heap, l, byKey), s2) && s2.heap == Filter(s.heap, l, byKey, MarkedSet(s2))
  }

  /** Everything strongly accessible is marked. */
  ghost predicate ReadyToClear(s: State, parked: set<Id>) {
    HeapOk(s.heap) && AtomicLists(s, parked) && Settled(s, parked, {}) && Converged(s)
  }

  ghost predicate ClearingPasses(s: State, s1: State, s2: State, s3: State, s4: State) {
    && Clears(s, s.weak, false, s1)
    && Clears(s1, s.allweak, false, s2)
    && Clears(s2, s.ephemeron, true, s3)
    && Clears(s3, s.allweak, true, s4)
  }

  /** The passes look at the original tables: a list is untouched until its own pass,
      except that the values of 'allweak' go before its keys. */
  lemma PassParts(s: State, parked: set<Id>, s1: State, s2: State, s3: State, s4: State)
    requires AtomicLists(s, parked) && ClearingPasses(s, s1, s2, s3, s4)
    ensures Parts(s1.heap, s.allweak, false) == Parts(s.heap, s.allweak, false)
    ensures Parts(s2.heap, s.ephemeron, true) == Parts(s.heap, s.ephemeron, true)
    ensures Parts(s3.heap, s.allweak, true) == Parts(s2.heap, s.allweak, true)
    ensures forall t :: t in s.allweak ==> t in s1.heap && s1.heap[t] == s.heap[t] && t in s2.heap && t in s3.heap && s3.heap[t] == s2.heap[t]
    ensures forall t :: t in s.ephemeron ==> t in s2.heap && s2.heap[t] == s.heap[t]
  {
    hide Parts, Filter, MarksStrings;
    assert s.weak !! s.allweak && s.weak !! s.ephemeron && s.ephemeron !! s.allweak;
    assert s.weak + s.allweak + s.ephemeron <= s.heap.Keys;
    FilterApart(s.heap, s.weak, false, MarkedSet(s1), s.allweak);
    FilterApart(s.heap, s.weak, false, MarkedSet(s1), s.ephemeron);
    FilterApart(s1.heap, s.allweak, false, MarkedSet(s2), s.ephemeron);
    FilterApart(s2.heap, s.ephemeron, true, MarkedSet(s3), s.allweak);
  }

  lemma FilterApart(h: Heap, l: set<Id>, byKey: bool, c: set<Id>, l2: set<Id>)
    requires l !! l2
    ensures var h2 := Filter(h, l, byKey, c);
      && h2.Keys == h.Keys
      && (forall t :: t in l2 && t in h ==> h2[t] == h[t])
      && Parts(h2, l2, true) == Parts(h, l2, true) && Parts(h2, l2, false) == Parts(h, l2, false)
  {
  }

  lemma PassStrings(s: State, s1: State, s2: State, s3: State, s4: State)
    requires ClearingPasses(s, s1, s2, s3, s4)
    ensures forall ids: set<Id> :: Strings(s1.heap, ids) == Strings(s2.heap, ids) == Strings(s3.heap, ids) == Strings(s.heap, ids)
    ensures s4.heap.Keys == s3.heap.Keys == s2.heap.Keys == s1.heap.Keys == s.heap.Keys
    ensures MarkedSet(s) <= MarkedSet(s1) <= MarkedSet(s2) <= MarkedSet(s3) <= MarkedSet(s4)
  {
    hide Parts;
    forall ids: set<Id>
      ensures Strings(s1.heap, ids) == Strings(s2.heap, ids) == Strings(s3.heap, ids) == Strings(s.heap, ids)
    {
      StringsFilter(s.heap, s.weak, false, MarkedSet(s1), ids);
      StringsFilter(s1.heap, s.allweak, false, MarkedSet(s2), ids);
      StringsFilter(s2.heap, s.ephemeron, true, MarkedSet(s3), ids);
    }
  }

  lemma PassMarks(s: State, parked: set<Id>, s1: State, s2: State, s3: State, s4: State)
    requires ReadyToClear(s, parked) && ClearingPasses(s, s1, s2, s3, s4)
    ensures var h := s.heap;
      && MarkedSet(s1) == MarkedSet(s) + Strings(h, Parts(h, s.weak, false))
      && MarkedSet(s2) == MarkedSet(s1) + Strings(h, Parts(h, s.allweak, false))
      && MarkedSet(s3) == MarkedSet(s2) + Strings(h, Parts(h, s.ephemeron, true))
      && MarkedSet(s4) == MarkedSet(s3) + Strings(h, Parts(s2.heap, s.allweak, true))
    ensures MarkedSet(s4) - MarkedSet(s) <= Strings(s.heap, s.heap.Keys)
  {
    hide Parts, Filter, Settled, Converged, HeapOk;
    PassParts(s, parked, s1, s2, s3, s4);
    PassStrings(s, s1, s2, s3, s4);
  }

  lemma PartsContain(h: Heap, l: set<Id>, byKey: bool, o: Id)
    requires o in l && o in h && h[o].Table?
    ensures PartsIn(h[o].entries, byKey) <= Parts(h, l, byKey)
  {
    forall x | x in PartsIn(h[o].entries, byKey)
      ensures x in Parts(h, l, byKey)
    {
    }
  }

  /** The entries of a table of 'allweak' between its two passes. */
  lemma AllWeakBetween(s: State, parked: set<Id>, s1: State, s2: State, s3: State, s4: State, t: Id)
    requires AtomicLists(s, parked) && ClearingPasses(s, s1, s2, s3, s4) && t in s.allweak
    ensures t in s.heap && s.heap[t].Table? && t in s2.heap && s2.heap[t].Table?
    ensures s2.heap[t].entries == set e | e in s.heap[t].entries && RefSet(e.val) <= MarkedSet(s2)
  {
    hide Parts, MarksStrings;
    FilterApart(s.heap, s.weak, false, MarkedSet(s1), s.allweak);
    assert s1.heap[t] == s.heap[t];
  }

  lemma WithinValueStrings(s: State, parked: set<Id>, c: set<Id>)
    requires ReadyToClear(s, parked) && MarkedSet(s) <= c && ClosedBut(s.heap, parked, c)
    ensures Strings(s.heap, Parts(s.heap, s.weak, false)) <= c
    ensures Strings(s.heap, Parts(s.heap, s.allweak, false)) <= c
    ensures Strings(s.heap, Parts(s.heap, s.ephemeron, true)) <= c
  {
    forall t | t in s.weak || t in s.allweak || t in s.ephemeron
      ensures t in MarkedSet(s) && t in s.heap && t in c && Done(s, parked, t)
    {
    }
  }

  lemma WithinKeyStrings(s: State, parked: set<Id>, s1: State, s2: State, s3: State, s4: State, c: set<Id>)
    requires ReadyToClear(s, parked) && ClearingPasses(s, s1, s2, s3, s4)
    requires MarkedSet(s2) <= c && ClosedBut(s.heap, parked, c) && MarkedSet(s) <= c
    ensures Strings(s.heap, Parts(s2.heap, s.allweak, true)) <= c
  {
    hide MarksStrings, Filter, HeapOk, Converged;
    forall t, x | t in s.allweak && t in s2.heap && s2.heap[t].Table? && x in Keys(s2.heap[t].entries)
        && x in s.heap && s.heap[x].Str?
      ensures x in c
    {
      AllWeakBetween(s, parked, s1, s2, s3, s4, t);
      var e :| e in s2.heap[t].entries && e.key == Some(x);
      assert t in MarkedSet(s) && Done(s, parked, t);
      if t in parked || ModeOf(s.heap, t).AllWeak? {
        KeyStringKept(s.heap, parked, c, t, e);
      } else {
        assert x in Strings(s.heap, Keys(s.heap[t].entries));
      }
    }
  }

  lemma KeyStringKept(h: Heap, parked: set<Id>, c: set<Id>, t: Id, e: Entry)
    requires t in h && t in c && h[t].Table? && (t in parked || ModeOf(h, t).AllWeak?)
    requires ClosedBut(h, parked, c) && e in h[t].entries && RefSet(e.val) <= c
    ensures Strings(h, RefSet(e.key)) <= c
  {
    assert if t in parked then ParkedIn(h, c, t) else HoldsIn(h, c, t);
    assert StringKeysClosed(h, c, t);
  }

  /** Clearing marks only strings that the weak tables keep. */
  lemma ClearedWithin(s: State, parked: set<Id>, s1: State, s2: State, s3: State, s4: State)
    requires ReadyToClear(s, parked) && ClearingPasses(s, s1, s2, s3, s4)
    ensures WithinBut(s.heap, parked, MarkedSet(s), MarkedSet(s4))
  {
    hide ReadyToClear, ClearingPasses, Parts, ClosedBut;
    PassMarks(s, parked, s1, s2, s3, s4);
    forall c: set<Id> | MarkedSet(s) <= c && ClosedBut(s.heap, parked, c)
      ensures MarkedSet(s4) <= c
    {
      WithinValueStrings(s, parked, c);
      WithinKeyStrings(s, parked, s1, s2, s3, s4, c);
    }
  }

  lemma ClearedEphemeron(s: State, parked: set<Id>, c: set<Id>, o: Id)
    requires ReadyToClear(s, parked) && o in MarkedSet(s) && o in s.heap
    requires s.heap[o].Table? && ModeOf(s.heap, o).Ephemeron? && o !in parked
    requires MarkedSet(s) <= c && c - MarkedSet(s) <= Strings(s.heap, s.heap.Keys)
    ensures EphemeronClosed(s.heap, c, o)
  {
    hide HeapOk, AtomicLists;
    var es := s.heap[o].entries;
    assert Done(s, parked, o);
    forall e | e in es && RefSet(e.key) <= c
      ensures RefSet(e.val) <= c
    {
      if e.key.Some? {
        ValueMarkedEarly(s.heap, Keys(es), MarkedSet(s), MarkedSet(s), c, e.key.value);
      }
    }
  }

  lemma ClearedAllWeak(s: State, parked: set<Id>, s1: State, s2: State, s3: State, s4: State, o: Id)
    requires ReadyToClear(s, parked) && ClearingPasses(s, s1, s2, s3, s4) && o in s.allweak
    ensures Strings(s.heap, Vals(s.heap[o].entries)) <= MarkedSet(s4)
    ensures StringKeysClosed(s.heap, MarkedSet(s4), o)
  {
    hide MarksStrings, Filter, HeapOk, Converged, Settled;
    PassMarks(s, parked, s1, s2, s3, s4);
    PassStrings(s, s1, s2, s3, s4);
    AllWeakBetween(s, parked, s1, s2, s3, s4, o);
    PartsContain(s.heap, s.allweak, false, o);
    PartsContain(s2.heap, s.allweak, true, o);
    assert Strings(s.heap, Vals(s.heap[o].entries)) <= Strings(s.heap, Parts(s.heap, s.allweak, false)) <= MarkedSet(s2);
    forall e | e in s.heap[o].entries && RefSet(e.val) <= MarkedSet(s4)
      ensures Strings(s.heap, RefSet(e.key)) <= MarkedSet(s4)
    {
      if e.val.Some? {
        ValueMarkedEarly(s.heap, Vals(s.heap[o].entries), MarkedSet(s), MarkedSet(s2), MarkedSet(s4), e.val.value);
      }
      assert e in s2.heap[o].entries;
      assert RefSet(e.key) <= Keys(s2.heap[o].entries);
      assert Strings(s.heap, RefSet(e.key)) <= Strings(s.heap, Parts(s2.heap, s.allweak, true));
    }
  }

  lemma ValueMarkedEarly(h: Heap, vals: set<Id>, c: set<Id>, c2: set<Id>, c4: set<Id>, x: Id)
    requires c <= c2 <= c4 && c4 - c <= Strings(h, h.Keys) && Strings(h, vals) <= c2
    requires x in vals && x in c4
    ensures x in c2
  {
    assert x in c || x in c4 - c;
  }

  /** After clearing, the marks are closed under everything a live table still holds. */
  lemma ClearedClosed(s: State, parked: set<Id>, s1: State, s2: State, s3: State, s4: State)
    requires ReadyToClear(s, parked) && ClearingPasses(s, s1, s2, s3, s4)
    ensures ClosedBut(s.heap, parked, MarkedSet(s4))
  {
    hide HeapOk, ClearingPasses, Converged, Parts;
    PassMarks(s, parked, s1, s2, s3, s4);
    var h, c := s.heap, MarkedSet(s4);
    forall o | o in c && o in h
      ensures if o in parked && h[o].Table? then ParkedIn(h, c, o) else HoldsIn(h, c, o)
    {
      if o in MarkedSet(s) {
        assert Done(s, parked, o);
        if o in s.allweak {
          ClearedAllWeak(s, parked, s1, s2, s3, s4, o);
        }
        if o !in parked && h[o].Table? {
          match ModeOf(h, o) {
            case Strong =>
            case WeakValues => WeakValuesStrings(s, o);
            case Ephemeron => ClearedEphemeron(s, parked, c, o);
            case AllWeak =>
          }
        }
      } else {
        assert o in c - MarkedSet(s);
      }
    }
  }

  lemma WeakValuesStrings(s: State, o: Id)
    requires o in s.heap && s.heap[o].Table?
    ensures o in s.weak ==> Strings(s.heap, Vals(s.heap[o].entries)) <= Strings(s.heap, Parts(s.heap, s.weak, false))
  {
    if o in s.weak {
      PartsContain(s.heap, s.weak, false, o);
    }
  }

  /** The passes leave exactly the entries whose weak parts are marked. */
  lemma ClearedCell(s: State, parked: set<Id>, s1: State, s2: State, s3: State, s4: State, o: Id)
    requires ReadyToClear(s, parked) && ClearingPasses(s, s1, s2, s3, s4) && o in s.heap
    ensures o in s4.heap && s4.heap[o] == ClearWeak(s.heap, parked, MarkedSet(s4))[o]
  {
    hide HeapOk, Parts, MarksStrings, Converged, Settled;
    var h, c := s.heap, MarkedSet(s4);
    PassMarks(s, parked, s1, s2, s3, s4);
    PassStrings(s, s1, s2, s3, s4);
    if o in MarkedSet(s) && h[o].Table? {
      ClearedEntries(s, parked, s1, s2, s3, s4, o);
    } else {
      assert o !in s.weak && o !in s.allweak && o !in s.ephemeron;
      if o in c {
        assert o in c - MarkedSet(s) || !h[o].Table?;
      }
    }
  }

  /** A filter by the marks of its own pass keeps what a filter by the final marks keeps. */
  lemma PassIsFinal(h: Heap, es: set<Entry>, byKey: bool, m: set<Id>, ci: set<Id>, c: set<Id>)
    requires m <= ci <= c && c - m <= Strings(h, h.Keys) && Strings(h, PartsIn(es, byKey)) <= ci
    ensures (set e | e in es && RefSet(WeakPart(e, byKey)) <= ci) == set e | e in es && RefSet(WeakPart(e, byKey)) <= c
  {
    forall e | e in es
      ensures RefSet(WeakPart(e, byKey)) <= ci <==> RefSet(WeakPart(e, byKey)) <= c
    {
      var r := WeakPart(e, byKey);
      if r.Some? && r.value in c {
        ValueMarkedEarly(h, PartsIn(es, byKey), m, ci, c, r.value);
      }
    }
  }

  lemma EntriesByValue(s: State, parked: set<Id>, s1: State, s2: State, s3: State, s4: State, o: Id)
    requires ReadyToClear(s, parked) && ClearingPasses(s, s1, s2, s3, s4)
    requires o in MarkedSet(s) && o in s.heap && s.heap[o].Table? && ModeOf(s.heap, o).WeakValues? && o !in parked && Done(s, parked, o)
    ensures o in s4.heap && s4.heap[o] == s.heap[o].(entries := Kept(WeakValues, s.heap[o].entries, MarkedSet(s4)))
  {
    hide HeapOk, Parts, MarksStrings, Converged, Settled;
    PassMarks(s, parked, s1, s2, s3, s4);
    assert o !in s.allweak && o !in s.ephemeron;
    var es := s.heap[o].entries;
    if o in s.weak {
      PartsContain(s.heap, s.weak, false, o);
      PassIsFinal(s.heap, es, false, MarkedSet(s), MarkedSet(s1), MarkedSet(s4));
    } else {
      assert Kept(WeakValues, es, MarkedSet(s4)) == es;
    }
  }

  lemma EntriesByKey(s: State, parked: set<Id>, s1: State, s2: State, s3: State, s4: State, o: Id)
    requires ReadyToClear(s, parked) && ClearingPasses(s, s1, s2, s3, s4)
    requires o in MarkedSet(s) && o in s.heap && s.heap[o].Table? && ModeOf(s.heap, o).Ephemeron? && o !in parked && Done(s, parked, o)
    ensures o in s4.heap && s4.heap[o] == s.heap[o].(entries := Kept(Ephemeron, s.heap[o].entries, MarkedSet(s4)))
  {
    if o in s.ephemeron {
      ListedByKey(s, parked, s1, s2, s3, s4, o);
    } else {
      MarkedValuesByKey(s, parked, s1, s2, s3, s4, o);
    }
  }

  lemma ListedByKey(s: State, parked: set<Id>, s1: State, s2: State, s3: State, s4: State, o: Id)
    requires ReadyToClear(s, parked) && ClearingPasses(s, s1, s2, s3, s4)
    requires o in s.ephemeron && o in s.heap && s.heap[o].Table? && ModeOf(s.heap, o).Ephemeron? && Strings(s.heap, Keys(s.heap[o].entries)) <= MarkedSet(s)
    ensures o in s4.heap && s4.heap[o] == s.heap[o].(entries := Kept(Ephemeron, s.heap[o].entries, MarkedSet(s4)))
  {
    hide HeapOk, Parts, MarksStrings, Converged, Settled, ModeOf;
    PassMarks(s, parked, s1, s2, s3, s4);
    assert o !in s.weak && o !in s.allweak;
    PassIsFinal(s.heap, s.heap[o].entries, true, MarkedSet(s), MarkedSet(s3), MarkedSet(s4));
  }

  /** An ephemeron table whose values are all marked may be in 'allweak' for its keys. */
  lemma MarkedValuesByKey(s: State, parked: set<Id>, s1: State, s2: State, s3: State, s4: State, o: Id)
    requires ReadyToClear(s, parked) && ClearingPasses(s, s1, s2, s3, s4)
    requires o in s.heap && s.heap[o].Table? && ModeOf(s.heap, o).Ephemeron? && o !in s.ephemeron
    requires Vals(s.heap[o].entries) <= MarkedSet(s) && (o in s.allweak || Keys(s.heap[o].entries) <= MarkedSet(s))
    ensures o in s4.heap && s4.heap[o] == s.heap[o].(entries := Kept(Ephemeron, s.heap[o].entries, MarkedSet(s4)))
  {
    hide HeapOk, Parts, MarksStrings, Converged, Settled, ModeOf;
    PassStrings(s, s1, s2, s3, s4);
    assert o !in s.weak;
    var es := s.heap[o].entries;
    if o in s.allweak {
      AllWeakBetween(s, parked, s1, s2, s3, s4, o);
      assert s2.heap[o].entries == es;
    } else {
      assert Kept(Ephemeron, es, MarkedSet(s4)) == es;
    }
  }

  lemma EntriesByBoth(s: State, parked: set<Id>, s1: State, s2: State, s3: State, s4: State, o: Id)
    requires ReadyToClear(s, parked) && ClearingPasses(s, s1, s2, s3, s4)
    requires o in s.allweak && o in s.heap && s.heap[o].Table?
    ensures o in s4.heap && s4.heap[o] == s.heap[o].(entries := Kept(AllWeak, s.heap[o].entries, MarkedSet(s4)))
  {
    hide HeapOk, Parts, MarksStrings, Converged, Settled;
    PassMarks(s, parked, s1, s2, s3, s4);
    assert o !in s.weak && o !in s.ephemeron;
    var es := s.heap[o].entries;
    PartsContain(s.heap, s.allweak, false, o);
    PassIsFinal(s.heap, es, false, MarkedSet(s), MarkedSet(s2), MarkedSet(s4));
    AllWeakBetween(s, parked, s1, s2, s3, s4, o);
    assert s4.heap[o].entries == Kept(AllWeak, es, MarkedSet(s4));
  }

  lemma ClearedEntries(s: State, parked: set<Id>, s1: State, s2: State, s3: State, s4: State, o: Id)
    requires ReadyToClear(s, parked) && ClearingPasses(s, s1, s2, s3, s4)
    requires o in MarkedSet(s) && o in s.heap && s.heap[o].Table?
    ensures o in s4.heap && s4.heap[o] == s.heap[o].(entries := Kept(ClearMode(s.heap, parked, o), s.heap[o].entries, MarkedSet(s4)))
  {
    hide ClearingPasses, Kept, MarkedSet, ModeOf;
    ListedOrDone(s, parked, o);
    hide ReadyToClear, Done;
    if o in parked {
      EntriesByBoth(s, parked, s1, s2, s3, s4, o);
    } else {
      match ModeOf(s.heap, o) {
        case Strong => EntriesStay(s, parked, s1, s2, s3, s4, o);
        case WeakValues => EntriesByValue(s, parked, s1, s2, s3, s4, o);
        case Ephemeron => EntriesByKey(s, parked, s1, s2, s3, s4, o);
        case AllWeak =>
          if o in s.allweak {
            EntriesByBoth(s, parked, s1, s2, s3, s4, o);
          } else {
            EntriesStay(s, parked, s1, s2, s3, s4, o);
          }
      }
    }
  }

  lemma ListedOrDone(s: State, parked: set<Id>, o: Id)
    requires ReadyToClear(s, parked) && o in MarkedSet(s) && o in s.heap
    ensures Done(s, parked, o) && (o in parked ==> o in s.allweak)
  {
  }

  /** A table on no list, all of whose entries are marked, loses none. */
  lemma EntriesStay(s: State, parked: set<Id>, s1: State, s2: State, s3: State, s4: State, o: Id)
    requires ReadyToClear(s, parked) && ClearingPasses(s, s1, s2, s3, s4)
    requires o in MarkedSet(s) && o in s.heap && s.heap[o].Table? && o !in parked && Done(s, parked, o)
    requires ModeOf(s.heap, o).Strong? || (ModeOf(s.heap, o).AllWeak? && o !in s.allweak)
    ensures o in s4.heap && s4.heap[o] == s.heap[o].(entries := Kept(ModeOf(s.heap, o), s.heap[o].entries, MarkedSet(s4)))
  {
    hide HeapOk, Parts, MarksStrings, Converged, Settled, ModeOf;
    PassStrings(s, s1, s2, s3, s4);
    assert o !in s.weak && o !in s.ephemeron && o !in s.allweak;
    assert s4.heap[o] == s.heap[o];
    var es := s.heap[o].entries;
    assert Refs(s.heap, o) <= MarkedSet(s4);
    assert Kept(ModeOf(s.heap, o), es, MarkedSet(s4)) == es;
  }

  // ----- putting the atomic phase together -----

  /** What 'atomic' relies on; unlike the full invariant it says nothing about metatables
      of the tables parked in 'allweak'. */
  ghost predicate AtomicReady(s: State) {
    && s.color.Keys == s.heap.Keys && HeapOk(s.heap) && TriColor(s)
    && s.roots + s.twups <= s.heap.Keys
    && forall u :: u in s.heap && s.heap[u].OpenUp? ==> UpvalueOk(s.heap, u) && s.heap[u].thread in s.twups
  }

  /** Progress since the start of the atomic phase, up to the clearing. */
  ghost predicate MarkedSince(s: State, parked: set<Id>, s2: State) {
    && s2.heap == s.heap && s2.white == s.white && s2.roots == s.roots && s2.color.Keys == s.color.Keys
    && MarkedSet(s) <= MarkedSet(s2)
    && (forall x :: x in s.color && !Marked(s2, x) ==> s2.color[x] == s.color[x])
    && WithinBut(s.heap, parked, MarkedSet(s) + s.roots, MarkedSet(s2))
  }

  lemma MarkedSinceStep(s: State, parked: set<Id>, s1: State, s2: State)
    requires MarkedSince(s, parked, s1) && Grows(s1, parked, s2)
    ensures MarkedSince(s, parked, s2)
  {
    forall c: set<Id> | MarkedSet(s) + s.roots <= c && ClosedBut(s.heap, parked, c)
      ensures MarkedSet(s2) <= c
    {
      assert MarkedSet(s1) <= c;
    }
  }

  lemma RootsMarked(s: State, parked: set<Id>, s1: State, s2: State)
    requires s1 == s.(phase := s1.phase, again := s1.again) && MarksFrom(s1, parked, s.roots, s2)
    ensures MarkedSince(s, parked, s2)
  {
    assert MarkedSet(s1) == MarkedSet(s);
    MarksGrow(s1, s2);
    forall c: set<Id> | MarkedSet(s) + s.roots <= c && ClosedBut(s.heap, parked, c)
      ensures MarkedSet(s2) <= c
    {
      assert Fresh(s1, s2) <= c;
    }
  }

  /** 'gray = grayagain': the saved list becomes the gray list. */
  lemma TakeGrayAgain(s: State, parked: set<Id>, again: set<Id>, ups: set<Id>, s2: State)
    requires AtomicLists(s, parked) && Settled(s, parked, again + ups) && Apart(s, again + ups) && s.gray == {}
    requires s2 == s.(gray := again) && again !! ups
    requires forall o :: o in again ==> o in s.heap && Linkable(s.heap[o])
    ensures AtomicLists(s2, parked) && Settled(s2, parked, s2.gray + ups) && Apart(s2, ups)
  {
    hide Done;
    assert MarkedSet(s2) == MarkedSet(s);
    SettledSame(s, s2, parked, again + ups);
  }

  lemma AtomicWithin(s: State, parked: set<Id>, sc: State, s1: State, s2: State, s3: State, s4: State)
    requires MarkedSince(s, parked, sc) && ReadyToClear(sc, parked) && ClearingPasses(sc, s1, s2, s3, s4)
    ensures WithinBut(s.heap, parked, MarkedSet(s) + s.roots, MarkedSet(s4))
  {
    hide ReadyToClear, ClearingPasses, ClosedBut;
    ClearedWithin(sc, parked, s1, s2, s3, s4);
    forall c: set<Id> | MarkedSet(s) + s.roots <= c && ClosedBut(s.heap, parked, c)
      ensures MarkedSet(s4) <= c
    {
      assert MarkedSet(sc) <= c;
    }
  }

  lemma AtomicHeap(sc: State, parked: set<Id>, s1: State, s2: State, s3: State, s4: State)
    requires ReadyToClear(sc, parked) && ClearingPasses(sc, s1, s2, s3, s4)
    ensures s4.heap == ClearWeak(sc.heap, parked, MarkedSet(s4))
  {
    hide ReadyToClear, ClearingPasses, Kept;
    PassStrings(sc, s1, s2, s3, s4);
    forall o | o in sc.heap
      ensures o in s4.heap && s4.heap[o] == ClearWeak(sc.heap, parked, MarkedSet(s4))[o]
    {
      ClearedCell(sc, parked, s1, s2, s3, s4, o);
    }
  }

  lemma PassColors(s: State, s1: State, s2: State, s3: State, s4: State)
    requires ClearingPasses(s, s1, s2, s3, s4)
    ensures s4.color.Keys == s.color.Keys && s4.white == s.white && s4.roots == s.roots && s4.twups == s.twups
    ensures forall x :: x in s.color && !Marked(s4, x) ==> s4.color[x] == s.color[x]
  {
    hide Parts, Filter;
    PassStrings(s, s1, s2, s3, s4);
    forall x | x in s.color && !Marked(s4, x)
      ensures s4.color[x] == s.color[x]
    {
      assert x !in MarkedSet(s4);
      assert x !in MarkedSet(s3) && x !in MarkedSet(s2) && x !in MarkedSet(s1);
    }
  }

  /** What stays unmarked is still of the old white, which the flip makes dead. */
  lemma AtomicColors(s: State, sc: State, parked: set<Id>, s4: State)
    requires AtomicReady(s) && MarkedSince(s, parked, sc)
    requires s4.color.Keys == sc.color.Keys && MarkedSet(sc) <= MarkedSet(s4)
    requires forall x :: x in sc.color && !Marked(s4, x) ==> s4.color[x] == sc.color[x]
    ensures forall o :: o in s4.color && o !in MarkedSet(s4) ==> s4.color[o] == White(s.white)
  {
    forall o | o in s4.color && o !in MarkedSet(s4)
      ensures s4.color[o] == White(s.white)
    {
      assert o !in MarkedSet(sc) && !Marked(s4, o) && !Marked(sc, o);
      assert s4.color[o] == s.color[o];
      assert o in LiveSet(s);
    }
  }

  lemma AtomicTwups(sc: State, parked: set<Id>, c: set<Id>)
    requires ReadyToClear(sc, parked) && MarkedSet(sc) <= c && c - MarkedSet(sc) <= Strings(sc.heap, sc.heap.Keys)
    requires forall u :: u in sc.heap && sc.heap[u].OpenUp? ==> UpvalueOk(sc.heap, u)
    ensures forall u :: u in sc.heap && sc.heap[u].OpenUp? && sc.heap[u].thread in c ==> sc.heap[u].thread in sc.twups
  {
    forall u | u in sc.heap && sc.heap[u].OpenUp? && sc.heap[u].thread in c
      ensures sc.heap[u].thread in sc.twups
    {
      var th := sc.heap[u].thread;
      assert UpvalueOk(sc.heap, u);
      assert th in MarkedSet(sc) by {
        assert th in c - MarkedSet(sc) ==> th in Strings(sc.heap, sc.heap.Keys);
      }
      assert Done(sc, parked, th);
      assert OpenOn(sc.heap, u, th);
    }
  }

  lemma AtomicFinish(s: State, parked: set<Id>, sc: State, s1: State, s2: State, s3: State, s4: State, fin: State)
    requires AtomicReady(s) && parked == s.allweak && MarkedSince(s, parked, sc) && s.roots <= MarkedSet(sc)
    requires ReadyToClear(sc, parked) && ClearingPasses(sc, s1, s2, s3, s4) && sc.twups <= MarkedSet(sc)
    requires fin == s4.(white := !s.white, phase := SwpAllGc, ahead := s4.heap.Keys)
    ensures AtomicDone(s, fin)
  {
    hide ReadyToClear, ClearingPasses, WithinBut, ClosedBut, TriColor, HeapOk, ClearWeak;
    assert MarkedSet(fin) == MarkedSet(s4);
    PassMarks(sc, parked, s1, s2, s3, s4);
    PassStrings(sc, s1, s2, s3, s4);
    PassColors(sc, s1, s2, s3, s4);
    ClearedClosed(sc, parked, s1, s2, s3, s4);
    AtomicWithin(s, parked, sc, s1, s2, s3, s4);
    AtomicHeap(sc, parked, s1, s2, s3, s4);
    AtomicColors(s, sc, parked, s4);
    AtomicTwups(sc, parked, MarkedSet(s4));
  }

  lemma GrayAgainKinds(s: State)
    requires s.color.Keys == s.heap.Keys && TriColor(s)
    ensures s.again !! OpenUpvalues(s) && s.again <= s.heap.Keys
    ensures forall o :: o in s.again ==> Linkable(s.heap[o])
  {
    assert forall o :: o in s.again ==> o in GraySet(s);
  }

  lemma RemarkSince(s: State, parked: set<Id>, d: State, e: State)
    requires MarkedSince(s, parked, d) && Advances(d, parked, e.(twups := d.twups))
    ensures MarkedSince(s, parked, e) && MarkedSet(d) <= MarkedSet(e)
  {
    assert MarkedSet(e.(twups := d.twups)) == MarkedSet(e);
    MarkedSinceStep(s, parked, d, e.(twups := d.twups));
  }

  lemma GraySince(s: State, parked: set<Id>, f: State, g: State)
    requires MarkedSince(s, parked, f) && g == f.(gray := g.gray)
    ensures MarkedSince(s, parked, g) && MarkedSet(g) == MarkedSet(f)
  {
    assert MarkedSet(g) == MarkedSet(f);
  }

  /** The open upvalues that were pending are done at the end. */
  lemma UpvaluesDone(s: State, parked: set<Id>, d: State, e: State, f: State, g: State, i: State, ups: set<Id>)
    requires AtomicReady(s) && ups == OpenUpvalues(s) && MarkedSet(s) <= MarkedSet(d)
    requires e.heap == s.heap && i.heap == s.heap && MarkedSet(e) <= MarkedSet(i)
    requires Settled(i, parked, ups)
    requires forall u :: u in MarkedSet(d) && u in s.heap && s.heap[u].OpenUp? && s.heap[u].thread in s.twups ==>
               Remarked(e, u)
    ensures Settled(i, parked, {})
  {
    hide HeapOk, TriColor, Settled;
    forall u | u in ups
      ensures u in i.heap && i.heap[u].OpenUp? && UpvalueOk(i.heap, u) && Remarked(i, u)
    {
      assert Remarked(e, u);
    }
    UpvaluesSettle(i, parked, ups);
  }

  lemma ClearedFrame(s: State, s2: State, l: set<Id>, byKey: bool)
    requires MarksStrings(s, Parts(s.heap, l, byKey), s2) && s2.heap == Filter(s.heap, l, byKey, MarkedSet(s2))
    ensures Clears(s, l, byKey, s2)
    ensures s2 == s.(heap := s2.heap, color := s2.color) && s2.heap.Keys == s.heap.Keys && s2.color.Keys == s.color.Keys
    ensures forall t :: t in s.heap && s.heap[t].Table? ==> s2.heap[t].Table?
  {
  }

  lemma SinceFrame(s: State, parked: set<Id>, sc: State)
    requires MarkedSince(s, parked, sc)
    ensures sc.white == s.white && sc.heap == s.heap
  {
  }

  // ----- freeing a thread -----

  /** All upvalues open on 'o', except those in 'todo', are closed. */
  function CloseAll(h: Heap, o: Id, todo: set<Id>): Heap {
    map x | x in h :: if x != o && OpenOn(h, x, o) && x !in todo then ClosedUp(UpContent(h, x)) else h[x]
  }

  lemma CloseAllStep(h: Heap, o: Id, todo: set<Id>, u: Id)
    requires o in h && u in todo && u in h && u != o && OpenOn(h, u, o)
    ensures var g := CloseAll(h, o, todo);
      && u in g && g[u].OpenUp? && UpContent(g, u) == UpContent(h, u)
      && g[u := ClosedUp(UpContent(h, u))] == CloseAll(h, o, todo - {u})
  {
  }

  lemma CloseAllFreed(h: Heap, o: Id)
    ensures CloseAll(h, o, {}) - {o} == Freed(h, o)
  {
  }

  // ----- single steps -----

  /** What 'singlestep' relies on in each phase. */
  ghost predicate StepReady(s: State) {
    && s.color.Keys == s.heap.Keys
    && (s.phase.Pause? ==> HeapOk(s.heap) && s.roots <= s.heap.Keys)
    && (s.phase.Propagate? ==> HeapOk(s.heap) && TriColor(s))
    && (s.phase.EnterAtomic? ==> AtomicReady(s))
    && (s.phase.SwpAllGc? ==> s.ahead <= s.heap.Keys)
    && !s.phase.Atomic?
  }

  /** The invariant of the runs is enough to run the collector. */
  lemma InvIsReady(s: State)
    requires Inv(s) && !s.phase.Atomic?
    ensures StepReady(s)
  {
    if KeepInvariant(s.phase) || s.phase.Pause? {
      assert LiveSet(s) == s.heap.Keys;
    }
  }

  lemma GrayReady(s: State)
    requires s.color.Keys == s.heap.Keys && TriColor(s)
    ensures forall x :: x in s.gray ==> x in s.heap && Linkable(s.heap[x]) && !s.color[x].White?
  {
    assert forall x :: x in s.gray ==> x in GraySet(s);
  }

  lemma PropagatedFrom(s: State, m: State, s2: State, o: Id, hasclears: bool, hasww: bool)
    requires s.color.Keys == s.heap.Keys && o in s.gray && o in s.heap && Linkable(s.heap[o]) && !s.color[o].White?
    requires Spreads(s.(color := s.color[o := Black], gray := s.gray - {o}), {}, m)
    requires TraverseDone(s.heap, hasclears, hasww, MarkedSet(s), MarkedSet(m), o)
    requires s2 == Linked(m, o)
    ensures Propagated(s, m, s2, o)
  {
    var b := s.(color := s.color[o := Black], gray := s.gray - {o});
    assert MarkedSet(b) == MarkedSet(s);
    if s.heap[o].Table? && ModeOf(s.heap, o).Ephemeron? {
      MarksGrow(b, m);
      EntriesVisited(s.heap, o, hasclears, hasww, MarkedSet(s), MarkedSet(m));
      assert forall e :: e in s.heap[o].entries && RefSet(e.key) <= MarkedSet(s) ==> KeyCounts(s.heap, MarkedSet(s), e.key);
    }
  }
}
