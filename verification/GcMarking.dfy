/** Marking: what single marking steps and traversals guarantee, and how they compose. */
module GcMarking {
  import opened GcHeap
  import opened GcSteps

  /** Every reference is allocated and typed: holds in the marking phases. */
  ghost predicate HeapOk(h: Heap) {
    forall o :: o in h ==> Refs(h, o) <= h.Keys && Typed(h, o)
  }

  /** Depth of the recursion of 'reallymarkobject'. */
  function Rank(c: Cell): nat {
    if c.OpenUp? || c.ClosedUp? then 2 else if c.PlainUdata? then 1 else 0
  }

  /** 's2' marks objects of 's', all of them reached from 'from'. */
  ghost predicate MarksFrom(s: State, parked: set<Id>, from: set<Id>, s2: State) {
    Marks(s, s2) && WithinBut(s.heap, parked, from, Fresh(s, s2))
  }

  lemma MarksNothing(s: State)
    ensures Marks(s, s) && Fresh(s, s) == {}
  {
  }

  lemma MarksFromTransitive(s: State, parked: set<Id>, from: set<Id>, s1: State, s2: State)
    requires MarksFrom(s, parked, from, s1) && MarksFrom(s1, parked, from, s2)
    ensures MarksFrom(s, parked, from, s2)
  {
    MarksTransitive(s, s1, s2);
    MarksGrow(s, s1);
    MarksGrow(s1, s2);
    assert Fresh(s, s2) == Fresh(s, s1) + Fresh(s1, s2);
  }

  lemma WithinRefs(h: Heap, parked: set<Id>, o: Id, from: set<Id>, ids: set<Id>)
    requires o in h && !(h[o].Table? && o in parked)
    requires from <= StrongRefs(h, o) && WithinBut(h, parked, from, ids)
    ensures WithinBut(h, parked, {o}, ids)
  {
    forall c: set<Id> | {o} <= c && ClosedBut(h, parked, c)
      ensures ids <= c
    {
      assert o in c && HoldsIn(h, c, o);
    }
  }

  lemma WithinEmpty(h: Heap, parked: set<Id>, from: set<Id>, s: State)
    ensures WithinBut(h, parked, from, Fresh(s, s))
  {
  }

  lemma WithinMono(h: Heap, parked: set<Id>, from: set<Id>, more: set<Id>, ids: set<Id>)
    requires WithinBut(h, parked, from, ids) && from <= more
    ensures WithinBut(h, parked, more, ids)
  {
  }

  /** An upvalue is painted first, then its content is marked. */
  lemma UpvalueMarked(s: State, parked: set<Id>, o: Id, c: Color, s2: State)
    requires s.color.Keys == s.heap.Keys && o in s.heap && s.color[o].White?
    requires (s.heap[o].OpenUp? && c.Gray?) || (s.heap[o].ClosedUp? && c.Black?)
    requires MarksFrom(s.(color := s.color[o := c]), parked, RefSet(UpContent(s.heap, o)), s2)
    requires RefSet(UpContent(s.heap, o)) <= MarkedSet(s2)
    ensures MarksFrom(s, parked, {o}, s2) && Marked(s2, o)
  {
    hide WithinBut;
    var b := s.(color := s.color[o := c]);
    assert Marked(b, o) && Marked(s2, o) && s2.color[o] == c;
    assert MarkedSet(b) == MarkedSet(s) + {o};
    assert Fresh(s, s2) == Fresh(b, s2) + {o};
    assert LinkableOf(s.heap, Fresh(s, s2)) == LinkableOf(s.heap, Fresh(b, s2));
    PaintedFirst(s, o, c, s2);
    hide Marks;
    WithinRefs(s.heap, parked, o, RefSet(UpContent(s.heap, o)), Fresh(b, s2));
    WithinSelf(s.heap, parked, o, Fresh(b, s2));
  }

  lemma PaintedFirst(s: State, o: Id, c: Color, s2: State)
    requires s.color.Keys == s.heap.Keys && o in s.heap && s.color[o].White?
    requires (s.heap[o].OpenUp? && c.Gray?) || (s.heap[o].ClosedUp? && c.Black?)
    requires Marks(s.(color := s.color[o := c]), s2) && o in s2.color && s2.color[o] == c
    requires Fresh(s, s2) == Fresh(s.(color := s.color[o := c]), s2) + {o} && RefSet(UpContent(s.heap, o)) <= MarkedSet(s2)
    requires LinkableOf(s.heap, Fresh(s, s2)) == LinkableOf(s.heap, Fresh(s.(color := s.color[o := c]), s2))
    ensures Marks(s, s2)
  {
    hide LinkableOf;
    var b := s.(color := s.color[o := c]);
    forall x | x in Fresh(s, s2) && x in s.heap
      ensures FreshMark(s.heap, s2, x)
    {
      assert x != o ==> x in Fresh(b, s2);
    }
  }

  lemma WithinSelf(h: Heap, parked: set<Id>, o: Id, ids: set<Id>)
    requires WithinBut(h, parked, {o}, ids)
    ensures WithinBut(h, parked, {o}, ids + {o})
  {
  }

  /** A userdata is painted after its metatable is marked. */
  lemma UdataMarked(s: State, parked: set<Id>, o: Id, s1: State, s2: State)
    requires s.color.Keys == s.heap.Keys && o in s.heap && s.color[o].White?
    requires s.heap[o].PlainUdata?
    requires MarksFrom(s, parked, RefSet(s.heap[o].mt), s1) && RefSet(s.heap[o].mt) <= MarkedSet(s1)
    requires s2 == s1.(color := s1.color[o := Black])
    ensures MarksFrom(s, parked, {o}, s2) && Marked(s2, o)
  {
    assert MarkedSet(s2) == MarkedSet(s1) + {o};
    assert Fresh(s, s2) == Fresh(s, s1) + {o};
    assert LinkableOf(s.heap, Fresh(s, s2)) == LinkableOf(s.heap, Fresh(s, s1));
    forall x | x in Fresh(s, s2) && x in s.heap
      ensures FreshMark(s.heap, s2, x)
    {
      if x != o {
        assert FreshMark(s.heap, s1, x);
      }
    }
    WithinRefs(s.heap, parked, o, RefSet(s.heap[o].mt), Fresh(s, s1));
  }

  /** Strings turn black at once; objects with a 'gclist' field are linked in 'gray'. */
  lemma SimpleMarked(s: State, parked: set<Id>, o: Id, s2: State)
    requires s.color.Keys == s.heap.Keys && o in s.heap && s.color[o].White?
    requires s.heap[o].Str? || Linkable(s.heap[o])
    requires s2 == if s.heap[o].Str? then s.(color := s.color[o := Black])
                   else s.(color := s.color[o := Gray], gray := s.gray + {o})
    ensures MarksFrom(s, parked, {o}, s2) && Marked(s2, o)
  {
    assert Fresh(s, s2) == {o};
  }

  // ----- traversal -----

  /** Marking steps that stay within what the marked objects reach. */
  ghost predicate Spreads(s: State, parked: set<Id>, s2: State) {
    Marks(s, s2) && WithinBut(s.heap, parked, MarkedSet(s), MarkedSet(s2))
  }

  lemma SpreadsNothing(s: State, parked: set<Id>)
    ensures Spreads(s, parked, s)
  {
    MarksNothing(s);
  }

  lemma SpreadsKeepsColor(s: State, parked: set<Id>, s2: State, o: Id)
    requires Spreads(s, parked, s2) && o in MarkedSet(s)
    ensures s2.color.Keys == s.color.Keys && s2.color[o] == s.color[o]
  {
  }

  lemma MarksFromSpreads(s: State, parked: set<Id>, from: set<Id>, s2: State)
    requires MarksFrom(s, parked, from, s2) && WithinBut(s.heap, parked, MarkedSet(s), from)
    ensures Spreads(s, parked, s2)
  {
    forall c: set<Id> | MarkedSet(s) <= c && ClosedBut(s.heap, parked, c)
      ensures MarkedSet(s2) <= c
    {
      assert from <= c;
      assert Fresh(s, s2) <= c;
    }
  }

  lemma SpreadsTransitive(s: State, parked: set<Id>, s1: State, s2: State)
    requires Spreads(s, parked, s1) && Spreads(s1, parked, s2)
    ensures Spreads(s, parked, s2)
  {
    MarksTransitive(s, s1, s2);
    forall c: set<Id> | MarkedSet(s) <= c && ClosedBut(s.heap, parked, c)
      ensures MarkedSet(s2) <= c
    {
      assert MarkedSet(s1) <= c;
    }
  }

  /** A marked object passes its marks on along its strong references. */
  lemma WithinStrong(h: Heap, parked: set<Id>, marked: set<Id>, o: Id, ids: set<Id>)
    requires o in h && o in marked && !(h[o].Table? && o in parked)
    requires ids <= StrongRefs(h, o)
    ensures WithinBut(h, parked, marked, ids)
  {
    forall c: set<Id> | marked <= c && ClosedBut(h, parked, c)
      ensures ids <= c
    {
      assert HoldsIn(h, c, o);
    }
  }

  /** A marked key passes its mark on to its value. */
  lemma WithinEphemeron(h: Heap, parked: set<Id>, marked: set<Id>, o: Id, e: Entry)
    requires o in h && o in marked && o !in parked && h[o].Table? && ModeOf(h, o).Ephemeron?
    requires e in h[o].entries && RefSet(e.key) <= marked
    ensures WithinBut(h, parked, marked, RefSet(e.val))
  {
    forall c: set<Id> | marked <= c && ClosedBut(h, parked, c)
      ensures RefSet(e.val) <= c
    {
      assert HoldsIn(h, c, o);
    }
  }

  predicate KeyCounts(h: Heap, marked: set<Id>, k: Ref) {
    k.Some? ==> k.value in marked || (k.value in h && h[k.value].Str?)
  }

  /** What a visit of entry 'e' guarantees afterwards. */
  predicate EntryVisited(h: Heap, e: Entry, hasclears: bool, hasww: bool, before: set<Id>, now: set<Id>) {
    && Strings(h, RefSet(e.key)) <= now
    && (KeyCounts(h, before, e.key) ==> RefSet(e.val) <= now)
    && (!hasww ==> RefSet(e.val) <= now)
    && (!hasclears ==> RefSet(e.key) <= now)
  }

  lemma EntriesVisited(h: Heap, o: Id, hasclears: bool, hasww: bool, before: set<Id>, now: set<Id>)
    requires o in h && h[o].Table? && before <= now
    requires forall e :: e in h[o].entries ==> EntryVisited(h, e, hasclears, hasww, before, now)
    ensures Strings(h, Keys(h[o].entries)) <= now
    ensures !hasww ==> Vals(h[o].entries) <= now
    ensures !hasclears ==> Keys(h[o].entries) <= now
    ensures now - before <= Strings(h, h.Keys) ==> EphemeronClosed(h, now, o)
  {
    if now - before <= Strings(h, h.Keys) {
      forall e | e in h[o].entries && RefSet(e.key) <= now
        ensures RefSet(e.val) <= now
      {
        assert EntryVisited(h, e, hasclears, hasww, before, now);
        assert e.key.Some? && e.key.value !in before ==> e.key.value in now - before;
        assert KeyCounts(h, before, e.key);
      }
    }
  }

  lemma EntryVisitedMono(h: Heap, e: Entry, hc: bool, ww: bool, hc2: bool, ww2: bool,
                         before: set<Id>, before2: set<Id>, now: set<Id>, now2: set<Id>)
    requires EntryVisited(h, e, hc, ww, before, now)
    requires before2 <= before && now <= now2 && (hc ==> hc2) && (ww ==> ww2)
    ensures EntryVisited(h, e, hc2, ww2, before2, now2)
  {
  }

  lemma EntryRefs(h: Heap, o: Id, e: Entry)
    requires HeapOk(h) && o in h && h[o].Table? && e in h[o].entries
    ensures RefSet(e.key) + RefSet(e.val) <= h.Keys
    ensures RefSet(e.key) <= Keys(h[o].entries) && RefSet(e.val) <= Vals(h[o].entries)
  {
    assert Refs(h, o) <= h.Keys;
  }

  lemma WeakValueRefs(h: Heap, o: Id, e: Entry)
    requires o in h && h[o].Table? && ModeOf(h, o).WeakValues? && e in h[o].entries
    ensures RefSet(e.key) + Strings(h, RefSet(e.val)) <= StrongRefs(h, o)
  {
  }

  lemma EphemeronKeyRefs(h: Heap, o: Id, e: Entry)
    requires o in h && h[o].Table? && ModeOf(h, o).Ephemeron? && e in h[o].entries
    ensures Strings(h, RefSet(e.key)) <= StrongRefs(h, o)
  {
  }

  lemma EntriesMono(h: Heap, o: Id, hc: bool, ww: bool, before: set<Id>, before2: set<Id>, now: set<Id>)
    requires o in h && h[o].Table? && before2 <= before
    requires forall e :: e in h[o].entries ==> EntryVisited(h, e, hc, ww, before, now)
    ensures forall e :: e in h[o].entries ==> EntryVisited(h, e, hc, ww, before2, now)
  {
    forall e | e in h[o].entries
      ensures EntryVisited(h, e, hc, ww, before2, now)
    {
      EntryVisitedMono(h, e, hc, ww, hc, ww, before, before2, now, now);
    }
  }

  /** What one traversal leaves behind; the flags say what is still to be cleared. */
  ghost predicate TraverseDone(h: Heap, hasclears: bool, hasww: bool, before: set<Id>, now: set<Id>, o: Id)
    requires o in h && Linkable(h[o])
  {
    match h[o]
    case Table(_, mt, es) =>
      (match ModeOf(h, o)
       case Strong => Refs(h, o) <= now
       case WeakValues => RefSet(mt) + Keys(es) <= now && (!hasclears ==> Vals(es) <= now)
       case Ephemeron =>
         && RefSet(mt) <= now && (hasww ==> hasclears)
         && forall e :: e in es ==> EntryVisited(h, e, hasclears, hasww, before, now)
       case AllWeak => RefSet(mt) <= now)
    case _ => Refs(h, o) <= now
  }

  // ----- the atomic phase -----

  predicate HasOpenUpvalues(h: Heap, th: Id) {
    exists u :: u in h && OpenOn(h, u, th)
  }

  /** Where 'propagatemark' leaves 'o' in the atomic phase. */
  function AtomicLinked(m: State, o: Id, hasclears: bool, hasww: bool): State
    requires o in m.heap
  {
    match m.heap[o]
    case Thread(_) => if HasOpenUpvalues(m.heap, o) then m.(twups := m.twups + {o}) else m
    case Table(_, _, _) =>
      (match ModeOf(m.heap, o)
       case Strong => m
       case WeakValues =>
         if hasclears then m.(color := m.color[o := Gray], weak := m.weak + {o})
         else m.(color := m.color[o := Gray], again := m.again + {o})
       case Ephemeron =>
         if hasww then m.(color := m.color[o := Gray], ephemeron := m.ephemeron + {o})
         else if hasclears then m.(color := m.color[o := Gray], allweak := m.allweak + {o})
         else m
       case AllWeak => m.(color := m.color[o := Gray], allweak := m.allweak + {o}))
    case _ => m
  }

  /** 'o' needs no further visit: it is not visited in this phase, or what it holds strongly
      is marked, and what it holds weakly is marked or its table is listed for clearing. */
  ghost predicate Done(s: State, parked: set<Id>, o: Id)
    requires o in s.heap
  {
    var h, marked := s.heap, MarkedSet(s);
    match h[o]
    case Table(_, mt, es) => o in parked ||
      (match ModeOf(h, o)
       case Strong => Refs(h, o) <= marked
       case WeakValues =>
         RefSet(mt) + Keys(es) <= marked && (o in s.weak || Vals(es) <= marked)
       case Ephemeron =>
         && RefSet(mt) + Strings(h, Keys(es)) <= marked
         && (o in s.ephemeron || (Vals(es) <= marked && (o in s.allweak || Keys(es) <= marked)))
       case AllWeak => RefSet(mt) <= marked && (o in s.allweak || Refs(h, o) <= marked))
    case Thread(_) => Refs(h, o) <= marked && (HasOpenUpvalues(h, o) ==> o in s.twups)
    case _ => Refs(h, o) <= marked
  }

  /** Every marked object outside 'pending' is done. */
  ghost predicate Settled(s: State, parked: set<Id>, pending: set<Id>) {
    forall o :: o in MarkedSet(s) && o in s.heap && o !in pending ==> Done(s, parked, o)
  }

  /** What the lists hold in the atomic phase. */
  ghost predicate ListKinds(h: Heap, marked: set<Id>, gray: set<Id>, weak: set<Id>, ephemeron: set<Id>,
                            allweak: set<Id>, parked: set<Id>)
  {
    && gray + weak + ephemeron + allweak <= marked <= h.Keys
    && gray !! ephemeron && gray !! allweak && ephemeron !! allweak && weak !! allweak
    && parked <= allweak
    && (forall o :: o in gray ==> Linkable(h[o]))
    && (forall o :: o in weak ==> h[o].Table? && ModeOf(h, o).WeakValues?)
    && (forall o :: o in ephemeron ==> h[o].Table? && ModeOf(h, o).Ephemeron?)
    && (forall o :: o in allweak ==> h[o].Table? && (o in parked || ModeOf(h, o).AllWeak? || ModeOf(h, o).Ephemeron?))
  }

  ghost predicate AtomicLists(s: State, parked: set<Id>) {
    && s.color.Keys == s.heap.Keys
    && ListKinds(s.heap, MarkedSet(s), s.gray, s.weak, s.ephemeron, s.allweak, parked)
  }

  /** Marked objects kept out of the way: in none of the lists being worked on. */
  ghost predicate Apart(s: State, skip: set<Id>) {
    skip <= MarkedSet(s) && skip !! s.gray && skip !! s.ephemeron && skip !! s.allweak
  }

  /** One visit of the atomic phase. */
  ghost predicate Visited(s: State, parked: set<Id>, m: State, o: Id, hasclears: bool, hasww: bool, s2: State) {
    && o in s.gray && o in s.heap && Linkable(s.heap[o])
    && Spreads(s.(color := s.color[o := Black], gray := s.gray - {o}), parked, m)
    && TraverseDone(s.heap, hasclears, hasww, MarkedSet(s), MarkedSet(m), o)
    && s2 == AtomicLinked(m, o, hasclears, hasww)
  }

  lemma LinkedOther(m: State, o: Id)
    requires o in m.heap && o in m.color
    ensures !m.heap[o].Table? ==> Linked(m, o) == if m.heap[o].Thread? then m.(color := m.color[o := Gray], again := m.again + {o}) else m
  {
  }

  lemma AtomicLinks(s: State, parked: set<Id>, m: State, o: Id, hasclears: bool, hasww: bool, s2: State)
    requires o in s.gray && o in s.heap && Linkable(s.heap[o])
    requires Spreads(s.(color := s.color[o := Black], gray := s.gray - {o}), parked, m)
    requires TraverseDone(s.heap, hasclears, hasww, MarkedSet(s), MarkedSet(m), o)
    requires o in m.heap && (if m.heap[o].Thread? then
        s2 == (if HasOpenUpvalues(m.heap, o) then m.(twups := m.twups + {o}) else m)
      else if m.heap[o].Table? then s2 == AtomicLinked(m, o, hasclears, hasww) else s2 == m)
    ensures Visited(s, parked, m, o, hasclears, hasww, s2)
  {
    hide Spreads, TraverseDone, HasOpenUpvalues;
  }

  lemma SettledSame(s: State, s2: State, parked: set<Id>, pending: set<Id>)
    requires Settled(s, parked, pending) && s2 == s.(gray := s2.gray)
    ensures Settled(s2, parked, pending)
  {
    assert MarkedSet(s2) == MarkedSet(s);
    forall o | o in MarkedSet(s2) && o in s2.heap && o !in pending
      ensures Done(s2, parked, o)
    {
      assert Done(s, parked, o);
    }
  }

  lemma DoneMono(s: State, parked: set<Id>, o: Id, s2: State)
    requires o in s.heap && s2.heap == s.heap && Done(s, parked, o)
    requires MarkedSet(s) <= MarkedSet(s2)
    requires s.weak <= s2.weak && s.ephemeron <= s2.ephemeron && s.allweak <= s2.allweak && s.twups <= s2.twups
    ensures Done(s2, parked, o)
  {
  }

  lemma FreshIsDone(h: Heap, s2: State, parked: set<Id>, o: Id)
    requires o in h && h == s2.heap && o in s2.color && FreshMark(h, s2, o) && !Linkable(h[o])
    ensures Done(s2, parked, o)
  {
  }

  lemma VisitedIsDone(s: State, parked: set<Id>, m: State, o: Id, hasclears: bool, hasww: bool, s2: State)
    requires s.color.Keys == s.heap.Keys && Visited(s, parked, m, o, hasclears, hasww, s2)
    ensures MarkedSet(s2) == MarkedSet(m) && o in MarkedSet(s2) && MarkedSet(s) <= MarkedSet(m)
    ensures s2.heap == s.heap && s2.color.Keys == s.color.Keys
    ensures Done(s2, parked, o)
  {
    hide EntryVisited, WithinBut, TraverseDone;
    var b := s.(color := s.color[o := Black], gray := s.gray - {o});
    MarksGrow(b, m);
    assert MarkedSet(b) == MarkedSet(s) + {o};
    assert Marked(b, o) && m.color[o].Black? && o in MarkedSet(m);
    hide Marks, MarkedSet, AtomicLinked, Advances;
    LinkedAdvances(m, parked, o, hasclears, hasww, s2);
    LinkedKeeps(m, o, hasclears, hasww);
    LinkedIsDone(m, parked, o, hasclears, hasww, MarkedSet(s), MarkedSet(m), s2);
  }

  lemma LinkedKeeps(m: State, o: Id, hasclears: bool, hasww: bool)
    requires o in m.heap && o in m.color
    ensures var s2 := AtomicLinked(m, o, hasclears, hasww); s2.heap == m.heap && s2.color.Keys == m.color.Keys
  {
  }

  lemma LinkedIsDone(m: State, parked: set<Id>, o: Id, hasclears: bool, hasww: bool, before: set<Id>, now: set<Id>, s2: State)
    requires o in m.heap && Linkable(m.heap[o]) && TraverseDone(m.heap, hasclears, hasww, before, now, o)
    requires s2 == AtomicLinked(m, o, hasclears, hasww) && MarkedSet(s2) == now && before <= now
    ensures Done(s2, parked, o)
  {
    hide EntryVisited, MarkedSet;
    if m.heap[o].Table? && ModeOf(m.heap, o).Ephemeron? {
      EntriesVisited(m.heap, o, hasclears, hasww, before, now);
    }
  }

  /** A stretch of the atomic phase: marks and lists only grow. */
  ghost predicate Advances(s: State, parked: set<Id>, s2: State) {
    Grows(s, parked, s2) && s.ephemeron <= s2.ephemeron
  }

  ghost predicate Grows(s: State, parked: set<Id>, s2: State) {
    && s2.heap == s.heap && s2.white == s.white && s2.phase == s.phase
    && s2.roots == s.roots && s2.ahead == s.ahead
    && s2.color.Keys == s.color.Keys
    && MarkedSet(s) <= MarkedSet(s2)
    && (forall x :: x in s.color && !Marked(s2, x) ==> s2.color[x] == s.color[x])
    && WithinBut(s.heap, parked, MarkedSet(s), MarkedSet(s2))
    && s.weak <= s2.weak && s.allweak <= s2.allweak && s.twups <= s2.twups <= s.twups + MarkedSet(s2)
  }

  lemma AdvancesNot(s: State, parked: set<Id>)
    ensures Advances(s, parked, s)
  {
  }

  lemma AdvancesTransitive(s: State, parked: set<Id>, s1: State, s2: State)
    requires Grows(s, parked, s1) && Grows(s1, parked, s2)
    ensures Grows(s, parked, s2)
    ensures Advances(s, parked, s1) && Advances(s1, parked, s2) ==> Advances(s, parked, s2)
  {
    forall c: set<Id> | MarkedSet(s) <= c && ClosedBut(s.heap, parked, c)
      ensures MarkedSet(s2) <= c
    {
      assert MarkedSet(s1) <= c;
    }
  }

  /** The lists after a visit. */
  lemma LinkedAdvances(m: State, parked: set<Id>, o: Id, hasclears: bool, hasww: bool, s2: State)
    requires o in m.heap && o in m.color && m.color[o].Black? && s2 == AtomicLinked(m, o, hasclears, hasww)
    ensures MarkedSet(s2) == MarkedSet(m) && Advances(m, parked, s2) && s2.gray == m.gray
    ensures forall x :: x in m.color && x != o ==> s2.color[x] == m.color[x]
  {
    hide HasOpenUpvalues;
    assert MarkedSet(s2) == MarkedSet(m);
  }

  /** Taking 'o' out of 'gray' and marking what it holds. */
  lemma SpreadAdvances(s: State, parked: set<Id>, m: State, o: Id)
    requires s.color.Keys == s.heap.Keys && o in MarkedSet(s)
    requires Spreads(s.(color := s.color[o := Black], gray := s.gray - {o}), parked, m)
    ensures Advances(s, parked, m) && o in m.color && m.color[o].Black? && m.heap == s.heap
    ensures m.gray == (s.gray - {o}) + LinkableOf(s.heap, MarkedSet(m) - MarkedSet(s))
    ensures forall x :: x in MarkedSet(m) - MarkedSet(s) ==> FreshMark(s.heap, m, x)
  {
    hide FreshMark, LinkableOf, WithinBut;
    var b := s.(color := s.color[o := Black], gray := s.gray - {o});
    assert MarkedSet(b) == MarkedSet(s);
    MarksGrow(b, m);
    assert Marked(b, o) && m.color[o].Black?;
    assert Fresh(b, m) == MarkedSet(m) - MarkedSet(s);
    assert forall x :: x in s.color && !Marked(m, x) ==> !Marked(b, x) && x != o;
  }

  lemma VisitedAdvances(s: State, parked: set<Id>, m: State, o: Id, hasclears: bool, hasww: bool, s2: State)
    requires s.color.Keys == s.heap.Keys && o in MarkedSet(s)
    requires Visited(s, parked, m, o, hasclears, hasww, s2)
    ensures Advances(s, parked, s2)
    ensures s2.gray == (s.gray - {o}) + LinkableOf(s.heap, MarkedSet(s2) - MarkedSet(s))
    ensures forall x :: x in MarkedSet(s2) - MarkedSet(s) ==> FreshMark(s.heap, s2, x)
  {
    hide TraverseDone, AtomicLinked, Spreads, Grows, LinkableOf;
    SpreadAdvances(s, parked, m, o);
    LinkedAdvances(m, parked, o, hasclears, hasww, s2);
    AdvancesTransitive(s, parked, m, s2);
    GrowsKeys(s, parked, m);
    forall x | x in MarkedSet(s2) - MarkedSet(s)
      ensures FreshMark(s.heap, s2, x)
    {
      FreshRecolored(s.heap, m, s2, x);
    }
  }

  lemma GrowsKeys(s: State, parked: set<Id>, s2: State)
    requires Grows(s, parked, s2)
    ensures s2.color.Keys == s.color.Keys && s2.heap == s.heap
  {
  }

  lemma FreshRecolored(h: Heap, m: State, s2: State, x: Id)
    requires x in h && x in m.color && x in s2.color && FreshMark(h, m, x)
    requires s2.color[x] == m.color[x] && MarkedSet(s2) == MarkedSet(m)
    ensures FreshMark(h, s2, x)
  {
  }

  /** A visit settles 'o', and each newly marked object is settled or gray. */
  lemma VisitedSettles(s: State, parked: set<Id>, m: State, o: Id, hasclears: bool, hasww: bool, s2: State, skip: set<Id>)
    requires AtomicLists(s, parked) && Settled(s, parked, s.gray + skip) && o in s.gray
    requires Visited(s, parked, m, o, hasclears, hasww, s2)
    ensures Advances(s, parked, s2) && Settled(s2, parked, s2.gray + skip)
  {
    hide Visited, Done, WithinBut;
    VisitedAdvances(s, parked, m, o, hasclears, hasww, s2);
    forall x | x in MarkedSet(s2) && x in s.heap && x !in s2.gray + skip
      ensures Done(s2, parked, x)
    {
      if x == o {
        VisitedIsDone(s, parked, m, o, hasclears, hasww, s2);
      } else if x in MarkedSet(s) {
        DoneMono(s, parked, x, s2);
      } else {
        FreshIsDone(s.heap, s2, parked, x);
      }
    }
  }

  lemma MarksKeepsAtomicLists(s: State, parked: set<Id>, s2: State)
    requires AtomicLists(s, parked) && Marks(s, s2)
    ensures AtomicLists(s2, parked)
  {
    hide FreshMark;
    MarksGrow(s, s2);
    forall o | o in s2.gray
      ensures o in s.heap && Linkable(s.heap[o]) && o !in parked && o in MarkedSet(s2)
    {
      if o !in s.gray {
        assert o in Fresh(s, s2);
        assert parked <= MarkedSet(s);
      }
    }
  }

  lemma ListKindsAdd(h: Heap, marked: set<Id>, gray: set<Id>, weak: set<Id>, ephemeron: set<Id>,
                     allweak: set<Id>, parked: set<Id>, o: Id)
    requires ListKinds(h, marked, gray, weak, ephemeron, allweak, parked)
    requires o in marked && o !in gray && o !in ephemeron && o !in allweak && h[o].Table?
    ensures ModeOf(h, o).WeakValues? ==> ListKinds(h, marked, gray, weak + {o}, ephemeron, allweak, parked)
    ensures ModeOf(h, o).Ephemeron? ==> ListKinds(h, marked, gray, weak, ephemeron + {o}, allweak, parked)
    ensures ModeOf(h, o).Ephemeron? || ModeOf(h, o).AllWeak? ==>
      ListKinds(h, marked, gray, weak, ephemeron, allweak + {o}, parked)
  {
  }

  /** Linking 'o' in the list its flags select. */
  lemma LinkedLists(m: State, parked: set<Id>, o: Id, hasclears: bool, hasww: bool, s2: State)
    requires AtomicLists(m, parked) && o in m.heap && m.color[o].Black?
    requires o !in m.gray && o !in m.ephemeron && o !in m.allweak
    requires s2 == AtomicLinked(m, o, hasclears, hasww)
    ensures AtomicLists(s2, parked)
  {
    hide HasOpenUpvalues, ListKinds;
    assert MarkedSet(s2) == MarkedSet(m);
    if m.heap[o].Table? {
      ListKindsAdd(m.heap, MarkedSet(m), m.gray, m.weak, m.ephemeron, m.allweak, parked, o);
    }
  }

  lemma VisitedLists(s: State, parked: set<Id>, m: State, o: Id, hasclears: bool, hasww: bool, s2: State)
    requires AtomicLists(s, parked) && Visited(s, parked, m, o, hasclears, hasww, s2)
    ensures AtomicLists(s2, parked)
  {
    hide TraverseDone, FreshMark, WithinBut, AtomicLinked;
    var b := s.(color := s.color[o := Black], gray := s.gray - {o});
    assert MarkedSet(b) == MarkedSet(s);
    assert AtomicLists(b, parked);
    MarksKeepsAtomicLists(b, parked, m);
    assert Marked(b, o) && m.color[o].Black?;
    LinkedLists(m, parked, o, hasclears, hasww, s2);
  }

  lemma VisitedApart(s: State, parked: set<Id>, m: State, o: Id, hasclears: bool, hasww: bool, s2: State, skip: set<Id>)
    requires s.color.Keys == s.heap.Keys && o in MarkedSet(s) && Apart(s, skip)
    requires Visited(s, parked, m, o, hasclears, hasww, s2)
    ensures Apart(s2, skip)
  {
    hide TraverseDone, FreshMark, WithinBut, HasOpenUpvalues;
    VisitedAdvances(s, parked, m, o, hasclears, hasww, s2);
    assert s2.ephemeron <= s.ephemeron + {o} && s2.allweak <= s.allweak + {o};
  }

  // ----- ephemeron convergence -----

  /** All ephemeron tables listed as done in a round that started with marks 'm0'. */
  ghost predicate RoundVisited(s: State, m0: set<Id>, ws: set<Id>) {
    forall w :: w in ws && w in s.heap && s.heap[w].Table? ==>
      forall e :: e in s.heap[w].entries ==> EntryVisited(s.heap, e, true, true, m0, MarkedSet(s))
  }

  lemma RoundMono(s: State, m0: set<Id>, ws: set<Id>, s2: State)
    requires RoundVisited(s, m0, ws) && s2.heap == s.heap && MarkedSet(s) <= MarkedSet(s2)
    ensures RoundVisited(s2, m0, ws)
  {
    hide EntryVisited;
    forall w, e | w in ws && w in s.heap && s.heap[w].Table? && e in s.heap[w].entries
      ensures EntryVisited(s.heap, e, true, true, m0, MarkedSet(s2))
    {
      EntryVisitedMono(s.heap, e, true, true, true, true, m0, m0, MarkedSet(s), MarkedSet(s2));
    }
  }

  lemma RoundExtend(s: State, m0: set<Id>, ws: set<Id>, w: Id, hc: bool, ww: bool, before: set<Id>)
    requires RoundVisited(s, m0, ws) && m0 <= before && w in s.heap && s.heap[w].Table?
    requires forall e :: e in s.heap[w].entries ==> EntryVisited(s.heap, e, hc, ww, before, MarkedSet(s))
    ensures RoundVisited(s, m0, ws + {w})
  {
    hide EntryVisited;
    forall e | e in s.heap[w].entries
      ensures EntryVisited(s.heap, e, true, true, m0, MarkedSet(s))
    {
      EntryVisitedMono(s.heap, e, hc, ww, true, true, before, m0, MarkedSet(s), MarkedSet(s));
    }
  }

  /** A round that marked nothing but strings has converged. */
  lemma RoundConverged(s: State, m0: set<Id>, w: Id)
    requires RoundVisited(s, m0, {w}) && w in s.heap && s.heap[w].Table?
    requires m0 <= MarkedSet(s) && MarkedSet(s) - m0 <= Strings(s.heap, s.heap.Keys)
    ensures EphemeronClosed(s.heap, MarkedSet(s), w)
  {
    hide EntryVisited;
    EntriesVisited(s.heap, w, true, true, m0, MarkedSet(s));
  }

  ghost predicate Converged(s: State) {
    forall w :: w in s.ephemeron && w in s.heap && s.heap[w].Table? ==>
      EphemeronClosed(s.heap, MarkedSet(s), w)
  }

  /** A revisit is a visit of a table taken from the ephemeron list instead of 'gray'. */
  lemma Revisited(s0: State, parked: set<Id>, skip: set<Id>, w: Id, m: State, hc: bool, ww: bool, s2: State)
    requires s0.gray == {} && AtomicLists(s0, parked) && Settled(s0, parked, skip + {w})
    requires w in s0.heap && s0.heap[w].Table? && ModeOf(s0.heap, w).Ephemeron? && w !in parked
    requires w in MarkedSet(s0) && RefSet(s0.heap[w].mt) <= MarkedSet(s0)
    requires w !in s0.ephemeron && w !in s0.allweak && Apart(s0, skip) && w !in skip
    requires Spreads(s0.(color := s0.color[w := Black]), parked, m)
    requires forall e :: e in s0.heap[w].entries ==> EntryVisited(s0.heap, e, hc, ww, MarkedSet(s0), MarkedSet(m))
    requires (ww ==> hc) && s2 == AtomicLinked(m, w, hc, ww)
    ensures AtomicLists(s2, parked) && Settled(s2, parked, s2.gray + skip)
    ensures Advances(s0, parked, s2) && MarkedSet(s2) == MarkedSet(m) && s2.ephemeron <= s0.ephemeron + {w}
    ensures s2.gray == LinkableOf(s0.heap, MarkedSet(m) - MarkedSet(s0)) && Apart(s2, skip)
  {
    hide Settled, EntryVisited, WithinBut, FreshMark, Done, AtomicLinked, Spreads, ListKinds;
    var s := s0.(gray := {w});
    RevisitAsVisit(s0, parked, w, m, hc, ww, s2);
    assert s.gray + skip == skip + {w};
    SettledSame(s0, s, parked, skip + {w});
    VisitedAdvances(s, parked, m, w, hc, ww, s2);
    VisitedSettles(s, parked, m, w, hc, ww, s2, skip);
    VisitedLists(s, parked, m, w, hc, ww, s2);
    VisitedIsDone(s, parked, m, w, hc, ww, s2);
    assert MarkedSet(s) == MarkedSet(s0);
    VisitedApart(s, parked, m, w, hc, ww, s2, skip);
    assert Advances(s0, parked, s2);
    LinkedEphemeron(m, w, hc, ww);
  }

  lemma LinkedEphemeron(m: State, w: Id, hc: bool, ww: bool)
    requires w in m.heap
    ensures AtomicLinked(m, w, hc, ww).ephemeron <= m.ephemeron + {w}
  {
  }

  lemma RevisitAsVisit(s0: State, parked: set<Id>, w: Id, m: State, hc: bool, ww: bool, s2: State)
    requires s0.gray == {} && AtomicLists(s0, parked)
    requires w in s0.heap && s0.heap[w].Table? && ModeOf(s0.heap, w).Ephemeron?
    requires w in MarkedSet(s0) && RefSet(s0.heap[w].mt) <= MarkedSet(s0)
    requires w !in s0.ephemeron && w !in s0.allweak
    requires Spreads(s0.(color := s0.color[w := Black]), parked, m)
    requires forall e :: e in s0.heap[w].entries ==> EntryVisited(s0.heap, e, hc, ww, MarkedSet(s0), MarkedSet(m))
    requires (ww ==> hc) && s2 == AtomicLinked(m, w, hc, ww)
    ensures Visited(s0.(gray := {w}), parked, m, w, hc, ww, s2) && AtomicLists(s0.(gray := {w}), parked)
    ensures m.ephemeron == s0.ephemeron && m.heap == s0.heap
  {
    hide EntryVisited, WithinBut, FreshMark, AtomicLinked;
    var s := s0.(gray := {w});
    var b := s0.(color := s0.color[w := Black]);
    assert MarkedSet(s) == MarkedSet(s0) && MarkedSet(b) == MarkedSet(s0);
    assert b == s.(color := s.color[w := Black], gray := s.gray - {w});
    MarksGrow(b, m);
  }

  /** Taking the whole ephemeron list: its tables become pending. */
  lemma StartRound(s0: State, parked: set<Id>, s: State)
    requires AtomicLists(s0, parked) && Settled(s0, parked, {}) && s == s0.(ephemeron := {})
    ensures AtomicLists(s, parked) && Settled(s, parked, s0.ephemeron) && Grows(s0, parked, s)
    ensures MarkedSet(s) == MarkedSet(s0) && RoundVisited(s, MarkedSet(s0), {})
    ensures s0.gray == {} ==> Apart(s, s0.ephemeron)
  {
    assert MarkedSet(s) == MarkedSet(s0);
    forall o | o in MarkedSet(s) && o in s.heap && o !in s0.ephemeron
      ensures Done(s, parked, o)
    {
      assert Done(s0, parked, o);
    }
  }

  lemma ListedEphemeron(s0: State, parked: set<Id>, w: Id)
    requires AtomicLists(s0, parked) && Settled(s0, parked, {}) && w in s0.ephemeron
    ensures w in s0.heap && s0.heap[w].Table? && ModeOf(s0.heap, w).Ephemeron? && w !in parked
    ensures w in MarkedSet(s0) && RefSet(s0.heap[w].mt) <= MarkedSet(s0)
  {
    assert Done(s0, parked, w);
  }

  lemma RoundStep(s1: State, m0: set<Id>, w: Id, hc: bool, ww: bool, s2: State)
    requires RoundVisited(s1, m0, s1.ephemeron) && s2.heap == s1.heap
    requires m0 <= MarkedSet(s1) <= MarkedSet(s2) && s2.ephemeron <= s1.ephemeron + {w}
    requires w in s1.heap && s1.heap[w].Table?
    requires forall e :: e in s1.heap[w].entries ==> EntryVisited(s1.heap, e, hc, ww, MarkedSet(s1), MarkedSet(s2))
    ensures RoundVisited(s2, m0, s2.ephemeron)
  {
    hide EntryVisited;
    RoundMono(s1, m0, s1.ephemeron, s2);
    RoundExtend(s2, m0, s1.ephemeron, w, hc, ww, MarkedSet(s1));
  }

  lemma RoundEnds(s: State, m0: set<Id>)
    requires RoundVisited(s, m0, s.ephemeron)
    requires m0 <= MarkedSet(s) && MarkedSet(s) - m0 <= Strings(s.heap, s.heap.Keys)
    ensures Converged(s)
  {
    hide EntryVisited;
    forall w | w in s.ephemeron && w in s.heap && s.heap[w].Table?
      ensures EphemeronClosed(s.heap, MarkedSet(s), w)
    {
      RoundConverged(s, m0, w);
    }
  }
}
