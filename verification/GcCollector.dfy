/** The collector itself: 'global_State' with its mark bits, gray lists and sweep pointer. */
module GcCollector {
  import opened Options
  import opened GcHeap
  import opened GcSteps
  import opened GcMarking
  import opened GcAtomic

  const GCSWEEPMAX: nat := 100

  /** The key of an entry is white and no string: the entry may have to be cleared. */
  ghost predicate WhiteKey(s: State, e: Entry) {
    e.key.Some? && e.key.value in s.heap && !s.heap[e.key.value].Str? && !Marked(s, e.key.value)
  }

  lemma WhiteBefore(s: State, s1: State, e: Entry)
    requires s1.heap == s.heap && MarkedSet(s) <= MarkedSet(s1) && s1.color.Keys == s.color.Keys
    ensures WhiteKey(s1, e) ==> WhiteKey(s, e)
  {
    if e.key.Some? && Marked(s, e.key.value) {
      assert e.key.value in MarkedSet(s1);
    }
  }

  class Collector {
    var heap: Heap
    var color: map<Id, Color>
    var white: bool
    var phase: Phase
    var gray: set<Id>
    var again: set<Id>
    var weak: set<Id>
    var ephemeron: set<Id>
    var allweak: set<Id>
    var twups: set<Id>
    var roots: set<Id>
    var ahead: set<Id>

    ghost function Snap(): State
      reads this
    {
      State(heap, color, white, phase, gray, again, weak, ephemeron, allweak, twups, roots, ahead)
    }

    /** A new state: the main thread, white, and the collector paused. */
    constructor ()
      ensures Snap() == State(map[0 := Thread([])], map[0 := White(false)], false, Pause, {}, {}, {}, {}, {}, {}, {0}, {})
    {
      heap, color, white, phase := map[0 := Thread([])], map[0 := White(false)], false, Pause;
      gray, again, weak, ephemeron, allweak, twups, roots, ahead := {}, {}, {}, {}, {}, {}, {0}, {};
    }

    /** 'reallymarkobject' */
    method ReallyMark(o: Id, ghost parked: set<Id>)
      requires HeapOk(heap) && color.Keys == heap.Keys
      requires o in heap && color[o].White?
      modifies this`color, this`gray
      ensures MarksFrom(old(Snap()), parked, {o}, Snap()) && Marked(Snap(), o)
      decreases Rank(heap[o]), 1
    {
      ghost var s := Snap();
      assert Refs(heap, o) <= heap.Keys && Typed(heap, o);
      match heap[o] {
        case Str =>
          color := color[o := Black];
          SimpleMarked(s, parked, o, Snap());
        case OpenUp(_, _) =>
          color := color[o := Gray];  // open upvalues are kept gray
          MarkRef(UpContent(heap, o), Rank(heap[o]), parked);
          UpvalueMarked(s, parked, o, Gray, Snap());
        case ClosedUp(_) =>
          color := color[o := Black];
          MarkRef(UpContent(heap, o), Rank(heap[o]), parked);
          UpvalueMarked(s, parked, o, Black, Snap());
        case PlainUdata(mt) =>
          MarkRef(mt, Rank(heap[o]), parked);
          ghost var s1 := Snap();
          color := color[o := Black];
          UdataMarked(s, parked, o, s1, Snap());
        case _ =>
          color := color[o := Gray];
          gray := gray + {o};
          SimpleMarked(s, parked, o, Snap());
      }
    }

    /** 'markvalue' / 'markobjectN' */
    method MarkRef(r: Ref, ghost bound: nat, ghost parked: set<Id>)
      requires HeapOk(heap) && color.Keys == heap.Keys
      requires r.Some? ==> r.value in heap && Rank(heap[r.value]) < bound
      modifies this`color, this`gray
      ensures MarksFrom(old(Snap()), parked, RefSet(r), Snap()) && RefSet(r) <= MarkedSet(Snap())
      decreases bound, 0
    {
      if r.Some? && color[r.value].White? {
        ReallyMark(r.value, parked);
      } else {
        MarksNothing(Snap());
      }
    }

    /** Marks every object of a set: the loops of the 'traverse' functions. */
    method MarkSet(ids: set<Id>, ghost parked: set<Id>)
      requires HeapOk(heap) && color.Keys == heap.Keys && ids <= heap.Keys
      modifies this`color, this`gray
      ensures MarksFrom(old(Snap()), parked, ids, Snap()) && ids <= MarkedSet(Snap())
    {
      hide Marks, WithinBut, HeapOk;
      var todo := ids;
      MarksNothing(Snap());
      WithinEmpty(heap, parked, ids, Snap());
      while todo != {}
        invariant todo <= ids && color.Keys == heap.Keys
        invariant MarksFrom(old(Snap()), parked, ids, Snap()) && ids - todo <= MarkedSet(Snap())
        decreases todo
      {
        var r :| r in todo;
        ghost var s1 := Snap();
        MarkRef(Some(r), 3, parked);
        todo := todo - {r};
        WithinMono(heap, parked, {r}, ids, Fresh(s1, Snap()));
        MarksFromTransitive(old(Snap()), parked, ids, s1, Snap());
        MarksGrow(s1, Snap());
      }
    }

    /** 'restartcollection' */
    method RestartCollection()
      requires HeapOk(heap) && color.Keys == heap.Keys && roots <= heap.Keys
      requires phase.Pause?
      modifies this`phase, this`color, this`gray, this`again, this`weak, this`ephemeron, this`allweak
      ensures Restarted(old(Snap()), Snap())
    {
      gray, again, weak, ephemeron, allweak := {}, {}, {}, {}, {};
      phase := Propagate;
      ghost var s1 := Snap();
      MarkSet(roots, {});
      assert MarkedSet(s1) == MarkedSet(old(Snap()));
      assert Fresh(s1, Snap()) == Fresh(old(Snap()), Snap());
    }

    /** 'iscleared': strings are values, so they are marked and never cleared. */
    method IsCleared(r: Ref, ghost parked: set<Id>) returns (cleared: bool)
      requires HeapOk(heap) && color.Keys == heap.Keys && RefSet(r) <= heap.Keys
      modifies this`color, this`gray
      ensures MarksFrom(old(Snap()), parked, Strings(heap, RefSet(r)), Snap())
      ensures Fresh(old(Snap()), Snap()) <= Strings(heap, RefSet(r))
      ensures cleared <==> r.Some? && !heap[r.value].Str? && !Marked(old(Snap()), r.value)
      ensures !cleared ==> RefSet(r) <= MarkedSet(Snap())
    {
      cleared := false;
      MarksNothing(Snap());
      if r.Some? {
        if !heap[r.value].Str? {
          cleared := color[r.value].White?;
        } else if color[r.value].White? {
          ghost var s := Snap();
          color := color[r.value := Black];  // 'markobject' of a string
          SimpleMarked(s, parked, r.value, Snap());
          assert Fresh(s, Snap()) == {r.value} == Strings(heap, RefSet(r));
        }
      }
    }

    /** One iteration of the hash-part loop of 'traverseephemeron'. */
    method VisitEntry(o: Id, e: Entry, ghost parked: set<Id>)
      returns (marked: bool, hasclears: bool, hasww: bool)
      requires HeapOk(heap) && color.Keys == heap.Keys
      requires o in heap && heap[o].Table? && ModeOf(heap, o).Ephemeron? && o !in parked
      requires e in heap[o].entries && Marked(Snap(), o)
      modifies this`color, this`gray
      ensures Spreads(old(Snap()), parked, Snap())
      ensures EntryVisited(heap, e, hasclears, hasww, MarkedSet(old(Snap())), MarkedSet(Snap()))
      ensures hasclears <==> WhiteKey(old(Snap()), e)
      ensures hasww <==> WhiteKey(old(Snap()), e) && e.val.Some? && !Marked(old(Snap()), e.val.value)
      ensures !marked ==> Fresh(old(Snap()), Snap()) <= Strings(heap, heap.Keys)
      ensures marked ==> Fresh(old(Snap()), Snap()) != {}
    {
      hide Marks, WithinBut, HeapOk, ModeOf, StrongRefs;
      marked, hasclears, hasww := false, false, false;
      EntryRefs(heap, o, e);
      EphemeronKeyRefs(heap, o, e);
      var cleared := IsCleared(e.key, parked);
      ghost var s1 := Snap();
      WithinStrong(heap, parked, MarkedSet(old(Snap())), o, Strings(heap, RefSet(e.key)));
      MarksFromSpreads(old(Snap()), parked, Strings(heap, RefSet(e.key)), s1);
      MarksGrow(old(Snap()), s1);
      if cleared {
        hasclears := true;
        assert Strings(heap, RefSet(e.key)) == {};
        assert e.val.Some? ==> (e.val.value in MarkedSet(s1) <==> e.val.value in MarkedSet(old(Snap())) + Fresh(old(Snap()), s1));
        hasww := e.val.Some? && color[e.val.value].White?;
      } else if e.val.Some? && color[e.val.value].White? {
        marked := true;
        ReallyMark(e.val.value, parked);
        WithinEphemeron(heap, parked, MarkedSet(s1), o, e);
        MarksFromSpreads(s1, parked, {e.val.value}, Snap());
        SpreadsTransitive(old(Snap()), parked, s1, Snap());
        MarksGrow(s1, Snap());
        assert e.val.value in Fresh(old(Snap()), Snap());
      }
    }

    /** 'traverseephemeron' without its final linking.  The entries are visited in any order. */
    method TraverseEphemeron(o: Id, ghost parked: set<Id>) returns (marked: bool, hasclears: bool, hasww: bool)
      requires HeapOk(heap) && color.Keys == heap.Keys
      requires o in heap && heap[o].Table? && ModeOf(heap, o).Ephemeron? && o !in parked
      requires Marked(Snap(), o)
      modifies this`color, this`gray
      ensures Spreads(old(Snap()), parked, Snap())
      ensures forall e :: e in heap[o].entries ==>
                EntryVisited(heap, e, hasclears, hasww, MarkedSet(old(Snap())), MarkedSet(Snap()))
      ensures hasww ==> hasclears
      ensures hasclears ==> exists e :: e in heap[o].entries && WhiteKey(old(Snap()), e)
      ensures !marked ==> Fresh(old(Snap()), Snap()) <= Strings(heap, heap.Keys)
      ensures marked ==> Fresh(old(Snap()), Snap()) != {}
    {
      hide Marks, WithinBut, EntryVisited, HeapOk, WhiteKey;
      var es := heap[o].entries;
      var todo := es;
      marked, hasclears, hasww := false, false, false;
      SpreadsNothing(Snap(), parked);
      MarksNothing(Snap());
      while todo != {}
        invariant todo <= es && color.Keys == heap.Keys && Marked(Snap(), o)
        invariant Spreads(old(Snap()), parked, Snap())
        invariant forall e :: e in es - todo ==>
                    EntryVisited(heap, e, hasclears, hasww, MarkedSet(old(Snap())), MarkedSet(Snap()))
        invariant hasww ==> hasclears
        invariant hasclears ==> exists e :: e in heap[o].entries && WhiteKey(old(Snap()), e)
        invariant !marked ==> Fresh(old(Snap()), Snap()) <= Strings(heap, heap.Keys)
        invariant marked ==> Fresh(old(Snap()), Snap()) != {}
        decreases todo
      {
        var e :| e in todo;
        todo := todo - {e};
        ghost var s1 := Snap();
        MarksGrow(old(Snap()), s1);
        assert o in MarkedSet(s1);
        var m, hc, ww := VisitEntry(o, e, parked);
        WhiteBefore(old(Snap()), s1, e);
        MarksGrow(s1, Snap());
        SpreadsTransitive(old(Snap()), parked, s1, Snap());
        assert Fresh(old(Snap()), Snap()) == Fresh(old(Snap()), s1) + Fresh(s1, Snap());
        forall x | x in es - todo
          ensures EntryVisited(heap, x, hasclears || hc, hasww || ww, MarkedSet(old(Snap())), MarkedSet(Snap()))
        {
          if x == e {
            EntryVisitedMono(heap, x, hc, ww, hasclears || hc, hasww || ww,
                             MarkedSet(s1), MarkedSet(old(Snap())), MarkedSet(Snap()), MarkedSet(Snap()));
          } else {
            EntryVisitedMono(heap, x, hasclears, hasww, hasclears || hc, hasww || ww,
                             MarkedSet(old(Snap())), MarkedSet(old(Snap())), MarkedSet(s1), MarkedSet(Snap()));
          }
        }
        marked, hasclears, hasww := marked || m, hasclears || hc, hasww || ww;
      }
    }

    /** 'traverseweakvalue' without its final linking.  Whether the table has an array part,
        which is assumed to hold white values, is left open. */
    method TraverseWeakValue(o: Id, ghost parked: set<Id>) returns (hasclears: bool)
      requires HeapOk(heap) && color.Keys == heap.Keys
      requires o in heap && heap[o].Table? && ModeOf(heap, o).WeakValues? && o !in parked
      requires Marked(Snap(), o)
      modifies this`color, this`gray
      ensures Spreads(old(Snap()), parked, Snap())
      ensures Keys(heap[o].entries) <= MarkedSet(Snap())
      ensures !hasclears ==> Vals(heap[o].entries) <= MarkedSet(Snap())
    {
      hide Marks, WithinBut, HeapOk, StrongRefs;
      var es := heap[o].entries;
      var todo := es;
      hasclears := *;
      SpreadsNothing(Snap(), parked);
      while todo != {}
        invariant todo <= es && color.Keys == heap.Keys && o in MarkedSet(Snap())
        invariant Spreads(old(Snap()), parked, Snap())
        invariant forall e :: e in es - todo ==> RefSet(e.key) <= MarkedSet(Snap())
        invariant !hasclears ==> forall e :: e in es - todo ==> RefSet(e.val) <= MarkedSet(Snap())
        decreases todo
      {
        var e :| e in todo;
        todo := todo - {e};
        EntryRefs(heap, o, e);
        ghost var s1 := Snap();
        WeakValueRefs(heap, o, e);
        MarkRef(e.key, 3, parked);
        ghost var s2 := Snap();
        WithinStrong(heap, parked, MarkedSet(s1), o, RefSet(e.key));
        MarksFromSpreads(s1, parked, RefSet(e.key), s2);
        SpreadsTransitive(old(Snap()), parked, s1, s2);
        MarksGrow(s1, s2);
        if !hasclears {
          hasclears := IsCleared(e.val, parked);
          WithinStrong(heap, parked, MarkedSet(s2), o, Strings(heap, RefSet(e.val)));
          MarksFromSpreads(s2, parked, Strings(heap, RefSet(e.val)), Snap());
          SpreadsTransitive(old(Snap()), parked, s2, Snap());
          MarksGrow(s2, Snap());
        }
      }
    }

    /** The marking part of 'propagatemark'. */
    method Traverse(o: Id, ghost parked: set<Id>) returns (hasclears: bool, hasww: bool)
      requires HeapOk(heap) && color.Keys == heap.Keys
      requires o in heap && Linkable(heap[o]) && o !in parked && Marked(Snap(), o)
      modifies this`color, this`gray
      ensures Spreads(old(Snap()), parked, Snap())
      ensures TraverseDone(heap, hasclears, hasww, MarkedSet(old(Snap())), MarkedSet(Snap()), o)
    {
      hide Marks, WithinBut, EntryVisited;
      hasclears, hasww := false, false;
      assert Refs(heap, o) <= heap.Keys;
      if heap[o].Table? {
        MarkRef(heap[o].mt, 3, parked);
        ghost var s1 := Snap();
        WithinStrong(heap, parked, MarkedSet(old(Snap())), o, RefSet(heap[o].mt));
        MarksFromSpreads(old(Snap()), parked, RefSet(heap[o].mt), s1);
        MarksGrow(old(Snap()), s1);
        assert o in MarkedSet(old(Snap()));
        match ModeOf(heap, o) {
          case Strong => MarkStrong(o, parked);
          case WeakValues => hasclears := TraverseWeakValue(o, parked);
          case Ephemeron =>
            var marked;
            marked, hasclears, hasww := TraverseEphemeron(o, parked);
            EntriesMono(heap, o, hasclears, hasww, MarkedSet(s1), MarkedSet(old(Snap())), MarkedSet(Snap()));
          case AllWeak => SpreadsNothing(s1, parked);
        }
        SpreadsTransitive(old(Snap()), parked, s1, Snap());
        MarksGrow(s1, Snap());
      } else {
        MarkStrong(o, parked);
      }
    }

    method MarkStrong(o: Id, ghost parked: set<Id>)
      requires HeapOk(heap) && color.Keys == heap.Keys
      requires o in heap && Linkable(heap[o]) && !WeakTable(heap, o) && o !in parked && Marked(Snap(), o)
      modifies this`color, this`gray
      ensures Spreads(old(Snap()), parked, Snap()) && Refs(heap, o) <= MarkedSet(Snap())
    {
      hide Marks, WithinBut;
      assert Refs(heap, o) <= heap.Keys;
      MarkSet(Refs(heap, o), parked);
      WithinStrong(heap, parked, MarkedSet(old(Snap())), o, Refs(heap, o));
      MarksFromSpreads(old(Snap()), parked, Refs(heap, o), Snap());
    }

    /** 'propagatemark': in the propagate phase, threads and weak tables go back to a gray
        list; in the atomic phase the flags of the traversal select the list. */
    method PropagateMark(ghost parked: set<Id>) returns (o: Id, ghost m: State, hasclears: bool, hasww: bool)
      requires HeapOk(heap) && color.Keys == heap.Keys
      requires gray != {} && (phase.Propagate? || phase.Atomic?)
      requires forall x :: x in gray ==> x in heap && Linkable(heap[x]) && x !in parked && !color[x].White?
      modifies this`color, this`gray, this`again, this`weak, this`ephemeron, this`allweak, this`twups
      ensures o in old(gray) && phase == old(phase)
      ensures phase.Propagate? ==>
        var s := old(Snap());
        && Spreads(s.(color := s.color[o := Black], gray := s.gray - {o}), parked, m)
        && TraverseDone(heap, hasclears, hasww, MarkedSet(s), MarkedSet(m), o)
        && Snap() == Linked(m, o)
      ensures phase.Atomic? ==> Visited(old(Snap()), parked, m, o, hasclears, hasww, Snap())
    {
      hide Spreads, TraverseDone, HeapOk, Linked;
      o :| o in gray;
      color := color[o := Black];
      gray := gray - {o};
      ghost var b := Snap();
      assert MarkedSet(b) == MarkedSet(old(Snap()));
      hasclears, hasww := Traverse(o, parked);
      m := Snap();
      SpreadsKeepsColor(b, parked, m, o);
      hide Visited, AtomicLinked;
      LinkedOther(m, o);
      if heap[o].Thread? {
        if phase.Propagate? {
          LinkAgain(o);
        } else if HasOpenUpvalues(heap, o) {
          twups := twups + {o};
        }
      } else if heap[o].Table? {
        LinkTable(o, hasclears, hasww);
      }
      if phase.Atomic? {
        AtomicLinks(old(Snap()), parked, m, o, hasclears, hasww, Snap());
      }
    }

    /** The links at the end of the 'traverse' functions for tables. */
    method LinkTable(o: Id, hasclears: bool, hasww: bool)
      requires o in heap && heap[o].Table? && o in color && !color[o].Gray?
      requires phase.Propagate? || phase.Atomic?
      modifies this`color, this`again, this`weak, this`ephemeron, this`allweak
      ensures Snap() == if phase.Propagate? then Linked(old(Snap()), o) else AtomicLinked(old(Snap()), o, hasclears, hasww)
    {
      match ModeOf(heap, o) {
        case Strong =>
        case WeakValues =>
          if phase.Atomic? && hasclears { LinkWeak(o); } else { LinkAgain(o); }
        case Ephemeron =>
          if phase.Propagate? { LinkAgain(o); }
          else if hasww { LinkEphemeron(o); }
          else if hasclears { LinkAllWeak(o); }
        case AllWeak => LinkAllWeak(o);
      }
    }

    // 'linkgclist': the object must not be in a gray list already.

    method LinkAgain(o: Id)
      requires o in color && !color[o].Gray?
      modifies this`color, this`again
      ensures Snap() == old(Snap()).(color := old(color)[o := Gray], again := old(again) + {o})
    {
      color, again := color[o := Gray], again + {o};
    }

    method LinkWeak(o: Id)
      requires o in color && !color[o].Gray?
      modifies this`color, this`weak
      ensures Snap() == old(Snap()).(color := old(color)[o := Gray], weak := old(weak) + {o})
    {
      color, weak := color[o := Gray], weak + {o};
    }

    method LinkEphemeron(o: Id)
      requires o in color && !color[o].Gray?
      modifies this`color, this`ephemeron
      ensures Snap() == old(Snap()).(color := old(color)[o := Gray], ephemeron := old(ephemeron) + {o})
    {
      color, ephemeron := color[o := Gray], ephemeron + {o};
    }

    method LinkAllWeak(o: Id)
      requires o in color && !color[o].Gray?
      modifies this`color, this`allweak
      ensures Snap() == old(Snap()).(color := old(color)[o := Gray], allweak := old(allweak) + {o})
    {
      color, allweak := color[o := Gray], allweak + {o};
    }

    /** 'propagateall', in the atomic phase: empties 'gray'. */
    method PropagateAll(ghost parked: set<Id>, ghost skip: set<Id>)
      requires HeapOk(heap) && phase.Atomic? && Apart(Snap(), skip)
      requires AtomicLists(Snap(), parked) && Settled(Snap(), parked, gray + skip)
      modifies this`color, this`gray, this`again, this`weak, this`ephemeron, this`allweak, this`twups
      ensures gray == {} && AtomicLists(Snap(), parked) && Settled(Snap(), parked, skip)
      ensures Advances(old(Snap()), parked, Snap()) && Apart(Snap(), skip)
    {
      hide Settled, HeapOk, Visited, WithinBut;
      AdvancesNot(Snap(), parked);
      while gray != {}
        invariant Apart(Snap(), skip)
        invariant AtomicLists(Snap(), parked) && Settled(Snap(), parked, gray + skip)
        invariant Advances(old(Snap()), parked, Snap())
        decreases heap.Keys - MarkedSet(Snap()), gray
      {
        ghost var s := Snap();
        var o, m, hasclears, hasww := PropagateMark(parked);
        VisitedSettles(s, parked, m, o, hasclears, hasww, Snap(), skip);
        VisitedLists(s, parked, m, o, hasclears, hasww, Snap());
        VisitedAdvances(s, parked, m, o, hasclears, hasww, Snap());
        VisitedApart(s, parked, m, o, hasclears, hasww, Snap(), skip);
        AdvancesTransitive(old(Snap()), parked, s, Snap());
      }
      assert gray + skip == skip;
    }

    /** Traverses one table of the ephemeron list and links it again. */
    method RevisitEphemeron(w: Id, ghost parked: set<Id>, ghost skip: set<Id>)
      returns (marked: bool, ghost hasclears: bool, ghost hasww: bool)
      requires HeapOk(heap) && phase.Atomic? && gray == {}
      requires AtomicLists(Snap(), parked) && Settled(Snap(), parked, skip + {w})
      requires w in heap && heap[w].Table? && ModeOf(heap, w).Ephemeron? && w !in parked
      requires w in MarkedSet(Snap()) && RefSet(heap[w].mt) <= MarkedSet(Snap())
      requires w !in ephemeron && w !in allweak && w !in skip && Apart(Snap(), skip)
      modifies this`color, this`gray, this`ephemeron, this`allweak
      ensures AtomicLists(Snap(), parked) && Settled(Snap(), parked, gray + skip)
      ensures Advances(old(Snap()), parked, Snap()) && ephemeron <= old(ephemeron) + {w}
      ensures Apart(Snap(), skip)
      ensures forall e :: e in heap[w].entries ==>
                EntryVisited(heap, e, hasclears, hasww, MarkedSet(old(Snap())), MarkedSet(Snap()))
      ensures !marked ==> gray == {} && MarkedSet(Snap()) - MarkedSet(old(Snap())) <= Strings(heap, heap.Keys)
      ensures marked ==> MarkedSet(Snap()) != MarkedSet(old(Snap()))
    {
      hide Settled, HeapOk, EntryVisited, Marks, WithinBut;
      ghost var s := Snap();
      color := color[w := Black];
      ghost var b := Snap();
      assert MarkedSet(b) == MarkedSet(s);
      var hc, ww;
      marked, hc, ww := TraverseEphemeron(w, parked);
      hasclears, hasww := hc, ww;
      ghost var m := Snap();
      SpreadsKeepsColor(b, parked, m, w);
      if ww { LinkEphemeron(w); } else if hc { LinkAllWeak(w); }
      Revisited(s, parked, skip, w, m, hc, ww, Snap());
      assert LinkableOf(heap, Strings(heap, heap.Keys)) == {};
    }

    /** 'convergeephemerons': revisits the ephemeron tables until a round marks nothing. */
    method ConvergeEphemerons(ghost parked: set<Id>)
      requires HeapOk(heap) && phase.Atomic? && gray == {}
      requires AtomicLists(Snap(), parked) && Settled(Snap(), parked, {})
      modifies this`color, this`gray, this`again, this`weak, this`ephemeron, this`allweak, this`twups
      ensures gray == {} && AtomicLists(Snap(), parked) && Settled(Snap(), parked, {})
      ensures Grows(old(Snap()), parked, Snap())
      ensures Converged(Snap())
    {
      hide Settled, HeapOk;
      var changed := true;
      while changed
        invariant gray == {} && AtomicLists(Snap(), parked) && Settled(Snap(), parked, {})
        invariant Grows(old(Snap()), parked, Snap())
        invariant !changed ==> Converged(Snap())
        decreases heap.Keys - MarkedSet(Snap()), changed
      {
        ghost var s := Snap();
        changed := ConvergeRound(parked);
        AdvancesTransitive(old(Snap()), parked, s, Snap());
      }
    }

    /** One round over the ephemeron list, which is rebuilt meanwhile. */
    method ConvergeRound(ghost parked: set<Id>) returns (changed: bool)
      requires HeapOk(heap) && phase.Atomic? && gray == {}
      requires AtomicLists(Snap(), parked) && Settled(Snap(), parked, {})
      modifies this`color, this`gray, this`again, this`weak, this`ephemeron, this`allweak, this`twups
      ensures gray == {} && AtomicLists(Snap(), parked) && Settled(Snap(), parked, {})
      ensures Grows(old(Snap()), parked, Snap())
      ensures changed ==> MarkedSet(Snap()) != MarkedSet(old(Snap()))
      ensures !changed ==> Converged(Snap())
    {
      hide Settled, HeapOk, EntryVisited, WithinBut, EphemeronClosed, RoundVisited, AtomicLists, Strings;
      ghost var s0 := Snap();
      ghost var m0 := MarkedSet(s0);
      var next := ephemeron;
      ephemeron := {};
      changed := false;
      StartRound(s0, parked, Snap());
      while next != {}
        invariant gray == {} && AtomicLists(Snap(), parked) && Settled(Snap(), parked, next)
        invariant Apart(Snap(), next)
        invariant Grows(s0, parked, Snap()) && next <= s0.ephemeron
        invariant changed ==> MarkedSet(Snap()) != m0
        invariant !changed ==> MarkedSet(Snap()) - m0 <= Strings(heap, heap.Keys)
        invariant !changed ==> RoundVisited(Snap(), m0, ephemeron)
        decreases next
      {
        var w :| w in next;
        ListedEphemeron(s0, parked, w);
        ghost var s1 := Snap();
        assert (next - {w}) + {w} == next;
        next := next - {w};
        var marked, hc, ww := RevisitEphemeron(w, parked, next);
        ghost var s2 := Snap();
        AdvancesTransitive(s0, parked, s1, s2);
        if marked {
          PropagateAll(parked, next);
          AdvancesTransitive(s0, parked, s2, Snap());
          changed := true;
        } else if !changed {
          assert gray + next == next;
          RoundStep(s1, m0, w, hc, ww, s2);
          assert MarkedSet(s2) - m0 <= (MarkedSet(s2) - MarkedSet(s1)) + (MarkedSet(s1) - m0);
        } else {
          assert gray + next == next;
        }
      }
      if !changed {
        RoundEnds(Snap(), m0);
      }
    }

    /** The loop over one thread's open upvalues in 'remarkupvals'. */
    method RemarkThread(th: Id, ghost parked: set<Id>, ghost skip: set<Id>)
      requires HeapOk(heap) && color.Keys == heap.Keys
      requires AtomicLists(Snap(), parked) && Settled(Snap(), parked, gray + skip) && Apart(Snap(), skip)
      modifies this`color, this`gray
      ensures AtomicLists(Snap(), parked) && Settled(Snap(), parked, gray + skip) && Apart(Snap(), skip)
      ensures Advances(old(Snap()), parked, Snap()) && twups == old(twups)
      ensures forall u :: OpenOn(heap, u, th) && u in MarkedSet(old(Snap())) ==> Refs(heap, u) <= MarkedSet(Snap())
    {
      hide Settled, WithinBut, AtomicLists, Marks, Refs;
      var todo := set u | u in heap && OpenOn(heap, u, th);
      AdvancesNot(Snap(), parked);
      while todo != {}
        invariant todo <= set u | u in heap && OpenOn(heap, u, th)
        invariant AtomicLists(Snap(), parked) && Settled(Snap(), parked, gray + skip) && Apart(Snap(), skip)
        invariant Advances(old(Snap()), parked, Snap()) && twups == old(twups)
        invariant color.Keys == heap.Keys
        invariant forall u :: OpenOn(heap, u, th) && u in MarkedSet(old(Snap())) && u !in todo ==>
                    Refs(heap, u) <= MarkedSet(Snap())
        decreases todo
      {
        var u :| u in todo;
        todo := todo - {u};
        if !color[u].White? {  // upvalue already visited?
          ghost var s1 := Snap();
          UpvalueRefs(heap, u);
          MarkRef(UpContent(heap, u), 3, parked);
          WithinStrong(heap, parked, MarkedSet(s1), u, Refs(heap, u));
          MarksFromSpreads(s1, parked, Refs(heap, u), Snap());
          MarksSettles(s1, parked, skip, Snap());
          SpreadsAdvances(s1, parked, Snap());
          AdvancesTransitive(old(Snap()), parked, s1, Snap());
        }
      }
    }

    /** 'remarkupvals' */
    method RemarkUpvals(ghost parked: set<Id>, ghost skip: set<Id>)
      requires HeapOk(heap) && color.Keys == heap.Keys
      requires AtomicLists(Snap(), parked) && Settled(Snap(), parked, gray + skip) && Apart(Snap(), skip)
      modifies this`color, this`gray, this`twups
      ensures AtomicLists(Snap(), parked) && Settled(Snap(), parked, gray + skip) && Apart(Snap(), skip)
      ensures Advances(old(Snap()), parked, Snap().(twups := old(twups)))
      ensures twups <= old(twups) * MarkedSet(Snap())
      ensures forall u :: u in MarkedSet(old(Snap())) && u in heap && heap[u].OpenUp? && heap[u].thread in old(twups) ==>
                Remarked(Snap(), u)
    {
      hide Settled, WithinBut, AtomicLists, Marks, Refs, HeapOk;
      var todo := twups;
      AdvancesNot(Snap(), parked);
      while todo != {}
        invariant todo <= twups <= old(twups) && twups - todo <= MarkedSet(Snap())
        invariant AtomicLists(Snap(), parked) && Settled(Snap(), parked, gray + skip) && Apart(Snap(), skip)
        invariant Advances(old(Snap()), parked, Snap().(twups := old(twups)))
        invariant color.Keys == heap.Keys
        invariant forall u :: u in MarkedSet(old(Snap())) && u in heap && heap[u].OpenUp? && heap[u].thread in old(twups) - todo ==>
                    Remarked(Snap(), u)
        decreases todo
      {
        var th :| th in todo;
        todo := todo - {th};
        ghost var s1 := Snap();
        if th in color && !color[th].White? && HasOpenUpvalues(heap, th) {
          // keep marked thread with upvalues in the list
        } else {
          twups := twups - {th};
          ghost var s2 := Snap();
          TwupsShrinks(s1, parked, gray + skip, th, s2);
          ListsSame(s1, parked, s2, skip);
          RemarkThread(th, parked, skip);
          RemarkAdvances(old(Snap()), parked, s1, s2, Snap());
        }
      }
    }

    /** The loops of 'clearbykeys' and 'clearbyvalues' over one table. */
    method ClearTable(t: Id, byKey: bool, ghost parked: set<Id>)
      requires HeapOk(heap) && color.Keys == heap.Keys && t in heap && heap[t].Table?
      modifies this`heap, this`color, this`gray
      ensures MarksStrings(old(Snap()), Parts(old(heap), {t}, byKey), Snap())
      ensures heap == Filter(old(heap), {t}, byKey, MarkedSet(Snap()))
    {
      hide Marks, WithinBut, HeapOk, Refs, Filter;
      var es := heap[t].entries;
      var todo, kept := es, {};
      assert PartsIn({}, byKey) == {};
      while todo != {}
        invariant todo <= es && heap == old(heap) && color.Keys == heap.Keys
        invariant MarksStrings(old(Snap()), PartsIn(es - todo, byKey), Snap())
        invariant kept == set e | e in es - todo && RefSet(WeakPart(e, byKey)) <= MarkedSet(Snap())
        invariant PartsIn(es - todo, byKey) <= heap.Keys
        decreases todo
      {
        var e :| e in todo;
        EntryRefs(heap, t, e);
        ghost var s1 := Snap();
        var cleared := IsCleared(WeakPart(e, byKey), parked);
        ClearStep(old(Snap()), s1, Snap(), es - todo, e, byKey);
        KeptStep(heap, es - todo, e, byKey, kept, MarkedSet(s1), MarkedSet(Snap()), cleared);
        if !cleared {
          kept := kept + {e};
        }
        assert es - (todo - {e}) == (es - todo) + {e};
        todo := todo - {e};
      }
      assert es - todo == es;
      ghost var s := Snap();
      heap := heap[t := heap[t].(entries := kept)];
      TableCleared(old(Snap()), s, t, byKey, kept, Snap());
    }

    /** 'clearbykeys' and 'clearbyvalues' */
    method ClearList(l: set<Id>, byKey: bool, ghost parked: set<Id>)
      requires HeapOk(heap) && color.Keys == heap.Keys && l <= heap.Keys
      requires forall t :: t in l ==> heap[t].Table?
      modifies this`heap, this`color, this`gray
      ensures HeapOk(heap)
      ensures MarksStrings(old(Snap()), Parts(old(heap), l, byKey), Snap())
      ensures heap == Filter(old(heap), l, byKey, MarkedSet(Snap()))
    {
      hide HeapOk, Parts;
      var todo := l;
      ClearNone(Snap(), byKey);
      while todo != {}
        invariant todo <= l && HeapOk(heap) && color.Keys == old(heap).Keys
        invariant MarksStrings(old(Snap()), Parts(old(heap), l - todo, byKey), Snap())
        invariant heap == Filter(old(heap), l - todo, byKey, MarkedSet(Snap()))
        decreases todo
      {
        var t :| t in todo;
        ghost var s1 := Snap();
        ClearTable(t, byKey, parked);
        FilterHeapOk(s1.heap, {t}, byKey, MarkedSet(Snap()));
        ClearListStep(old(Snap()), s1, Snap(), l - todo, t, byKey);
        assert l - (todo - {t}) == (l - todo) + {t};
        todo := todo - {t};
      }
      assert l - todo == l;
    }

    /** 'atomic' up to the point where all strongly accessible objects are marked. */
    method AtomicMark()
      requires phase.EnterAtomic? && AtomicReady(Snap())
      modifies this`phase, this`color, this`gray, this`again, this`weak, this`ephemeron, this`allweak, this`twups
      ensures ReadyToClear(Snap(), old(allweak)) && MarkedSince(old(Snap()), old(allweak), Snap())
      ensures roots <= MarkedSet(Snap()) && twups <= MarkedSet(Snap())
    {
      hide Settled, TriColor, WithinBut, Marks, AtomicLists, Converged, MarkedSince, HeapOk;
      ghost var s := Snap();
      ghost var parked := allweak;
      ghost var ups := OpenUpvalues(s);
      var grayagain := again;
      GrayAgainKinds(s);
      again := {};
      phase := Phase.Atomic;
      ghost var a := Snap();
      AtomicStart(s, a);
      MarkSet(roots, parked);
      ghost var b := Snap();
      RootsMarked(s, parked, a, b);
      MarksSettles(a, parked, grayagain + ups, b);
      MarksGrow(a, b);
      PropagateAll(parked, grayagain + ups);
      ghost var d := Snap();
      MarkedSinceStep(s, parked, b, d);
      assert gray + (grayagain + ups) == grayagain + ups;
      RemarkUpvals(parked, grayagain + ups);
      ghost var e := Snap();
      RemarkSince(s, parked, d, e);
      PropagateAll(parked, grayagain + ups);
      ghost var f := Snap();
      MarkedSinceStep(s, parked, e, f);
      gray := grayagain;
      ghost var g := Snap();
      TakeGrayAgain(f, parked, grayagain, ups, g);
      GraySince(s, parked, f, g);
      PropagateAll(parked, ups);
      ghost var i := Snap();
      MarkedSinceStep(s, parked, g, i);
      UpvaluesDone(s, parked, d, e, f, g, i, ups);
      ConvergeEphemerons(parked);
      MarkedSinceStep(s, parked, i, Snap());
    }

    /** 'atomic', without objects to finalize; 'entersweep' then starts with all of 'allgc'
        ahead (its 'sweeptolive' is a first stretch of the sweep). */
    method Atomic()
      requires phase.EnterAtomic? && AtomicReady(Snap())
      modifies this
      ensures AtomicDone(old(Snap()), Snap())
    {
      hide Settled, TriColor, WithinBut, Converged, MarkedSince, HeapOk, MarksStrings, Parts, Filter, AtomicDone;
      ghost var s := Snap();
      ghost var parked := allweak;
      AtomicMark();
      ghost var sc := Snap();
      ClearList(weak, false, parked);
      ghost var s1 := Snap();
      ClearedFrame(sc, s1, sc.weak, false);
      ClearList(allweak, false, parked);
      ghost var s2 := Snap();
      ClearedFrame(s1, s2, sc.allweak, false);
      ClearList(ephemeron, true, parked);
      ghost var s3 := Snap();
      ClearedFrame(s2, s3, sc.ephemeron, true);
      ClearList(allweak, true, parked);
      ghost var s4 := Snap();
      ClearedFrame(s3, s4, sc.allweak, true);
      white := !white;  // flip current white
      phase := SwpAllGc;
      ahead := heap.Keys;
      SinceFrame(s, parked, sc);
      AtomicFinish(s, parked, sc, s1, s2, s3, s4, Snap());
    }

    /** One iteration of 'sweeplist'. */
    method SweepObject(o: Id)
      requires color.Keys == heap.Keys && ahead <= heap.Keys && o in ahead
      modifies this`heap, this`color, this`ahead
      ensures SweepOne(old(Snap()), Snap(), o)
    {
      ahead := ahead - {o};
      if color[o] == White(!white) {
        FreeObject(o);
      } else {
        color := color[o := White(white)];
      }
    }

    /** The colour of an upvalue once it is closed. */
    method CloseColor(u: Id, v: Ref)
      requires u in color
      modifies this`color
      ensures color.Keys == old(color).Keys && (forall x :: x in color && x != u ==> color[x] == old(color)[x])
      ensures color[u] == (if old(color)[u].White? then old(color)[u]
        else if v.Some? && v.value in color && old(color)[v.value].White? then White(white) else Black)
    {
      if !color[u].White? {
        color := color[u := Black];
        if v.Some? && v.value in color && color[v.value].White? {
          color := color[u := White(white)];  // barrier in the sweep phase
        }
      }
    }

    /** 'freeobj': freeing a thread closes its upvalues first, each with its barrier. */
    method FreeObject(o: Id)
      requires color.Keys == heap.Keys && o in heap
      modifies this`heap, this`color
      ensures heap == Freed(old(heap), o) && color.Keys == old(color).Keys - {o}
      ensures forall x :: x in color ==>
        || color[x] == old(color)[x]
        || (OpenOn(old(heap), x, o) && Marked(old(Snap()), x) && color[x] in {Black, White(white)})
    {
      var todo := set u | u in heap && u != o && OpenOn(heap, u, o);
      while todo != {}
        invariant todo <= (set u | u in old(heap) && u != o && OpenOn(old(heap), u, o))
        invariant heap == CloseAll(old(heap), o, todo)
        invariant color.Keys == old(color).Keys
        invariant forall x :: x in color ==>
          || color[x] == old(color)[x]
          || (OpenOn(old(heap), x, o) && x !in todo && Marked(old(Snap()), x) && color[x] in {Black, White(white)})
        decreases todo
      {
        var u :| u in todo;
        var v := UpContent(heap, u);
        CloseAllStep(old(heap), o, todo, u);
        heap := heap[u := ClosedUp(v)];
        CloseColor(u, v);
        todo := todo - {u};
      }
      heap := heap - {o};
      color := color - {o};
      CloseAllFreed(old(heap), o);
    }

    /** 'sweeplist' on at most 'count' objects. */
    method SweepList(count: nat) returns (ghost swept: seq<Id>, ghost run: seq<State>)
      requires color.Keys == heap.Keys && ahead <= heap.Keys
      modifies this`heap, this`color, this`ahead
      ensures |run| == |swept| + 1 && run[0] == old(Snap()) && run[|swept|] == Snap() && |swept| <= count
      ensures forall i :: 0 <= i < |swept| ==> SweepOne(run[i], run[i + 1], swept[i])
      ensures |swept| == count || ahead == {}
      ensures color.Keys == heap.Keys && ahead <= heap.Keys
    {
      swept, run := [], [Snap()];
      var i := 0;
      while i < count && ahead != {}
        invariant i == |swept| <= count && |run| == |swept| + 1
        invariant run[0] == old(Snap()) && run[|swept|] == Snap()
        invariant forall k :: 0 <= k < |swept| ==> SweepOne(run[k], run[k + 1], swept[k])
        invariant color.Keys == heap.Keys && ahead <= heap.Keys
      {
        var o :| o in ahead;
        SweepObject(o);
        swept, run := swept + [o], run + [Snap()];
        i := i + 1;
      }
    }

    /** 'singlestep' */
    method SingleStep() returns (ghost swept: seq<Id>, ghost run: seq<State>)
      requires StepReady(Snap())
      modifies this
      ensures !(old(phase).SwpAllGc? && old(ahead) != {}) ==> CollectStep(old(Snap()), Snap())
      ensures old(phase).SwpAllGc? && old(ahead) != {} ==>
        && 0 < |swept| <= 100 && (|swept| == 100 || ahead == {}) && |run| == |swept| + 1
        && run[0] == old(Snap()) && run[|swept|] == Snap()
        && forall i :: 0 <= i < |swept| ==> SweepOne(run[i], run[i + 1], swept[i])
    {
      hide TriColor, HeapOk, Restarted, AtomicDone, Propagated;
      swept, run := [], [];
      match phase {
        case Pause => RestartCollection();
        case Propagate =>
          if gray == {} {
            phase := EnterAtomic;
          } else {
            ghost var s := Snap();
            GrayReady(s);
            var o, m, hasclears, hasww := PropagateMark({});
            PropagatedFrom(s, m, Snap(), o, hasclears, hasww);
          }
        case EnterAtomic => Atomic();
        case SwpAllGc =>
          if ahead != {} {
            swept, run := SweepList(GCSWEEPMAX);
          } else {
            phase := SwpFinObj;
          }
        case SwpFinObj => phase := SwpToBeFnz;
        case SwpToBeFnz => phase := SwpEnd;
        case SwpEnd => phase := CallFin;
        case CallFin => phase := Pause;
        case Atomic => assert false;
      }
    }

    /** 'luaC_newobj' */
    method NewObject(o: Id, cell: Cell)
      requires o !in heap
      modifies this`heap, this`color, this`twups
      ensures Snap() == Allocated(old(Snap()), o, cell)
    {
      heap, color := heap[o := cell], color[o := White(white)];
      if cell.OpenUp? {
        twups := twups + {cell.thread};
      }
    }

    /** 'luaC_barrier', after 'v' was stored in 'o' */
    method Barrier(o: Id, v: Ref)
      requires color.Keys == heap.Keys && o in heap && RefSet(v) <= heap.Keys
      requires KeepInvariant(phase) ==> HeapOk(heap)
      modifies this`color, this`gray
      ensures ForwardBarrier(old(Snap()), Snap(), o, v)
    {
      if v.Some? && color[o].Black? && color[v.value].White? {
        if KeepInvariant(phase) {
          ReallyMark(v.value, {});
        } else {
          color := color[o := White(white)];
        }
      }
    }

    /** 'luaC_barrierback' */
    method BarrierBack(o: Id, v: Ref)
      requires color.Keys == heap.Keys && o in heap && RefSet(v) <= heap.Keys
      modifies this`color, this`again
      ensures Snap() == BackBarrier(old(Snap()), o, v)
    {
      if v.Some? && color[o].Black? && color[v.value].White? {
        LinkAgain(o);
      }
    }
  }
}
