/** Every step keeps the collector's invariant; hence no run frees an accessible object. */
module GcSafety {
  import opened Options
  import opened GcHeap
  import opened GcSteps

  /** The invariant of a marking phase, put together from its parts. */
  lemma MarkInvFrom(s: State, live: set<Id>, grays: set<Id>, blacks: set<Id>, marked: set<Id>)
    requires s.color.Keys == s.heap.Keys && s.ahead <= s.heap.Keys && KeepInvariant(s.phase)
    requires live == LiveSet(s) == s.heap.Keys
    requires grays == GraySet(s) && blacks == BlackSet(s) && marked == MarkedSet(s)
    requires WellFormed(s.heap, live, s.roots, s.twups)
    requires s.weak == {} && s.ephemeron == {}
    requires GrayListsOk(s.heap, grays, s.gray, s.again, s.allweak)
    requires NoBlackToWhite(s.heap, blacks, marked)
    requires AllWeakOk(s.heap, s.allweak, marked)
    ensures Inv(s)
  {
    hide WellFormed, GrayListsOk, NoBlackToWhite, AllWeakOk;
  }

  // ----- writes to one cell -----

  predicate Inert(c: Cell) {
    !c.Thread? && !c.OpenUp?
  }

  predicate SameKind(c: Cell, d: Cell) {
    && (c.Record? <==> d.Record?) && (c.Table? <==> d.Table?)
    && (c.PlainUdata? <==> d.PlainUdata?) && (c.ClosedUp? <==> d.ClosedUp?)
    && (c.Str? <==> d.Str?)
  }

  lemma RefsFrame(h: Heap, o: Id, c: Cell, x: Id)
    requires o in h && x in h && x != o
    requires Inert(h[o]) && Inert(c)
    ensures Refs(h[o := c], x) == Refs(h, x)
  {
    if h[x].Thread? {
      assert forall u :: OpenOn(h[o := c], u, x) <==> OpenOn(h, u, x);
    }
  }

  /** A write of live references keeps the heap well formed. */
  lemma WriteKeepsWellFormed(h: Heap, live: set<Id>, roots: set<Id>, twups: set<Id>, o: Id, c: Cell)
    requires WellFormed(h, live, roots, twups) && o in h
    requires Inert(h[o]) && Inert(c) && SameKind(h[o], c)
    requires o in live ==> Refs(h[o := c], o) <= live && Typed(h[o := c], o)
    ensures WellFormed(h[o := c], live, roots, twups)
  {
    var h2 := h[o := c];
    forall x | x in live
      ensures Refs(h2, x) <= live && Typed(h2, x)
    {
      if x != o {
        RefsFrame(h, o, c, x);
        assert Typed(h, x);
      }
    }
  }

  lemma WriteKeepsBlack(h: Heap, blacks: set<Id>, marked: set<Id>, o: Id, c: Cell)
    requires NoBlackToWhite(h, blacks, marked) && o in h
    requires Inert(h[o]) && Inert(c) && SameKind(h[o], c)
    requires o in blacks ==> Refs(h[o := c], o) <= marked
    ensures NoBlackToWhite(h[o := c], blacks, marked)
  {
    forall x | x in blacks && x in h && x != o
      ensures Refs(h[o := c], x) == Refs(h, x)
    {
      RefsFrame(h, o, c, x);
    }
  }

  /** A store whose new references are live and, into a black object, marked. */
  lemma PlainStoreKeepsInv(s: State, o: Id, c: Cell, added: set<Id>)
    requires Inv(s) && o in LiveSet(s)
    requires Inert(s.heap[o]) && Inert(c) && SameKind(s.heap[o], c)
    requires Refs(s.heap[o := c], o) <= Refs(s.heap, o) + added
    requires added <= LiveSet(s)
    requires Typed(s.heap[o := c], o)
    requires KeepInvariant(s.phase) && c.Table? && o in s.allweak ==> RefSet(c.mt) <= MarkedSet(s)
    requires KeepInvariant(s.phase) && o in BlackSet(s) ==> added <= MarkedSet(s)
    ensures Inv(WithCell(s, o, c)) && LiveSet(WithCell(s, o, c)) == LiveSet(s)
  {
    var w := WithCell(s, o, c);
    assert LiveSet(w) == LiveSet(s);
    WriteKeepsWellFormed(s.heap, LiveSet(s), s.roots, s.twups, o, c);
    if KeepInvariant(s.phase) {
      WriteKeepsBlack(s.heap, BlackSet(s), MarkedSet(s), o, c);
      assert MarkedSet(w) == MarkedSet(s) && BlackSet(w) == BlackSet(s) && GraySet(w) == GraySet(s);
    }
  }

  /** Marking does not look at the cell of an object already marked. */
  lemma MarksBeforeWrite(s: State, o: Id, c: Cell, s2: State)
    requires s.color.Keys == s.heap.Keys && o in BlackSet(s)
    requires Inert(s.heap[o]) && Inert(c) && SameKind(s.heap[o], c)
    requires Marks(WithCell(s, o, c), s2)
    ensures Marks(s, s2.(heap := s.heap))
    ensures MarkedSet(s2.(heap := s.heap)) == MarkedSet(s2)
  {
    var w, m := WithCell(s, o, c), s2.(heap := s.heap);
    assert MarkedSet(w) == MarkedSet(s) && MarkedSet(m) == MarkedSet(s2);
    forall x | x in Fresh(s, m) && x in s.heap
      ensures FreshMark(s.heap, m, x)
    {
      RefsFrame(s.heap, o, c, x);
      assert FreshMark(w.heap, s2, x);
    }
    assert LinkableOf(w.heap, Fresh(w, s2)) == LinkableOf(s.heap, Fresh(s, m));
  }

  /** A forward store that marks its value first, then writes. */
  lemma MarkedStoreKeepsInv(s: State, o: Id, c: Cell, v: Ref, s2: State)
    requires Inv(s) && KeepInvariant(s.phase) && o in BlackSet(s)
    requires Inert(s.heap[o]) && Inert(c) && SameKind(s.heap[o], c)
    requires Refs(s.heap[o := c], o) <= Refs(s.heap, o) + RefSet(v)
    requires RefSet(v) <= LiveSet(s)
    requires Typed(s.heap[o := c], o)
    requires Marks(WithCell(s, o, c), s2) && RefSet(v) <= MarkedSet(s2)
    ensures Inv(s2)
  {
    var m := s2.(heap := s.heap);
    MarksBeforeWrite(s, o, c, s2);
    MarksKeepsInv(s, m);
    MarksGrow(s, m);
    assert o !in m.allweak;
    PlainStoreKeepsInv(m, o, c, RefSet(v));
    assert WithCell(m, o, c) == s2;
  }

  /** Repainting live objects outside the marking phases is harmless. */
  lemma RepaintKeepsInv(s: State, s2: State, o: Id)
    requires Inv(s) && !KeepInvariant(s.phase) && o in LiveSet(s)
    requires s2 == s.(color := s.color[o := White(s.white)])
    ensures Inv(s2)
  {
    assert LiveSet(s2) == LiveSet(s);
  }

  lemma ForwardStoreKeepsInv(s: State, o: Id, c: Cell, v: Ref, s2: State)
    requires Inv(s) && o in LiveSet(s)
    requires Inert(s.heap[o]) && Inert(c) && SameKind(s.heap[o], c)
    requires Refs(s.heap[o := c], o) <= Refs(s.heap, o) + RefSet(v)
    requires RefSet(v) <= LiveSet(s)
    requires Typed(s.heap[o := c], o)
    requires KeepInvariant(s.phase) && c.Table? && o in s.allweak ==> RefSet(c.mt) <= MarkedSet(s)
    requires ForwardBarrier(WithCell(s, o, c), s2, o, v)
    ensures Inv(s2)
  {
    var w := WithCell(s, o, c);
    if v.Some? && IsBlack(w, o) && IsWhite(w, v.value) {
      if KeepInvariant(s.phase) {
        MarkedStoreKeepsInv(s, o, c, v, s2);
      } else {
        PlainStoreKeepsInv(s, o, c, RefSet(v));
        RepaintKeepsInv(w, s2, o);
      }
    } else {
      PlainStoreKeepsInv(s, o, c, RefSet(v));
    }
  }

  /** 'luaC_barrierback_' alone. */
  lemma GrayAgainKeepsInv(s: State, o: Id)
    requires Inv(s) && o in BlackSet(s) && Linkable(s.heap[o])
    ensures var g := s.(color := s.color[o := Gray], again := s.again + {o});
      Inv(g) && LiveSet(g) == LiveSet(s)
  {
    hide WellFormed, Refs, AllWeakOk;
    var g := s.(color := s.color[o := Gray], again := s.again + {o});
    assert LiveSet(g) == LiveSet(s);
    if KeepInvariant(s.phase) {
      assert MarkedSet(g) == MarkedSet(s);
      assert BlackSet(g) == BlackSet(s) - {o} && GraySet(g) == GraySet(s) + {o};
    }
  }

  lemma ParkedMetatable(s: State, o: Id)
    requires Inv(s) && KeepInvariant(s.phase) && o in s.heap && s.heap[o].Table? && o in s.allweak
    ensures RefSet(s.heap[o].mt) <= MarkedSet(s)
  {
  }

  lemma BackStoreKeepsInv(s: State, o: Id, c: Cell, k: Ref, v: Ref)
    requires Inv(s) && o in LiveSet(s)
    requires (s.heap[o].Record? && c.Record?) || (s.heap[o].Table? && c.Table?)
    requires SameKind(s.heap[o], c) && (c.Table? ==> c.mt == s.heap[o].mt)
    requires Refs(s.heap[o := c], o) <= Refs(s.heap, o) + RefSet(k) + RefSet(v)
    requires RefSet(k) + RefSet(v) <= LiveSet(s)
    ensures Inv(BackBarrier(BackBarrier(WithCell(s, o, c), o, k), o, v))
  {
    hide WellFormed, PhaseInv;
    var w := WithCell(s, o, c);
    var s2 := BackBarrier(BackBarrier(w, o, k), o, v);
    var added := RefSet(k) + RefSet(v);
    if IsBlack(s, o) && ((k.Some? && IsWhite(s, k.value)) || (v.Some? && IsWhite(s, v.value))) {
      GrayAgainKeepsInv(s, o);
      var g := s.(color := s.color[o := Gray], again := s.again + {o});
      if KeepInvariant(s.phase) && c.Table? && o in g.allweak {
        ParkedMetatable(g, o);
      }
      PlainStoreKeepsInv(g, o, c, added);
      assert WithCell(g, o, c) == s2;
    } else {
      if KeepInvariant(s.phase) && c.Table? && o in s.allweak {
        ParkedMetatable(s, o);
      }
      PlainStoreKeepsInv(s, o, c, added);
      assert s2 == w;
    }
  }

  // ----- stacks -----

  lemma StackRefsFrame(h: Heap, th: Id, stack: seq<Ref>, x: Id)
    requires th in h && h[th].Thread? && x in h && x != th && !OpenOn(h, x, th)
    ensures Refs(h[th := Thread(stack)], x) == Refs(h, x)
  {
    if h[x].Thread? {
      assert forall u :: OpenOn(h[th := Thread(stack)], u, x) <==> OpenOn(h, u, x);
    }
  }

  /** Slot 'i' of a new stack holds what it held before, or a live value. */
  ghost predicate SlotOk(h: Heap, live: set<Id>, th: Id, stack: seq<Ref>, i: nat)
    requires th in h && h[th].Thread? && i < |stack|
  {
    || (i < |h[th].stack| && stack[i] == h[th].stack[i])
    || (RefSet(stack[i]) <= live && IsValue(h, stack[i]))
  }

  lemma StackWriteWellFormed(h: Heap, live: set<Id>, roots: set<Id>, twups: set<Id>, th: Id, stack: seq<Ref>)
    requires WellFormed(h, live, roots, twups) && th in h && h[th].Thread?
    requires forall i: nat :: i < |stack| ==> SlotOk(h, live, th, stack, i)
    requires forall u :: OpenOn(h, u, th) ==> h[u].slot < |stack|
    ensures WellFormed(h[th := Thread(stack)], live, roots, twups)
  {
    var h2 := h[th := Thread(stack)];
    forall x | x in live
      ensures Refs(h2, x) <= live && Typed(h2, x)
    {
      assert Refs(h, x) <= live && Typed(h, x);
      if x == th {
        forall r | r in Refs(h2, x)
          ensures r in live
        {
          if OpenOn(h2, r, th) {
            assert OpenOn(h, r, th);
          } else {
            var i: nat :| i < |stack| && stack[i] == Some(r);
            assert SlotOk(h, live, th, stack, i);
          }
        }
      } else if OpenOn(h, x, th) {
        assert SlotOk(h, live, th, stack, h[x].slot);
      } else {
        StackRefsFrame(h, th, stack, x);
      }
    }
  }

  /** Threads have no barrier: they stay gray until the atomic phase. */
  lemma StackWriteKeepsInv(s: State, th: Id, stack: seq<Ref>)
    requires Inv(s) && th in s.heap && s.heap[th].Thread?
    requires forall i: nat :: i < |stack| ==> SlotOk(s.heap, LiveSet(s), th, stack, i)
    requires forall u :: OpenOn(s.heap, u, th) ==> s.heap[u].slot < |stack|
    ensures Inv(WithCell(s, th, Thread(stack)))
  {
    var w := WithCell(s, th, Thread(stack));
    assert LiveSet(w) == LiveSet(s);
    StackWriteWellFormed(s.heap, LiveSet(s), s.roots, s.twups, th, stack);
    if KeepInvariant(s.phase) {
      assert MarkedSet(w) == MarkedSet(s) && BlackSet(w) == BlackSet(s) && GraySet(w) == GraySet(s);
      forall x | x in BlackSet(s) && x in s.heap
        ensures Refs(w.heap, x) == Refs(s.heap, x)
      {
        StackRefsFrame(s.heap, th, stack, x);
      }
    }
  }

  lemma PushKeepsInv(s: State, th: Id, o: Id)
    requires Inv(s) && th in s.heap && s.heap[th].Thread?
    requires o in LiveSet(s) && IsValue(s.heap, Some(o))
    ensures Inv(Pushed(s, th, o))
  {
    var stack := s.heap[th].stack + [Some(o)];
    assert forall i: nat :: i < |stack| ==> SlotOk(s.heap, LiveSet(s), th, stack, i);
    assert forall u :: OpenOn(s.heap, u, th) ==> UpvalueOk(s.heap, u);
    StackWriteKeepsInv(s, th, stack);
  }

  lemma UpStoreKeepsInv(s: State, u: Id, v: Ref, s2: State)
    requires Inv(s) && u in LiveSet(s) && (s.heap[u].OpenUp? || s.heap[u].ClosedUp?)
    requires RefSet(v) <= LiveSet(s) && IsValue(s.heap, v)
    requires ForwardBarrier(s.(heap := UpStored(s.heap, u, v)), s2, u, v)
    ensures Inv(s2)
  {
    match s.heap[u]
    case ClosedUp(_) =>
      ForwardStoreKeepsInv(s, u, ClosedUp(v), v, s2);
    case OpenUp(th, i) =>
      assert UpvalueOk(s.heap, u);
      var stack := s.heap[th].stack[i := v];
      assert forall j: nat :: j < |stack| ==> SlotOk(s.heap, LiveSet(s), th, stack, j);
      assert forall y :: OpenOn(s.heap, y, th) ==> UpvalueOk(s.heap, y);
      StackWriteKeepsInv(s, th, stack);
      var w := WithCell(s, th, Thread(stack));
      if IsBlack(w, u) && v.Some? && IsWhite(w, v.value) {
        assert u in BlackSet(s);
        RepaintKeepsInv(w, s2, u);
      }
  }

  // ----- allocation -----

  lemma AllocRefs(h: Heap, o: Id, cell: Cell, x: Id)
    requires o !in h && x in h && (h[x].OpenUp? ==> UpvalueOk(h, x))
    ensures Refs(h[o := cell], x) <=
        Refs(h, x) + (if cell.OpenUp? && cell.thread == x && h[x].Thread? then {o} else {})
    ensures h[x].OpenUp? || h[x].ClosedUp? ==> UpContent(h[o := cell], x) == UpContent(h, x)
  {
    var h2 := h[o := cell];
    if h[x].Thread? {
      assert forall u :: u in h ==> (OpenOn(h2, u, x) <==> OpenOn(h, u, x));
    }
  }

  lemma AllocWellFormed(h: Heap, live: set<Id>, roots: set<Id>, twups: set<Id>, o: Id, cell: Cell)
    requires WellFormed(h, live, roots, twups) && o !in h
    requires Refs(h[o := cell], o) <= live && Typed(h[o := cell], o)
    requires cell.OpenUp? ==> cell.thread in live && UpvalueOk(h[o := cell], o)
    ensures WellFormed(h[o := cell], live + {o}, roots, if cell.OpenUp? then twups + {cell.thread} else twups)
  {
    var h2 := h[o := cell];
    forall x | x in live + {o}
      ensures Refs(h2, x) <= live + {o} && Typed(h2, x)
    {
      if x != o {
        AllocRefs(h, o, cell, x);
        assert Refs(h, x) <= live && Typed(h, x);
      }
    }
  }

  lemma AllocKeepsMarks(h: Heap, o: Id, cell: Cell, s: State)
    requires Inv(s) && KeepInvariant(s.phase) && h == s.heap && o !in h
    ensures NoBlackToWhite(h[o := cell], BlackSet(s), MarkedSet(s))
    ensures GrayListsOk(h[o := cell], GraySet(s), s.gray, s.again, s.allweak)
    ensures AllWeakOk(h[o := cell], s.allweak, MarkedSet(s))
  {
    forall x | x in BlackSet(s) && x in h
      ensures Refs(h[o := cell], x) <= MarkedSet(s)
    {
      AllocRefs(h, o, cell, x);
    }
  }

  /** A new object is white and holds only live references. */
  lemma AllocKeepsInv(s: State, o: Id, cell: Cell)
    requires Inv(s) && o !in s.heap
    requires Refs(s.heap[o := cell], o) <= LiveSet(s) && Typed(s.heap[o := cell], o)
    requires cell.OpenUp? ==> cell.thread in LiveSet(s) && UpvalueOk(s.heap[o := cell], o)
    ensures Inv(Allocated(s, o, cell)) && LiveSet(Allocated(s, o, cell)) == LiveSet(s) + {o}
  {
    hide WellFormed, GrayListsOk, NoBlackToWhite, AllWeakOk, Refs, Typed;
    var n := Allocated(s, o, cell);
    assert LiveSet(n) == LiveSet(s) + {o};
    AllocWellFormed(s.heap, LiveSet(s), s.roots, s.twups, o, cell);
    if KeepInvariant(s.phase) {
      assert MarkedSet(n) == MarkedSet(s) && BlackSet(n) == BlackSet(s) && GraySet(n) == GraySet(s);
      AllocKeepsMarks(s.heap, o, cell, s);
    }
  }

  // ----- closing an upvalue -----

  function ClosedHeap(h: Heap, u: Id): Heap
    requires u in h && h[u].OpenUp?
  {
    h[u := ClosedUp(UpContent(h, u))]
  }

  lemma CloseRefs(h: Heap, u: Id, x: Id)
    requires u in h && h[u].OpenUp? && x in h
    ensures Refs(ClosedHeap(h, u), x) <= Refs(h, x)
    ensures h[x].OpenUp? || h[x].ClosedUp? ==> UpContent(ClosedHeap(h, u), x) == UpContent(h, x)
  {
    var h2 := ClosedHeap(h, u);
    if h[x].Thread? {
      assert forall y :: OpenOn(h2, y, x) ==> OpenOn(h, y, x);
    }
  }

  /** The copy keeps the upvalue's content, and drops it from its thread's list. */
  lemma CloseKeepsWellFormed(h: Heap, live: set<Id>, roots: set<Id>, twups: set<Id>, u: Id)
    requires WellFormed(h, live, roots, twups) && u in h && h[u].OpenUp?
    ensures WellFormed(ClosedHeap(h, u), live, roots, twups)
  {
    forall x | x in live
      ensures Refs(ClosedHeap(h, u), x) <= live && Typed(ClosedHeap(h, u), x)
    {
      CloseRefs(h, u, x);
      assert Refs(h, x) <= live && Typed(h, x);
    }
  }

  lemma CloseKeepsBlack(h: Heap, blacks: set<Id>, marked: set<Id>, u: Id)
    requires NoBlackToWhite(h, blacks - {u}, marked) && u in h && h[u].OpenUp?
    requires u in blacks ==> RefSet(UpContent(h, u)) <= marked
    ensures NoBlackToWhite(ClosedHeap(h, u), blacks, marked)
  {
    forall x | x in blacks && x in h
      ensures Refs(ClosedHeap(h, u), x) <= marked
    {
      CloseRefs(h, u, x);
    }
  }

  lemma CloseKeepsLists(h: Heap, grays: set<Id>, gray: set<Id>, again: set<Id>, allweak: set<Id>, u: Id)
    requires GrayListsOk(h, grays, gray, again, allweak) && u in h && h[u].OpenUp?
    ensures GrayListsOk(ClosedHeap(h, u), grays - {u}, gray, again, allweak)
  {
  }

  lemma CloseKeepsAllWeak(h: Heap, allweak: set<Id>, marked: set<Id>, u: Id)
    requires AllWeakOk(h, allweak, marked) && u in h && h[u].OpenUp?
    ensures AllWeakOk(ClosedHeap(h, u), allweak, marked)
  {
  }

  /** Copying the value; the upvalue must be blackened only if its value is marked. */
  lemma CloseCopyKeepsInv(s: State, u: Id, w: State)
    requires Inv(s) && u in s.heap && s.heap[u].OpenUp?
    requires KeepInvariant(s.phase) && !s.color[u].White? ==>
      RefSet(UpContent(s.heap, u)) <= MarkedSet(s)
    requires w == s.(heap := ClosedHeap(s.heap, u),
                     color := if s.color[u].White? then s.color else s.color[u := Black])
    ensures Inv(w) && LiveSet(w) == LiveSet(s)
  {
    hide WellFormed, GrayListsOk, AllWeakOk, Refs, Typed;
    assert LiveSet(w) == LiveSet(s);
    CloseKeepsWellFormed(s.heap, LiveSet(s), s.roots, s.twups, u);
    if KeepInvariant(s.phase) {
      assert u !in BlackSet(s);
      assert MarkedSet(w) == MarkedSet(s);
      assert BlackSet(w) - {u} == BlackSet(s) && GraySet(w) == GraySet(s) - {u};
      CloseKeepsBlack(s.heap, BlackSet(w), MarkedSet(w), u);
      CloseKeepsLists(s.heap, GraySet(s), s.gray, s.again, s.allweak, u);
      CloseKeepsAllWeak(s.heap, s.allweak, MarkedSet(s), u);
    }
  }

  lemma CloseFresh(h: Heap, u: Id, s2: State, m: State, x: Id)
    requires u in h && h[u].OpenUp? && x in h && x != u && x in s2.color && x in m.color
    requires m.color[x] == s2.color[x] && MarkedSet(m) == MarkedSet(s2) && FreshMark(ClosedHeap(h, u), s2, x)
    ensures FreshMark(h, m, x)
  {
    hide MarkedSet;
    var g := ClosedHeap(h, u);
    CloseRefs(h, u, x);
    if h[x].OpenUp? || h[x].ClosedUp? {
      assert Refs(g, x) == Refs(h, x);
    }
  }

  lemma MarksBeforeClose(s: State, u: Id, b: State, s2: State)
    requires s.color.Keys == s.heap.Keys && u in s.heap && s.heap[u].OpenUp? && s.color[u].Gray?
    requires b == s.(heap := ClosedHeap(s.heap, u), color := s.color[u := Black])
    requires Marks(b, s2)
    ensures var m := s2.(heap := s.heap, color := s2.color[u := Gray]);
      Marks(s, m) && MarkedSet(m) == MarkedSet(s2)
  {
    var m := s2.(heap := s.heap, color := s2.color[u := Gray]);
    assert MarkedSet(b) == MarkedSet(s) && MarkedSet(m) == MarkedSet(s2);
    forall x | x in Fresh(s, m) && x in s.heap
      ensures FreshMark(s.heap, m, x)
    {
      assert FreshMark(b.heap, s2, x);
      CloseFresh(s.heap, u, s2, m, x);
    }
    hide FreshMark;
    assert LinkableOf(b.heap, Fresh(b, s2)) == LinkableOf(s.heap, Fresh(s, m));
  }

  lemma ContentLive(s: State, u: Id)
    requires Inv(s) && KeepInvariant(s.phase) && u in s.heap && s.heap[u].OpenUp?
    ensures RefSet(UpContent(s.heap, u)) <= s.color.Keys
  {
    assert u in LiveSet(s);
    assert Refs(s.heap, u) <= LiveSet(s);
  }

  /** The barrier marks the value of the upvalue being closed. */
  lemma CloseMarkingKeepsInv(s: State, u: Id, b: State, s2: State)
    requires Inv(s) && KeepInvariant(s.phase) && u in s.heap && s.heap[u].OpenUp? && !s.color[u].White?
    requires b == s.(heap := ClosedHeap(s.heap, u), color := s.color[u := Black])
    requires Marks(b, s2) && RefSet(UpContent(s.heap, u)) <= MarkedSet(s2)
    ensures Inv(s2)
  {
    hide GrayListsOk, AllWeakOk, Refs, Typed, WellFormed, FreshMark;
    assert u !in BlackSet(s);
    var m := s2.(heap := s.heap, color := s2.color[u := Gray]);
    MarksBeforeClose(s, u, b, s2);
    MarksKeepsInv(s, m);
    assert Marked(b, u) && s2.color[u].Black?;
    assert s2.color == m.color[u := Black];
    CloseCopyKeepsInv(m, u, s2);
  }

  lemma CloseKeepsInv(s: State, s2: State, u: Id)
    requires Inv(s) && u in s.heap && s.heap[u].OpenUp? && Closes(s, s2, u)
    ensures Inv(s2)
  {
    hide GrayListsOk, NoBlackToWhite, AllWeakOk, Refs, Typed, WellFormed, FreshMark;
    var v := UpContent(s.heap, u);
    var b := s.(heap := ClosedHeap(s.heap, u), color := s.color[u := Black]);
    if s.color[u].White? {
      CloseCopyKeepsInv(s, u, s2);
    } else if KeepInvariant(s.phase) && v.Some? && IsWhite(b, v.value) {
      CloseMarkingKeepsInv(s, u, b, s2);
    } else {
      if KeepInvariant(s.phase) && v.Some? {
        ContentLive(s, u);
      }
      CloseCopyKeepsInv(s, u, b);
      if v.Some? && IsBlack(b, u) && IsWhite(b, v.value) {
        RepaintKeepsInv(b, s2, u);
      }
    }
  }

  // ----- collector -----

  lemma FreedRefs(h: Heap, o: Id, x: Id)
    requires x in h && x != o
    ensures Refs(Freed(h, o), x) <= Refs(h, x)
  {
    var h2 := Freed(h, o);
    if h[x].Thread? {
      assert forall y :: OpenOn(h2, y, x) ==> OpenOn(h, y, x);
    }
  }

  lemma FreeingKeepsWellFormed(h: Heap, live: set<Id>, roots: set<Id>, twups: set<Id>, o: Id)
    requires WellFormed(h, live, roots, twups) && o !in live
    ensures WellFormed(Freed(h, o), live, roots, twups)
  {
    var h2 := Freed(h, o);
    forall x | x in live
      ensures Refs(h2, x) <= live && Typed(h2, x)
    {
      FreedRefs(h, o, x);
      assert Refs(h, x) <= live && Typed(h, x);
      if h[x].OpenUp? && h[x].thread != o {
        assert UpContent(h2, x) == UpContent(h, x);
      }
    }
  }

  /** The sweep frees dead objects only, and whitens the others. */
  lemma SweepKeepsInv(s: State, s2: State, o: Id)
    requires Inv(s) && s.phase.SwpAllGc? && SweepOne(s, s2, o)
    ensures Inv(s2) && LiveSet(s2) == LiveSet(s)
  {
    assert LiveSet(s2) == LiveSet(s);
    if Dead(s, o) {
      FreeingKeepsWellFormed(s.heap, LiveSet(s), s.roots, s.twups, o);
    }
  }

  lemma RestartKeepsInv(s: State, s2: State)
    requires Inv(s) && s.phase.Pause? && Restarted(s, s2)
    ensures Inv(s2)
  {
    var r := NoGrayLists(s).(phase := Propagate);
    assert LiveSet(r) == LiveSet(s) == s.heap.Keys;
    assert GraySet(r) == {} && BlackSet(r) == {};
    MarksKeepsInv(r, s2);
  }

  /** The marks of a traversal, seen with 'o' still gray and listed. */
  lemma PropagateMarks(s: State, m: State, o: Id)
    requires o in s.gray && o in GraySet(s)
    requires Marks(s.(color := s.color[o := Black], gray := s.gray - {o}), m)
    ensures var n := m.(color := m.color[o := Gray], gray := m.gray + {o});
      Marks(s, n) && MarkedSet(n) == MarkedSet(m) && o in m.color && m.color[o].Black? && o !in m.gray && m.heap == s.heap && m.phase == s.phase
  {
    var b := s.(color := s.color[o := Black], gray := s.gray - {o});
    var n := m.(color := m.color[o := Gray], gray := m.gray + {o});
    assert MarkedSet(b) == MarkedSet(s);
    assert Marked(b, o) && m.color[o].Black?;
    assert MarkedSet(n) == MarkedSet(m);
    forall x | x in Fresh(s, n) && x in s.heap
      ensures FreshMark(s.heap, n, x)
    {
      assert FreshMark(s.heap, m, x);
    }
  }

  lemma LinkedSets(n: State, s2: State, o: Id)
    requires n.color.Keys == n.heap.Keys && o in n.heap && n.color[o].Gray?
    requires s2 == Linked(n.(color := n.color[o := Black], gray := n.gray - {o}), o)
    ensures s2.color.Keys == n.color.Keys && LiveSet(s2) == LiveSet(n) && MarkedSet(s2) == MarkedSet(n)
    ensures if s2.color[o].Black? then BlackSet(s2) == BlackSet(n) + {o} && GraySet(s2) == GraySet(n) - {o}
            else BlackSet(s2) == BlackSet(n) && GraySet(s2) == GraySet(n)
  {
  }

  lemma VisitRest(n: State, s2: State, o: Id)
    requires o in n.heap && o in n.color && s2 == Linked(n.(color := n.color[o := Black], gray := n.gray - {o}), o)
    ensures s2 == n.(color := s2.color, gray := s2.gray, again := s2.again, allweak := s2.allweak)
  {
  }

  lemma VisitLists(n: State, s2: State, o: Id, before: set<Id>)
    requires Inv(n) && n.phase.Propagate? && o in n.gray && o in n.heap && Linkable(n.heap[o]) && o in GraySet(n)
    requires s2 == Linked(n.(color := n.color[o := Black], gray := n.gray - {o}), o)
    requires Traversed(n.heap, before, MarkedSet(n), o)
    ensures GrayListsOk(s2.heap, GraySet(s2), s2.gray, s2.again, s2.allweak)
    ensures AllWeakOk(s2.heap, s2.allweak, MarkedSet(s2))
  {
    hide WellFormed, Typed, StrongRefs, NoBlackToWhite, Refs, ModeOf;
    LinkedSets(n, s2, o);
    hide MarkedSet, LiveSet, GraySet, BlackSet;
  }

  lemma VisitBlacks(n: State, s2: State, o: Id, before: set<Id>)
    requires Inv(n) && n.phase.Propagate? && o in n.heap && Linkable(n.heap[o]) && o in GraySet(n)
    requires s2 == Linked(n.(color := n.color[o := Black], gray := n.gray - {o}), o)
    requires Traversed(n.heap, before, MarkedSet(n), o)
    ensures NoBlackToWhite(s2.heap, BlackSet(s2), MarkedSet(s2))
  {
    hide WellFormed, Typed, StrongRefs, GrayListsOk, AllWeakOk;
    LinkedSets(n, s2, o);
    hide MarkedSet, LiveSet, GraySet, BlackSet;
  }

  /** Taking a traversed object out of 'gray'. */
  lemma VisitKeepsInv(n: State, s2: State, o: Id, before: set<Id>)
    requires Inv(n) && n.phase.Propagate? && o in n.gray && o in n.heap && Linkable(n.heap[o])
    requires s2 == Linked(n.(color := n.color[o := Black], gray := n.gray - {o}), o)
    requires Traversed(n.heap, before, MarkedSet(n), o)
    ensures Inv(s2)
  {
    hide WellFormed, Typed, StrongRefs, Linked;
    assert o in GraySet(n);
    LinkedSets(n, s2, o);
    VisitLists(n, s2, o, before);
    VisitBlacks(n, s2, o, before);
    VisitRest(n, s2, o);
    hide MarkedSet, LiveSet, GraySet, BlackSet, GrayListsOk, NoBlackToWhite, AllWeakOk, Traversed;
    MarkInvFrom(s2, LiveSet(s2), GraySet(s2), BlackSet(s2), MarkedSet(s2));
  }

  lemma GrayIsMarked(s: State, o: Id)
    requires Inv(s) && KeepInvariant(s.phase) && o in s.gray
    ensures o in GraySet(s)
  {
  }

  lemma PropagateKeepsInv(s: State, m: State, s2: State, o: Id)
    requires Inv(s) && s.phase.Propagate? && Propagated(s, m, s2, o)
    ensures Inv(s2)
  {
    hide Inv, Marks, Traversed, Linked, WithinBut, MarkedSet;
    GrayIsMarked(s, o);
    var n := m.(color := m.color[o := Gray], gray := m.gray + {o});
    PropagateMarks(s, m, o);
    MarksKeepsInv(s, n);
    assert m.color == n.color[o := Black];
    assert m == n.(color := n.color[o := Black], gray := n.gray - {o});
    VisitKeepsInv(n, s2, o, MarkedSet(s));
  }

  lemma ClearedRefs(h: Heap, parked: set<Id>, c: set<Id>, o: Id)
    requires o in h && o in c && ClosedBut(h, parked, c)
    requires o in parked && h[o].Table? ==> RefSet(h[o].mt) <= c
    ensures Refs(ClearWeak(h, parked, c), o) <= c
  {
    hide ModeOf;
    var h2 := ClearWeak(h, parked, c);
    if o !in parked || !h[o].Table? {
      assert HoldsIn(h, c, o);
      if h[o].Thread? {
        assert forall u :: OpenOn(h2, u, o) <==> OpenOn(h, u, o);
      } else if h[o].Table? && ModeOf(h, o).Ephemeron? {
        assert EphemeronClosed(h, c, o);
      }
    }
  }

  lemma ClearedHeap(h: Heap, live: set<Id>, roots: set<Id>, twups: set<Id>, parked: set<Id>, c: set<Id>, twups2: set<Id>)
    requires WellFormed(h, live, roots, twups) && ClosedBut(h, parked, c) && AllWeakOk(h, parked, c)
    requires roots <= c <= live && twups2 <= c
    requires forall u :: u in h && h[u].OpenUp? && h[u].thread in c ==> h[u].thread in twups2
    ensures WellFormed(ClearWeak(h, parked, c), c, roots, twups2)
  {
    hide ClosedBut, Kept, ClearMode;
    var h2 := ClearWeak(h, parked, c);
    forall x | x in c
      ensures Refs(h2, x) <= c && Typed(h2, x)
    {
      ClearedRefs(h, parked, c, x);
      assert Typed(h, x);
      if h[x].OpenUp? {
        assert UpContent(h2, x) == UpContent(h, x);
      }
    }
    forall u | u in h2 && h2[u].OpenUp?
      ensures UpvalueOk(h2, u)
    {
      assert UpvalueOk(h, u);
    }
  }

  /** After the atomic phase the live objects are the marked ones. */
  lemma AtomicKeepsInv(s: State, s2: State)
    requires Inv(s) && s.phase.EnterAtomic? && AtomicDone(s, s2)
    ensures Inv(s2) && LiveSet(s2) == MarkedSet(s2)
  {
    hide WellFormed, NoBlackToWhite, ClearWeak, WithinBut, ClosedBut;
    var c := MarkedSet(s2);
    assert s2.heap.Keys == s.heap.Keys by { ClearedKeys(s.heap, s.allweak, c); }
    assert LiveSet(s2) == c;
    assert AllWeakOk(s.heap, s.allweak, c);
    ClearedHeap(s.heap, LiveSet(s), s.roots, s.twups, s.allweak, c, s2.twups);
  }

  lemma ClearedKeys(h: Heap, parked: set<Id>, c: set<Id>)
    ensures ClearWeak(h, parked, c).Keys == h.Keys
  {
  }
}
