/** Why the two main theorems need their conditions.  Both runs start alike: table 1 gets
    object 2 as a weak metatable and holds object 5, and is parked in 'allweak'.  Then
    - it gets another metatable, which the collector frees although the table still has it;
    - the '__mode' field of its metatable is removed, so that it is a strong table, and the
      collector drops its entry and condemns the value. */
module GcCounterexample {
  import opened Options
  import opened GcHeap
  import opened GcSteps
  import opened GcTheorems

  const W := White(false)
  const Empty := Table(Strong, None, {})
  const Held := Entry(None, Some(5))
  const ModeField := Entry(Some(3), Some(4))     // __mode = "kv"
  const WeakMeta := Table(AllWeak, None, {ModeField})
  const NoField := Entry(Some(3), None)
  const StrongMeta := Table(Strong, None, {NoField})
  const Weak := Table(Strong, Some(2), {Held})
  const Th1 := Thread([Some(1)])
  const Th5 := Thread([Some(1), Some(2), Some(3), Some(4), Some(5)])

  function Paused(heap: Heap, color: map<Id, Color>): State {
    State(heap, color, false, Pause, {}, {}, {}, {}, {}, {}, {0}, {})
  }

  function Marking(heap: Heap, color: map<Id, Color>, gray: set<Id>, again: set<Id>, allweak: set<Id>): State {
    State(heap, color, false, Propagate, gray, again, {}, {}, allweak, {}, {0}, {})
  }

  // ----- the common start -----

  const S0 := Paused(map[0 := Thread([])], map[0 := W])
  const S1 := Pushed(Allocated(S0, 1, Empty), 0, 1)
  const S2 := Paused(map[0 := Thread([Some(1), Some(2)]), 1 := Empty, 2 := Empty], map[0 := W, 1 := W, 2 := W])
  const S3 := Pushed(Allocated(S2, 3, Str), 0, 3)
  const S4 := Paused(map[0 := Thread([Some(1), Some(2), Some(3), Some(4)]), 1 := Empty, 2 := Empty, 3 := Str, 4 := Str],
                     map[0 := W, 1 := W, 2 := W, 3 := W, 4 := W])
  const Whites := map[0 := W, 1 := W, 2 := W, 3 := W, 4 := W, 5 := W]
  const H5 := map[0 := Th5, 1 := Empty, 2 := Empty, 3 := Str, 4 := Str, 5 := Empty]
  const H6 := H5[2 := WeakMeta]
  const H7 := H6[1 := Table(Strong, Some(2), {})]
  const H8 := H7[1 := Weak]
  const H9 := map[0 := Th1, 1 := Weak, 2 := WeakMeta, 3 := Str, 4 := Str, 5 := Empty]
  const S5 := Paused(H5, Whites)
  const S6 := Paused(H6, Whites)
  const S7 := Paused(H7, Whites)
  const S8 := Paused(H8, Whites)
  const S9 := Paused(H9, Whites)
  const S10 := Marking(H9, Whites[0 := Gray], {0}, {}, {})
  const S11 := Marking(H9, Whites[0 := Gray][1 := Gray], {1}, {0}, {})
  const S12 := Marking(H9, map[0 := Gray, 1 := Gray, 2 := Gray, 3 := W, 4 := W, 5 := W], {2}, {0}, {1})
  const Parked := map[0 := Gray, 1 := Gray, 2 := Black, 3 := Black, 4 := Black, 5 := W]
  const S13 := Marking(H9, Parked, {}, {0}, {1})

  lemma OnStack(h: Heap, o: Id)
    requires 0 in h && h[0].Thread? && Some(o) in h[0].stack
    ensures Accessible(h, {0}, 0) && Accessible(h, {0}, o)
  {
    assert o in StackRefs(h[0].stack);
    assert o in Refs(h, 0);
  }

  /** Allocation of an object without references, left on the stack of the main thread. */
  lemma Allocates(s: State, o: Id, cell: Cell, s2: State)
    requires s.roots == {0} && 0 in s.heap && s.heap[0].Thread? && o !in s.heap
    requires cell == Str || cell == Empty
    requires s2 == Pushed(Allocated(s, o, cell), 0, o)
    ensures Step(s, NewObject(o, cell, 0), s2)
  {
    assert Refs(s.heap[o := cell], o) == {};
    assert Accessible(s.heap, s.roots, 0);
  }

  lemma Allocations()
    ensures Step(S0, NewObject(1, Empty, 0), S1) && Step(S1, NewObject(2, Empty, 0), S2)
    ensures Step(S2, NewObject(3, Str, 0), S3) && Step(S3, NewObject(4, Str, 0), S4)
    ensures Step(S4, NewObject(5, Empty, 0), S5)
  {
    hide Step;
    Allocates(S0, 1, Empty, S1);
    Second();
    Allocates(S1, 2, Empty, S2);
    Allocates(S2, 3, Str, S3);
    Fourth();
    Allocates(S3, 4, Str, S4);
    Fifth();
    Allocates(S4, 5, Empty, S5);
  }

  lemma Second() ensures S2 == Pushed(Allocated(S1, 2, Empty), 0, 2) {
    var p := Pushed(Allocated(S1, 2, Empty), 0, 2);
    assert p.heap[0] == Thread([Some(1), Some(2)]);
    assert p.heap == S2.heap && p.color == S2.color;
  }

  lemma Fourth() ensures S4 == Pushed(Allocated(S3, 4, Str), 0, 4) {
    var p := Pushed(Allocated(S3, 4, Str), 0, 4);
    assert p.heap[0] == Thread([Some(1), Some(2), Some(3), Some(4)]);
    assert p.heap == S4.heap && p.color == S4.color;
  }

  lemma Fifth() ensures S5 == Pushed(Allocated(S4, 5, Empty), 0, 5) {
    var p := Pushed(Allocated(S4, 5, Empty), 0, 5);
    assert p.heap[0] == Th5;
    assert p.heap == H5 && p.color == Whites;
  }

  /** A store that finds its table not black, or its references marked. */
  lemma Stores(s: State, o: Id, e: Entry, says: Mode, s2: State)
    requires s.roots == {0} && o in s.heap && s.heap[o].Table? && Accessible(s.heap, {0}, o)
    requires e.key.Some? ==> Accessible(s.heap, {0}, e.key.value) && (IsBlack(s, o) ==> Marked(s, e.key.value))
    requires e.val.Some? ==> Accessible(s.heap, {0}, e.val.value) && (IsBlack(s, o) ==> Marked(s, e.val.value))
    requires s2 == WithCell(s, o, s.heap[o].(says := says, entries := {e}))
    ensures Step(s, SetEntry(o, {}, e, says), s2)
  {
    hide Accessible;
    assert {} + {e} == {e};
  }

  lemma Collects(s: State, s2: State)
    requires CollectStep(s, s2) && !s.phase.SwpAllGc?
    ensures Step(s, Collect, s2)
  {
    hide CollectStep;
  }

  lemma Step5() ensures Step(S5, SetEntry(2, {}, ModeField, AllWeak), S6) {
    hide Step, Accessible;
    assert Some(2) in Th5.stack && Some(3) in Th5.stack && Some(4) in Th5.stack;
    OnStack(H5, 2);
    OnStack(H5, 3);
    OnStack(H5, 4);
    Stores(S5, 2, ModeField, AllWeak, S6);
  }

  lemma Step6() ensures Step(S6, SetMetatable(1, Some(2)), S7) {
    hide Accessible;
    assert Some(1) in Th5.stack && Some(2) in Th5.stack;
    OnStack(H6, 1);
    OnStack(H6, 2);
  }

  lemma Step7() ensures Step(S7, SetEntry(1, {}, Held, Strong), S8) {
    hide Step, Accessible;
    assert Some(1) in Th5.stack && Some(5) in Th5.stack;
    OnStack(H7, 1);
    OnStack(H7, 5);
    Stores(S7, 1, Held, Strong, S8);
  }

  lemma Pops(s: State, s2: State)
    requires s.roots == {0} && 0 in s.heap && s.heap[0].Thread? && Some(1) in s.heap[0].stack
    requires 1 in s.heap && s.heap[1].Table? && s2 == WithCell(s, 0, Th1)
    requires forall u :: u in s.heap ==> !s.heap[u].OpenUp?
    ensures Step(s, SetStack(0, [Some(1)]), s2)
  {
    OnStack(s.heap, 1);
    assert StackRefs([Some(1)]) == {1};
  }

  lemma Step8() ensures Step(S8, SetStack(0, [Some(1)]), S9) {
    hide Step;
    assert Some(1) in Th5.stack;
    assert H9 == H8[0 := Th1];
    Pops(S8, S9);
  }

  lemma Step9() ensures Step(S9, Collect, S10) {
    var r := NoGrayLists(S9).(phase := Propagate);
    assert MarkedSet(r) == {} && MarkedSet(S9) == {} && MarkedSet(S10) == {0};
    assert LinkableOf(r.heap, Fresh(r, S10)) == {0};
    assert Marks(r, S10);
    assert Within(S9.heap, S9.roots, Fresh(S9, S10));
  }

  lemma Stack1(h: Heap)
    requires 0 in h && h[0] == Th1 && forall u :: u in h ==> !h[u].OpenUp?
    ensures Refs(h, 0) == {1} == StrongRefs(h, 0)
  {
    assert Some(1) in Th1.stack;
    assert StackRefs(Th1.stack) == {1};
  }

  /** Objects strongly held by marked ones may be marked. */
  lemma Reaches(h: Heap, o: Id, marked: set<Id>, more: set<Id>)
    requires o in h && o in marked && more <= StrongRefs(h, o)
    ensures Within(h, marked, marked + more)
  {
    forall c: set<Id> | marked <= c && StrongClosed(h, c)
      ensures marked + more <= c
    {
      assert o in c && HoldsIn(h, c, o);
    }
  }

  lemma Propagates(s: State, o: Id, m: State, more: set<Id>, s2: State)
    requires s.phase.Propagate? && s.gray == {o} && o in s.heap && Linkable(s.heap[o]) && o in MarkedSet(s)
    requires more == Fresh(s.(color := s.color[o := Black], gray := {}), m) <= StrongRefs(s.heap, o)
    requires Marks(s.(color := s.color[o := Black], gray := {}), m)
    requires Traversed(s.heap, MarkedSet(s), MarkedSet(m), o) && s2 == Linked(m, o)
    ensures Step(s, Collect, s2)
  {
    hide Within, Traversed, Linked, FreshMark, StrongRefs;
    var b := s.(color := s.color[o := Black], gray := {});
    assert s.gray - {o} == {} && MarkedSet(b) == MarkedSet(s);
    MarksGrow(b, m);
    assert MarkedSet(m) == MarkedSet(s) + more;
    Reaches(s.heap, o, MarkedSet(s), more);
    hide Marks, MarkedSet;
    assert Propagated(s, m, s2, o);
    Collects(s, s2);
  }

  lemma Step10() ensures Step(S10, Collect, S11) {
    hide Step;
    var b := S10.(color := S10.color[0 := Black], gray := {});
    var m := S10.(color := S10.color[0 := Black][1 := Gray], gray := {1});
    assert MarkedSet(S10) == {0} && MarkedSet(b) == {0} && MarkedSet(m) == {0, 1};
    assert Fresh(b, m) == {1};
    assert LinkableOf(H9, {1}) == {1};
    assert Marks(b, m);
    Stack1(H9);
    hide Marks;
    assert S11 == Linked(m, 0);
    Propagates(S10, 0, m, {1}, S11);
  }

  lemma Step11() ensures Step(S11, Collect, S12) {
    hide Step;
    var b := S11.(color := S11.color[1 := Black], gray := {});
    var m := S11.(color := S11.color[1 := Black][2 := Gray], gray := {2});
    assert MarkedSet(S11) == {0, 1} && MarkedSet(b) == {0, 1} && MarkedSet(m) == {0, 1, 2};
    assert Fresh(b, m) == {2};
    assert LinkableOf(H9, {2}) == {2};
    assert Marks(b, m);
    hide Marks;
    assert ModeOf(H9, 1) == AllWeak;
    assert S12 == Linked(m, 1);
    Propagates(S11, 1, m, {2}, S12);
  }

  lemma Marks12() ensures Marks(S12.(color := S12.color[2 := Black], gray := {}), S13)
    ensures Fresh(S12.(color := S12.color[2 := Black], gray := {}), S13) == {3, 4}
    ensures 2 in MarkedSet(S12) && {2, 3, 4} <= MarkedSet(S13)
  {
    var b := S12.(color := S12.color[2 := Black], gray := {});
    assert MarkedSet(b) == {0, 1, 2} && MarkedSet(S13) == {0, 1, 2, 3, 4};
    assert Fresh(b, S13) == {3, 4};
    assert LinkableOf(H9, {3, 4}) == {};
  }

  lemma Step12() ensures Step(S12, Collect, S13) {
    hide Step, Marks, MarkedSet, Fresh;
    Marks12();
    assert ModeOf(H9, 2) == Strong;
    assert ModeField in WeakMeta.entries;
    assert Refs(H9, 2) == {3, 4};
    assert S13 == Linked(S13, 2);
    Propagates(S12, 2, S13, {3, 4}, S13);
  }

  lemma FromStart() returns (run: seq<State>, evs: seq<Event>)
    ensures RunTo(run, evs, S5, true)
  {
    hide Step, RunTo;
    Allocations();
    run, evs := AtStart();
    run, evs := Go(run, evs, S0, true, NewObject(1, Empty, 0), S1);
    run, evs := Go(run, evs, S1, true, NewObject(2, Empty, 0), S2);
    run, evs := Go(run, evs, S2, true, NewObject(3, Str, 0), S3);
    run, evs := Go(run, evs, S3, true, NewObject(4, Str, 0), S4);
    run, evs := Go(run, evs, S4, true, NewObject(5, Empty, 0), S5);
  }

  lemma AtStart() returns (run: seq<State>, evs: seq<Event>)
    ensures RunTo(run, evs, S0, true)
  {
    run, evs := [S0], [];
  }

  lemma ToParked() returns (run: seq<State>, evs: seq<Event>)
    ensures RunTo(run, evs, S13, true)
  {
    hide Step, RunTo;
    run, evs := FromStart();
    Step5(); Step6(); Step7(); Step8(); Step9(); Step10(); Step11(); Step12();
    run, evs := Go(run, evs, S5, true, SetEntry(2, {}, ModeField, AllWeak), S6);
    run, evs := Go(run, evs, S6, true, SetMetatable(1, Some(2)), S7);
    run, evs := Go(run, evs, S7, true, SetEntry(1, {}, Held, Strong), S8);
    run, evs := Go(run, evs, S8, true, SetStack(0, [Some(1)]), S9);
    run, evs := Go(run, evs, S9, true, Collect, S10);
    run, evs := Go(run, evs, S10, true, Collect, S11);
    run, evs := Go(run, evs, S11, true, Collect, S12);
    run, evs := Go(run, evs, S12, true, Collect, S13);
  }

  // ----- a parked table gets another metatable -----

  const New := Table(Strong, Some(6), {Held})
  const Cleared := Table(Strong, Some(6), {})
  const Th6 := Thread([Some(1), Some(6)])
  const A14 := Marking(H9[0 := Th6][6 := Empty], Parked[6 := W], {}, {0}, {1})
  const A15 := Marking(H9[0 := Th6][6 := Empty][1 := New], Parked[6 := W], {}, {0}, {1})
  const HA := map[0 := Th1, 1 := New, 2 := WeakMeta, 3 := Str, 4 := Str, 5 := Empty, 6 := Empty]
  const A16 := Marking(HA, Parked[6 := W], {}, {0}, {1})
  const A17 := A16.(phase := EnterAtomic)
  const A18 := State(HA[1 := Cleared], Parked[0 := Black][6 := W], true, SwpAllGc, {}, {}, {}, {}, {1}, {}, {0}, {0, 1, 2, 3, 4, 5, 6})
  const A19 := A18.(heap := H9[1 := Cleared], color := Parked[0 := Black], ahead := {0, 1, 2, 3, 4, 5})

  lemma StepA13() ensures Step(S13, NewObject(6, Empty, 0), A14) {
    assert Th1.stack + [Some(6)] == Th6.stack;
    assert H9[6 := Empty][0 := Th6] == H9[0 := Th6][6 := Empty];
    Allocates(S13, 6, Empty, A14);
  }

  lemma StepA14() ensures Step(A14, SetMetatable(1, Some(6)), A15) {
    assert Some(1) in Th6.stack && Some(6) in Th6.stack;
    OnStack(A14.heap, 1);
    OnStack(A14.heap, 6);
  }

  lemma StepA15() ensures Step(A15, SetStack(0, [Some(1)]), A16) {
    assert Some(1) in Th6.stack;
    assert HA == A15.heap[0 := Th1];
    Pops(A15, A16);
  }

  lemma StepA16() ensures Step(A16, Collect, A17) {
  }

  /** The marks are already closed but for the parked table. */
  lemma ClosedParked(h: Heap, c: set<Id>)
    requires c == {0, 1, 2, 3, 4} <= h.Keys && h[0] == Th1 && h[3] == h[4] == Str
    requires h[2] == WeakMeta || h[2] == StrongMeta
    requires h[1].Table? && h[1].entries == {Held} && 5 in h && h[5] == Empty
    requires forall u :: u in h ==> !h[u].OpenUp?
    ensures ClosedBut(h, {1}, c)
  {
    Stack1(h);
    assert Keys(h[2].entries) <= c && Vals(h[2].entries) <= c;
    assert ModeOf(h, 2) == Strong;
    assert Strings(h, Vals({Held})) == {};
    assert ParkedIn(h, c, 1);
    assert HoldsIn(h, c, 0) && HoldsIn(h, c, 2) && HoldsIn(h, c, 3) && HoldsIn(h, c, 4);
  }

  lemma AtomicFrom(s: State, c: set<Id>, s2: State)
    requires s.phase.EnterAtomic? && s.roots == s2.roots == {0} && s2.color.Keys == s.color.Keys && s2.twups == {}
    requires c == MarkedSet(s) == MarkedSet(s2) && 0 in c && ClosedBut(s.heap, s.allweak, c)
    requires forall o :: o in s2.color && o !in c ==> s2.color[o] == White(s.white)
    requires s2.heap == ClearWeak(s.heap, s.allweak, c) && s2.white == !s.white
    requires s2.phase.SwpAllGc? && s2.ahead == s.heap.Keys
    requires forall u :: u in s.heap ==> !s.heap[u].OpenUp?
    ensures Step(s, Collect, s2)
  {
    hide ClosedBut, ClearWeak;
    assert AtomicDone(s, s2);
    Collects(s, s2);
  }

  /** Clearing drops the entry of table 1 and changes nothing else. */
  lemma ClearsHeld(h: Heap, c: set<Id>)
    requires c == {0, 1, 2, 3, 4} <= h.Keys && h[1].Table? && h[1].entries == {Held} && 5 !in c
    requires h[2].Table? && h[2].mt == None && !h[0].Table? && !h[3].Table? && !h[4].Table?
    ensures ClearWeak(h, {1}, c) == h[1 := h[1].(entries := {})]
  {
    assert Kept(AllWeak, {Held}, c) == {};
    assert ModeOf(h, 2) == Strong;
  }

  lemma StepA17() ensures Step(A17, Collect, A18) {
    hide Step, ClosedBut, ClearWeak;
    var c := {0, 1, 2, 3, 4};
    assert MarkedSet(A17) == c && MarkedSet(A18) == c;
    ClosedParked(HA, c);
    ClearsHeld(HA, c);
    assert HA.Keys == {0, 1, 2, 3, 4, 5, 6};
    hide MarkedSet;
    AtomicFrom(A17, c, A18);
  }

  lemma Sweeps(s: State, o: Id, s2: State)
    requires s.phase.SwpAllGc? && o in s.ahead && Dead(s, o) && o in s.heap
    requires forall u :: u in s.heap ==> !s.heap[u].OpenUp?
    requires s2 == s.(heap := s.heap - {o}, color := s.color - {o}, ahead := s.ahead - {o})
    ensures Step(s, SweepObject(o), s2)
  {
    assert Freed(s.heap, o) == s.heap - {o};
    assert SweepOne(s, s2, o);
  }

  lemma LastObject() ensures HA[1 := Cleared] - {6} == H9[1 := Cleared]
    ensures Parked[0 := Black][6 := W] - {6} == Parked[0 := Black]
  {
  }

  lemma StepA18() ensures Step(A18, SweepObject(6), A19) {
    hide Step;
    LastObject();
    assert A18.ahead - {6} == A19.ahead;
    Sweeps(A18, 6, A19);
  }

  lemma StillAccessible() ensures Accessible(A19.heap, A19.roots, 6) && 6 !in A19.heap {
    hide Accessible;
    assert Some(1) in Th1.stack;
    OnStack(A19.heap, 1);
    assert 6 in Refs(A19.heap, 1);
    AccessibleStep(A19.heap, {0}, 1, 6);
  }

  /** Object 6 is freed while it is still the metatable of a table on the stack. */
  lemma ParkedMetatableIsFreed() returns (run: seq<State>, evs: seq<Event>)
    ensures IsRun(run, evs) && !Respectful(run, evs)
    ensures var s := run[|run| - 1];
      Accessible(s.heap, s.roots, 6) && 6 !in s.heap
  {
    hide Step, Accessible, Initial, MetatableOk;
    run, evs := ToDangling();
    StillAccessible();
  }

  lemma ToDangling() returns (run: seq<State>, evs: seq<Event>)
    ensures RunTo(run, evs, A19, false)
  {
    hide Step, RunTo;
    run, evs := ToParked();
    StepA13(); StepA14(); StepA15(); StepA16(); StepA17(); StepA18();
    assert !MetatableOk(A14, SetMetatable(1, Some(6)));
    run, evs := Go(run, evs, S13, true, NewObject(6, Empty, 0), A14);
    run, evs := Go(run, evs, A14, true, SetMetatable(1, Some(6)), A15);
    run, evs := Go(run, evs, A15, false, SetStack(0, [Some(1)]), A16);
    run, evs := Go(run, evs, A16, false, Collect, A17);
    run, evs := Go(run, evs, A17, false, Collect, A18);
    run, evs := Go(run, evs, A18, false, SweepObject(6), A19);
  }

  // ----- a parked table becomes strong -----

  const HB := map[0 := Th1, 1 := Weak, 2 := StrongMeta, 3 := Str, 4 := Str, 5 := Empty]
  const B14 := Marking(HB, Parked, {}, {0}, {1})
  const B15 := B14.(phase := EnterAtomic)
  const B16 := State(HB[1 := Table(Strong, Some(2), {})], Parked[0 := Black], true, SwpAllGc, {}, {}, {}, {}, {1}, {}, {0}, {0, 1, 2, 3, 4, 5})

  lemma FieldAccessible() ensures Accessible(H9, {0}, 2) && Accessible(H9, {0}, 3) {
    hide Accessible;
    assert Some(1) in Th1.stack;
    OnStack(H9, 1);
    assert 2 in Refs(H9, 1) && 3 in Refs(H9, 2) by { assert ModeField in WeakMeta.entries; }
    AccessibleStep(H9, {0}, 1, 2);
    AccessibleStep(H9, {0}, 2, 3);
  }

  lemma StepB13() ensures Step(S13, SetEntry(2, {}, NoField, Strong), B14) {
    hide Step, Accessible;
    FieldAccessible();
    assert HB == H9[2 := StrongMeta];
    Stores(S13, 2, NoField, Strong, B14);
  }

  lemma StepB14() ensures Step(B14, Collect, B15) {
  }

  lemma StepB15() ensures Step(B15, Collect, B16) {
    hide Step, ClosedBut, ClearWeak;
    var c := {0, 1, 2, 3, 4};
    assert MarkedSet(B15) == c && MarkedSet(B16) == c;
    ClosedParked(HB, c);
    ClearsHeld(HB, c);
    assert HB.Keys == {0, 1, 2, 3, 4, 5};
    hide MarkedSet;
    AtomicFrom(B15, c, B16);
  }

  lemma StrongHeld() ensures StronglyReachable(HB, {0}, 1) && StronglyReachable(HB, {0}, 5) {
    Stack1(HB);
    assert StronglyReachable(HB, {0}, 0);
    StrongStep(HB, {0}, 0, 1);
    assert ModeOf(HB, 1) == Strong && Held in Weak.entries;
    assert 5 in Refs(HB, 1);
    StrongStep(HB, {0}, 1, 5);
  }

  /** Table 1 is strong and on the stack; its only entry is dropped and the value condemned. */
  lemma StrengthenedTableLosesEntry() returns (run: seq<State>, evs: seq<Event>, n: nat)
    ensures IsRun(run, evs) && Respectful(run, evs) && n + 1 == |evs| && evs[n].Collect?
    ensures StronglyReachable(run[n].heap, run[n].roots, 5) && Dead(run[n + 1], 5)
    ensures StronglyReachable(run[n].heap, run[n].roots, 1) && !Preserved(run[n], run[n + 1], 1)
    ensures Strengthened(run[n], 1) && !WeakeningOk(run[n], evs[n])
  {
    hide Step, StronglyReachable, Preserved, WeakeningOk;
    StepB15();
    var run1, evs1 := ToStrong();
    run, evs := Go(run1, evs1, B15, true, Collect, B16);
    n := |evs1|;
    assert run[n] == run1[n] == B15 && run[n + 1] == B16;
    StrongHeld();
    EntryLost();
    NotOk(run, evs, n);
  }

  lemma ToStrong() returns (run: seq<State>, evs: seq<Event>)
    ensures RunTo(run, evs, B15, true)
  {
    hide Step, RunTo;
    run, evs := ToParked();
    StepB13(); StepB14();
    run, evs := Go(run, evs, S13, true, SetEntry(2, {}, NoField, Strong), B14);
    run, evs := Go(run, evs, B14, true, Collect, B15);
  }

  lemma EntryLost()
    ensures Strengthened(B15, 1) && Dead(B16, 5) && !Preserved(B15, B16, 1)
  {
    assert ModeOf(HB, 1) == Strong;
    assert Held in B15.heap[1].entries && Held !in B16.heap[1].entries;
  }

  lemma NotOk(run: seq<State>, evs: seq<Event>, n: nat)
    requires IsRun(run, evs) && Respectful(run, evs) && n < |evs| && n + 1 < |run| && evs[n].Collect?
    requires StronglyReachable(run[n].heap, run[n].roots, 1) && !Preserved(run[n], run[n + 1], 1)
    ensures !WeakeningOk(run[n], evs[n])
  {
    hide Step, IsRun, Respectful, StronglyReachable, Preserved, WeakeningOk;
    if WeakeningOk(run[n], evs[n]) {
      RunPreserves(run, evs, n, 1);
    }
  }
}
