/** The collector at work beside the program: every mutator operation with its barrier,
    single steps, and full collections.  Whatever the order of the calls, the recorded history
    is one of the runs of the main theorems. */
module GcDriver {
  import opened Options
  import opened GcHeap
  import opened GcSteps
  import opened GcSafety
  import opened GcTheorems
  import opened GcMarking
  import opened GcAtomic
  import opened GcCollector
  import opened GcFull

  // ----- mutator operations on the collector's data -----

  lemma MarkingHeapOk(s: State)
    requires Inv(s) && KeepInvariant(s.phase)
    ensures HeapOk(s.heap) && LiveSet(s) == s.heap.Keys
  {
  }

  lemma WellFormedHeapOk(h: Heap, live: set<Id>, roots: set<Id>, twups: set<Id>)
    requires WellFormed(h, live, roots, twups) && live == h.Keys
    ensures HeapOk(h)
  {
  }

  lemma WrittenHeapOk(s: State, o: Id, c: Cell, v: Ref)
    requires Inv(s) && KeepInvariant(s.phase) && o in s.heap
    requires Inert(s.heap[o]) && Inert(c) && SameKind(s.heap[o], c)
    requires Refs(s.heap[o := c], o) <= Refs(s.heap, o) + RefSet(v)
    requires RefSet(v) <= LiveSet(s) && Typed(s.heap[o := c], o)
    ensures HeapOk(s.heap[o := c])
  {
    hide WellFormed, Typed;
    MarkingHeapOk(s);
    assert Refs(s.heap, o) <= s.heap.Keys;
    hide HeapOk, Refs;
    WriteKeepsWellFormed(s.heap, LiveSet(s), s.roots, s.twups, o, c);
    WellFormedHeapOk(s.heap[o := c], LiveSet(s), s.roots, s.twups);
  }

  /** A write followed by the forward barrier. */
  method Store(gc: Collector, o: Id, c: Cell, v: Ref)
    requires Inv(gc.Snap()) && o in gc.heap
    requires Inert(gc.heap[o]) && Inert(c) && SameKind(gc.heap[o], c)
    requires Refs(gc.heap[o := c], o) <= Refs(gc.heap, o) + RefSet(v)
    requires RefSet(v) <= LiveSet(gc.Snap()) && Typed(gc.heap[o := c], o)
    modifies gc`heap, gc`color, gc`gray
    ensures ForwardBarrier(WithCell(old(gc.Snap()), o, c), gc.Snap(), o, v)
  {
    hide HeapOk, Refs, Typed, ForwardBarrier;
    if KeepInvariant(gc.phase) {
      WrittenHeapOk(gc.Snap(), o, c, v);
    }
    gc.heap := gc.heap[o := c];
    gc.Barrier(o, v);
  }

  /** A write followed by the backward barriers for its key and its value. */
  method StoreBack(gc: Collector, o: Id, c: Cell, k: Ref, v: Ref)
    requires gc.color.Keys == gc.heap.Keys && o in gc.heap && RefSet(k) + RefSet(v) <= gc.heap.Keys
    modifies gc`heap, gc`color, gc`again
    ensures gc.Snap() == BackBarrier(BackBarrier(WithCell(old(gc.Snap()), o, c), o, k), o, v)
  {
    gc.heap := gc.heap[o := c];
    gc.BarrierBack(o, k);
    gc.BarrierBack(o, v);
  }

  /** 'luaC_newobj', anchored on a stack or in a closure. */
  method Create(gc: Collector, o: Id, cell: Cell, at: Id)
    requires Inv(gc.Snap()) && Enabled(gc.Snap(), NewObject(o, cell, at))
    modifies gc`heap, gc`color, gc`gray, gc`twups
    ensures Step(old(gc.Snap()), NewObject(o, cell, at), gc.Snap())
  {
    hide Inv, HeapOk, ForwardBarrier;
    ghost var s := gc.Snap();
    AccessibleIsLive(s, at);
    UsableIsLive(s, Refs(s.heap[o := cell], o));
    AllocKeepsInv(s, o, cell);
    var holder := gc.heap[at];
    gc.NewObject(o, cell);
    if holder.Thread? && !cell.OpenUp? {
      gc.heap := gc.heap[at := Thread(holder.stack + [Some(o)])];
    } else if holder.Record? {
      Store(gc, at, Record(holder.refs + {o}), Some(o));
    }
  }

  /** Assignment through an upvalue. */
  method AssignUpvalue(gc: Collector, u: Id, v: Ref)
    requires Inv(gc.Snap()) && Enabled(gc.Snap(), SetUpvalue(u, v))
    modifies gc`heap, gc`color, gc`gray
    ensures Step(old(gc.Snap()), SetUpvalue(u, v), gc.Snap())
  {
    hide Inv, HeapOk, ForwardBarrier;
    ghost var s := gc.Snap();
    AccessibleIsLive(s, u);
    UsableIsLive(s, RefSet(v));
    InvUpvalues(s);
    match gc.heap[u] {
      case ClosedUp(_) => Store(gc, u, ClosedUp(v), v);
      case OpenUp(_, _) =>
        assert UpvalueOk(s.heap, u);
        hide Enabled, Accessible;
        StoreOpen(gc, u, v);
      case _ => assert false;
    }
  }

  method StoreOpen(gc: Collector, u: Id, v: Ref)
    requires Inv(gc.Snap()) && u in gc.heap && gc.heap[u].OpenUp? && UpvalueOk(gc.heap, u)
    requires RefSet(v) <= LiveSet(gc.Snap()) && IsValue(gc.heap, v)
    modifies gc`heap, gc`color, gc`gray
    ensures ForwardBarrier(old(gc.Snap()).(heap := UpStored(old(gc.heap), u, v)), gc.Snap(), u, v)
  {
    hide Inv, HeapOk, ForwardBarrier;
    ghost var s := gc.Snap();
    var th, i := gc.heap[u].thread, gc.heap[u].slot;
    var stack := gc.heap[th].stack[i := v];
    OpenStoreKeepsInv(s, u, v);
    if KeepInvariant(gc.phase) {
      MarkingHeapOk(WithCell(s, th, Thread(stack)));
    }
    gc.heap := gc.heap[th := Thread(stack)];
    InvKeys(s);
    gc.Barrier(u, v);
  }

  lemma InvKeys(s: State)
    requires Inv(s)
    ensures s.color.Keys == s.heap.Keys && s.ahead <= s.heap.Keys && LiveSet(s) <= s.heap.Keys
  {
  }

  lemma OpenStoreKeepsInv(s: State, u: Id, v: Ref)
    requires Inv(s) && u in s.heap && s.heap[u].OpenUp? && UpvalueOk(s.heap, u)
    requires RefSet(v) <= LiveSet(s) && IsValue(s.heap, v)
    ensures var th := s.heap[u].thread;
      Inv(WithCell(s, th, Thread(s.heap[th].stack[s.heap[u].slot := v])))
  {
    var th := s.heap[u].thread;
    var stack := s.heap[th].stack[s.heap[u].slot := v];
    assert forall j: nat :: j < |stack| ==> SlotOk(s.heap, LiveSet(s), th, stack, j);
    assert forall y :: OpenOn(s.heap, y, th) ==> UpvalueOk(s.heap, y);
    StackWriteKeepsInv(s, th, stack);
  }

  lemma CloseReady(s: State, u: Id)
    requires Inv(s) && Enabled(s, CloseUpvalue(u))
    ensures RefSet(UpContent(s.heap, u)) <= s.heap.Keys
    ensures KeepInvariant(s.phase) ==> HeapOk(ClosedHeap(s.heap, u))
  {
    hide WellFormed, HeapOk;
    AccessibleIsLive(s, s.heap[u].thread);
    ContentAllocated(s, u);
    if KeepInvariant(s.phase) {
      MarkingHeapOk(s);
      CloseKeepsWellFormed(s.heap, LiveSet(s), s.roots, s.twups, u);
      WellFormedHeapOk(ClosedHeap(s.heap, u), LiveSet(s), s.roots, s.twups);
    }
  }

  lemma ContentAllocated(s: State, u: Id)
    requires Inv(s) && u in s.heap && s.heap[u].OpenUp? && s.heap[u].thread in LiveSet(s)
    ensures RefSet(UpContent(s.heap, u)) <= s.heap.Keys
  {
    var th := s.heap[u].thread;
    assert UpvalueOk(s.heap, u);
    assert OpenOn(s.heap, u, th);
    assert u in Refs(s.heap, th);
    assert Refs(s.heap, u) <= LiveSet(s);
  }

  /** 'luaF_closeupval' for one upvalue. */
  method Close(gc: Collector, u: Id)
    requires Inv(gc.Snap()) && Enabled(gc.Snap(), CloseUpvalue(u))
    modifies gc`heap, gc`color, gc`gray
    ensures Step(old(gc.Snap()), CloseUpvalue(u), gc.Snap())
  {
    hide Inv, HeapOk, ForwardBarrier;
    ghost var s := gc.Snap();
    CloseReady(s, u);
    InvKeys(s);
    var v := UpContent(gc.heap, u);
    gc.heap := gc.heap[u := ClosedUp(v)];
    if !gc.color[u].White? {
      gc.color := gc.color[u := Black];
      gc.Barrier(u, v);
    }
  }

  /** Stores into tables, closures and userdata. */
  method Assign(gc: Collector, ev: Event)
    requires Inv(gc.Snap()) && Enabled(gc.Snap(), ev)
    requires ev.SetRecord? || ev.SetUserValue? || ev.SetMetatable? || ev.SetEntry? || ev.ClearEntries?
    modifies gc`heap, gc`color, gc`gray, gc`again
    ensures Step(old(gc.Snap()), ev, gc.Snap())
  {
    hide Inv, HeapOk, ForwardBarrier, BackBarrier;
    ghost var s := gc.Snap();
    InvKeys(s);
    match ev {
      case SetRecord(o, refs, v) =>
        UsableIsLive(s, RefSet(v));
        Store(gc, o, Record(refs), v);
      case SetMetatable(o, mt) =>
        UsableIsLive(s, RefSet(mt));
        Store(gc, o, gc.heap[o].(mt := mt), mt);
      case SetUserValue(o, refs, v) =>
        UsableIsLive(s, RefSet(v));
        StoreBack(gc, o, Record(refs), v, None);
        NoBarrier(WithCell(s, o, Record(refs)), o, v);
      case SetEntry(o, kept, e, says) =>
        UsableIsLive(s, RefSet(e.key) + RefSet(e.val));
        StoreBack(gc, o, gc.heap[o].(says := says, entries := kept + {e}), e.key, e.val);
      case ClearEntries(o, kept, says) =>
        gc.heap := gc.heap[o := gc.heap[o].(says := says, entries := kept)];
      case _ => assert false;
    }
  }

  lemma NoBarrier(w: State, o: Id, v: Ref)
    ensures BackBarrier(BackBarrier(w, o, v), o, None) == BackBarrier(w, o, v)
  {
  }

  // ----- progress of the collector -----

  predicate Moving(ev: Event) {
    ev.Collect? || ev.SweepObject?
  }

  function Index(p: Phase): nat {
    match p
    case Pause => 0
    case Propagate => 1
    case EnterAtomic => 2
    case Atomic => 2
    case SwpAllGc => 3
    case SwpFinObj => 4
    case SwpToBeFnz => 5
    case SwpEnd => 6
    case CallFin => 7
  }

  function NextIndex(p: Phase): nat {
    if p.CallFin? then 0 else Index(p) + 1
  }

  /** Phases to go until 'target'. */
  function Distance(p: Phase, target: Phase): nat {
    if Index(p) <= Index(target) then Index(target) - Index(p) else Index(target) + 8 - Index(p)
  }

  /** A step goes to the next phase, marks something, or has one object less to do. */
  ghost predicate Progress(s: State, s2: State) {
    if s2.phase != s.phase then Index(s2.phase) == NextIndex(s.phase)
    else if s.phase.Propagate? then
      s2.heap == s.heap && (MarkedSet(s) < MarkedSet(s2) <= s.heap.Keys || (MarkedSet(s2) == MarkedSet(s) && s2.gray < s.gray))
    else s2.ahead < s.ahead
  }

  function Unmarked(s: State): set<Id> {
    if s.phase.Propagate? then s.heap.Keys - MarkedSet(s) else {}
  }

  function Waiting(s: State): set<Id> {
    if s.phase.Propagate? then s.gray else s.ahead
  }

  lemma Closer(p: Phase, p2: Phase, target: Phase)
    requires Index(p2) == NextIndex(p) && p != target && !p.Atomic? && !target.Atomic?
    ensures Distance(p2, target) < Distance(p, target)
  {
    assert Index(p) != Index(target);
  }

  lemma Descends(s: State, s2: State, target: Phase)
    requires Progress(s, s2) && s.phase != target && !s.phase.Atomic? && !s2.phase.Atomic? && !target.Atomic?
    ensures
      || Distance(s2.phase, target) < Distance(s.phase, target)
      || (Distance(s2.phase, target) == Distance(s.phase, target) &&
          (Unmarked(s2) < Unmarked(s) || (Unmarked(s2) == Unmarked(s) && Waiting(s2) < Waiting(s))))
  {
    hide Distance, Index, MarkedSet;
    if s2.phase != s.phase {
      Closer(s.phase, s2.phase, target);
    }
    if s2.phase == s.phase && MarkedSet(s) < MarkedSet(s2) && s.phase.Propagate? {
      assert exists x :: x in MarkedSet(s2) && x !in MarkedSet(s);
    }
  }

  lemma MarkingProgress(s: State, m: State, s2: State, o: Id)
    requires Inv(s) && s.phase.Propagate? && Propagated(s, m, s2, o)
    ensures Progress(s, s2)
  {
    hide Inv, Traversed, Within, FreshMark, Marks;
    InvKeys(s);
    GrayIsMarked(s, o);
    DepartureGrows(s, m, o);
    LinkedKeepsMarks(m, s2, o);
  }

  lemma LinkedKeepsMarks(m: State, s2: State, o: Id)
    requires o in m.heap && o in m.color && m.color[o].Black? && s2 == Linked(m, o)
    ensures MarkedSet(s2) == MarkedSet(m) && s2.gray == m.gray && s2.heap == m.heap && s2.phase == m.phase
  {
    hide ModeOf;
  }

  lemma DepartureGrows(s: State, m: State, o: Id)
    requires s.color.Keys == s.heap.Keys && o in GraySet(s) && o in s.gray
    requires Marks(s.(color := s.color[o := Black], gray := s.gray - {o}), m)
    ensures MarkedSet(s) <= MarkedSet(m) <= s.heap.Keys && m.heap == s.heap && m.phase == s.phase
    ensures MarkedSet(m) == MarkedSet(s) ==> m.gray == s.gray - {o}
    ensures o in m.color && m.color[o].Black?
  {
    hide FreshMark;
    var b := s.(color := s.color[o := Black], gray := s.gray - {o});
    assert MarkedSet(b) == MarkedSet(s);
    MarksGrow(b, m);
    assert Marked(b, o) && m.color[o].Black?;
    assert MarkedSet(m) == MarkedSet(s) ==> LinkableOf(s.heap, Fresh(b, m)) == {};
  }

  lemma CollectProgress(s: State, s2: State)
    requires Inv(s) && CollectStep(s, s2)
    ensures Progress(s, s2)
  {
    hide Inv, Propagated, AtomicDone, Restarted, Progress;
    match s.phase
    case Pause => RestartPhase(s, s2);
    case Propagate =>
      if s.gray == {} {
        PhaseProgress(s, s2);
      } else {
        var m, o :| Propagated(s, m, s2, o);
        MarkingProgress(s, m, s2, o);
      }
    case EnterAtomic => AtomicPhase(s, s2);
    case _ => PhaseProgress(s, s2);
  }

  lemma PhaseProgress(s: State, s2: State)
    requires s2.phase != s.phase && Index(s2.phase) == NextIndex(s.phase)
    ensures Progress(s, s2)
  {
  }

  lemma RestartPhase(s: State, s2: State)
    requires s.phase.Pause? && Restarted(s, s2)
    ensures Progress(s, s2)
  {
  }

  lemma AtomicPhase(s: State, s2: State)
    requires s.phase.EnterAtomic? && AtomicDone(s, s2)
    ensures Progress(s, s2)
  {
    hide ClosedBut, WithinBut, ClearWeak;
  }

  // ----- histories -----

  lemma StepLeavesAtomic(s: State, ev: Event, s2: State)
    requires Step(s, ev, s2) && !s.phase.Atomic?
    ensures !s2.phase.Atomic?
  {
    hide Accessible, AtomicDone, ForwardBarrier;
    match ev
    case Collect => CollectPhase(s, s2);
    case NewObject(_, _, _) => ForwardPhases();
    case SetRecord(_, _, _) => ForwardPhases();
    case SetMetatable(_, _) => ForwardPhases();
    case SetUpvalue(_, _) => ForwardPhases();
    case CloseUpvalue(_) => ForwardPhases();
    case _ =>
  }

  lemma CollectPhase(s: State, s2: State)
    requires CollectStep(s, s2)
    ensures !s2.phase.Atomic?
  {
  }

  lemma ForwardPhases()
    ensures forall s, s2, o, v :: ForwardBarrier(s, s2, o, v) ==> s2.phase == s.phase
  {
    hide Within;
  }

  lemma {:induction false} NeverInAtomic(run: seq<State>, evs: seq<Event>, i: nat)
    requires IsRun(run, evs) && i < |run|
    ensures !run[i].phase.Atomic?
  {
    hide Step;
    if i > 0 {
      NeverInAtomic(run, evs, i - 1);
      assert Step(run[i - 1], evs[i - 1], run[i - 1 + 1]);
      StepLeavesAtomic(run[i - 1], evs[i - 1], run[i]);
    }
  }

  function SweepEvents(swept: seq<Id>): (r: seq<Event>)
    ensures |r| == |swept| && forall i :: 0 <= i < |r| ==> r[i] == SweepObject(swept[i])
  {
    seq(|swept|, i requires 0 <= i < |swept| => SweepObject(swept[i]))
  }

  ghost predicate Sweeping(states: seq<State>, swept: seq<Id>) {
    && |states| == |swept| + 1 && states[0].phase.SwpAllGc?
    && forall i :: 0 <= i < |swept| ==> SweepOne(states[i], states[i + 1], swept[i])
  }

  /** The objects swept by one 'sweepstep', as steps of a run. */
  lemma {:induction false} SweepsExtend(run: seq<State>, evs: seq<Event>, states: seq<State>, swept: seq<Id>)
    requires |states| > 0 && RunTo(run, evs, states[0], true) && Sweeping(states, swept)
    ensures RunTo(run + states[1..], evs + SweepEvents(swept), states[|swept|], true)
    ensures forall i :: 0 <= i < |states| ==> states[i].phase.SwpAllGc?
    ensures states[|swept|].ahead <= states[0].ahead && (swept != [] ==> states[|swept|].ahead < states[0].ahead)
    decreases |swept|
  {
    hide Step, RunTo, SweepOne;
    if swept == [] {
      assert run + states[1..] == run && evs + SweepEvents(swept) == evs;
    } else {
      var n := |swept| - 1;
      var states1, swept1 := states[..n + 1], swept[..n];
      assert Sweeping(states1, swept1);
      SweepsExtend(run, evs, states1, swept1);
      assert SweepOne(states[n], states[n + 1], swept[n]);
      assert states1[n] == states[n];
      SweepIsStep(states[n], swept[n], states[n + 1]);
      var run2, evs2 := Go(run + states1[1..], evs + SweepEvents(swept1), states[n], true, SweepObject(swept[n]), states[n + 1]);
      assert run2 == run + states[1..];
      assert evs2 == evs + SweepEvents(swept);
      SweepRespects(states[n], swept[n]);
    }
  }

  lemma SweepIsStep(s: State, o: Id, s2: State)
    requires SweepOne(s, s2, o) && s.phase.SwpAllGc?
    ensures Step(s, SweepObject(o), s2) && s2.phase == s.phase && s2.ahead < s.ahead
  {
  }

  lemma SweepRespects(s: State, o: Id)
    ensures MetatableOk(s, SweepObject(o))
  {
  }

  lemma RunFacts(run: seq<State>, evs: seq<Event>, s: State)
    requires RunTo(run, evs, s, true)
    ensures Inv(s) && !s.phase.Atomic? && |run| == |evs| + 1 && run[|evs|] == s
  {
    hide Step, Inv;
    RunKeepsInv(run, evs, |evs|);
    NeverInAtomic(run, evs, |evs|);
  }

  lemma CollectIsStep(s: State, s2: State)
    requires CollectStep(s, s2)
    ensures Step(s, Collect, s2) && MetatableOk(s, Collect)
  {
  }

  lemma SweepProgress(s: State, s2: State)
    requires s.phase.SwpAllGc? && s2.phase.SwpAllGc? && s2.ahead < s.ahead
    ensures Progress(s, s2)
  {
  }

  lemma AbandonIsStep(s: State, s2: State)
    requires Inv(s) && KeepInvariant(s.phase) && s2 == s.(phase := SwpAllGc, ahead := s.heap.Keys)
    ensures Step(s, AbandonMarks, s2) && MetatableOk(s, AbandonMarks) && Swept(s, s2)
  {
    hide Inv;
    PhaseOnlyKeepsInv(s, s2);
    SweptNothing(s, s2);
  }

  lemma AtomicIsStep(s: State, s2: State)
    requires s.phase.Propagate? && s2 == s.(phase := EnterAtomic)
    ensures Step(s, GoAtomic, s2) && MetatableOk(s, GoAtomic)
  {
  }

  lemma RunIsStretch(run: seq<State>, evs: seq<Event>, i: nat, target: Phase, s: State)
    requires RunTo(run, evs, s, true) && i <= |evs| && s.phase == target
    requires forall k :: i <= k < |evs| ==> Moving(evs[k]) && k < |run| && run[k].phase != target
    ensures Stretch(run, evs, i, |evs|, target)
  {
    hide Step;
  }

  /** The stretch up to the next pause finishes the sweep under way, if any. */
  lemma FinishedSweep(run: seq<State>, evs: seq<Event>, i: nat, j: nat)
    requires Stretch(run, evs, i, j, Pause) && !KeepInvariant(run[i].phase)
    ensures Swept(run[i], run[j])
  {
    hide Swept, Step, Inv;
    StretchInv(run, evs, i);
    if run[i].phase.Pause? {
      assert i == j;
      SweptNothing(run[i], run[i]);
    } else {
      SweepStretch(run, evs, i, j, Pause, j);
    }
  }

  lemma FirstMove(run: seq<State>, evs: seq<Event>, i: nat, j: nat, target: Phase)
    requires Stretch(run, evs, i, j, target) && run[i].phase != target && !run[i].phase.SwpAllGc?
    ensures i < j && CollectStep(run[i], run[i + 1])
  {
    hide CollectStep, SweepOne;
    assert Step(run[i], evs[i], run[i + 1]);
  }

  lemma Restarts(run: seq<State>, evs: seq<Event>, i: nat, j: nat)
    requires Stretch(run, evs, i, j, Propagate) && run[i].phase.Pause?
    ensures CollectStep(run[i], run[j])
  {
    hide CollectStep, Step;
    FirstMove(run, evs, i, j, Propagate);
    NextPhase(run[i], run[i + 1]);
    assert j == i + 1;
  }

  lemma AtomicThenSweep(run: seq<State>, evs: seq<Event>, i: nat, j: nat)
    requires Stretch(run, evs, i, j, CallFin) && run[i].phase.EnterAtomic?
    ensures i < j && CollectStep(run[i], run[i + 1]) && Swept(run[i + 1], run[j])
  {
    hide CollectStep, Step, Swept;
    FirstMove(run, evs, i, j, CallFin);
    NextPhase(run[i], run[i + 1]);
    SweepStretch(run, evs, i + 1, j, CallFin, j);
  }

  lemma StretchEnds(run: seq<State>, evs: seq<Event>, i: nat, j: nat, target: Phase)
    requires Stretch(run, evs, i, j, target)
    ensures i <= j < |run| && run[j].phase == target
  {
  }

  /** A program and its collector. */
  class Interpreter {
    const gc: Collector
    ghost var run: seq<State>
    ghost var evs: seq<Event>

    ghost predicate Valid()
      reads this, gc
    {
      RunTo(run, evs, gc.Snap(), true)
    }

    constructor ()
      ensures Valid() && fresh(gc) && evs == []
    {
      gc := new Collector();
      new;
      run, evs := [gc.Snap()], [];
    }

    /** What validity means for the program: everything it can reach is there. */
    lemma Safe(o: Id)
      requires Valid() && Accessible(gc.heap, gc.roots, o)
      ensures o in gc.heap && !Dead(gc.Snap(), o)
    {
      NoDanglingReference(run, evs, |evs|, o);
    }

    ghost method Record(ev: Event, s: State)
      requires RunTo(run, evs, s, true) && Step(s, ev, gc.Snap()) && MetatableOk(s, ev)
      modifies this`run, this`evs
      ensures Valid() && evs == old(evs) + [ev] && run == old(run) + [gc.Snap()]
    {
      hide Step, MetatableOk, RunTo;
      var run2, evs2 := Go(run, evs, s, true, ev, gc.Snap());
      run, evs := run2, evs2;
    }

    /** One operation of the program. */
    method Mutate(ev: Event)
      requires Valid() && Enabled(gc.Snap(), ev) && MetatableOk(gc.Snap(), ev) && !ByCollector(ev)
      modifies this`run, this`evs, gc
      ensures Valid() && evs == old(evs) + [ev] && run == old(run) + [gc.Snap()]
    {
      hide RunTo, Inv, MetatableOk;
      ghost var s := gc.Snap();
      RunFacts(run, evs, s);
      Perform(ev);
      hide Step, Enabled;
      Record(ev, s);
    }

    method Perform(ev: Event)
      requires Inv(gc.Snap()) && Enabled(gc.Snap(), ev) && !ByCollector(ev)
      modifies gc
      ensures Step(old(gc.Snap()), ev, gc.Snap())
    {
      hide Inv, ForwardBarrier, Accessible;
      match ev {
        case NewObject(o, cell, at) => Create(gc, o, cell, at);
        case SetStack(th, stack) => gc.heap := gc.heap[th := Thread(stack)];
        case SetRoots(roots) => gc.roots := roots;
        case SetUpvalue(u, v) => AssignUpvalue(gc, u, v);
        case CloseUpvalue(u) => Close(gc, u);
        case InternString(o, th) =>
          InvKeys(gc.Snap());
          if gc.color[o] == White(!gc.white) {
            gc.color := gc.color[o := White(gc.white)];
          }
          gc.heap := gc.heap[th := Thread(gc.heap[th].stack + [Some(o)])];
        case SetRecord(_, _, _) => Assign(gc, ev);
        case SetUserValue(_, _, _) => Assign(gc, ev);
        case SetMetatable(_, _) => Assign(gc, ev);
        case SetEntry(_, _, _, _) => Assign(gc, ev);
        case ClearEntries(_, _, _) => Assign(gc, ev);
      }
    }

    /** 'singlestep', recorded. */
    method CollectorStep()
      requires Valid()
      modifies this`run, this`evs, gc
      ensures Valid() && old(run) <= run && old(evs) <= evs
      ensures Progress(old(gc.Snap()), gc.Snap())
      ensures forall k :: |old(evs)| <= k < |evs| ==> Moving(evs[k]) && k < |run| && run[k].phase == old(gc.phase)
    {
      hide RunTo, Inv, StepReady, CollectStep, SweepOne, Progress;
      ghost var s := gc.Snap();
      RunFacts(run, evs, s);
      InvIsReady(s);
      ghost var swept, states := gc.SingleStep();
      if s.phase.SwpAllGc? && s.ahead != {} {
        SweepsExtend(run, evs, states, swept);
        run, evs := run + states[1..], evs + SweepEvents(swept);
        SweepProgress(s, gc.Snap());
      } else {
        CollectProgress(s, gc.Snap());
        CollectIsStep(s, gc.Snap());
        hide Step, MetatableOk;
        Record(Collect, s);
      }
    }

    /** 'luaC_runtilstate': always gets there. */
    method RunTil(target: Phase)
      requires Valid() && !target.Atomic?
      modifies this`run, this`evs, gc
      ensures Valid() && old(run) <= run && old(evs) <= evs
      ensures Stretch(run, evs, |old(evs)|, |evs|, target)
    {
      hide RunTo, Inv, Progress, Distance, Unmarked, Waiting;
      RunFacts(run, evs, gc.Snap());
      while gc.phase != target
        invariant Valid() && old(run) <= run && old(evs) <= evs && |run| == |evs| + 1 && !gc.phase.Atomic?
        invariant forall k :: |old(evs)| <= k < |evs| ==> Moving(evs[k]) && run[k].phase != target
        decreases Distance(gc.phase, target), Unmarked(gc.Snap()), Waiting(gc.Snap())
      {
        ghost var s := gc.Snap();
        CollectorStep();
        RunFacts(run, evs, gc.Snap());
        Descends(s, gc.Snap(), target);
      }
      RunIsStretch(run, evs, |old(evs)|, target, gc.Snap());
    }

    /** 'fullinc': a full collection leaves exactly the strongly reachable objects. */
    method FullInc()
      requires Valid()
      modifies this`run, this`evs, gc
      ensures Valid() && gc.phase.Pause? && old(run) <= run && old(evs) <= evs
      ensures Collected(old(gc.heap), old(gc.roots), gc.heap) && gc.roots == old(gc.roots)
    {
      hide RunTo, Inv, Collected, Stretch, Swept, CollectStep, Step, MetatableOk;
      ghost var s := gc.Snap();
      RunFacts(run, evs, s);
      SweptNothing(s, s);
      if KeepInvariant(gc.phase) {
        gc.phase, gc.ahead := SwpAllGc, gc.heap.Keys;
        AbandonIsStep(s, gc.Snap());
        Record(AbandonMarks, s);
      }
      ghost var s1 := gc.Snap();
      assert Swept(s, s1) && !KeepInvariant(s1.phase);
      ghost var p, r := StartCycle();
      SweptTransitive(s, s1, p);
      ghost var b := FinishCycle(p, r);
      FullCollection(s, p, b, gc.Snap());
    }

    /** Up to the start of a new cycle: from the state 'p' of the pause to 'r'. */
    method StartCycle() returns (ghost p: State, ghost r: State)
      requires Valid() && !KeepInvariant(gc.phase)
      modifies this`run, this`evs, gc
      ensures Valid() && old(run) <= run && old(evs) <= evs && r == gc.Snap() && r.phase.Propagate?
      ensures Inv(p) && p.phase.Pause? && Swept(old(gc.Snap()), p) && CollectStep(p, r)
    {
      hide RunTo, Inv, Stretch, Swept, CollectStep, Step;
      ghost var s, i := gc.Snap(), |evs|;
      RunFacts(run, evs, s);
      RunTil(Pause);
      ghost var j := |evs|;
      p := gc.Snap();
      RunFacts(run, evs, p);
      StretchEnds(run, evs, i, j, Pause);
      FinishedSweep(run, evs, i, j);
      RunTil(Propagate);
      r := gc.Snap();
      RunFacts(run, evs, r);
      StretchEnds(run, evs, j, |evs|, Propagate);
      Restarts(run, evs, j, |evs|);
    }

    /** Straight to the atomic phase and through the sweep. */
    method FinishCycle(ghost p: State, ghost r: State) returns (ghost b: State)
      requires Valid() && r == gc.Snap() && r.phase.Propagate? && Inv(p) && p.phase.Pause? && CollectStep(p, r)
      modifies this`run, this`evs, gc
      ensures Valid() && old(run) <= run && old(evs) <= evs && gc.phase.Pause? && Inv(gc.Snap())
      ensures Inv(b) && Swept(b, gc.Snap()) && b.roots == p.roots
      ensures forall o :: o in LiveSet(b) <==> StronglyReachable(p.heap, p.roots, o)
      ensures b.heap == ClearWeak(p.heap, {}, LiveSet(b))
    {
      hide RunTo, Inv, Stretch, Swept, CollectStep, Step, MetatableOk, StronglyReachable, ClearWeak;
      gc.phase := EnterAtomic;
      ghost var a := gc.Snap();
      AtomicIsStep(r, a);
      Record(GoAtomic, r);
      ghost var m := |evs|;
      RunFacts(run, evs, a);
      RunTil(CallFin);
      ghost var n, q := |evs|, gc.Snap();
      RunFacts(run, evs, q);
      StretchEnds(run, evs, m, n, CallFin);
      AtomicThenSweep(run, evs, m, n);
      b := run[m + 1];
      NewCycle(p, r, a, b);
      RunTil(Pause);
      RunFacts(run, evs, gc.Snap());
      StretchEnds(run, evs, n, |evs|, Pause);
      FinishedSweep(run, evs, n, |evs|);
      SweptTransitive(b, q, gc.Snap());
    }
  }
}
