/** Whole-run results about the incremental collector. */
module GcTheorems {
  import opened Options
  import opened GcHeap
  import opened GcSteps
  import opened GcSafety

  /** What 'lua_setmetatable' must respect: a table already parked in 'allweak' is not
      visited again in this cycle, and its barrier does not fire on a gray object. */
  predicate MetatableOk(s: State, ev: Event) {
    ev.SetMetatable? && KeepInvariant(s.phase) && ev.o in s.allweak ==>
      RefSet(ev.mt) <= MarkedSet(s)
  }

  lemma UsableIsLive(s: State, ids: set<Id>)
    requires Inv(s) && UsableSet(s, ids)
    ensures ids <= LiveSet(s)
  {
    forall r | r in ids
      ensures r in LiveSet(s)
    {
      AccessibleIsLive(s, r);
    }
  }

  lemma NewObjectKeepsInv(s: State, o: Id, cell: Cell, at: Id, s2: State)
    requires Inv(s) && Step(s, NewObject(o, cell, at), s2)
    ensures Inv(s2)
  {
    hide WellFormed, PhaseInv;
    AccessibleIsLive(s, at);
    UsableIsLive(s, Refs(s.heap[o := cell], o));
    AllocKeepsInv(s, o, cell);
    var n := Allocated(s, o, cell);
    if !cell.OpenUp? {
      if s.heap[at].Thread? {
        PushKeepsInv(n, at, o);
      } else {
        ForwardStoreKeepsInv(n, at, Record(s.heap[at].refs + {o}), Some(o), s2);
      }
    }
  }

  lemma SetStackKeepsInv(s: State, th: Id, stack: seq<Ref>, s2: State)
    requires Inv(s) && Step(s, SetStack(th, stack), s2)
    ensures Inv(s2)
  {
    hide WellFormed, PhaseInv;
    UsableIsLive(s, StackRefs(stack));
    forall i: nat | i < |stack|
      ensures SlotOk(s.heap, LiveSet(s), th, stack, i)
    {
      assert stack[i] in stack;
      assert RefSet(stack[i]) <= StackRefs(stack);
    }
    StackWriteKeepsInv(s, th, stack);
  }

  lemma InternKeepsInv(s: State, o: Id, th: Id, s2: State)
    requires Inv(s) && Step(s, InternString(o, th), s2)
    ensures Inv(s2)
  {
    var r := if Dead(s, o) then s.(color := s.color[o := White(s.white)]) else s;
    if Dead(s, o) {
      assert LiveSet(r) == LiveSet(s) + {o};
      assert Refs(s.heap, o) == {} && Typed(s.heap, o);
      assert Inv(r);
    }
    PushKeepsInv(r, th, o);
  }

  /** Stores with the forward barrier. */
  lemma ForwardKeepsInv(s: State, ev: Event, s2: State)
    requires Inv(s) && Step(s, ev, s2) && MetatableOk(s, ev) && (ev.SetRecord? || ev.SetMetatable?)
    ensures Inv(s2)
  {
    hide WellFormed, PhaseInv;
    AccessibleIsLive(s, ev.o);
    match ev
    case SetRecord(o, refs, v) =>
      UsableIsLive(s, RefSet(v));
      ForwardStoreKeepsInv(s, o, Record(refs), v, s2);
    case SetMetatable(o, mt) =>
      UsableIsLive(s, RefSet(mt));
      ForwardStoreKeepsInv(s, o, s.heap[o].(mt := mt), mt, s2);
  }

  lemma StoreKeepsInv(s: State, ev: Event, s2: State)
    requires Inv(s) && Step(s, ev, s2) && MetatableOk(s, ev)
    requires ev.SetRecord? || ev.SetUserValue? || ev.SetMetatable? || ev.SetEntry? || ev.ClearEntries?
    ensures Inv(s2)
  {
    hide WellFormed, PhaseInv;
    AccessibleIsLive(s, ev.o);
    match ev
    case SetRecord(_, _, _) => ForwardKeepsInv(s, ev, s2);
    case SetMetatable(_, _) => ForwardKeepsInv(s, ev, s2);
    case SetUserValue(o, refs, v) =>
      UsableIsLive(s, RefSet(v));
      BackStoreKeepsInv(s, o, Record(refs), v, None);
    case SetEntry(_, _, _, _) => EntryKeepsInv(s, ev, s2);
    case ClearEntries(_, _, _) => EntryKeepsInv(s, ev, s2);
  }

  /** Stores into tables with the backward barrier; the '__mode' field may change. */
  lemma EntryKeepsInv(s: State, ev: Event, s2: State)
    requires Inv(s) && Step(s, ev, s2) && (ev.SetEntry? || ev.ClearEntries?)
    ensures Inv(s2)
  {
    hide WellFormed, PhaseInv;
    AccessibleIsLive(s, ev.o);
    match ev
    case SetEntry(o, kept, e, says) =>
      UsableIsLive(s, RefSet(e.key) + RefSet(e.val));
      BackStoreKeepsInv(s, o, s.heap[o].(says := says, entries := kept + {e}), e.key, e.val);
    case ClearEntries(o, kept, says) =>
      BackStoreKeepsInv(s, o, s.heap[o].(says := says, entries := kept), None, None);
  }

  lemma UpvalueKeepsInv(s: State, u: Id, v: Ref, s2: State)
    requires Inv(s) && Step(s, SetUpvalue(u, v), s2)
    ensures Inv(s2)
  {
    AccessibleIsLive(s, u);
    UsableIsLive(s, RefSet(v));
    UpStoreKeepsInv(s, u, v, s2);
  }

  lemma PhaseChangeKeepsInv(s: State, p: Phase)
    requires Inv(s)
    requires
      || (s.phase.Propagate? && p.EnterAtomic?)
      || (s.phase.SwpAllGc? && s.ahead == {} && p.SwpFinObj?)
      || ((s.phase.SwpFinObj? || s.phase.SwpToBeFnz? || s.phase.SwpEnd? || s.phase.CallFin?) &&
       (p.SwpToBeFnz? || p.SwpEnd? || p.CallFin? || p.Pause?))
    ensures Inv(s.(phase := p))
  {
    var s2 := s.(phase := p);
    assert LiveSet(s2) == LiveSet(s) && MarkedSet(s2) == MarkedSet(s);
    assert GraySet(s2) == GraySet(s) && BlackSet(s2) == BlackSet(s);
  }

  /** The two jumps of 'fullinc'; sweeping everything turns it white again. */
  lemma PhaseOnlyKeepsInv(s: State, s2: State)
    requires Inv(s)
    requires
      || (KeepInvariant(s.phase) && s2 == s.(phase := SwpAllGc, ahead := s.heap.Keys))
      || (s.phase.Propagate? && s2 == s.(phase := EnterAtomic))
    ensures Inv(s2) && LiveSet(s2) == LiveSet(s)
  {
    assert LiveSet(s2) == LiveSet(s) && MarkedSet(s2) == MarkedSet(s);
    assert GraySet(s2) == GraySet(s) && BlackSet(s2) == BlackSet(s);
  }

  lemma CollectKeepsInv(s: State, s2: State)
    requires Inv(s) && CollectStep(s, s2)
    ensures Inv(s2)
  {
    hide WellFormed, PhaseInv;
    match s.phase
    case Pause => RestartKeepsInv(s, s2);
    case Propagate =>
      if s.gray == {} {
        PhaseChangeKeepsInv(s, EnterAtomic);
      } else {
        var m, o :| Propagated(s, m, s2, o);
        PropagateKeepsInv(s, m, s2, o);
      }
    case EnterAtomic => AtomicKeepsInv(s, s2);
    case _ => PhaseChangeKeepsInv(s, s2.phase);
  }

  /** Every step of the mutator and of the collector keeps the invariant. */
  lemma StepKeepsInv(s: State, ev: Event, s2: State)
    requires Inv(s) && Step(s, ev, s2) && MetatableOk(s, ev)
    ensures Inv(s2)
  {
    match ev
    case NewObject(o, cell, at) => NewObjectKeepsInv(s, o, cell, at, s2);
    case SetStack(th, stack) => SetStackKeepsInv(s, th, stack, s2);
    case SetRoots(roots) =>
      UsableIsLive(s, roots);
      assert LiveSet(s2) == LiveSet(s) && MarkedSet(s2) == MarkedSet(s);
      assert GraySet(s2) == GraySet(s) && BlackSet(s2) == BlackSet(s);
    case SetUpvalue(u, v) => UpvalueKeepsInv(s, u, v, s2);
    case CloseUpvalue(u) => CloseKeepsInv(s, s2, u);
    case InternString(o, th) => InternKeepsInv(s, o, th, s2);
    case Collect => CollectKeepsInv(s, s2);
    case SweepObject(o) => SweepKeepsInv(s, s2, o);
    case AbandonMarks => PhaseOnlyKeepsInv(s, s2);
    case GoAtomic => PhaseOnlyKeepsInv(s, s2);
    case _ => StoreKeepsInv(s, ev, s2);
  }

  // ----- runs -----

  /** A fresh state: the main thread, nothing marked, collector paused. */
  predicate Initial(s: State) {
    && s.heap == map[0 := Thread([])]
    && s.color == map[0 := White(s.white)]
    && s.roots == {0} && s.phase.Pause?
    && s.ahead == {} && s.twups == {}
  }

  lemma InitialInv(s: State)
    requires Initial(s)
    ensures Inv(s)
  {
    assert LiveSet(s) == {0};
    assert Refs(s.heap, 0) == {};
  }

  /** Any interleaving of mutator and collector steps. */
  ghost predicate IsRun(run: seq<State>, evs: seq<Event>) {
    && |run| == |evs| + 1
    && Initial(run[0])
    && forall i :: 0 <= i < |evs| ==> Step(run[i], evs[i], run[i + 1])
  }

  ghost predicate Respectful(run: seq<State>, evs: seq<Event>) {
    |run| == |evs| + 1 && forall i :: 0 <= i < |evs| ==> MetatableOk(run[i], evs[i])
  }

  lemma {:induction false} RunKeepsInv(run: seq<State>, evs: seq<Event>, i: nat)
    requires IsRun(run, evs) && Respectful(run, evs) && i < |run|
    ensures Inv(run[i])
  {
    if i == 0 {
      InitialInv(run[0]);
    } else {
      RunKeepsInv(run, evs, i - 1);
      assert Step(run[i - 1], evs[i - 1], run[i - 1 + 1]);
      StepKeepsInv(run[i - 1], evs[i - 1], run[i]);
    }
  }

  /** A run that ends in 's'. */
  ghost predicate RunTo(run: seq<State>, evs: seq<Event>, s: State, respectful: bool) {
    IsRun(run, evs) && run[|evs|] == s && (Respectful(run, evs) <==> respectful)
  }

  lemma Go(run: seq<State>, evs: seq<Event>, s: State, respectful: bool, ev: Event, s2: State)
    returns (run2: seq<State>, evs2: seq<Event>)
    requires RunTo(run, evs, s, respectful) && Step(s, ev, s2)
    ensures run2 == run + [s2] && evs2 == evs + [ev]
    ensures RunTo(run2, evs2, s2, respectful && MetatableOk(s, ev))
  {
    hide Step, MetatableOk, Initial;
    run2, evs2 := run + [s2], evs + [ev];
    forall i | 0 <= i < |evs2|
      ensures Step(run2[i], evs2[i], run2[i + 1])
    {
      if i < |evs| {
        assert Step(run[i], evs[i], run[i + 1]);
      }
    }
    RespectExtends(run, evs, s2, ev);
  }

  lemma RespectExtends(run: seq<State>, evs: seq<Event>, s2: State, ev: Event)
    requires |run| == |evs| + 1
    ensures Respectful(run + [s2], evs + [ev]) <==> Respectful(run, evs) && MetatableOk(run[|evs|], ev)
  {
    hide MetatableOk;
    var run2, evs2 := run + [s2], evs + [ev];
    if Respectful(run2, evs2) {
      forall i | 0 <= i < |evs|
        ensures MetatableOk(run[i], evs[i])
      {
        assert MetatableOk(run2[i], evs2[i]);
      }
      assert MetatableOk(run2[|evs|], evs2[|evs|]);
    }
  }

  /** Main theorem: whatever Lua code can reach, through strong or weak references, is
      allocated, at every point of every run. */
  lemma NoDanglingReference(run: seq<State>, evs: seq<Event>, i: nat, o: Id)
    requires IsRun(run, evs) && Respectful(run, evs) && i < |run|
    requires Accessible(run[i].heap, run[i].roots, o)
    ensures o in run[i].heap && !Dead(run[i], o)
  {
    RunKeepsInv(run, evs, i);
    AccessibleIsLive(run[i], o);
  }

  // ----- survival -----

  /** What a collector step may do to an object that must survive: free the thread under an
      open upvalue (the value moves into the upvalue), or drop entries of a weak table whose
      weak part is not strongly reachable. */
  ghost predicate Preserved(s: State, s2: State, o: Id) {
    && o in s.heap && o in LiveSet(s2)
    && (|| s2.heap[o] == s.heap[o]
        || (s.heap[o].OpenUp? && s2.heap[o] == ClosedUp(UpContent(s.heap, o)))
        || (WeakTable(s.heap, o) && s2.heap[o].Table?
            && s2.heap[o] == s.heap[o].(entries := s2.heap[o].entries)
            && s2.heap[o].entries <= s.heap[o].entries
            && forall e :: e in s.heap[o].entries && e !in s2.heap[o].entries ==> Droppable(s, o, e)))
  }

  ghost predicate Droppable(s: State, o: Id, e: Entry)
    requires o in s.heap && s.heap[o].Table?
  {
    || (e.val.Some? && !ModeOf(s.heap, o).Ephemeron? && !StronglyReachable(s.heap, s.roots, e.val.value))
    || (e.key.Some? && !ModeOf(s.heap, o).WeakValues? && !StronglyReachable(s.heap, s.roots, e.key.value))
  }

  lemma StrongIsAccessible(s: State, o: Id)
    requires StronglyReachable(s.heap, s.roots, o)
    ensures Accessible(s.heap, s.roots, o)
  {
    hide ModeOf;
    forall c: set<Id> | s.roots <= c && RefClosed(s.heap, c)
      ensures o in c
    {
      assert StrongClosed(s.heap, c);
    }
  }

  /** What is held strongly by a strongly reachable object is strongly reachable. */
  lemma StrongStep(h: Heap, roots: set<Id>, o: Id, x: Id)
    requires o in h && StronglyReachable(h, roots, o) && x in StrongRefs(h, o)
    ensures StronglyReachable(h, roots, x)
  {
    hide StrongRefs;
    forall c: set<Id> | roots <= c && StrongClosed(h, c)
      ensures x in c
    {
      assert o in c && HoldsIn(h, c, o);
    }
  }

  ghost predicate StrongRef(h: Heap, roots: set<Id>, r: Ref) {
    r.Some? ==> StronglyReachable(h, roots, r.value)
  }

  lemma StrongRefIn(h: Heap, roots: set<Id>, r: Ref, c: set<Id>)
    requires StrongRef(h, roots, r) && roots <= c && StrongClosed(h, c)
    ensures RefSet(r) <= c
  {
  }

  lemma StrongEphemeron(h: Heap, roots: set<Id>, o: Id, e: Entry)
    requires o in h && h[o].Table? && ModeOf(h, o).Ephemeron? && StronglyReachable(h, roots, o)
    requires e in h[o].entries && StrongRef(h, roots, e.key)
    ensures StrongRef(h, roots, e.val)
  {
    hide StrongRefs, ModeOf;
    if e.val.Some? {
      forall c: set<Id> | roots <= c && StrongClosed(h, c)
        ensures e.val.value in c
      {
        assert o in c && HoldsIn(h, c, o);
        StrongRefIn(h, roots, e.key, c);
      }
    }
  }

  lemma StrongStringKey(h: Heap, roots: set<Id>, o: Id, e: Entry, k: Id)
    requires o in h && h[o].Table? && ModeOf(h, o).AllWeak? && StronglyReachable(h, roots, o)
    requires e in h[o].entries && StrongRef(h, roots, e.val) && k in Strings(h, RefSet(e.key))
    ensures StronglyReachable(h, roots, k)
  {
    hide StrongRefs, ModeOf, StrongRef;
    forall c: set<Id> | roots <= c && StrongClosed(h, c)
      ensures k in c
    {
      assert o in c && HoldsIn(h, c, o);
      StrongRefIn(h, roots, e.val, c);
    }
  }

  // ----- tables whose weakness was reduced while they were parked -----

  /** What the marking of the atomic phase will reach: it skips the parked tables. */
  ghost predicate Reached(s: State, o: Id) {
    forall c: set<Id> :: MarkedSet(s) + s.roots <= c && ClosedBut(s.heap, s.allweak, c) ==> o in c
  }

  lemma ReachedIsMarked(s: State, s2: State, o: Id)
    requires AtomicDone(s, s2)
    ensures Reached(s, o) <==> o in MarkedSet(s2)
  {
    hide ClosedBut, ClearWeak;
    var c := MarkedSet(s2);
    assert MarkedSet(s) + s.roots <= c;
  }

  /** A table parked as all-weak that is not all-weak any more: its metatable, or the
      '__mode' of its metatable, changed in mid-cycle. */
  predicate Strengthened(s: State, t: Id) {
    t in s.allweak && t in s.heap && s.heap[t].Table? && !ModeOf(s.heap, t).AllWeak?
  }

  /** Marking reaches on other ways what table 't' must keep alive by its present weakness. */
  ghost predicate HeldOtherwise(s: State, t: Id)
    requires t in s.heap && s.heap[t].Table?
  {
    && (forall x :: x in StrongRefs(s.heap, t) ==> Reached(s, x))
    && (ModeOf(s.heap, t).Ephemeron? ==>
          forall e :: e in s.heap[t].entries && e.val.Some? && StrongRef(s.heap, s.roots, e.key) ==>
            Reached(s, e.val.value))
  }

  ghost predicate StrengthenedOk(s: State) {
    forall t :: Strengthened(s, t) && StronglyReachable(s.heap, s.roots, t) ==> HeldOtherwise(s, t)
  }

  ghost function StrongPart(h: Heap, roots: set<Id>, c: set<Id>): set<Id> {
    set x | x in c && StronglyReachable(h, roots, x)
  }

  /** What object 'o' of the marked set 'c' must keep alive is in 'c'. */
  ghost predicate Covers(h: Heap, roots: set<Id>, c: set<Id>, o: Id)
    requires o in h
  {
    && StrongRefs(h, o) <= c
    && (h[o].Table? && ModeOf(h, o).AllWeak? ==> StringKeysClosed(h, c, o))
    && (h[o].Table? && ModeOf(h, o).Ephemeron? ==>
          forall e :: e in h[o].entries && StrongRef(h, roots, e.key) && RefSet(e.key) <= c ==> RefSet(e.val) <= c)
  }

  lemma StrongPartHolds(h: Heap, roots: set<Id>, c: set<Id>, o: Id)
    requires o in h && o in c && StronglyReachable(h, roots, o) && Covers(h, roots, c, o)
    ensures HoldsIn(h, StrongPart(h, roots, c), o)
  {
    hide StronglyReachable, StrongRefs, ModeOf;
    var d := StrongPart(h, roots, c);
    forall x | x in StrongRefs(h, o)
      ensures x in d
    {
      StrongStep(h, roots, o, x);
    }
    if h[o].Table? && ModeOf(h, o).AllWeak? {
      forall e, k | e in h[o].entries && RefSet(e.val) <= d && k in Strings(h, RefSet(e.key))
        ensures k in d
      {
        assert StrongRef(h, roots, e.val) by { assert RefSet(e.val) <= d; }
        StrongStringKey(h, roots, o, e, k);
        assert RefSet(e.val) <= c && Strings(h, RefSet(e.key)) <= c;
      }
    }
    if h[o].Table? && ModeOf(h, o).Ephemeron? {
      forall e | e in h[o].entries && RefSet(e.key) <= d
        ensures RefSet(e.val) <= d
      {
        assert StrongRef(h, roots, e.key) by { assert RefSet(e.key) <= d; }
        StrongEphemeron(h, roots, o, e);
      }
    }
  }

  /** If every strongly reachable object of 'c' is covered, they are all in 'c'. */
  lemma StrongPartAll(h: Heap, roots: set<Id>, c: set<Id>, x: Id)
    requires roots <= c && StronglyReachable(h, roots, x)
    requires forall o :: o in h && o in c && StronglyReachable(h, roots, o) ==> Covers(h, roots, c, o)
    ensures x in c
  {
    hide Covers, HoldsIn;
    var d := StrongPart(h, roots, c);
    forall o | o in d && o in h
      ensures HoldsIn(h, d, o)
    {
      StrongPartHolds(h, roots, c, o);
    }
    assert StrongClosed(h, d);
    RootsStrong(h, roots, c);
  }

  lemma RootsStrong(h: Heap, roots: set<Id>, c: set<Id>)
    requires roots <= c
    ensures roots <= StrongPart(h, roots, c)
  {
    hide StrongClosed;
  }

  /** The marks of the atomic phase cover an object unless it was strengthened while parked. */
  lemma AtomicCovers(s: State, s2: State, o: Id)
    requires Inv(s) && s.phase.EnterAtomic? && AtomicDone(s, s2)
    requires o in s.heap && o in MarkedSet(s2) && StronglyReachable(s.heap, s.roots, o)
    requires Strengthened(s, o) ==> HeldOtherwise(s, o)
    ensures Covers(s.heap, s.roots, MarkedSet(s2), o)
  {
    hide Inv, StronglyReachable, ModeOf, WithinBut, ClearWeak, Reached;
    var h, c := s.heap, MarkedSet(s2);
    if Strengthened(s, o) {
      forall x | x in StrongRefs(h, o)
        ensures x in c
      {
        ReachedIsMarked(s, s2, x);
      }
      forall e | e in h[o].entries && e.val.Some? && ModeOf(h, o).Ephemeron? && StrongRef(h, s.roots, e.key)
        ensures e.val.value in c
      {
        ReachedIsMarked(s, s2, e.val.value);
      }
    } else if o in s.allweak && h[o].Table? {
      assert ParkedIn(h, c, o);
      ParkedMetatable(s, o);
    } else {
      assert HoldsIn(h, c, o);
    }
  }

  /** Exactly what can go wrong: the atomic phase condemns a strongly reachable object if and
      only if it was held by a strengthened table and nothing else that is marked. */
  lemma SurvivalExact(s: State, s2: State)
    requires Inv(s) && s.phase.EnterAtomic? && AtomicDone(s, s2)
    ensures (forall o :: StronglyReachable(s.heap, s.roots, o) ==> o in LiveSet(s2)) <==> StrengthenedOk(s)
  {
    hide Inv, StronglyReachable, AtomicDone, HeldOtherwise, StrongRefs;
    AtomicKeepsInv(s, s2);
    if StrengthenedOk(s) {
      forall o | StronglyReachable(s.heap, s.roots, o)
        ensures o in LiveSet(s2)
      {
        AllCovered(s, s2);
        StrongPartAll(s.heap, s.roots, MarkedSet(s2), o);
      }
    }
    if forall o :: StronglyReachable(s.heap, s.roots, o) ==> o in LiveSet(s2) {
      forall t | Strengthened(s, t) && StronglyReachable(s.heap, s.roots, t)
        ensures HeldOtherwise(s, t)
      {
        SurvivorsHeld(s, s2, t);
      }
    }
  }

  lemma AllCovered(s: State, s2: State)
    requires Inv(s) && s.phase.EnterAtomic? && AtomicDone(s, s2) && StrengthenedOk(s)
    ensures s.roots <= MarkedSet(s2)
    ensures forall o :: o in s.heap && o in MarkedSet(s2) && StronglyReachable(s.heap, s.roots, o) ==>
              Covers(s.heap, s.roots, MarkedSet(s2), o)
  {
    hide Inv, StronglyReachable, HeldOtherwise, Covers, ClosedBut, WithinBut, ClearWeak, Strengthened;
    forall o | o in s.heap && o in MarkedSet(s2) && StronglyReachable(s.heap, s.roots, o)
      ensures Covers(s.heap, s.roots, MarkedSet(s2), o)
    {
      StrengthenedHeld(s, o);
      AtomicCovers(s, s2, o);
    }
  }

  lemma StrengthenedHeld(s: State, o: Id)
    requires StrengthenedOk(s) && StronglyReachable(s.heap, s.roots, o)
    ensures Strengthened(s, o) ==> HeldOtherwise(s, o)
  {
  }

  lemma SurvivorsHeld(s: State, s2: State, t: Id)
    requires AtomicDone(s, s2) && t in s.heap && s.heap[t].Table? && StronglyReachable(s.heap, s.roots, t)
    requires forall o :: StronglyReachable(s.heap, s.roots, o) ==> o in MarkedSet(s2)
    ensures HeldOtherwise(s, t)
  {
    hide StronglyReachable, AtomicDone, Reached, StrongRefs, ModeOf, MarkedSet;
    forall x | x in StrongRefs(s.heap, t)
      ensures Reached(s, x)
    {
      StrongStep(s.heap, s.roots, t, x);
      ReachedIsMarked(s, s2, x);
    }
    if ModeOf(s.heap, t).Ephemeron? {
      forall e | e in s.heap[t].entries && e.val.Some? && StrongRef(s.heap, s.roots, e.key)
        ensures Reached(s, e.val.value)
      {
        StrongEphemeron(s.heap, s.roots, t, e);
        ReachedIsMarked(s, s2, e.val.value);
      }
    }
  }

  /** An entry that goes although its table is strongly reachable may go. */
  lemma DroppedEntry(s: State, c: set<Id>, o: Id, e: Entry)
    requires o in s.heap && s.heap[o].Table? && StronglyReachable(s.heap, s.roots, o)
    requires forall x :: StronglyReachable(s.heap, s.roots, x) ==> x in c
    requires e in s.heap[o].entries && e !in Kept(ClearMode(s.heap, s.allweak, o), s.heap[o].entries, c)
    ensures WeakTable(s.heap, o) && Droppable(s, o, e)
  {
    hide StronglyReachable, ModeOf;
    var h, es := s.heap, s.heap[o].entries;
    if !(RefSet(e.key) <= c) && !ModeOf(h, o).Ephemeron? && !ModeOf(h, o).AllWeak? {
      assert e.key.value in Keys(es);
      StrongStep(h, s.roots, o, e.key.value);
      assert false;
    }
    if !(RefSet(e.val) <= c) && ModeOf(h, o).Strong? {
      assert e.val.value in Vals(es);
      StrongStep(h, s.roots, o, e.val.value);
      assert false;
    }
    if ModeOf(h, o).Ephemeron? && StrongRef(h, s.roots, e.key) {
      StrongEphemeron(h, s.roots, o, e);
    }
  }

  lemma ClearedPreserved(s: State, s2: State, c: set<Id>, o: Id)
    requires s2.heap == ClearWeak(s.heap, s.allweak, c) && o in s.heap && LiveSet(s2) == c
    requires StronglyReachable(s.heap, s.roots, o)
    requires forall x :: StronglyReachable(s.heap, s.roots, x) ==> x in c
    ensures Preserved(s, s2, o)
  {
    hide StronglyReachable, Droppable, ModeOf, ClearMode, WeakTable, LiveSet;
    assert o in c;
    if s.heap[o].Table? {
      forall e | e in s.heap[o].entries && e !in s2.heap[o].entries
        ensures WeakTable(s.heap, o) && Droppable(s, o, e)
      {
        DroppedEntry(s, c, o, e);
      }
      var kept := s2.heap[o].entries;
      assert kept <= s.heap[o].entries;
      if kept == s.heap[o].entries {
        assert s2.heap[o] == s.heap[o];
      } else {
        assert exists e :: e in s.heap[o].entries && e !in kept;
      }
    }
  }

  /** The atomic step keeps everything strongly reachable exactly under 'StrengthenedOk'. */
  lemma AtomicPreservesExactly(s: State, s2: State)
    requires Inv(s) && s.phase.EnterAtomic? && AtomicDone(s, s2)
    ensures (forall o :: StronglyReachable(s.heap, s.roots, o) ==> Preserved(s, s2, o)) <==> StrengthenedOk(s)
  {
    hide Inv, StronglyReachable, AtomicDone, StrengthenedOk, ClearWeak;
    SurvivalExact(s, s2);
    AtomicKeepsInv(s, s2);
    assert s2.heap == ClearWeak(s.heap, s.allweak, MarkedSet(s2)) by { AtomicClears(s, s2); }
    if StrengthenedOk(s) {
      forall o | StronglyReachable(s.heap, s.roots, o)
        ensures Preserved(s, s2, o)
      {
        AccessibleIsLive(s, o) by { StrongIsAccessible(s, o); }
        ClearedPreserved(s, s2, MarkedSet(s2), o);
      }
    }
  }

  lemma AtomicClears(s: State, s2: State)
    requires AtomicDone(s, s2)
    ensures s2.heap == ClearWeak(s.heap, s.allweak, MarkedSet(s2))
  {
  }

  lemma CollectKeepsHeap(s: State, s2: State)
    requires CollectStep(s, s2) && !s.phase.EnterAtomic?
    ensures s2.heap == s.heap && s2.roots == s.roots
  {
  }

  lemma CollectIsAtomic(s: State, s2: State)
    requires CollectStep(s, s2) && s.phase.EnterAtomic?
    ensures AtomicDone(s, s2)
  {
  }

  /** The weak mode of no parked table was reduced in a way that the atomic step will lose. */
  ghost predicate WeakeningOk(s: State, ev: Event) {
    ev.Collect? && s.phase.EnterAtomic? ==> StrengthenedOk(s)
  }

  predicate ByCollector(ev: Event) {
    ev.Collect? || ev.SweepObject? || ev.AbandonMarks? || ev.GoAtomic?
  }

  /** A collector step never condemns or changes what is strongly reachable. */
  lemma CollectorPreserves(s: State, ev: Event, s2: State, o: Id)
    requires Inv(s) && Step(s, ev, s2) && ByCollector(ev) && WeakeningOk(s, ev)
    requires StronglyReachable(s.heap, s.roots, o)
    ensures Preserved(s, s2, o)
  {
    hide Inv, CollectStep, StronglyReachable, StrengthenedOk, SweepOne, Accessible;
    StrongIsAccessible(s, o);
    AccessibleIsLive(s, o);
    if ev.SweepObject? {
      SweepPreserves(s, s2, ev.o, o);
    } else if !ev.Collect? {
      PhaseOnlyKeepsInv(s, s2);
    } else if s.phase.EnterAtomic? {
      CollectIsAtomic(s, s2);
      AtomicPreservesExactly(s, s2);
    } else {
      CollectKeepsHeap(s, s2);
      CollectKeepsInv(s, s2);
      AccessibleIsLive(s2, o);
    }
  }

  lemma SweepPreserves(s: State, s2: State, x: Id, o: Id)
    requires Inv(s) && s.phase.SwpAllGc? && SweepOne(s, s2, x) && o in LiveSet(s)
    ensures Preserved(s, s2, o)
  {
    SweepKeepsInv(s, s2, x);
  }

  /** The same over every run. */
  lemma RunPreserves(run: seq<State>, evs: seq<Event>, i: nat, o: Id)
    requires IsRun(run, evs) && Respectful(run, evs) && i < |evs|
    requires ByCollector(evs[i]) && WeakeningOk(run[i], evs[i])
    requires StronglyReachable(run[i].heap, run[i].roots, o)
    ensures Preserved(run[i], run[i + 1], o)
  {
    RunKeepsInv(run, evs, i);
    assert Step(run[i], evs[i], run[i + 1]);
    CollectorPreserves(run[i], evs[i], run[i + 1], o);
  }

  // ----- exactness -----

  ghost function ReachedSet(s: State): set<Id> {
    set x | x in s.color && Reached(s, x)
  }

  /** The heap that the atomic step will leave. */
  ghost function HeapToBe(s: State): Heap {
    ClearWeak(s.heap, s.allweak, ReachedSet(s))
  }

  /** Every parked table that the program will still get hold of has a metatable that marking
      reaches; a condition on the state before the atomic step. */
  ghost predicate ParkedMetatablesReached(s: State) {
    forall t, x :: ParkedWith(s, t, x) && Accessible(HeapToBe(s), s.roots, t) ==> Reached(s, x)
  }

  /** Table 't' is parked and has metatable 'x'. */
  predicate ParkedWith(s: State, t: Id, x: Id) {
    t in s.allweak && t in s.heap && s.heap[t].Table? && s.heap[t].mt == Some(x)
  }

  lemma HeapToBeIs(s: State, s2: State)
    requires AtomicDone(s, s2)
    ensures ReachedSet(s) == MarkedSet(s2) && HeapToBe(s) == s2.heap && s2.roots == s.roots
  {
    hide ClosedBut, WithinBut, ClearWeak, Reached;
    forall x
      ensures x in ReachedSet(s) <==> x in MarkedSet(s2)
    {
      ReachedIsMarked(s, s2, x);
    }
    assert ReachedSet(s) == MarkedSet(s2);
  }

  /** Exactly when the atomic step condemns nothing that the program can still get hold of. */
  lemma NothingAccessibleDies(s: State, s2: State)
    requires s.color.Keys == s.heap.Keys && AtomicDone(s, s2)
    ensures (forall o :: Accessible(s2.heap, s2.roots, o) ==> o in LiveSet(s2)) <==> ParkedMetatablesReached(s)
  {
    hide Accessible, Reached, HeapToBe, ReachedSet, LiveSet, MarkedSet;
    HeapToBeIs(s, s2);
    AccessibleExact(s, s2);
    SameMetatables(s, s2);
    hide AtomicDone;
    forall t, x | ParkedWith(s, t, x)
      ensures Reached(s, x) <==> RefSet(s2.heap[t].mt) <= MarkedSet(s2)
    {
      ReachedIsMarked(s, s2, x);
    }
    if ParkedMetatablesReached(s) {
      forall t | t in s.allweak && t in s2.heap && s2.heap[t].Table? && Accessible(s2.heap, s2.roots, t)
        ensures RefSet(s2.heap[t].mt) <= MarkedSet(s2)
      {
        assert s.heap[t].mt.Some? ==> ParkedWith(s, t, s.heap[t].mt.value);
      }
    }
  }

  lemma SameMetatables(s: State, s2: State)
    requires AtomicDone(s, s2)
    ensures s2.heap.Keys == s.heap.Keys
    ensures forall t :: t in s.heap ==> (s2.heap[t].Table? <==> s.heap[t].Table?) && (s.heap[t].Table? ==> s2.heap[t].mt == s.heap[t].mt)
  {
    hide ClosedBut, WithinBut, Kept, ClearMode;
  }

  /** The same in terms of the state after the step. */
  lemma AccessibleExact(s: State, s2: State)
    requires s.color.Keys == s.heap.Keys && AtomicDone(s, s2)
    ensures
      (forall o :: Accessible(s2.heap, s2.roots, o) ==> o in LiveSet(s2)) <==>
      (forall t :: t in s.allweak && t in s2.heap && s2.heap[t].Table? && Accessible(s2.heap, s2.roots, t) ==>
         RefSet(s2.heap[t].mt) <= MarkedSet(s2))
  {
    hide Accessible, AtomicDone, MarkedSet, Refs;
    LiveIsMarked(s, s2);
    forall t | t in s.allweak && t in s2.heap && s2.heap[t].Table? && Accessible(s2.heap, s2.roots, t)
      ensures (forall o :: Accessible(s2.heap, s2.roots, o) ==> o in LiveSet(s2)) ==> RefSet(s2.heap[t].mt) <= MarkedSet(s2)
    {
      MetatableAccessible(s2.heap, s2.roots, t);
    }
    if forall t :: t in s.allweak && t in s2.heap && s2.heap[t].Table? && Accessible(s2.heap, s2.roots, t) ==>
         RefSet(s2.heap[t].mt) <= MarkedSet(s2)
    {
      forall o | Accessible(s2.heap, s2.roots, o)
        ensures o in LiveSet(s2)
      {
        AccessibleMarked(s, s2, o);
      }
    }
  }

  lemma LiveIsMarked(s: State, s2: State)
    requires s.color.Keys == s.heap.Keys && AtomicDone(s, s2)
    ensures LiveSet(s2) == MarkedSet(s2) && s2.heap.Keys == s.heap.Keys && s2.roots == s.roots <= MarkedSet(s2)
  {
    hide ClosedBut, WithinBut, ClearWeak;
    ClearedKeys(s.heap, s.allweak, MarkedSet(s2));
  }

  lemma AccessibleStep(h: Heap, roots: set<Id>, o: Id, x: Id)
    requires o in h && Accessible(h, roots, o) && x in Refs(h, o)
    ensures Accessible(h, roots, x)
  {
    hide Refs;
  }

  lemma MetatableAccessible(h: Heap, roots: set<Id>, t: Id)
    requires t in h && h[t].Table? && Accessible(h, roots, t)
    ensures forall x :: x in RefSet(h[t].mt) ==> Accessible(h, roots, x)
  {
    hide Accessible;
    forall x | x in RefSet(h[t].mt)
      ensures Accessible(h, roots, x)
    {
      AccessibleStep(h, roots, t, x);
    }
  }

  lemma AccessibleMarked(s: State, s2: State, o: Id)
    requires s.color.Keys == s.heap.Keys && AtomicDone(s, s2) && Accessible(s2.heap, s2.roots, o)
    requires forall t :: t in s.allweak && t in s2.heap && s2.heap[t].Table? && Accessible(s2.heap, s2.roots, t) ==>
               RefSet(s2.heap[t].mt) <= MarkedSet(s2)
    ensures o in MarkedSet(s2)
  {
    hide AtomicDone, Refs, MarkedSet, LiveSet;
    LiveIsMarked(s, s2);
    var c := MarkedSet(s2);
    var a := AccessiblePart(s2.heap, s2.roots, c);
    forall x | x in a && x in s2.heap
      ensures Refs(s2.heap, x) <= a
    {
      ClearedStaysIn(s, s2, x);
      forall y | y in Refs(s2.heap, x)
        ensures y in a
      {
        AccessibleStep(s2.heap, s2.roots, x, y);
      }
    }
    assert RefClosed(s2.heap, a);
    assert s2.roots <= a;
  }

  ghost function AccessiblePart(h: Heap, roots: set<Id>, c: set<Id>): set<Id> {
    set x | x in c && Accessible(h, roots, x)
  }

  lemma ClearedStaysIn(s: State, s2: State, x: Id)
    requires AtomicDone(s, s2) && x in s2.heap && x in MarkedSet(s2)
    requires x in s.allweak && s2.heap[x].Table? ==> RefSet(s2.heap[x].mt) <= MarkedSet(s2)
    ensures Refs(s2.heap, x) <= MarkedSet(s2)
  {
    hide ClosedBut, WithinBut, Refs, MarkedSet, Kept;
    ClearedRefs(s.heap, s.allweak, MarkedSet(s2), x);
  }

  /** A collection with no mutator step in between, from a pause up to the sweep. */
  ghost predicate FullCycle(run: seq<State>) {
    && |run| >= 2
    && run[0].phase.Pause?
    && (forall i :: 0 <= i < |run| - 1 ==> CollectStep(run[i], run[i + 1]))
    && (forall i :: 0 < i < |run| - 1 ==> KeepInvariant(run[i].phase))
    && run[|run| - 1].phase.SwpAllGc?
  }

  lemma WithinStep(h: Heap, roots: set<Id>, m: set<Id>, m2: set<Id>)
    requires Within(h, roots, m) && Within(h, m, m2)
    ensures Within(h, roots, m2)
  {
    forall c: set<Id> | roots <= c && StrongClosed(h, c)
      ensures m2 <= c
    {
      assert m <= c;
    }
  }

  /** Without mutator steps the parked tables stay all-weak. */
  ghost predicate NoneStrengthened(s: State) {
    forall t :: t in s.allweak && t in s.heap && s.heap[t].Table? ==> ModeOf(s.heap, t).AllWeak?
  }

  lemma RestartMarks(s: State, s2: State)
    requires Inv(s) && s.phase.Pause? && CollectStep(s, s2)
    ensures s2.heap == s.heap && s2.roots == s.roots && Within(s.heap, s.roots, MarkedSet(s2))
    ensures NoneStrengthened(s2)
  {
    assert MarkedSet(s) == {};
    assert Fresh(s, s2) == MarkedSet(s2);
  }

  lemma PropagateMarksOnlyReachable(s: State, s2: State)
    requires Inv(s) && s.phase.Propagate? && CollectStep(s, s2)
    ensures s2.heap == s.heap && s2.roots == s.roots && Within(s.heap, MarkedSet(s), MarkedSet(s2))
    ensures NoneStrengthened(s) ==> NoneStrengthened(s2)
  {
    hide WellFormed, NoBlackToWhite, AllWeakOk, ModeOf;
    if s.gray == {} {
      assert MarkedSet(s2) == MarkedSet(s);
    } else {
      var m, o :| Propagated(s, m, s2, o);
      PropagatedMarks(s, m, s2, o);
      PropagatedParks(s, m, s2, o);
    }
  }

  lemma PropagatedMarks(s: State, m: State, s2: State, o: Id)
    requires Inv(s) && s.phase.Propagate? && Propagated(s, m, s2, o)
    ensures s2.heap == s.heap && s2.roots == s.roots && Within(s.heap, MarkedSet(s), MarkedSet(s2))
  {
    hide WellFormed, NoBlackToWhite, AllWeakOk, Within, Traversed;
    PropagateMarks(s, m, o);
    assert MarkedSet(s2) == MarkedSet(m);
  }

  lemma PropagatedParks(s: State, m: State, s2: State, o: Id)
    requires Propagated(s, m, s2, o)
    ensures NoneStrengthened(s) ==> NoneStrengthened(s2)
  {
    hide Within, Traversed, ModeOf;
  }

  lemma {:induction false} CycleMarksOnlyReachable(run: seq<State>, i: nat)
    requires FullCycle(run) && Inv(run[0]) && 0 < i < |run| - 1
    ensures Inv(run[i]) && run[i].heap == run[0].heap && run[i].roots == run[0].roots
    ensures Within(run[0].heap, run[0].roots, MarkedSet(run[i])) && NoneStrengthened(run[i])
  {
    hide Inv, Within, Restarted, Propagated, AtomicDone, NoneStrengthened;
    var s, s2 := run[i - 1], run[i];
    assert CollectStep(run[i - 1], run[i - 1 + 1]);
    if i > 1 {
      CycleMarksOnlyReachable(run, i - 1);
      NextPhase(s, s2);
      PropagateMarksOnlyReachable(s, s2);
      WithinStep(s.heap, s.roots, MarkedSet(s), MarkedSet(s2));
    } else {
      RestartMarks(s, s2);
    }
    CollectKeepsInv(s, s2);
  }

  lemma NextPhase(s: State, s2: State)
    requires CollectStep(s, s2)
    ensures s.phase.Pause? ==> s2.phase.Propagate?
    ensures s.phase.Propagate? ==> KeepInvariant(s2.phase)
    ensures s.phase.EnterAtomic? ==> s2.phase.SwpAllGc?
  {
  }

  lemma AtomicExact(s: State, s2: State, roots: set<Id>, o: Id)
    requires Inv(s) && s.phase.EnterAtomic? && AtomicDone(s, s2) && roots == s.roots
    requires Within(s.heap, roots, MarkedSet(s)) && NoneStrengthened(s)
    ensures o in LiveSet(s2) <==> StronglyReachable(s.heap, roots, o)
  {
    hide Inv, ClosedBut, ClearWeak, ModeOf;
    AtomicKeepsInv(s, s2);
    SurvivalExact(s, s2);
    var h, c := s.heap, MarkedSet(s2);
    forall d: set<Id> | roots <= d && StrongClosed(h, d)
      ensures c <= d
    {
      assert MarkedSet(s) <= d;
      StrongClosedIsClosedBut(s, d);
    }
  }

  lemma StrongClosedIsClosedBut(s: State, c: set<Id>)
    requires StrongClosed(s.heap, c) && NoneStrengthened(s)
    ensures ClosedBut(s.heap, s.allweak, c)
  {
    hide ModeOf, Refs;
    forall o | o in c && o in s.heap
      ensures HoldsIn(s.heap, c, o)
      ensures o in s.allweak && s.heap[o].Table? ==> ParkedIn(s.heap, c, o)
    {
    }
  }

  /** An uninterrupted cycle condemns exactly the objects that are not strongly reachable. */
  lemma FullCycleExact(run: seq<State>, o: Id)
    requires FullCycle(run) && Inv(run[0]) && o in run[0].heap
    ensures Dead(run[|run| - 1], o) <==> !StronglyReachable(run[0].heap, run[0].roots, o)
  {
    hide Inv, Within, Restarted, Propagated, StronglyReachable, NoneStrengthened;
    var s, s2 := run[|run| - 2], run[|run| - 1];
    assert CollectStep(run[|run| - 2], run[|run| - 2 + 1]);
    NextPhase(s, s2);
    CycleMarksOnlyReachable(run, |run| - 2);
    AtomicExact(s, s2, s.roots, o);
    assert s2.heap.Keys == s.heap.Keys by { ClearedKeys(s.heap, s.allweak, MarkedSet(s2)); }
  }
}
