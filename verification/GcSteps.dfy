/** One step of the mutator or of the collector, and the invariant every step keeps. */
module GcSteps {
  import opened Options
  import opened GcHeap

  // ----- marking -----

  /** How 'reallymarkobject' leaves an object it has just marked. */
  ghost predicate FreshMark(h: Heap, s2: State, x: Id)
    requires x in h && x in s2.color
  {
    match h[x]
    case Str => s2.color[x].Black?
    case OpenUp(_, _) => s2.color[x].Gray? && Refs(h, x) <= MarkedSet(s2)
    case ClosedUp(_) => s2.color[x].Black? && Refs(h, x) <= MarkedSet(s2)
    case PlainUdata(_) => s2.color[x].Black? && Refs(h, x) <= MarkedSet(s2)
    case _ => s2.color[x].Gray?
  }

  function Fresh(s: State, s2: State): set<Id> {
    MarkedSet(s2) - MarkedSet(s)
  }

  function LinkableOf(h: Heap, ids: set<Id>): set<Id> {
    set x | x in ids && x in h && Linkable(h[x])
  }

  /** 's2' is 's' after some objects have been marked. */
  ghost predicate Marks(s: State, s2: State) {
    && s2 == s.(color := s2.color, gray := s2.gray)
    && s2.color.Keys == s.color.Keys
    && (forall x :: x in s.color && (Marked(s, x) || !Marked(s2, x)) ==> s2.color[x] == s.color[x])
    && (forall x :: x in Fresh(s, s2) && x in s.heap ==> FreshMark(s.heap, s2, x))
    && s2.gray == s.gray + LinkableOf(s.heap, Fresh(s, s2))
  }

  lemma MarksGrow(s: State, s2: State)
    requires Marks(s, s2)
    ensures MarkedSet(s) <= MarkedSet(s2)
    ensures BlackSet(s) <= BlackSet(s2) <= BlackSet(s) + Fresh(s, s2)
    ensures GraySet(s) <= GraySet(s2) <= GraySet(s) + Fresh(s, s2)
    ensures s2 == s.(color := s2.color, gray := s2.gray) && s2.color.Keys == s.color.Keys
    ensures LiveSet(s) <= LiveSet(s2)
  {
  }

  lemma MarksTransitive(s: State, s1: State, s2: State)
    requires Marks(s, s1) && Marks(s1, s2)
    ensures Marks(s, s2)
  {
    MarksGrow(s, s1);
    MarksGrow(s1, s2);
    assert Fresh(s, s2) == Fresh(s, s1) + Fresh(s1, s2);
    forall x | x in Fresh(s, s2) && x in s.heap
      ensures FreshMark(s.heap, s2, x)
    {
      if x in Fresh(s, s1) {
        assert FreshMark(s.heap, s1, x);
      }
    }
  }

  lemma MarksKeepsBlack(s: State, s2: State)
    requires NoBlackToWhite(s.heap, BlackSet(s), MarkedSet(s))
    requires Marks(s, s2)
    ensures NoBlackToWhite(s.heap, BlackSet(s2), MarkedSet(s2))
  {
    MarksGrow(s, s2);
    forall o | o in BlackSet(s2) && o in s.heap
      ensures !s.heap[o].OpenUp? && !s.heap[o].Thread?
      ensures Refs(s.heap, o) <= MarkedSet(s2)
    {
      if o in BlackSet(s) {
        assert Refs(s.heap, o) <= MarkedSet(s);
      } else {
        assert FreshMark(s.heap, s2, o);
      }
    }
  }

  lemma MarksKeepsLists(s: State, s2: State)
    requires GrayListsOk(s.heap, GraySet(s), s.gray, s.again, s.allweak)
    requires Marks(s, s2)
    ensures GrayListsOk(s.heap, GraySet(s2), s2.gray, s2.again, s2.allweak)
  {
    MarksGrow(s, s2);
    forall o | o in GraySet(s2) && o in s.heap
      ensures if o in s2.gray || o in s2.again || o in s2.allweak
              then Linkable(s.heap[o]) else s.heap[o].OpenUp?
    {
      if o in Fresh(s, s2) {
        assert FreshMark(s.heap, s2, o);
      }
    }
    forall o | o in s2.gray
      ensures o in GraySet(s2) && o !in s2.again && o !in s2.allweak
    {
      if o !in s.gray {
        assert FreshMark(s.heap, s2, o);
      }
    }
  }

  /** Marking keeps the invariant, and only ever makes objects live. */
  lemma MarksKeepsInv(s: State, s2: State)
    requires Inv(s) && KeepInvariant(s.phase)
    requires Marks(s, s2)
    ensures Inv(s2) && LiveSet(s2) == LiveSet(s)
  {
    MarksGrow(s, s2);
    assert LiveSet(s2) == LiveSet(s);
    MarksKeepsBlack(s, s2);
    MarksKeepsLists(s, s2);
  }

  // ----- barriers -----

  /** 'luaC_barrier' / 'luaC_objbarrier': runs after 'v' was stored in 'o'. */
  ghost predicate ForwardBarrier(s: State, s2: State, o: Id, v: Ref) {
    if v.Some? && IsBlack(s, o) && IsWhite(s, v.value) then
      if KeepInvariant(s.phase) then
        Marks(s, s2) && Marked(s2, v.value) && Within(s.heap, {v.value}, Fresh(s, s2))
      else s2 == s.(color := s.color[o := White(s.white)])
    else s2 == s
  }

  /** 'luaC_barrierback'. */
  function BackBarrier(s: State, o: Id, v: Ref): State {
    if v.Some? && IsBlack(s, o) && IsWhite(s, v.value)
    then s.(color := s.color[o := Gray], again := s.again + {o})
    else s
  }

  // ----- steps -----

  datatype Event =
    | NewObject(o: Id, cell: Cell, at: Id)              // 'luaC_newobj', anchored in 'at'
    | SetStack(th: Id, stack: seq<Ref>)
    | SetRoots(roots: set<Id>)
    | SetRecord(o: Id, refs: set<Id>, v: Ref)           // closure or prototype slot
    | SetUserValue(o: Id, refs: set<Id>, v: Ref)        // 'lua_setiuservalue'
    | SetMetatable(o: Id, mt: Ref)
    | SetEntry(o: Id, kept: set<Entry>, e: Entry, says: Mode)   // any field, '__mode' included
    | ClearEntries(o: Id, kept: set<Entry>, says: Mode)
    | SetUpvalue(u: Id, v: Ref)
    | CloseUpvalue(u: Id)
    | InternString(o: Id, th: Id)                       // found in the string table
    | Collect                                           // one 'singlestep'
    | SweepObject(o: Id)                                // one iteration of 'sweeplist'
    | AbandonMarks                                      // 'fullinc' in a marking phase: 'entersweep'
    | GoAtomic                                          // 'fullinc' skips the propagate phase

  ghost predicate Usable(s: State, v: Ref) {
    v.Some? ==> Accessible(s.heap, s.roots, v.value)
  }

  ghost predicate UsableSet(s: State, ids: set<Id>) {
    forall r :: r in ids ==> Accessible(s.heap, s.roots, r)
  }

  /** What the mutator may do: it only handles objects it can get hold of. */
  ghost predicate Enabled(s: State, ev: Event) {
    match ev
    case NewObject(o, cell, at) =>
      var h := s.heap[o := cell];
      && o !in s.heap
      && Accessible(s.heap, s.roots, at) && at in s.heap
      && UsableSet(s, Refs(h, o))
      && Typed(h, o)
      && if cell.OpenUp? then
           cell.thread == at && s.heap[at].Thread? && cell.slot < |s.heap[at].stack|
         else
           s.heap[at].Record? || (s.heap[at].Thread? && !cell.ClosedUp?)
    case SetStack(th, stack) =>
      && Accessible(s.heap, s.roots, th) && th in s.heap && s.heap[th].Thread?
      && UsableSet(s, StackRefs(stack))
      && (forall v :: v in stack ==> IsValue(s.heap, v))
      && (forall u :: OpenOn(s.heap, u, th) ==> s.heap[u].slot < |stack|)
    case SetRoots(roots) => UsableSet(s, roots)
    case SetRecord(o, refs, v) =>
      && Accessible(s.heap, s.roots, o) && o in s.heap && s.heap[o].Record?
      && Usable(s, v) && refs <= s.heap[o].refs + RefSet(v)
    case SetUserValue(o, refs, v) =>
      && Accessible(s.heap, s.roots, o) && o in s.heap && s.heap[o].Record?
      && Usable(s, v) && refs <= s.heap[o].refs + RefSet(v)
    case SetMetatable(o, mt) =>
      && Accessible(s.heap, s.roots, o) && o in s.heap
      && (s.heap[o].Table? || s.heap[o].PlainUdata?)
      && Usable(s, mt) && (mt.Some? && mt.value in s.heap ==> s.heap[mt.value].Table?)
    case SetEntry(o, kept, e, _) =>
      && Accessible(s.heap, s.roots, o) && o in s.heap && s.heap[o].Table?
      && kept <= s.heap[o].entries
      && Usable(s, e.key) && Usable(s, e.val)
    case ClearEntries(o, kept, _) =>
      && Accessible(s.heap, s.roots, o) && o in s.heap && s.heap[o].Table?
      && kept <= s.heap[o].entries
    case SetUpvalue(u, v) =>
      && Accessible(s.heap, s.roots, u) && u in s.heap
      && (s.heap[u].OpenUp? || s.heap[u].ClosedUp?)
      && Usable(s, v) && IsValue(s.heap, v)
    case CloseUpvalue(u) =>
      u in s.heap && s.heap[u].OpenUp? && Accessible(s.heap, s.roots, s.heap[u].thread)
    case InternString(o, th) =>
      && o in s.heap && s.heap[o].Str?
      && Accessible(s.heap, s.roots, th) && th in s.heap && s.heap[th].Thread?
    case Collect => s.phase.SwpAllGc? ==> s.ahead == {}
    case SweepObject(o) => s.phase.SwpAllGc? && o in s.ahead
    case AbandonMarks => KeepInvariant(s.phase)
    case GoAtomic => s.phase.Propagate?
  }

  function WithCell(s: State, o: Id, c: Cell): State {
    s.(heap := s.heap[o := c])
  }

  function Allocated(s: State, o: Id, cell: Cell): State {
    s.(heap := s.heap[o := cell], color := s.color[o := White(s.white)],
       twups := if cell.OpenUp? then s.twups + {cell.thread} else s.twups)
  }

  function Pushed(s: State, th: Id, o: Id): State
    requires th in s.heap && s.heap[th].Thread?
  {
    WithCell(s, th, Thread(s.heap[th].stack + [Some(o)]))
  }

  /** The heap after a store through upvalue 'u'. */
  function UpStored(h: Heap, u: Id, v: Ref): Heap
    requires u in h && (h[u].OpenUp? || h[u].ClosedUp?)
  {
    match h[u]
    case ClosedUp(_) => h[u := ClosedUp(v)]
    case OpenUp(th, i) =>
      if th in h && h[th].Thread? && i < |h[th].stack|
      then h[th := Thread(h[th].stack[i := v])] else h
  }

  /** 'luaF_closeupval' for one upvalue: copy the value, blacken, barrier. */
  ghost predicate Closes(s: State, s2: State, u: Id)
    requires u in s.heap && s.heap[u].OpenUp?
  {
    var v := UpContent(s.heap, u);
    var w := WithCell(s, u, ClosedUp(v));
    if u in s.color && s.color[u].White? then s2 == w
    else ForwardBarrier(w.(color := w.color[u := Black]), s2, u, v)
  }

  ghost predicate Step(s: State, ev: Event, s2: State) {
    Enabled(s, ev) &&
    match ev
    case NewObject(o, cell, at) =>
      var n := Allocated(s, o, cell);
      if cell.OpenUp? then s2 == n
      else if s.heap[at].Thread? then s2 == Pushed(n, at, o)
      else ForwardBarrier(WithCell(n, at, Record(s.heap[at].refs + {o})), s2, at, Some(o))
    case SetStack(th, stack) => s2 == WithCell(s, th, Thread(stack))
    case SetRoots(roots) => s2 == s.(roots := roots)
    case SetRecord(o, refs, v) => ForwardBarrier(WithCell(s, o, Record(refs)), s2, o, v)
    case SetUserValue(o, refs, v) => s2 == BackBarrier(WithCell(s, o, Record(refs)), o, v)
    case SetMetatable(o, mt) => ForwardBarrier(WithCell(s, o, s.heap[o].(mt := mt)), s2, o, mt)
    case SetEntry(o, kept, e, says) =>
      var w := WithCell(s, o, s.heap[o].(says := says, entries := kept + {e}));
      s2 == BackBarrier(BackBarrier(w, o, e.key), o, e.val)
    case ClearEntries(o, kept, says) =>
      s2 == WithCell(s, o, s.heap[o].(says := says, entries := kept))
    case SetUpvalue(u, v) => ForwardBarrier(s.(heap := UpStored(s.heap, u, v)), s2, u, v)
    case CloseUpvalue(u) => Closes(s, s2, u)
    case InternString(o, th) =>
      s2 == Pushed(if Dead(s, o) then s.(color := s.color[o := White(s.white)]) else s, th, o)
    case Collect => CollectStep(s, s2)
    case SweepObject(o) => SweepOne(s, s2, o)
    case AbandonMarks => s2 == s.(phase := SwpAllGc, ahead := s.heap.Keys)
    case GoAtomic => s2 == s.(phase := EnterAtomic)
  }

  // ----- collector steps -----

  function NoGrayLists(s: State): State {
    s.(gray := {}, again := {}, weak := {}, ephemeron := {}, allweak := {})
  }

  /** 'restartcollection'. */
  ghost predicate Restarted(s: State, s2: State) {
    && Marks(NoGrayLists(s).(phase := Propagate), s2)
    && s.roots <= MarkedSet(s2)
    && Within(s.heap, s.roots, Fresh(s, s2))
  }

  /** What one traversal of 'o' has to mark: an ephemeron's values follow the keys
      that were marked before the traversal. */
  ghost predicate Traversed(h: Heap, before: set<Id>, marked: set<Id>, o: Id)
    requires o in h && Linkable(h[o])
  {
    match h[o]
    case Table(_, mt, es) =>
      (match ModeOf(h, o)
       case Strong => Refs(h, o) <= marked
       case WeakValues => RefSet(mt) + Keys(es) <= marked
       case Ephemeron =>
         && RefSet(mt) + Strings(h, Keys(es)) <= marked
         && forall e :: e in es && RefSet(e.key) <= before ==> RefSet(e.val) <= marked
       case AllWeak => RefSet(mt) <= marked)
    case _ => Refs(h, o) <= marked
  }

  /** Where 'propagatemark' leaves 'o' in the propagate phase. */
  function Linked(s: State, o: Id): State
    requires o in s.heap
  {
    match s.heap[o]
    case Thread(_) => s.(color := s.color[o := Gray], again := s.again + {o})
    case Table(_, _, _) =>
      var mode := ModeOf(s.heap, o);
      if mode.AllWeak? then s.(color := s.color[o := Gray], allweak := s.allweak + {o})
      else if mode.Strong? then s
      else s.(color := s.color[o := Gray], again := s.again + {o})
    case _ => s
  }

  ghost predicate Propagated(s: State, m: State, s2: State, o: Id) {
    && o in s.gray && o in s.heap && Linkable(s.heap[o])
    && Marks(s.(color := s.color[o := Black], gray := s.gray - {o}), m)
    && Traversed(s.heap, MarkedSet(s), MarkedSet(m), o)
    && Within(s.heap, MarkedSet(s), MarkedSet(m))
    && s2 == Linked(m, o)
  }

  /** Weak entries whose weak part is not in 'c' are dropped. */
  function Kept(mode: Mode, es: set<Entry>, c: set<Id>): set<Entry> {
    match mode
    case Strong => es
    case WeakValues => set e | e in es && RefSet(e.val) <= c
    case Ephemeron => set e | e in es && RefSet(e.key) <= c
    case AllWeak => set e | e in es && RefSet(e.key) <= c && RefSet(e.val) <= c
  }

  /** How 'atomic' clears table 'o': a table already parked in 'allweak' is cleared by both
      parts, whatever its weakness is by now. */
  function ClearMode(h: Heap, parked: set<Id>, o: Id): Mode
    requires o in h && h[o].Table?
  {
    if o in parked then AllWeak else ModeOf(h, o)
  }

  function ClearWeak(h: Heap, parked: set<Id>, c: set<Id>): Heap {
    map o | o in h ::
      if o in c && h[o].Table? then h[o].(entries := Kept(ClearMode(h, parked, o), h[o].entries, c)) else h[o]
  }

  /** 'atomic': the marks grow to the least set closed under traversal (tables already in
      'allweak' are not traversed again), weak entries are cleared, whites flip. */
  ghost predicate AtomicDone(s: State, s2: State) {
    var c := MarkedSet(s2);
    && s2.color.Keys == s.color.Keys
    && MarkedSet(s) <= c && s.roots <= c
    && ClosedBut(s.heap, s.allweak, c)
    && WithinBut(s.heap, s.allweak, MarkedSet(s) + s.roots, c)
    && (forall o :: o in s2.color && o !in c ==> s2.color[o] == White(s.white))
    && s2.heap == ClearWeak(s.heap, s.allweak, c)
    && s2.white == !s.white
    && s2.roots == s.roots
    && s2.phase == SwpAllGc && s2.ahead == s.heap.Keys
    && (forall u :: u in s.heap && s.heap[u].OpenUp? && s.heap[u].thread in c
          ==> s.heap[u].thread in s2.twups)
    && s2.twups <= c
  }

  ghost predicate CollectStep(s: State, s2: State) {
    match s.phase
    case Pause => Restarted(s, s2)
    case Propagate =>
      if s.gray == {} then s2 == s.(phase := EnterAtomic)
      else exists m, o :: Propagated(s, m, s2, o)
    case EnterAtomic => AtomicDone(s, s2)
    case Atomic => false  // left before 'singlestep' returns
    case SwpAllGc => s.ahead == {} && s2 == s.(phase := SwpFinObj)
    case SwpFinObj => s2 == s.(phase := SwpToBeFnz)
    case SwpToBeFnz => s2 == s.(phase := SwpEnd)
    case SwpEnd => s2 == s.(phase := CallFin)
    case CallFin => s2 == s.(phase := Pause)
  }

  /** Freeing a thread closes the upvalues still open on it ('luaE_freethread'). */
  function Freed(h: Heap, o: Id): Heap {
    map x | x in h && x != o :: if OpenOn(h, x, o) then ClosedUp(UpContent(h, x)) else h[x]
  }

  ghost predicate SweepOne(s: State, s2: State, o: Id) {
    && o in s.ahead
    && s2 == s.(ahead := s.ahead - {o}, heap := s2.heap, color := s2.color)
    && if Dead(s, o) then
         && s2.heap == Freed(s.heap, o)
         && s2.color.Keys == s.color.Keys - {o}
         && forall x :: x in s2.color ==>
              || s2.color[x] == s.color[x]
              || (OpenOn(s.heap, x, o) && Marked(s, x) && s2.color[x] in {Black, White(s.white)})
       else
         s2.heap == s.heap && s2.color == s.color[o := White(s.white)]
  }
}
