/** A full collection ('fullinc'), from whatever phase it starts in, leaves exactly the
    strongly reachable objects, with weak tables cleared of everything else. */
module GcFull {
  import opened Options
  import opened GcHeap
  import opened GcSteps
  import opened GcSafety
  import opened GcTheorems

  /** What remains of 'h' when only the objects in 'ids' are left: upvalues that were open on
      a freed thread are closed. */
  function Restricted(h: Heap, ids: set<Id>): Heap {
    map x | x in h && x in ids ::
      if h[x].OpenUp? && h[x].thread !in ids then ClosedUp(UpContent(h, x)) else h[x]
  }

  ghost predicate UpvaluesOk(h: Heap) {
    forall u :: u in h && h[u].OpenUp? ==> UpvalueOk(h, u)
  }

  lemma RestrictedContent(h: Heap, ids: set<Id>, u: Id)
    requires UpvaluesOk(h) && u in h && u in ids && (h[u].OpenUp? || h[u].ClosedUp?)
    ensures var g := Restricted(h, ids);
      u in g && (g[u].OpenUp? || g[u].ClosedUp?) && UpContent(g, u) == UpContent(h, u)
  {
    assert h[u].OpenUp? ==> UpvalueOk(h, u);
  }

  lemma RestrictedTwice(h: Heap, ids: set<Id>, ids2: set<Id>)
    requires UpvaluesOk(h) && ids2 <= ids
    ensures Restricted(Restricted(h, ids), ids2) == Restricted(h, ids2)
  {
    var g := Restricted(h, ids);
    forall x | x in h && x in ids2
      ensures Restricted(g, ids2)[x] == Restricted(h, ids2)[x]
    {
      if h[x].OpenUp? {
        RestrictedContent(h, ids, x);
      }
    }
  }

  lemma RestrictedAll(h: Heap)
    requires UpvaluesOk(h)
    ensures Restricted(h, h.Keys) == h
  {
    forall x | x in h
      ensures Restricted(h, h.Keys)[x] == h[x]
    {
      assert h[x].OpenUp? ==> UpvalueOk(h, x);
    }
  }

  lemma FreedIsRestricted(h: Heap, o: Id)
    requires UpvaluesOk(h)
    ensures Freed(h, o) == Restricted(h, h.Keys - {o})
  {
    forall x | x in h && x != o
      ensures Freed(h, o)[x] == Restricted(h, h.Keys - {o})[x]
    {
      assert h[x].OpenUp? ==> UpvalueOk(h, x);
    }
  }

  // ----- two heaps that agree on what is live -----

  ghost predicate AgreeAt(h: Heap, g: Heap, live: set<Id>, x: Id) {
    && x in h && x in g
    && Refs(g, x) == Refs(h, x) <= live && StrongRefs(g, x) == StrongRefs(h, x)
    && (h[x].Table? <==> g[x].Table?)
    && (h[x].Table? ==> g[x].entries == h[x].entries && ModeOf(g, x) == ModeOf(h, x))
    && (h[x].Str? <==> g[x].Str?)
  }

  ghost predicate Agree(h: Heap, g: Heap, live: set<Id>) {
    forall x :: x in live ==> AgreeAt(h, g, live, x)
  }

  lemma RestrictedRefs(h: Heap, live: set<Id>, roots: set<Id>, twups: set<Id>, ids: set<Id>, x: Id)
    requires WellFormed(h, live, roots, twups) && live <= ids && x in live
    ensures x in Restricted(h, ids) && Refs(Restricted(h, ids), x) == Refs(h, x) <= live
  {
    var g := Restricted(h, ids);
    if h[x].OpenUp? || h[x].ClosedUp? {
      RestrictedContent(h, ids, x);
    } else if h[x].Thread? {
      assert Refs(h, x) <= live;
      forall u
        ensures OpenOn(g, u, x) <==> OpenOn(h, u, x)
      {
        assert OpenOn(h, u, x) ==> u in Refs(h, x);
      }
    }
  }

  lemma StringsRestricted(h: Heap, ids: set<Id>, xs: set<Id>)
    requires xs <= ids
    ensures Strings(Restricted(h, ids), xs) == Strings(h, xs)
  {
  }

  lemma RestrictedMode(h: Heap, ids: set<Id>, x: Id)
    requires x in h && h[x].Table? && x in ids && RefSet(h[x].mt) <= ids
    ensures ModeOf(Restricted(h, ids), x) == ModeOf(h, x)
  {
  }

  lemma RestrictedAgrees(h: Heap, live: set<Id>, roots: set<Id>, twups: set<Id>, ids: set<Id>)
    requires WellFormed(h, live, roots, twups) && live <= ids
    ensures Agree(h, Restricted(h, ids), live)
  {
    hide WellFormed, ModeOf, Strings;
    var g := Restricted(h, ids);
    forall x | x in live
      ensures AgreeAt(h, g, live, x)
    {
      RestrictedRefs(h, live, roots, twups, ids, x);
      LiveAllocated(h, live, roots, twups);
      if h[x].Table? {
        RestrictedMode(h, ids, x);
        StringsRestricted(h, ids, Keys(h[x].entries));
        StringsRestricted(h, ids, Vals(h[x].entries));
      }
    }
  }

  lemma LiveAllocated(h: Heap, live: set<Id>, roots: set<Id>, twups: set<Id>)
    requires WellFormed(h, live, roots, twups)
    ensures live <= h.Keys
  {
  }

  /** Whatever is closed in one heap is, cut down to the live objects, closed in the other. */
  lemma ClosedTransfers(h: Heap, g: Heap, live: set<Id>, c: set<Id>)
    requires Agree(h, g, live) && StrongClosed(h, c)
    ensures StrongClosed(g, c * live)
  {
    hide ModeOf, StrongRefs, Refs;
    forall x | x in c * live && x in g
      ensures HoldsIn(g, c * live, x)
    {
      assert AgreeAt(h, g, live, x);
      assert HoldsIn(h, c, x);
      HoldsTransfers(h, g, live, c, x);
    }
  }

  lemma HoldsTransfers(h: Heap, g: Heap, live: set<Id>, c: set<Id>, x: Id)
    requires Agree(h, g, live) && x in live && x in h && x in g && HoldsIn(h, c, x)
    ensures HoldsIn(g, c * live, x)
  {
    hide ModeOf;
    assert AgreeAt(h, g, live, x);
    StrongRefsLive(h, x);
    if h[x].Table? {
      forall e | e in h[x].entries
        ensures RefSet(e.key) <= live && RefSet(e.val) <= live
        ensures Strings(g, RefSet(e.key)) == Strings(h, RefSet(e.key))
      {
        assert RefSet(e.key) <= Keys(h[x].entries) && RefSet(e.val) <= Vals(h[x].entries);
        assert forall k :: k in RefSet(e.key) ==> AgreeAt(h, g, live, k);
      }
    }
  }

  lemma StrongRefsLive(h: Heap, x: Id)
    requires x in h
    ensures StrongRefs(h, x) <= Refs(h, x)
  {
    hide ModeOf;
  }

  lemma StrongTransfers(h: Heap, g: Heap, live: set<Id>, roots: set<Id>, y: Id)
    requires Agree(h, g, live) && roots <= live && StronglyReachable(g, roots, y)
    ensures StronglyReachable(h, roots, y)
  {
    hide Agree, StrongClosed;
    forall c: set<Id> | roots <= c && StrongClosed(h, c)
      ensures y in c
    {
      ClosedTransfers(h, g, live, c);
      assert roots <= c * live;
    }
  }

  lemma AgreeSymmetric(h: Heap, g: Heap, live: set<Id>)
    requires Agree(h, g, live)
    ensures Agree(g, h, live)
  {
    hide Refs, StrongRefs, ModeOf;
    forall x | x in live
      ensures AgreeAt(g, h, live, x)
    {
      assert AgreeAt(h, g, live, x);
    }
  }

  // ----- the sweep -----

  predicate Tail(p: Phase) {
    p.SwpAllGc? || p.SwpFinObj? || p.SwpToBeFnz? || p.SwpEnd? || p.CallFin?
  }

  /** What sweeping does to the heap, and what it leaves alone. */
  ghost predicate Swept(s: State, s2: State) {
    && s2.heap.Keys <= s.heap.Keys && s2.heap == Restricted(s.heap, s2.heap.Keys)
    && LiveSet(s2) == LiveSet(s) && s2.roots == s.roots
  }

  lemma InvUpvalues(s: State)
    requires Inv(s)
    ensures UpvaluesOk(s.heap) && LiveSet(s) <= s.heap.Keys
  {
  }

  lemma SweptNothing(s: State, s2: State)
    requires Inv(s) && s2.heap == s.heap && LiveSet(s2) == LiveSet(s) && s2.roots == s.roots
    ensures Swept(s, s2)
  {
    hide Inv, LiveSet;
    InvUpvalues(s);
    RestrictedAll(s.heap);
  }

  lemma SweptTransitive(s: State, s1: State, s2: State)
    requires Inv(s) && Swept(s, s1) && Swept(s1, s2)
    ensures Swept(s, s2)
  {
    hide Inv, LiveSet, Restricted;
    InvUpvalues(s);
    RestrictedTwice(s.heap, s1.heap.Keys, s2.heap.Keys);
  }

  lemma SweepMove(s: State, ev: Event, s2: State)
    requires Inv(s) && Step(s, ev, s2) && (ev.Collect? || ev.SweepObject?) && Tail(s.phase)
    ensures Swept(s, s2) && (Tail(s2.phase) || (s.phase.CallFin? && s2.phase.Pause?))
  {
    hide Inv, Accessible;
    if ev.Collect? {
      assert LiveSet(s2) == LiveSet(s);
      SweptNothing(s, s2);
    } else {
      SweepKeepsInv(s, s2, ev.o);
      if Dead(s, ev.o) {
        InvUpvalues(s);
        hide SweepOne, LiveSet, Restricted, UpvaluesOk;
        DeadIsFreed(s, s2, ev.o);
      } else {
        SweptNothing(s, s2);
      }
    }
  }

  lemma DeadIsFreed(s: State, s2: State, o: Id)
    requires SweepOne(s, s2, o) && Dead(s, o) && UpvaluesOk(s.heap) && LiveSet(s2) == LiveSet(s)
    ensures Swept(s, s2)
  {
    hide LiveSet, Restricted;
    FreedIsRestricted(s.heap, o);
    assert s2.heap.Keys == s.heap.Keys - {o};
  }

  /** Steps i up to j of a run are collector steps that meet the phase 'target' only at j. */
  ghost predicate Stretch(run: seq<State>, evs: seq<Event>, i: nat, j: nat, target: Phase) {
    && IsRun(run, evs) && Respectful(run, evs) && i <= j < |run|
    && (forall k :: i <= k < j ==> (evs[k].Collect? || evs[k].SweepObject?) && run[k].phase != target)
    && run[j].phase == target
  }

  lemma {:induction false} SweepStretch(run: seq<State>, evs: seq<Event>, i: nat, j: nat, target: Phase, k: nat)
    requires Stretch(run, evs, i, j, target) && Tail(run[i].phase) && (target.CallFin? || target.Pause?)
    requires i <= k <= j
    ensures Swept(run[i], run[k]) && (Tail(run[k].phase) || k == j)
  {
    hide Step, Swept, Respectful, Initial;
    StretchInv(run, evs, i);
    if k == i {
      SweptNothing(run[i], run[i]);
    } else {
      SweepStretch(run, evs, i, j, target, k - 1);
      assert Step(run[k - 1], evs[k - 1], run[k - 1 + 1]);
      StretchInv(run, evs, k - 1);
      SweepMove(run[k - 1], evs[k - 1], run[k]);
      SweptTransitive(run[i], run[k - 1], run[k]);
    }
  }

  lemma StretchInv(run: seq<State>, evs: seq<Event>, i: nat)
    requires IsRun(run, evs) && Respectful(run, evs) && i < |run|
    ensures Inv(run[i])
  {
    RunKeepsInv(run, evs, i);
  }

  // ----- the whole collection -----

  /** How an object looks after everything outside 'left' is gone. */
  function Survivor(h: Heap, left: set<Id>, o: Id): Cell
    requires o in h
  {
    match h[o]
    case Table(says, mt, es) => Table(says, mt, Kept(ModeOf(h, o), es, left))
    case OpenUp(th, _) => if th in left then h[o] else ClosedUp(UpContent(h, o))
    case _ => h[o]
  }

  /** 'h2' is 'h' without its garbage. */
  ghost predicate Collected(h: Heap, roots: set<Id>, h2: Heap) {
    && (forall o :: o in h2 <==> StronglyReachable(h, roots, o))
    && (forall o :: o in h2 ==> o in h && h2[o] == Survivor(h, h2.Keys, o))
  }

  /** A cycle from the pause 'p' over the start of marking 'r' to the beginning 'b' of the sweep. */
  lemma NewCycle(p: State, r: State, a: State, b: State)
    requires Inv(p) && p.phase.Pause? && CollectStep(p, r) && a == r.(phase := EnterAtomic) && CollectStep(a, b)
    ensures Inv(r) && Inv(b) && b.phase.SwpAllGc? && b.roots == p.roots
    ensures forall o :: o in LiveSet(b) <==> StronglyReachable(p.heap, p.roots, o)
    ensures b.heap == ClearWeak(p.heap, {}, LiveSet(b))
  {
    hide Inv, StronglyReachable, Within, ClearWeak, Restarted, AtomicDone;
    CollectKeepsInv(p, r);
    NextPhase(p, r);
    RestartMarks(p, r);
    RestartClears(p, r);
    PhaseOnlyKeepsInv(r, a);
    assert MarkedSet(a) == MarkedSet(r);
    assert NoneStrengthened(a);
    CollectIsAtomic(a, b);
    AtomicKeepsInv(a, b);
    AtomicClears(a, b);
    NextPhase(a, b);
    RootsSame(a, b);
    forall o
      ensures o in LiveSet(b) <==> StronglyReachable(p.heap, p.roots, o)
    {
      AtomicExact(a, b, a.roots, o);
    }
  }

  lemma RestartClears(p: State, r: State)
    requires p.phase.Pause? && CollectStep(p, r)
    ensures r.allweak == {}
  {
  }

  lemma RootsSame(a: State, b: State)
    requires AtomicDone(a, b)
    ensures b.roots == a.roots
  {
  }

  /** Sweep, clear, sweep: cell by cell. */
  lemma SurvivorCell(h: Heap, ids: set<Id>, left: set<Id>, o: Id)
    requires UpvaluesOk(h) && o in h && o in left && left <= ids && (h[o].Table? ==> RefSet(h[o].mt) <= ids)
    ensures var g := ClearWeak(Restricted(h, ids), {}, left);
      o in g && UpvaluesOk(g) && Restricted(g, left)[o] == Survivor(h, left, o)
  {
    hide Kept;
    var f := Restricted(h, ids);
    var g := ClearWeak(f, {}, left);
    forall u | u in g && g[u].OpenUp?
      ensures UpvalueOk(g, u)
    {
      assert UpvalueOk(h, u);
    }
    match h[o]
    case Table(_, _, _) => RestrictedMode(h, ids, o);
    case OpenUp(th, _) =>
      assert UpvalueOk(h, o);
      RestrictedContent(h, ids, o);
    case _ =>
  }

  /** The pending sweep, the new cycle and its sweep leave exactly what is strongly reachable. */
  lemma FullCollection(s: State, p: State, b: State, f: State)
    requires Inv(s) && Inv(p) && Inv(b) && Inv(f) && Swept(s, p) && Swept(b, f)
    requires p.phase.Pause? && f.phase.Pause? && b.roots == p.roots
    requires forall o :: o in LiveSet(b) <==> StronglyReachable(p.heap, p.roots, o)
    requires b.heap == ClearWeak(p.heap, {}, LiveSet(b))
    ensures Collected(s.heap, s.roots, f.heap) && f.roots == s.roots
  {
    hide Inv, StronglyReachable, Restricted, ClearWeak, LiveSet, Survivor;
    var h, left := s.heap, LiveSet(b);
    PauseIsLive(f);
    PauseIsLive(p);
    assert f.heap.Keys == left;
    InvUpvalues(s);
    InvUpvalues(b);
    ClearedKeys(p.heap, {}, left);
    forall o
      ensures o in left <==> StronglyReachable(h, s.roots, o)
    {
      SameStrong(s, p, o);
    }
    forall o | o in left
      ensures o in h && f.heap[o] == Survivor(h, left, o)
    {
      MetatableLive(s, o);
      SurvivorCell(h, p.heap.Keys, left, o);
    }
  }

  lemma PauseIsLive(s: State)
    requires Inv(s) && s.phase.Pause?
    ensures LiveSet(s) == s.heap.Keys
  {
  }

  lemma MetatableLive(s: State, o: Id)
    requires Inv(s) && o in LiveSet(s)
    ensures o in s.heap && (s.heap[o].Table? ==> RefSet(s.heap[o].mt) <= LiveSet(s))
  {
    assert Refs(s.heap, o) <= LiveSet(s);
  }

  lemma SameStrong(s: State, p: State, o: Id)
    requires Inv(s) && Swept(s, p) && LiveSet(p) == p.heap.Keys
    ensures StronglyReachable(p.heap, p.roots, o) <==> StronglyReachable(s.heap, s.roots, o)
  {
    hide StronglyReachable, Agree, Restricted, LiveSet, WellFormed, PhaseInv;
    RestrictedAgrees(s.heap, LiveSet(s), s.roots, s.twups, p.heap.Keys);
    AgreeSymmetric(s.heap, p.heap, LiveSet(s));
    RootsLive(s);
    if StronglyReachable(p.heap, p.roots, o) {
      StrongTransfers(s.heap, p.heap, LiveSet(s), s.roots, o);
    }
    if StronglyReachable(s.heap, s.roots, o) {
      StrongTransfers(p.heap, s.heap, LiveSet(s), s.roots, o);
    }
  }

  lemma RootsLive(s: State)
    requires Inv(s)
    ensures s.roots <= LiveSet(s)
  {
  }

  // ----- the rules of the manual -----

  /** The metatable of table 't' has a '__mode' field that says 'm'. */
  predicate MetaSays(h: Heap, t: Id, m: Mode)
    requires t in h && h[t].Table?
  {
    h[t].mt.Some? && h[t].mt.value in h && h[h[t].mt.value].Table? && h[h[t].mt.value].says == m
  }

  predicate IsString(h: Heap, r: Ref) {
    r.Some? && r.value in h && h[r.value].Str?
  }

  /** A reference, if it is one, stays in 'c'. */
  predicate In(r: Ref, c: set<Id>) {
    r.Some? ==> r.value in c
  }

  /** What an entry keeps alive, by the '__mode' of its table's metatable (sections 2.5.3 and
      2.5.4 of the Lua 5.4 Reference Manual); strings are values and are never removed. */
  predicate EntryRule(h: Heap, c: set<Id>, t: Id, e: Entry)
    requires t in h && h[t].Table?
  {
    if MetaSays(h, t, WeakValues) then In(e.key, c) && (IsString(h, e.val) ==> In(e.val, c))
    else if MetaSays(h, t, Ephemeron) then (IsString(h, e.key) ==> In(e.key, c)) && (In(e.key, c) ==> In(e.val, c))
    else if MetaSays(h, t, AllWeak) then
      (IsString(h, e.val) ==> In(e.val, c)) && (In(e.val, c) && IsString(h, e.key) ==> In(e.key, c))
    else In(e.key, c) && In(e.val, c)
  }

  /** Whatever object 'o' keeps alive is in 'c'. */
  ghost predicate ObjectRule(h: Heap, c: set<Id>, o: Id)
    requires o in h
  {
    match h[o]
    case Str => true
    case Record(refs) => forall r :: r in refs ==> r in c
    case PlainUdata(mt) => In(mt, c)
    case ClosedUp(v) => In(v, c)
    case OpenUp(th, i) => th in h && h[th].Thread? && i < |h[th].stack| ==> In(h[th].stack[i], c)
    case Thread(stack) =>
      && (forall i :: 0 <= i < |stack| ==> In(stack[i], c))
      && (forall u :: u in h && h[u].OpenUp? && h[u].thread == o ==> u in c)
    case Table(_, mt, es) => In(mt, c) && forall e :: e in es ==> EntryRule(h, c, o, e)
  }

  ghost predicate Rules(h: Heap, c: set<Id>) {
    forall o :: o in c && o in h ==> ObjectRule(h, c, o)
  }

  lemma SetRules(h: Heap, es: set<Entry>, c: set<Id>)
    ensures Keys(es) <= c <==> forall e :: e in es ==> In(e.key, c)
    ensures Vals(es) <= c <==> forall e :: e in es ==> In(e.val, c)
    ensures Strings(h, Keys(es)) <= c <==> forall e :: e in es && IsString(h, e.key) ==> In(e.key, c)
    ensures Strings(h, Vals(es)) <= c <==> forall e :: e in es && IsString(h, e.val) ==> In(e.val, c)
  {
    assert forall e :: e in es && e.key.Some? ==> e.key.value in Keys(es);
    assert forall e :: e in es && e.val.Some? ==> e.val.value in Vals(es);
    assert forall e :: e in es && IsString(h, e.key) ==> e.key.value in Strings(h, Keys(es));
    assert forall e :: e in es && IsString(h, e.val) ==> e.val.value in Strings(h, Vals(es));
  }

  lemma TableRule(h: Heap, c: set<Id>, o: Id)
    requires o in h && h[o].Table?
    ensures HoldsIn(h, c, o) <==> ObjectRule(h, c, o)
  {
    SetRules(h, h[o].entries, c);
    hide Keys, Vals, Strings;
    assert forall r: Ref :: RefSet(r) <= c <==> In(r, c);
    assert forall r: Ref :: Strings(h, RefSet(r)) <= c <==> (IsString(h, r) ==> In(r, c)) by { OneString(h, c); }
  }

  lemma OneString(h: Heap, c: set<Id>)
    ensures forall r: Ref :: Strings(h, RefSet(r)) <= c <==> (IsString(h, r) ==> In(r, c))
  {
    forall r: Ref
      ensures Strings(h, RefSet(r)) <= c <==> (IsString(h, r) ==> In(r, c))
    {
      assert IsString(h, r) ==> r.value in Strings(h, RefSet(r));
    }
  }

  lemma ThreadRule(h: Heap, c: set<Id>, o: Id)
    requires o in h && h[o].Thread?
    ensures HoldsIn(h, c, o) <==> ObjectRule(h, c, o)
  {
    var stack := h[o].stack;
    var ups := set u | u in h && OpenOn(h, u, o);
    assert Refs(h, o) == StackRefs(stack) + ups;
    assert forall i :: 0 <= i < |stack| && stack[i].Some? ==> stack[i].value in StackRefs(stack);
    assert forall r :: r in StackRefs(stack) ==> exists i :: 0 <= i < |stack| && stack[i] == Some(r);
    assert forall u :: u in ups <==> u in h && h[u].OpenUp? && h[u].thread == o;
  }

  /** The closed sets are those that obey the rules. */
  lemma RulesAreClosure(h: Heap, c: set<Id>)
    ensures StrongClosed(h, c) <==> Rules(h, c)
  {
    forall o | o in c && o in h
      ensures HoldsIn(h, c, o) <==> ObjectRule(h, c, o)
    {
      if h[o].Table? {
        TableRule(h, c, o);
      } else if h[o].Thread? {
        ThreadRule(h, c, o);
      } else if h[o].OpenUp? {
        assert In(UpContent(h, o), c) <==> RefSet(UpContent(h, o)) <= c;
      }
    }
    hide HoldsIn, ObjectRule;
  }

  /** What is left after a full collection is the least set that contains the roots and obeys the rules. */
  lemma LeftByTheRules(h: Heap, roots: set<Id>, h2: Heap)
    requires Collected(h, roots, h2)
    ensures roots <= h2.Keys && Rules(h, h2.Keys)
    ensures forall c: set<Id> :: roots <= c && Rules(h, c) ==> h2.Keys <= c
  {
    hide Rules;
    forall c: set<Id> | roots <= c && Rules(h, c)
      ensures h2.Keys <= c
    {
      RulesAreClosure(h, c);
    }
    forall o | o in h2 && o in h
      ensures HoldsIn(h, h2.Keys, o)
    {
      LeftHolds(h, roots, h2, o);
    }
    RulesAreClosure(h, h2.Keys);
    forall r | r in roots
      ensures r in h2
    {
      assert StronglyReachable(h, roots, r);
    }
  }

  lemma LeftHolds(h: Heap, roots: set<Id>, h2: Heap, o: Id)
    requires (forall x :: x in h2 <==> StronglyReachable(h, roots, x)) && o in h2 && o in h
    ensures HoldsIn(h, h2.Keys, o)
  {
    hide StronglyReachable, StrongRefs, ModeOf;
    forall x | x in StrongRefs(h, o)
      ensures x in h2
    {
      StrongStep(h, roots, o, x);
    }
    if h[o].Table? && ModeOf(h, o).AllWeak? {
      forall e, k | e in h[o].entries && RefSet(e.val) <= h2.Keys && k in Strings(h, RefSet(e.key))
        ensures k in h2
      {
        StrongStringKey(h, roots, o, e, k);
      }
    }
    if h[o].Table? && ModeOf(h, o).Ephemeron? {
      forall e | e in h[o].entries && RefSet(e.key) <= h2.Keys
        ensures RefSet(e.val) <= h2.Keys
      {
        StrongEphemeron(h, roots, o, e);
      }
    }
  }

  /** The entries of a table after a full collection, by what the metatable says. */
  lemma EntriesLeft(h: Heap, roots: set<Id>, h2: Heap, t: Id, e: Entry)
    requires Collected(h, roots, h2) && t in h2 && t in h && h[t].Table?
    ensures h2[t].Table? && h2[t].mt == h[t].mt && h2[t].says == h[t].says && h2[t].entries <= h[t].entries
    ensures e in h[t].entries && MetaSays(h, t, WeakValues) ==>
      In(e.key, h2.Keys) && (e in h2[t].entries <==> In(e.val, h2.Keys))
    ensures e in h[t].entries && MetaSays(h, t, Ephemeron) ==>
      (In(e.key, h2.Keys) ==> In(e.val, h2.Keys)) && (e in h2[t].entries <==> In(e.key, h2.Keys))
    ensures e in h[t].entries && MetaSays(h, t, AllWeak) ==>
      (e in h2[t].entries <==> In(e.key, h2.Keys) && In(e.val, h2.Keys))
    ensures e in h[t].entries && (h[t].mt.None? || MetaSays(h, t, Strong)) ==>
      In(e.key, h2.Keys) && In(e.val, h2.Keys) && e in h2[t].entries
  {
    hide Collected, Rules, Survivor;
    LeftByTheRules(h, roots, h2);
    SurvivorIs(h, roots, h2, t);
    RuleAt(h, h2.Keys, t);
    TableSurvives(h, h2.Keys, t);
    assert e in h[t].entries ==> EntryRule(h, h2.Keys, t, e);
  }

  lemma RuleAt(h: Heap, c: set<Id>, o: Id)
    requires Rules(h, c) && o in c && o in h
    ensures ObjectRule(h, c, o)
  {
  }

  lemma SurvivorIs(h: Heap, roots: set<Id>, h2: Heap, o: Id)
    requires Collected(h, roots, h2) && o in h2
    ensures o in h && h2[o] == Survivor(h, h2.Keys, o)
  {
  }

  lemma TableSurvives(h: Heap, left: set<Id>, t: Id)
    requires t in h && h[t].Table?
    ensures var c := Survivor(h, left, t); c.Table? && c.mt == h[t].mt && c.says == h[t].says && c.entries <= h[t].entries
    ensures forall e :: e in h[t].entries ==>
      (e in Survivor(h, left, t).entries <==>
        if MetaSays(h, t, WeakValues) then In(e.val, left)
        else if MetaSays(h, t, Ephemeron) then In(e.key, left)
        else if MetaSays(h, t, AllWeak) then In(e.key, left) && In(e.val, left)
        else true)
  {
    assert forall r: Ref :: RefSet(r) <= left <==> In(r, left);
  }

  /** All other objects are unchanged, but for upvalues of collected threads, which keep their value. */
  lemma ObjectsLeft(h: Heap, roots: set<Id>, h2: Heap, o: Id)
    requires Collected(h, roots, h2) && o in h2
    ensures o in h
    ensures h[o].Str? || h[o].Record? || h[o].Thread? || h[o].PlainUdata? || h[o].ClosedUp? ==> h2[o] == h[o]
    ensures h[o].OpenUp? && h[o].thread in h2 ==> h2[o] == h[o]
    ensures h[o].OpenUp? && h[o].thread !in h2 && UpvalueOk(h, o) ==> h2[o] == ClosedUp(h[h[o].thread].stack[h[o].slot])
  {
  }

  /** Whatever a program can get hold of through object 'o' is in 'c': weakness plays no role. */
  ghost predicate AccessRule(h: Heap, c: set<Id>, o: Id)
    requires o in h
  {
    match h[o]
    case Table(_, mt, es) => In(mt, c) && forall e :: e in es ==> In(e.key, c) && In(e.val, c)
    case _ => ObjectRule(h, c, o)
  }

  ghost predicate AccessRules(h: Heap, c: set<Id>) {
    forall o :: o in c && o in h ==> AccessRule(h, c, o)
  }

  /** An object is accessible exactly if no set with the roots obeys these rules without it. */
  lemma AccessibleByTheRules(h: Heap, roots: set<Id>, x: Id)
    ensures Accessible(h, roots, x) <==> forall c: set<Id> :: roots <= c && AccessRules(h, c) ==> x in c
  {
    forall c: set<Id>
      ensures RefClosed(h, c) <==> AccessRules(h, c)
    {
      forall o | o in c && o in h
        ensures Refs(h, o) <= c <==> AccessRule(h, c, o)
      {
        if h[o].Table? {
          SetRules(h, h[o].entries, c);
        } else if h[o].Thread? {
          ThreadRule(h, c, o);
        } else if h[o].OpenUp? {
          assert In(UpContent(h, o), c) <==> RefSet(UpContent(h, o)) <= c;
        }
      }
    }
    hide AccessRules, RefClosed;
  }
}
