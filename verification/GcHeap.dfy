/** Object graph and collector state of the incremental Lua garbage collector.

    Objects are identified by their address.  A reference is a collectable value
    (`Some(id)`) or a non-collectable one (`None`).  The gray lists and the part of
    'allgc' still ahead of the sweep pointer are sets: every traversal order is covered.
 */
module GcHeap {
  import opened Options

  type Id = nat
  type Ref = Option<Id>

  /** What the '__mode' field of a metatable says about the weakness of its tables. */
  datatype Mode = Strong | WeakValues | Ephemeron | AllWeak

  /** An entry of the array part has a non-collectable key. */
  datatype Entry = Entry(key: Ref, val: Ref)

  datatype Cell =
    | Str
    | OpenUp(thread: Id, slot: nat)
    | ClosedUp(val: Ref)
    | PlainUdata(mt: Ref)             // userdata with no user values
    | Record(refs: set<Id>)           // closures, prototypes, userdata with user values
    | Thread(stack: seq<Ref>)
    | Table(says: Mode, mt: Ref, entries: set<Entry>)  // 'says': its own '__mode' field

  type Heap = map<Id, Cell>

  datatype Color = White(bit: bool) | Gray | Black

  datatype Phase =
    | Propagate | EnterAtomic | Atomic
    | SwpAllGc | SwpFinObj | SwpToBeFnz | SwpEnd
    | CallFin | Pause

  datatype State = State(
    heap: Heap,
    color: map<Id, Color>,
    white: bool,              // current white
    phase: Phase,
    gray: set<Id>,
    again: set<Id>,           // 'grayagain'
    weak: set<Id>,
    ephemeron: set<Id>,
    allweak: set<Id>,
    twups: set<Id>,           // threads with open upvalues
    roots: set<Id>,           // running and main thread, registry, basic metatables
    ahead: set<Id>)           // objects the sweep has yet to visit

  // ----- references -----

  function RefSet(r: Ref): set<Id> {
    if r.Some? then {r.value} else {}
  }

  function StackRefs(stack: seq<Ref>): set<Id> {
    set r | r in stack && r.Some? :: r.value
  }

  function Keys(es: set<Entry>): set<Id> {
    set e | e in es && e.key.Some? :: e.key.value
  }

  function Vals(es: set<Entry>): set<Id> {
    set e | e in es && e.val.Some? :: e.val.value
  }

  predicate OpenOn(h: Heap, u: Id, th: Id) {
    u in h && h[u].OpenUp? && h[u].thread == th
  }

  /** What an upvalue currently holds: an open one reads its thread's stack. */
  function UpContent(h: Heap, u: Id): Ref
    requires u in h && (h[u].OpenUp? || h[u].ClosedUp?)
  {
    match h[u]
    case ClosedUp(v) => v
    case OpenUp(th, i) =>
      if th in h && h[th].Thread? && i < |h[th].stack| then h[th].stack[i] else None
  }

  /** Every object that an access through 'o' can yield. */
  function Refs(h: Heap, o: Id): set<Id>
    requires o in h
  {
    match h[o]
    case Str => {}
    case OpenUp(_, _) => RefSet(UpContent(h, o))
    case ClosedUp(_) => RefSet(UpContent(h, o))
    case PlainUdata(mt) => RefSet(mt)
    case Record(refs) => refs
    case Thread(stack) => StackRefs(stack) + set u | u in h && OpenOn(h, u, o)
    case Table(_, mt, es) => RefSet(mt) + Keys(es) + Vals(es)
  }

  /** The weakness of table 'o', which 'traversetable' reads from its metatable. */
  function ModeOf(h: Heap, o: Id): Mode
    requires o in h && h[o].Table?
  {
    var mt := h[o].mt;
    if mt.Some? && mt.value in h && h[mt.value].Table? then h[mt.value].says else Strong
  }

  /** Strings of a set: "strings are values", so weak tables never drop them. */
  function Strings(h: Heap, ids: set<Id>): set<Id> {
    set x | x in ids && x in h && h[x].Str?
  }

  /** References that keep their target alive whatever else is alive. */
  function StrongRefs(h: Heap, o: Id): set<Id>
    requires o in h
  {
    match h[o]
    case Table(_, mt, es) =>
      (match ModeOf(h, o)
       case Strong => Refs(h, o)
       case WeakValues => RefSet(mt) + Keys(es) + Strings(h, Vals(es))
       case Ephemeron => RefSet(mt) + Strings(h, Keys(es))
       case AllWeak => RefSet(mt) + Strings(h, Vals(es)))
    case _ => Refs(h, o)
  }

  /** In ephemeron table 'o', a marked (or non-collectable) key holds its value. */
  ghost predicate EphemeronClosed(h: Heap, c: set<Id>, o: Id)
    requires o in h && h[o].Table?
  {
    forall e :: e in h[o].entries && RefSet(e.key) <= c ==> RefSet(e.val) <= c
  }

  /** In an all-weak table 'o', an entry whose value stays keeps its string key. */
  ghost predicate StringKeysClosed(h: Heap, c: set<Id>, o: Id)
    requires o in h && h[o].Table?
  {
    forall e :: e in h[o].entries && RefSet(e.val) <= c ==> Strings(h, RefSet(e.key)) <= c
  }

  /** Object 'o' of 'c' holds nothing outside 'c' that its traversal follows. */
  ghost predicate HoldsIn(h: Heap, c: set<Id>, o: Id)
    requires o in h
  {
    && StrongRefs(h, o) <= c
    && (h[o].Table? && ModeOf(h, o).AllWeak? ==> StringKeysClosed(h, c, o))
    && (h[o].Table? && ModeOf(h, o).Ephemeron? ==> EphemeronClosed(h, c, o))
  }

  /** A table that is not traversed, whatever its weakness, keeps the strings of its entries. */
  ghost predicate ParkedIn(h: Heap, c: set<Id>, o: Id)
    requires o in h && h[o].Table?
  {
    Strings(h, Vals(h[o].entries)) <= c && StringKeysClosed(h, c, o)
  }

  /** Closed under the references a traversal follows when it skips the tables in 'parked'. */
  ghost predicate ClosedBut(h: Heap, parked: set<Id>, c: set<Id>) {
    forall o :: o in c && o in h ==>
      if o in parked && h[o].Table? then ParkedIn(h, c, o) else HoldsIn(h, c, o)
  }

  ghost predicate StrongClosed(h: Heap, c: set<Id>) {
    ClosedBut(h, {}, c)
  }

  ghost predicate RefClosed(h: Heap, c: set<Id>) {
    forall o :: o in c && o in h ==> Refs(h, o) <= c
  }

  /** Lua code can get hold of 'o', through strong or weak references. */
  ghost predicate Accessible(h: Heap, roots: set<Id>, o: Id) {
    forall c: set<Id> :: roots <= c && RefClosed(h, c) ==> o in c
  }

  /** 'o' must survive (section 2.5.4 of the Lua 5.4 Reference Manual). */
  ghost predicate StronglyReachable(h: Heap, roots: set<Id>, o: Id) {
    forall c: set<Id> :: roots <= c && StrongClosed(h, c) ==> o in c
  }

  /** Everything in 'ids' is reached from 'from' by a traversal that skips 'parked'. */
  ghost predicate WithinBut(h: Heap, parked: set<Id>, from: set<Id>, ids: set<Id>) {
    forall c: set<Id> :: from <= c && ClosedBut(h, parked, c) ==> ids <= c
  }

  /** Everything in 'ids' is strongly reachable from 'from'. */
  ghost predicate Within(h: Heap, from: set<Id>, ids: set<Id>) {
    WithinBut(h, {}, from, ids)
  }

  // ----- colours -----

  predicate KeepInvariant(p: Phase) {
    p.Propagate? || p.EnterAtomic? || p.Atomic?
  }

  predicate IsWhite(s: State, o: Id) {
    o in s.color && s.color[o].White?
  }

  predicate IsBlack(s: State, o: Id) {
    o in s.color && s.color[o].Black?
  }

  predicate Marked(s: State, o: Id) {
    o in s.color && !s.color[o].White?
  }

  predicate Dead(s: State, o: Id) {
    o in s.color && s.color[o] == White(!s.white)
  }

  function MarkedSet(s: State): set<Id> {
    set o | o in s.color && !s.color[o].White?
  }

  function GraySet(s: State): set<Id> {
    set o | o in s.color && s.color[o].Gray?
  }

  function BlackSet(s: State): set<Id> {
    set o | o in s.color && s.color[o].Black?
  }

  function LiveSet(s: State): set<Id> {
    set o | o in s.heap && !Dead(s, o)
  }

  /** Objects that go through a gray list: all that have a 'gclist' field. */
  predicate Linkable(c: Cell) {
    c.Record? || c.Thread? || c.Table?
  }

  predicate WeakTable(h: Heap, o: Id)
    requires o in h
  {
    h[o].Table? && !ModeOf(h, o).Strong?
  }

  // ----- invariants -----

  /** Types that 'reallymarkobject' relies on for its two-level recursion. */
  predicate Typed(h: Heap, o: Id)
    requires o in h
  {
    && (h[o].PlainUdata? && h[o].mt.Some? && h[o].mt.value in h ==> h[h[o].mt.value].Table?)
    && (h[o].OpenUp? || h[o].ClosedUp? ==> IsValue(h, UpContent(h, o)))
  }

  /** A Lua value: upvalue objects are never first-class. */
  predicate IsValue(h: Heap, v: Ref) {
    v.Some? && v.value in h ==> !h[v.value].OpenUp? && !h[v.value].ClosedUp?
  }

  /** An open upvalue points into the stack of an allocated thread. */
  predicate UpvalueOk(h: Heap, u: Id)
    requires u in h && h[u].OpenUp?
  {
    var th := h[u].thread;
    th in h && h[th].Thread? && h[u].slot < |h[th].stack|
  }

  /** Roots and 'twups' are live, and live objects refer to live objects only. */
  ghost predicate WellFormed(h: Heap, live: set<Id>, roots: set<Id>, twups: set<Id>) {
    && live <= h.Keys
    && roots <= live && twups <= live
    && (forall o :: o in live ==> Refs(h, o) <= live && Typed(h, o))
    && (forall u :: u in h && h[u].OpenUp? ==>
          UpvalueOk(h, u) && (h[u].thread in live ==> h[u].thread in twups))
  }

  /** Gray objects can be found again: each sits in one gray list (or is an open upvalue). */
  ghost predicate GrayListsOk(h: Heap, grays: set<Id>, gray: set<Id>, again: set<Id>, allweak: set<Id>) {
    && gray !! again && gray !! allweak && again !! allweak
    && gray + again + allweak <= grays
    && (forall o :: o in grays && o in h ==>
          if o in gray || o in again || o in allweak then Linkable(h[o]) else h[o].OpenUp?)
    && (forall o :: o in allweak && o in h ==> h[o].Table?)
  }

  /** A black object never points to a white one. */
  ghost predicate NoBlackToWhite(h: Heap, blacks: set<Id>, marked: set<Id>) {
    forall o :: o in blacks && o in h ==>
      && !h[o].OpenUp? && !h[o].Thread?
      && Refs(h, o) <= marked
  }

  /** Tables parked in 'allweak' are not visited again: their metatable must be marked. */
  ghost predicate AllWeakOk(h: Heap, allweak: set<Id>, marked: set<Id>) {
    forall o :: o in allweak && o in h && h[o].Table? ==> RefSet(h[o].mt) <= marked
  }

  /** What marking relies on: no dead object, gray objects listed, no black-to-white reference. */
  ghost predicate TriColor(s: State) {
    && LiveSet(s) == s.heap.Keys
    && s.weak == {} && s.ephemeron == {}
    && GrayListsOk(s.heap, GraySet(s), s.gray, s.again, s.allweak)
    && NoBlackToWhite(s.heap, BlackSet(s), MarkedSet(s))
  }

  /** The main invariant, kept from the start of a cycle up to the atomic phase. */
  ghost predicate MarkInv(s: State) {
    TriColor(s) && AllWeakOk(s.heap, s.allweak, MarkedSet(s))
  }

  /** Objects outside 'c' carry the current white. */
  ghost predicate WhiteOutside(s: State, c: set<Id>) {
    forall o :: o in s.color && o !in c ==> s.color[o] == White(s.white)
  }

  ghost predicate PhaseInv(s: State) {
    if KeepInvariant(s.phase) then MarkInv(s)
    else if s.phase.SwpAllGc? then WhiteOutside(s, s.ahead)
    else WhiteOutside(s, {})
  }

  ghost predicate Inv(s: State)
  {
    && s.color.Keys == s.heap.Keys
    && WellFormed(s.heap, LiveSet(s), s.roots, s.twups)
    && s.ahead <= s.heap.Keys
    && PhaseInv(s)
  }

  /** All accessible objects are allocated and none of them is about to be freed. */
  lemma AccessibleIsLive(s: State, o: Id)
    requires Inv(s)
    requires Accessible(s.heap, s.roots, o)
    ensures o in LiveSet(s)
  {
    assert RefClosed(s.heap, LiveSet(s));
  }
}
