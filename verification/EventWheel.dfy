/**
 The timer wheel of event/event.c as a state machine over its lists.

 A node of the C program is an address; `rec` holds the fields of the node at each address.  Because nodes
 are recycled through the free list, every call of event_add also gets a serial number, and `life[s]` is the
 journal of the event with serial `s`: when it was called, marked a zombie and taken off the lists.
 Event handlers are modelled by a plan that says, for each event, which timer operations its handler performs
 when it is called; nothing is assumed about the plan.
 */
module EventWheel {
  import opened PointerLists

  /** LOOKAHEAD_STACK_SIZE */
  const SLOTS := 70

  datatype Event = Event(serial: nat, due: int, etype: nat, data: int, data2: int, zombie: bool)

  datatype Stamp = Called(tick: int) | Marked(tick: int) | Reaped(tick: int)

  /** An event_add call: its tick, the delay it asked for, and the event it described. */
  datatype Request = Request(at: int, delay: int, etype: nat, data: int, data2: int)

  datatype Matcher = ByData(d: int) | ByData2(d2: int) | ByBoth(b: int, b2: int)

  datatype Action =
    | Add(time: int, etype: nat, data: int, data2: int)
    | RemoveData(d: int)
    | RemoveType(t: nat, m: Matcher)

  type Plan = nat -> seq<Action>

  type SlotLists = s: seq<seq<Addr>> | |s| == SLOTS witness seq(SLOTS, i => [])

  datatype Wheel = Wheel(
    tick: int,
    slots: SlotLists,
    types: seq<seq<Addr>>,
    main: seq<Addr>,
    free: seq<Addr>,
    rec: map<Addr, Event>,
    top: Addr,
    scheduled: int,
    executed: int,
    zombies: int,
    requests: seq<Request>,
    life: seq<seq<Stamp>>)

  const BLANK: Event := Event(0, 0, 0, 0, 0, false)

  function Get(w: Wheel, a: Addr): Event {
    if a in w.rec then w.rec[a] else BLANK
  }

  function Delay(time: int): int { if time < 1 then 1 else time }

  function Due(r: Request): int { r.at + Delay(r.delay) }

  function Spot(tick: int): nat { tick % SLOTS }

  function Init(): Wheel {
    Wheel(0, seq(SLOTS, i => []), [], [], [], map[], 1, 0, 0, 0, [], [])
  }

  // ------------------------------------------------------------------ the operations

  /** A journal entry for serial s; unknown serials have no journal. */
  function Note(life: seq<seq<Stamp>>, s: nat, x: Stamp): seq<seq<Stamp>> {
    if s < |life| then life[s := life[s] + [x]] else life
  }

  /** event_first_in_type grown so that `etype` is an index of it. */
  function GrowTypes(types: seq<seq<Addr>>, etype: nat): (r: seq<seq<Addr>>)
    ensures etype < |r| && types <= r
    ensures forall t :: |types| <= t < |r| ==> r[t] == []
  {
    if etype < |types| then types else types + seq(etype + 1 - |types|, i => [])
  }

  /** event_add */
  function Schedule(w: Wheel, time: int, etype: nat, data: int, data2: int): Wheel {
    var e := if w.free != [] then w.free[0] else w.top;
    var due := w.tick + Delay(time);
    var types := GrowTypes(w.types, etype);
    w.(scheduled := w.scheduled + 1,
       free := if w.free != [] then w.free[1..] else [],
       top := if w.free != [] then w.top else w.top + 1,
       rec := w.rec[e := Event(|w.requests|, due, etype, data, data2, false)],
       main := [e] + w.main,
       types := types[etype := [e] + types[etype]],
       slots := w.slots[Spot(due) := [e] + w.slots[Spot(due)]],
       requests := w.requests + [Request(w.tick, time, etype, data, data2)],
       life := w.life + [[]])
  }

  /** `e->flags |= FLAG_ZOMBIE` */
  function Mark(w: Wheel, a: Addr): Wheel {
    var ev := Get(w, a);
    if ev.zombie || a !in w.rec then w
    else w.(rec := w.rec[a := ev.(zombie := true)], life := Note(w.life, ev.serial, Marked(w.tick)))
  }

  predicate Matches(m: Matcher, ev: Event) {
    match m
    case ByData(d) => ev.data == d
    case ByData2(d2) => ev.data2 == d2
    case ByBoth(b, b2) => ev.data == b && ev.data2 == b2
  }

  /** Mark every matching event on a list, in list order. */
  function MarkAll(w: Wheel, list: seq<Addr>, m: Matcher): Wheel
    decreases |list|
  {
    if list == [] then w
    else MarkAll(if Matches(m, Get(w, list[0])) then Mark(w, list[0]) else w, list[1..], m)
  }

  function Apply(w: Wheel, a: Action): Wheel {
    match a
    case Add(time, etype, data, data2) => Schedule(w, time, etype, data, data2)
    case RemoveData(d) => MarkAll(w, w.main, ByData(d))
    case RemoveType(t, m) => if t < |w.types| then MarkAll(w, w.types[t], m) else w
  }

  function Perform(w: Wheel, actions: seq<Action>): Wheel
    decreases |actions|
  {
    if actions == [] then w else Perform(Apply(w, actions[0]), actions[1..])
  }

  /** event_delete for a node of the slot being run */
  function Delete(w: Wheel, e: Addr): Wheel {
    var ev := Get(w, e);
    w.(main := Without(w.main, e),
       types := if ev.etype < |w.types| then w.types[ev.etype := Without(w.types[ev.etype], e)] else w.types,
       slots := w.slots[Spot(w.tick) := Without(w.slots[Spot(w.tick)], e)],
       free := [e] + w.free,
       life := Note(w.life, ev.serial, Reaped(w.tick)))
  }

  /** The call of an event's function, with whatever its handler does. */
  function Call(w: Wheel, e: Addr, plan: Plan): Wheel {
    Perform(w.(life := Note(w.life, Get(w, e).serial, Called(w.tick))), plan(Get(w, e).serial))
  }

  /** One round of the loop of event_run: left for a later tick, reaped, or called and taken off. */
  function WalkOne(w: Wheel, e: Addr, plan: Plan): Wheel {
    if Get(w, e).due > w.tick && !Get(w, e).zombie then w
    else if Get(w, e).zombie then Delete(w.(zombies := w.zombies + 1), e)
    else
      var called := Call(w, e, plan);
      Delete(called.(executed := called.executed + 1), e)
  }

  /** The walk of event_run along the rest of its slot. */
  function Walk(w: Wheel, todo: seq<Addr>, plan: Plan): Wheel
    decreases |todo|
  {
    if todo == [] then w else Walk(WalkOne(w, todo[0], plan), todo[1..], plan)
  }

  /** event_run */
  function Run(w: Wheel, plan: Plan): Wheel {
    var w1 := w.(tick := w.tick + 1);
    Walk(w1, w1.slots[Spot(w1.tick)], plan)
  }

  /** One round of the loop of event_run_by_type: the event is called and becomes a zombie. */
  function TypeOne(w: Wheel, e: Addr, plan: Plan): Wheel {
    if Get(w, e).zombie then w else Mark(Call(w, e, plan), e)
  }

  /** The walk of event_run_by_type along the rest of its list. */
  function WalkType(w: Wheel, todo: seq<Addr>, plan: Plan): Wheel
    decreases |todo|
  {
    if todo == [] then w else WalkType(TypeOne(w, todo[0], plan), todo[1..], plan)
  }

  /** How many events that walk calls. */
  function Ran(w: Wheel, todo: seq<Addr>, plan: Plan): nat
    decreases |todo|
  {
    if todo == [] then 0 else (if Get(w, todo[0]).zombie then 0 else 1) + Ran(TypeOne(w, todo[0], plan), todo[1..], plan)
  }

  /** event_run_by_type */
  function RunByType(w: Wheel, t: nat, plan: Plan): Wheel {
    if t < |w.types| then WalkType(w, w.types[t], plan) else w
  }

  datatype Step = Do(action: Action) | Tick(plan: Plan) | ByType(t: nat, typePlan: Plan)

  function Next(w: Wheel, s: Step): Wheel {
    match s
    case Do(a) => Apply(w, a)
    case Tick(plan) => Run(w, plan)
    case ByType(t, plan) => RunByType(w, t, plan)
  }

  /** The wheel after a whole run from the empty wheel. */
  function After(steps: seq<Step>): Wheel {
    if steps == [] then Init() else Next(After(steps[..|steps| - 1]), steps[|steps| - 1])
  }

  // ------------------------------------------------------------------ the lists agree

  /** Every list of the wheel holds the right nodes, each node on each of its lists exactly once. */
  ghost predicate Shape(w: Wheel) {
    && Distinct(w.main) && FreeShape(w) && SlotShape(w) && TypeShape(w)
    && (forall a :: a in w.main ==> Placed(w, a))
  }

  ghost predicate FreeShape(w: Wheel) {
    Distinct(w.free) && w.top != NULL && forall a :: a in w.free ==> NULL != a < w.top
  }

  ghost predicate SlotShape(w: Wheel) {
    && (forall i :: 0 <= i < SLOTS ==> Distinct(w.slots[i]))
    && (forall i, a :: 0 <= i < SLOTS && a in w.slots[i] ==> a in w.main && Spot(Get(w, a).due) == i)
  }

  ghost predicate TypeShape(w: Wheel) {
    && (forall t :: 0 <= t < |w.types| ==> Distinct(w.types[t]))
    && (forall t, a :: 0 <= t < |w.types| && a in w.types[t] ==> a in w.main && Get(w, a).etype == t)
  }

  /** A pending node: allocated, not free, in the slot of its tick and in the list of its type. */
  ghost predicate Placed(w: Wheel, a: Addr) {
    && NULL != a < w.top && a in w.rec && a !in w.free
    && a in w.slots[Spot(w.rec[a].due)]
    && w.rec[a].etype < |w.types| && a in w.types[w.rec[a].etype]
  }

  // ------------------------------------------------------------------ the life of an event

  /** The first tick after z whose slot is the slot of tick `due`. */
  function Visit(z: int, due: int): int { z + 1 + (due - z - 1) % SLOTS }

  /** The journal of an event that is still pending. */
  ghost predicate Pending(h: seq<Stamp>, ev: Event, tick: int, inTodo: bool, running: bool) {
    && (tick < ev.due || (tick == ev.due && (inTodo || running)))
    && if !ev.zombie then h == (if running then [Called(tick)] else []) else
         exists z :: WasMarked(h, z) && z <= tick && (tick < Visit(z, ev.due) || (inTodo && tick == Visit(z, ev.due)))
  }

  ghost predicate WasMarked(h: seq<Stamp>, z: int) {
    h == [Marked(z)] || h == [Called(z), Marked(z)]
  }

  /** The journal of an event that is off the lists. */
  ghost predicate Gone(h: seq<Stamp>, due: int, tick: int) {
    || (h == [Called(due), Reaped(due)] && due <= tick)
    || (exists z, r :: WasReaped(h, z, r) && z <= r <= z + SLOTS && r <= tick && r <= due)
  }

  ghost predicate WasReaped(h: seq<Stamp>, z: int, r: int) {
    h == [Marked(z), Reaped(r)] || h == [Called(z), Marked(z), Reaped(r)]
  }

  /** What happened so far to the event of the s-th request. */
  function Journal(w: Wheel, s: nat): seq<Stamp> {
    if s < |w.life| then w.life[s] else []
  }

  ghost predicate Holds(w: Wheel, s: nat) {
    exists a :: a in w.main && Get(w, a).serial == s
  }

  /** All journals are in order, while the addresses `todo` are still to be walked and `run` is being called. */
  ghost predicate Lives(w: Wheel, todo: seq<Addr>, run: Addr) {
    Filed(w) && OneEach(w) && Waiting(w, todo, run) && Accounted(w)
  }

  /** Every pending event carries the serial and the tick of one of the requests, and what that one described. */
  ghost predicate Filed(w: Wheel) {
    && |w.life| == |w.requests| == w.scheduled
    && forall a :: a in w.main ==> Get(w, a).serial < |w.requests| && Asked(w.requests[Get(w, a).serial], Get(w, a))
  }

  ghost predicate Asked(r: Request, ev: Event) {
    ev.due == Due(r) && ev.etype == r.etype && ev.data == r.data && ev.data2 == r.data2
  }

  ghost predicate OneEach(w: Wheel) {
    forall a, b :: a in w.main && b in w.main && a != b ==> Get(w, a).serial != Get(w, b).serial
  }

  ghost predicate Waiting(w: Wheel, todo: seq<Addr>, run: Addr) {
    forall a :: a in w.main ==> Pending(Journal(w, Get(w, a).serial), Get(w, a), w.tick, a in todo, a == run)
  }

  /** Every request is still pending or has come to its end. */
  ghost predicate Accounted(w: Wheel) {
    forall s :: 0 <= s < |w.requests| ==> Holds(w, s) || Gone(Journal(w, s), Due(w.requests[s]), w.tick)
  }

  /** What is still to be walked: distinct pending nodes of the current slot. */
  ghost predicate Ahead(w: Wheel, todo: seq<Addr>) {
    Distinct(todo) && forall a :: a in todo ==> a in w.main && Spot(Get(w, a).due) == Spot(w.tick)
  }

  ghost predicate Counted(w: Wheel) {
    w.scheduled == w.executed + w.zombies + |w.main|
  }

  ghost predicate Inv(w: Wheel, todo: seq<Addr>, run: Addr) {
    Shape(w) && Lives(w, todo, run) && Ahead(w, todo) && Counted(w) && (run == NULL || run in w.main)
  }

  // ------------------------------------------------------------------ event_add keeps the invariant

  /** Serials that stay on the main list are still held. */
  lemma StillHeld(w: Wheel, w': Wheel, gone: int)
    requires forall b :: b in w.main && Get(w, b).serial != gone ==> b in w'.main && Get(w', b).serial == Get(w, b).serial
    ensures forall s :: Holds(w, s) && s != gone ==> Holds(w', s)
  {
    forall s | Holds(w, s) && s != gone ensures Holds(w', s) {
      var b :| b in w.main && Get(w, b).serial == s;
      assert b in w'.main && Get(w', b).serial == s;
    }
  }

  /** The node event_add takes is on no list. */
  lemma ScheduleNode(w: Wheel, time: int, etype: nat, data: int, data2: int)
    requires Shape(w)
    ensures var w' := Schedule(w, time, etype, data, data2); var e := w'.main[0];
            && NULL != e < w'.top && e !in w.main && e !in w'.free && FreeShape(w') && w.top <= w'.top
            && (forall a :: a in w'.free ==> a in w.free)
            && (forall a :: a in w.main ==> Get(w', a) == Get(w, a) && a in w'.rec)
  {
    var w' := Schedule(w, time, etype, data, data2);
    var e := w'.main[0];
    if w.free != [] { DistinctTail(w.free); }
    forall a | a in w.main ensures a != e { assert Placed(w, a); }
    forall a | a in w.main ensures a in w.rec { assert Placed(w, a); }
  }

  lemma ScheduleSlots(w: Wheel, time: int, etype: nat, data: int, data2: int)
    requires Shape(w)
    ensures SlotShape(Schedule(w, time, etype, data, data2))
  {
    var w' := Schedule(w, time, etype, data, data2);
    var e := w'.main[0];
    var spot := Spot(w.tick + Delay(time));
    ScheduleNode(w, time, etype, data, data2);
    assert e !in w.slots[spot];
    DistinctCons(e, w.slots[spot]);
    forall i, a | 0 <= i < SLOTS && a in w'.slots[i] ensures a in w'.main && Spot(Get(w', a).due) == i {
      if a != e { assert a in w.slots[i]; }
    }
  }

  lemma ScheduleTypes(w: Wheel, time: int, etype: nat, data: int, data2: int)
    requires Shape(w)
    ensures TypeShape(Schedule(w, time, etype, data, data2))
  {
    var w' := Schedule(w, time, etype, data, data2);
    var e := w'.main[0];
    ScheduleNode(w, time, etype, data, data2);
    var grown := GrowTypes(w.types, etype);
    assert e !in grown[etype];
    DistinctCons(e, grown[etype]);
    forall k, a | 0 <= k < |w'.types| && a in w'.types[k] ensures a in w'.main && Get(w', a).etype == k {
      if a != e { assert k < |w.types| && a in w.types[k]; }
    }
  }

  lemma ScheduleShape(w: Wheel, time: int, etype: nat, data: int, data2: int)
    requires Shape(w)
    ensures Shape(Schedule(w, time, etype, data, data2))
  {
    hide FreeShape, SlotShape, TypeShape;
    var w' := Schedule(w, time, etype, data, data2);
    var e := w'.main[0];
    ScheduleNode(w, time, etype, data, data2);
    ScheduleSlots(w, time, etype, data, data2);
    ScheduleTypes(w, time, etype, data, data2);
    DistinctCons(e, w.main);
    forall a | a in w'.main ensures Placed(w', a) {
      if a != e { assert Placed(w, a); }
    }
  }

  lemma ScheduleLives(w: Wheel, todo: seq<Addr>, run: Addr, time: int, etype: nat, data: int, data2: int)
    requires Lives(w, todo, run) && (run == NULL || run in w.main) && (forall a :: a in todo ==> a in w.main)
    requires var w' := Schedule(w, time, etype, data, data2);
             && w'.main[0] != NULL && w'.main[0] !in w.main
             && forall a :: a in w.main ==> Get(w', a) == Get(w, a)
    ensures Lives(Schedule(w, time, etype, data, data2), todo, run)
  {
    hide Pending, Gone, Due, GrowTypes;
    var w' := Schedule(w, time, etype, data, data2);
    var e := w'.main[0];
    assert e in w'.main && Get(w', e).serial == |w.requests|;
    StillHeld(w, w', -1);
    forall s | 0 <= s < |w.requests| ensures Journal(w', s) == Journal(w, s) && w'.requests[s] == w.requests[s] { }
    assert Due(w'.requests[|w.requests|]) == Get(w', e).due by { DueOfNow(w.tick, time, etype, data, data2); }
    NewIsPending(Get(w', e), w.tick, time);
    assert e != run && e !in todo;
  }

  lemma DueOfNow(tick: int, time: int, etype: nat, data: int, data2: int)
    ensures Due(Request(tick, time, etype, data, data2)) == tick + Delay(time) > tick
  {
  }

  lemma NewIsPending(ev: Event, tick: int, time: int)
    requires !ev.zombie && ev.due == tick + Delay(time)
    ensures Pending([], ev, tick, false, false)
  {
  }

  lemma ScheduleKeeps(w: Wheel, todo: seq<Addr>, run: Addr, time: int, etype: nat, data: int, data2: int)
    requires Inv(w, todo, run)
    ensures Inv(Schedule(w, time, etype, data, data2), todo, run)
  {
    ScheduleShape(w, time, etype, data, data2);
    ScheduleNode(w, time, etype, data, data2);
    hide Shape;
    ScheduleLives(w, todo, run, time, etype, data, data2);
    hide Lives;
  }

  // ------------------------------------------------------------------ the remaining operations keep it

  /** Nothing but the zombie flag of a pending event changes, and pending events stay pending. */
  ghost predicate Stable(w: Wheel, w': Wheel) {
    && w'.tick == w.tick
    && forall a :: a in w.main ==>
         a in w'.main && Get(w', a) == Get(w, a).(zombie := Get(w', a).zombie)
         && (Get(w, a).zombie ==> Get(w', a).zombie)
  }

  /** A step that concerns a single pending event `a`: its journal grows, and it may leave the lists. */
  lemma OneEvent(w: Wheel, w': Wheel, todo: seq<Addr>, todo': seq<Addr>, run: Addr, run': Addr, a: Addr)
    requires Lives(w, todo, run) && a in w.main
    requires w'.requests == w.requests && w'.scheduled == w.scheduled && w'.tick == w.tick && |w'.life| == |w.life|
    requires forall b :: b in w'.main ==> b in w.main
    requires forall b :: b in w.main && b != a ==>
               b in w'.main && Get(w', b) == Get(w, b) && (b in todo' <==> b in todo) && (b == run' <==> b == run)
    requires forall s :: 0 <= s < |w.requests| && s != Get(w, a).serial ==> Journal(w', s) == Journal(w, s)
    requires Get(w', a) == Get(w, a).(zombie := Get(w', a).zombie)
    requires a in w'.main ==> Pending(Journal(w', Get(w, a).serial), Get(w', a), w.tick, a in todo', a == run')
    requires a !in w'.main ==> Gone(Journal(w', Get(w, a).serial), Get(w, a).due, w.tick)
    ensures Lives(w', todo', run')
  {
    hide Pending, Gone;
    StillHeld(w, w', if a in w'.main then -1 else Get(w, a).serial);
  }

  lemma NowMarked(h: seq<Stamp>, ev: Event, tick: int, inTodo: bool, running: bool)
    requires Pending(h, ev, tick, inTodo, running) && !ev.zombie
    ensures Pending(h + [Marked(tick)], ev.(zombie := true), tick, inTodo, running)
  {
    assert WasMarked(h + [Marked(tick)], tick);
    assert Visit(tick, ev.due) > tick;
  }

  lemma MarkLives(w: Wheel, a: Addr, todo: seq<Addr>, run: Addr)
    requires Lives(w, todo, run) && a in w.main && a in w.rec && !Get(w, a).zombie
    ensures Lives(Mark(w, a), todo, run)
  {
    hide Asked, Due, Gone;
    var w', ev := Mark(w, a), Get(w, a);
    NowMarked(Journal(w, ev.serial), ev, w.tick, a in todo, a == run);
    assert Journal(w', ev.serial) == Journal(w, ev.serial) + [Marked(w.tick)];
    hide Pending;
    OneEvent(w, w', todo, todo, run, run, a);
  }

  lemma MarkKeeps(w: Wheel, a: Addr, todo: seq<Addr>, run: Addr)
    requires Inv(w, todo, run) && a in w.main
    ensures Inv(Mark(w, a), todo, run) && Mark(w, a).main == w.main && Stable(w, Mark(w, a))
    ensures Get(Mark(w, a), a).zombie
  {
    var w' := Mark(w, a);
    assert a in w.rec by { assert Placed(w, a); }
    hide Shape, Lives;
    if !Get(w, a).zombie {
      SameShape(w, w');
      MarkLives(w, a, todo, run);
    }
  }

  lemma {:induction false} MarkAllKeeps(w: Wheel, list: seq<Addr>, m: Matcher, todo: seq<Addr>, run: Addr)
    requires Inv(w, todo, run) && forall a :: a in list ==> a in w.main
    ensures Inv(MarkAll(w, list, m), todo, run) && Stable(w, MarkAll(w, list, m))
    decreases |list|
  {
    if list != [] {
      assert list[0] in list && forall a :: a in list[1..] ==> a in list;
      MarkKeeps(w, list[0], todo, run);
      MarkAllKeeps(if Matches(m, Get(w, list[0])) then Mark(w, list[0]) else w, list[1..], m, todo, run);
    }
  }

  lemma ApplyKeeps(w: Wheel, a: Action, todo: seq<Addr>, run: Addr)
    requires Inv(w, todo, run)
    ensures Inv(Apply(w, a), todo, run) && Stable(w, Apply(w, a))
  {
    match a
    case Add(time, etype, data, data2) =>
      ScheduleKeeps(w, todo, run, time, etype, data, data2);
      var e := Schedule(w, time, etype, data, data2).main[0];
      assert w.free != [] ==> w.free[0] in w.free;
      forall b | b in w.main ensures b != e { assert Placed(w, b); }
    case RemoveData(d) => MarkAllKeeps(w, w.main, ByData(d), todo, run);
    case RemoveType(t, m) => if t < |w.types| { MarkAllKeeps(w, w.types[t], m, todo, run); }
  }

  /** Whatever a handler does, the invariant holds and the walk ahead is untouched. */
  lemma {:induction false} PerformKeeps(w: Wheel, actions: seq<Action>, todo: seq<Addr>, run: Addr)
    requires Inv(w, todo, run)
    ensures Inv(Perform(w, actions), todo, run) && Stable(w, Perform(w, actions))
    decreases |actions|
  {
    if actions != [] {
      ApplyKeeps(w, actions[0], todo, run);
      PerformKeeps(Apply(w, actions[0]), actions[1..], todo, run);
    }
  }

  lemma StartCall(w: Wheel, todo: seq<Addr>, e: Addr)
    requires Inv(w, todo, NULL) && e in w.main && !Get(w, e).zombie
    ensures Inv(w.(life := Note(w.life, Get(w, e).serial, Called(w.tick))), Without(todo, e), e)
  {
    WithoutDistinct(todo, e);
    NullIsNowhere(w);
    var w' := w.(life := Note(w.life, Get(w, e).serial, Called(w.tick)));
    SameShape(w, w');
    hide Shape;
    var ev := Get(w, e);
    assert Journal(w', ev.serial) == Journal(w, ev.serial) + [Called(w.tick)];
    assert Pending(Journal(w', ev.serial), ev, w.tick, false, true);
    hide Pending;
    OneEvent(w, w', todo, Without(todo, e), NULL, e, e);
    hide Lives;
  }

  /** Shape is about the lists and where each event belongs, nothing else. */
  lemma SameShape(w: Wheel, w': Wheel)
    requires Shape(w)
    requires w'.main == w.main && w'.slots == w.slots && w'.types == w.types && w'.free == w.free && w'.top == w.top
    requires w'.rec.Keys == w.rec.Keys
    requires forall a :: a in w.rec ==> w'.rec[a].due == w.rec[a].due && w'.rec[a].etype == w.rec[a].etype
    ensures Shape(w')
  {
    forall a | a in w'.main ensures Placed(w', a) { assert Placed(w, a); }
    forall a | a in w.main ensures Get(w', a).due == Get(w, a).due && Get(w', a).etype == Get(w, a).etype { assert Placed(w, a); }
  }

  lemma CallKeeps(w: Wheel, todo: seq<Addr>, e: Addr, plan: Plan)
    requires Inv(w, todo, NULL) && e in w.main && !Get(w, e).zombie
    ensures Inv(Call(w, e, plan), Without(todo, e), e) && Stable(w, Call(w, e, plan))
  {
    StartCall(w, todo, e);
    PerformKeeps(w.(life := Note(w.life, Get(w, e).serial, Called(w.tick))), plan(Get(w, e).serial), Without(todo, e), e);
  }

  lemma VisitBounds(z: int, due: int)
    ensures z < Visit(z, due) <= z + SLOTS && Spot(Visit(z, due)) == Spot(due)
  {
    var k := due - z - 1;
    assert Visit(z, due) == due - (k - k % SLOTS) && k - k % SLOTS == SLOTS * (k / SLOTS);
    SpotShift(due, k / SLOTS);
  }

  lemma SpotShift(due: int, q: int)
    ensures Spot(due - SLOTS * q) == Spot(due)
  {
  }

  lemma DeleteShape(w: Wheel, e: Addr)
    requires Shape(w) && e in w.main && Spot(Get(w, e).due) == Spot(w.tick)
    ensures Shape(Delete(w, e))
  {
    var w' := Delete(w, e);
    assert Placed(w, e);
    WithoutDistinct(w.main, e);
    DistinctCons(e, w.free);
    DeleteLists(w, e);
    hide SlotShape, TypeShape;
    forall a | a in w'.main ensures Placed(w', a) { assert Placed(w, a); }
  }

  lemma DeleteLists(w: Wheel, e: Addr)
    requires SlotShape(w) && TypeShape(w) && Placed(w, e) && Spot(Get(w, e).due) == Spot(w.tick)
    ensures SlotShape(Delete(w, e)) && TypeShape(Delete(w, e))
  {
    WithoutDistinct(w.slots[Spot(w.tick)], e);
    WithoutDistinct(w.types[Get(w, e).etype], e);
    DeleteSlots(w, Delete(w, e), e);
    DeleteTypes(w, Delete(w, e), e);
  }

  lemma DeleteSlots(w: Wheel, w': Wheel, e: Addr)
    requires SlotShape(w) && Placed(w, e) && w'.rec == w.rec
    requires var spot := Spot(Get(w, e).due);
             && w'.slots == w.slots[spot := w'.slots[spot]] && Distinct(w'.slots[spot])
             && forall a :: a in w'.slots[spot] <==> a in w.slots[spot] && a != e
    requires forall a :: a in w'.main <==> a in w.main && a != e
    ensures SlotShape(w')
  {
    forall i, a | 0 <= i < SLOTS && a in w'.slots[i] ensures a in w.slots[i] && a != e { }
  }

  lemma DeleteTypes(w: Wheel, w': Wheel, e: Addr)
    requires TypeShape(w) && Placed(w, e) && w'.rec == w.rec
    requires var t := Get(w, e).etype;
             && |w'.types| == |w.types| && w'.types == w.types[t := w'.types[t]] && Distinct(w'.types[t])
             && forall a :: a in w'.types[t] <==> a in w.types[t] && a != e
    requires forall a :: a in w'.main <==> a in w.main && a != e
    ensures TypeShape(w')
  {
    forall k, a | 0 <= k < |w'.types| && a in w'.types[k] ensures a in w.types[k] && a != e { }
  }

  /** The journal of a pending event closed by its removal. */
  lemma LifeEnds(h: seq<Stamp>, ev: Event, tick: int, inTodo: bool, running: bool)
    requires Pending(h, ev, tick, inTodo, running)
    requires ev.zombie || (running && ev.due == tick)
    ensures Gone(h + [Reaped(tick)], ev.due, tick)
  {
    if ev.zombie {
      var z :| WasMarked(h, z) && z <= tick <= Visit(z, ev.due);
      VisitBounds(z, ev.due);
      assert WasReaped(h + [Reaped(tick)], z, tick);
    }
  }

  /** Counting the event before it is taken off changes no list and no journal. */
  lemma CountOne(w: Wheel, todo: seq<Addr>, run: Addr, executed: int, zombies: int)
    requires Inv(w, todo, run)
    ensures var v := w.(executed := executed, zombies := zombies); Shape(v) && Lives(v, todo, run) && Ahead(v, todo)
  {
    var v := w.(executed := executed, zombies := zombies);
    SameShape(w, v);
    hide Shape, Pending, Gone;
    forall b | b in w.main ensures Get(v, b) == Get(w, b) { }
    forall s | 0 <= s < |w.requests| ensures Journal(v, s) == Journal(w, s) { }
    StillHeld(w, v, -1);
  }

  lemma DeleteLives(w: Wheel, todo: seq<Addr>, run: Addr, e: Addr)
    requires Lives(w, todo, run) && e in w.main && NULL !in w.main && (run == NULL || run == e)
    requires Get(w, e).zombie || (run == e && Get(w, e).due == w.tick)
    ensures Lives(Delete(w, e), Without(todo, e), NULL)
  {
    var w' := Delete(w, e);
    var ev := Get(w, e);
    LifeEnds(Journal(w, ev.serial), ev, w.tick, e in todo, e == run);
    assert Journal(w', ev.serial) == Journal(w, ev.serial) + [Reaped(w.tick)];
    assert w'.rec == w.rec && ev.serial < |w.life|;
    hide Pending, Gone;
    OneEvent(w, w', todo, Without(todo, e), run, NULL, e);
  }

  lemma NullIsNowhere(w: Wheel)
    requires Shape(w)
    ensures NULL !in w.main
  {
    assert NULL in w.main ==> Placed(w, NULL);
  }

  /** Taking the event being walked off the lists. */
  lemma DeleteKeeps(w: Wheel, todo: seq<Addr>, run: Addr, e: Addr)
    requires Shape(w) && Lives(w, todo, run) && Ahead(w, todo) && e in w.main && (run == NULL || run == e)
    requires Spot(Get(w, e).due) == Spot(w.tick)
    requires Get(w, e).zombie || (run == e && Get(w, e).due == w.tick)
    requires w.scheduled + 1 == w.executed + w.zombies + |w.main|
    ensures Inv(Delete(w, e), Without(todo, e), NULL)
  {
    hide Shape, Lives, Ahead;
    DeleteShape(w, e);
    DeleteMain(w, todo, e);
    NullIsNowhere(w);
    DeleteLives(w, todo, run, e);
  }

  lemma DeleteMain(w: Wheel, todo: seq<Addr>, e: Addr)
    requires Shape(w) && Ahead(w, todo) && e in w.main
    ensures |Delete(w, e).main| == |w.main| - 1 && Ahead(Delete(w, e), Without(todo, e))
  {
    hide SlotShape, TypeShape, FreeShape, Placed;
    WithoutDistinct(w.main, e);
    WithoutDistinct(todo, e);
  }

  lemma FireKeeps(w: Wheel, todo: seq<Addr>, e: Addr, plan: Plan)
    requires Inv(w, todo, NULL) && e in todo && !Get(w, e).zombie && Get(w, e).due <= w.tick
    ensures var c := Call(w, e, plan);
            Inv(Delete(c.(executed := c.executed + 1), e), Without(todo, e), NULL)
            && Delete(c.(executed := c.executed + 1), e).tick == w.tick
  {
    var c := Call(w, e, plan);
    CallKeeps(w, todo, e, plan);
    hide Call, Perform, Shape;
    CountOne(c, Without(todo, e), e, c.executed + 1, c.zombies);
    DeleteKeeps(c.(executed := c.executed + 1), Without(todo, e), e, e);
  }

  lemma ReapKeeps(w: Wheel, todo: seq<Addr>, e: Addr)
    requires Inv(w, todo, NULL) && e in todo && Get(w, e).zombie
    ensures Inv(Delete(w.(zombies := w.zombies + 1), e), Without(todo, e), NULL)
    ensures Delete(w.(zombies := w.zombies + 1), e).tick == w.tick
  {
    CountOne(w, todo, NULL, w.executed, w.zombies + 1);
    DeleteKeeps(w.(zombies := w.zombies + 1), todo, NULL, e);
  }

  lemma SkipKeeps(w: Wheel, todo: seq<Addr>)
    requires Inv(w, todo, NULL) && todo != [] && w.tick < Get(w, todo[0]).due && !Get(w, todo[0]).zombie
    ensures Inv(w, todo[1..], NULL)
  {
    DistinctTail(todo);
  }

  lemma HeadIsFirst(w: Wheel, todo: seq<Addr>)
    requires Inv(w, todo, NULL) && todo != []
    ensures Without(todo, todo[0]) == todo[1..]
  {
    WithoutAt(todo, 0);
  }

  lemma WalkOneKeeps(w: Wheel, todo: seq<Addr>, plan: Plan)
    requires Inv(w, todo, NULL) && todo != []
    ensures Inv(WalkOne(w, todo[0], plan), todo[1..], NULL) && WalkOne(w, todo[0], plan).tick == w.tick
  {
    hide Inv, Delete, Call;
    var e := todo[0];
    HeadIsFirst(w, todo);
    if Get(w, e).due > w.tick && !Get(w, e).zombie {
      SkipKeeps(w, todo);
    } else if Get(w, e).zombie {
      ReapKeeps(w, todo, e);
    } else {
      FireKeeps(w, todo, e, plan);
    }
  }

  lemma {:induction false} WalkKeeps(w: Wheel, todo: seq<Addr>, plan: Plan)
    requires Inv(w, todo, NULL)
    ensures Inv(Walk(w, todo, plan), [], NULL) && Walk(w, todo, plan).tick == w.tick
    decreases |todo|
  {
    if todo != [] {
      WalkOneKeeps(w, todo, plan);
      WalkKeeps(WalkOne(w, todo[0], plan), todo[1..], plan);
    }
  }

  lemma TurnKeeps(w: Wheel)
    requires Inv(w, [], NULL)
    ensures var w1 := w.(tick := w.tick + 1); Inv(w1, w1.slots[Spot(w1.tick)], NULL)
  {
    var w1 := w.(tick := w.tick + 1);
    var todo := w1.slots[Spot(w1.tick)];
    forall a | a in w1.main
      ensures Placed(w1, a) && Get(w1, a) == Get(w, a)
      ensures Pending(Journal(w1, Get(w1, a).serial), Get(w1, a), w1.tick, a in todo, false)
    {
      assert Placed(w, a);
      var ev := Get(w, a);
      if ev.zombie {
        var z :| WasMarked(Journal(w, ev.serial), z) && z <= w.tick < Visit(z, ev.due);
        VisitBounds(z, ev.due);
      }
    }
    StillHeld(w, w1, -1);
    forall s | 0 <= s < |w1.requests| ensures Holds(w1, s) || Gone(Journal(w1, s), Due(w1.requests[s]), w1.tick) { }
  }

  lemma RunKeeps(w: Wheel, plan: Plan)
    requires Inv(w, [], NULL)
    ensures Inv(Run(w, plan), [], NULL)
  {
    TurnKeeps(w);
    var w1 := w.(tick := w.tick + 1);
    WalkKeeps(w1, w1.slots[Spot(w1.tick)], plan);
  }

  lemma EndCall(w: Wheel, e: Addr)
    requires Inv(w, [], e) && Get(w, e).zombie && w.tick < Get(w, e).due
    ensures Inv(w, [], NULL)
  {
  }

  lemma TypeOneKeeps(w: Wheel, e: Addr, plan: Plan)
    requires Inv(w, [], NULL) && e in w.main
    ensures Inv(TypeOne(w, e, plan), [], NULL) && Stable(w, TypeOne(w, e, plan))
  {
    if !Get(w, e).zombie {
      var c := Call(w, e, plan);
      CallKeeps(w, [], e, plan);
      MarkKeeps(c, e, [], e);
      EndCall(Mark(c, e), e);
    }
  }

  lemma {:induction false} WalkTypeKeeps(w: Wheel, todo: seq<Addr>, plan: Plan)
    requires Inv(w, [], NULL) && forall a :: a in todo ==> a in w.main
    ensures Inv(WalkType(w, todo, plan), [], NULL)
    decreases |todo|
  {
    if todo != [] {
      assert todo[0] in todo && forall a :: a in todo[1..] ==> a in todo;
      TypeOneKeeps(w, todo[0], plan);
      WalkTypeKeeps(TypeOne(w, todo[0], plan), todo[1..], plan);
    }
  }

  lemma NextKeeps(w: Wheel, s: Step)
    requires Inv(w, [], NULL)
    ensures Inv(Next(w, s), [], NULL)
  {
    match s
    case Do(a) => ApplyKeeps(w, a, [], NULL);
    case Tick(plan) => RunKeeps(w, plan);
    case ByType(t, plan) => if t < |w.types| { WalkTypeKeeps(w, w.types[t], plan); }
  }

  // ------------------------------------------------------------------ journals are only ever extended

  ghost predicate Grows(w: Wheel, w': Wheel) {
    && w.tick <= w'.tick && w.requests <= w'.requests && |w.life| <= |w'.life|
    && forall s :: 0 <= s < |w.life| ==> w.life[s] <= w'.life[s]
  }

  lemma {:induction false} MarkAllGrows(w: Wheel, list: seq<Addr>, m: Matcher)
    ensures Grows(w, MarkAll(w, list, m))
    decreases |list|
  {
    if list != [] { MarkAllGrows(if Matches(m, Get(w, list[0])) then Mark(w, list[0]) else w, list[1..], m); }
  }

  lemma {:induction false} PerformGrows(w: Wheel, actions: seq<Action>)
    ensures Grows(w, Perform(w, actions))
    decreases |actions|
  {
    if actions != [] {
      match actions[0] {
        case Add(_, _, _, _) =>
        case RemoveData(d) => MarkAllGrows(w, w.main, ByData(d));
        case RemoveType(t, m) => if t < |w.types| { MarkAllGrows(w, w.types[t], m); }
      }
      PerformGrows(Apply(w, actions[0]), actions[1..]);
    }
  }

  lemma CallGrows(w: Wheel, e: Addr, plan: Plan)
    ensures Grows(w, Call(w, e, plan))
  {
    PerformGrows(w.(life := Note(w.life, Get(w, e).serial, Called(w.tick))), plan(Get(w, e).serial));
  }

  lemma {:induction false} WalkGrows(w: Wheel, todo: seq<Addr>, plan: Plan)
    ensures Grows(w, Walk(w, todo, plan))
    decreases |todo|
  {
    if todo != [] {
      CallGrows(w, todo[0], plan);
      WalkGrows(WalkOne(w, todo[0], plan), todo[1..], plan);
    }
  }

  lemma {:induction false} WalkTypeGrows(w: Wheel, todo: seq<Addr>, plan: Plan)
    ensures Grows(w, WalkType(w, todo, plan))
    decreases |todo|
  {
    if todo != [] {
      CallGrows(w, todo[0], plan);
      WalkTypeGrows(TypeOne(w, todo[0], plan), todo[1..], plan);
    }
  }

  lemma NextGrows(w: Wheel, s: Step)
    ensures Grows(w, Next(w, s))
  {
    match s
    case Do(a) =>
      PerformGrows(w, [a]);
      assert Perform(w, [a]) == Apply(w, a);
    case Tick(plan) =>
      var w1 := w.(tick := w.tick + 1);
      WalkGrows(w1, w1.slots[Spot(w1.tick)], plan);
    case ByType(t, plan) => if t < |w.types| { WalkTypeGrows(w, w.types[t], plan); }
  }
}
