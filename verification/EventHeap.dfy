/**
 The timer of event/event.c on its linked nodes.  Every struct field that links nodes is a map from node
 addresses; the ghost sequences are the lists those links spell out, and `View` is the state of the value-level
 wheel.  Each method is proved to do to the view what the corresponding function of EventWheel does, while the
 links stay consistent.
 */
module EventHeap {
  import opened PointerLists
  import opened EventWheel

  /** Every head of a family of singly linked lists starts its own chain. */
  ghost predicate Chains(heads: seq<Addr>, next: map<Addr, Addr>, lists: seq<seq<Addr>>) {
    |heads| == |lists| && forall i :: 0 <= i < |lists| ==> Chain(heads[i], next, lists[i])
  }

  ghost predicate Bidirs(heads: seq<Addr>, prev: map<Addr, Addr>, next: map<Addr, Addr>, lists: seq<seq<Addr>>) {
    |heads| == |lists| && forall i :: 0 <= i < |lists| ==> Bidir(heads[i], prev, next, lists[i])
  }

  /** The k-th list of a family shares no node with the others. */
  ghost predicate Apart(lists: seq<seq<Addr>>, k: nat)
    requires k < |lists|
  {
    forall i, a :: 0 <= i < |lists| && i != k && a in lists[i] ==> a !in lists[k]
  }

  /** Only nodes of the k-th list and the node e were relinked. */
  ghost predicate Relinked(was: map<Addr, Addr>, links: map<Addr, Addr>, list: seq<Addr>, e: Addr) {
    forall x :: x in was && x !in list && x != e ==> x in links && links[x] == was[x]
  }

  /** Replacing one list of a family by another leaves the others as they were. */
  lemma ChainsReplace(heads: seq<Addr>, next: map<Addr, Addr>, next': map<Addr, Addr>, lists: seq<seq<Addr>>,
                      k: nat, head: Addr, list: seq<Addr>, e: Addr)
    requires Chains(heads, next, lists) && k < |lists| && Apart(lists, k) && Chain(head, next', list)
    requires forall i :: 0 <= i < |lists| && i != k ==> e !in lists[i]
    requires Relinked(next, next', lists[k], e)
    ensures Chains(heads[k := head], next', lists[k := list])
  {
    forall i | 0 <= i < |lists| && i != k ensures Chain(heads[i], next', lists[i]) {
      ChainFrame(heads[i], next, next', lists[i]);
    }
  }

  lemma BidirsReplace(heads: seq<Addr>, prev: map<Addr, Addr>, next: map<Addr, Addr>,
                      prev': map<Addr, Addr>, next': map<Addr, Addr>, lists: seq<seq<Addr>>,
                      k: nat, head: Addr, list: seq<Addr>, e: Addr)
    requires Bidirs(heads, prev, next, lists) && k < |lists| && Apart(lists, k) && Bidir(head, prev', next', list)
    requires forall i :: 0 <= i < |lists| && i != k ==> e !in lists[i]
    requires Relinked(next, next', lists[k], e) && Relinked(prev, prev', lists[k], e)
    ensures Bidirs(heads[k := head], prev', next', lists[k := list])
  {
    forall i | 0 <= i < |lists| && i != k ensures Bidir(heads[i], prev', next', lists[i]) {
      ChainFrame(heads[i], next, next', lists[i]);
      assert forall j :: 0 <= j < |lists[i]| ==> lists[i][j] in lists[i];
    }
  }

  ghost predicate SuffixOf(a: seq<Addr>, b: seq<Addr>) {
    |a| <= |b| && b[|b| - |a|..] == a
  }

  /** The list heads besides event_stack, and the link fields of all nodes. */
  datatype Links = Links(
    firstInType: seq<Addr>,
    eventList: Addr,
    freeList: Addr,
    next: map<Addr, Addr>,
    nextInMain: map<Addr, Addr>,
    prevInMain: map<Addr, Addr>,
    nextInType: map<Addr, Addr>,
    prevInType: map<Addr, Addr>)

  /** The links spell out the lists of a wheel. */
  ghost predicate Spell(w: Wheel, stack: seq<Addr>, l: Links) {
    && Bidir(l.eventList, l.prevInMain, l.nextInMain, w.main)
    && Bidirs(l.firstInType, l.prevInType, l.nextInType, w.types)
    && Chains(stack, l.next, w.slots)
    && Chain(l.freeList, l.next, w.free)
  }

  class Timer {
    const stack: array<Addr>
    var links: Links
    var tick: int
    var scheduled: int
    var executed: int
    var zombies: int
    /** The other fields of the nodes */
    var node: map<Addr, Event>
    var top: Addr
    /** The lists that the links spell out, and the history */
    ghost var view: Wheel

    ghost predicate Linked()
      reads this, stack
    {
      && stack.Length == SLOTS
      && Spell(view, stack[..], links)
      && view.tick == tick && view.rec == node && view.top == top
      && view.scheduled == scheduled == |view.requests| && view.executed == executed && view.zombies == zombies
    }

    /** event_initialize on a fresh timer */
    constructor ()
      ensures Linked() && view == Init() && fresh(stack)
    {
      stack := new Addr[SLOTS](i => NULL);
      links := Links([], NULL, NULL, map[], map[], map[], map[], map[]);
      tick, scheduled, executed, zombies := 0, 0, 0, 0;
      node, top := map[], 1;
      view := Init();
    }

    /** event_add */
    method EventAdd(time: int, etype: nat, data: int, data2: int)
      requires Linked() && Shape(view)
      modifies this, stack
      ensures Linked() && view == Schedule(old(view), time, etype, data, data2)
    {
      hide Shape, Spell, Schedule;
      ScheduleRecords(view, time, etype, data, data2);
      var delay := if time < 1 then 1 else time;
      var spot := (tick + delay) % SLOTS;
      var e, brk, slotHead, l := LinkNew(stack[spot], top, links, etype, spot, view, stack[..], time, data, data2);
      ghost var heads := stack[..];
      stack[spot] := slotHead;
      assert stack[..] == heads[spot := slotHead];
      node := node[e := Event(scheduled, tick + delay, etype, data, data2, false)];
      scheduled, top, links := scheduled + 1, brk, l;
      view := Schedule(view, time, etype, data, data2);
    }

    /** event_delete, for a node of the slot of the current tick */
    method EventDelete(e: Addr)
      requires Linked() && Shape(view) && e in view.main && e in node && Spot(node[e].due) == Spot(tick)
      modifies this, stack
      ensures Linked() && view == Delete(old(view), e)
    {
      hide Shape, Spell, Without;
      var fp := tick % SLOTS;
      var slotHead, l := Unlink(stack[fp], links, e, node[e].etype, fp, view, stack[..]);
      ghost var heads := stack[..];
      stack[fp] := slotHead;
      assert stack[..] == heads[fp := slotHead];
      links := l;
      view := Delete(view, e);
    }

    /** `e->flags |= FLAG_ZOMBIE` */
    method SetZombie(e: Addr)
      requires Linked() && e in node
      modifies this`node, this`view
      ensures Linked() && view == Mark(old(view), e) && node.Keys == old(node.Keys)
    {
      hide Spell;
      SpellIgnoresRecords(view, Mark(view, e), stack[..], links);
      node := node[e := node[e].(zombie := true)];
      view := Mark(view, e);
    }

    /** The loop shared by the event_remove_ functions: `follow` is the link field of the list being walked. */
    method MarkFrom(start: Addr, follow: map<Addr, Addr>, m: Matcher, ghost list: seq<Addr>)
      requires Linked() && Chain(start, follow, list) && forall a :: a in list ==> a in node
      modifies this`node, this`view
      ensures Linked() && view == MarkAll(old(view), list, m)
    {
      hide Spell, Mark;
      var e := start;
      ghost var rest := list;
      while e != NULL
        invariant Linked() && Chain(e, follow, rest) && forall a :: a in rest ==> a in node
        invariant MarkAll(view, rest, m) == MarkAll(old(view), list, m)
        decreases |rest|
      {
        if Matches(m, node[e]) { SetZombie(e); }
        ChainTail(e, follow, rest);
        rest := rest[1..];
        e := follow[e];
      }
    }

    /** event_remove_data */
    method EventRemoveData(d: int)
      requires Linked() && Shape(view)
      modifies this`node, this`view
      ensures Linked() && view == Apply(old(view), RemoveData(d))
    {
      AllAllocated(view);
      hide Shape, MarkAll, Chains, Bidirs;
      MarkFrom(links.eventList, links.nextInMain, ByData(d), view.main);
    }

    /** event_remove_type_data, event_remove_type_data2 and event_remove_type_data_data */
    method EventRemoveType(t: nat, m: Matcher)
      requires Linked() && Shape(view)
      modifies this`node, this`view
      ensures Linked() && view == Apply(old(view), RemoveType(t, m))
    {
      AllAllocated(view);
      hide Shape, MarkAll, Chains;
      if t < |links.firstInType| {
        MarkFrom(links.firstInType[t], links.nextInType, m, view.types[t]);
      }
    }

    /** One operation of a handler */
    method Operate(a: Action, ghost todo: seq<Addr>, ghost run: Addr)
      requires Linked() && Inv(view, todo, run)
      modifies this, stack
      ensures Linked() && view == Apply(old(view), a)
    {
      hide Spell, MarkAll;
      match a {
        case Add(time, etype, data, data2) => EventAdd(time, etype, data, data2);
        case RemoveData(d) => EventRemoveData(d);
        case RemoveType(t, m) => EventRemoveType(t, m);
      }
    }

    /** What a handler does while its event is called: timer operations, one after the other. */
    method Handle(actions: seq<Action>, ghost todo: seq<Addr>, ghost run: Addr)
      requires Linked() && Inv(view, todo, run)
      modifies this, stack
      ensures Linked() && view == Perform(old(view), actions)
    {
      hide Inv, Spell, Apply;
      ghost var w := view;
      var k := 0;
      assert actions[0..] == actions;
      while k < |actions|
        invariant k <= |actions| && Linked() && Inv(view, todo, run)
        invariant Perform(view, actions[k..]) == Perform(w, actions)
      {
        ApplyKeeps(view, actions[k], todo, run);
        Operate(actions[k], todo, run);
        assert actions[k..][1..] == actions[k + 1..];
        k := k + 1;
      }
    }

    /** prerun_event, the event's function, postrun_event */
    method CallEvent(e: Addr, plan: Plan, ghost todo: seq<Addr>)
      requires Linked() && Inv(view, todo, NULL) && e in view.main && e in node && !node[e].zombie
      modifies this, stack
      ensures Linked() && view == Call(old(view), e, plan)
      ensures Inv(view, Without(todo, e), e) && Stable(old(view), view) && e in view.main && e in node
    {
      hide Inv, Spell;
      ghost var w := view;
      StartCall(w, todo, e);
      CallKeeps(w, todo, e, plan);
      ghost var w1 := w.(life := Note(w.life, Get(w, e).serial, Called(w.tick)));
      SpellIgnoresRecords(w, w1, stack[..], links);
      view := w1;
      Handle(plan(node[e].serial), Without(todo, e), e);
      assert view == Call(w, e, plan);
      PendingIsAllocated(view, Without(todo, e), e, e);
    }

    /** One round of the loop of event_run */
    method RunOne(e: Addr, plan: Plan, ghost todo: seq<Addr>)
      requires Linked() && Inv(view, todo, NULL) && e in todo
      modifies this, stack
      ensures Linked() && view == WalkOne(old(view), e, plan)
    {
      hide Inv, Spell, Shape, Delete, Call;
      ghost var w := view;
      AheadIsPending(w, todo, e);
      if node[e].due > tick && !node[e].zombie {
        // due in a later turn of the wheel
      } else if node[e].zombie {
        zombies := zombies + 1;
        CountOne(view, todo, NULL, view.executed, view.zombies + 1);
        SpellIgnoresRecords(view, view.(zombies := zombies), stack[..], links);
        view := view.(zombies := zombies);
        EventDelete(e);
      } else {
        CallEvent(e, plan, todo);
        executed := executed + 1;
        CountOne(view, Without(todo, e), e, executed, view.zombies);
        SpellIgnoresRecords(view, view.(executed := executed), stack[..], links);
        view := view.(executed := executed);
        EventDelete(e);
      }
    }

    /** event_run */
    method EventRun(plan: Plan)
      requires Linked() && Inv(view, [], NULL)
      modifies this, stack
      ensures Linked() && Inv(view, [], NULL) && view == Run(old(view), plan)
    {
      hide Inv, Spell, Walk;
      TurnKeeps(view);
      tick := tick + 1;
      SpellIgnoresRecords(view, view.(tick := tick), stack[..], links);
      view := view.(tick := tick);
      var counter := tick % SLOTS;
      SlotHead(view, stack[..], links, counter);
      WalkSlot(stack[counter], counter, plan);
    }

    /** The loop of event_run */
    method WalkSlot(head: Addr, ghost counter: nat, plan: Plan)
      requires Linked() && counter == Spot(tick) && head == At(view.slots[counter], 0)
      requires Inv(view, view.slots[counter], NULL)
      modifies this, stack
      ensures Linked() && Inv(view, [], NULL) && view == Walk(old(view), old(view).slots[counter], plan)
    {
      hide Inv, Spell, WalkOne, SuffixOf;
      ghost var now := view;
      ghost var todo := view.slots[counter];
      SuffixCons(NULL, todo);
      var e := head;
      while e != NULL
        invariant Linked() && Inv(view, todo, NULL) && tick == now.tick && e == At(todo, 0)
        invariant SuffixOf(todo, view.slots[counter])
        invariant Walk(view, todo, plan) == Walk(now, now.slots[counter], plan)
        decreases |todo|
      {
        var e2 := NextOf(e, links, todo, counter, view, stack[..]);
        WalkOneKeeps(view, todo, plan);
        WalkOneSuffix(view, todo, plan);
        RunOne(e, plan, todo);
        todo := todo[1..];
        e := e2;
      }
      NoNullAhead(view, todo);
    }

    /** One round of the loop of event_run_by_type */
    method RunOneOfType(e: Addr, plan: Plan) returns (ran: nat)
      requires Linked() && Inv(view, [], NULL) && e in view.main && e in node
      modifies this, stack
      ensures Linked() && view == TypeOne(old(view), e, plan)
      ensures ran == if Get(old(view), e).zombie then 0 else 1
    {
      hide Inv, Spell, Call, Mark;
      ran := 0;
      if !node[e].zombie {
        CallEvent(e, plan, []);
        SetZombie(e);
        ran := 1;
      }
    }

    /** event_run_by_type */
    method EventRunByType(t: nat, plan: Plan) returns (ran: nat)
      requires Linked() && Inv(view, [], NULL)
      modifies this, stack
      ensures Linked() && Inv(view, [], NULL) && view == RunByType(old(view), t, plan)
      ensures ran == if t < |old(view).types| then Ran(old(view), old(view).types[t], plan) else 0
    {
      ran := 0;
      if t < |links.firstInType| {
        var e := links.firstInType[t];
        ghost var w := view;
        ghost var todo := w.types[t];
        while e != NULL
          invariant Linked() && Inv(view, [], NULL) && e == At(todo, 0)
          invariant t < |view.types| && SuffixOf(todo, view.types[t])
          invariant WalkType(view, todo, plan) == WalkType(w, w.types[t], plan)
          invariant ran + Ran(view, todo, plan) == Ran(w, w.types[t], plan)
          decreases |todo|
        {
          hide Inv, Spell, TypeOne;
          SuffixIsPending(view, todo, t);
          TypeOneKeeps(view, e, plan);
          TypeOneSuffix(view, e, plan, t);
          SuffixTrans(todo, view.types[t], TypeOne(view, e, plan).types[t]);
          var one := RunOneOfType(e, plan);
          ran := ran + one;
          e := NextInType(e, links, todo, t, view, stack[..]);
          SuffixTail(todo, view.types[t]);
          todo := todo[1..];
        }
      }
    }

    /** event_first_type_data: the shortest time left of the live events with this type and data, or -1 */
    method EventFirstTypeData(t: nat, data: int) returns (last: int)
      requires Linked() && Inv(view, [], NULL)
      ensures forall a :: a in TypeList(view, t) && Live(node, a, data) ==> 0 < last <= Get(view, a).due - tick
      ensures last == -1 || exists a :: a in TypeList(view, t) && Live(node, a, data) && last == Get(view, a).due - tick
    {
      last := -1;
      if t < |links.firstInType| {
        TypeIsAhead(view, t);
        hide Inv, Chains;
        last := ShortestLeft(links.firstInType[t], links.nextInType, node, tick, data, view.types[t]);
      }
    }

    /** event_last_type_data: the longest time left of the live events with this type and data, or 0 */
    method EventLastTypeData(t: nat, data: int) returns (last: int)
      requires Linked() && Inv(view, [], NULL)
      ensures forall a :: a in TypeList(view, t) && Live(node, a, data) ==> last >= Get(view, a).due - tick
      ensures last == 0 || exists a :: a in TypeList(view, t) && Live(node, a, data) && last == Get(view, a).due - tick
    {
      last := 0;
      if t < |links.firstInType| {
        TypeIsAhead(view, t);
        hide Inv, Chains;
        last := LongestLeft(links.firstInType[t], links.nextInType, node, tick, data, view.types[t]);
      }
    }
  }

  ghost function TypeList(w: Wheel, t: nat): seq<Addr> {
    if t < |w.types| then w.types[t] else []
  }

  ghost predicate Live(node: map<Addr, Event>, a: Addr, data: int) {
    a in node && !node[a].zombie && node[a].data == data
  }

  method ShortestLeft(head: Addr, next: map<Addr, Addr>, node: map<Addr, Event>, tick: int, data: int, ghost s: seq<Addr>)
    returns (last: int)
    requires Chain(head, next, s) && forall i :: 0 <= i < |s| ==> s[i] in node && node[s[i]].due > tick
    ensures forall a :: a in s && Live(node, a, data) ==> 0 < last <= node[a].due - tick
    ensures last == -1 || exists a :: a in s && Live(node, a, data) && last == node[a].due - tick
  {
    last := -1;
    var e := head;
    ghost var k, best := 0, 0;
    while e != NULL
      invariant k <= |s| && e == At(s, k)
      invariant forall i :: 0 <= i < k && Live(node, s[i], data) ==> 0 < last <= node[s[i]].due - tick
      invariant last == -1 || (best < k && Live(node, s[best], data) && last == node[s[best]].due - tick > 0)
      decreases |s| - k
    {
      if !node[e].zombie && node[e].data == data {
        var left := node[e].due - tick;
        if left < last || last < 0 {
          if left > 0 { last, best := left, k; }
        }
      }
      e := next[e];
      k := k + 1;
    }
  }

  method LongestLeft(head: Addr, next: map<Addr, Addr>, node: map<Addr, Event>, tick: int, data: int, ghost s: seq<Addr>)
    returns (last: int)
    requires Chain(head, next, s) && forall i :: 0 <= i < |s| ==> s[i] in node && node[s[i]].due > tick
    ensures forall a :: a in s && Live(node, a, data) ==> last >= node[a].due - tick
    ensures last == 0 || exists a :: a in s && Live(node, a, data) && last == node[a].due - tick
  {
    last := 0;
    var e := head;
    ghost var k, best := 0, 0;
    while e != NULL
      invariant k <= |s| && e == At(s, k)
      invariant forall i :: 0 <= i < k && Live(node, s[i], data) ==> last >= node[s[i]].due - tick
      invariant last == 0 || (best < k && Live(node, s[best], data) && last == node[s[best]].due - tick)
      decreases |s| - k
    {
      if !node[e].zombie && node[e].data == data {
        var left := node[e].due - tick;
        if left > last { last, best := left, k; }
      }
      e := next[e];
      k := k + 1;
    }
  }

  lemma TypeIsAhead(w: Wheel, t: nat)
    requires Inv(w, [], NULL) && t < |w.types|
    ensures forall a :: a in w.types[t] ==> a in w.rec && w.rec[a].due > w.tick
  {
    forall a | a in w.types[t] ensures a in w.rec && w.rec[a].due > w.tick {
      assert Placed(w, a);
      assert Pending(Journal(w, Get(w, a).serial), Get(w, a), w.tick, false, false);
    }
  }

  /** Reading `e->next_in_type` after the event was called */
  method NextInType(e: Addr, l: Links, ghost todo: seq<Addr>, ghost t: nat, ghost w: Wheel, ghost heads: seq<Addr>)
    returns (e2: Addr)
    requires Spell(w, heads, l) && todo != [] && e == todo[0] && t < |w.types| && SuffixOf(todo, w.types[t])
    ensures e2 == At(todo[1..], 0)
  {
    ghost var s := w.types[t];
    ghost var k := |s| - |todo|;
    assert Chain(l.firstInType[t], l.nextInType, s);
    assert s[k] == s[k..][0] == e && l.nextInType[s[k]] == At(s, k + 1);
    assert |todo| > 1 ==> s[k + 1] == s[k..][1];
    e2 := l.nextInType[e];
  }

  lemma SuffixIsPending(w: Wheel, todo: seq<Addr>, t: nat)
    requires Inv(w, [], NULL) && t < |w.types| && SuffixOf(todo, w.types[t]) && todo != []
    ensures todo[0] in w.main && todo[0] in w.rec
  {
    var s := w.types[t];
    assert todo[0] == s[|s| - |todo|..][0] == s[|s| - |todo|];
    assert todo[0] in s;
    assert Placed(w, todo[0]);
  }

  lemma TypeOneSuffix(w: Wheel, e: Addr, plan: Plan, t: nat)
    requires t < |w.types|
    ensures t < |TypeOne(w, e, plan).types| && SuffixOf(w.types[t], TypeOne(w, e, plan).types[t])
  {
    PerformTypeSuffix(w.(life := Note(w.life, Get(w, e).serial, Called(w.tick))), plan(Get(w, e).serial), t);
  }

  lemma {:induction false} PerformTypeSuffix(w: Wheel, actions: seq<Action>, t: nat)
    requires t < |w.types|
    ensures t < |Perform(w, actions).types| && SuffixOf(w.types[t], Perform(w, actions).types[t])
    decreases |actions|
  {
    if actions != [] {
      var w1 := Apply(w, actions[0]);
      match actions[0] {
        case Add(_, etype, _, _) => assert GrowTypes(w.types, etype)[t] == w.types[t];
        case RemoveData(d) => MarkAllLists(w, w.main, ByData(d));
        case RemoveType(k, m) => if k < |w.types| { MarkAllLists(w, w.types[k], m); }
      }
      PerformTypeSuffix(w1, actions[1..], t);
      SuffixTrans(w.types[t], w1.types[t], Perform(w, actions).types[t]);
    }
  }

  /** Reading `e->next` before the event is run */
  method NextOf(e: Addr, l: Links, ghost todo: seq<Addr>, ghost counter: nat, ghost w: Wheel, ghost heads: seq<Addr>)
    returns (e2: Addr)
    requires Spell(w, heads, l) && todo != [] && e == todo[0] && counter < SLOTS && SuffixOf(todo, w.slots[counter])
    ensures e2 == At(todo[1..], 0)
  {
    ghost var s := w.slots[counter];
    ghost var k := |s| - |todo|;
    assert s[k] == s[k..][0] == e && l.next[s[k]] == At(s, k + 1);
    assert |todo| > 1 ==> s[k + 1] == s[k..][1];
    e2 := l.next[e];
  }

  lemma PendingIsAllocated(w: Wheel, todo: seq<Addr>, run: Addr, e: Addr)
    requires Inv(w, todo, run) && e in w.main
    ensures e in w.rec
  {
    assert Placed(w, e);
  }

  lemma AheadIsPending(w: Wheel, todo: seq<Addr>, e: Addr)
    requires Inv(w, todo, NULL) && e in todo
    ensures e != NULL && e in w.main && e in w.rec && Spot(Get(w, e).due) == Spot(w.tick)
  {
    assert Placed(w, e);
  }

  /** Handlers only ever put events in front of a list. */
  lemma {:induction false} PerformSuffix(w: Wheel, actions: seq<Action>, i: nat)
    requires i < SLOTS
    ensures SuffixOf(w.slots[i], Perform(w, actions).slots[i])
    decreases |actions|
  {
    if actions != [] {
      var w1 := Apply(w, actions[0]);
      ApplySuffix(w, actions[0], i);
      PerformSuffix(w1, actions[1..], i);
      SuffixTrans(w.slots[i], w1.slots[i], Perform(w, actions).slots[i]);
    }
  }

  lemma {:induction false} MarkAllLists(w: Wheel, list: seq<Addr>, m: Matcher)
    ensures var w' := MarkAll(w, list, m); w'.slots == w.slots && w'.types == w.types
    decreases |list|
  {
    if list != [] { MarkAllLists(if Matches(m, Get(w, list[0])) then Mark(w, list[0]) else w, list[1..], m); }
  }

  lemma ApplySuffix(w: Wheel, a: Action, i: nat)
    requires i < SLOTS
    ensures SuffixOf(w.slots[i], Apply(w, a).slots[i])
  {
    match a
    case Add(time, etype, data, data2) =>
      var e := Schedule(w, time, etype, data, data2).main[0];
      SuffixCons(e, w.slots[i]);
    case RemoveData(d) => MarkAllLists(w, w.main, ByData(d));
    case RemoveType(t, m) => if t < |w.types| { MarkAllLists(w, w.types[t], m); }
  }

  lemma SuffixCons(e: Addr, s: seq<Addr>)
    ensures SuffixOf(s, [e] + s) && SuffixOf(s, s)
  {
  }

  lemma SuffixTrans(a: seq<Addr>, b: seq<Addr>, c: seq<Addr>)
    requires SuffixOf(a, b) && SuffixOf(b, c)
    ensures SuffixOf(a, c)
  {
    assert c[|c| - |a|..] == c[|c| - |b|..][|b| - |a|..];
  }

  lemma SuffixTail(a: seq<Addr>, b: seq<Addr>)
    requires SuffixOf(a, b) && a != []
    ensures SuffixOf(a[1..], b)
  {
    assert b[|b| - |a|..][1..] == b[|b| - |a| + 1..];
  }

  /** Deleting the first of a suffix leaves the rest of it a suffix. */
  lemma SuffixWithout(a: seq<Addr>, b: seq<Addr>)
    requires SuffixOf(a, b) && a != [] && Distinct(b)
    ensures SuffixOf(a[1..], Without(b, a[0]))
  {
    var k := |b| - |a|;
    assert b[k] == b[k..][0] == a[0];
    WithoutAt(b, k);
    assert b[k..][1..] == b[k + 1..];
  }

  lemma NoNullAhead(w: Wheel, todo: seq<Addr>)
    requires Inv(w, todo, NULL) && At(todo, 0) == NULL
    ensures todo == []
  {
    if todo != [] { AheadIsPending(w, todo, todo[0]); }
  }

  lemma SlotHead(w: Wheel, heads: seq<Addr>, l: Links, i: nat)
    requires Spell(w, heads, l) && i < SLOTS
    ensures |heads| == SLOTS && heads[i] == At(w.slots[i], 0)
  {
  }

  lemma SlotIsDistinct(w: Wheel, todo: seq<Addr>, run: Addr, i: nat)
    requires Inv(w, todo, run) && i < SLOTS
    ensures Distinct(w.slots[i])
  {
  }

  lemma CallSuffix(w: Wheel, e: Addr, plan: Plan, i: nat)
    requires i < SLOTS
    ensures SuffixOf(w.slots[i], Call(w, e, plan).slots[i])
  {
    PerformSuffix(w.(life := Note(w.life, Get(w, e).serial, Called(w.tick))), plan(Get(w, e).serial), i);
  }

  lemma WalkOneSuffix(w: Wheel, todo: seq<Addr>, plan: Plan)
    requires Inv(w, todo, NULL) && todo != [] && SuffixOf(todo, w.slots[Spot(w.tick)])
    ensures SuffixOf(todo[1..], WalkOne(w, todo[0], plan).slots[Spot(w.tick)])
  {
    hide Inv, Call, SuffixOf;
    var e, c := todo[0], Spot(w.tick);
    if Get(w, e).due > w.tick && !Get(w, e).zombie {
      SuffixTail(todo, w.slots[c]);
    } else if Get(w, e).zombie {
      SlotIsDistinct(w, todo, NULL, c);
      SuffixWithout(todo, w.slots[c]);
    } else {
      var called := Call(w, e, plan);
      AheadIsPending(w, todo, e);
      CallKeeps(w, todo, e, plan);
      CallSuffix(w, e, plan, c);
      SuffixTrans(todo, w.slots[c], called.slots[c]);
      SlotIsDistinct(called, Without(todo, e), e, c);
      SuffixWithout(todo, called.slots[c]);
    }
  }

  /** The part of event_delete that takes a node off its three lists and frees it. */
  method Unlink(head: Addr, l: Links, e: Addr, etype: nat, ghost fp: nat, ghost w: Wheel, ghost heads: seq<Addr>)
    returns (head': Addr, l': Links)
    requires Spell(w, heads, l) && Shape(w) && e in w.main && etype == Get(w, e).etype
    requires fp == Spot(w.tick) == Spot(Get(w, e).due) && head == heads[fp]
    ensures Spell(Delete(w, e), heads[fp := head'], l')
  {
    NodeIsListed(w, e);
    hide Shape, Bidir, Bidirs, Chains;
    var list, prevM, nextM := RemoveFromBidir(l.eventList, l.prevInMain, l.nextInMain, e, w.main);
    var typeHead, prevT, nextT := UnlinkType(l.firstInType, l.prevInType, l.nextInType, e, etype, w.types);
    var freeList, next;
    head', freeList, next := UnlinkSlot(head, l.freeList, l.next, e, fp, heads, w.slots, w.free);
    l' := Links(l.firstInType[etype := typeHead], list, freeList, next, nextM, prevM, nextT, prevT);
  }

  method UnlinkType(first: seq<Addr>, prev: map<Addr, Addr>, next: map<Addr, Addr>, e: Addr, t: nat, ghost types: seq<seq<Addr>>)
    returns (head: Addr, prev': map<Addr, Addr>, next': map<Addr, Addr>)
    requires Bidirs(first, prev, next, types) && t < |types| && e in types[t] && Apart(types, t)
    ensures Bidirs(first[t := head], prev', next', types[t := Without(types[t], e)])
  {
    head, prev', next' := RemoveFromBidir(first[t], prev, next, e, types[t]);
    BidirsReplace(first, prev, next, prev', next', types, t, head, Without(types[t], e), e);
  }

  method UnlinkSlot(head: Addr, freeList: Addr, next: map<Addr, Addr>, e: Addr, ghost fp: nat,
                    ghost heads: seq<Addr>, ghost slots: SlotLists, ghost free: seq<Addr>)
    returns (head': Addr, freeList': Addr, next': map<Addr, Addr>)
    requires Chains(heads, next, slots) && Chain(freeList, next, free) && fp < SLOTS && head == heads[fp]
    requires e != NULL && e in slots[fp] && e !in free && Apart(slots, fp)
    requires forall a :: a in free ==> a !in slots[fp]
    ensures Chains(heads[fp := head'], next', slots[fp := Without(slots[fp], e)])
    ensures Chain(freeList', next', [e] + free)
  {
    head', next' := RemoveFromList(head, next, e, slots[fp]);
    ghost var left := Without(slots[fp], e);
    ChainsReplace(heads, next, next', slots, fp, head', left, e);
    ChainFrame(freeList, next, next', free);
    ghost var mid := next';
    freeList', next' := AddToListHead(freeList, next', e, free);
    SpareAfter(slots, fp, e);
    ChainsFrame(heads[fp := head'], mid, next', slots[fp := left], e);
  }

  lemma SpareAfter(lists: seq<seq<Addr>>, k: nat, e: Addr)
    requires k < |lists| && e != NULL && e in lists[k] && Apart(lists, k)
    ensures Spare(lists[k := Without(lists[k], e)], e)
  {
    var left := lists[k := Without(lists[k], e)];
    forall i | 0 <= i < |left| ensures e !in left[i] {
      if i != k { assert left[i] == lists[i]; }
    }
  }

  /** A pending node is on its lists and the lists of a family are apart from each other. */
  lemma NodeIsListed(w: Wheel, e: Addr)
    requires Shape(w) && e in w.main
    ensures var fp, t := Spot(Get(w, e).due), Get(w, e).etype;
            && e != NULL && e in w.slots[fp] && t < |w.types| && e in w.types[t] && e !in w.free
            && Apart(w.slots, fp) && Apart(w.types, t)
            && forall a :: a in w.free ==> a !in w.slots[fp]
  {
    assert Placed(w, e);
    var fp, t := Spot(Get(w, e).due), Get(w, e).etype;
    SlotsApart(w, fp);
    forall i, a | 0 <= i < |w.types| && i != t && a in w.types[i] ensures a !in w.types[t] { assert Get(w, a).etype == i; }
    forall a | a in w.slots[fp] ensures a !in w.free { assert Placed(w, a); }
  }

  lemma SlotsApart(w: Wheel, k: nat)
    requires Shape(w) && k < SLOTS
    ensures Apart(w.slots, k)
  {
    forall i, a | 0 <= i < SLOTS && i != k && a in w.slots[i] ensures a !in w.slots[k] { assert Spot(Get(w, a).due) == i; }
  }

  lemma AllAllocated(w: Wheel)
    requires Shape(w)
    ensures forall a :: a in w.main ==> a in w.rec
    ensures forall t, a :: 0 <= t < |w.types| && a in w.types[t] ==> a in w.rec
  {
    forall a | a in w.main ensures a in w.rec { assert Placed(w, a); }
  }

  lemma SpellIgnoresRecords(w: Wheel, w': Wheel, stack: seq<Addr>, l: Links)
    requires Spell(w, stack, l) && w'.main == w.main && w'.types == w.types && w'.slots == w.slots && w'.free == w.free
    ensures Spell(w', stack, l)
  {
  }

  lemma ChainTail(head: Addr, next: map<Addr, Addr>, s: seq<Addr>)
    requires Chain(head, next, s) && head != NULL
    ensures s != [] && s[0] == head && head in next && Chain(next[head], next, s[1..])
  {
    forall i | 0 <= i < |s[1..]| ensures next[s[1..][i]] == At(s[1..], i + 1) { assert s[1..][i] == s[i + 1]; }
  }

  /** The part of event_add that picks a node and links it into its three lists. */
  method LinkNew(head: Addr, top: Addr, l: Links, etype: nat, ghost spot: nat, ghost w: Wheel, ghost heads: seq<Addr>,
                 ghost time: int, ghost data: int, ghost data2: int)
    returns (e: Addr, top': Addr, head': Addr, l': Links)
    requires Spell(w, heads, l) && Shape(w) && w.top == top
    requires spot == Spot(w.tick + Delay(time)) && head == heads[spot]
    ensures Spell(Schedule(w, time, etype, data, data2), heads[spot := head'], l')
    ensures e == (if w.free != [] then w.free[0] else w.top) && top' == Schedule(w, time, etype, data, data2).top
  {
    NodeIsSpare(w, etype);
    SlotsApart(w, spot);
    hide Shape, Apart, Bidir, Bidirs, Chain, Chains, Spare, GrowTypes, Delay, Schedule;
    ghost var grown := GrowTypes(w.types, etype);
    ghost var free' := if w.free == [] then [] else w.free[1..];
    var first := GrowFirst(l.firstInType, l.prevInType, l.nextInType, w.types, etype);
    var rest, next;
    e, rest, top', next := TakeNode(l.freeList, l.next, top, heads, w.slots, w.free);
    var list, prevM, nextM := AddToBidirHead(l.eventList, l.prevInMain, l.nextInMain, e, w.main);
    var typeHead, prevT, nextT := LinkType(first, l.prevInType, l.nextInType, e, etype, grown);
    head', next := LinkSlot(head, next, e, spot, heads, w.slots, rest, free');
    l' := Links(first[etype := typeHead], list, rest, next, nextM, prevM, nextT, prevT);
    ScheduleLists(w, time, etype, data, data2, e, spot);
  }

  /** What scheduling does apart from the lists */
  lemma ScheduleRecords(w: Wheel, time: int, etype: nat, data: int, data2: int)
    ensures var w' := Schedule(w, time, etype, data, data2);
      var e := if w.free != [] then w.free[0] else w.top;
      var due := w.tick + if time < 1 then 1 else time;
      && w'.rec == w.rec[e := Event(|w.requests|, due, etype, data, data2, false)]
      && w'.tick == w.tick && w'.scheduled == w.scheduled + 1 && |w'.requests| == |w.requests| + 1
      && w'.executed == w.executed && w'.zombies == w.zombies
  {
  }

  /** What scheduling does to the lists */
  lemma ScheduleLists(w: Wheel, time: int, etype: nat, data: int, data2: int, e: Addr, spot: nat)
    requires spot == Spot(w.tick + Delay(time)) && spot < |w.slots| && e == (if w.free != [] then w.free[0] else w.top)
    ensures var w' := Schedule(w, time, etype, data, data2);
      && w'.main == [e] + w.main && w'.free == (if w.free == [] then [] else w.free[1..])
      && etype < |GrowTypes(w.types, etype)|
      && w'.types == GrowTypes(w.types, etype)[etype := [e] + GrowTypes(w.types, etype)[etype]]
      && w'.slots == w.slots[spot := [e] + w.slots[spot]]
  {
  }

  /** event_first_in_type is reallocated so that `etype` is an index of it. */
  method GrowFirst(first: seq<Addr>, prev: map<Addr, Addr>, next: map<Addr, Addr>, ghost types: seq<seq<Addr>>, etype: nat)
    returns (first': seq<Addr>)
    requires Bidirs(first, prev, next, types)
    ensures Bidirs(first', prev, next, GrowTypes(types, etype))
  {
    first' := first;
    ghost var lists := types;
    while |first'| <= etype
      invariant |first| <= |first'| == |lists|
      invariant |first'| <= etype + 1 || first' == first
      invariant lists == types + seq(|lists| - |types|, i => [])
      invariant Bidirs(first', prev, next, lists)
      decreases etype + 1 - |first'|
    {
      first' := first' + [NULL];
      lists := lists + [[]];
    }
    assert lists == GrowTypes(types, etype);
  }

  /** The node event_add works on: the first of the free list, or a new one. */
  method TakeNode(freeList: Addr, next: map<Addr, Addr>, top: Addr,
                  ghost heads: seq<Addr>, ghost slots: SlotLists, ghost free: seq<Addr>)
    returns (e: Addr, freeList': Addr, top': Addr, next': map<Addr, Addr>)
    requires Chain(freeList, next, free) && Chains(heads, next, slots)
    requires Spare(slots, if free != [] then free[0] else top)
    ensures e == if free != [] then free[0] else top
    ensures top' == if free != [] then top else top + 1
    ensures var free' := if free == [] then [] else free[1..]; Chain(freeList', next', free') && e !in free'
    ensures Chains(heads, next', slots) && Spare(slots, e)
  {
    ChainDistinct(freeList, next, free);
    if freeList != NULL {
      e := freeList;
      freeList', top', next' := next[freeList], top, next;
      DistinctTail(free);
      assert forall i :: 0 <= i < |free[1..]| ==> free[1..][i] == free[i + 1];
    } else {
      e := top;
      freeList', top', next' := NULL, top + 1, next[e := NULL];
      ChainsFrame(heads, next, next', slots, e);
    }
  }

  method LinkType(first: seq<Addr>, prev: map<Addr, Addr>, next: map<Addr, Addr>, e: Addr, t: nat, ghost types: seq<seq<Addr>>)
    returns (head: Addr, prev': map<Addr, Addr>, next': map<Addr, Addr>)
    requires Bidirs(first, prev, next, types) && t < |types| && Spare(types, e)
    requires Apart(types, t)
    ensures Bidirs(first[t := head], prev', next', types[t := [e] + types[t]])
  {
    head, prev', next' := AddToBidirHead(first[t], prev, next, e, types[t]);
    BidirsReplace(first, prev, next, prev', next', types, t, head, [e] + types[t], e);
  }

  method LinkSlot(head: Addr, next: map<Addr, Addr>, e: Addr, ghost spot: nat,
                  ghost heads: seq<Addr>, ghost slots: SlotLists, ghost freeList: Addr, ghost free: seq<Addr>)
    returns (head': Addr, next': map<Addr, Addr>)
    requires Chains(heads, next, slots) && spot < SLOTS && head == heads[spot] && Spare(slots, e)
    requires Chain(freeList, next, free) && e !in free && Apart(slots, spot)
    ensures Chains(heads[spot := head'], next', slots[spot := [e] + slots[spot]])
    ensures Chain(freeList, next', free)
  {
    head', next' := AddToListHead(head, next, e, slots[spot]);
    ChainsReplace(heads, next, next', slots, spot, head', [e] + slots[spot], e);
    ChainFrame(freeList, next, next', free);
  }

  /** An address that is on none of the lists. */
  ghost predicate Spare(lists: seq<seq<Addr>>, e: Addr) {
    e != NULL && forall i :: 0 <= i < |lists| ==> e !in lists[i]
  }

  lemma ChainsFrame(heads: seq<Addr>, next: map<Addr, Addr>, next': map<Addr, Addr>, lists: seq<seq<Addr>>, e: Addr)
    requires Chains(heads, next, lists) && Spare(lists, e)
    requires forall x :: x in next && x != e ==> x in next' && next'[x] == next[x]
    ensures Chains(heads, next', lists)
  {
    forall i | 0 <= i < |lists| ensures Chain(heads[i], next', lists[i]) {
      ChainFrame(heads[i], next, next', lists[i]);
    }
  }

  /** The node event_add will take is on no list, and lists of different types are apart. */
  lemma NodeIsSpare(w: Wheel, etype: nat)
    requires Shape(w)
    ensures var e := if w.free != [] then w.free[0] else w.top; var grown := GrowTypes(w.types, etype);
            && e !in w.main && Spare(w.slots, e) && Spare(grown, e) && Apart(grown, etype)
  {
    var e := if w.free != [] then w.free[0] else w.top;
    assert w.free != [] ==> e in w.free;
    forall a | a in w.main ensures a != e { assert Placed(w, a); }
    var grown := GrowTypes(w.types, etype);
    forall i, a | 0 <= i < |grown| && a in grown[i] ensures i < |w.types| && a in w.main && Get(w, a).etype == i { }
    forall i, a | 0 <= i < |grown| && i != etype && a in grown[i] ensures a !in grown[etype] {
      assert Get(w, a).etype == i;
    }
  }
}
