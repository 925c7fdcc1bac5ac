module TimerEffects {
  /*
   What the removals of event/event.c make zombies, and what event_run_by_type calls: said of the requests event_add
   was given, without the lists and loops.
   */

  import opened EventWheel
  import opened PointerLists

  /** The event of this serial is pending and not a zombie. */
  ghost predicate Live(w: Wheel, s: nat) {
    exists a :: a in w.main && Get(w, a).serial == s && !Get(w, a).zombie
  }

  /** Which requests the four removals mean */
  predicate Names(a: Action, r: Request) {
    match a
    case Add(_, _, _, _) => false
    case RemoveData(d) => r.data == d
    case RemoveType(t, ByData(d)) => r.etype == t && r.data == d
    case RemoveType(t, ByData2(d2)) => r.etype == t && r.data2 == d2
    case RemoveType(t, ByBoth(b, b2)) => r.etype == t && r.data == b && r.data2 == b2
  }

  // ------------------------------------------------------------------ marking

  /** The stamp of a marking, if there is one */
  function Mark1(yes: bool, tick: int): seq<Stamp> { if yes then [Marked(tick)] else [] }

  /** Exactly the live nodes among `hit` became zombies, and that was noted. */
  ghost predicate Struck(w: Wheel, w': Wheel, hit: set<Addr>) {
    && w'.main == w.main && w'.tick == w.tick && w'.requests == w.requests && |w'.life| == |w.life|
    && (forall a :: a in w.main ==> StruckAt(w, w', a, a in hit))
    && (forall s: nat :: !Holds(w, s) ==> Journal(w', s) == Journal(w, s))
  }

  ghost predicate StruckAt(w: Wheel, w': Wheel, a: Addr, yes: bool) {
    var ev := Get(w, a);
    && Get(w', a) == ev.(zombie := ev.zombie || yes)
    && Journal(w', ev.serial) == Journal(w, ev.serial) + Mark1(!ev.zombie && yes, w.tick)
  }

  lemma MarkStrikes(w: Wheel, e: Addr)
    requires OneEach(w) && e in w.main && e in w.rec && Get(w, e).serial < |w.life|
    ensures Struck(w, Mark(w, e), {e})
  {
    var w', ev := Mark(w, e), Get(w, e);
    forall a | a in w.main ensures StruckAt(w, w', a, a in {e}) {
      if a != e { assert Get(w, a).serial != ev.serial; }
    }
  }

  /** A pending node is allocated, has a journal, and is what its request asked for, in the list of its type. */
  lemma NodeFacts(w: Wheel, todo: seq<Addr>, run: Addr, a: Addr)
    requires Inv(w, todo, run) && a in w.main
    ensures a in w.rec && Get(w, a).serial < |w.requests| == |w.life| && Asked(w.requests[Get(w, a).serial], Get(w, a))
    ensures forall t :: 0 <= t < |w.types| ==> (a in w.types[t] <==> Get(w, a).etype == t)
    ensures Get(w, a).etype < |w.types|
  {
    assert Placed(w, a);
    hide Lives, Ahead;
    assert Filed(w) by { LivesFiled(w, todo, run); }
  }

  lemma TypesPending(w: Wheel, todo: seq<Addr>, run: Addr)
    requires Inv(w, todo, run)
    ensures forall t, n :: 0 <= t < |w.types| && n in w.types[t] ==> n in w.main
  {
    hide Lives, Ahead, SlotShape, FreeShape, Placed;
  }

  lemma LivesFiled(w: Wheel, todo: seq<Addr>, run: Addr)
    requires Lives(w, todo, run)
    ensures Filed(w) && OneEach(w)
  {
  }

  lemma StruckTwice(w: Wheel, w1: Wheel, w2: Wheel, h1: set<Addr>, h2: set<Addr>)
    requires Struck(w, w1, h1) && Struck(w1, w2, h2)
    ensures Struck(w, w2, h1 + h2)
  {
    forall a | a in w.main ensures StruckAt(w, w2, a, a in h1 + h2) {
      assert StruckAt(w, w1, a, a in h1) && StruckAt(w1, w2, a, a in h2);
    }
    forall s: nat | !Holds(w, s) ensures Journal(w2, s) == Journal(w, s) { StruckHolds(w, w1, h1, s); }
  }

  lemma StruckHolds(w: Wheel, w': Wheel, hit: set<Addr>, s: nat)
    requires Struck(w, w', hit)
    ensures Holds(w', s) <==> Holds(w, s)
  {
    if Holds(w', s) {
      var a :| a in w'.main && Get(w', a).serial == s;
      assert StruckAt(w, w', a, a in hit);
    }
    if Holds(w, s) {
      var a :| a in w.main && Get(w, a).serial == s;
      assert StruckAt(w, w', a, a in hit);
    }
  }

  lemma NothingStruck(w: Wheel)
    ensures Struck(w, w, {})
  {
  }

  function Hits(w: Wheel, list: seq<Addr>, m: Matcher): set<Addr> { set a | a in list && Matches(m, Get(w, a)) }

  lemma StrikeOne(w: Wheel, e: Addr, m: Matcher, todo: seq<Addr>, run: Addr)
    requires Inv(w, todo, run) && e in w.main
    ensures var yes := Matches(m, Get(w, e)); var w1 := if yes then Mark(w, e) else w;
      Inv(w1, todo, run) && w1.main == w.main && Struck(w, w1, if yes then {e} else {})
  {
    MarkKeeps(w, e, todo, run);
    NodeFacts(w, todo, run, e);
    assert OneEach(w) by { hide Shape; }
    hide Inv, Struck, Mark;
    MarkStrikes(w, e);
    NothingStruck(w);
  }

  /** The loops of the removals: exactly the matching events of the list become zombies. */
  lemma {:induction false} MarkAllStrikes(w: Wheel, list: seq<Addr>, m: Matcher, todo: seq<Addr>, run: Addr)
    requires Inv(w, todo, run) && forall a :: a in list ==> a in w.main
    ensures Struck(w, MarkAll(w, list, m), Hits(w, list, m))
    decreases |list|
  {
    hide Inv, Mark, Matches;
    if list == [] {
      NothingStruck(w);
      assert Hits(w, list, m) == {};
    } else {
      var e, rest := list[0], list[1..];
      var yes := Matches(m, Get(w, e));
      var w1 := if yes then Mark(w, e) else w;
      var h1 := if yes then {e} else {};
      StrikeOne(w, e, m, todo, run);
      SameHits(w, w1, h1, rest, m);
      assert Hits(w, list, m) == h1 + Hits(w, rest, m);
      hide Struck, Hits;
      MarkAllStrikes(w1, rest, m, todo, run);
      StruckTwice(w, w1, MarkAll(w1, rest, m), h1, Hits(w1, rest, m));
    }
  }

  lemma SameHits(w: Wheel, w1: Wheel, hit: set<Addr>, list: seq<Addr>, m: Matcher)
    requires Struck(w, w1, hit) && forall a :: a in list ==> a in w.main
    ensures Hits(w1, list, m) == Hits(w, list, m)
  {
    forall a | a in list ensures Matches(m, Get(w1, a)) == Matches(m, Get(w, a)) { assert StruckAt(w, w1, a, a in hit); }
  }

  // ------------------------------------------------------------------ removals

  /** What a removal did, said of requests */
  ghost predicate Removed(w: Wheel, w': Wheel, s: nat, yes: bool) {
    && Journal(w', s) == Journal(w, s) + Mark1(Live(w, s) && yes, w.tick)
    && (Live(w', s) <==> Live(w, s) && !yes)
    && (Holds(w', s) <==> Holds(w, s))
  }

  lemma StruckSerial(w: Wheel, w': Wheel, hit: set<Addr>, s: nat, yes: bool)
    requires Struck(w, w', hit) && OneEach(w)
    requires forall a :: a in w.main && Get(w, a).serial == s ==> (a in hit <==> yes)
    ensures Removed(w, w', s, yes)
  {
    StruckHolds(w, w', hit, s);
    if Holds(w, s) {
      var a :| a in w.main && Get(w, a).serial == s;
      assert StruckAt(w, w', a, a in hit);
      assert Live(w, s) <==> !Get(w, a).zombie;
      assert Live(w', s) <==> !Get(w', a).zombie by {
        forall b | b in w'.main && Get(w', b).serial == s ensures b == a { assert StruckAt(w, w', b, b in hit); }
      }
    }
  }

  /** The nodes a removal strikes are those whose requests it names. */
  lemma RemovalStrikes(w: Wheel, a: Action, todo: seq<Addr>, run: Addr) returns (hit: set<Addr>)
    requires Inv(w, todo, run) && !a.Add?
    ensures Struck(w, Apply(w, a), hit)
    ensures forall n :: n in w.main ==> (n in hit <==> Names(a, w.requests[Get(w, n).serial]))
  {
    hide Inv, Struck, Due;
    forall n | n in w.main
      ensures Get(w, n).serial < |w.requests| && Asked(w.requests[Get(w, n).serial], Get(w, n)) && Get(w, n).etype < |w.types|
      ensures forall t :: 0 <= t < |w.types| ==> (n in w.types[t] <==> Get(w, n).etype == t)
    {
      NodeFacts(w, todo, run, n);
    }
    TypesPending(w, todo, run);
    match a
    case RemoveData(d) =>
      MarkAllStrikes(w, w.main, ByData(d), todo, run);
      hit := Hits(w, w.main, ByData(d));
    case RemoveType(t, m) =>
      if t < |w.types| {
        MarkAllStrikes(w, w.types[t], m, todo, run);
        hit := Hits(w, w.types[t], m);
      } else {
        NothingStruck(w);
        hit := {};
      }
  }

  /** Each of the four removals makes exactly the live events zombies whose requests it names, and notes it once;
      nothing else happens. */
  lemma RemovalExact(w: Wheel, a: Action, todo: seq<Addr>, run: Addr)
    requires Inv(w, todo, run) && !a.Add?
    ensures var w' := Apply(w, a);
      && w'.tick == w.tick && w'.requests == w.requests && w'.main == w.main
      && forall s: nat :: s < |w.requests| ==> Removed(w, w', s, Names(a, w.requests[s]))
  {
    var w' := Apply(w, a);
    var hit := RemovalStrikes(w, a, todo, run);
    hide Apply, Shape, Waiting, Accounted, Names, Removed;
    forall s: nat | s < |w.requests| ensures Removed(w, w', s, Names(a, w.requests[s])) {
      StruckSerial(w, w', hit, s, Names(a, w.requests[s]));
    }
  }

  // ------------------------------------------------------------------ what a handler does

  /** Some removal among the actions names this request. */
  ghost predicate NamedBy(actions: seq<Action>, r: Request) {
    exists i :: 0 <= i < |actions| && Names(actions[i], r)
  }

  /** A request makes a live event with the type and data it described; nothing else changes. */
  lemma RequestExact(w: Wheel, time: int, etype: nat, data: int, data2: int, todo: seq<Addr>, run: Addr)
    requires Inv(w, todo, run)
    ensures var w' := Schedule(w, time, etype, data, data2);
      && w'.tick == w.tick && w'.requests == w.requests + [Request(w.tick, time, etype, data, data2)]
      && Live(w', |w.requests|) && Journal(w', |w.requests|) == []
      && forall s: nat :: s < |w.requests| ==> Removed(w, w', s, false)
  {
    ScheduleNode(w, time, etype, data, data2);
    var w' := Schedule(w, time, etype, data, data2);
    var e := w'.main[0];
    assert |w.life| == |w.requests| by { hide Shape; }
    hide Inv;
    assert e in w'.main && Get(w', e).serial == |w.requests| && !Get(w', e).zombie;
    forall s: nat | s < |w.requests| ensures Removed(w, w', s, false) {
      assert Journal(w', s) == Journal(w, s);
      OneMoreNode(w, w', e, s);
    }
  }

  lemma OneMoreNode(w: Wheel, w': Wheel, e: Addr, s: nat)
    requires w'.main == [e] + w.main && Get(w', e).serial != s && forall a :: a in w.main ==> Get(w', a) == Get(w, a)
    requires Journal(w', s) == Journal(w, s)
    ensures Removed(w, w', s, false)
  {
    forall a ensures a in w'.main <==> a == e || a in w.main { }
    assert Live(w', s) <==> Live(w, s);
    assert Holds(w', s) <==> Holds(w, s);
  }

  /** No call is noted among these stamps. */
  ghost predicate NoCall(h: seq<Stamp>) { forall i :: 0 <= i < |h| ==> !h[i].Called? }

  /** The operations of a handler, on the requests that were there before them */
  lemma {:induction false} PerformExact(w: Wheel, actions: seq<Action>, todo: seq<Addr>, run: Addr)
    requires Inv(w, todo, run)
    ensures var w' := Perform(w, actions);
      && w'.tick == w.tick && w.requests <= w'.requests
      && (forall s: nat :: s < |w.requests| ==> Removed(w, w', s, NamedBy(actions, w.requests[s])))
      && (forall s: nat :: |w.requests| <= s < |w'.requests| ==> NoCall(Journal(w', s)))
    decreases |actions|
  {
    hide Inv, Names, NamedBy, NoCall;
    if actions == [] {
      forall s: nat | s < |w.requests| ensures Removed(w, w, s, NamedBy(actions, w.requests[s])) { NamedNone(w.requests[s]); }
    } else {
      var a, rest := actions[0], actions[1..];
      var w1, w' := Apply(w, a), Perform(w, actions);
      ApplyKeeps(w, a, todo, run);
      match a {
        case Add(time, etype, data, data2) => RequestExact(w, time, etype, data, data2, todo, run); NamesNone(a);
        case _ => RemovalExact(w, a, todo, run);
      }
      hide Apply, Removed;
      assert |w1.requests| > |w.requests| ==> |w1.requests| == |w.requests| + 1 && Journal(w1, |w.requests|) == [];
      PerformExact(w1, rest, todo, run);
      forall s: nat | s < |w.requests| ensures Removed(w, w', s, NamedBy(actions, w.requests[s])) {
        var r := w.requests[s];
        assert w1.requests[s] == r && actions == [a] + rest;
        NamedCons(a, rest, r);
        RemovedTwice(w, w1, w', s, Names(a, r), NamedBy(rest, r));
      }
      forall s: nat | |w.requests| <= s < |w'.requests| ensures NoCall(Journal(w', s)) {
        EmptyNoCall();
        if s < |w1.requests| { StillNoCall(w1, w', s, NamedBy(rest, w1.requests[s])); }
      }
    }
  }

  lemma EmptyNoCall() ensures NoCall([]) { }

  lemma NamedNone(r: Request) ensures !NamedBy([], r) { }

  lemma RemovedTwice(w: Wheel, w1: Wheel, w2: Wheel, s: nat, yes1: bool, yes2: bool)
    requires Removed(w, w1, s, yes1) && Removed(w1, w2, s, yes2) && w1.tick == w.tick
    ensures Removed(w, w2, s, yes1 || yes2)
  {
    hide Live, Holds;
  }

  lemma StillNoCall(w: Wheel, w': Wheel, s: nat, yes: bool)
    requires Removed(w, w', s, yes) && NoCall(Journal(w, s))
    ensures NoCall(Journal(w', s))
  {
    hide Live, Holds;
  }

  lemma NamesNone(a: Action)
    requires a.Add?
    ensures forall r :: !Names(a, r)
  {
  }

  lemma NamedCons(a: Action, rest: seq<Action>, r: Request)
    ensures NamedBy([a] + rest, r) <==> Names(a, r) || NamedBy(rest, r)
  {
    hide Names;
    var all := [a] + rest;
    if NamedBy(rest, r) {
      var i :| 0 <= i < |rest| && Names(rest[i], r);
      assert all[i + 1] == rest[i];
    }
    if NamedBy(all, r) && !Names(a, r) {
      var i :| 0 <= i < |all| && Names(all[i], r);
      assert all[i] == rest[i - 1];
    }
    assert all[0] == a;
  }

  // ------------------------------------------------------------------ event_run_by_type

  /** The serials on the rest of a list */
  function Serials(w: Wheel, list: seq<Addr>): (r: seq<nat>)
    ensures |r| == |list| && forall k :: 0 <= k < |list| ==> r[k] == Get(w, list[k]).serial
  {
    seq(|list|, k requires 0 <= k < |list| => Get(w, list[k]).serial)
  }

  /** An event live before the walk that the walk called and then marked; nothing else ever happened to it. */
  ghost predicate Fired(w: Wheel, w': Wheel, s: nat) {
    Live(w, s) && Journal(w', s) == [Called(w.tick), Marked(w.tick)]
  }

  /** The handler of an event that fired, among the first k of this order, names the request r. */
  ghost predicate Forestalled(w: Wheel, w': Wheel, order: seq<nat>, plan: Plan, k: nat, r: Request) {
    exists j :: 0 <= j < k && j < |order| && Fired(w, w', order[j]) && NamedBy(plan(order[j]), r)
  }

  /** What a walk along these serials did to the k-th of them: it was called and marked, unless it was a zombie, or a
      handler called earlier in the walk had made it one. */
  ghost predicate Turned(w: Wheel, w': Wheel, order: seq<nat>, plan: Plan, k: nat)
    requires k < |order| && order[k] < |w.requests|
  {
    Journal(w', order[k]) ==
      if !Live(w, order[k]) then Journal(w, order[k])
      else if Forestalled(w, w', order, plan, k, w.requests[order[k]]) then [Marked(w.tick)]
      else [Called(w.tick), Marked(w.tick)]
  }

  /** Between ticks nothing has happened yet to a live event. */
  lemma LiveIsFresh(w: Wheel, e: Addr)
    requires Inv(w, [], NULL) && e in w.main && !Get(w, e).zombie
    ensures Live(w, Get(w, e).serial) && Journal(w, Get(w, e).serial) == [] && e != NULL
    ensures Get(w, e).serial < |w.requests| == |w.life|
  {
    NullIsNowhere(w);
    hide Shape;
  }

  /** The state in which a handler starts */
  function Started(w: Wheel, e: Addr): Wheel { w.(life := Note(w.life, Get(w, e).serial, Called(w.tick))) }

  lemma StartedSame(w: Wheel, e: Addr, x: nat)
    ensures Live(Started(w, e), x) <==> Live(w, x)
    ensures Holds(Started(w, e), x) <==> Holds(w, x)
    ensures x != Get(w, e).serial ==> Journal(Started(w, e), x) == Journal(w, x)
    ensures x == Get(w, e).serial && x < |w.life| ==> Journal(Started(w, e), x) == Journal(w, x) + [Called(w.tick)]
  {
    assert forall a :: Get(Started(w, e), a) == Get(w, a);
  }

  /** The mark set after the call */
  lemma MarkedSerial(w: Wheel, e: Addr, todo: seq<Addr>, run: Addr, x: nat)
    requires Inv(w, todo, run) && e in w.main
    ensures Removed(w, Mark(w, e), x, x == Get(w, e).serial)
    ensures Mark(w, e).tick == w.tick && Mark(w, e).requests == w.requests
  {
    NodeFacts(w, todo, run, e);
    assert OneEach(w) by { hide Shape; }
    hide Inv, Mark, Removed;
    MarkStrikes(w, e);
    StruckSerial(w, Mark(w, e), {e}, x, x == Get(w, e).serial);
  }

  /** An event called by type: one call, one mark; its handler's removals take effect. */
  lemma TypeOneExact(w: Wheel, e: Addr, plan: Plan)
    requires Inv(w, [], NULL) && e in w.main && !Get(w, e).zombie
    ensures var w', s := TypeOne(w, e, plan), Get(w, e).serial;
      && Fired(w, w', s) && !Live(w', s)
      && w'.tick == w.tick && w.requests <= w'.requests && s < |w.requests|
      && (forall x: nat :: x < |w.requests| && x != s ==> Removed(w, w', x, NamedBy(plan(s), w.requests[x])))
      && (forall x: nat :: |w.requests| <= x < |w'.requests| ==> NoCall(Journal(w', x)))
  {
    hide Inv, Perform, Mark, Call, TypeOne, NamedBy, NoCall, Removed, Started, Live;
    var s := Get(w, e).serial;
    var w0, w' := Started(w, e), TypeOne(w, e, plan);
    LiveIsFresh(w, e);
    var c := HandlerDone(w, e, plan);
    MarkedSerial(c, e, [], e, s);
    forall x: nat | x < |w.requests| && x != s ensures Removed(w, w', x, NamedBy(plan(s), w.requests[x])) {
      MarkedSerial(c, e, [], e, x);
      RemovedTwice(w0, c, w', x, NamedBy(plan(s), w.requests[x]), false);
      StartedSame(w, e, x);
      RemovedFrom(w, w0, w', x, NamedBy(plan(s), w.requests[x]));
    }
    forall x: nat | |w.requests| <= x < |w'.requests| ensures NoCall(Journal(w', x)) {
      MarkedSerial(c, e, [], e, x);
      StillNoCall(c, w', x, x == s);
    }
    StartedSame(w, e, s);
    RemovedTwice(w0, c, w', s, NamedBy(plan(s), w.requests[s]), true);
    FullyRemoved(w0, w', s, true);
  }

  /** The state in which a handler ends, before the mark */
  lemma HandlerDone(w: Wheel, e: Addr, plan: Plan) returns (c: Wheel)
    requires Inv(w, [], NULL) && e in w.main && !Get(w, e).zombie
    ensures var w0, s := Started(w, e), Get(w, e).serial;
      && TypeOne(w, e, plan) == Mark(c, e) && Inv(c, [], e) && e in c.main && Get(c, e).serial == s
      && w0.tick == w.tick == c.tick && w.requests <= c.requests
      && (forall x: nat :: x < |w.requests| ==> Removed(w0, c, x, NamedBy(plan(s), w.requests[x])))
      && (forall x: nat :: |w.requests| <= x < |c.requests| ==> NoCall(Journal(c, x)))
  {
    var w0 := Started(w, e);
    StartCall(w, [], e);
    assert Without([], e) == [];
    hide Inv, Removed, NamedBy, NoCall;
    PerformExact(w0, plan(Get(w, e).serial), [], e);
    PerformKeeps(w0, plan(Get(w, e).serial), [], e);
    c := Perform(w0, plan(Get(w, e).serial));
  }

  lemma RemovedFrom(w: Wheel, w0: Wheel, w': Wheel, x: nat, yes: bool)
    requires Removed(w0, w', x, yes) && w0.tick == w.tick && Journal(w0, x) == Journal(w, x)
    requires (Live(w0, x) <==> Live(w, x)) && (Holds(w0, x) <==> Holds(w, x))
    ensures Removed(w, w', x, yes)
  {
    hide Live, Holds;
  }

  lemma FullyRemoved(w: Wheel, w': Wheel, x: nat, yes: bool)
    requires Removed(w, w', x, yes) && Live(w, x) && yes
    ensures Journal(w', x) == Journal(w, x) + [Marked(w.tick)] && !Live(w', x)
  {
    hide Live, Holds;
  }

  /** What the walk of event_run_by_type did to every event */
  ghost predicate Walked(w: Wheel, w': Wheel, order: seq<nat>, plan: Plan) {
    && w'.tick == w.tick && w.requests <= w'.requests
    && (forall k :: 0 <= k < |order| ==> order[k] < |w.requests| && Turned(w, w', order, plan, k))
    && (forall s: nat :: s < |w.requests| && s !in order ==>
         Journal(w', s) == Journal(w, s) + Mark1(Live(w, s) && Forestalled(w, w', order, plan, |order|, w.requests[s]), w.tick))
    && (forall s: nat :: |w.requests| <= s < |w'.requests| ==> NoCall(Journal(w', s)))
  }

  /** The head of the list was a zombie. */
  lemma WalkedPast(w: Wheel, w': Wheel, s0: nat, rest: seq<nat>, plan: Plan)
    requires Walked(w, w', rest, plan) && s0 < |w.requests| && s0 !in rest && !Live(w, s0)
    ensures Walked(w, w', [s0] + rest, plan)
  {
    var order := [s0] + rest;
    hide NamedBy, NoCall, Live;
    forall k: nat, r ensures Forestalled(w, w', order, plan, k + 1, r) <==> Forestalled(w, w', rest, plan, k, r) {
      ForestalledShift(w, w', s0, rest, plan, k, r);
    }
    forall k | 0 <= k < |order| ensures order[k] < |w.requests| && Turned(w, w', order, plan, k) {
      if k > 0 { assert Turned(w, w', rest, plan, k - 1); }
    }
  }

  lemma ForestalledShift(w: Wheel, w': Wheel, s0: nat, rest: seq<nat>, plan: Plan, k: nat, r: Request)
    ensures Forestalled(w, w', [s0] + rest, plan, k + 1, r) <==>
            (Fired(w, w', s0) && NamedBy(plan(s0), r)) || Forestalled(w, w', rest, plan, k, r)
  {
    hide Fired, NamedBy;
    var order := [s0] + rest;
    if Forestalled(w, w', rest, plan, k, r) {
      var j :| 0 <= j < k && j < |rest| && Fired(w, w', rest[j]) && NamedBy(plan(rest[j]), r);
      assert order[j + 1] == rest[j];
    }
    if Forestalled(w, w', order, plan, k + 1, r) {
      var j :| 0 <= j < k + 1 && j < |order| && Fired(w, w', order[j]) && NamedBy(plan(order[j]), r);
      assert j > 0 ==> order[j] == rest[j - 1];
    }
    assert order[0] == s0;
  }

  /** The head of the list fired, which led from w to w1, and the rest of the walk leads on to w'. */
  ghost predicate HeadFired(w: Wheel, w1: Wheel, s0: nat, plan: Plan) {
    && Fired(w, w1, s0) && !Live(w1, s0) && w1.tick == w.tick && w.requests <= w1.requests && s0 < |w.requests|
    && (forall x: nat :: x < |w.requests| && x != s0 ==> Removed(w, w1, x, NamedBy(plan(s0), w.requests[x])))
    && (forall x: nat :: |w.requests| <= x < |w1.requests| ==> NoCall(Journal(w1, x)))
    && (forall x: nat :: Live(w, x) ==> Journal(w, x) == [])
  }

  /** Who fires later fires on the whole walk, and the other way round. */
  lemma FiresLater(w: Wheel, w1: Wheel, w': Wheel, s0: nat, rest: seq<nat>, plan: Plan, k: nat)
    requires HeadFired(w, w1, s0, plan) && Walked(w1, w', rest, plan) && s0 !in rest
    requires k < |rest| && rest[k] < |w.requests|
    ensures Fired(w, w', rest[k]) <==> Fired(w1, w', rest[k])
  {
    hide NamedBy, NoCall, Forestalled, Live;
    assert Turned(w1, w', rest, plan, k) && Removed(w, w1, rest[k], NamedBy(plan(s0), w.requests[rest[k]]));
  }

  lemma ForestalledLater(w: Wheel, w1: Wheel, w': Wheel, s0: nat, rest: seq<nat>, plan: Plan, k: nat, r: Request)
    requires HeadFired(w, w1, s0, plan) && Walked(w1, w', rest, plan) && s0 !in rest
    requires forall x :: x in rest ==> x < |w.requests|
    ensures Forestalled(w, w', rest, plan, k, r) <==> Forestalled(w1, w', rest, plan, k, r)
  {
    hide HeadFired, Walked, Fired, NamedBy;
    forall j | 0 <= j < |rest| ensures Fired(w, w', rest[j]) <==> Fired(w1, w', rest[j]) {
      assert rest[j] in rest;
      FiresLater(w, w1, w', s0, rest, plan, j);
    }
  }

  /** The head itself: nothing happens to it any more. */
  lemma HeadStays(w: Wheel, w1: Wheel, w': Wheel, s0: nat, rest: seq<nat>, plan: Plan)
    requires HeadFired(w, w1, s0, plan) && Walked(w1, w', rest, plan) && s0 !in rest
    ensures Fired(w, w', s0)
  {
    hide NamedBy, NoCall, Forestalled, Live, Turned;
    assert Journal(w', s0) == Journal(w1, s0) + [];
  }

  lemma WalkedOn(w: Wheel, w1: Wheel, w': Wheel, s0: nat, rest: seq<nat>, plan: Plan)
    requires HeadFired(w, w1, s0, plan) && Walked(w1, w', rest, plan) && s0 !in rest
    requires forall x :: x in rest ==> x < |w.requests|
    ensures Walked(w, w', [s0] + rest, plan)
  {
    var order := [s0] + rest;
    HeadStays(w, w1, w', s0, rest, plan);
    forall k | 0 <= k < |order| ensures order[k] < |w.requests| && Turned(w, w', order, plan, k) {
      TurnedOn(w, w1, w', s0, rest, plan, k);
    }
    forall s: nat | s < |w.requests| && s !in order
      ensures Journal(w', s) == Journal(w, s) + Mark1(Live(w, s) && Forestalled(w, w', order, plan, |order|, w.requests[s]), w.tick)
    {
      OtherOn(w, w1, w', s0, rest, plan, s);
    }
    hide NamedBy, Forestalled, Turned, Live, Fired;
    forall s: nat | |w.requests| <= s < |w'.requests| ensures NoCall(Journal(w', s)) {
      if s < |w1.requests| && s !in rest { MoreNoCall(w1, w', s, Live(w1, s) && Forestalled(w1, w', rest, plan, |rest|, w1.requests[s])); }
    }
  }

  lemma MoreNoCall(w: Wheel, w': Wheel, s: nat, yes: bool)
    requires NoCall(Journal(w, s)) && Journal(w', s) == Journal(w, s) + Mark1(yes, w.tick)
    ensures NoCall(Journal(w', s))
  {
  }

  lemma TurnedOn(w: Wheel, w1: Wheel, w': Wheel, s0: nat, rest: seq<nat>, plan: Plan, k: nat)
    requires HeadFired(w, w1, s0, plan) && Walked(w1, w', rest, plan) && s0 !in rest && Fired(w, w', s0) && k <= |rest|
    requires forall x :: x in rest ==> x < |w.requests|
    ensures var order := [s0] + rest; order[k] < |w.requests| && Turned(w, w', order, plan, k)
  {
    var order := [s0] + rest;
    hide NamedBy, NoCall, Forestalled, Live, Removed;
    if k == 0 {
      NotBeforeFirst(w, w', order, plan, w.requests[s0]);
    } else {
      var s := rest[k - 1];
      assert order[k] == s && s in rest;
      var r := w.requests[s];
      assert w1.requests[s] == r;
      assert Turned(w1, w', rest, plan, k - 1) && Removed(w, w1, s, NamedBy(plan(s0), r)) && (Live(w, s) ==> Journal(w, s) == []);
      ForestalledShift(w, w', s0, rest, plan, k - 1, r);
      ForestalledLater(w, w1, w', s0, rest, plan, k - 1, r);
      hide Walked, HeadFired, Fired;
      TurnAfter(w, w1, w', s, NamedBy(plan(s0), r), Forestalled(w1, w', rest, plan, k - 1, r));
    }
  }

  lemma TurnAfter(w: Wheel, w1: Wheel, w': Wheel, s: nat, named: bool, later: bool)
    requires Removed(w, w1, s, named) && w1.tick == w.tick && (Live(w, s) ==> Journal(w, s) == [])
    requires Journal(w', s) == if !Live(w1, s) then Journal(w1, s) else if later then [Marked(w.tick)] else [Called(w.tick), Marked(w.tick)]
    ensures Journal(w', s) ==
      if !Live(w, s) then Journal(w, s) else if named || later then [Marked(w.tick)] else [Called(w.tick), Marked(w.tick)]
  {
    hide Live, Holds, Journal;
  }

  lemma NotBeforeFirst(w: Wheel, w': Wheel, order: seq<nat>, plan: Plan, r: Request)
    ensures !Forestalled(w, w', order, plan, 0, r)
  {
  }

  lemma OtherOn(w: Wheel, w1: Wheel, w': Wheel, s0: nat, rest: seq<nat>, plan: Plan, s: nat)
    requires HeadFired(w, w1, s0, plan) && Walked(w1, w', rest, plan) && s0 !in rest && Fired(w, w', s0)
    requires (forall x :: x in rest ==> x < |w.requests|) && s < |w.requests| && s != s0 && s !in rest
    ensures var yes := Live(w, s) && Forestalled(w, w', [s0] + rest, plan, |rest| + 1, w.requests[s]);
      Journal(w', s) == Journal(w, s) + Mark1(yes, w.tick)
  {
    hide NamedBy, NoCall, Forestalled, Live, Turned;
    var r := w.requests[s];
    assert w1.requests[s] == r && Removed(w, w1, s, NamedBy(plan(s0), r));
    ForestalledShift(w, w', s0, rest, plan, |rest|, r);
    ForestalledLater(w, w1, w', s0, rest, plan, |rest|, r);
  }

  lemma NoWalk(w: Wheel, plan: Plan)
    ensures Walked(w, w, [], plan)
  {
    forall s: nat ensures !Forestalled(w, w, [], plan, 0, if s < |w.requests| then w.requests[s] else Request(0, 0, 0, 0, 0)) { }
  }

  lemma SameSerials(w: Wheel, w1: Wheel, list: seq<Addr>)
    requires Stable(w, w1) && forall a :: a in list ==> a in w.main
    ensures (forall a :: a in list ==> a in w1.main) && Serials(w1, list) == Serials(w, list)
  {
  }

  /** Distinct nodes carry distinct serials of requests. */
  lemma HeadSerial(w: Wheel, e: Addr, rest: seq<Addr>)
    requires Inv(w, [], NULL) && e in w.main && e !in rest && forall a :: a in rest ==> a in w.main
    ensures Get(w, e).serial !in Serials(w, rest) && Get(w, e).serial < |w.requests|
    ensures forall x :: x in Serials(w, rest) ==> x < |w.requests|
  {
    assert Filed(w) && OneEach(w) by { hide Shape; }
    hide Inv;
  }

  lemma ZombieIsNotLive(w: Wheel, e: Addr)
    requires Inv(w, [], NULL) && e in w.main && Get(w, e).zombie
    ensures !Live(w, Get(w, e).serial)
  {
    assert OneEach(w) by { hide Shape; }
    hide Inv;
  }

  lemma PastZombie(w: Wheel, e: Addr, plan: Plan)
    requires Get(w, e).zombie
    ensures TypeOne(w, e, plan) == w
  {
  }

  lemma HeadFires(w: Wheel, e: Addr, plan: Plan)
    requires Inv(w, [], NULL) && e in w.main && !Get(w, e).zombie
    ensures HeadFired(w, TypeOne(w, e, plan), Get(w, e).serial, plan)
  {
    TypeOneExact(w, e, plan);
    forall x: nat | Live(w, x) ensures Journal(w, x) == [] {
      var a :| a in w.main && Get(w, a).serial == x && !Get(w, a).zombie;
      LiveIsFresh(w, a);
    }
  }

  lemma {:induction false} WalkTypeExact(w: Wheel, todo: seq<Addr>, plan: Plan)
    requires Inv(w, [], NULL) && Distinct(todo) && forall a :: a in todo ==> a in w.main
    ensures Walked(w, WalkType(w, todo, plan), Serials(w, todo), plan)
    decreases |todo|
  {
    hide Inv, Walked, HeadFired, Stable, TypeOne, Live, Fired, NamedBy, NoCall;
    var w' := WalkType(w, todo, plan);
    if todo == [] {
      NoWalk(w, plan);
      assert Serials(w, todo) == [];
    } else {
      var e, rest := todo[0], todo[1..];
      DistinctTail(todo);
      TypeOneKeeps(w, e, plan);
      var w1 := TypeOne(w, e, plan);
      assert (forall a :: a in rest ==> a in w1.main) && Serials(w1, rest) == Serials(w, rest) by { SameSerials(w, w1, rest); }
      WalkTypeExact(w1, rest, plan);
      HeadSerial(w, e, rest);
      assert Serials(w, todo) == [Get(w, e).serial] + Serials(w, rest);
      if Get(w, e).zombie {
        ZombieIsNotLive(w, e);
        assert w1 == w by { PastZombie(w, e, plan); }
        WalkedPast(w, w', Get(w, e).serial, Serials(w, rest), plan);
      } else {
        HeadFires(w, e, plan);
        WalkedOn(w, w1, w', Get(w, e).serial, Serials(w, rest), plan);
      }
    }
  }

  // ------------------------------------------------------------------ how many are called

  /** The calls noted in a journal, and in all of them */
  function CallsIn(h: seq<Stamp>): nat { if h == [] then 0 else (if h[0].Called? then 1 else 0) + CallsIn(h[1..]) }

  function Calls(life: seq<seq<Stamp>>): nat { if life == [] then 0 else CallsIn(life[0]) + Calls(life[1..]) }

  lemma {:induction false} CallsInMore(h: seq<Stamp>, x: Stamp)
    ensures CallsIn(h + [x]) == CallsIn(h) + if x.Called? then 1 else 0
  {
    if h == [] {
      assert h + [x] == [x];
    } else {
      assert (h + [x])[1..] == h[1..] + [x];
      CallsInMore(h[1..], x);
    }
  }

  lemma {:induction false} CallsNoted(life: seq<seq<Stamp>>, s: nat, x: Stamp)
    ensures Calls(Note(life, s, x)) == Calls(life) + if x.Called? && s < |life| then 1 else 0
    decreases |life|
  {
    if s < |life| {
      var life' := Note(life, s, x);
      if s == 0 {
        CallsInMore(life[0], x);
        assert life'[1..] == life[1..];
      } else {
        CallsNoted(life[1..], s - 1, x);
        assert life'[1..] == Note(life[1..], s - 1, x);
      }
    }
  }

  lemma {:induction false} CallsAdded(life: seq<seq<Stamp>>)
    ensures Calls(life + [[]]) == Calls(life)
  {
    if life == [] {
      assert life + [[]] == [[]];
      assert Calls([[]]) == CallsIn([]) + Calls([]);
    } else {
      assert (life + [[]])[1..] == life[1..] + [[]];
      CallsAdded(life[1..]);
    }
  }

  lemma MarkCalls(w: Wheel, a: Addr)
    ensures Calls(Mark(w, a).life) == Calls(w.life)
  {
    CallsNoted(w.life, Get(w, a).serial, Marked(w.tick));
  }

  lemma {:induction false} MarkAllCalls(w: Wheel, list: seq<Addr>, m: Matcher)
    ensures Calls(MarkAll(w, list, m).life) == Calls(w.life)
    decreases |list|
  {
    hide Mark, Matches, Calls;
    if list != [] {
      MarkCalls(w, list[0]);
      MarkAllCalls(if Matches(m, Get(w, list[0])) then Mark(w, list[0]) else w, list[1..], m);
    }
  }

  lemma {:induction false} PerformCalls(w: Wheel, actions: seq<Action>)
    ensures Calls(Perform(w, actions).life) == Calls(w.life)
    decreases |actions|
  {
    hide MarkAll, Calls;
    if actions != [] {
      match actions[0] {
        case Add(_, _, _, _) => CallsAdded(w.life);
        case RemoveData(d) => MarkAllCalls(w, w.main, ByData(d));
        case RemoveType(t, m) => if t < |w.types| { MarkAllCalls(w, w.types[t], m); }
      }
      PerformCalls(Apply(w, actions[0]), actions[1..]);
    }
  }

  lemma TypeOneCalls(w: Wheel, e: Addr, plan: Plan)
    requires Inv(w, [], NULL) && e in w.main
    ensures Calls(TypeOne(w, e, plan).life) == Calls(w.life) + if Get(w, e).zombie then 0 else 1
  {
    NodeFacts(w, [], NULL, e);
    hide Inv, Perform, Mark, Calls;
    CallsNoted(w.life, Get(w, e).serial, Called(w.tick));
    PerformCalls(Started(w, e), plan(Get(w, e).serial));
    MarkCalls(Call(w, e, plan), e);
  }

  /** The number event_run_by_type returns is the number of calls its walk adds to the journals. */
  lemma {:induction false} RanIsCalls(w: Wheel, todo: seq<Addr>, plan: Plan)
    requires Inv(w, [], NULL) && forall a :: a in todo ==> a in w.main
    ensures Calls(WalkType(w, todo, plan).life) == Calls(w.life) + Ran(w, todo, plan)
    decreases |todo|
  {
    hide Inv, TypeOne, Calls;
    if todo != [] {
      TypeOneCalls(w, todo[0], plan);
      TypeOneKeeps(w, todo[0], plan);
      RanIsCalls(TypeOne(w, todo[0], plan), todo[1..], plan);
    }
  }
}
