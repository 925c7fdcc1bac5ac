module TimerGuarantees {
  /*
   What the timer wheel of event/event.c promises, over every run of requests, removals and ticks.
   */

  import opened EventWheel
  import opened PointerLists
  import opened TimerEffects

  lemma {:induction false} AlwaysInv(steps: seq<Step>)
    ensures Inv(After(steps), [], NULL)
  {
    if steps != [] {
      AlwaysInv(steps[..|steps| - 1]);
      NextKeeps(After(steps[..|steps| - 1]), steps[|steps| - 1]);
    }
  }

  /** What was requested and what happened to it stays on record in every longer run. */
  lemma {:induction false} HistoryIsKept(steps: seq<Step>, more: seq<Step>)
    ensures Grows(After(steps), After(steps + more))
  {
    if more == [] {
      assert steps + more == steps;
    } else {
      var run := steps + more;
      assert run[..|run| - 1] == steps + more[..|more| - 1];
      HistoryIsKept(steps, more[..|more| - 1]);
      NextGrows(After(run[..|run| - 1]), run[|run| - 1]);
    }
  }

  // ------------------------------------------------------------------ the guarantees of the timer

  /** The list structure and the counters, after every run. */
  lemma ListsAgree(steps: seq<Step>)
    ensures var w := After(steps);
            && Distinct(w.main) && Distinct(w.free)
            && (forall a :: a in w.main ==> a !in w.free)
            && (forall a, i :: 0 <= i < SLOTS ==> (a in w.slots[i] <==> a in w.main && Get(w, a).due % SLOTS == i))
            && (forall a, t :: 0 <= t < |w.types| ==> (a in w.types[t] <==> a in w.main && Get(w, a).etype == t))
            && (forall a :: a in w.main ==> Get(w, a).etype < |w.types| && Get(w, a).due > w.tick)
            && w.scheduled == |w.requests| == w.executed + w.zombies + |w.main|
  {
    AlwaysInv(steps);
    var w := After(steps);
    forall a | a in w.main ensures Placed(w, a) { }
  }

  /** An event that is never made a zombie is called exactly once, at the tick it asked for. */
  lemma ExactFiring(steps: seq<Step>, s: nat)
    requires s < |After(steps).requests|
    requires forall i :: 0 <= i < |Journal(After(steps), s)| ==> !Journal(After(steps), s)[i].Marked?
    ensures var w := After(steps);
            var due := w.requests[s].at + if w.requests[s].delay < 1 then 1 else w.requests[s].delay;
            Journal(w, s) == if due <= w.tick then [Called(due), Reaped(due)] else []
  {
    AlwaysInv(steps);
    var w := After(steps);
    var h := Journal(w, s);
    NeverMarked(h);
    if Holds(w, s) {
      var a :| a in w.main && Get(w, a).serial == s;
    }
  }

  lemma NeverMarked(h: seq<Stamp>)
    requires forall i :: 0 <= i < |h| ==> !h[i].Marked?
    ensures forall z :: !WasMarked(h, z)
    ensures forall z, r :: !WasReaped(h, z, r)
  {
    forall z ensures !WasMarked(h, z) { assert |h| > 0 ==> !h[|h| - 1].Marked?; }
    forall z, r ensures !WasReaped(h, z, r) { assert |h| > 1 ==> !h[|h| - 2].Marked?; }
  }

  /**
   An event made a zombie at tick z is never called after that, is called at most once before it (by
   event_run_by_type, or when its own handler marks it, both in tick z), and is off the lists by tick z + 70.
   */
  lemma ZombiesAreReaped(steps: seq<Step>, s: nat, i: nat)
    requires s < |After(steps).requests|
    requires i < |Journal(After(steps), s)| && Journal(After(steps), s)[i].Marked?
    ensures var w := After(steps);
            var h, z := Journal(w, s), Journal(w, s)[i].tick;
            && i <= 1 && (i == 1 ==> h[0] == Called(z))
            && (h == h[..i + 1] ==> w.tick < z + SLOTS)
            && (h != h[..i + 1] ==> exists r :: h == h[..i + 1] + [Reaped(r)] && z <= r <= z + SLOTS && r <= w.tick)
  {
    AlwaysInv(steps);
    var w := After(steps);
    var h := w.life[s];
    if Holds(w, s) {
      var a :| a in w.main && Get(w, a).serial == s;
      assert h != [] && h != [Called(w.tick)];
      var z' :| WasMarked(h, z') && z' <= w.tick < Visit(z', Get(w, a).due);
      VisitBounds(z', Get(w, a).due);
    } else {
      var z', r :| WasReaped(h, z', r) && z' <= r <= z' + SLOTS && r <= w.tick;
      assert h == h[..i + 1] + [Reaped(r)];
    }
  }

  // ------------------------------------------------------------------ removals and calls by type

  /** After every run: each of the four removals makes exactly those live events zombies whose own requests have the
      type and data it names. Their journals gain one mark, and no other journal changes. */
  lemma RemovalsHitExactly(steps: seq<Step>, a: Action, s: nat)
    requires !a.Add? && s < |After(steps).requests|
    ensures var w := After(steps); var w' := After(steps + [Do(a)]);
      && (Live(w', s) <==> Live(w, s) && !Names(a, w.requests[s]))
      && (Holds(w', s) <==> Holds(w, s))
      && Journal(w', s) == Journal(w, s) + if Live(w, s) && Names(a, w.requests[s]) then [Marked(w.tick)] else []
  {
    assert (steps + [Do(a)])[..|steps|] == steps;
    AlwaysInv(steps);
    RemovalExact(After(steps), a, [], NULL);
    assert Removed(After(steps), After(steps + [Do(a)]), s, Names(a, After(steps).requests[s]));
  }

  /** The serials on the list of a type, in its order */
  function OfType(w: Wheel, t: nat): seq<nat> { if t < |w.types| then Serials(w, w.types[t]) else [] }

  /** After every run: event_run_by_type calls each live event of the type once and marks it, in list order, unless a
      handler it called before had removed it. Zombies stay as they are. An event of another type is not called; it is
      marked exactly if a called handler removed it. New events are not called. The number returned is the number of
      calls. */
  lemma ByTypeExactly(steps: seq<Step>, t: nat, plan: Plan)
    ensures var w := After(steps); var w' := After(steps + [ByType(t, plan)]); var order := OfType(w, t);
      && (forall s: nat :: s in order <==> Holds(w, s) && s < |w.requests| && w.requests[s].etype == t)
      && Walked(w, w', order, plan)
      && Calls(w'.life) == Calls(w.life) + if t < |w.types| then Ran(w, w.types[t], plan) else 0
  {
    assert (steps + [ByType(t, plan)])[..|steps|] == steps;
    AlwaysInv(steps);
    var w := After(steps);
    TypeSerials(w, t);
    if t < |w.types| {
      assert Distinct(w.types[t]);
      TypesPending(w, [], NULL);
      hide Inv;
      WalkTypeExact(w, w.types[t], plan);
      RanIsCalls(w, w.types[t], plan);
    } else {
      NoWalk(w, plan);
    }
  }

  lemma TypeSerials(w: Wheel, t: nat)
    requires Inv(w, [], NULL)
    ensures forall s: nat :: s in OfType(w, t) <==> Holds(w, s) && s < |w.requests| && w.requests[s].etype == t
  {
    forall s: nat ensures s in OfType(w, t) <==> Holds(w, s) && s < |w.requests| && w.requests[s].etype == t {
      if Holds(w, s) {
        var a :| a in w.main && Get(w, a).serial == s;
        NodeFacts(w, [], NULL, a);
        if w.requests[s].etype == t {
          var k :| 0 <= k < |w.types[t]| && w.types[t][k] == a;
          assert Serials(w, w.types[t])[k] == s;
        }
      }
      if s in OfType(w, t) {
        var k :| 0 <= k < |w.types[t]| && Serials(w, w.types[t])[k] == s;
        TypesPending(w, [], NULL);
        assert w.types[t][k] in w.main;
        NodeFacts(w, [], NULL, w.types[t][k]);
      }
    }
  }

  /** The event s2 of the type was called, and its handler removes the event s. */
  ghost predicate RemovedIt(w: Wheel, w': Wheel, t: nat, plan: Plan, s2: nat, s: nat)
    requires s < |w.requests|
  {
    && s2 < |w.requests| && w.requests[s2].etype == t && Journal(w', s2) == [Called(w.tick), Marked(w.tick)]
    && NamedBy(plan(s2), w.requests[s])
  }

  /** In particular, for one event of the type: it is called and marked in this tick, or an event of the type that was
      called has a handler that removes it. */
  lemma ByTypeCalls(steps: seq<Step>, t: nat, plan: Plan, s: nat)
    requires var w := After(steps); Live(w, s) && s < |w.requests| && w.requests[s].etype == t
    ensures var w := After(steps); var w' := After(steps + [ByType(t, plan)]);
      || Journal(w', s) == [Called(w.tick), Marked(w.tick)]
      || (Journal(w', s) == [Marked(w.tick)] && exists s2: nat :: s2 != s && RemovedIt(w, w', t, plan, s2, s))
  {
    ByTypeExactly(steps, t, plan);
    var w, w' := After(steps), After(steps + [ByType(t, plan)]);
    var order := OfType(w, t);
    assert Holds(w, s);
    var k :| 0 <= k < |order| && order[k] == s;
    assert Turned(w, w', order, plan, k);
    if Forestalled(w, w', order, plan, k, w.requests[s]) {
      var j :| 0 <= j < k && Fired(w, w', order[j]) && NamedBy(plan(order[j]), w.requests[s]);
      assert order[j] in order;
      assert RemovedIt(w, w', t, plan, order[j], s);
    }
  }
}
