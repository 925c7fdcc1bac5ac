module QueueGuarantees {
  /*
   What the command queue of src/cque.c promises, over every run of its steps, and where a promise ends.
   */

  import opened CommandQueue

  lemma {:induction false} AlwaysInv(w: World, steps: seq<Step>)
    requires Sane(w)
    ensures Inv(w, After(w, steps))
  {
    hide Inv, Next;
    if steps == [] {
      StartInv(w);
    } else {
      AlwaysInv(w, steps[..|steps| - 1]);
      NextKeeps(w, After(w, steps[..|steps| - 1]), steps[|steps| - 1]);
    }
  }

  lemma StartInv(w: World)
    ensures Inv(w, Start()) && SemExact(w, Start()) && QuotaExact(w, Start())
  {
  }

  lemma NextKeeps(w: World, q: Queues, s: Step)
    requires Sane(w) && Inv(w, q)
    ensures var q' := Next(w, q, s);
            && Inv(w, q')
            && (SemExact(w, q) && StepSemCalm(w, q, s) ==> SemExact(w, q'))
            && (QuotaExact(w, q) && StepQuotaCalm(q, s) ==> QuotaExact(w, q'))
  {
    hide Inv, SemExact, QuotaExact, Sane, Apply, DoTop;
    match s
    case Do(a) => ApplyKeeps(w, q, a);
    case Top(going, halted, acts) => TopKeeps(w, q, going, halted, acts);
  }

  predicate StepSemCalm(w: World, q: Queues, s: Step) {
    match s
    case Do(a) => SemCalm(w, q, a)
    case Top(going, halted, acts) => TopSemCalm(w, q, going, halted, acts)
  }

  predicate StepQuotaCalm(q: Queues, s: Step) {
    match s
    case Do(a) => QuotaCalm(a)
    case Top(going, halted, acts) => TopQuotaCalm(q, going, acts)
  }

  /** In every reachable state at most max(0, counter) commands wait on a semaphore. */
  lemma SemaphoresNeverOverrun(w: World, steps: seq<Step>, sem: int, attr: int)
    requires Sane(w) && attr != 0
    ensures var q := After(w, steps);
            Many(w, On(sem, attr), q.sems) <= if Count(q, sem, attr) > 0 then Count(q, sem, attr) else 0
  {
    AlwaysInv(w, steps);
  }

  /** Runs in which every semaphore wait is admitted and every notification names an attribute */
  predicate SemCalmRun(w: World, steps: seq<Step>) {
    steps == [] ||
    (var n := |steps| - 1; SemCalmRun(w, steps[..n]) && StepSemCalm(w, After(w, steps[..n]), steps[n]))
  }

  lemma {:induction false} SemaphoresExact(w: World, steps: seq<Step>)
    requires Sane(w) && SemCalmRun(w, steps)
    ensures SemExact(w, After(w, steps))
  {
    hide Inv, SemExact, Sane, Next, StepSemCalm;
    if steps == [] {
      StartInv(w);
    } else {
      var n := |steps| - 1;
      SemaphoresExact(w, steps[..n]);
      AlwaysInv(w, steps[..n]);
      NextKeeps(w, After(w, steps[..n]), steps[n]);
    }
  }

  /** In every reachable state live commands <= counter <= limit, for every owner. */
  lemma QuotasHold(w: World, steps: seq<Step>, o: int)
    requires Sane(w)
    ensures var q := After(w, steps); Total(w, LiveOf(o), q) <= Queued(q, o) <= w.queueMax(o)
  {
    AlwaysInv(w, steps);
  }

  /** Runs without halt-all and without commands of objects that are going away */
  predicate QuotaCalmRun(w: World, steps: seq<Step>) {
    steps == [] ||
    (var n := |steps| - 1; QuotaCalmRun(w, steps[..n]) && StepQuotaCalm(After(w, steps[..n]), steps[n]))
  }

  lemma {:induction false} QuotasExact(w: World, steps: seq<Step>)
    requires Sane(w) && QuotaCalmRun(w, steps)
    ensures QuotaExact(w, After(w, steps))
  {
    hide Inv, QuotaExact, Sane, Next, StepQuotaCalm;
    if steps == [] {
      StartInv(w);
    } else {
      var n := |steps| - 1;
      QuotasExact(w, steps[..n]);
      AlwaysInv(w, steps[..n]);
      NextKeeps(w, After(w, steps[..n]), steps[n]);
    }
  }

  /** Every admitted command is in exactly one queue, or was served once, or was removed once; the player queue
      is served in the order of arrival and the wait queue is in order of time. */
  lemma EveryCommandOnce(w: World, steps: seq<Step>, i: nat)
    requires Sane(w)
    ensures var q := After(w, steps);
            && Many(w, WithId(i), q.players) + Many(w, WithId(i), q.objects) + Many(w, WithId(i), q.wait)
               + Many(w, WithId(i), q.sems) + multiset(q.served)[i] + multiset(q.ended)[i]
               == (if i < q.admitted then 1 else 0)
            && q.arrivals == q.served + Ids(q.players)
            && forall a, b :: 0 <= a < b < |q.wait| ==> q.wait[a].waittime <= q.wait[b].waittime
  {
    AlwaysInv(w, steps);
    assert Census(w, After(w, steps), i) == if i < After(w, steps).admitted then 1 else 0;
  }

  // ------------------------------------------------------------------ where exactness ends

  /** Halt-all resets one counter only: the counters stay exact if and only if all the others were zero. */
  lemma HaltAllExactness(w: World, q: Queues)
    requires Inv(w, q)
    ensures QuotaExact(w, HaltQue(w, q, NOTHING, NOTHING)) <==>
            forall o :: o != w.owner(NOTHING) ==> Queued(q, o) == 0
  {
    var k, q' := Wanted(NOTHING, NOTHING), HaltQue(w, q, NOTHING, NOTHING);
    SweepForm(w, k, q);
    hide Sweep, Total, Spared, Inv;
    forall o ensures Total(w, LiveOf(o), q') == 0 {
      SweepLive(w, k, q, o);
      SpareNone(w, k, q, o);
      SameLists(w, LiveOf(o), Sweep(w, k, q), q');
    }
    forall o ensures Queued(q', o) == if o == w.owner(NOTHING) then 0 else Queued(q, o) { }
  }

  /** Taking off a command of an object that is going away leaves its owner's counter one too high. */
  lemma GoingExactness(w: World, q: Queues, halted: bool, acts: seq<Act>)
    requires Sane(w) && Inv(w, q) && QuotaExact(w, q) && q.players != []
    ensures QuotaExact(w, DoTop(w, q, true, halted, acts)) <==> q.players[0].player == NOTHING
  {
    var e, q' := q.players[0], DoTop(w, q, true, halted, acts);
    assert e.player >= NOTHING by { assert e in q.players; }
    assert q' == PopTop(q);
    hide DoTop, Inv, Total;
    var o := w.owner(e.player);
    forall x ensures Total(w, LiveOf(x), q') == Total(w, LiveOf(x), q) - if Sat(w, LiveOf(x), e) then 1 else 0 { PopTotal(w, q, LiveOf(x)); }
    assert Total(w, LiveOf(o), q) == Queued(q, o);
  }

  /** A semaphore wait that setup_que refuses, be it for want of money or for its owner's quota, has raised the
      counter for nothing: exactness ends if and only if the counter was not negative. */
  lemma RefusedWaitExactness(w: World, q: Queues, who: nat, cause: int, thing: int, attr: int, secs: int, at: int, allowed: bool)
    requires Inv(w, q) && SemExact(w, q) && !Welcome(w, q, who, thing, attr, allowed)
    ensures SemExact(w, DoSemWait(w, q, who, cause, thing, attr, secs, at, allowed)) <==> Count(q, thing, attr) < 0
  {
    var q1 := AddTo(q, thing, 1, attr);
    var q' := Setup(w, q1, who, allowed).1;
    assert DoSemWait(w, q, who, cause, thing, attr, secs, at, allowed) == q';
    hide Inv, Many;
    forall s, a | a != 0
      ensures Max0(Count(q', s, a)) - Many(w, On(s, a), q'.sems) == if s == thing && a == attr && Count(q, s, a) >= 0 then 1 else 0
    {
      assert Many(w, On(s, a), q.sems) == Max0(Count(q, s, a));
      assert Count(q1, s, a) == Count(q, s, a) + if s == thing && a == attr then 1 else 0;
      if allowed { HaltedSems(w, AddQueued(q1, w.owner(who), 1), w.owner(who), s, a); }
    }
  }

  /** The overflow path gives back one count for each waiter it takes off. */
  lemma HaltedSems(w: World, q: Queues, o: int, s: int, a: int)
    requires a != 0
    ensures var q' := HaltQue(w, q, o, NOTHING);
            && Count(q', s, a) - Many(w, On(s, a), q'.sems) == Count(q, s, a) - Many(w, On(s, a), q.sems)
            && Many(w, On(s, a), q'.sems) <= Many(w, On(s, a), q.sems)
  {
    var k := Wanted(o, NOTHING);
    SweepForm(w, k, q);
    hide Sweep, Many, Silence, GiveBack, Count;
    HitKeepMany(w, k, q.sems, On(s, a));
    GiveBackCount(w, q, Hit(w, k, q.sems), s, a);
    SameCount(q.(count := GiveBack(q.count, Hit(w, k, q.sems))), HaltQue(w, q, o, NOTHING), s, a);
  }

  lemma SameCount(q: Queues, q': Queues, s: int, a: int)
    requires q'.count == q.count
    ensures Count(q', s, a) == Count(q, s, a)
  {
  }

  /** Whether nfy_que takes a waiter off: a count below one stops it after the first entry of the whole queue. */
  predicate TakesAny(w: World, k: Sel, key: Key, times: int, s: seq<Entry>) {
    if key.Notify? && times <= 0 then s != [] && Sat(w, k, s[0]) else Many(w, k, s) > 0
  }

  lemma TakesAnyIsTaken(w: World, k: Sel, key: Key, times: int, s: seq<Entry>)
    ensures TakesAny(w, k, key, times, s) <==> Taken(w, k, key, times, 0, s) != []
    ensures key.Notify? && times <= 0 ==> |Taken(w, k, key, times, 0, s)| <= 1
  {
    if !(key.Notify? && times <= 0) { TakenMany(w, k, key, times, 0, s); }
  }

  /** The notifications that keep exactness.  Without an attribute no counter is lowered, so no waiter may be taken;
      with one, a count below one must not disturb what was in step. */
  predicate NfyInStep(w: World, q: Queues, sem: int, attr: int, key: Key, times: int) {
    if attr == 0 then !TakesAny(w, On(sem, attr), key, times, q.sems)
    else if !key.Notify? || times > 0 then true
    else if Count(q, sem, attr) > 0 then times == 0 && !TakesAny(w, On(sem, attr), key, times, q.sems)
    else Count(q, sem, attr) <= times
  }

  /** How the waiters and counters stand after nfy_que */
  lemma NfyBooks(w: World, q: Queues, sem: int, attr: int, key: Key, times: int, s: int, a: int)
    requires Proper(q)
    ensures var q' := NfyQue(w, q, sem, attr, key, times);
            var taken := if attr == 0 || Count(q, sem, attr) > 0 then Taken(w, On(sem, attr), key, times, 0, q.sems) else [];
            && Many(w, On(s, a), q'.sems) == Many(w, On(s, a), q.sems) - Many(w, On(s, a), taken)
            && Count(q', s, a) == if s == sem && a == attr then (if key.Notify? then Count(q, s, a) - times else 0) else Count(q, s, a)
  {
    var k := On(sem, attr);
    NfyIsWoken(w, q, k, key, times);
    WokenTotals(w, q, k, key, times, LiveOf(0));
    hide NfyWalk, Sat, Taken, Left;
    TakenLeftMany(w, k, key, times, 0, q.sems, On(s, a));
  }

  /** A notification leaves the counters exact if and only if it is in step. */
  lemma NfyExactness(w: World, q: Queues, sem: int, attr: int, key: Key, times: int)
    requires Inv(w, q) && SemExact(w, q)
    ensures SemExact(w, NfyQue(w, q, sem, attr, key, times)) <==> NfyInStep(w, q, sem, attr, key, times)
  {
    if attr != 0 && (!key.Notify? || times > 0) {
      NfyKeeps(w, q, sem, attr, key, times);
    } else if attr == 0 {
      UnnamedExactness(w, q, sem, key, times);
    } else {
      IdleExactness(w, q, sem, attr, times);
    }
  }

  lemma UnnamedExactness(w: World, q: Queues, sem: int, key: Key, times: int)
    requires Proper(q) && SemExact(w, q)
    ensures SemExact(w, NfyQue(w, q, sem, 0, key, times)) <==> !TakesAny(w, On(sem, 0), key, times, q.sems)
  {
    var q', taken := NfyQue(w, q, sem, 0, key, times), Taken(w, On(sem, 0), key, times, 0, q.sems);
    TakesAnyIsTaken(w, On(sem, 0), key, times, q.sems);
    forall s, a | a != 0
      ensures Max0(Count(q', s, a)) - Many(w, On(s, a), q'.sems) == Many(w, On(s, a), taken)
    {
      NfyBooks(w, q, sem, 0, key, times, s, a);
      assert Many(w, On(s, a), q.sems) == Max0(Count(q, s, a));
    }
    if taken != [] {
      var e := taken[0];
      assert e in q.sems && e.sem == sem && e.attr > 0;
      assert Many(w, On(sem, e.attr), taken) >= 1;
      assert Max0(Count(q', sem, e.attr)) != Many(w, On(sem, e.attr), q'.sems);
    }
  }

  lemma IdleExactness(w: World, q: Queues, sem: int, attr: int, times: int)
    requires Proper(q) && SemExact(w, q) && attr != 0 && times <= 0
    ensures SemExact(w, NfyQue(w, q, sem, attr, Notify, times)) <==> NfyInStep(w, q, sem, attr, Notify, times)
  {
    var k, q' := On(sem, attr), NfyQue(w, q, sem, attr, Notify, times);
    var all := Taken(w, k, Notify, times, 0, q.sems);
    var taken := if Count(q, sem, attr) > 0 then all else [];
    TakesAnyIsTaken(w, k, Notify, times, q.sems);
    ManyAll(w, k, all);
    hide NfyQue, Many, TakesAny, Count, Taken;
    forall s, a | a != 0 && (s != sem || a != attr) ensures Max0(Count(q', s, a)) == Many(w, On(s, a), q'.sems) {
      NfyBooks(w, q, sem, attr, Notify, times, s, a);
      ManyNone(w, On(s, a), taken);
      assert Many(w, On(s, a), q.sems) == Max0(Count(q, s, a));
    }
    NfyBooks(w, q, sem, attr, Notify, times, sem, attr);
    assert Many(w, k, q.sems) == Max0(Count(q, sem, attr));
    assert SemExact(w, q') <==> Max0(Count(q', sem, attr)) == Many(w, k, q'.sems);
  }

  /** The operations after which exact semaphore counters are still exact */
  predicate InStep(w: World, q: Queues, a: Act) {
    match a
    case SemWait(who, _, thing, attr, _, _, allowed) => Welcome(w, q, who, thing, attr, allowed) || Count(q, thing, attr) < 0
    case Nfy(sem, attr, key, times) => NfyInStep(w, q, sem, attr, key, times)
    case _ => true
  }

  /** The exact condition, for every operation: from an exact state it leads to an exact state if and only if it is
      in step. */
  lemma StaysExactIff(w: World, q: Queues, a: Act)
    requires Sane(w) && Inv(w, q) && SemExact(w, q)
    ensures SemExact(w, Apply(w, q, a)) <==> InStep(w, q, a)
  {
    hide Inv, SemExact, Sane, NfyInStep, DoSemWait, NfyQue, Welcome;
    match a
    case SemWait(who, cause, thing, attr, secs, at, allowed) =>
      if Welcome(w, q, who, thing, attr, allowed) { ApplyKeeps(w, q, a); }
      else { RefusedWaitExactness(w, q, who, cause, thing, attr, secs, at, allowed); }
    case Nfy(sem, attr, key, times) => NfyExactness(w, q, sem, attr, key, times);
    case _ => ApplyKeeps(w, q, a);
  }

  /** What the command at the head does when it is run */
  function Deeds(q: Queues, going: bool, halted: bool, acts: seq<Act>): seq<Act> {
    if q.players != [] && q.players[0].player >= 0 && !going && !halted then acts else []
  }

  ghost predicate ExactAlong(w: World, q: Queues, acts: seq<Act>)
    decreases |acts|
  {
    SemExact(w, q) && (acts != [] ==> ExactAlong(w, Apply(w, q, acts[0]), acts[1..]))
  }

  predicate InStepAlong(w: World, q: Queues, acts: seq<Act>)
    decreases |acts|
  {
    acts == [] || (InStep(w, q, acts[0]) && InStepAlong(w, Apply(w, q, acts[0]), acts[1..]))
  }

  /** The counters are exact at the start, between all steps, and between all operations of the commands that are run. */
  ghost predicate ExactThrough(w: World, q: Queues, steps: seq<Step>)
    decreases |steps|
  {
    SemExact(w, q) && (steps != [] ==>
      && (match steps[0]
          case Do(a) => true
          case Top(going, halted, acts) => q.players != [] ==> ExactAlong(w, TakeTop(w, q, going), Deeds(q, going, halted, acts)))
      && ExactThrough(w, Next(w, q, steps[0]), steps[1..]))
  }

  predicate InStepThrough(w: World, q: Queues, steps: seq<Step>)
    decreases |steps|
  {
    steps == [] || (
      && (match steps[0]
          case Do(a) => InStep(w, q, a)
          case Top(going, halted, acts) => q.players != [] ==> InStepAlong(w, TakeTop(w, q, going), Deeds(q, going, halted, acts)))
      && InStepThrough(w, Next(w, q, steps[0]), steps[1..]))
  }

  lemma {:induction false} AlongIff(w: World, q: Queues, acts: seq<Act>)
    requires Sane(w) && Inv(w, q) && SemExact(w, q)
    ensures ExactAlong(w, q, acts) <==> InStepAlong(w, q, acts)
    ensures ExactAlong(w, q, acts) ==> SemExact(w, Perform(w, q, acts))
    decreases |acts|
  {
    hide Inv, SemExact, Sane, InStep, Apply;
    if acts != [] {
      StaysExactIff(w, q, acts[0]);
      ApplyKeeps(w, q, acts[0]);
      if SemExact(w, Apply(w, q, acts[0])) { AlongIff(w, Apply(w, q, acts[0]), acts[1..]); }
    }
  }

  /** Over every run: the semaphore counters are exact throughout if and only if every operation is in step. */
  lemma {:induction false} ExactThroughIff(w: World, q: Queues, steps: seq<Step>)
    requires Sane(w) && Inv(w, q) && SemExact(w, q)
    ensures ExactThrough(w, q, steps) <==> InStepThrough(w, q, steps)
    decreases |steps|
  {
    hide Inv, SemExact, Sane, InStep, Apply, ExactAlong, InStepAlong, TakeTop, Perform;
    if steps != [] {
      var q' := Next(w, q, steps[0]);
      NextKeeps(w, q, steps[0]);
      match steps[0] {
        case Do(a) => StaysExactIff(w, q, a);
        case Top(going, halted, acts) =>
          if q.players != [] {
            var deeds := Deeds(q, going, halted, acts);
            TakeTopKeeps(w, q, going);
            AlongIff(w, TakeTop(w, q, going), deeds);
            PoppedSems(w, Perform(w, TakeTop(w, q, going), deeds));
          }
      }
      if SemExact(w, q') { ExactThroughIff(w, q', steps[1..]); }
    }
  }

  lemma PoppedSems(w: World, q: Queues)
    ensures SemExact(w, PopTop(q)) <==> SemExact(w, q)
  {
    forall s, a ensures Count(PopTop(q), s, a) == Count(q, s, a) { }
    assert PopTop(q).sems == q.sems;
  }

  // ------------------------------------------------------------------ ties in the wait queue

  /** Commands of equal time, from serial number m on, stand in the order of their serial numbers. */
  ghost predicate Tied(m: nat, s: seq<Entry>) {
    forall i, j :: 0 <= i < j < |s| && s[i].waittime == s[j].waittime && m <= s[i].id && m <= s[j].id ==> s[i].id < s[j].id
  }

  lemma {:induction false} KeepTied(w: World, k: Sel, m: nat, s: seq<Entry>)
    requires Tied(m, s)
    ensures Tied(m, Keep(w, k, s))
  {
    if s != [] {
      assert Tied(m, s[1..]);
      KeepTied(w, k, m, s[1..]);
      var r := Keep(w, k, s[1..]);
      forall j | 0 <= j < |r| && s[0].waittime == r[j].waittime && m <= s[0].id && m <= r[j].id ensures s[0].id < r[j].id {
        assert r[j] in s[1..];
      }
    }
  }

  lemma InsertTied(m: nat, s: seq<Entry>, e: Entry)
    requires Tied(m, s) && Sorted(s) && forall i :: 0 <= i < |s| ==> s[i].id < e.id
    ensures Tied(m, Insert(s, e))
  {
    InsertPlace(s, e);
  }

  lemma {:induction false} IdIsOld(w: World, q: Queues, i: nat)
    requires Once(w, q) && i < |q.wait|
    ensures q.wait[i].id < q.admitted
  {
    var id := q.wait[i].id;
    assert Census(w, q, id) == if id < q.admitted then 1 else 0;
    assert q.wait == q.wait[..i] + q.wait[i..] && q.wait[i..][0] == q.wait[i];
    ManyConcat(w, WithId(id), q.wait[..i], q.wait[i..]);
  }

  /** From which serial number on no command in the wait queue has been warped */
  function MarkAct(q: Queues, m: nat, a: Act): nat { if a.Warp? then q.admitted else m }

  function MarkActs(w: World, q: Queues, m: nat, acts: seq<Act>): nat
    decreases |acts|
  {
    if acts == [] then m else MarkActs(w, Apply(w, q, acts[0]), MarkAct(q, m, acts[0]), acts[1..])
  }

  function MarkStep(w: World, q: Queues, m: nat, s: Step): nat {
    match s
    case Do(a) => MarkAct(q, m, a)
    case Top(going, halted, acts) => if q.players == [] then m else MarkActs(w, TakeTop(w, q, going), m, Deeds(q, going, halted, acts))
  }

  function Unwarped(w: World, steps: seq<Step>): nat {
    if steps == [] then 0
    else var n := |steps| - 1; MarkStep(w, After(w, steps[..n]), Unwarped(w, steps[..n]), steps[n])
  }

  lemma SetupWait(w: World, q: Queues, who: nat, allowed: bool)
    ensures var (ok, q1) := Setup(w, q, who, allowed);
            q1.admitted == q.admitted && q1.wait == if ok || !allowed then q.wait else Keep(w, Wanted(w.owner(who), NOTHING), q.wait)
  {
    SweepForm(w, Wanted(w.owner(who), NOTHING), AddQueued(q, w.owner(who), 1));
    hide Sweep;
  }

  lemma WaitQueTied(w: World, q: Queues, m: nat, who: nat, cause: int, secs: int, sem: int, attr: int, at: int, allowed: bool)
    requires Once(w, q) && Sorted(q.wait) && Tied(m, q.wait)
    ensures Tied(m, WaitQue(w, q, who, cause, secs, sem, attr, at, allowed).wait)
  {
    SetupWait(w, q, who, allowed);
    hide Setup, Once, Sorted, Tied, Insert;
    KeepTied(w, Wanted(w.owner(who), NOTHING), m, q.wait);
    forall i | 0 <= i < |q.wait| ensures q.wait[i].id < q.admitted { IdIsOld(w, q, i); }
    InsertTied(m, q.wait, Entry(q.admitted, who, cause, sem, attr, if secs != 0 then at + secs else 0));
  }

  lemma SecondTied(w: World, q: Queues, m: nat, now: int)
    requires Tied(m, q.wait)
    ensures Tied(m, DoSecond(w, q, now).wait) && DoSecond(w, q, now).admitted == q.admitted
    ensures forall e :: e in DoSecond(w, q, now).wait ==> e in q.wait
  {
    SecondWait(w, q, now);
    SecondForm(w, q, now);
    ExpiredTotals(w, WakeFirst(w, Merge(q), now), now, LiveOf(0));
  }

  lemma NfyWait(w: World, q: Queues, sem: int, attr: int, key: Key, times: int)
    requires Proper(q)
    ensures NfyQue(w, q, sem, attr, key, times).wait == q.wait
  {
    NfyIsWoken(w, q, On(sem, attr), key, times);
    WokenTotals(w, q, On(sem, attr), key, times, LiveOf(0));
    hide NfyWalk, Woken;
  }

  lemma ApplyTied(w: World, q: Queues, m: nat, a: Act)
    requires Inv(w, q) && Tied(m, q.wait)
    ensures Tied(MarkAct(q, m, a), Apply(w, q, a).wait)
  {
    hide WaitQue, NfyQue, DoSecond, Sweep, Once;
    match a
    case Wait(who, cause, secs, at, allowed) => WaitQueTied(w, q, m, who, cause, secs, NOTHING, 0, at, allowed);
    case SemWait(who, cause, thing, attr, secs, at, allowed) =>
      if !(thing < 0 || attr <= 0) {
        var q1 := AddTo(q, thing, 1, attr);
        CountOnly(w, q, q1);
        var run := Count(q1, thing, attr) <= 0;
        WaitQueTied(w, q1, m, who, cause, if run then 0 else secs, if run then NOTHING else thing, attr, at, allowed);
      }
    case Nfy(sem, attr, key, times) => NfyWait(w, q, sem, attr, key, times);
    case Halt(ptarg, otarg) => SweepForm(w, Wanted(ptarg, otarg), q); KeepTied(w, Wanted(ptarg, otarg), m, q.wait);
    case Second(now) => SecondTied(w, q, m, now);
    case Warp(i, now) => WarpTied(w, q, i, now);
  }

  lemma WarpTied(w: World, q: Queues, i: int, now: int)
    requires Once(w, q)
    ensures Tied(q.admitted, DoWarp(w, q, i, now).wait)
  {
    var q1 := q.(wait := Rewind(q.wait, i), sems := Hasten(q.sems, i));
    assert Ids(q1.wait) == Ids(q.wait);
    forall j | 0 <= j < |q.wait| ensures q1.wait[j].id < q.admitted { IdIsOld(w, q, j); assert Ids(q1.wait)[j] == Ids(q.wait)[j]; }
    SecondTied(w, q1, q.admitted, now);
  }

  lemma {:induction false} PerformTied(w: World, q: Queues, m: nat, acts: seq<Act>)
    requires Sane(w) && Inv(w, q) && Tied(m, q.wait)
    ensures Tied(MarkActs(w, q, m, acts), Perform(w, q, acts).wait)
    decreases |acts|
  {
    hide Inv, Tied, Sane, Apply, MarkAct;
    if acts != [] {
      ApplyTied(w, q, m, acts[0]);
      ApplyKeeps(w, q, acts[0]);
      PerformTied(w, Apply(w, q, acts[0]), MarkAct(q, m, acts[0]), acts[1..]);
    }
  }

  lemma NextTied(w: World, q: Queues, m: nat, s: Step)
    requires Sane(w) && Inv(w, q) && Tied(m, q.wait)
    ensures Tied(MarkStep(w, q, m, s), Next(w, q, s).wait)
  {
    hide Inv, Tied, Sane, Apply, MarkAct, Perform, MarkActs;
    match s
    case Do(a) => ApplyTied(w, q, m, a);
    case Top(going, halted, acts) =>
      if q.players != [] {
        TakeTopKeeps(w, q, going);
        PerformTied(w, TakeTop(w, q, going), m, Deeds(q, going, halted, acts));
      }
  }

  /** Over every run: the wait queue is in order of time, and commands of equal time that were never warped stand in
      the order in which they were queued. */
  lemma {:induction false} TiesInOrder(w: World, steps: seq<Step>)
    requires Sane(w)
    ensures Sorted(After(w, steps).wait) && Tied(Unwarped(w, steps), After(w, steps).wait)
  {
    AlwaysInv(w, steps);
    hide Next, MarkStep, Sane;
    if steps != [] {
      var n := |steps| - 1;
      TiesInOrder(w, steps[..n]);
      AlwaysInv(w, steps[..n]);
      hide Inv, Tied;
      NextTied(w, After(w, steps[..n]), Unwarped(w, steps[..n]), steps[n]);
    }
  }

  // ------------------------------------------------------------------ one pass wakes one command

  function Passes(w: World, q: Queues, now: int, n: nat): Queues {
    if n == 0 then q else DoSecond(w, Passes(w, q, now, n - 1), now)
  }

  lemma SecondWait(w: World, q: Queues, now: int)
    ensures DoSecond(w, q, now).wait == if q.wait != [] && q.wait[0].waittime <= now then q.wait[1..] else q.wait
  {
    SecondForm(w, q, now);
    ExpiredTotals(w, WakeFirst(w, Merge(q), now), now, LiveOf(0));
  }

  /** A pass of do_second wakes at most the first due command, so n passes wake n of them, or all if there are fewer. */
  lemma {:induction false} PassesWakeOneEach(w: World, q: Queues, now: int, n: nat)
    ensures var due := Passed(q.wait, now);
            Passes(w, q, now, n).wait == q.wait[if n < due then n else due..]
  {
    hide DoSecond;
    if n == 0 {
      assert q.wait[0..] == q.wait;
    } else {
      PassesWakeOneEach(w, q, now, n - 1);
      var p := Passes(w, q, now, n - 1);
      SecondWait(w, p, now);
      var due := Passed(q.wait, now);
      hide Passed;
      if n - 1 < due { assert q.wait[n - 1..][1..] == q.wait[n..]; }
    }
  }
}
