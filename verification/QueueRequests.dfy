module QueueRequests {
  /*
   What became of every command that was asked for.  Beside the queues of src/cque.c a record is kept of each admitted
   request: what was asked, and what has happened since that could matter to it, be it on time, on its semaphore or by
   @halt.  The records are made from the requests and the operations alone; over every run the queues are as they say.
   */

  import opened CommandQueue
  import opened Options
  import opened QueueGuarantees

  /** A timed or immediate command, or a wait on a semaphore; ahead: the semaphore was notified before anyone waited. */
  datatype Request =
    | Plain(who: nat, cause: int, secs: int, at: int)
    | Sem(who: nat, cause: int, secs: int, at: int, thing: int, attr: int, ahead: bool)

  /** warps: the QUEUE_WARPs it has waited through; clocks: the times of the passes of do_second; ripe: its time had come
      in one of them; told: its semaphore was notified; since: how many passes there were after it first could run;
      off: halted or taken over by do_top; drained: its semaphore was drained. */
  datatype Record = Record(r: Request, warps: seq<int>, clocks: seq<int>, ripe: bool, told: bool, since: Option<nat>,
    off: bool, drained: bool)

  datatype Sign = Pass(now: int) | Shift(i: int) | Told(sem: int, attr: int) | Drained(dsem: int, dattr: int) | Stop(ptarg: int, otarg: int)

  predicate AtOnce(r: Request) { if r.Plain? then r.secs <= 0 else r.ahead }

  /** The time it waits for; 0 for none.  A warp sets timed commands to minus its argument and brings those on
      semaphores forward by it, to -1 if that is not positive. */
  function DueAt(r: Request, warps: seq<int>): int
    decreases |warps|
  {
    if warps == [] then if r.secs == 0 then 0 else r.at + r.secs
    else
      var n := |warps| - 1;
      if r.Plain? then -warps[n] else Sooner(DueAt(r, warps[..n]), warps[n])
  }

  /** The clock of a semaphore wait after a warp */
  function Sooner(t: int, i: int): int { if t <= 0 then t else if t - i > 0 then t - i else -1 }

  predicate Comes(x: Record, now: int) {
    var t := DueAt(x.r, x.warps);
    !AtOnce(x.r) && (x.r.Sem? ==> t != 0) && t <= now
  }

  predicate IsOn(r: Request, sem: int, attr: int) { r.Sem? && r.thing == sem && (attr == 0 || attr == r.attr) }

  predicate IsWanted(w: World, r: Request, ptarg: int, otarg: int) {
    (ptarg == NOTHING || ptarg == w.owner(r.who)) && (otarg == NOTHING || otarg == r.who)
  }

  function Fresh(r: Request): Record {
    Record(r, [], [], false, false, if AtOnce(r) then Some(0) else None, false, false)
  }

  function Touch(w: World, x: Record, s: Sign): (y: Record)
    ensures y.r == x.r && (x.since.Some? ==> y.since.Some? && y.since.value >= x.since.value)
  {
    match s
    case Pass(now) =>
      var come := Comes(x, now);
      x.(clocks := x.clocks + [now], ripe := x.ripe || come,
         since := if x.since.Some? then Some(x.since.value + 1) else if come then Some(0) else None)
    case Shift(i) => x.(warps := x.warps + [i])
    case Told(sem, attr) =>
      if IsOn(x.r, sem, attr) then x.(told := true, since := if x.since.None? then Some(0) else x.since) else x
    case Drained(sem, attr) => x.(drained := x.drained || IsOn(x.r, sem, attr))
    case Stop(p, t) => x.(off := x.off || IsWanted(w, x.r, p, t))
  }

  function All(w: World, h: seq<Record>, s: Sign): (h': seq<Record>)
    ensures |h'| == |h| && forall k :: 0 <= k < |h| ==> h'[k] == Touch(w, h[k], s)
  {
    seq(|h|, k requires 0 <= k < |h| => Touch(w, h[k], s))
  }

  /** A request is refused without money, and halts its owner when it is one too many. */
  function Enter(w: World, q: Queues, h: seq<Record>, r: Request, allowed: bool): seq<Record> {
    if !allowed then h
    else if Queued(q, w.owner(r.who)) >= w.queueMax(w.owner(r.who)) then All(w, h, Stop(w.owner(r.who), NOTHING))
    else h + [Fresh(r)]
  }

  function NoteAct(w: World, q: Queues, h: seq<Record>, a: Act): seq<Record> {
    match a
    case Wait(who, cause, secs, at, allowed) => Enter(w, q, h, Plain(who, cause, secs, at), allowed)
    case SemWait(who, cause, thing, attr, secs, at, allowed) =>
      if thing < 0 || attr <= 0 then h
      else Enter(w, q, h, Sem(who, cause, secs, at, thing, attr, Count(q, thing, attr) < 0), allowed)
    case Nfy(sem, attr, key, times) =>
      if attr != 0 && Count(q, sem, attr) <= 0 then h else All(w, h, if key.Drain? then Drained(sem, attr) else Told(sem, attr))
    case Halt(ptarg, otarg) => All(w, h, Stop(ptarg, otarg))
    case Second(now) => All(w, h, Pass(now))
    case Warp(i, now) => All(w, All(w, h, Shift(i)), Pass(now))
  }

  function NoteActs(w: World, q: Queues, h: seq<Record>, acts: seq<Act>): seq<Record>
    decreases |acts|
  {
    if acts == [] then h else NoteActs(w, Apply(w, q, acts[0]), NoteAct(w, q, h, acts[0]), acts[1..])
  }

  /** do_top takes a live command over */
  function NoteTake(q: Queues, h: seq<Record>, going: bool): seq<Record>
    requires q.players != []
  {
    var e := q.players[0];
    if e.player >= 0 && !going && e.id < |h| then h[e.id := h[e.id].(off := true)] else h
  }

  function NoteStep(w: World, q: Queues, h: seq<Record>, s: Step): seq<Record> {
    match s
    case Do(a) => NoteAct(w, q, h, a)
    case Top(going, halted, acts) =>
      if q.players == [] then h else NoteActs(w, TakeTop(w, q, going), NoteTake(q, h, going), Deeds(q, going, halted, acts))
  }

  /** The records of a run, by serial number */
  function Records(w: World, steps: seq<Step>): seq<Record> {
    if steps == [] then []
    else var n := |steps| - 1; NoteStep(w, After(w, steps[..n]), Records(w, steps[..n]), steps[n])
  }

  // ------------------------------------------------------------------ the queues are as the records say

  predicate Waiting(h: seq<Record>, e: Entry) {
    e.id < |h| &&
    var x := h[e.id];
    && x.r.Plain? && x.r.secs > 0 && e.player == x.r.who && e.cause == x.r.cause && e.sem == NOTHING
    && !x.off && e.waittime == DueAt(x.r, x.warps)
  }

  predicate OnSem(h: seq<Record>, e: Entry) {
    e.id < |h| &&
    var x := h[e.id];
    && x.r.Sem? && !x.r.ahead && e.player == x.r.who && e.cause == x.r.cause && e.sem == x.r.thing && e.attr == x.r.attr
    && !x.off && !x.drained && !x.ripe && e.waittime == DueAt(x.r, x.warps)
  }

  /** Ready to be run, by the player it was queued for unless it was halted */
  predicate InHand(h: seq<Record>, e: Entry) {
    e.id < |h| &&
    var x := h[e.id];
    x.since.Some? && e.cause == x.r.cause && e.waittime == 0 && e.player == if x.off then NOTHING else x.r.who
  }

  /** What another object than a player causes reaches the player queue a pass later. */
  predicate Reached(w: World, h: seq<Record>, i: nat) {
    i < |h| && h[i].since.Some? && (!w.isPlayer(h[i].r.cause) ==> h[i].since.value >= 1)
  }

  predicate Gone(h: seq<Record>, i: nat) { i < |h| && (h[i].off || h[i].drained) }

  ghost predicate WaitTold(h: seq<Record>, s: seq<Entry>) { forall e :: e in s ==> Waiting(h, e) }

  ghost predicate SemsTold(h: seq<Record>, s: seq<Entry>) { forall e :: e in s ==> OnSem(h, e) }

  ghost predicate RunTold(w: World, h: seq<Record>, q: Queues) {
    && (forall e :: e in q.players ==> InHand(h, e))
    && (forall e :: e in q.objects ==> InHand(h, e) && !w.isPlayer(e.cause))
    && (forall i :: i in q.arrivals ==> Reached(w, h, i))
  }

  ghost predicate EndTold(h: seq<Record>, s: seq<nat>) { forall i :: i in s ==> Gone(h, i) }

  ghost predicate AsTold(w: World, q: Queues, h: seq<Record>) {
    |h| == q.admitted && WaitTold(h, q.wait) && SemsTold(h, q.sems) && RunTold(w, h, q) && EndTold(h, q.ended)
  }

  // ------------------------------------------------------------------ giving to the run queues

  predicate Ready(h: seq<Record>, e: Entry) { InHand(h, e.(waittime := 0)) }

  lemma GiveTold(w: World, h: seq<Record>, q: Queues, e: Entry)
    requires RunTold(w, h, q) && Ready(h, e)
    ensures RunTold(w, h, Give(w, q, e))
  {
  }

  lemma {:induction false} GiveAllTold(w: World, h: seq<Record>, q: Queues, s: seq<Entry>)
    requires RunTold(w, h, q) && forall e :: e in s ==> Ready(h, e)
    ensures RunTold(w, h, GiveAll(w, q, s))
    decreases |s|
  {
    hide RunTold, Ready, Give;
    if s != [] {
      GiveTold(w, h, q, s[0]);
      GiveAllTold(w, h, Give(w, q, s[0]), s[1..]);
    }
  }

  // ------------------------------------------------------------------ halt_que

  lemma {:induction false} SilenceAt(w: World, k: Sel, s: seq<Entry>)
    ensures forall j :: 0 <= j < |s| ==> Silence(w, k, s)[j] == if Sat(w, k, s[j]) then s[j].(player := NOTHING) else s[j]
  {
    if s != [] { SilenceAt(w, k, s[1..]); }
  }

  lemma StopInHand(w: World, h: seq<Record>, p: int, t: int, e: Entry)
    requires InHand(h, e)
    ensures InHand(All(w, h, Stop(p, t)), if Sat(w, Wanted(p, t), e) then e.(player := NOTHING) else e)
  {
  }

  lemma StopRun(w: World, h: seq<Record>, p: int, t: int, s: seq<Entry>)
    requires forall e :: e in s ==> InHand(h, e)
    ensures forall e :: e in Silence(w, Wanted(p, t), s) ==> InHand(All(w, h, Stop(p, t)), e) && exists d :: d in s && e.cause == d.cause
  {
    SilenceAt(w, Wanted(p, t), s);
    var r := Silence(w, Wanted(p, t), s);
    forall e | e in r ensures InHand(All(w, h, Stop(p, t)), e) && exists d :: d in s && e.cause == d.cause {
      var j :| 0 <= j < |r| && r[j] == e;
      assert s[j] in s;
      StopInHand(w, h, p, t, s[j]);
    }
  }

  lemma StopWait(w: World, h: seq<Record>, p: int, t: int, s: seq<Entry>)
    requires WaitTold(h, s)
    ensures WaitTold(All(w, h, Stop(p, t)), Keep(w, Wanted(p, t), s))
    ensures EndTold(All(w, h, Stop(p, t)), Ids(Hit(w, Wanted(p, t), s)))
  {
    hide DueAt;
    EndIds(All(w, h, Stop(p, t)), Hit(w, Wanted(p, t), s));
  }

  lemma StopSems(w: World, h: seq<Record>, p: int, t: int, s: seq<Entry>)
    requires SemsTold(h, s)
    ensures SemsTold(All(w, h, Stop(p, t)), Keep(w, Wanted(p, t), s))
    ensures EndTold(All(w, h, Stop(p, t)), Ids(Hit(w, Wanted(p, t), s)))
  {
    hide DueAt;
    EndIds(All(w, h, Stop(p, t)), Hit(w, Wanted(p, t), s));
  }

  lemma EndIds(h: seq<Record>, s: seq<Entry>)
    ensures (forall e :: e in s ==> Gone(h, e.id)) ==> EndTold(h, Ids(s))
  {
    if forall e :: e in s ==> Gone(h, e.id) {
      forall i | i in Ids(s) ensures Gone(h, i) { var j :| 0 <= j < |Ids(s)| && Ids(s)[j] == i; assert s[j] in s; }
    }
  }

  lemma EndConcat(h: seq<Record>, a: seq<nat>, b: seq<nat>)
    requires EndTold(h, a) && EndTold(h, b)
    ensures EndTold(h, a + b)
  {
  }

  /** What was over stays over. */
  lemma EndTouched(w: World, h: seq<Record>, s: Sign, ids: seq<nat>)
    requires EndTold(h, ids)
    ensures EndTold(All(w, h, s), ids)
  {
  }

  lemma StopRuns(w: World, q: Queues, h: seq<Record>, p: int, t: int, q': Queues)
    requires RunTold(w, h, q) && q'.arrivals == q.arrivals
    requires q'.players == Silence(w, Wanted(p, t), q.players) && q'.objects == Silence(w, Wanted(p, t), q.objects)
    ensures RunTold(w, All(w, h, Stop(p, t)), q')
  {
    StopRun(w, h, p, t, q.players);
    StopRun(w, h, p, t, q.objects);
    hide Silence, InHand;
  }

  lemma HaltTold(w: World, q: Queues, h: seq<Record>, p: int, t: int)
    requires AsTold(w, q, h)
    ensures AsTold(w, HaltQue(w, q, p, t), All(w, h, Stop(p, t)))
  {
    var k, h' := Wanted(p, t), All(w, h, Stop(p, t));
    hide Sweep, Silence, GiveBack, RunTold, EndTold, WaitTold, SemsTold, Keep, Hit, Ids;
    SweepForm(w, k, q);
    StopRuns(w, q, h, p, t, HaltQue(w, q, p, t));
    StopWait(w, h, p, t, q.wait);
    StopSems(w, h, p, t, q.sems);
    EndTouched(w, h, Stop(p, t), q.ended);
    EndConcat(h', q.ended, Ids(Hit(w, k, q.wait)));
    EndConcat(h', q.ended + Ids(Hit(w, k, q.wait)), Ids(Hit(w, k, q.sems)));
  }

  // ------------------------------------------------------------------ wait_que

  lemma EnterRefused(w: World, q: Queues, h: seq<Record>, r: Request, allowed: bool)
    requires Sane(w) && AsTold(w, q, h) && !Setup(w, q, r.who, allowed).0
    ensures AsTold(w, Setup(w, q, r.who, allowed).1, Enter(w, q, h, r, allowed))
  {
    if allowed {
      var o := w.owner(r.who);
      hide AsTold, HaltQue;
      HaltAfterCharge(w, q, o, 1);
      HaltTold(w, q, h, o, NOTHING);
    }
  }

  /** One more record changes nothing for the commands that are already queued. */
  lemma Longer(w: World, q: Queues, h: seq<Record>, x: Record)
    requires AsTold(w, q, h)
    ensures WaitTold(h + [x], q.wait) && SemsTold(h + [x], q.sems) && RunTold(w, h + [x], q) && EndTold(h + [x], q.ended)
  {
    hide DueAt;
  }

  lemma PlaceTold(w: World, q: Queues, h: seq<Record>, r: Request, e: Entry, secs: int)
    requires AsTold(w, q, h) && e.id == q.admitted && if AtOnce(r) then secs <= 0 else secs == r.secs
    requires e.player == r.who && e.cause == r.cause
    requires if AtOnce(r) then e.sem == NOTHING else e.waittime == DueAt(r, [])
    requires r.Plain? ==> e.sem == NOTHING
    requires r.Sem? && !r.ahead ==> e.sem == r.thing != NOTHING && e.attr == r.attr
    ensures AsTold(w, Place(w, q, e, secs), h + [Fresh(r)])
  {
    var h' := h + [Fresh(r)];
    Longer(w, q, h, Fresh(r));
    hide DueAt, RunTold, EndTold;
    var q2 := q.(admitted := q.admitted + 1);
    if AtOnce(r) {
      GiveTold(w, h', q2, e);
    } else if r.Plain? {
      assert Waiting(h', e);
      forall x | x in Insert(q.wait, e) ensures Waiting(h', x) { InsertMembers(q.wait, e, x); }
    } else {
      assert OnSem(h', e);
    }
  }

  lemma SameBut(w: World, q: Queues, q': Queues, h: seq<Record>)
    requires AsTold(w, q, h)
    requires q' == q.(count := q'.count, queued := q'.queued)
    ensures AsTold(w, q', h)
  {
  }

  /** wait_que as the request r reaches it */
  lemma WaitQueTold(w: World, q: Queues, h: seq<Record>, r: Request, secs: int, sem: int, attr: int, allowed: bool)
    requires Sane(w) && AsTold(w, q, h) && if AtOnce(r) then secs <= 0 && sem == NOTHING else secs == r.secs
    requires r.Plain? ==> sem == NOTHING
    requires r.Sem? && !r.ahead ==> sem == r.thing != NOTHING && attr == r.attr
    ensures AsTold(w, WaitQue(w, q, r.who, r.cause, secs, sem, attr, r.at, allowed), Enter(w, q, h, r, allowed))
  {
    hide AsTold, HaltQue;
    if !Setup(w, q, r.who, allowed).0 {
      EnterRefused(w, q, h, r, allowed);
    } else {
      ChargeOne(w, q, r.who, allowed);
      var q1 := AddQueued(q, w.owner(r.who), 1);
      SameBut(w, q, q1, h);
      var e := Entry(q.admitted, r.who, r.cause, sem, attr, if secs != 0 then r.at + secs else 0);
      PlaceTold(w, q1, h, r, e, secs);
      hide Give, Insert;
      assert WaitQue(w, q, r.who, r.cause, secs, sem, attr, r.at, allowed) == Place(w, q1, e, secs);
    }
  }

  lemma SemWaitTold(w: World, q: Queues, h: seq<Record>, who: nat, cause: int, thing: int, attr: int, secs: int, at: int, allowed: bool)
    requires Sane(w) && AsTold(w, q, h)
    ensures AsTold(w, Apply(w, q, SemWait(who, cause, thing, attr, secs, at, allowed)), NoteAct(w, q, h, SemWait(who, cause, thing, attr, secs, at, allowed)))
  {
    if !(thing < 0 || attr <= 0) {
      var q1 := AddTo(q, thing, 1, attr);
      SameBut(w, q, q1, h);
      var ahead := Count(q, thing, attr) < 0;
      assert Count(q1, thing, attr) == Count(q, thing, attr) + 1;
      hide AsTold, WaitQue, Count;
      WaitQueTold(w, q1, h, Sem(who, cause, secs, at, thing, attr, ahead), if ahead then 0 else secs, if ahead then NOTHING else thing, attr, allowed);
    }
  }

  // ------------------------------------------------------------------ nfy_que

  /** Records only get on, so what was true of them for the queues stays true. */
  lemma ToldRun(w: World, q: Queues, h: seq<Record>, s: Sign)
    requires RunTold(w, h, q) && !s.Stop?
    ensures RunTold(w, All(w, h, s), q)
  {
    hide Comes;
  }

  lemma {:induction false} LeftNone(w: World, k: Sel, key: Key, times: int, num: int, s: seq<Entry>)
    requires !key.Notify?
    ensures forall e :: e in Left(w, k, key, times, num, s) ==> !Sat(w, k, e)
    decreases |s|
  {
    if s != [] { LeftNone(w, k, key, times, if Sat(w, k, s[0]) then num + 1 else num, s[1..]); }
  }

  lemma GiveAllRest(w: World, q: Queues, s: seq<Entry>)
    ensures SameRest(q, GiveAll(w, q, s))
  {
    GiveAllKeeps(w, q, s, LiveOf(0));
  }

  lemma NotifyTold(w: World, q: Queues, h: seq<Record>, sem: int, attr: int, key: Key, times: int)
    requires AsTold(w, q, h) && !key.Drain?
    ensures AsTold(w, Woken(w, q, On(sem, attr), key, times), All(w, h, Told(sem, attr)))
  {
    var k, h' := On(sem, attr), All(w, h, Told(sem, attr));
    var taken := Taken(w, k, key, times, 0, q.sems);
    ToldRun(w, q, h, Told(sem, attr));
    EndTouched(w, h, Told(sem, attr), q.ended);
    GiveAllRest(w, q, taken);
    assert forall e :: e in taken ==> Ready(h', e) by { hide DueAt, Taken, Left, RunTold, GiveAll; }
    GiveAllTold(w, h', q, taken);
    hide DueAt, RunTold, EndTold, GiveAll, Taken, Left;
  }

  lemma DrainTold(w: World, q: Queues, h: seq<Record>, sem: int, attr: int, times: int)
    requires AsTold(w, q, h) && Proper(q)
    ensures AsTold(w, Woken(w, q, On(sem, attr), Drain, times), All(w, h, Drained(sem, attr)))
  {
    var k, h' := On(sem, attr), All(w, h, Drained(sem, attr));
    var taken := Taken(w, k, Drain, times, 0, q.sems);
    ToldRun(w, q, h, Drained(sem, attr));
    EndTouched(w, h, Drained(sem, attr), q.ended);
    DrainAllForm(w, q, taken, 0);
    hide RunTold, EndTold, DrainAll, Taken, Left, Ids, Many;
    DrainSems(w, h, q.sems, sem, attr, times);
    hide SemsTold;
    EndConcat(h', q.ended, Ids(taken));
    assert WaitTold(h', q.wait) by { hide DueAt; }
  }

  lemma DrainSems(w: World, h: seq<Record>, s: seq<Entry>, sem: int, attr: int, times: int)
    requires SemsTold(h, s)
    ensures var k, h' := On(sem, attr), All(w, h, Drained(sem, attr));
      SemsTold(h', Left(w, k, Drain, times, 0, s)) && EndTold(h', Ids(Taken(w, k, Drain, times, 0, s)))
  {
    LeftNone(w, On(sem, attr), Drain, times, 0, s);
    hide DueAt, Taken, Left, Ids, EndTold;
    EndIds(All(w, h, Drained(sem, attr)), Taken(w, On(sem, attr), Drain, times, 0, s));
  }

  lemma NfyTold(w: World, q: Queues, h: seq<Record>, sem: int, attr: int, key: Key, times: int)
    requires AsTold(w, q, h) && Proper(q)
    ensures AsTold(w, NfyQue(w, q, sem, attr, key, times), NoteAct(w, q, h, Nfy(sem, attr, key, times)))
  {
    hide AsTold, Woken, NfyWalk, Proper;
    NfyIsWoken(w, q, On(sem, attr), key, times);
    var q1 := if attr == 0 || Count(q, sem, attr) > 0 then Woken(w, q, On(sem, attr), key, times) else q;
    if attr == 0 || Count(q, sem, attr) > 0 {
      if key.Drain? { DrainTold(w, q, h, sem, attr, times); } else { NotifyTold(w, q, h, sem, attr, key, times); }
    }
    SameBut(w, q1, NfyQue(w, q, sem, attr, key, times), NoteAct(w, q, h, Nfy(sem, attr, key, times)));
  }

  // ------------------------------------------------------------------ do_second

  lemma MergeTold(w: World, q: Queues, h: seq<Record>, now: int)
    requires RunTold(w, h, q)
    ensures RunTold(w, All(w, h, Pass(now)), Merge(q))
  {
    var h' := All(w, h, Pass(now));
    ToldRun(w, q, h, Pass(now));
    hide Comes;
    forall i | i in Ids(q.objects) ensures Reached(w, h', i) {
      var j :| 0 <= j < |q.objects| && q.objects[j].id == i;
      assert InHand(h, q.objects[j]);
    }
  }

  lemma SecondTold(w: World, q: Queues, h: seq<Record>, now: int)
    requires AsTold(w, q, h)
    ensures AsTold(w, DoSecond(w, q, now), All(w, h, Pass(now)))
  {
    var h' := All(w, h, Pass(now));
    hide DoSecond, RunTold, EndTold, WaitTold, SemsTold, Merge, WakeFirst, Expired;
    SecondForm(w, q, now);
    MergeTold(w, q, h, now);
    EndTouched(w, h, Pass(now), q.ended);
    PassWait(w, h, q.wait, now);
    PassSems(w, h, q.sems, now);
    MergeRest(q);
    var q1 := Merge(q);
    WakeTold(w, q1, h', now);
    ExpiredTold(w, WakeFirst(w, q1, now), h', now);
  }

  lemma MergeRest(q: Queues)
    ensures var q' := Merge(q); q'.wait == q.wait && q'.sems == q.sems && q'.ended == q.ended && q'.admitted == q.admitted
  {
  }

  lemma WakeTold(w: World, q: Queues, h: seq<Record>, now: int)
    requires RunTold(w, h, q) && WaitTold(h, q.wait) && forall e :: e in q.wait && e.waittime <= now ==> Ready(h, e)
    ensures var q' := WakeFirst(w, q, now);
      && RunTold(w, h, q') && WaitTold(h, q'.wait) && q'.sems == q.sems && q'.ended == q.ended && q'.admitted == q.admitted
  {
    hide Waiting, Ready;
    if q.wait != [] && q.wait[0].waittime <= now {
      var q1 := q.(wait := q.wait[1..]);
      assert RunTold(w, h, q1);
      assert q.wait[0] in q.wait;
      hide RunTold;
      GiveTold(w, h, q1, q.wait[0]);
    }
  }

  lemma {:induction false} FreedReady(h: seq<Record>, s: seq<Entry>)
    requires forall e :: e in s ==> Ready(h, e)
    ensures forall e :: e in Freed(s) ==> Ready(h, e)
  {
    if s != [] {
      FreedReady(h, s[1..]);
      assert s[0] in s && Ready(h, s[0].(sem := NOTHING));
      assert forall e :: e in Freed(s) ==> e == s[0].(sem := NOTHING) || e in Freed(s[1..]);
    }
  }

  lemma ExpiredTold(w: World, q: Queues, h: seq<Record>, now: int)
    requires RunTold(w, h, q) && forall e :: e in Hit(w, Due(now), q.sems) ==> Ready(h, e)
    ensures var q' := Expired(w, q, now);
      && RunTold(w, h, q') && q'.wait == q.wait && q'.sems == Keep(w, Due(now), q.sems)
      && q'.ended == q.ended && q'.admitted == q.admitted
  {
    var hit := Hit(w, Due(now), q.sems);
    FreedReady(h, hit);
    var q1 := q.(count := GiveBack(q.count, hit));
    assert RunTold(w, h, q1);
    hide RunTold, Ready, GiveAll, Freed, GiveBack, Hit, Keep;
    GiveAllTold(w, h, q1, Freed(hit));
    GiveAllRest(w, q1, Freed(hit));
    assert RunTold(w, h, Expired(w, q, now)) by { SemsAside(w, h, GiveAll(w, q1, Freed(hit)), Expired(w, q, now)); }
  }

  lemma SemsAside(w: World, h: seq<Record>, q: Queues, q': Queues)
    requires RunTold(w, h, q) && q' == q.(sems := q'.sems)
    ensures RunTold(w, h, q')
  {
  }

  lemma PassWait(w: World, h: seq<Record>, s: seq<Entry>, now: int)
    requires WaitTold(h, s)
    ensures WaitTold(All(w, h, Pass(now)), s)
    ensures forall e :: e in s && e.waittime <= now ==> Ready(All(w, h, Pass(now)), e)
  {
    hide DueAt;
  }

  lemma PassSems(w: World, h: seq<Record>, s: seq<Entry>, now: int)
    requires SemsTold(h, s)
    ensures SemsTold(All(w, h, Pass(now)), Keep(w, Due(now), s))
    ensures forall e :: e in Hit(w, Due(now), s) ==> Ready(All(w, h, Pass(now)), e)
  {
    hide DueAt;
  }

  // ------------------------------------------------------------------ QUEUE_WARP

  lemma ShiftWait(w: World, h: seq<Record>, s: seq<Entry>, i: int)
    requires WaitTold(h, s)
    ensures WaitTold(All(w, h, Shift(i)), Rewind(s, i))
  {
    RewindAll(s, i);
    hide Waiting, Rewind;
    var r, h' := Rewind(s, i), All(w, h, Shift(i));
    forall e | e in r ensures Waiting(h', e) {
      var j :| 0 <= j < |r| && r[j] == e;
      assert s[j] in s;
      ShiftOne(w, h, s[j], i);
    }
  }

  lemma ShiftOne(w: World, h: seq<Record>, e: Entry, i: int)
    requires Waiting(h, e)
    ensures Waiting(All(w, h, Shift(i)), e.(waittime := -i))
  {
    ShiftDue(h[e.id], i);
    hide DueAt;
  }

  lemma ShiftDue(x: Record, i: int)
    ensures DueAt(x.r, x.warps + [i]) == if x.r.Plain? then -i else Sooner(DueAt(x.r, x.warps), i)
  {
    assert (x.warps + [i])[..|x.warps|] == x.warps;
  }

  lemma {:induction false} HastenAt(s: seq<Entry>, i: int)
    ensures forall j :: 0 <= j < |s| ==> Hasten(s, i)[j] == s[j].(waittime := Sooner(s[j].waittime, i))
  {
    if s != [] { HastenAt(s[1..], i); }
  }

  lemma ShiftSem(w: World, h: seq<Record>, e: Entry, i: int)
    requires OnSem(h, e)
    ensures OnSem(All(w, h, Shift(i)), e.(waittime := Sooner(e.waittime, i)))
  {
    ShiftDue(h[e.id], i);
    hide DueAt;
  }

  lemma ShiftSems(w: World, h: seq<Record>, s: seq<Entry>, i: int)
    requires SemsTold(h, s)
    ensures SemsTold(All(w, h, Shift(i)), Hasten(s, i))
  {
    HastenAt(s, i);
    hide OnSem, Sooner, Hasten;
    var r, h' := Hasten(s, i), All(w, h, Shift(i));
    forall e | e in r ensures OnSem(h', e) {
      var j :| 0 <= j < |r| && r[j] == e;
      assert s[j] in s;
      ShiftSem(w, h, s[j], i);
    }
  }

  lemma WarpTold(w: World, q: Queues, h: seq<Record>, i: int, now: int)
    requires AsTold(w, q, h)
    ensures AsTold(w, DoWarp(w, q, i, now), NoteAct(w, q, h, Warp(i, now)))
  {
    var h1 := All(w, h, Shift(i));
    ShiftWait(w, h, q.wait, i);
    ShiftSems(w, h, q.sems, i);
    ToldRun(w, q, h, Shift(i));
    EndTouched(w, h, Shift(i), q.ended);
    assert AsTold(w, Warped(q, i), h1) by { hide Waiting, OnSem, InHand, Reached, Rewind, Hasten, EndTold; }
    hide AsTold;
    SecondTold(w, Warped(q, i), h1, now);
  }

  // ------------------------------------------------------------------ every run

  lemma ApplyTold(w: World, q: Queues, h: seq<Record>, a: Act)
    requires Sane(w) && Inv(w, q) && AsTold(w, q, h)
    ensures AsTold(w, Apply(w, q, a), NoteAct(w, q, h, a))
  {
    match a
    case Wait(who, cause, secs, at, allowed) =>
      hide AsTold, Inv, WaitQue; WaitQueTold(w, q, h, Plain(who, cause, secs, at), secs, NOTHING, 0, allowed);
    case SemWait(who, cause, thing, attr, secs, at, allowed) =>
      hide AsTold, Inv, Apply, NoteAct; SemWaitTold(w, q, h, who, cause, thing, attr, secs, at, allowed);
    case Nfy(sem, attr, key, times) => hide AsTold, NfyQue, NoteAct; NfyTold(w, q, h, sem, attr, key, times);
    case Halt(ptarg, otarg) => hide AsTold, Inv, HaltQue; HaltTold(w, q, h, ptarg, otarg);
    case Second(now) => hide AsTold, Inv, DoSecond; SecondTold(w, q, h, now);
    case Warp(i, now) => hide AsTold, Inv, DoWarp, NoteAct; WarpTold(w, q, h, i, now);
  }

  lemma {:induction false} PerformTold(w: World, q: Queues, h: seq<Record>, acts: seq<Act>)
    requires Sane(w) && Inv(w, q) && AsTold(w, q, h)
    ensures AsTold(w, Perform(w, q, acts), NoteActs(w, q, h, acts))
    decreases |acts|
  {
    hide Inv, AsTold, Sane, Apply, NoteAct;
    if acts != [] {
      ApplyTold(w, q, h, acts[0]);
      ApplyKeeps(w, q, acts[0]);
      PerformTold(w, Apply(w, q, acts[0]), NoteAct(w, q, h, acts[0]), acts[1..]);
    }
  }

  lemma {:induction false} NoOther(w: World, s: seq<Entry>, i: nat)
    requires Many(w, WithId(i), s) == 0
    ensures forall e :: e in s ==> e.id != i
  {
    if s != [] { NoOther(w, s[1..], i); }
  }

  /** Nothing else in the queues has the serial number of the head. */
  lemma HeadAlone(w: World, q: Queues)
    requires Once(w, q) && q.players != []
    ensures var i := q.players[0].id;
      && (forall e :: e in q.players[1..] ==> e.id != i) && (forall e :: e in q.objects ==> e.id != i)
      && (forall e :: e in q.wait ==> e.id != i) && (forall e :: e in q.sems ==> e.id != i)
  {
    var i, k := q.players[0].id, WithId(q.players[0].id);
    assert Census(w, q, i) == if i < q.admitted then 1 else 0;
    assert Many(w, k, q.players) == 1 + Many(w, k, q.players[1..]);
    hide Many;
    NoOther(w, q.players[1..], i);
    NoOther(w, q.objects, i);
    NoOther(w, q.wait, i);
    NoOther(w, q.sems, i);
  }

  lemma TakeTold(w: World, q: Queues, h: seq<Record>, going: bool)
    requires Once(w, q) && AsTold(w, q, h) && q.players != []
    ensures AsTold(w, TakeTop(w, q, going), NoteTake(q, h, going))
  {
    var e, rest := q.players[0], q.players[1..];
    assert e in q.players;
    if e.player >= 0 && !going {
      HeadAlone(w, q);
      hide Once, DueAt;
      var q', h' := TakeTop(w, q, going), NoteTake(q, h, going);
      assert forall x :: x in q'.players ==> x == e.(player := NOTHING) || x in rest;
      assert forall x :: x in rest ==> x in q.players;
      assert h'[e.id].off && |h'| == |h| && forall k :: 0 <= k < |h| && k != e.id ==> h'[k] == h[k];
      assert RunTold(w, h', q');
    }
  }

  lemma PopTold(w: World, q: Queues, h: seq<Record>)
    requires AsTold(w, q, h)
    ensures AsTold(w, PopTop(q), h)
  {
    hide Waiting, OnSem, InHand, Reached, Gone;
  }

  lemma StepTold(w: World, q: Queues, h: seq<Record>, s: Step)
    requires Sane(w) && Inv(w, q) && AsTold(w, q, h)
    ensures AsTold(w, Next(w, q, s), NoteStep(w, q, h, s))
  {
    match s
    case Do(a) => hide AsTold, Inv, Apply, NoteAct; ApplyTold(w, q, h, a);
    case Top(going, halted, acts) =>
      if q.players != [] {
        TakeTold(w, q, h, going);
        TakeTopKeeps(w, q, going);
        hide AsTold, Inv, TakeTop, NoteTake, Perform, NoteActs, PopTop;
        var q1, deeds := TakeTop(w, q, going), Deeds(q, going, halted, acts);
        PerformTold(w, q1, NoteTake(q, h, going), deeds);
        PopTold(w, Perform(w, q1, deeds), NoteActs(w, q1, NoteTake(q, h, going), deeds));
      }
  }

  /** Over every run the queues are as the records say. */
  lemma {:induction false} AlwaysTold(w: World, steps: seq<Step>)
    requires Sane(w)
    ensures AsTold(w, After(w, steps), Records(w, steps))
  {
    if steps != [] {
      hide AsTold, Next, NoteStep, Sane, Inv;
      var n := |steps| - 1;
      AlwaysTold(w, steps[..n]);
      AlwaysInv(w, steps[..n]);
      StepTold(w, After(w, steps[..n]), Records(w, steps[..n]), steps[n]);
    }
  }

  // ------------------------------------------------------------------ what the records mean

  /** A pass of do_second came at or after this time. */
  ghost predicate Struck(x: Record, t: int) { exists c :: c in x.clocks && t <= c }

  /** What can be run was asked for at once, or its time came, or its semaphore was notified. */
  ghost predicate Sound(x: Record) {
    && (x.since.Some? ==> AtOnce(x.r) || x.ripe || x.told)
    && (x.told ==> x.r.Sem?)
    && (x.ripe && x.warps == [] ==> !AtOnce(x.r) && x.r.secs != 0 && Struck(x, x.r.at + x.r.secs))
  }

  ghost predicate AllSound(h: seq<Record>) { forall k :: 0 <= k < |h| ==> Sound(h[k]) }

  lemma TouchSound(w: World, x: Record, s: Sign)
    requires Sound(x)
    ensures Sound(Touch(w, x, s))
  {
    var y := Touch(w, x, s);
    assert forall c :: c in x.clocks ==> c in y.clocks;
    if s.Pass? { assert s.now in y.clocks; }
    if x.ripe && x.warps == [] && y.warps == [] {
      var c :| c in x.clocks && x.r.at + x.r.secs <= c;
      assert c in y.clocks;
    }
  }

  lemma AllTouched(w: World, h: seq<Record>, s: Sign)
    requires AllSound(h)
    ensures AllSound(All(w, h, s))
  {
    hide Sound, Touch;
    forall k | 0 <= k < |h| ensures Sound(All(w, h, s)[k]) { TouchSound(w, h[k], s); }
  }

  lemma EnterSound(w: World, q: Queues, h: seq<Record>, r: Request, allowed: bool)
    requires AllSound(h)
    ensures AllSound(Enter(w, q, h, r, allowed))
  {
    AllTouched(w, h, Stop(w.owner(r.who), NOTHING));
    assert Sound(Fresh(r));
    hide Sound, Touch, Fresh;
  }

  lemma NoteSound(w: World, q: Queues, h: seq<Record>, a: Act)
    requires AllSound(h)
    ensures AllSound(NoteAct(w, q, h, a))
  {
    hide AllSound, Enter;
    match a
    case Wait(who, cause, secs, at, allowed) => EnterSound(w, q, h, Plain(who, cause, secs, at), allowed);
    case SemWait(who, cause, thing, attr, secs, at, allowed) =>
      EnterSound(w, q, h, Sem(who, cause, secs, at, thing, attr, Count(q, thing, attr) < 0), allowed);
    case Nfy(sem, attr, key, times) => AllTouched(w, h, if key.Drain? then Drained(sem, attr) else Told(sem, attr));
    case Halt(ptarg, otarg) => AllTouched(w, h, Stop(ptarg, otarg));
    case Second(now) => AllTouched(w, h, Pass(now));
    case Warp(i, now) => AllTouched(w, h, Shift(i)); AllTouched(w, All(w, h, Shift(i)), Pass(now));
  }

  lemma {:induction false} NotesSound(w: World, q: Queues, h: seq<Record>, acts: seq<Act>)
    requires AllSound(h)
    ensures AllSound(NoteActs(w, q, h, acts))
    decreases |acts|
  {
    hide AllSound, NoteAct, Apply;
    if acts != [] {
      NoteSound(w, q, h, acts[0]);
      NotesSound(w, Apply(w, q, acts[0]), NoteAct(w, q, h, acts[0]), acts[1..]);
    }
  }

  lemma StepSound(w: World, q: Queues, h: seq<Record>, s: Step)
    requires AllSound(h)
    ensures AllSound(NoteStep(w, q, h, s))
  {
    match s
    case Do(a) => hide AllSound, NoteAct; NoteSound(w, q, h, a);
    case Top(going, halted, acts) =>
      if q.players != [] {
        assert AllSound(NoteTake(q, h, going));
        hide AllSound, NoteTake, TakeTop, NoteActs;
        NotesSound(w, TakeTop(w, q, going), NoteTake(q, h, going), Deeds(q, going, halted, acts));
      }
  }

  lemma {:induction false} AlwaysSound(w: World, steps: seq<Step>)
    ensures AllSound(Records(w, steps))
  {
    if steps != [] {
      hide AllSound, NoteStep;
      var n := |steps| - 1;
      AlwaysSound(w, steps[..n]);
      StepSound(w, After(w, steps[..n]), Records(w, steps[..n]), steps[n]);
    }
  }

  // ------------------------------------------------------------------ the promises

  /** Over every run, a command on the wait queue waits for the time of its request plus the seconds it asked for, and one
      on the semaphore queue likewise if it asked for a timeout: exactly, unless it was warped since, and then for what
      the warps made of that.  It waits for whoever asked, and on the semaphore asked for. */
  lemma {:induction false} WaitsAsAsked(w: World, steps: seq<Step>, e: Entry)
    requires Sane(w)
    ensures var q, h := After(w, steps), Records(w, steps);
      && |h| == q.admitted
      && (e in q.wait || e in q.sems ==>
            && e.id < |h|
            && var x := h[e.id];
            && e.player == x.r.who && e.cause == x.r.cause && !AtOnce(x.r) && !x.off && e.waittime == DueAt(x.r, x.warps)
            && (e in q.wait ==> x.r.Plain? && (x.warps == [] ==> e.waittime == x.r.at + x.r.secs))
            && (e in q.sems ==> x.r.Sem? && e.sem == x.r.thing && e.attr == x.r.attr)
            && (e in q.sems && x.warps == [] ==> e.waittime == if x.r.secs == 0 then 0 else x.r.at + x.r.secs))
  {
    AlwaysTold(w, steps);
  }

  /** Over every run, nothing runs early: a command is on a run queue or was served only if it was asked for at once, or a
      pass of do_second came at or after its time, or it waited on a semaphore that was notified, or was warped. */
  lemma {:induction false} NeverEarly(w: World, steps: seq<Step>, i: nat)
    requires Sane(w)
    requires var q := After(w, steps); i in q.arrivals || i in q.served || i in Ids(q.objects)
    ensures i < |Records(w, steps)|
    ensures var x := Records(w, steps)[i];
      AtOnce(x.r) || x.warps != [] || (x.r.secs != 0 && Struck(x, x.r.at + x.r.secs)) || (x.r.Sem? && x.told)
  {
    hide AsTold, AllSound, Inv, Struck, AtOnce, After, Records;
    AlwaysTold(w, steps);
    AlwaysSound(w, steps);
    AlwaysInv(w, steps);
    CanRun(w, After(w, steps), Records(w, steps), i);
  }

  lemma CanRun(w: World, q: Queues, h: seq<Record>, i: nat)
    requires AsTold(w, q, h) && AllSound(h) && Inv(w, q)
    requires i in q.arrivals || i in q.served || i in Ids(q.objects)
    ensures i < |h| && (AtOnce(h[i].r) || h[i].warps != [] || (h[i].r.secs != 0 && Struck(h[i], h[i].r.at + h[i].r.secs)) || (h[i].r.Sem? && h[i].told))
  {
    ServedArrived(w, q, i);
    ObjectId(q, i);
    hide Inv, WaitTold, SemsTold, EndTold, Struck, DueAt, Ids, AtOnce;
    if i in q.arrivals {
      assert Reached(w, h, i);
    } else {
      var e :| e in q.objects && e.id == i;
      assert InHand(h, e);
    }
    assert Sound(h[i]);
  }

  lemma ObjectId(q: Queues, i: nat)
    ensures i in Ids(q.objects) <==> exists e :: e in q.objects && e.id == i
  {
    if i in Ids(q.objects) {
      var j :| 0 <= j < |q.objects| && Ids(q.objects)[j] == i;
      assert q.objects[j] in q.objects;
    }
    if e :| e in q.objects && e.id == i {
      var j :| 0 <= j < |q.objects| && q.objects[j] == e;
      assert Ids(q.objects)[j] == i;
    }
  }

  lemma ServedArrived(w: World, q: Queues, i: nat)
    requires Inv(w, q)
    ensures i in q.served ==> i in q.arrivals
  {
  }

  /** What a player causes is never on the object queue; what another object causes reaches the player queue only with a
      pass of do_second after the one in which it could first run. */
  lemma {:induction false} ObjectsAPassLater(w: World, steps: seq<Step>, i: nat)
    requires Sane(w) && i < |Records(w, steps)|
    ensures var q, x := After(w, steps), Records(w, steps)[i];
      && (i in Ids(q.objects) ==> !w.isPlayer(x.r.cause))
      && (i in q.arrivals && !w.isPlayer(x.r.cause) ==> x.since.Some? && x.since.value >= 1)
  {
    var q, h := After(w, steps), Records(w, steps);
    AlwaysTold(w, steps);
    if i in Ids(q.objects) {
      var j :| 0 <= j < |q.objects| && q.objects[j].id == i;
      assert q.objects[j] in q.objects && InHand(h, q.objects[j]);
    }
  }

  /** do_top runs commands for those who asked, and never one that @halt, or the overflow of its owner's quota, stopped. */
  lemma {:induction false} HaltedNeverRuns(w: World, steps: seq<Step>, going: bool, halted: bool, acts: seq<Act>)
    requires Sane(w) && After(w, steps).players != []
    ensures var q, h := After(w, steps), Records(w, steps);
      var e := q.players[0];
      && e.id < |h| && e.cause == h[e.id].r.cause
      && e.player == (if h[e.id].off then NOTHING else h[e.id].r.who)
      && Deeds(q, going, halted, acts) == if h[e.id].off || going || halted then [] else acts
  {
    AlwaysTold(w, steps);
    assert After(w, steps).players[0] in After(w, steps).players;
  }

  /** No command is dropped but by @halt, the overflow of its owner's quota, or @drain of its semaphore; and those that
      were meant by one of them wait no more. */
  lemma {:induction false} EndedOnRequest(w: World, steps: seq<Step>, i: nat)
    requires Sane(w)
    ensures var q, h := After(w, steps), Records(w, steps);
      && (i in q.ended ==> i < |h| && (h[i].off || h[i].drained))
      && (i in Ids(q.wait + q.sems) ==> i < |h| && !h[i].off && (h[i].r.Sem? ==> !h[i].drained && !h[i].ripe))
  {
    var q, h := After(w, steps), Records(w, steps);
    AlwaysTold(w, steps);
    if i in q.ended { assert Gone(h, i); }
    var s := q.wait + q.sems;
    if i in Ids(s) {
      var j :| 0 <= j < |s| && s[j].id == i;
      assert s[j] in q.wait || s[j] in q.sems;
    }
  }

  // ------------------------------------------------------------------ timeouts, exactly

  lemma {:induction false} KeepIf(w: World, k: Sel, s: seq<Entry>, e: Entry)
    requires e in s
    ensures e in Keep(w, k, s) <==> !Sat(w, k, e)
    ensures Sat(w, k, e) ==> e in Hit(w, k, s)
  {
    if e != s[0] { KeepIf(w, k, s[1..], e); }
    else if e in s[1..] { KeepIf(w, k, s[1..], e); }
  }

  /** The entries given to one of the two run queues */
  function Awake(w: World, players: bool, s: seq<Entry>): seq<Entry> {
    if s == [] then []
    else if w.isPlayer(s[0].cause) == players then [s[0].(waittime := 0)] + Awake(w, players, s[1..]) else Awake(w, players, s[1..])
  }

  lemma {:induction false} GiveAllForm(w: World, q: Queues, s: seq<Entry>)
    ensures GiveAll(w, q, s) == q.(
      players := q.players + Awake(w, true, s), objects := q.objects + Awake(w, false, s),
      arrivals := q.arrivals + Ids(Awake(w, true, s)))
    decreases |s|
  {
    if s == [] {
      assert q.arrivals + Ids([]) == q.arrivals;
    } else {
      var e', rest := s[0].(waittime := 0), s[1..];
      GiveAllForm(w, Give(w, q, s[0]), rest);
      IdsConcat([e'], Awake(w, true, rest));
      assert Ids([e']) == [s[0].id];
      hide Ids;
      ThreeParts(q.arrivals, [s[0].id], Ids(Awake(w, true, rest)));
    }
  }

  lemma {:induction false} AwakeHas(w: World, s: seq<Entry>, e: Entry)
    requires e in s
    ensures e.(waittime := 0) in Awake(w, w.isPlayer(e.cause), s)
  {
    if e != s[0] { AwakeHas(w, s[1..], e); }
  }

  lemma {:induction false} FreedHas(s: seq<Entry>, e: Entry)
    requires e in s
    ensures e.(sem := NOTHING) in Freed(s)
  {
    if e != s[0] { FreedHas(s[1..], e); }
  }

  /** A pass of do_second takes a command off the semaphore queue if and only if it has a timeout that is not later, and
      then it is on one of the run queues. */
  lemma {:induction false} ExpiredExactly(w: World, steps: seq<Step>, now: int, e: Entry)
    requires Sane(w) && e in After(w, steps).sems && e.id < |Records(w, steps)|
    ensures var q', x := DoSecond(w, After(w, steps), now), Records(w, steps)[e.id];
      var t := DueAt(x.r, x.warps);
      && (e in q'.sems <==> t == 0 || now < t)
      && (x.warps == [] ==> (e in q'.sems <==> x.r.secs == 0 || x.r.at + x.r.secs == 0 || now < x.r.at + x.r.secs))
      && (e !in q'.sems ==> e.(sem := NOTHING, waittime := 0) in if w.isPlayer(e.cause) then q'.players else q'.objects)
  {
    hide DueAt, DoSecond, Records, After;
    WaitsAsAsked(w, steps, e);
    SecondTakes(w, After(w, steps), now, e);
  }

  lemma SecondTakes(w: World, q: Queues, now: int, e: Entry)
    requires e in q.sems
    ensures var q' := DoSecond(w, q, now);
      && (e in q'.sems <==> !Sat(w, Due(now), e))
      && (e !in q'.sems ==> e.(sem := NOTHING, waittime := 0) in if w.isPlayer(e.cause) then q'.players else q'.objects)
  {
    SecondForm(w, q, now);
    MergeRest(q);
    var q2 := WakeFirst(w, Merge(q), now);
    assert q2.sems == q.sems;
    hide DoSecond, WakeFirst, Merge, GiveAll, GiveBack, Freed, Hit, Keep, Awake, Sat;
    var hit := Hit(w, Due(now), q.sems);
    GiveAllForm(w, q2.(count := GiveBack(q2.count, hit)), Freed(hit));
    KeepIf(w, Due(now), q.sems, e);
    if e in hit {
      FreedHas(hit, e);
      AwakeHas(w, Freed(hit), e.(sem := NOTHING));
    }
  }

  // ------------------------------------------------------------------ first come, first notified

  function Shorter(n: nat, s: seq<Entry>): nat { if n < |s| then n else |s| }

  /** What nfy_que takes stood before what it leaves. */
  lemma {:induction false} TakenFirst(w: World, k: Sel, key: Key, times: int, num: int, s: seq<Entry>)
    ensures Hit(w, k, s) == Taken(w, k, key, times, num, s) + Hit(w, k, Left(w, k, key, times, num, s))
    decreases |s|
  {
    hide Sat;
    if s != [] {
      var num1 := if Sat(w, k, s[0]) then num + 1 else num;
      if !(key.Notify? && num1 >= times) { TakenFirst(w, k, key, times, num1, s[1..]); }
    }
  }

  lemma {:induction false} LeftOthers(w: World, k: Sel, times: int, num: int, s: seq<Entry>)
    ensures Keep(w, k, Left(w, k, Notify, times, num, s)) == Keep(w, k, s)
    decreases |s|
  {
    hide Sat;
    if s != [] {
      var num1 := if Sat(w, k, s[0]) then num + 1 else num;
      if num1 < times { LeftOthers(w, k, times, num1, s[1..]); }
    }
  }

  /** @notify with a positive count: the first so many of those that wait there can run, in their order, and nobody else. */
  lemma NotifiesFirst(w: World, q: Queues, sem: int, attr: int, times: int)
    requires Proper(q) && times > 0 && (attr == 0 || Count(q, sem, attr) > 0)
    ensures var q', k := NfyQue(w, q, sem, attr, Notify, times), On(sem, attr);
      var line := Hit(w, k, q.sems);
      var n := Shorter(times, line);
      && Hit(w, k, q'.sems) == line[n..] && Keep(w, k, q'.sems) == Keep(w, k, q.sems)
      && q'.players == q.players + Awake(w, true, line[..n]) && q'.objects == q.objects + Awake(w, false, line[..n])
  {
    var k := On(sem, attr);
    NfyIsWoken(w, q, k, Notify, times);
    TakenFirst(w, k, Notify, times, 0, q.sems);
    TakenMany(w, k, Notify, times, 0, q.sems);
    HitKeepMany(w, k, q.sems, k);
    LeftOthers(w, k, times, 0, q.sems);
    GiveAllForm(w, q, Taken(w, k, Notify, times, 0, q.sems));
    hide NfyWalk, Taken, Left, GiveAll, Hit, Keep, Awake;
  }
}
