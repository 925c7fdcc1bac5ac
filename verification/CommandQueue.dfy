/**
 The command queue of src/cque.c as a state machine over its four lists: the player queue, the object queue,
 the timed wait queue and the semaphore queue, with the semaphore counters kept in attributes and the queue
 counter of every owner.

 Ownership, object types and queue limits are fixed in a World; whether a command may be queued (halted object,
 money) and the time of day are inputs of the steps.  Every admitted command gets a serial number.
 */
module CommandQueue {
  const NOTHING := -1

  datatype World = World(owner: int -> int, isPlayer: int -> bool, queueMax: int -> nat)

  datatype Entry = Entry(id: nat, player: int, cause: int, sem: int, attr: int, waittime: int)

  type Counter = (int, int)

  datatype Queues = Queues(
    players: seq<Entry>,
    objects: seq<Entry>,
    wait: seq<Entry>,
    sems: seq<Entry>,
    count: map<Counter, int>,
    queued: map<int, int>,
    admitted: nat,
    arrivals: seq<nat>,
    served: seq<nat>,
    ended: seq<nat>)

  datatype Key = Notify | NotifyAll | Drain

  datatype Act =
    | Wait(who: nat, cause: int, secs: int, at: int, allowed: bool)
    | SemWait(swho: nat, scause: int, thing: int, attr: int, timeout: int, sat: int, sallowed: bool)
    | Nfy(sem: int, sattr: int, key: Key, times: int)
    | Halt(ptarg: int, otarg: int)
    | Second(now: int)
    | Warp(i: int, wnow: int)

  function Start(): Queues {
    Queues([], [], [], [], map[], map[], 0, [], [], [])
  }

  function Count(q: Queues, sem: int, attr: int): int {
    if (sem, attr) in q.count then q.count[(sem, attr)] else 0
  }

  function Queued(q: Queues, o: int): int {
    if o in q.queued then q.queued[o] else 0
  }

  // ------------------------------------------------------------------ selecting entries

  /** Which entries of a list are meant: live ones of an owner, those @halt wants, those on a
      semaphore, expired ones, the one with a given serial number. */
  datatype Sel = LiveOf(o: int) | Wanted(ptarg: int, otarg: int) | On(sem: int, attr: int) | Due(now: int) | WithId(i: nat)

  predicate Sat(w: World, k: Sel, e: Entry) {
    match k
    case LiveOf(o) => e.player != NOTHING && w.owner(e.player) == o
    // que_want
    case Wanted(p, t) => (p == NOTHING || p == w.owner(e.player)) && (t == NOTHING || t == e.player)
    case On(sem, attr) => e.sem == sem && (e.attr == attr || attr == 0)
    case Due(now) => e.waittime != 0 && e.waittime <= now
    case WithId(i) => e.id == i
  }

  function Many(w: World, k: Sel, s: seq<Entry>): nat {
    if s == [] then 0 else (if Sat(w, k, s[0]) then 1 else 0) + Many(w, k, s[1..])
  }

  function Ids(s: seq<Entry>): (r: seq<nat>)
    ensures |r| == |s| && forall i :: 0 <= i < |s| ==> r[i] == s[i].id
  {
    seq(|s|, i requires 0 <= i < |s| => s[i].id)
  }

  // ------------------------------------------------------------------ the operations

  /** add_to */
  function AddTo(q: Queues, sem: int, am: int, attr: int): Queues {
    q.(count := q.count[(sem, attr) := Count(q, sem, attr) + am])
  }

  /** a_Queue */
  function AddQueued(q: Queues, o: int, am: int): Queues {
    q.(queued := q.queued[o := Queued(q, o) + am])
  }

  /** give_que */
  function Give(w: World, q: Queues, e: Entry): Queues {
    var e' := e.(waittime := 0);
    if w.isPlayer(e.cause) then q.(players := q.players + [e'], arrivals := q.arrivals + [e.id])
    else q.(objects := q.objects + [e'])
  }

  /** halt_que on the player or object queue: wanted entries stay, but nobody will run them. */
  function Silence(w: World, k: Sel, s: seq<Entry>): (r: seq<Entry>)
    ensures |r| == |s| && Ids(r) == Ids(s)
  {
    if s == [] then [] else [if Sat(w, k, s[0]) then s[0].(player := NOTHING) else s[0]] + Silence(w, k, s[1..])
  }

  /** halt_que on the wait queue: wanted entries are unlinked. */
  function HaltWait(w: World, k: Sel, q: Queues, kept: seq<Entry>, rest: seq<Entry>): Queues
    decreases |rest|
  {
    if rest == [] then q.(wait := kept)
    else if Sat(w, k, rest[0]) then HaltWait(w, k, q.(ended := q.ended + [rest[0].id]), kept, rest[1..])
    else HaltWait(w, k, q, kept + [rest[0]], rest[1..])
  }

  /** halt_que on the semaphore queue: wanted entries are unlinked and give their count back. */
  function HaltSems(w: World, k: Sel, q: Queues, kept: seq<Entry>, rest: seq<Entry>): Queues
    decreases |rest|
  {
    if rest == [] then q.(sems := kept)
    else if Sat(w, k, rest[0]) then
      HaltSems(w, k, AddTo(q.(ended := q.ended + [rest[0].id]), rest[0].sem, -1, rest[0].attr), kept, rest[1..])
    else HaltSems(w, k, q, kept + [rest[0]], rest[1..])
  }

  /** How many entries of the four queues are meant; halt_que reports this number. */
  function Total(w: World, k: Sel, q: Queues): nat {
    Many(w, k, q.players) + Many(w, k, q.objects) + Many(w, k, q.wait) + Many(w, k, q.sems)
  }

  /** The four loops of halt_que */
  function Sweep(w: World, k: Sel, q: Queues): Queues {
    var q1 := q.(players := Silence(w, k, q.players), objects := Silence(w, k, q.objects));
    var q2 := HaltWait(w, k, q1, [], q1.wait);
    HaltSems(w, k, q2, [], q2.sems)
  }

  /** halt_que */
  function HaltQue(w: World, q: Queues, ptarg: int, otarg: int): Queues {
    var k := Wanted(ptarg, otarg);
    var o := if ptarg == NOTHING then w.owner(otarg) else ptarg;
    if otarg == NOTHING then Sweep(w, k, q).(queued := q.queued[o := 0])
    else AddQueued(Sweep(w, k, q), o, 0 - Total(w, k, q))
  }

  /** setup_que: whether the command is admitted, and the queues after the quota was charged. */
  function Setup(w: World, q: Queues, who: nat, allowed: bool): (bool, Queues) {
    if !allowed then (false, q)
    else
      var q1 := AddQueued(q, w.owner(who), 1);
      if Queued(q1, w.owner(who)) > w.queueMax(w.owner(who)) then (false, HaltQue(w, q1, w.owner(who), NOTHING))
      else (true, q1)
  }

  /** The place in the wait queue: after every entry that is not due later. */
  function Insert(s: seq<Entry>, e: Entry): seq<Entry> {
    if s != [] && s[0].waittime <= e.waittime then [s[0]] + Insert(s[1..], e) else [e] + s
  }

  /** wait_que */
  function WaitQue(w: World, q: Queues, who: nat, cause: int, secs: int, sem: int, attr: int, at: int, allowed: bool): Queues {
    var (ok, q1) := Setup(w, q, who, allowed);
    if !ok then q1
    else
      var e := Entry(q1.admitted, who, cause, sem, attr, if secs != 0 then at + secs else 0);
      var q2 := q1.(admitted := q1.admitted + 1);
      if sem == NOTHING then if secs <= 0 then Give(w, q2, e) else q2.(wait := Insert(q2.wait, e))
      else q2.(sems := q2.sems + [e])
  }

  /** do_wait on a semaphore: bad objects and attributes are refused. */
  function DoSemWait(w: World, q: Queues, who: nat, cause: int, thing: int, attr: int, secs: int, at: int, allowed: bool): Queues {
    if thing < 0 || attr <= 0 then q
    else
      var q1 := AddTo(q, thing, 1, attr);
      if Count(q1, thing, attr) <= 0 then WaitQue(w, q1, who, cause, 0, NOTHING, attr, at, allowed)
      else WaitQue(w, q1, who, cause, secs, thing, attr, at, allowed)
  }

  /** The loop of nfy_que: `num` entries were handled so far, `kept` were passed over. */
  function NfyWalk(w: World, q: Queues, k: Sel, key: Key, times: int, num: int, kept: seq<Entry>, rest: seq<Entry>): Queues
    decreases |rest|
  {
    if rest == [] then q.(sems := kept)
    else
      var hit := Sat(w, k, rest[0]);
      var q1 := if !hit then q else if key.Drain? then
                  AddQueued(q.(ended := q.ended + [rest[0].id]), w.owner(rest[0].player), -1)
                else Give(w, q, rest[0]);
      var num1 := if hit then num + 1 else num;
      var kept1 := if hit then kept else kept + [rest[0]];
      if key.Notify? && num1 >= times then q1.(sems := kept1 + rest[1..])
      else NfyWalk(w, q1, k, key, times, num1, kept1, rest[1..])
  }

  /** nfy_que */
  function NfyQue(w: World, q: Queues, sem: int, attr: int, key: Key, times: int): Queues {
    var q1 := if attr == 0 || Count(q, sem, attr) > 0 then NfyWalk(w, q, On(sem, attr), key, times, 0, [], q.sems) else q;
    if key.Notify? then AddTo(q1, sem, -times, attr) else q1.(count := q1.count[(sem, attr) := 0])
  }

  /** The loop of do_second over the semaphore queue */
  function Expire(w: World, q: Queues, now: int, kept: seq<Entry>, rest: seq<Entry>): Queues
    decreases |rest|
  {
    if rest == [] then q.(sems := kept)
    else
      var e := rest[0];
      if Sat(w, Due(now), e) then
        Expire(w, Give(w, AddTo(q, e.sem, -1, e.attr), e.(sem := NOTHING)), now, kept, rest[1..])
      else Expire(w, q, now, kept + [e], rest[1..])
  }

  /** do_second: its loop over the wait queue ends after one entry, because give_que clears the link it follows. */
  function DoSecond(w: World, q: Queues, now: int): Queues {
    var q1 := q.(players := q.players + q.objects, objects := [], arrivals := q.arrivals + Ids(q.objects));
    var q2 := if q1.wait != [] && q1.wait[0].waittime <= now then Give(w, q1.(wait := q1.wait[1..]), q1.wait[0]) else q1;
    Expire(w, q2, now, [], q2.sems)
  }

  function Rewind(s: seq<Entry>, i: int): (r: seq<Entry>)
    ensures |r| == |s| && Ids(r) == Ids(s)
  {
    if s == [] then [] else [s[0].(waittime := -i)] + Rewind(s[1..], i)
  }

  function Hasten(s: seq<Entry>, i: int): (r: seq<Entry>)
    ensures |r| == |s| && Ids(r) == Ids(s)
  {
    if s == [] then []
    else
      var t := s[0].waittime;
      [s[0].(waittime := if t <= 0 then t else if t - i <= 0 then -1 else t - i)] + Hasten(s[1..], i)
  }

  /** QUEUE_WARP of do_queue */
  function DoWarp(w: World, q: Queues, i: int, now: int): Queues {
    DoSecond(w, q.(wait := Rewind(q.wait, i), sems := Hasten(q.sems, i)), now)
  }

  function Apply(w: World, q: Queues, a: Act): Queues {
    match a
    case Wait(who, cause, secs, at, allowed) => WaitQue(w, q, who, cause, secs, NOTHING, 0, at, allowed)
    case SemWait(who, cause, thing, attr, secs, at, allowed) => DoSemWait(w, q, who, cause, thing, attr, secs, at, allowed)
    case Nfy(sem, attr, key, times) => NfyQue(w, q, sem, attr, key, times)
    case Halt(ptarg, otarg) => HaltQue(w, q, ptarg, otarg)
    case Second(now) => DoSecond(w, q, now)
    case Warp(i, now) => DoWarp(w, q, i, now)
  }

  function Perform(w: World, q: Queues, acts: seq<Act>): Queues
    decreases |acts|
  {
    if acts == [] then q else Perform(w, Apply(w, q, acts[0]), acts[1..])
  }

  /** do_top takes the command at the head over: its owner's counter and its player field are cleared. */
  function TakeTop(w: World, q: Queues, going: bool): Queues
    requires q.players != []
  {
    var p := q.players[0].player;
    if p >= 0 && !going then AddQueued(q, w.owner(p), -1).(players := [q.players[0].(player := NOTHING)] + q.players[1..]) else q
  }

  function PopTop(q: Queues): Queues {
    if q.players == [] then q else q.(players := q.players[1..], served := q.served + [q.players[0].id])
  }

  /** One round of do_top; `acts` is what the command does to the queues when it is run. */
  function DoTop(w: World, q: Queues, going: bool, halted: bool, acts: seq<Act>): Queues {
    if q.players == [] then q
    else
      var runs := q.players[0].player >= 0 && !going && !halted;
      PopTop(Perform(w, TakeTop(w, q, going), if runs then acts else []))
  }

  datatype Step = Do(act: Act) | Top(going: bool, halted: bool, acts: seq<Act>)

  function Next(w: World, q: Queues, s: Step): Queues {
    match s
    case Do(a) => Apply(w, q, a)
    case Top(going, halted, acts) => DoTop(w, q, going, halted, acts)
  }

  function After(w: World, steps: seq<Step>): Queues {
    if steps == [] then Start() else Next(w, After(w, steps[..|steps| - 1]), steps[|steps| - 1])
  }

  // ------------------------------------------------------------------ counting

  lemma {:induction false} ManyConcat(w: World, k: Sel, a: seq<Entry>, b: seq<Entry>)
    ensures Many(w, k, a + b) == Many(w, k, a) + Many(w, k, b)
  {
    if a == [] {
      assert a + b == b;
    } else {
      assert (a + b)[1..] == a[1..] + b;
      ManyConcat(w, k, a[1..], b);
    }
  }

  lemma ManyOne(w: World, k: Sel, e: Entry)
    ensures Many(w, k, [e]) == if Sat(w, k, e) then 1 else 0
  {
    assert [e][1..] == [];
  }

  lemma {:induction false} ManyAll(w: World, k: Sel, s: seq<Entry>)
    requires forall e :: e in s ==> Sat(w, k, e)
    ensures Many(w, k, s) == |s|
  {
    if s != [] { ManyAll(w, k, s[1..]); }
  }

  lemma {:induction false} ManyNone(w: World, k: Sel, s: seq<Entry>)
    requires forall e :: e in s ==> !Sat(w, k, e)
    ensures Many(w, k, s) == 0
  {
    if s != [] { ManyNone(w, k, s[1..]); }
  }

  /** How often a serial number occurs in a list of them. */
  function Times(s: seq<nat>, i: nat): nat { multiset(s)[i] }

  lemma TimesConcat(a: seq<nat>, b: seq<nat>, i: nat)
    ensures Times(a + b, i) == Times(a, i) + Times(b, i)
  {
  }

  lemma {:induction false} TimesIds(w: World, s: seq<Entry>, i: nat)
    ensures Times(Ids(s), i) == Many(w, WithId(i), s)
  {
    if s != [] {
      TimesIds(w, s[1..], i);
      assert Ids(s) == [s[0].id] + Ids(s[1..]);
    }
  }

  lemma IdsCons(s: seq<Entry>)
    requires s != []
    ensures Ids(s) == [s[0].id] + Ids(s[1..])
  {
  }

  lemma ThreeParts(a: seq<nat>, b: seq<nat>, c: seq<nat>)
    ensures a + (b + c) == a + b + c
  {
  }

  lemma IdsConcat(a: seq<Entry>, b: seq<Entry>)
    ensures Ids(a + b) == Ids(a) + Ids(b)
  {
  }

  /** The entries a loop unlinks, in order, and the ones it leaves. */
  function Hit(w: World, k: Sel, s: seq<Entry>): (r: seq<Entry>)
    ensures forall e :: e in r ==> e in s && Sat(w, k, e)
  {
    if s == [] then [] else if Sat(w, k, s[0]) then [s[0]] + Hit(w, k, s[1..]) else Hit(w, k, s[1..])
  }

  function Keep(w: World, k: Sel, s: seq<Entry>): (r: seq<Entry>)
    ensures forall e :: e in r ==> e in s && !Sat(w, k, e)
  {
    if s == [] then [] else if Sat(w, k, s[0]) then Keep(w, k, s[1..]) else [s[0]] + Keep(w, k, s[1..])
  }

  lemma {:induction false} HitKeepMany(w: World, k: Sel, s: seq<Entry>, c: Sel)
    ensures Many(w, c, Hit(w, k, s)) + Many(w, c, Keep(w, k, s)) == Many(w, c, s)
    ensures |Hit(w, k, s)| == Many(w, k, s)
  {
    hide Sat;
    if s != [] {
      HitKeepMany(w, k, s[1..], c);
      ManyConcat(w, c, [s[0]], if Sat(w, k, s[0]) then Hit(w, k, s[1..]) else Keep(w, k, s[1..]));
      ManyOne(w, c, s[0]);
    }
  }

  // ------------------------------------------------------------------ what the loops amount to

  lemma {:induction false} HaltWaitForm(w: World, k: Sel, q: Queues, kept: seq<Entry>, rest: seq<Entry>)
    ensures HaltWait(w, k, q, kept, rest) == q.(wait := kept + Keep(w, k, rest), ended := q.ended + Ids(Hit(w, k, rest)))
    decreases |rest|
  {
    hide Sat;
    if rest == [] {
      assert kept + [] == kept && q.ended + Ids([]) == q.ended;
    } else {
      var x := [rest[0]];
      if Sat(w, k, rest[0]) {
        HaltWaitForm(w, k, q.(ended := q.ended + [rest[0].id]), kept, rest[1..]);
        IdsConcat(x, Hit(w, k, rest[1..]));
        assert q.ended + Ids(x + Hit(w, k, rest[1..])) == q.ended + [rest[0].id] + Ids(Hit(w, k, rest[1..]));
      } else {
        HaltWaitForm(w, k, q, kept + x, rest[1..]);
        assert kept + (x + Keep(w, k, rest[1..])) == kept + x + Keep(w, k, rest[1..]);
      }
    }
  }

  /** The counters after an entry gave its count back. */
  function Less(count: map<Counter, int>, e: Entry): map<Counter, int> {
    var key := (e.sem, e.attr);
    count[key := (if key in count then count[key] else 0) - 1]
  }

  function GiveBack(count: map<Counter, int>, s: seq<Entry>): map<Counter, int>
    decreases |s|
  {
    if s == [] then count else GiveBack(Less(count, s[0]), s[1..])
  }

  lemma LessIsAddTo(q: Queues, e: Entry)
    ensures AddTo(q, e.sem, -1, e.attr) == q.(count := Less(q.count, e))
  {
  }

  /** Entries taken off the semaphore queue by halt_que */
  function EndAll(q: Queues, s: seq<Entry>): Queues
    decreases |s|
  {
    if s == [] then q else EndAll(AddTo(q.(ended := q.ended + [s[0].id]), s[0].sem, -1, s[0].attr), s[1..])
  }

  lemma {:induction false} HaltSemsForm(w: World, k: Sel, q: Queues, kept: seq<Entry>, rest: seq<Entry>)
    ensures HaltSems(w, k, q, kept, rest) == EndAll(q, Hit(w, k, rest)).(sems := kept + Keep(w, k, rest))
    decreases |rest|
  {
    hide Sat, AddTo;
    if rest == [] {
      assert kept + [] == kept;
    } else {
      var e, hit, keep := rest[0], Hit(w, k, rest[1..]), Keep(w, k, rest[1..]);
      if Sat(w, k, e) {
        HaltSemsForm(w, k, AddTo(q.(ended := q.ended + [e.id]), e.sem, -1, e.attr), kept, rest[1..]);
        assert ([e] + hit)[1..] == hit;
      } else {
        HaltSemsForm(w, k, q, kept + [e], rest[1..]);
        assert kept + ([e] + keep) == kept + [e] + keep;
      }
    }
  }

  lemma {:induction false} EndAllForm(q: Queues, s: seq<Entry>)
    ensures EndAll(q, s) == q.(ended := q.ended + Ids(s), count := GiveBack(q.count, s))
    decreases |s|
  {
    hide AddTo, Less;
    if s == [] {
      assert q.ended + Ids(s) == q.ended;
    } else {
      var q1 := q.(ended := q.ended + [s[0].id]);
      LessIsAddTo(q1, s[0]);
      EndAllForm(q1.(count := Less(q.count, s[0])), s[1..]);
      assert q.ended + Ids(s) == q.ended + [s[0].id] + Ids(s[1..]);
    }
  }

  /** Giving back changes each counter by the number of entries that were on it. */
  lemma {:induction false} GiveBackCount(w: World, q: Queues, s: seq<Entry>, sem: int, attr: int)
    requires attr != 0
    ensures Count(q.(count := GiveBack(q.count, s)), sem, attr) == Count(q, sem, attr) - Many(w, On(sem, attr), s)
    decreases |s|
  {
    if s != [] {
      GiveBackCount(w, q.(count := Less(q.count, s[0])), s[1..], sem, attr);
    }
  }

  function GiveAll(w: World, q: Queues, s: seq<Entry>): Queues
    decreases |s|
  {
    if s == [] then q else GiveAll(w, Give(w, q, s[0]), s[1..])
  }

  function DrainAll(w: World, q: Queues, s: seq<Entry>): Queues
    decreases |s|
  {
    if s == [] then q
    else DrainAll(w, AddQueued(q.(ended := q.ended + [s[0].id]), w.owner(s[0].player), -1), s[1..])
  }

  /** The entries nfy_que takes off the semaphore queue, in order, and those it leaves. */
  function Taken(w: World, k: Sel, key: Key, times: int, num: int, s: seq<Entry>): (r: seq<Entry>)
    ensures forall e :: e in r ==> e in s && Sat(w, k, e)
    decreases |s|
  {
    if s == [] then []
    else
      var num1 := if Sat(w, k, s[0]) then num + 1 else num;
      var more := if key.Notify? && num1 >= times then [] else Taken(w, k, key, times, num1, s[1..]);
      if Sat(w, k, s[0]) then [s[0]] + more else more
  }

  function Left(w: World, k: Sel, key: Key, times: int, num: int, s: seq<Entry>): (r: seq<Entry>)
    ensures forall e :: e in r ==> e in s
    decreases |s|
  {
    if s == [] then []
    else
      var num1 := if Sat(w, k, s[0]) then num + 1 else num;
      var more := if key.Notify? && num1 >= times then s[1..] else Left(w, k, key, times, num1, s[1..]);
      if Sat(w, k, s[0]) then more else [s[0]] + more
  }

  lemma {:induction false} NfyForm(w: World, q: Queues, k: Sel, key: Key, times: int, num: int, kept: seq<Entry>, rest: seq<Entry>)
    ensures var taken := Taken(w, k, key, times, num, rest);
            NfyWalk(w, q, k, key, times, num, kept, rest) ==
            (if key.Drain? then DrainAll(w, q, taken) else GiveAll(w, q, taken))
              .(sems := kept + Left(w, k, key, times, num, rest))
    decreases |rest|
  {
    hide Sat, AddQueued, Give;
    if rest == [] {
      assert kept + [] == kept;
    } else {
      var e := rest[0];
      var hit := Sat(w, k, e);
      var num1 := if hit then num + 1 else num;
      var stop := key.Notify? && num1 >= times;
      var taken1 := if stop then [] else Taken(w, k, key, times, num1, rest[1..]);
      var left1 := if stop then rest[1..] else Left(w, k, key, times, num1, rest[1..]);
      assert ([e] + taken1)[1..] == taken1;
      if hit {
        var q1 := if key.Drain? then AddQueued(q.(ended := q.ended + [e.id]), w.owner(e.player), -1) else Give(w, q, e);
        assert Taken(w, k, key, times, num, rest) == [e] + taken1;
        assert Left(w, k, key, times, num, rest) == left1;
        if !stop { NfyForm(w, q1, k, key, times, num1, kept, rest[1..]); }
      } else {
        assert Taken(w, k, key, times, num, rest) == taken1;
        assert Left(w, k, key, times, num, rest) == [e] + left1;
        assert kept + ([e] + left1) == kept + [e] + left1;
        if !stop { NfyForm(w, q, k, key, times, num1, kept + [e], rest[1..]); }
      }
    }
  }

  lemma {:induction false} TakenLeftMany(w: World, k: Sel, key: Key, times: int, num: int, s: seq<Entry>, c: Sel)
    ensures Many(w, c, Taken(w, k, key, times, num, s)) + Many(w, c, Left(w, k, key, times, num, s)) == Many(w, c, s)
    decreases |s|
  {
    hide Sat;
    if s != [] {
      var hit := Sat(w, k, s[0]);
      var num1 := if hit then num + 1 else num;
      var stop := key.Notify? && num1 >= times;
      var taken := if stop then [] else Taken(w, k, key, times, num1, s[1..]);
      var left := if stop then s[1..] else Left(w, k, key, times, num1, s[1..]);
      if !stop { TakenLeftMany(w, k, key, times, num1, s[1..], c); }
      ManyOne(w, c, s[0]);
      ManyConcat(w, c, [s[0]], if hit then taken else left);
    }
  }

  /** @notify with a positive count takes that many waiting entries, or all of them if there are fewer. */
  lemma {:induction false} TakenMany(w: World, k: Sel, key: Key, times: int, num: int, s: seq<Entry>)
    requires key.Notify? ==> num < times
    ensures var n := |Taken(w, k, key, times, num, s)|;
            if key.Notify? && Many(w, k, s) >= times - num then n == times - num else n == Many(w, k, s)
    decreases |s|
  {
    if s != [] {
      var num1 := if Sat(w, k, s[0]) then num + 1 else num;
      if !(key.Notify? && num1 >= times) { TakenMany(w, k, key, times, num1, s[1..]); }
    }
  }

  lemma {:induction false} ExpireForm(w: World, q: Queues, now: int, kept: seq<Entry>, rest: seq<Entry>)
    ensures Expire(w, q, now, kept, rest) ==
            GiveAll(w, q.(count := GiveBack(q.count, Hit(w, Due(now), rest))), Freed(Hit(w, Due(now), rest)))
              .(sems := kept + Keep(w, Due(now), rest))
    decreases |rest|
  {
    hide Sat, AddTo, Less, Give;
    if rest == [] {
      assert kept + [] == kept;
    } else {
      var e, hit, keep := rest[0], Hit(w, Due(now), rest[1..]), Keep(w, Due(now), rest[1..]);
      if Sat(w, Due(now), e) {
        var free := e.(sem := NOTHING);
        var q1 := q.(count := Less(q.count, e));
        LessIsAddTo(q, e);
        ExpireForm(w, Give(w, q1, free), now, kept, rest[1..]);
        assert ([e] + hit)[1..] == hit;
        assert ([free] + Freed(hit))[1..] == Freed(hit);
        GiveKeepsCount(w, q1, free, GiveBack(q1.count, hit));
      } else {
        ExpireForm(w, q, now, kept + [e], rest[1..]);
        assert kept + ([e] + keep) == kept + [e] + keep;
      }
    }
  }

  lemma GiveKeepsCount(w: World, q: Queues, e: Entry, count: map<Counter, int>)
    ensures Give(w, q, e).(count := count) == Give(w, q.(count := count), e)
    ensures Give(w, q, e).count == q.count
  {
  }

  /** Expired entries no longer name their semaphore. */
  function Freed(s: seq<Entry>): (r: seq<Entry>)
    ensures |r| == |s| && Ids(r) == Ids(s)
  {
    if s == [] then [] else [s[0].(sem := NOTHING)] + Freed(s[1..])
  }

  // ------------------------------------------------------------------ the invariant

  function Max0(n: int): int { if n < 0 then 0 else n }

  /** No more commands wait on a semaphore than its counter says. */
  ghost predicate SemBound(w: World, q: Queues) {
    forall sem, attr :: attr != 0 ==> Many(w, On(sem, attr), q.sems) <= Max0(Count(q, sem, attr))
  }

  /** No owner has more live commands than its counter says, and no counter is above the limit. */
  ghost predicate Quota(w: World, q: Queues) {
    forall o :: Total(w, LiveOf(o), q) <= Queued(q, o) <= w.queueMax(o)
  }

  /** Where a serial number is: in a queue, served, or removed by @halt and @drain. */
  function Census(w: World, q: Queues, i: nat): nat {
    Total(w, WithId(i), q) + Times(q.served, i) + Times(q.ended, i)
  }

  /** Every admitted command is in exactly one place. */
  ghost predicate Once(w: World, q: Queues) {
    forall i: nat :: Census(w, q, i) == if i < q.admitted then 1 else 0
  }

  /** The player queue is first in, first out. */
  ghost predicate Fifo(q: Queues) {
    q.arrivals == q.served + Ids(q.players)
  }

  ghost predicate Sorted(s: seq<Entry>) {
    forall i, j :: 0 <= i < j < |s| ==> s[i].waittime <= s[j].waittime
  }

  ghost predicate Proper(q: Queues) {
    && (forall e :: e in q.players || e in q.objects ==> e.player >= NOTHING)
    && (forall e :: e in q.wait || e in q.sems ==> e.player >= 0)
    && (forall e :: e in q.sems ==> e.attr > 0)
  }

  ghost predicate Inv(w: World, q: Queues) {
    SemBound(w, q) && Quota(w, q) && Once(w, q) && Fifo(q) && Sorted(q.wait) && Proper(q)
  }

  // ------------------------------------------------------------------ moving entries between queues

  /** Selections that do not look at what moving an entry changes */
  predicate Steady(k: Sel) { k.LiveOf? || k.WithId? }

  /** Fields that giving entries to the run queues leaves alone. */
  ghost predicate SameRest(q: Queues, q': Queues) {
    && q'.wait == q.wait && q'.sems == q.sems && q'.count == q.count && q'.queued == q.queued
    && q'.admitted == q.admitted && q'.served == q.served && q'.ended == q.ended
  }

  lemma GiveKeeps(w: World, q: Queues, e: Entry, k: Sel)
    requires Steady(k)
    ensures SameRest(q, Give(w, q, e))
    ensures Total(w, k, Give(w, q, e)) == Total(w, k, q) + if Sat(w, k, e) then 1 else 0
    ensures Fifo(q) ==> Fifo(Give(w, q, e))
  {
    var e' := e.(waittime := 0);
    ManyConcat(w, k, q.players, [e']);
    ManyConcat(w, k, q.objects, [e']);
    ManyOne(w, k, e');
    IdsConcat(q.players, [e']);
  }

  lemma {:induction false} GiveAllKeeps(w: World, q: Queues, s: seq<Entry>, k: Sel)
    requires Steady(k)
    ensures SameRest(q, GiveAll(w, q, s))
    ensures Total(w, k, GiveAll(w, q, s)) == Total(w, k, q) + Many(w, k, s)
    ensures Fifo(q) ==> Fifo(GiveAll(w, q, s))
    decreases |s|
  {
    if s != [] {
      GiveKeeps(w, q, s[0], k);
      GiveAllKeeps(w, Give(w, q, s[0]), s[1..], k);
    }
  }

  lemma {:induction false} GiveAllProper(w: World, q: Queues, s: seq<Entry>)
    requires Proper(q) && forall e :: e in s ==> e.player >= NOTHING
    ensures Proper(GiveAll(w, q, s))
    decreases |s|
  {
    if s != [] { GiveAllProper(w, Give(w, q, s[0]), s[1..]); }
  }

  lemma {:induction false} DrainAllForm(w: World, q: Queues, s: seq<Entry>, o: int)
    requires forall e :: e in s ==> e.player >= 0
    ensures var q' := DrainAll(w, q, s);
            && q' == q.(ended := q.ended + Ids(s), queued := q'.queued)
            && Queued(q', o) == Queued(q, o) - Many(w, LiveOf(o), s)
    decreases |s|
  {
    if s == [] {
      assert q.ended + Ids(s) == q.ended;
    } else {
      assert s[0] in s;
      DrainAllForm(w, AddQueued(q.(ended := q.ended + [s[0].id]), w.owner(s[0].player), -1), s[1..], o);
      IdsCons(s);
      hide Ids;
      ThreeParts(q.ended, [s[0].id], Ids(s[1..]));
    }
  }

  lemma {:induction false} SameIds(w: World, a: seq<Entry>, b: seq<Entry>, i: nat)
    requires Ids(a) == Ids(b)
    ensures Many(w, WithId(i), a) == Many(w, WithId(i), b)
  {
    TimesIds(w, a, i);
    TimesIds(w, b, i);
  }

  lemma {:induction false} SilenceLive(w: World, k: Sel, s: seq<Entry>, o: int)
    ensures Many(w, LiveOf(o), Silence(w, k, s)) == Many(w, LiveOf(o), Keep(w, k, s))
  {
    if s != [] {
      SilenceLive(w, k, s[1..], o);
      ManyConcat(w, LiveOf(o), [s[0]], Keep(w, k, s[1..]));
    }
  }

  lemma {:induction false} SilenceProper(w: World, k: Sel, s: seq<Entry>)
    requires forall e :: e in s ==> e.player >= NOTHING
    ensures forall e :: e in Silence(w, k, s) ==> e.player >= NOTHING
  {
    if s != [] { SilenceProper(w, k, s[1..]); }
  }

  // ------------------------------------------------------------------ halt_que

  lemma SweepForm(w: World, k: Sel, q: Queues)
    ensures Sweep(w, k, q) == q.(
              players := Silence(w, k, q.players), objects := Silence(w, k, q.objects),
              wait := Keep(w, k, q.wait), sems := Keep(w, k, q.sems),
              ended := q.ended + Ids(Hit(w, k, q.wait)) + Ids(Hit(w, k, q.sems)),
              count := GiveBack(q.count, Hit(w, k, q.sems)))
  {
    hide Sat, Hit, Keep, Silence, GiveBack;
    var q1 := q.(players := Silence(w, k, q.players), objects := Silence(w, k, q.objects));
    HaltWaitForm(w, k, q1, [], q1.wait);
    var q2 := HaltWait(w, k, q1, [], q1.wait);
    HaltSemsForm(w, k, q2, [], q2.sems);
    EndAllForm(q2, Hit(w, k, q2.sems));
    assert [] + Keep(w, k, q.wait) == Keep(w, k, q.wait) && [] + Keep(w, k, q.sems) == Keep(w, k, q.sems);
  }

  lemma SweepCensus(w: World, k: Sel, q: Queues, i: nat)
    ensures Census(w, Sweep(w, k, q), i) == Census(w, q, i)
  {
    hide Sat, Hit, Keep, Silence, GiveBack, Times, Sweep;
    var hw, hs := Hit(w, k, q.wait), Hit(w, k, q.sems);
    SweepForm(w, k, q);
    SameIds(w, q.players, Silence(w, k, q.players), i);
    SameIds(w, q.objects, Silence(w, k, q.objects), i);
    HitKeepMany(w, k, q.wait, WithId(i));
    HitKeepMany(w, k, q.sems, WithId(i));
    TimesIds(w, hw, i);
    TimesIds(w, hs, i);
    TimesConcat(q.ended + Ids(hw), Ids(hs), i);
    TimesConcat(q.ended, Ids(hw), i);
  }

  /** The live commands of an owner that halt_que leaves alone */
  function Spared(w: World, k: Sel, q: Queues, o: int): nat {
    Many(w, LiveOf(o), Keep(w, k, q.players)) + Many(w, LiveOf(o), Keep(w, k, q.objects))
    + Many(w, LiveOf(o), Keep(w, k, q.wait)) + Many(w, LiveOf(o), Keep(w, k, q.sems))
  }

  lemma SweepLive(w: World, k: Sel, q: Queues, o: int)
    ensures Total(w, LiveOf(o), Sweep(w, k, q)) == Spared(w, k, q, o) <= Total(w, LiveOf(o), q)
  {
    hide Sat, Hit, Keep, Silence, GiveBack, Sweep;
    SweepForm(w, k, q);
    SilenceLive(w, k, q.players, o);
    SilenceLive(w, k, q.objects, o);
    HitKeepMany(w, k, q.players, LiveOf(o));
    HitKeepMany(w, k, q.objects, LiveOf(o));
    HitKeepMany(w, k, q.wait, LiveOf(o));
    HitKeepMany(w, k, q.sems, LiveOf(o));
  }

  /** When everything that is wanted is live and of one owner, its live commands drop by the number reported. */
  lemma SpareExactly(w: World, k: Sel, q: Queues, o: int)
    requires forall e: Entry :: Sat(w, k, e) ==> Sat(w, LiveOf(o), e)
    ensures Spared(w, k, q, o) == Total(w, LiveOf(o), q) - Total(w, k, q)
  {
    HitsAre(w, k, q.players, o);
    HitsAre(w, k, q.objects, o);
    HitsAre(w, k, q.wait, o);
    HitsAre(w, k, q.sems, o);
  }

  lemma HitsAre(w: World, k: Sel, s: seq<Entry>, o: int)
    requires forall e: Entry :: Sat(w, k, e) ==> Sat(w, LiveOf(o), e)
    ensures Many(w, LiveOf(o), Keep(w, k, s)) == Many(w, LiveOf(o), s) - Many(w, k, s)
  {
    HitKeepMany(w, k, s, LiveOf(o));
    ManyAll(w, LiveOf(o), Hit(w, k, s));
  }

  /** When every live command of an owner is wanted, none is left. */
  lemma SpareNone(w: World, k: Sel, q: Queues, o: int)
    requires forall e: Entry :: Sat(w, LiveOf(o), e) ==> Sat(w, k, e)
    ensures Spared(w, k, q, o) == 0
  {
    ManyNone(w, LiveOf(o), Keep(w, k, q.players));
    ManyNone(w, LiveOf(o), Keep(w, k, q.objects));
    ManyNone(w, LiveOf(o), Keep(w, k, q.wait));
    ManyNone(w, LiveOf(o), Keep(w, k, q.sems));
  }

  /** Taking entries off a semaphore together with their counts keeps the counter and the waiters in step. */
  lemma SemsShrink(w: World, q: Queues, q': Queues, gone: seq<Entry>, sem: int, attr: int)
    requires attr != 0 && q'.count == GiveBack(q.count, gone)
    requires Many(w, On(sem, attr), gone) + Many(w, On(sem, attr), q'.sems) == Many(w, On(sem, attr), q.sems)
    requires Many(w, On(sem, attr), q.sems) <= Max0(Count(q, sem, attr))
    ensures Many(w, On(sem, attr), q'.sems) <= Max0(Count(q', sem, attr))
    ensures Many(w, On(sem, attr), q.sems) == Max0(Count(q, sem, attr)) ==>
            Many(w, On(sem, attr), q'.sems) == Max0(Count(q', sem, attr))
  {
    GiveBackCount(w, q, gone, sem, attr);
  }

  lemma {:induction false} KeepSorted(w: World, k: Sel, s: seq<Entry>)
    requires Sorted(s)
    ensures Sorted(Keep(w, k, s))
  {
    if s != [] {
      KeepSorted(w, k, s[1..]);
      var r := Keep(w, k, s[1..]);
      forall j | 0 <= j < |r| ensures s[0].waittime <= r[j].waittime {
        assert r[j] in s[1..];
      }
    }
  }

  /** Every semaphore counter equals the number of its waiters (or is negative or zero with none). */
  ghost predicate SemExact(w: World, q: Queues) {
    forall sem, attr :: attr != 0 ==> Many(w, On(sem, attr), q.sems) == Max0(Count(q, sem, attr))
  }

  /** Every owner's counter equals the number of its live commands. */
  ghost predicate QuotaExact(w: World, q: Queues) {
    forall o :: Total(w, LiveOf(o), q) == Queued(q, o)
  }

  lemma SweepSems(w: World, k: Sel, q: Queues)
    requires SemBound(w, q)
    ensures SemBound(w, Sweep(w, k, q))
    ensures SemExact(w, q) ==> SemExact(w, Sweep(w, k, q))
  {
    var q' := Sweep(w, k, q);
    SweepForm(w, k, q);
    hide Sat, Hit, Keep, Silence, GiveBack, Sweep, Many;
    var gone := Hit(w, k, q.sems);
    forall sem, attr | attr != 0
      ensures Many(w, On(sem, attr), q'.sems) <= Max0(Count(q', sem, attr))
      ensures SemExact(w, q) ==> Many(w, On(sem, attr), q'.sems) == Max0(Count(q', sem, attr))
    {
      HitKeepMany(w, k, q.sems, On(sem, attr));
      SemsShrink(w, q, q', gone, sem, attr);
    }
  }

  lemma SweepRest(w: World, k: Sel, q: Queues)
    requires Once(w, q) && Fifo(q) && Sorted(q.wait) && Proper(q)
    ensures var q' := Sweep(w, k, q); Once(w, q') && Fifo(q') && Sorted(q'.wait) && Proper(q') && q'.queued == q.queued
  {
    var q' := Sweep(w, k, q);
    SweepForm(w, k, q);
    KeepSorted(w, k, q.wait);
    SilenceProper(w, k, q.players);
    SilenceProper(w, k, q.objects);
    hide Sweep, Silence, Sat, Census;
    forall i: nat ensures Census(w, q', i) == Census(w, q, i) { SweepCensus(w, k, q, i); }
  }

  /** The owner whose counter halt_que corrects */
  function HaltOwner(w: World, ptarg: int, otarg: int): int {
    if ptarg == NOTHING then w.owner(otarg) else ptarg
  }

  lemma HaltQuota(w: World, q: Queues, ptarg: int, otarg: int)
    requires Quota(w, q)
    ensures Quota(w, HaltQue(w, q, ptarg, otarg))
    ensures QuotaExact(w, q) && !(ptarg == NOTHING && otarg == NOTHING) ==> QuotaExact(w, HaltQue(w, q, ptarg, otarg))
  {
    var k, o, q' := Wanted(ptarg, otarg), HaltOwner(w, ptarg, otarg), HaltQue(w, q, ptarg, otarg);
    SweepForm(w, k, q);
    hide Sweep, Total, Spared;
    forall x
      ensures Total(w, LiveOf(x), q') <= Queued(q', x) <= w.queueMax(x)
      ensures QuotaExact(w, q) && !(ptarg == NOTHING && otarg == NOTHING) ==> Total(w, LiveOf(x), q') == Queued(q', x)
    {
      SweepLive(w, k, q, x);
      SameLists(w, LiveOf(x), Sweep(w, k, q), q');
      if otarg != NOTHING {
        if x == o { SpareExactly(w, k, q, o); } else { SpareOthers(w, k, q, x); }
      } else if ptarg == NOTHING || x == o {
        SpareNone(w, k, q, x);
      } else {
        SpareOthers(w, k, q, x);
      }
    }
  }

  lemma SameLists(w: World, k: Sel, q: Queues, q': Queues)
    requires q'.players == q.players && q'.objects == q.objects && q'.wait == q.wait && q'.sems == q.sems
    ensures Total(w, k, q') == Total(w, k, q)
  {
  }

  /** Owners none of whose live commands are wanted keep them all. */
  lemma SpareOthers(w: World, k: Sel, q: Queues, x: int)
    requires forall e: Entry :: Sat(w, k, e) ==> !Sat(w, LiveOf(x), e)
    ensures Spared(w, k, q, x) == Total(w, LiveOf(x), q)
  {
    HitsAreNot(w, k, q.players, x);
    HitsAreNot(w, k, q.objects, x);
    HitsAreNot(w, k, q.wait, x);
    HitsAreNot(w, k, q.sems, x);
  }

  lemma HitsAreNot(w: World, k: Sel, s: seq<Entry>, x: int)
    requires forall e: Entry :: Sat(w, k, e) ==> !Sat(w, LiveOf(x), e)
    ensures Many(w, LiveOf(x), Keep(w, k, s)) == Many(w, LiveOf(x), s)
  {
    HitKeepMany(w, k, s, LiveOf(x));
    ManyNone(w, LiveOf(x), Hit(w, k, s));
  }

  lemma HaltKeeps(w: World, q: Queues, ptarg: int, otarg: int)
    requires Inv(w, q)
    ensures var q' := HaltQue(w, q, ptarg, otarg);
            && Inv(w, q') && (SemExact(w, q) ==> SemExact(w, q'))
            && (QuotaExact(w, q) && !(ptarg == NOTHING && otarg == NOTHING) ==> QuotaExact(w, q'))
  {
    var k, q' := Wanted(ptarg, otarg), HaltQue(w, q, ptarg, otarg);
    SweepSems(w, k, q);
    SweepRest(w, k, q);
    HaltQuota(w, q, ptarg, otarg);
    hide Sweep, Quota, QuotaExact, Sorted, Total;
    CounterOnly(w, Sweep(w, k, q), q');
  }

  /** Semaphores and serial numbers do not depend on the owners' counters. */
  lemma CounterOnly(w: World, q: Queues, q': Queues)
    requires q' == q.(queued := q'.queued)
    ensures SemBound(w, q) ==> SemBound(w, q')
    ensures SemExact(w, q) ==> SemExact(w, q')
    ensures Once(w, q) ==> Once(w, q')
  {
    forall sem, attr ensures Count(q', sem, attr) == Count(q, sem, attr) { }
    forall i: nat ensures Census(w, q', i) == Census(w, q, i) { }
  }

  // ------------------------------------------------------------------ setup_que and wait_que

  /** Owners are objects of the database. */
  ghost predicate Sane(w: World) {
    forall p :: p >= 0 ==> w.owner(p) >= 0
  }

  /** A new entry joins one of the queues. */
  ghost predicate Joined(w: World, q: Queues, q': Queues, e: Entry) {
    && q'.admitted == q.admitted + 1 && e.id == q.admitted
    && q'.served == q.served && q'.ended == q.ended && q'.queued == q.queued && q'.count == q.count
    && forall k: Sel :: Steady(k) ==> Total(w, k, q') == Total(w, k, q) + if Sat(w, k, e) then 1 else 0
  }

  lemma {:induction false} InsertMany(w: World, s: seq<Entry>, e: Entry, k: Sel)
    ensures Many(w, k, Insert(s, e)) == Many(w, k, s) + if Sat(w, k, e) then 1 else 0
  {
    hide Sat;
    if s != [] && s[0].waittime <= e.waittime {
      InsertMany(w, s[1..], e, k);
      assert ([s[0]] + Insert(s[1..], e))[1..] == Insert(s[1..], e);
    } else {
      assert ([e] + s)[1..] == s;
    }
  }

  /** How many entries the loop of wait_que passes. */
  function Passed(s: seq<Entry>, t: int): (n: nat)
    ensures n <= |s| && (forall i :: 0 <= i < n ==> s[i].waittime <= t) && (n < |s| ==> t < s[n].waittime)
  {
    if s != [] && s[0].waittime <= t then 1 + Passed(s[1..], t) else 0
  }

  /** wait_que puts the entry after all that are not due later, before all that are, and moves nothing else. */
  lemma {:induction false} InsertPlace(s: seq<Entry>, e: Entry)
    requires Sorted(s)
    ensures var n := Passed(s, e.waittime);
            && Insert(s, e) == s[..n] + [e] + s[n..]
            && (forall i :: 0 <= i < n ==> s[i].waittime <= e.waittime)
            && (forall i :: n <= i < |s| ==> e.waittime < s[i].waittime)
  {
    InsertAt(s, e);
  }

  lemma {:induction false} InsertAt(s: seq<Entry>, e: Entry)
    ensures var n := Passed(s, e.waittime); Insert(s, e) == s[..n] + [e] + s[n..]
  {
    if s != [] && s[0].waittime <= e.waittime {
      var n := Passed(s[1..], e.waittime);
      InsertAt(s[1..], e);
      assert [s[0]] + (s[1..][..n] + [e] + s[1..][n..]) == s[..n + 1] + [e] + s[n + 1..];
    } else {
      assert s[..0] + [e] + s[0..] == [e] + s;
    }
  }

  lemma InsertNth(s: seq<Entry>, e: Entry, i: nat)
    requires i <= |s|
    ensures var n := Passed(s, e.waittime);
            |Insert(s, e)| == |s| + 1 && Insert(s, e)[i] == if i < n then s[i] else if i == n then e else s[i - 1]
  {
    InsertAt(s, e);
  }

  lemma InsertSorted(s: seq<Entry>, e: Entry)
    requires Sorted(s)
    ensures Sorted(Insert(s, e))
  {
    InsertPlace(s, e);
    var n, r := Passed(s, e.waittime), Insert(s, e);
    InsertNth(s, e, 0);
    hide Insert, Passed;
    forall i, j | 0 <= i < j < |r| ensures r[i].waittime <= r[j].waittime {
      InsertNth(s, e, i);
      InsertNth(s, e, j);
    }
  }

  lemma {:induction false} InsertMembers(s: seq<Entry>, e: Entry, x: Entry)
    requires x in Insert(s, e)
    ensures x == e || x in s
  {
    if s != [] && s[0].waittime <= e.waittime && x != s[0] {
      InsertMembers(s[1..], e, x);
    }
  }

  /** The entry wait_que makes goes to the run queues, the wait queue or the semaphore queue. */
  function Place(w: World, q: Queues, e: Entry, secs: int): Queues {
    var q2 := q.(admitted := q.admitted + 1);
    if e.sem == NOTHING then if secs <= 0 then Give(w, q2, e) else q2.(wait := Insert(q2.wait, e))
    else q2.(sems := q2.sems + [e])
  }

  lemma PlaceJoins(w: World, q: Queues, e: Entry, secs: int)
    requires e.id == q.admitted
    ensures Joined(w, q, Place(w, q, e, secs), e)
    ensures Fifo(q) ==> Fifo(Place(w, q, e, secs))
  {
    var q2 := q.(admitted := q.admitted + 1);
    var q' := Place(w, q, e, secs);
    hide Sat, Many, Insert;
    GiveKeeps(w, q2, e, LiveOf(0));
    hide Total;
    forall k: Sel | Steady(k) ensures Total(w, k, q') == Total(w, k, q) + if Sat(w, k, e) then 1 else 0 {
      PlaceTotal(w, q, e, secs, k);
    }
  }

  lemma PlaceTotal(w: World, q: Queues, e: Entry, secs: int, k: Sel)
    requires Steady(k)
    ensures Total(w, k, Place(w, q, e, secs)) == Total(w, k, q) + if Sat(w, k, e) then 1 else 0
  {
    var q2 := q.(admitted := q.admitted + 1);
    hide Sat, Many, Insert, Give;
    GiveKeeps(w, q2, e, k);
    InsertMany(w, q2.wait, e, k);
    ManyConcat(w, k, q2.sems, [e]);
    ManyOne(w, k, e);
  }

  lemma PlaceKeeps(w: World, q: Queues, e: Entry, secs: int)
    requires Once(w, q) && Fifo(q) && Sorted(q.wait) && Proper(q) && e.id == q.admitted && e.player >= 0
    requires e.sem != NOTHING ==> e.attr > 0
    ensures var q' := Place(w, q, e, secs); Once(w, q') && Fifo(q') && Sorted(q'.wait) && Proper(q')
  {
    var q' := Place(w, q, e, secs);
    PlaceJoins(w, q, e, secs);
    InsertSorted(q.wait, e);
    forall x | x in Insert(q.wait, e) ensures x == e || x in q.wait { InsertMembers(q.wait, e, x); }
    hide Total, Insert, Sorted;
    forall i: nat ensures Census(w, q', i) == if i < q'.admitted then 1 else 0 {
      assert Census(w, q, i) == if i < q.admitted then 1 else 0;
      assert Total(w, WithId(i), q') == Total(w, WithId(i), q) + if Sat(w, WithId(i), e) then 1 else 0;
    }
  }

  lemma PlaceSems(w: World, q: Queues, e: Entry, secs: int, sem: int, attr: int)
    requires attr != 0
    ensures var q' := Place(w, q, e, secs);
            && Count(q', sem, attr) == Count(q, sem, attr)
            && Many(w, On(sem, attr), q'.sems) == Many(w, On(sem, attr), q.sems)
               + if e.sem != NOTHING && e.sem == sem && e.attr == attr then 1 else 0
  {
    ManyConcat(w, On(sem, attr), q.sems, [e]);
    ManyOne(w, On(sem, attr), e);
  }

  lemma LiveEntry(w: World, e: Entry, o: int)
    ensures Sat(w, LiveOf(o), e) <==> e.player != NOTHING && w.owner(e.player) == o
  {
  }

  lemma PlaceBound(w: World, q: Queues, e: Entry, secs: int)
    requires SemBound(w, q)
    requires e.sem != NOTHING ==> e.attr != 0 && Many(w, On(e.sem, e.attr), q.sems) < Max0(Count(q, e.sem, e.attr))
    ensures SemBound(w, Place(w, q, e, secs))
    ensures e.sem == NOTHING && SemExact(w, q) ==> SemExact(w, Place(w, q, e, secs))
  {
    var q' := Place(w, q, e, secs);
    hide Place, Many;
    forall s, a | a != 0
      ensures Many(w, On(s, a), q'.sems) <= Max0(Count(q', s, a))
      ensures e.sem == NOTHING && SemExact(w, q) ==> Many(w, On(s, a), q'.sems) == Max0(Count(q', s, a))
    {
      PlaceSems(w, q, e, secs, s, a);
    }
  }

  lemma HaltAfterCharge(w: World, q: Queues, o: int, n: int)
    requires o != NOTHING
    ensures HaltQue(w, AddQueued(q, o, n), o, NOTHING) == HaltQue(w, q, o, NOTHING)
  {
    var q1 := AddQueued(q, o, n);
    SweepForm(w, Wanted(o, NOTHING), q);
    SweepForm(w, Wanted(o, NOTHING), q1);
    hide Sweep, Silence, Keep, Hit, GiveBack, Ids;
    assert q1.queued[o := 0] == q.queued[o := 0];
  }

  lemma SetupRefused(w: World, q: Queues, who: nat, allowed: bool)
    requires Sane(w) && Inv(w, q) && !Setup(w, q, who, allowed).0
    ensures var q' := Setup(w, q, who, allowed).1;
            Inv(w, q') && (SemExact(w, q) ==> SemExact(w, q')) && (QuotaExact(w, q) ==> QuotaExact(w, q'))
  {
    hide HaltQue, Inv, SemExact, QuotaExact;
    if allowed {
      HaltAfterCharge(w, q, w.owner(who), 1);
      HaltKeeps(w, q, w.owner(who), NOTHING);
    }
  }

  /** wait_que; on a semaphore its counter must have room for one more waiter. */
  lemma WaitQueKeeps(w: World, q: Queues, who: nat, cause: int, secs: int, sem: int, attr: int, at: int, allowed: bool)
    requires Sane(w) && Inv(w, q)
    requires sem != NOTHING ==> attr > 0 && Many(w, On(sem, attr), q.sems) < Max0(Count(q, sem, attr))
    ensures var q' := WaitQue(w, q, who, cause, secs, sem, attr, at, allowed);
            Inv(w, q') && (QuotaExact(w, q) ==> QuotaExact(w, q')) && (sem == NOTHING && SemExact(w, q) ==> SemExact(w, q'))
  {
    hide Setup;
    var (ok, q1) := Setup(w, q, who, allowed);
    if !ok {
      SetupRefused(w, q, who, allowed);
    } else {
      ChargeOne(w, q, who, allowed);
      PlaceCharged(w, q, q1, Entry(q1.admitted, who, cause, sem, attr, if secs != 0 then at + secs else 0), secs);
    }
  }

  /** An admitted command is charged to its owner before it is placed. */
  lemma ChargeOne(w: World, q: Queues, who: nat, allowed: bool)
    requires Setup(w, q, who, allowed).0
    ensures Setup(w, q, who, allowed).1 == AddQueued(q, w.owner(who), 1)
    ensures Queued(q, w.owner(who)) < w.queueMax(w.owner(who))
  {
  }

  lemma PlaceCharged(w: World, q: Queues, q1: Queues, e: Entry, secs: int)
    requires Inv(w, q) && e.player >= 0 && e.id == q.admitted
    requires q1 == AddQueued(q, w.owner(e.player), 1) && Queued(q, w.owner(e.player)) < w.queueMax(w.owner(e.player))
    requires e.sem != NOTHING ==> e.attr > 0 && Many(w, On(e.sem, e.attr), q.sems) < Max0(Count(q, e.sem, e.attr))
    ensures var q' := Place(w, q1, e, secs);
            && Inv(w, q') && (QuotaExact(w, q) ==> QuotaExact(w, q'))
            && (e.sem == NOTHING && SemExact(w, q) ==> SemExact(w, q'))
  {
    var q' := Place(w, q1, e, secs);
    CounterOnly(w, q, q1);
    hide Place, Total, Many, Sat, Once, Sorted;
    PlaceKeeps(w, q1, e, secs);
    PlaceBound(w, q1, e, secs);
    hide SemBound, SemExact;
    forall o ensures Total(w, LiveOf(o), q') == Total(w, LiveOf(o), q) + if w.owner(e.player) == o then 1 else 0
    {
      PlaceJoins(w, q1, e, secs);
      LiveEntry(w, e, o);
      SameLists(w, LiveOf(o), q, q1);
    }
    PlaceJoins(w, q1, e, secs);
    hide Joined;
  }

  /** do_wait on a semaphore: an admitted waiter is counted, and one that cannot wait runs at once. */
  lemma SemWaitKeeps(w: World, q: Queues, who: nat, cause: int, thing: int, attr: int, secs: int, at: int, allowed: bool)
    requires Sane(w) && Inv(w, q)
    ensures var q' := DoSemWait(w, q, who, cause, thing, attr, secs, at, allowed);
            && Inv(w, q') && (QuotaExact(w, q) ==> QuotaExact(w, q'))
            && (SemExact(w, q) && Welcome(w, q, who, thing, attr, allowed) ==> SemExact(w, q'))
  {
    if !(thing < 0 || attr <= 0) {
      var q1 := AddTo(q, thing, 1, attr);
      RaiseCount(w, q, thing, attr);
      var run := Count(q1, thing, attr) <= 0;
      WaitQueKeeps(w, q1, who, cause, if run then 0 else secs, if run then NOTHING else thing, attr, at, allowed);
      if SemExact(w, q) && Welcome(w, q, who, thing, attr, allowed) && !run {
        SemWaitExact(w, q, who, cause, thing, attr, secs, at, allowed);
      }
    }
  }

  /** Whether setup_que lets this semaphore wait in */
  predicate Welcome(w: World, q: Queues, who: nat, thing: int, attr: int, allowed: bool) {
    thing < 0 || attr <= 0 || Setup(w, AddTo(q, thing, 1, attr), who, allowed).0
  }

  lemma RaiseCount(w: World, q: Queues, thing: int, attr: int)
    requires Inv(w, q) && attr > 0
    ensures var q1 := AddTo(q, thing, 1, attr);
            && Inv(w, q1) && (QuotaExact(w, q) ==> QuotaExact(w, q1))
            && (SemExact(w, q) && Count(q1, thing, attr) <= 0 ==> SemExact(w, q1))
            && (Count(q1, thing, attr) > 0 ==> Many(w, On(thing, attr), q1.sems) < Max0(Count(q1, thing, attr)))
  {
    var q1 := AddTo(q, thing, 1, attr);
    hide Many;
    assert Many(w, On(thing, attr), q.sems) <= Max0(Count(q, thing, attr));
    forall s, a ensures Count(q1, s, a) == Count(q, s, a) + if s == thing && a == attr then 1 else 0 { }
    CountOnly(w, q, q1);
  }

  /** Quotas and serial numbers do not depend on the semaphore counters. */
  lemma CountOnly(w: World, q: Queues, q': Queues)
    requires q' == q.(count := q'.count)
    ensures Quota(w, q) ==> Quota(w, q')
    ensures QuotaExact(w, q) ==> QuotaExact(w, q')
    ensures Once(w, q) ==> Once(w, q')
  {
    forall o ensures Total(w, LiveOf(o), q') == Total(w, LiveOf(o), q) { }
    forall i: nat ensures Census(w, q', i) == Census(w, q, i) { }
  }

  lemma SemWaitExact(w: World, q: Queues, who: nat, cause: int, thing: int, attr: int, secs: int, at: int, allowed: bool)
    requires SemExact(w, q) && Welcome(w, q, who, thing, attr, allowed)
    requires thing >= 0 && attr > 0 && Count(AddTo(q, thing, 1, attr), thing, attr) > 0
    ensures SemExact(w, DoSemWait(w, q, who, cause, thing, attr, secs, at, allowed))
  {
    var q1 := AddTo(q, thing, 1, attr);
    var q2 := Setup(w, q1, who, allowed).1;
    var q' := DoSemWait(w, q, who, cause, thing, attr, secs, at, allowed);
    var e := Entry(q2.admitted, who, cause, thing, attr, if secs != 0 then at + secs else 0);
    assert q' == Place(w, q2, e, secs);
    hide DoSemWait, Place, Many;
    forall s, a | a != 0 ensures Many(w, On(s, a), q'.sems) == Max0(Count(q', s, a)) {
      PlaceSems(w, q2, e, secs, s, a);
      assert Many(w, On(s, a), q.sems) == Max0(Count(q, s, a));
      assert Count(q2, s, a) == Count(q, s, a) + if s == thing && a == attr then 1 else 0;
    }
  }

  // ------------------------------------------------------------------ nfy_que

  /** The queues after the loop of nfy_que, before the counter is updated */
  function Woken(w: World, q: Queues, k: Sel, key: Key, times: int): Queues {
    var taken := Taken(w, k, key, times, 0, q.sems);
    (if key.Drain? then DrainAll(w, q, taken) else GiveAll(w, q, taken)).(sems := Left(w, k, key, times, 0, q.sems))
  }

  lemma NfyIsWoken(w: World, q: Queues, k: Sel, key: Key, times: int)
    ensures NfyWalk(w, q, k, key, times, 0, [], q.sems) == Woken(w, q, k, key, times)
  {
    NfyForm(w, q, k, key, times, 0, [], q.sems);
    assert [] + Left(w, k, key, times, 0, q.sems) == Left(w, k, key, times, 0, q.sems);
  }

  lemma WokenTotals(w: World, q: Queues, k: Sel, key: Key, times: int, c: Sel)
    requires Steady(c) && Proper(q)
    ensures var q', taken := Woken(w, q, k, key, times), Taken(w, k, key, times, 0, q.sems);
            && Total(w, c, q') == Total(w, c, q) - (if key.Drain? then Many(w, c, taken) else 0)
            && q'.ended == q.ended + (if key.Drain? then Ids(taken) else [])
            && q'.served == q.served && q'.admitted == q.admitted && q'.count == q.count && q'.wait == q.wait
            && (c.LiveOf? ==> Queued(q', c.o) == Queued(q, c.o) - if key.Drain? then Many(w, c, taken) else 0)
  {
    hide Sat, Taken, Left, GiveAll, DrainAll, Many;
    var taken := Taken(w, k, key, times, 0, q.sems);
    TakenLeftMany(w, k, key, times, 0, q.sems, c);
    if key.Drain? {
      DrainAllForm(w, q, taken, if c.LiveOf? then c.o else 0);
    } else {
      GiveAllKeeps(w, q, taken, c);
      assert q.ended + [] == q.ended;
    }
  }

  lemma WokenRest(w: World, q: Queues, k: Sel, key: Key, times: int)
    requires Once(w, q) && Fifo(q) && Sorted(q.wait) && Proper(q)
    ensures var q' := Woken(w, q, k, key, times); Once(w, q') && Fifo(q') && Sorted(q'.wait) && Proper(q')
  {
    var q', taken := Woken(w, q, k, key, times), Taken(w, k, key, times, 0, q.sems);
    if key.Drain? { DrainAllForm(w, q, taken, 0); } else { GiveAllKeeps(w, q, taken, LiveOf(0)); GiveAllProper(w, q, taken); }
    hide Woken, Total, Times;
    forall i: nat ensures Census(w, q', i) == Census(w, q, i) {
      WokenTotals(w, q, k, key, times, WithId(i));
      TimesIds(w, taken, i);
      TimesConcat(q.ended, Ids(taken), i);
      assert q.ended + [] == q.ended;
    }
  }

  lemma WokenQuota(w: World, q: Queues, k: Sel, key: Key, times: int)
    requires Quota(w, q) && Proper(q)
    ensures Quota(w, Woken(w, q, k, key, times))
    ensures QuotaExact(w, q) ==> QuotaExact(w, Woken(w, q, k, key, times))
  {
    var q' := Woken(w, q, k, key, times);
    hide Woken, Total, Proper;
    forall o
      ensures Total(w, LiveOf(o), q') <= Queued(q', o) <= w.queueMax(o)
      ensures QuotaExact(w, q) ==> Total(w, LiveOf(o), q') == Queued(q', o)
    {
      WokenTotals(w, q, k, key, times, LiveOf(o));
    }
  }

  /** The waiters that are left on a semaphore that was named */
  lemma LeftNamed(w: World, q: Queues, sem: int, attr: int, key: Key, times: int)
    requires key.Notify? ==> times > 0
    ensures var k := On(sem, attr); var n := Many(w, k, q.sems);
            Many(w, k, Left(w, k, key, times, 0, q.sems)) == if key.Notify? then Max0(n - times) else 0
  {
    var k := On(sem, attr);
    TakenLeftMany(w, k, key, times, 0, q.sems, k);
    TakenMany(w, k, key, times, 0, q.sems);
    ManyAll(w, k, Taken(w, k, key, times, 0, q.sems));
  }

  /** Other semaphores keep their waiters, unless attribute 0 stands for all of the object's. */
  lemma LeftOther(w: World, q: Queues, sem: int, attr: int, key: Key, times: int, s: int, a: int)
    ensures Many(w, On(s, a), Left(w, On(sem, attr), key, times, 0, q.sems)) <= Many(w, On(s, a), q.sems)
    ensures attr != 0 && a != 0 && (s != sem || a != attr) ==>
            Many(w, On(s, a), Left(w, On(sem, attr), key, times, 0, q.sems)) == Many(w, On(s, a), q.sems)
  {
    var k := On(sem, attr);
    TakenLeftMany(w, k, key, times, 0, q.sems, On(s, a));
    if attr != 0 && a != 0 && (s != sem || a != attr) { ManyNone(w, On(s, a), Taken(w, k, key, times, 0, q.sems)); }
  }

  lemma NfySems(w: World, q: Queues, sem: int, attr: int, key: Key, times: int, s: int, a: int)
    requires a != 0 && Many(w, On(s, a), q.sems) <= Max0(Count(q, s, a)) && Proper(q)
    ensures var q' := NfyQue(w, q, sem, attr, key, times); var n, n' := Many(w, On(s, a), q.sems), Many(w, On(s, a), q'.sems);
            && n' <= Max0(Count(q', s, a))
            && (n == Max0(Count(q, s, a)) && attr != 0 && (key.Notify? ==> times > 0) ==> n' == Max0(Count(q', s, a)))
  {
    var q' := NfyQue(w, q, sem, attr, key, times);
    var walks := attr == 0 || Count(q, sem, attr) > 0;
    var q1 := if walks then Woken(w, q, On(sem, attr), key, times) else q;
    var q2 := if key.Notify? then AddTo(q1, sem, -times, attr) else q1.(count := q1.count[(sem, attr) := 0]);
    assert q' == q2 && q1.count == q.count by {
      NfyIsWoken(w, q, On(sem, attr), key, times);
      WokenTotals(w, q, On(sem, attr), key, times, LiveOf(0));
    }
    hide NfyWalk, Many, Sat, Taken, Left;
    if walks {
      LeftOther(w, q, sem, attr, key, times, s, a);
      if s == sem && a == attr && (key.Notify? ==> times > 0) { LeftNamed(w, q, sem, attr, key, times); }
    }
    assert Count(q', s, a) ==
           if s == sem && a == attr then (if key.Notify? then Count(q, s, a) - times else 0) else Count(q, s, a);
  }

  lemma NfyKeeps(w: World, q: Queues, sem: int, attr: int, key: Key, times: int)
    requires Inv(w, q)
    ensures var q' := NfyQue(w, q, sem, attr, key, times);
            && Inv(w, q') && (QuotaExact(w, q) ==> QuotaExact(w, q'))
            && (SemExact(w, q) && attr != 0 && (key.Notify? ==> times > 0) ==> SemExact(w, q'))
  {
    var q' := NfyQue(w, q, sem, attr, key, times);
    var k := On(sem, attr);
    var q1 := if attr == 0 || Count(q, sem, attr) > 0 then Woken(w, q, k, key, times) else q;
    NfyIsWoken(w, q, k, key, times);
    hide Woken, NfyWalk;
    WokenRest(w, q, k, key, times);
    WokenQuota(w, q, k, key, times);
    CountOnly(w, q1, q');
    NfyAllSems(w, q, sem, attr, key, times);
    hide Quota, QuotaExact, Once, SemBound, SemExact, Sorted;
  }

  lemma NfyAllSems(w: World, q: Queues, sem: int, attr: int, key: Key, times: int)
    requires SemBound(w, q) && Proper(q)
    ensures var q' := NfyQue(w, q, sem, attr, key, times);
            SemBound(w, q') && (SemExact(w, q) && attr != 0 && (key.Notify? ==> times > 0) ==> SemExact(w, q'))
  {
    var q' := NfyQue(w, q, sem, attr, key, times);
    hide NfyQue, Many, Count;
    forall s, a | a != 0
      ensures Many(w, On(s, a), q'.sems) <= Max0(Count(q', s, a))
      ensures SemExact(w, q) && attr != 0 && (key.Notify? ==> times > 0) ==> Many(w, On(s, a), q'.sems) == Max0(Count(q', s, a))
    {
      NfySems(w, q, sem, attr, key, times, s, a);
    }
  }

  // ------------------------------------------------------------------ do_second and time warp

  /** Two states with the same entries, as far as owners and serial numbers go, and the same books */
  ghost predicate SameBooks(w: World, q: Queues, q': Queues) {
    && q'.queued == q.queued && q'.served == q.served && q'.ended == q.ended && q'.admitted == q.admitted
    && forall k: Sel :: Steady(k) ==> Total(w, k, q') == Total(w, k, q)
  }

  lemma BooksKeep(w: World, q: Queues, q': Queues)
    requires SameBooks(w, q, q')
    ensures Quota(w, q) ==> Quota(w, q')
    ensures QuotaExact(w, q) ==> QuotaExact(w, q')
    ensures Once(w, q) ==> Once(w, q')
  {
    hide Total;
    forall i: nat ensures Census(w, q', i) == Census(w, q, i) { assert Steady(WithId(i)); }
    forall o ensures Total(w, LiveOf(o), q') == Total(w, LiveOf(o), q) { assert Steady(LiveOf(o)); }
  }

  /** do_second moves the object queue behind the player queue. */
  function Merge(q: Queues): Queues {
    q.(players := q.players + q.objects, objects := [], arrivals := q.arrivals + Ids(q.objects))
  }

  function WakeFirst(w: World, q: Queues, now: int): Queues {
    if q.wait != [] && q.wait[0].waittime <= now then Give(w, q.(wait := q.wait[1..]), q.wait[0]) else q
  }

  lemma MergeKeeps(w: World, q: Queues)
    requires Inv(w, q)
    ensures Inv(w, Merge(q)) && (QuotaExact(w, q) ==> QuotaExact(w, Merge(q))) && (SemExact(w, q) ==> SemExact(w, Merge(q)))
  {
    var q' := Merge(q);
    IdsConcat(q.players, q.objects);
    hide Many, Sat, Sorted;
    forall k: Sel | Steady(k) ensures Total(w, k, q') == Total(w, k, q) {
      ManyConcat(w, k, q.players, q.objects);
      ManyEmpty(w, k);
    }
    BooksKeep(w, q, q');
    assert q.arrivals + Ids(q.objects) == q.served + (Ids(q.players) + Ids(q.objects));
    SameSems(w, q, q');
    hide Once, Quota, QuotaExact, SemBound, SemExact;
  }

  lemma ManyEmpty(w: World, k: Sel)
    ensures Many(w, k, []) == 0
  {
  }

  lemma SameSems(w: World, q: Queues, q': Queues)
    requires q'.sems == q.sems && q'.count == q.count
    ensures SemBound(w, q) ==> SemBound(w, q')
    ensures SemExact(w, q) ==> SemExact(w, q')
  {
    forall s, a ensures Count(q', s, a) == Count(q, s, a) { }
  }

  lemma WakeFirstKeeps(w: World, q: Queues, now: int)
    requires Inv(w, q)
    ensures var q' := WakeFirst(w, q, now);
            Inv(w, q') && (QuotaExact(w, q) ==> QuotaExact(w, q')) && (SemExact(w, q) ==> SemExact(w, q'))
  {
    if q.wait != [] && q.wait[0].waittime <= now {
      var e, q1 := q.wait[0], q.(wait := q.wait[1..]);
      var q' := Give(w, q1, e);
      GiveKeeps(w, q1, e, LiveOf(0));
      hide Sat;
      forall k: Sel | Steady(k) ensures Total(w, k, q') == Total(w, k, q) { GiveKeeps(w, q1, e, k); }
      BooksKeep(w, q, q');
      SameSems(w, q, q');
      hide Once, Quota, QuotaExact, SemBound, SemExact;
    }
  }

  lemma {:induction false} FreedMany(w: World, s: seq<Entry>, k: Sel)
    requires Steady(k)
    ensures Many(w, k, Freed(s)) == Many(w, k, s)
  {
    if s != [] { FreedMany(w, s[1..], k); }
  }

  lemma {:induction false} FreedPlayers(s: seq<Entry>)
    requires forall e :: e in s ==> e.player >= 0
    ensures forall e :: e in Freed(s) ==> e.player >= 0
  {
    if s != [] { FreedPlayers(s[1..]); }
  }

  /** do_second's pass over the semaphore queue */
  function Expired(w: World, q: Queues, now: int): Queues {
    GiveAll(w, q.(count := GiveBack(q.count, Hit(w, Due(now), q.sems))), Freed(Hit(w, Due(now), q.sems)))
      .(sems := Keep(w, Due(now), q.sems))
  }

  lemma ExpireIsExpired(w: World, q: Queues, now: int)
    ensures Expire(w, q, now, [], q.sems) == Expired(w, q, now)
  {
    ExpireForm(w, q, now, [], q.sems);
    assert [] + Keep(w, Due(now), q.sems) == Keep(w, Due(now), q.sems);
  }

  lemma ExpiredTotals(w: World, q: Queues, now: int, k: Sel)
    requires Steady(k)
    ensures var q' := Expired(w, q, now);
            && Total(w, k, q') == Total(w, k, q) && (Fifo(q) ==> Fifo(q'))
            && q'.queued == q.queued && q'.served == q.served && q'.ended == q.ended && q'.admitted == q.admitted
            && q'.wait == q.wait && q'.count == GiveBack(q.count, Hit(w, Due(now), q.sems))
  {
    var hit := Hit(w, Due(now), q.sems);
    var q1 := q.(count := GiveBack(q.count, hit));
    hide Sat, Many, Hit, Keep, GiveAll, GiveBack, Freed;
    GiveAllKeeps(w, q1, Freed(hit), k);
    FreedMany(w, hit, k);
    HitKeepMany(w, Due(now), q.sems, k);
  }

  lemma ExpiredSems(w: World, q: Queues, now: int)
    requires SemBound(w, q)
    ensures SemBound(w, Expired(w, q, now))
    ensures SemExact(w, q) ==> SemExact(w, Expired(w, q, now))
  {
    var q', hit := Expired(w, q, now), Hit(w, Due(now), q.sems);
    ExpiredTotals(w, q, now, LiveOf(0));
    assert q'.sems == Keep(w, Due(now), q.sems);
    hide Expired, Sat, Hit, Keep, GiveBack, Many, Count;
    forall sem, attr | attr != 0
      ensures Many(w, On(sem, attr), q'.sems) <= Max0(Count(q', sem, attr))
      ensures SemExact(w, q) ==> Many(w, On(sem, attr), q'.sems) == Max0(Count(q', sem, attr))
    {
      HitKeepMany(w, Due(now), q.sems, On(sem, attr));
      SemsShrink(w, q, q', hit, sem, attr);
    }
  }

  lemma ExpiredKeeps(w: World, q: Queues, now: int)
    requires Inv(w, q)
    ensures var q' := Expired(w, q, now);
            Inv(w, q') && (QuotaExact(w, q) ==> QuotaExact(w, q')) && (SemExact(w, q) ==> SemExact(w, q'))
  {
    var q', hit := Expired(w, q, now), Hit(w, Due(now), q.sems);
    FreedPlayers(hit);
    GiveAllProper(w, q.(count := GiveBack(q.count, hit)), Freed(hit));
    assert Proper(q');
    ExpiredTotals(w, q, now, LiveOf(0));
    hide Expired, Proper;
    ExpiredSems(w, q, now);
    hide SemBound, SemExact, Sorted;
    forall k: Sel | Steady(k) ensures Total(w, k, q') == Total(w, k, q) { ExpiredTotals(w, q, now, k); }
    BooksKeep(w, q, q');
  }

  lemma SecondForm(w: World, q: Queues, now: int)
    ensures DoSecond(w, q, now) == Expired(w, WakeFirst(w, Merge(q), now), now)
  {
    ExpireIsExpired(w, WakeFirst(w, Merge(q), now), now);
  }

  lemma SecondKeeps(w: World, q: Queues, now: int)
    requires Inv(w, q)
    ensures var q' := DoSecond(w, q, now);
            Inv(w, q') && (QuotaExact(w, q) ==> QuotaExact(w, q')) && (SemExact(w, q) ==> SemExact(w, q'))
  {
    hide Inv, DoSecond, Expired, WakeFirst, Merge, SemExact, QuotaExact;
    SecondForm(w, q, now);
    MergeKeeps(w, q);
    WakeFirstKeeps(w, Merge(q), now);
    ExpiredKeeps(w, WakeFirst(w, Merge(q), now), now);
  }

  lemma {:induction false} RewindMany(w: World, s: seq<Entry>, i: int, k: Sel)
    requires Steady(k)
    ensures Many(w, k, Rewind(s, i)) == Many(w, k, s)
  {
    if s != [] { RewindMany(w, s[1..], i, k); }
  }

  lemma {:induction false} RewindAll(s: seq<Entry>, i: int)
    ensures forall j :: 0 <= j < |s| ==> Rewind(s, i)[j] == s[j].(waittime := -i)
  {
    if s != [] { RewindAll(s[1..], i); }
  }

  lemma {:induction false} HastenMany(w: World, s: seq<Entry>, i: int, k: Sel)
    requires Steady(k) || k.On?
    ensures Many(w, k, Hasten(s, i)) == Many(w, k, s)
  {
    if s != [] { HastenMany(w, s[1..], i, k); }
  }

  lemma {:induction false} HastenAll(s: seq<Entry>, i: int)
    ensures forall j :: 0 <= j < |s| ==> Hasten(s, i)[j] == s[j].(waittime := Hasten(s, i)[j].waittime)
  {
    if s != [] { HastenAll(s[1..], i); }
  }

  /** The clocks changed by QUEUE_WARP */
  function Warped(q: Queues, i: int): Queues {
    q.(wait := Rewind(q.wait, i), sems := Hasten(q.sems, i))
  }

  lemma WarpedKeeps(w: World, q: Queues, i: int)
    requires Inv(w, q)
    ensures var q' := Warped(q, i);
            Inv(w, q') && (QuotaExact(w, q) ==> QuotaExact(w, q')) && (SemExact(w, q) ==> SemExact(w, q'))
  {
    var q' := Warped(q, i);
    WarpedProper(w, q, i);
    hide Proper, Sorted, Many, Sat, Rewind, Hasten;
    forall k: Sel | Steady(k) ensures Total(w, k, q') == Total(w, k, q) {
      RewindMany(w, q.wait, i, k);
      HastenMany(w, q.sems, i, k);
    }
    BooksKeep(w, q, q');
    hide Once, Quota, QuotaExact;
    forall s, a ensures Many(w, On(s, a), q'.sems) == Many(w, On(s, a), q.sems) && Count(q', s, a) == Count(q, s, a) {
      HastenMany(w, q.sems, i, On(s, a));
    }
  }

  lemma WarpedProper(w: World, q: Queues, i: int)
    requires Proper(q)
    ensures Proper(Warped(q, i)) && Sorted(Warped(q, i).wait)
  {
    RewindAll(q.wait, i);
    HastenAll(q.sems, i);
    var r, h := Rewind(q.wait, i), Hasten(q.sems, i);
    hide Rewind, Hasten;
    forall e | e in r ensures e.player >= 0 { var j :| 0 <= j < |r| && r[j] == e; assert q.wait[j] in q.wait; }
    forall e | e in h ensures e.player >= 0 && e.attr > 0 { var j :| 0 <= j < |h| && h[j] == e; assert q.sems[j] in q.sems; }
  }

  lemma WarpKeeps(w: World, q: Queues, i: int, now: int)
    requires Inv(w, q)
    ensures var q' := DoWarp(w, q, i, now);
            Inv(w, q') && (QuotaExact(w, q) ==> QuotaExact(w, q')) && (SemExact(w, q) ==> SemExact(w, q'))
  {
    hide Inv, DoSecond, QuotaExact, SemExact;
    WarpedKeeps(w, q, i);
    SecondKeeps(w, Warped(q, i), now);
  }

  // ------------------------------------------------------------------ all steps

  /** Steps after which every semaphore counter still equals its number of waiters: every waiter is admitted and
      every notification names an attribute. */
  predicate SemCalm(w: World, q: Queues, a: Act) {
    match a
    case SemWait(who, _, thing, attr, _, _, allowed) => Welcome(w, q, who, thing, attr, allowed)
    case Nfy(_, attr, key, times) => attr != 0 && (key.Notify? ==> times > 0)
    case _ => true
  }

  /** Steps after which every owner's counter still equals its number of live commands: all but halt-all. */
  predicate QuotaCalm(a: Act) {
    !(a.Halt? && a.ptarg == NOTHING && a.otarg == NOTHING)
  }

  lemma ApplyKeeps(w: World, q: Queues, a: Act)
    requires Sane(w) && Inv(w, q)
    ensures var q' := Apply(w, q, a);
            && Inv(w, q')
            && (SemExact(w, q) && SemCalm(w, q, a) ==> SemExact(w, q'))
            && (QuotaExact(w, q) && QuotaCalm(a) ==> QuotaExact(w, q'))
  {
    hide Inv, SemExact, QuotaExact, Sane, Welcome, WaitQue, DoSemWait, NfyQue, HaltQue, DoSecond, DoWarp;
    match a
    case Wait(who, cause, secs, at, allowed) => WaitQueKeeps(w, q, who, cause, secs, NOTHING, 0, at, allowed);
    case SemWait(who, cause, thing, attr, secs, at, allowed) => SemWaitKeeps(w, q, who, cause, thing, attr, secs, at, allowed);
    case Nfy(sem, attr, key, times) => NfyKeeps(w, q, sem, attr, key, times);
    case Halt(ptarg, otarg) => HaltKeeps(w, q, ptarg, otarg);
    case Second(now) => SecondKeeps(w, q, now);
    case Warp(i, now) => WarpKeeps(w, q, i, now);
  }

  predicate ActsSemCalm(w: World, q: Queues, acts: seq<Act>)
    decreases |acts|
  {
    acts == [] || (SemCalm(w, q, acts[0]) && ActsSemCalm(w, Apply(w, q, acts[0]), acts[1..]))
  }

  predicate ActsQuotaCalm(acts: seq<Act>) {
    forall i :: 0 <= i < |acts| ==> QuotaCalm(acts[i])
  }

  lemma {:induction false} PerformKeeps(w: World, q: Queues, acts: seq<Act>)
    requires Sane(w) && Inv(w, q)
    ensures var q' := Perform(w, q, acts);
            && Inv(w, q')
            && (SemExact(w, q) && ActsSemCalm(w, q, acts) ==> SemExact(w, q'))
            && (QuotaExact(w, q) && ActsQuotaCalm(acts) ==> QuotaExact(w, q'))
    decreases |acts|
  {
    hide Inv, SemExact, QuotaExact, Sane, Apply, SemCalm, QuotaCalm;
    if acts != [] {
      ApplyKeeps(w, q, acts[0]);
      PerformKeeps(w, Apply(w, q, acts[0]), acts[1..]);
    }
  }

  // ------------------------------------------------------------------ do_top

  lemma TakeTopKeeps(w: World, q: Queues, going: bool)
    requires Inv(w, q) && q.players != []
    ensures var q' := TakeTop(w, q, going);
            Inv(w, q') && (QuotaExact(w, q) ==> QuotaExact(w, q')) && (SemExact(w, q) ==> SemExact(w, q'))
  {
    var q', e, rest := TakeTop(w, q, going), q.players[0], q.players[1..];
    if e.player >= 0 && !going {
      var dead := e.(player := NOTHING);
      assert q.players == [e] + rest && q'.players == [dead] + rest;
      assert Ids(q'.players) == Ids(q.players);
      SameSems(w, q, q');
      hide Sorted, SemBound, SemExact;
      forall k: Sel | Steady(k)
        ensures Total(w, k, q') == Total(w, k, q) + (if Sat(w, k, dead) then 1 else 0) - (if Sat(w, k, e) then 1 else 0)
      {
        ManyConcat(w, k, [e], rest);
        ManyConcat(w, k, [dead], rest);
        ManyOne(w, k, e);
        ManyOne(w, k, dead);
      }
      hide Total;
      forall i: nat ensures Census(w, q', i) == Census(w, q, i) { assert Steady(WithId(i)); }
      forall o ensures Total(w, LiveOf(o), q') == Total(w, LiveOf(o), q) - if o == w.owner(e.player) then 1 else 0 {
        assert Steady(LiveOf(o));
      }
    }
  }

  lemma PopTotal(w: World, q: Queues, k: Sel)
    requires q.players != []
    ensures Total(w, k, PopTop(q)) == Total(w, k, q) - if Sat(w, k, q.players[0]) then 1 else 0
  {
    var e, rest := q.players[0], q.players[1..];
    assert q.players == [e] + rest;
    ManyConcat(w, k, [e], rest);
    ManyOne(w, k, e);
  }

  lemma PopCensus(w: World, q: Queues, i: nat)
    requires q.players != []
    ensures Census(w, PopTop(q), i) == Census(w, q, i)
  {
    PopTotal(w, q, WithId(i));
    TimesConcat(q.served, [q.players[0].id], i);
    hide Total;
  }

  lemma PopFifo(q: Queues)
    requires Fifo(q) && q.players != []
    ensures Fifo(PopTop(q))
  {
    var rest := q.players[1..];
    IdsCons(q.players);
    hide Ids;
    ThreeParts(q.served, [q.players[0].id], Ids(rest));
  }

  lemma PopTopKeeps(w: World, q: Queues)
    requires Inv(w, q)
    ensures var q' := PopTop(q); Inv(w, q') && (SemExact(w, q) ==> SemExact(w, q'))
    ensures QuotaExact(w, q) && (q.players != [] ==> q.players[0].player == NOTHING) ==> QuotaExact(w, PopTop(q))
  {
    if q.players != [] {
      var q' := PopTop(q);
      PopFifo(q);
      SameSems(w, q, q');
      hide Sorted, SemBound, SemExact, Fifo, Total, Census;
      forall i: nat ensures Census(w, q', i) == Census(w, q, i) { PopCensus(w, q, i); }
      forall o
        ensures Total(w, LiveOf(o), q') <= Total(w, LiveOf(o), q)
        ensures q.players[0].player == NOTHING ==> Total(w, LiveOf(o), q') == Total(w, LiveOf(o), q)
      {
        PopTotal(w, q, LiveOf(o));
      }
    }
  }

  // ------------------------------------------------------------------ the command being run stays at the head

  /** The head of the player queue is the entry of serial i, already taken over. */
  ghost predicate Heads(q: Queues, i: nat) {
    q.players != [] && q.players[0].id == i && q.players[0].player == NOTHING
  }

  lemma {:induction false} GiveAllHeads(w: World, q: Queues, s: seq<Entry>, i: nat)
    requires Heads(q, i)
    ensures Heads(GiveAll(w, q, s), i)
    decreases |s|
  {
    if s != [] { GiveAllHeads(w, Give(w, q, s[0]), s[1..], i); }
  }

  lemma HaltHeads(w: World, q: Queues, ptarg: int, otarg: int, i: nat)
    requires Heads(q, i)
    ensures Heads(HaltQue(w, q, ptarg, otarg), i)
  {
    SweepForm(w, Wanted(ptarg, otarg), q);
  }

  lemma NfyHeads(w: World, q: Queues, sem: int, attr: int, key: Key, times: int, i: nat)
    requires Heads(q, i) && Proper(q)
    ensures Heads(NfyQue(w, q, sem, attr, key, times), i)
  {
    var k := On(sem, attr);
    NfyIsWoken(w, q, k, key, times);
    var taken := Taken(w, k, key, times, 0, q.sems);
    if key.Drain? { DrainAllForm(w, q, taken, 0); } else { GiveAllHeads(w, q, taken, i); }
  }

  lemma SecondHeads(w: World, q: Queues, now: int, i: nat)
    requires Heads(q, i)
    ensures Heads(DoSecond(w, q, now), i)
  {
    SecondForm(w, q, now);
    var q1 := WakeFirst(w, Merge(q), now);
    var hit := Hit(w, Due(now), q1.sems);
    GiveAllHeads(w, q1.(count := GiveBack(q1.count, hit)), Freed(hit), i);
  }

  lemma ApplyHeads(w: World, q: Queues, a: Act, i: nat)
    requires Heads(q, i) && Proper(q)
    ensures Heads(Apply(w, q, a), i)
  {
    match a
    case Wait(who, cause, secs, at, allowed) => SetupHeads(w, q, who, allowed, i);
    case SemWait(who, cause, thing, attr, secs, at, allowed) => SetupHeads(w, AddTo(q, thing, 1, attr), who, allowed, i);
    case Nfy(sem, attr, key, times) => NfyHeads(w, q, sem, attr, key, times, i);
    case Halt(ptarg, otarg) => HaltHeads(w, q, ptarg, otarg, i);
    case Second(now) => SecondHeads(w, q, now, i);
    case Warp(k, now) => SecondHeads(w, Warped(q, k), now, i);
  }

  lemma SetupHeads(w: World, q: Queues, who: nat, allowed: bool, i: nat)
    requires Heads(q, i)
    ensures Heads(Setup(w, q, who, allowed).1, i)
  {
    hide HaltQue;
    HaltHeads(w, AddQueued(q, w.owner(who), 1), w.owner(who), NOTHING, i);
  }

  /** Whatever a command does to the queues, it is still the one at the head when do_top takes it off. */
  lemma {:induction false} PerformHeads(w: World, q: Queues, acts: seq<Act>, i: nat)
    requires Sane(w) && Inv(w, q) && Heads(q, i)
    ensures Heads(Perform(w, q, acts), i)
    decreases |acts|
  {
    if acts != [] {
      ApplyKeeps(w, q, acts[0]);
      ApplyHeads(w, q, acts[0], i);
      hide Inv, Apply, Heads;
      PerformHeads(w, Apply(w, q, acts[0]), acts[1..], i);
    }
  }

  lemma TopKeeps(w: World, q: Queues, going: bool, halted: bool, acts: seq<Act>)
    requires Sane(w) && Inv(w, q)
    ensures var q' := DoTop(w, q, going, halted, acts);
            && Inv(w, q')
            && (SemExact(w, q) && TopSemCalm(w, q, going, halted, acts) ==> SemExact(w, q'))
            && (QuotaExact(w, q) && TopQuotaCalm(q, going, acts) ==> QuotaExact(w, q'))
            && (q.players != [] ==> q'.served == q.served + [q.players[0].id])
  {
    if q.players != [] {
      var p, i := q.players[0].player, q.players[0].id;
      var q1 := TakeTop(w, q, going);
      var todo := if p >= 0 && !going && !halted then acts else [];
      var q2 := Perform(w, q1, todo);
      assert p >= NOTHING by { assert q.players[0] in q.players; }
      TakeTopKeeps(w, q, going);
      hide Inv, SemExact, QuotaExact, Sane;
      PerformKeeps(w, q1, todo);
      PopTopKeeps(w, q2);
      PerformServed(w, q1, todo);
      if p < 0 || !going { PerformHeads(w, q1, todo, i); }
    }
  }

  predicate TopSemCalm(w: World, q: Queues, going: bool, halted: bool, acts: seq<Act>) {
    q.players == [] || !(q.players[0].player >= 0 && !going && !halted) || ActsSemCalm(w, TakeTop(w, q, going), acts)
  }

  predicate TopQuotaCalm(q: Queues, going: bool, acts: seq<Act>) {
    (q.players != [] && q.players[0].player >= 0 ==> !going) && ActsQuotaCalm(acts)
  }

  /** Only do_top serves. */
  lemma {:induction false} PerformServed(w: World, q: Queues, acts: seq<Act>)
    requires Sane(w) && Inv(w, q)
    ensures Perform(w, q, acts).served == q.served
    decreases |acts|
  {
    if acts != [] {
      ApplyKeeps(w, q, acts[0]);
      ApplyServed(w, q, acts[0]);
      PerformServed(w, Apply(w, q, acts[0]), acts[1..]);
    }
  }

  lemma ApplyServed(w: World, q: Queues, a: Act)
    requires Proper(q)
    ensures Apply(w, q, a).served == q.served
  {
    hide WaitQue, HaltQue, NfyQue, DoSecond, Proper;
    match a
    case Wait(who, cause, secs, at, allowed) => WaitServed(w, q, who, cause, secs, NOTHING, 0, at, allowed);
    case SemWait(who, cause, thing, attr, secs, at, allowed) =>
      WaitServed(w, AddTo(q, thing, 1, attr), who, cause, 0, NOTHING, attr, at, allowed);
      WaitServed(w, AddTo(q, thing, 1, attr), who, cause, secs, thing, attr, at, allowed);
    case Nfy(sem, attr, key, times) => NfyServed(w, q, sem, attr, key, times);
    case Halt(ptarg, otarg) => HaltServed(w, q, ptarg, otarg);
    case Second(now) => SecondServed(w, q, now);
    case Warp(i, now) => SecondServed(w, Warped(q, i), now);
  }

  lemma HaltServed(w: World, q: Queues, ptarg: int, otarg: int)
    ensures HaltQue(w, q, ptarg, otarg).served == q.served
  {
    SweepForm(w, Wanted(ptarg, otarg), q);
  }

  lemma WaitServed(w: World, q: Queues, who: nat, cause: int, secs: int, sem: int, attr: int, at: int, allowed: bool)
    ensures WaitQue(w, q, who, cause, secs, sem, attr, at, allowed).served == q.served
  {
    HaltServed(w, AddQueued(q, w.owner(who), 1), w.owner(who), NOTHING);
    hide HaltQue;
  }

  lemma NfyServed(w: World, q: Queues, sem: int, attr: int, key: Key, times: int)
    requires Proper(q)
    ensures NfyQue(w, q, sem, attr, key, times).served == q.served
  {
    NfyIsWoken(w, q, On(sem, attr), key, times);
    WokenTotals(w, q, On(sem, attr), key, times, LiveOf(0));
    hide Woken, NfyWalk;
  }

  lemma SecondServed(w: World, q: Queues, now: int)
    ensures DoSecond(w, q, now).served == q.served
  {
    SecondForm(w, q, now);
    ExpiredTotals(w, WakeFirst(w, Merge(q), now), now, LiveOf(0));
  }
}
