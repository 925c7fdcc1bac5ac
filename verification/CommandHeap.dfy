/**
 The command queue of src/cque.c on its linked blocks: heads and tails of the four queues, the `next` field and
 the other fields of every block.  The block of the command with serial number i has address i + 1.  Each method
 is proved to do to `view` what the corresponding function of CommandQueue does, with every head, link and tail
 in place afterwards.
 */
module CommandHeap {
  import opened PointerLists
  import opened CommandQueue

  function AddrOf(e: Entry): Addr { e.id + 1 }

  function Addrs(s: seq<Entry>): (r: seq<Addr>)
    ensures |r| == |s| && forall i :: 0 <= i < |s| ==> r[i] == s[i].id + 1
  {
    seq(|s|, i requires 0 <= i < |s| => s[i].id + 1)
  }

  function TailOf(s: seq<Addr>): Addr { if s == [] then NULL else s[|s| - 1] }

  datatype Memory = Memory(
    qfirst: Addr, qlast: Addr,
    qlfirst: Addr, qllast: Addr,
    qwait: Addr,
    qsemfirst: Addr, qsemlast: Addr,
    next: map<Addr, Addr>,
    entry: map<Addr, Entry>)

  ghost predicate Stored(entry: map<Addr, Entry>, s: seq<Entry>) {
    forall i :: 0 <= i < |s| ==> AddrOf(s[i]) in entry && entry[AddrOf(s[i])] == s[i]
  }

  /** A queue in memory: the chain from its head, its true tail and the contents of its blocks. */
  ghost predicate Lane(first: Addr, last: Addr, m: Memory, s: seq<Entry>) {
    Chain(first, m.next, Addrs(s)) && last == TailOf(Addrs(s)) && Stored(m.entry, s)
  }

  ghost predicate Spell(q: Queues, m: Memory) {
    && Lane(m.qfirst, m.qlast, m, q.players)
    && Lane(m.qlfirst, m.qllast, m, q.objects)
    && Lane(m.qwait, TailOf(Addrs(q.wait)), m, q.wait)
    && Lane(m.qsemfirst, m.qsemlast, m, q.sems)
  }

  // ------------------------------------------------------------------ blocks are on one queue only

  ghost predicate Unique(w: World, q: Queues) {
    forall i: nat :: Total(w, WithId(i), q) <= 1
  }

  lemma {:induction false} MemberCounts(w: World, s: seq<Entry>, j: nat)
    requires j < |s|
    ensures Many(w, WithId(s[j].id), s) >= 1
  {
    if j > 0 { MemberCounts(w, s[1..], j - 1); }
  }

  lemma {:induction false} RepeatCounts(w: World, s: seq<Entry>, j: nat, k: nat)
    requires j < k < |s| && s[j].id == s[k].id
    ensures Many(w, WithId(s[j].id), s) >= 2
  {
    if j > 0 { RepeatCounts(w, s[1..], j - 1, k - 1); } else { MemberCounts(w, s[1..], k - 1); }
  }

  ghost predicate NotOn(s: seq<Entry>, a: Addr) {
    forall i :: 0 <= i < |s| ==> AddrOf(s[i]) != a
  }

  ghost predicate DistinctIds(s: seq<Entry>) {
    forall i, j :: 0 <= i < j < |s| ==> s[i].id != s[j].id
  }

  ghost predicate Disjoint(s: seq<Entry>, t: seq<Entry>) {
    forall i, j :: 0 <= i < |s| && 0 <= j < |t| ==> s[i].id != t[j].id
  }

  lemma DisjointBy(w: World, s: seq<Entry>, t: seq<Entry>)
    requires forall i: nat :: Many(w, WithId(i), s) + Many(w, WithId(i), t) <= 1
    ensures Disjoint(s, t) && DistinctIds(s) && DistinctIds(t)
  {
    forall i, j | 0 <= i < |s| && 0 <= j < |t| ensures s[i].id != t[j].id {
      MemberCounts(w, s, i);
      MemberCounts(w, t, j);
    }
    forall i, j | 0 <= i < j < |s| ensures s[i].id != s[j].id {
      if s[i].id == s[j].id { RepeatCounts(w, s, i, j); }
    }
    forall i, j | 0 <= i < j < |t| ensures t[i].id != t[j].id {
      if t[i].id == t[j].id { RepeatCounts(w, t, i, j); }
    }
  }

  lemma UniqueApart(w: World, q: Queues)
    requires Unique(w, q)
    ensures DistinctIds(q.players) && DistinctIds(q.objects) && DistinctIds(q.wait) && DistinctIds(q.sems)
    ensures Disjoint(q.players, q.objects) && Disjoint(q.players, q.wait) && Disjoint(q.players, q.sems)
    ensures Disjoint(q.objects, q.wait) && Disjoint(q.objects, q.sems) && Disjoint(q.wait, q.sems)
  {
    hide DistinctIds, Disjoint, Many;
    forall i: nat ensures Many(w, WithId(i), q.players) + Many(w, WithId(i), q.objects) + Many(w, WithId(i), q.wait)
                          + Many(w, WithId(i), q.sems) <= 1
    {
      assert Total(w, WithId(i), q) <= 1;
    }
    DisjointBy(w, q.players, q.objects);
    DisjointBy(w, q.players, q.wait);
    DisjointBy(w, q.players, q.sems);
    DisjointBy(w, q.objects, q.wait);
    DisjointBy(w, q.objects, q.sems);
    DisjointBy(w, q.wait, q.sems);
  }

  /** No queue holds the block at this address. */
  ghost predicate Off(q: Queues, a: Addr) {
    NotOn(q.players, a) && NotOn(q.objects, a) && NotOn(q.wait, a) && NotOn(q.sems, a)
  }

  lemma NoneIsOff(w: World, q: Queues, i: nat)
    requires Total(w, WithId(i), q) == 0
    ensures Off(q, i + 1)
  {
    forall j | 0 <= j < |q.players| ensures q.players[j].id != i { MemberCounts(w, q.players, j); }
    forall j | 0 <= j < |q.objects| ensures q.objects[j].id != i { MemberCounts(w, q.objects, j); }
    forall j | 0 <= j < |q.wait| ensures q.wait[j].id != i { MemberCounts(w, q.wait, j); }
    forall j | 0 <= j < |q.sems| ensures q.sems[j].id != i { MemberCounts(w, q.sems, j); }
  }

  // ------------------------------------------------------------------ changing one queue

  /** Only the block at `a` and the link of the block at `b` differ. */
  ghost predicate Touched(m: Memory, m': Memory, a: Addr, b: Addr) {
    && (forall x :: x in m.next && x != a && x != b ==> x in m'.next && m'.next[x] == m.next[x])
    && (forall x :: x in m.entry && x != a ==> x in m'.entry && m'.entry[x] == m.entry[x])
  }

  lemma LaneFrame(first: Addr, last: Addr, m: Memory, m': Memory, s: seq<Entry>, a: Addr, b: Addr)
    requires Lane(first, last, m, s) && Touched(m, m', a, b) && NotOn(s, a) && NotOn(s, b)
    ensures Lane(first, last, m', s)
  {
    var c := Addrs(s);
    forall i | 0 <= i < |c| ensures c[i] in m'.next && m'.next[c[i]] == At(c, i + 1) { assert c[i] == AddrOf(s[i]); }
  }

  /** The threading of give_que: a block is appended to a queue. */
  method Thread(first: Addr, last: Addr, next: map<Addr, Addr>, b: Addr, ghost s: seq<Addr>)
    returns (first': Addr, next': map<Addr, Addr>)
    requires Chain(first, next, s) && last == TailOf(s) && b != NULL && b !in s
    ensures Chain(first', next', s + [b]) && b in next'
    ensures forall x :: x in next && x != b && x != last ==> x in next' && next'[x] == next[x]
  {
    ChainDistinct(first, next, s);
    next' := next[b := NULL];
    if last != NULL {
      first', next' := first, next'[last := b];
    } else {
      first' := b;
    }
    ghost var r := s + [b];
    forall i | 0 <= i < |r| ensures r[i] != NULL && r[i] in next' && next'[r[i]] == At(r, i + 1) {
      if i < |s| - 1 { assert s[i] != s[|s| - 1]; assert next[s[i]] == s[i + 1]; }
    }
  }

  lemma TailNotOn(s: seq<Entry>, t: seq<Entry>)
    requires Disjoint(s, t)
    ensures NotOn(t, TailOf(Addrs(s))) && NotOn(s, TailOf(Addrs(t)))
  {
  }

  lemma NotOnAddrs(s: seq<Entry>, a: Addr)
    ensures NotOn(s, a) <==> a !in Addrs(s)
  {
    forall i | 0 <= i < |s| ensures AddrOf(s[i]) in Addrs(s) { assert Addrs(s)[i] == AddrOf(s[i]); }
  }

  lemma AddrsConcat(s: seq<Entry>, t: seq<Entry>)
    ensures Addrs(s + t) == Addrs(s) + Addrs(t)
  {
  }

  lemma StoredAppend(entry: map<Addr, Entry>, entry': map<Addr, Entry>, s: seq<Entry>, e: Entry)
    requires Stored(entry, s) && NotOn(s, AddrOf(e))
    requires forall x :: x in entry && x != AddrOf(e) ==> x in entry' && entry'[x] == entry[x]
    requires AddrOf(e) in entry' && entry'[AddrOf(e)] == e
    ensures Stored(entry', s + [e])
  {
  }

  lemma LaneAppend(first: Addr, m: Memory, m': Memory, s: seq<Entry>, e: Entry, b: Addr)
    requires Stored(m.entry, s) && NotOn(s, AddrOf(e)) && Touched(m, m', AddrOf(e), b)
    requires AddrOf(e) in m'.entry && m'.entry[AddrOf(e)] == e
    requires Chain(first, m'.next, Addrs(s) + [AddrOf(e)])
    ensures Lane(first, AddrOf(e), m', s + [e])
  {
    hide Chain, Stored;
    StoredAppend(m.entry, m'.entry, s, e);
    assert Addrs(s + [e]) == Addrs(s) + [AddrOf(e)];
  }

  /** give_que, where the three other queues share no block with the one the block joins. */
  method GiveTo(m: Memory, a: Addr, toPlayers: bool, ghost q: Queues) returns (m': Memory)
    requires Spell(q, m) && Off(q, a) && a in m.entry && a == AddrOf(m.entry[a])
    requires var s := if toPlayers then q.players else q.objects; var t := if toPlayers then q.objects else q.players;
             Disjoint(s, t) && Disjoint(s, q.wait) && Disjoint(s, q.sems)
    ensures var e := m.entry[a].(waittime := 0);
            Spell(if toPlayers then q.(players := q.players + [e]) else q.(objects := q.objects + [e]), m')
  {
    hide Chain, Stored, Touched;
    var e := m.entry[a].(waittime := 0);
    var entry := m.entry[a := e];
    ghost var s := if toPlayers then q.players else q.objects;
    ghost var t := if toPlayers then q.objects else q.players;
    NotOnAddrs(s, a);
    TailNotOn(s, t);
    TailNotOn(s, q.wait);
    TailNotOn(s, q.sems);
    var last := if toPlayers then m.qlast else m.qllast;
    var first, next := Thread(if toPlayers then m.qfirst else m.qlfirst, last, m.next, a, Addrs(s));
    m' := if toPlayers then m.(qfirst := first, qlast := a, next := next, entry := entry)
          else m.(qlfirst := first, qllast := a, next := next, entry := entry);
    JustTouched(m, m', a, last, next, e);
    LaneAppend(first, m, m', s, e, last);
    LaneFrame(if toPlayers then m.qlfirst else m.qfirst, if toPlayers then m.qllast else m.qlast, m, m', t, a, last);
    LaneFrame(m.qwait, TailOf(Addrs(q.wait)), m, m', q.wait, a, last);
    LaneFrame(m.qsemfirst, m.qsemlast, m, m', q.sems, a, last);
  }

  lemma JustTouched(m: Memory, m': Memory, a: Addr, b: Addr, next: map<Addr, Addr>, e: Entry)
    requires m'.next == next && m'.entry == m.entry[a := e]
    requires forall x :: x in m.next && x != a && x != b ==> x in next && next[x] == m.next[x]
    ensures Touched(m, m', a, b)
  {
  }

  /** give_que: the block at a is on no queue yet. */
  method GiveLinks(w: World, m: Memory, a: Addr, ghost q: Queues) returns (m': Memory)
    requires Spell(q, m) && Unique(w, q) && Off(q, a) && a in m.entry && a == AddrOf(m.entry[a])
    ensures Spell(Give(w, q, m.entry[a]), m')
  {
    UniqueApart(w, q);
    hide Unique, Lane, Disjoint, DistinctIds, Off;
    DisjointBoth(q.players, q.objects);
    m' := GiveTo(m, a, w.isPlayer(m.entry[a].cause), q);
  }

  lemma DisjointBoth(s: seq<Entry>, t: seq<Entry>)
    requires Disjoint(s, t)
    ensures Disjoint(t, s)
  {
  }

  // ------------------------------------------------------------------ taking blocks off a queue

  /** `if (trail) trail->next = next = point->next; else first = next = point->next` */
  method UnlinkBlock(first: Addr, trail: Addr, point: Addr, next: map<Addr, Addr>, ghost kept: seq<Addr>, ghost rest: seq<Addr>)
    returns (first': Addr, next': map<Addr, Addr>, onward: Addr)
    requires Chain(first, next, kept + rest) && rest != [] && point == rest[0] && trail == TailOf(kept)
    ensures Chain(first', next', kept + rest[1..]) && onward == At(rest[1..], 0)
    ensures forall x :: x in next && x != trail ==> x in next' && next'[x] == next[x]
  {
    ghost var s, k := kept + rest, |kept|;
    ChainDistinct(first, next, s);
    assert s[k] == point && next[s[k]] == At(s, k + 1);
    ChainUnlink(first, next, s, k);
    WithoutAt(s, k);
    assert s[..k] + s[k + 1..] == kept + rest[1..];
    onward := next[point];
    assert k > 0 ==> s[k - 1] == kept[k - 1] == trail != NULL;
    if trail != NULL {
      first', next' := first, next[trail := onward];
    } else {
      first', next' := onward, next;
    }
  }

  /** A queue whose entry e between `kept` and `rest` is gone */
  function WaitAs(q: Queues, s: seq<Entry>): Queues { q.(wait := s) }

  function SemsAs(q: Queues, s: seq<Entry>): Queues { q.(sems := s) }

  lemma ManyDrop(w: World, k: Sel, kept: seq<Entry>, rest: seq<Entry>)
    requires rest != []
    ensures Many(w, k, kept + rest) == Many(w, k, kept + rest[1..]) + if Sat(w, k, rest[0]) then 1 else 0
  {
    ManyConcat(w, k, kept, rest);
    ManyConcat(w, k, kept, rest[1..]);
  }

  lemma DropUnique(w: World, q: Queues, kept: seq<Entry>, rest: seq<Entry>)
    requires rest != []
    ensures Unique(w, WaitAs(q, kept + rest)) ==>
            Unique(w, WaitAs(q, kept + rest[1..])) && Total(w, WithId(rest[0].id), WaitAs(q, kept + rest[1..])) == 0
    ensures Unique(w, SemsAs(q, kept + rest)) ==>
            Unique(w, SemsAs(q, kept + rest[1..])) && Total(w, WithId(rest[0].id), SemsAs(q, kept + rest[1..])) == 0
  {
    hide Many;
    forall i: nat
      ensures Total(w, WithId(i), WaitAs(q, kept + rest)) == Total(w, WithId(i), WaitAs(q, kept + rest[1..])) + (if rest[0].id == i then 1 else 0)
      ensures Total(w, WithId(i), SemsAs(q, kept + rest)) == Total(w, WithId(i), SemsAs(q, kept + rest[1..])) + (if rest[0].id == i then 1 else 0)
    {
      ManyDrop(w, WithId(i), kept, rest);
    }
  }

  lemma StoredDrop(entry: map<Addr, Entry>, kept: seq<Entry>, rest: seq<Entry>)
    requires rest != [] && Stored(entry, kept + rest)
    ensures Stored(entry, kept + rest[1..]) && AddrOf(rest[0]) in entry && entry[AddrOf(rest[0])] == rest[0]
  {
    var s, r := kept + rest, kept + rest[1..];
    assert s[|kept|] == rest[0];
    forall i | 0 <= i < |r| ensures AddrOf(r[i]) in entry && entry[AddrOf(r[i])] == r[i] {
      assert r[i] == s[if i < |kept| then i else i + 1];
    }
  }

  lemma AddrsSplit(kept: seq<Entry>, rest: seq<Entry>)
    requires rest != []
    ensures Addrs(kept + rest) == Addrs(kept) + Addrs(rest) && Addrs(rest)[1..] == Addrs(rest[1..])
    ensures Addrs(kept + rest[1..]) == Addrs(kept) + Addrs(rest[1..])
  {
  }

  /** The wait queue loses the block between `kept` and `rest`. */
  method DropWait(w: World, m: Memory, trail: Addr, point: Addr, ghost q: Queues, ghost kept: seq<Entry>, ghost rest: seq<Entry>)
    returns (m': Memory, onward: Addr)
    requires Spell(WaitAs(q, kept + rest), m) && Unique(w, WaitAs(q, kept + rest))
    requires rest != [] && point == AddrOf(rest[0]) && trail == TailOf(Addrs(kept))
    ensures Spell(WaitAs(q, kept + rest[1..]), m') && m' == m.(next := m'.next, qwait := m'.qwait)
    ensures onward == At(Addrs(rest[1..]), 0)
  {
    UniqueApart(w, WaitAs(q, kept + rest));
    AddrsSplit(kept, rest);
    hide Unique, Chain;
    StoredDrop(m.entry, kept, rest);
    TrailNotOn(q.players, kept, rest);
    TrailNotOn(q.objects, kept, rest);
    DisjointBoth(kept + rest, q.sems);
    TrailNotOn(q.sems, kept, rest);
    hide Stored, Disjoint, NotOn;
    var first, next;
    first, next, onward := UnlinkBlock(m.qwait, trail, point, m.next, Addrs(kept), Addrs(rest));
    m' := m.(qwait := first, next := next);
    assert Touched(m, m', trail, trail);
    LaneFrame(m.qfirst, m.qlast, m, m', q.players, trail, trail);
    LaneFrame(m.qlfirst, m.qllast, m, m', q.objects, trail, trail);
    LaneFrame(m.qsemfirst, m.qsemlast, m, m', q.sems, trail, trail);
  }

  lemma TrailNotOn(s: seq<Entry>, kept: seq<Entry>, rest: seq<Entry>)
    requires Disjoint(s, kept + rest)
    ensures NotOn(s, TailOf(Addrs(kept)))
  {
    if kept != [] { assert (kept + rest)[|kept| - 1] == kept[|kept| - 1]; }
  }

  /** The semaphore queue loses the block between `kept` and `rest`; its tail pointer follows. */
  method DropSem(w: World, m: Memory, trail: Addr, point: Addr, ghost q: Queues, ghost kept: seq<Entry>, ghost rest: seq<Entry>)
    returns (m': Memory, onward: Addr)
    requires Spell(SemsAs(q, kept + rest), m) && Unique(w, SemsAs(q, kept + rest))
    requires rest != [] && point == AddrOf(rest[0]) && trail == TailOf(Addrs(kept))
    ensures Spell(SemsAs(q, kept + rest[1..]), m') && m'.entry == m.entry
    ensures onward == At(Addrs(rest[1..]), 0)
  {
    UniqueApart(w, SemsAs(q, kept + rest));
    AddrsSplit(kept, rest);
    LastOfSplit(m.qsemlast, trail, point, kept, rest);
    hide Unique, Chain, DistinctIds;
    StoredDrop(m.entry, kept, rest);
    TrailNotOn(q.players, kept, rest);
    TrailNotOn(q.objects, kept, rest);
    TrailNotOn(q.wait, kept, rest);
    hide Stored, Disjoint, NotOn, TailOf;
    var first, next;
    first, next, onward := UnlinkBlock(m.qsemfirst, trail, point, m.next, Addrs(kept), Addrs(rest));
    m' := m.(qsemfirst := first, next := next, qsemlast := if point == m.qsemlast then trail else m.qsemlast);
    assert Touched(m, m', trail, trail);
    hide Touched;
    OthersFrame(m, m', q, trail);
  }

  /** The three queues that the unlinked block was not on */
  lemma OthersFrame(m: Memory, m': Memory, q: Queues, a: Addr)
    requires Touched(m, m', a, a) && NotOn(q.players, a) && NotOn(q.objects, a) && NotOn(q.wait, a)
    requires Lane(m.qfirst, m.qlast, m, q.players) && Lane(m.qlfirst, m.qllast, m, q.objects)
    requires Lane(m.qwait, TailOf(Addrs(q.wait)), m, q.wait)
    ensures Lane(m.qfirst, m.qlast, m', q.players) && Lane(m.qlfirst, m.qllast, m', q.objects)
    ensures Lane(m.qwait, TailOf(Addrs(q.wait)), m', q.wait)
  {
    hide Lane, Touched, NotOn, TailOf, Addrs;
    LaneFrame(m.qfirst, m.qlast, m, m', q.players, a, a);
    LaneFrame(m.qlfirst, m.qllast, m, m', q.objects, a, a);
    LaneFrame(m.qwait, TailOf(Addrs(q.wait)), m, m', q.wait, a, a);
  }

  lemma LastOfSplit(last: Addr, trail: Addr, point: Addr, kept: seq<Entry>, rest: seq<Entry>)
    requires rest != [] && point == AddrOf(rest[0]) && trail == TailOf(Addrs(kept)) && last == TailOf(Addrs(kept + rest))
    requires DistinctIds(kept + rest)
    ensures TailOf(Addrs(kept + rest[1..])) == if point == last then trail else last
  {
    var s := kept + rest;
    assert s[|kept|] == rest[0];
    if |rest| > 1 {
      assert s[|s| - 1] == rest[|rest| - 1] == rest[1..][|rest| - 2];
    } else {
      assert kept + rest[1..] == kept;
    }
  }

  // ------------------------------------------------------------------ the loops of halt_que

  /** A change made to the blocks of a queue, one after the other */
  datatype Change = Hush(w: World, k: Sel) | Clock(i: int) | SemClock(j: int)

  function Changed(c: Change, e: Entry): Entry {
    match c
    case Hush(w, k) => if Sat(w, k, e) then e.(player := NOTHING) else e
    case Clock(i) => e.(waittime := -i)
    case SemClock(j) =>
      e.(waittime := if e.waittime <= 0 then e.waittime else if e.waittime - j <= 0 then -1 else e.waittime - j)
  }

  function ChangeAll(c: Change, s: seq<Entry>): (r: seq<Entry>)
    ensures |r| == |s|
  {
    if s == [] then [] else [Changed(c, s[0])] + ChangeAll(c, s[1..])
  }

  lemma {:induction false} ChangesAre(s: seq<Entry>)
    ensures forall w, k :: ChangeAll(Hush(w, k), s) == Silence(w, k, s)
    ensures forall i :: ChangeAll(Clock(i), s) == Rewind(s, i)
    ensures forall i :: ChangeAll(SemClock(i), s) == Hasten(s, i)
  {
    if s != [] { ChangesAre(s[1..]); }
  }

  /** The blocks after the change reached all of s */
  function Sweeping(c: Change, entry: map<Addr, Entry>, s: seq<Entry>): map<Addr, Entry>
    decreases |s|
  {
    if s == [] then entry else Sweeping(c, entry[AddrOf(s[0]) := Changed(c, s[0])], s[1..])
  }

  lemma StoredRest(entry: map<Addr, Entry>, s: seq<Entry>, e: Entry)
    requires Stored(entry, s) && s != [] && DistinctIds(s) && e.id == s[0].id
    ensures Stored(entry[AddrOf(s[0]) := e], s[1..]) && DistinctIds(s[1..])
    ensures AddrOf(s[0]) in entry && entry[AddrOf(s[0])] == s[0]
  {
  }

  lemma {:induction false} SweepingAt(c: Change, entry: map<Addr, Entry>, s: seq<Entry>, x: Addr)
    requires x in entry && NotOn(s, x)
    ensures x in Sweeping(c, entry, s) && Sweeping(c, entry, s)[x] == entry[x]
    decreases |s|
  {
    hide Changed;
    if s != [] { SweepingAt(c, entry[AddrOf(s[0]) := Changed(c, s[0])], s[1..], x); }
  }

  lemma ChangedId(c: Change, e: Entry)
    ensures Changed(c, e).id == e.id
  {
  }

  lemma {:induction false} SweepingStores(c: Change, entry: map<Addr, Entry>, s: seq<Entry>)
    requires DistinctIds(s)
    ensures Stored(Sweeping(c, entry, s), ChangeAll(c, s))
    decreases |s|
  {
    if s != [] {
      var e := Changed(c, s[0]);
      ChangedId(c, s[0]);
      hide Changed;
      var first := entry[AddrOf(s[0]) := e];
      SweepingStores(c, first, s[1..]);
      SweepingAt(c, first, s[1..], AddrOf(s[0]));
      StoredCons(Sweeping(c, first, s[1..]), e, ChangeAll(c, s[1..]));
    }
  }

  lemma StoredCons(entry: map<Addr, Entry>, e: Entry, s: seq<Entry>)
    requires Stored(entry, s) && AddrOf(e) in entry && entry[AddrOf(e)] == e
    ensures Stored(entry, [e] + s)
  {
  }

  /** A loop that walks a whole queue and changes its blocks in place: the first two of halt_que and those of
      QUEUE_WARP.  It also counts the blocks halt_que wants. */
  method ChangeLoop(c: Change, k: Sel, w: World, first: Addr, next: map<Addr, Addr>, entry: map<Addr, Entry>, ghost s: seq<Entry>)
    returns (entry': map<Addr, Entry>, n: nat)
    requires Chain(first, next, Addrs(s)) && Stored(entry, s) && DistinctIds(s)
    ensures entry' == Sweeping(c, entry, s) && n == Many(w, k, s)
  {
    hide Sat, Changed;
    entry', n := entry, 0;
    var point := first;
    ghost var rest := s;
    while point != NULL
      invariant Chain(point, next, Addrs(rest)) && Stored(entry', rest) && DistinctIds(rest)
      invariant Sweeping(c, entry', rest) == Sweeping(c, entry, s) && n + Many(w, k, rest) == Many(w, k, s)
      decreases |rest|
    {
      hide Chain, Stored, DistinctIds;
      ChainStep(point, next, rest);
      ChangedId(c, rest[0]);
      StoredRest(entry', rest, Changed(c, rest[0]));
      if Sat(w, k, entry'[point]) { n := n + 1; }
      entry' := entry'[point := Changed(c, entry'[point])];
      point := next[point];
      rest := rest[1..];
    }
    assert rest == [] by { RestEmpty(rest); }
  }

  lemma ChainStep(point: Addr, next: map<Addr, Addr>, rest: seq<Entry>)
    requires Chain(point, next, Addrs(rest)) && point != NULL
    ensures rest != [] && point == AddrOf(rest[0]) && point in next && Chain(next[point], next, Addrs(rest[1..]))
  {
    var c, d := Addrs(rest), Addrs(rest[1..]);
    assert d == c[1..];
    forall i | 0 <= i < |d| ensures d[i] in next && next[d[i]] == At(d, i + 1) { assert d[i] == c[i + 1]; }
  }

  // ------------------------------------------------------------------ walking the wait and semaphore queues

  /** A loop over the wait queue stands at `point`, behind `trail`; `kept` is what it has passed. */
  ghost predicate OnWait(w: World, m: Memory, v: Queues, kept: seq<Entry>, rest: seq<Entry>, trail: Addr, point: Addr) {
    && Spell(WaitAs(v, kept + rest), m) && Unique(w, WaitAs(v, kept + rest))
    && point == At(Addrs(rest), 0) && trail == TailOf(Addrs(kept))
  }

  ghost predicate OnSems(w: World, m: Memory, v: Queues, kept: seq<Entry>, rest: seq<Entry>, trail: Addr, point: Addr) {
    && Spell(SemsAs(v, kept + rest), m) && Unique(w, SemsAs(v, kept + rest))
    && point == At(Addrs(rest), 0) && trail == TailOf(Addrs(kept))
  }

  lemma WaitBegins(w: World, m: Memory, q: Queues)
    requires Spell(q, m) && Unique(w, q)
    ensures OnWait(w, m, q, [], q.wait, NULL, m.qwait) && OnSems(w, m, q, [], q.sems, NULL, m.qsemfirst)
  {
    assert [] + q.wait == q.wait && WaitAs(q, q.wait) == q;
    assert [] + q.sems == q.sems && SemsAs(q, q.sems) == q;
  }

  lemma WaitEnds(w: World, m: Memory, v: Queues, kept: seq<Entry>, rest: seq<Entry>, trail: Addr)
    ensures OnWait(w, m, v, kept, rest, trail, NULL) ==> rest == [] && Spell(WaitAs(v, kept), m)
    ensures OnSems(w, m, v, kept, rest, trail, NULL) ==> rest == [] && Spell(SemsAs(v, kept), m) && Unique(w, SemsAs(v, kept))
  {
    assert rest == [] ==> kept + rest == kept;
  }

  lemma WaitBlock(w: World, m: Memory, v: Queues, kept: seq<Entry>, rest: seq<Entry>, trail: Addr, point: Addr)
    requires OnWait(w, m, v, kept, rest, trail, point) && point != NULL
    ensures rest != [] && point == AddrOf(rest[0]) && point in m.entry && m.entry[point] == rest[0] && point in m.next
    ensures OnWait(w, m, v, kept + [rest[0]], rest[1..], point, m.next[point])
  {
    hide Lane, Unique;
    BlockAt(m.qwait, TailOf(Addrs(kept + rest)), m, kept, rest);
    hide Spell;
    AddrsAppend(kept, rest[0]);
    assert kept + [rest[0]] + rest[1..] == kept + rest;
  }

  lemma SemBlock(w: World, m: Memory, v: Queues, kept: seq<Entry>, rest: seq<Entry>, trail: Addr, point: Addr)
    requires OnSems(w, m, v, kept, rest, trail, point) && point != NULL
    ensures rest != [] && point == AddrOf(rest[0]) && point in m.entry && m.entry[point] == rest[0] && point in m.next
    ensures OnSems(w, m, v, kept + [rest[0]], rest[1..], point, m.next[point])
  {
    hide Lane, Unique;
    BlockAt(m.qsemfirst, m.qsemlast, m, kept, rest);
    hide Spell;
    AddrsAppend(kept, rest[0]);
    assert kept + [rest[0]] + rest[1..] == kept + rest;
  }

  method TakeWait(w: World, m: Memory, trail: Addr, point: Addr, ghost v: Queues, ghost kept: seq<Entry>, ghost rest: seq<Entry>)
    returns (m': Memory, onward: Addr)
    requires OnWait(w, m, v, kept, rest, trail, point) && point != NULL
    ensures rest != [] && OnWait(w, m', v, kept, rest[1..], trail, onward) && m'.entry == m.entry
  {
    hide Spell, Unique;
    DropUnique(w, v, kept, rest);
    m', onward := DropWait(w, m, trail, point, v, kept, rest);
  }

  method TakeSem(w: World, m: Memory, trail: Addr, point: Addr, ghost v: Queues, ghost kept: seq<Entry>, ghost rest: seq<Entry>)
    returns (m': Memory, onward: Addr)
    requires OnSems(w, m, v, kept, rest, trail, point) && point != NULL
    ensures rest != [] && OnSems(w, m', v, kept, rest[1..], trail, onward) && m'.entry == m.entry
    ensures Total(w, WithId(rest[0].id), SemsAs(v, kept + rest[1..])) == 0
  {
    hide Spell, Unique, Total;
    DropUnique(w, v, kept, rest);
    m', onward := DropSem(w, m, trail, point, v, kept, rest);
  }

  /** Books other than the four lists do not show in memory. */
  lemma BooksOnly(w: World, m: Memory, v: Queues, v': Queues, kept: seq<Entry>, rest: seq<Entry>, trail: Addr, point: Addr)
    requires v'.players == v.players && v'.objects == v.objects && v'.wait == v.wait && v'.sems == v.sems
    ensures OnWait(w, m, v, kept, rest, trail, point) ==> OnWait(w, m, v', kept, rest, trail, point)
    ensures OnSems(w, m, v, kept, rest, trail, point) ==> OnSems(w, m, v', kept, rest, trail, point)
  {
    var s := kept + rest;
    forall i: nat
      ensures Total(w, WithId(i), WaitAs(v', s)) == Total(w, WithId(i), WaitAs(v, s))
      ensures Total(w, WithId(i), SemsAs(v', s)) == Total(w, WithId(i), SemsAs(v, s))
    {
    }
  }

  /** The third loop of halt_que */
  method HaltWaitLoop(w: World, k: Sel, m: Memory, ghost q: Queues) returns (m': Memory, n: nat)
    requires Spell(q, m) && Unique(w, q)
    ensures Spell(HaltWait(w, k, q, [], q.wait), m') && n == Many(w, k, q.wait)
  {
    hide Sat, Spell, Unique, OnWait;
    m', n := m, 0;
    var point, trail := m.qwait, NULL;
    ghost var v, kept, rest: seq<Entry> := q, [], q.wait;
    WaitBegins(w, m, q);
    while point != NULL
      invariant OnWait(w, m', v, kept, rest, trail, point)
      invariant HaltWait(w, k, v, kept, rest) == HaltWait(w, k, q, [], q.wait)
      invariant n + Many(w, k, rest) == Many(w, k, q.wait)
      decreases |rest|
    {
      WaitBlock(w, m', v, kept, rest, trail, point);
      ghost var e := rest[0];
      if Sat(w, k, m'.entry[point]) {
        n := n + 1;
        m', point := TakeWait(w, m', trail, point, v, kept, rest);
        BooksOnly(w, m', v, v.(ended := v.ended + [e.id]), kept, rest[1..], trail, point);
        v := v.(ended := v.ended + [e.id]);
      } else {
        trail, point := point, m'.next[point];
        kept := kept + [e];
      }
      rest := rest[1..];
    }
    WaitEnds(w, m', v, kept, rest, trail);
  }

  lemma RestEmpty(s: seq<Entry>)
    requires At(Addrs(s), 0) == NULL
    ensures s == []
  {
  }

  lemma AddrsAppend(s: seq<Entry>, e: Entry)
    ensures Addrs(s + [e]) == Addrs(s) + [AddrOf(e)] && TailOf(Addrs(s + [e])) == AddrOf(e)
  {
  }

  /** The block a loop stands at, and the link it follows. */
  lemma BlockAt(first: Addr, last: Addr, m: Memory, kept: seq<Entry>, rest: seq<Entry>)
    requires Lane(first, last, m, kept + rest) && rest != []
    ensures var a := AddrOf(rest[0]);
            a in m.entry && m.entry[a] == rest[0] && a in m.next && m.next[a] == At(Addrs(rest[1..]), 0)
  {
    var s := kept + rest;
    assert s[|kept|] == rest[0] && Addrs(s)[|kept|] == AddrOf(rest[0]);
    if |rest| > 1 { assert s[|kept| + 1] == rest[1] == rest[1..][0]; }
  }

  /** The fourth loop of halt_que */
  method HaltSemsLoop(w: World, k: Sel, m: Memory, count: map<Counter, int>, ghost q: Queues)
    returns (m': Memory, count': map<Counter, int>, n: nat)
    requires Spell(q, m) && Unique(w, q) && count == q.count
    ensures Spell(HaltSems(w, k, q, [], q.sems), m') && count' == HaltSems(w, k, q, [], q.sems).count
    ensures n == Many(w, k, q.sems)
  {
    hide Sat, Spell, Unique, OnSems;
    m', count', n := m, count, 0;
    var point, trail := m.qsemfirst, NULL;
    ghost var v, kept, rest: seq<Entry> := q, [], q.sems;
    WaitBegins(w, m, q);
    while point != NULL
      invariant OnSems(w, m', v, kept, rest, trail, point) && v.count == count'
      invariant HaltSems(w, k, v, kept, rest) == HaltSems(w, k, q, [], q.sems)
      invariant n + Many(w, k, rest) == Many(w, k, q.sems)
      decreases |rest|
    {
      SemBlock(w, m', v, kept, rest, trail, point);
      var e := m'.entry[point];
      if Sat(w, k, e) {
        n := n + 1;
        m', point := TakeSem(w, m', trail, point, v, kept, rest);
        LessIsAddTo(v.(ended := v.ended + [e.id]), e);
        count' := Less(count', e);
        ghost var v' := AddTo(v.(ended := v.ended + [e.id]), e.sem, -1, e.attr);
        BooksOnly(w, m', v, v', kept, rest[1..], trail, point);
        v := v';
      } else {
        trail, point := point, m'.next[point];
        kept := kept + [e];
      }
      rest := rest[1..];
    }
    WaitEnds(w, m', v, kept, rest, trail);
  }

  // ------------------------------------------------------------------ changing a whole queue in place

  datatype Which = Players | Objects | Waiting | Semaphores

  function List(q: Queues, n: Which): seq<Entry> {
    match n case Players => q.players case Objects => q.objects case Waiting => q.wait case Semaphores => q.sems
  }

  function WithList(q: Queues, n: Which, s: seq<Entry>): Queues {
    match n
    case Players => q.(players := s)
    case Objects => q.(objects := s)
    case Waiting => q.(wait := s)
    case Semaphores => q.(sems := s)
  }

  function Head(m: Memory, n: Which): Addr {
    match n case Players => m.qfirst case Objects => m.qlfirst case Waiting => m.qwait case Semaphores => m.qsemfirst
  }

  lemma {:induction false} ChangeAllNth(c: Change, s: seq<Entry>, i: nat)
    requires i < |s|
    ensures ChangeAll(c, s)[i].id == s[i].id
  {
    ChangedId(c, s[0]);
    hide Changed;
    if i > 0 { ChangeAllNth(c, s[1..], i - 1); }
  }

  lemma ChangeAllIds(c: Change, s: seq<Entry>)
    ensures Ids(ChangeAll(c, s)) == Ids(s) && Addrs(ChangeAll(c, s)) == Addrs(s)
  {
    hide ChangeAll;
    forall i | 0 <= i < |s| ensures ChangeAll(c, s)[i].id == s[i].id { ChangeAllNth(c, s, i); }
  }

  lemma LaneChanged(first: Addr, last: Addr, m: Memory, c: Change, s: seq<Entry>)
    requires Lane(first, last, m, s) && DistinctIds(s)
    ensures Lane(first, last, m.(entry := Sweeping(c, m.entry, s)), ChangeAll(c, s))
  {
    hide Chain, Stored, DistinctIds;
    ChangeAllIds(c, s);
    SweepingStores(c, m.entry, s);
  }

  lemma LaneUnchanged(first: Addr, last: Addr, m: Memory, c: Change, s: seq<Entry>, t: seq<Entry>)
    requires Lane(first, last, m, t) && (Disjoint(s, t) || Disjoint(t, s))
    ensures Lane(first, last, m.(entry := Sweeping(c, m.entry, s)), t)
  {
    hide Chain;
    forall i | 0 <= i < |t|
      ensures AddrOf(t[i]) in Sweeping(c, m.entry, s) && Sweeping(c, m.entry, s)[AddrOf(t[i])] == t[i]
    {
      SweepingAt(c, m.entry, s, AddrOf(t[i]));
    }
  }

  lemma SpellChanged(w: World, m: Memory, q: Queues, c: Change, n: Which)
    requires Spell(q, m) && Unique(w, q)
    ensures Spell(WithList(q, n, ChangeAll(c, List(q, n))), m.(entry := Sweeping(c, m.entry, List(q, n))))
  {
    UniqueApart(w, q);
    hide Unique, Lane, Disjoint, DistinctIds;
    var s := List(q, n);
    if n.Players? { LaneChanged(m.qfirst, m.qlast, m, c, s); } else { LaneUnchanged(m.qfirst, m.qlast, m, c, s, q.players); }
    if n.Objects? { LaneChanged(m.qlfirst, m.qllast, m, c, s); } else { LaneUnchanged(m.qlfirst, m.qllast, m, c, s, q.objects); }
    var e := TailOf(Addrs(q.wait));
    ChangeAllIds(c, s);
    hide Addrs;
    if n.Waiting? { LaneChanged(m.qwait, e, m, c, s); } else { LaneUnchanged(m.qwait, e, m, c, s, q.wait); }
    if n.Semaphores? { LaneChanged(m.qsemfirst, m.qsemlast, m, c, s); } else { LaneUnchanged(m.qsemfirst, m.qsemlast, m, c, s, q.sems); }
  }

  lemma UniqueChanged(w: World, q: Queues, c: Change, n: Which)
    requires Unique(w, q)
    ensures Unique(w, WithList(q, n, ChangeAll(c, List(q, n))))
  {
    var q' := WithList(q, n, ChangeAll(c, List(q, n)));
    ChangeAllIds(c, List(q, n));
    hide Many;
    forall i: nat ensures Total(w, WithId(i), q') == Total(w, WithId(i), q) {
      SameIds(w, List(q, n), ChangeAll(c, List(q, n)), i);
    }
  }

  method ChangeQueue(w: World, c: Change, k: Sel, n: Which, m: Memory, ghost q: Queues) returns (m': Memory, many: nat)
    requires Spell(q, m) && Unique(w, q)
    ensures var q' := WithList(q, n, ChangeAll(c, List(q, n))); Spell(q', m') && Unique(w, q')
    ensures many == Many(w, k, List(q, n))
  {
    UniqueChanged(w, q, c, n);
    SpellChanged(w, m, q, c, n);
    QueueIsChain(w, m, q, n);
    hide Unique, Spell, Lane, Chain, Stored, DistinctIds, ChangeAll;
    var entry;
    entry, many := ChangeLoop(c, k, w, Head(m, n), m.next, m.entry, List(q, n));
    m' := m.(entry := entry);
  }

  lemma QueueIsChain(w: World, m: Memory, q: Queues, n: Which)
    requires Spell(q, m) && Unique(w, q)
    ensures Chain(Head(m, n), m.next, Addrs(List(q, n))) && Stored(m.entry, List(q, n)) && DistinctIds(List(q, n))
  {
    UniqueApart(w, q);
    hide Unique;
  }

  // ------------------------------------------------------------------ the loops of nfy_que and do_second

  lemma GiveUnique(w: World, q: Queues, e: Entry)
    requires Unique(w, q) && Total(w, WithId(e.id), q) == 0
    ensures Unique(w, Give(w, q, e)) && Off(q, AddrOf(e))
  {
    NoneIsOff(w, q, e.id);
    hide Total, Off;
    forall i: nat ensures Total(w, WithId(i), Give(w, q, e)) <= 1 { GiveKeeps(w, q, e, WithId(i)); }
  }

  /** A block that was just taken off the semaphore queue is given to a run queue. */
  method RunBlock(w: World, m: Memory, a: Addr, ghost v: Queues, ghost kept: seq<Entry>, ghost rest: seq<Entry>, trail: Addr, point: Addr)
    returns (m': Memory)
    requires OnSems(w, m, v, kept, rest, trail, point) && a in m.entry && a == AddrOf(m.entry[a])
    requires Total(w, WithId(m.entry[a].id), SemsAs(v, kept + rest)) == 0
    ensures OnSems(w, m', Give(w, v, m.entry[a]), kept, rest, trail, point)
  {
    ghost var q, e := SemsAs(v, kept + rest), m.entry[a];
    GiveUnique(w, q, e);
    hide Spell, Unique, Off, Total;
    m' := GiveLinks(w, m, a, q);
    assert Give(w, q, e) == SemsAs(Give(w, v, e), kept + rest);
  }

  /** The loop of nfy_que */
  method NfyLoop(w: World, k: Sel, key: Key, times: int, m: Memory, queued: map<int, int>, ghost q: Queues)
    returns (m': Memory, queued': map<int, int>)
    requires Spell(q, m) && Unique(w, q) && queued == q.queued
    ensures Spell(NfyWalk(w, q, k, key, times, 0, [], q.sems), m')
    ensures queued' == NfyWalk(w, q, k, key, times, 0, [], q.sems).queued
  {
    hide Sat, Spell, Unique, OnSems, Total;
    m', queued' := m, queued;
    var point, trail, num, stop := m.qsemfirst, NULL, 0, false;
    ghost var v, kept, rest: seq<Entry> := q, [], q.sems;
    ghost var goal := NfyWalk(w, q, k, key, times, 0, [], q.sems);
    WaitBegins(w, m, q);
    while point != NULL && !stop
      invariant OnSems(w, m', v, kept, rest, trail, point) && v.queued == queued'
      invariant goal == if stop then v.(sems := kept + rest) else NfyWalk(w, v, k, key, times, num, kept, rest)
      decreases !stop, |rest|
    {
      SemBlock(w, m', v, kept, rest, trail, point);
      var here, e := point, m'.entry[point];
      if Sat(w, k, e) {
        num := num + 1;
        m', point := TakeSem(w, m', trail, point, v, kept, rest);
        if !key.Drain? {
          m' := RunBlock(w, m', here, v, kept, rest[1..], trail, point);
          v := Give(w, v, e);
          GiveBooks(w, q, e);
        } else {
          ghost var v' := AddQueued(v.(ended := v.ended + [e.id]), w.owner(e.player), -1);
          BooksOnly(w, m', v, v', kept, rest[1..], trail, point);
          queued' := queued'[w.owner(e.player) := (if w.owner(e.player) in queued' then queued'[w.owner(e.player)] else 0) - 1];
          v := v';
        }
      } else {
        trail, point := point, m'.next[point];
        kept := kept + [e];
      }
      rest := rest[1..];
      if key.Notify? && num >= times { stop := true; }
    }
    if stop { StopEarly(w, m', v, kept, rest, trail, point); } else { WaitEnds(w, m', v, kept, rest, trail); }
  }

  lemma StopEarly(w: World, m: Memory, v: Queues, kept: seq<Entry>, rest: seq<Entry>, trail: Addr, point: Addr)
    requires OnSems(w, m, v, kept, rest, trail, point)
    ensures Spell(v.(sems := kept + rest), m)
  {
  }

  lemma GiveBooks(w: World, q: Queues, e: Entry)
    ensures Give(w, q, e).queued == q.queued && Give(w, q, e).count == q.count
  {
  }

  /** The loop of do_second over the semaphore queue */
  method ExpireLoop(w: World, now: int, m: Memory, count: map<Counter, int>, ghost q: Queues)
    returns (m': Memory, count': map<Counter, int>)
    requires Spell(q, m) && Unique(w, q) && count == q.count
    ensures Spell(Expire(w, q, now, [], q.sems), m') && count' == Expire(w, q, now, [], q.sems).count
  {
    hide Sat, Spell, Unique, OnSems, Total;
    m', count' := m, count;
    var point, trail := m.qsemfirst, NULL;
    ghost var v, kept, rest: seq<Entry> := q, [], q.sems;
    WaitBegins(w, m, q);
    while point != NULL
      invariant OnSems(w, m', v, kept, rest, trail, point) && v.count == count'
      invariant Expire(w, v, now, kept, rest) == Expire(w, q, now, [], q.sems)
      decreases |rest|
    {
      SemBlock(w, m', v, kept, rest, trail, point);
      var here, e := point, m'.entry[point];
      if Sat(w, Due(now), e) {
        m', point := TakeSem(w, m', trail, point, v, kept, rest);
        LessIsAddTo(v, e);
        count' := Less(count', e);
        ghost var v1 := AddTo(v, e.sem, -1, e.attr);
        BooksOnly(w, m', v, v1, kept, rest[1..], trail, point);
        SameTotal(w, v, v1, kept + rest[1..], e.id);
        m' := Relabel(w, m', here, v1, kept, rest[1..], trail, point);
        m' := RunBlock(w, m', here, v1, kept, rest[1..], trail, point);
        v := Give(w, v1, e.(sem := NOTHING));
        GiveBooks(w, v1, e.(sem := NOTHING));
      } else {
        trail, point := point, m'.next[point];
        kept := kept + [e];
      }
      rest := rest[1..];
    }
    WaitEnds(w, m', v, kept, rest, trail);
  }

  lemma SameTotal(w: World, v: Queues, v': Queues, s: seq<Entry>, i: nat)
    requires v'.players == v.players && v'.objects == v.objects && v'.wait == v.wait
    ensures Total(w, WithId(i), SemsAs(v', s)) == Total(w, WithId(i), SemsAs(v, s))
  {
  }

  /** `point->sem = NOTHING` on a block that is on no queue */
  method Relabel(w: World, m: Memory, a: Addr, ghost v: Queues, ghost kept: seq<Entry>, ghost rest: seq<Entry>, trail: Addr, point: Addr)
    returns (m': Memory)
    requires OnSems(w, m, v, kept, rest, trail, point) && a in m.entry && a == AddrOf(m.entry[a])
    requires Total(w, WithId(m.entry[a].id), SemsAs(v, kept + rest)) == 0
    ensures OnSems(w, m', v, kept, rest, trail, point) && m'.entry == m.entry[a := m.entry[a].(sem := NOTHING)]
  {
    hide Lane, Unique, Total, Touched, NotOn;
    m' := m.(entry := m.entry[a := m.entry[a].(sem := NOTHING)]);
    ghost var q := SemsAs(v, kept + rest);
    NoneIsOff(w, q, m.entry[a].id);
    JustTouched(m, m', a, a, m.next, m.entry[a].(sem := NOTHING));
    LaneFrame(m.qfirst, m.qlast, m, m', q.players, a, a);
    LaneFrame(m.qlfirst, m.qllast, m, m', q.objects, a, a);
    LaneFrame(m.qwait, TailOf(Addrs(q.wait)), m, m', q.wait, a, a);
    LaneFrame(m.qsemfirst, m.qsemlast, m, m', q.sems, a, a);
  }

  // ------------------------------------------------------------------ the wait queue

  /** The loop of wait_que that finds the place, and the two links it sets */
  method InsertLoop(w: World, m: Memory, a: Addr, e: Entry, ghost q: Queues) returns (m': Memory)
    requires Spell(q, m) && Unique(w, q) && a == AddrOf(e) && Off(q, a)
    ensures Spell(q.(wait := Insert(q.wait, e)), m')
  {
    hide Spell, Unique, OnWait, Off;
    var point, trail := m.qwait, NULL;
    ghost var kept, rest: seq<Entry> := [], q.wait;
    WaitBegins(w, m, q);
    assert [] + Insert(q.wait, e) == Insert(q.wait, e);
    if point != NULL { WaitBlock(w, m, q, kept, rest, trail, point); }
    while point != NULL && m.entry[point].waittime <= e.waittime
      invariant OnWait(w, m, q, kept, rest, trail, point) && kept + rest == q.wait
      invariant point != NULL ==> point in m.entry
      invariant kept + Insert(rest, e) == Insert(q.wait, e)
      decreases |rest|
    {
      WaitBlock(w, m, q, kept, rest, trail, point);
      assert kept + ([rest[0]] + Insert(rest[1..], e)) == kept + [rest[0]] + Insert(rest[1..], e);
      assert kept + [rest[0]] + rest[1..] == kept + rest;
      trail, point := point, m.next[point];
      kept, rest := kept + [rest[0]], rest[1..];
      if point != NULL { WaitBlock(w, m, q, kept, rest, trail, point); }
    }
    if point != NULL { WaitBlock(w, m, q, kept, rest, trail, point); } else { WaitEnds(w, m, q, kept, rest, trail); }
    assert Insert(rest, e) == [e] + rest;
    assert kept + ([e] + rest) == kept + [e] + rest;
    m' := Splice(w, m, a, e, trail, point, q, kept, rest);
  }

  /** A block is linked in between `trail` and `point`. */
  method Splice(w: World, m: Memory, a: Addr, e: Entry, trail: Addr, point: Addr, ghost q: Queues, ghost kept: seq<Entry>, ghost rest: seq<Entry>)
    returns (m': Memory)
    requires OnWait(w, m, q, kept, rest, trail, point) && kept + rest == q.wait && a == AddrOf(e) && Off(q, a)
    ensures Spell(q.(wait := kept + [e] + rest), m')
  {
    hide Unique, Disjoint, DistinctIds, OnWait, NotOn, Touched, Chain, Stored, Spell;
    OnWaitFacts(w, m, q, kept, rest, trail, point);
    UniqueApart(w, q);
    DisjointBoth(q.wait, q.sems);
    TrailNotOn(q.players, kept, rest);
    TrailNotOn(q.objects, kept, rest);
    TrailNotOn(q.sems, kept, rest);
    NotOnAddrs(q.wait, a);
    AddrsConcat(kept, rest);
    SpliceChain(m.qwait, m.next, Addrs(kept), Addrs(rest), a, trail, point);
    StoredSplice(m.entry, kept, rest, e);
    var next, first := m.next[a := point], m.qwait;
    if trail != NULL { next := next[trail := a]; } else { first := a; }
    m' := m.(qwait := first, next := next, entry := m.entry[a := e]);
    SplicedSpell(q, m, m', a, e, trail, kept, rest);
  }

  lemma SplicedSpell(q: Queues, m: Memory, m': Memory, a: Addr, e: Entry, trail: Addr, kept: seq<Entry>, rest: seq<Entry>)
    requires Spell(q, m) && a == AddrOf(e) && Off(q, a)
    requires NotOn(q.players, trail) && NotOn(q.objects, trail) && NotOn(q.sems, trail)
    requires m' == m.(qwait := m'.qwait, next := m'.next, entry := m.entry[a := e])
    requires forall x :: x in m.next && x != a && x != trail ==> x in m'.next && m'.next[x] == m.next[x]
    requires Chain(m'.qwait, m'.next, Addrs(kept) + [a] + Addrs(rest)) && Stored(m'.entry, kept + [e] + rest)
    ensures Spell(q.(wait := kept + [e] + rest), m')
  {
    hide Lane, Touched, Chain, Stored, NotOn;
    JustTouched(m, m', a, trail, m'.next, e);
    SplicedLane(m', a, e, kept, rest);
    LaneFrame(m.qfirst, m.qlast, m, m', q.players, a, trail);
    LaneFrame(m.qlfirst, m.qllast, m, m', q.objects, a, trail);
    LaneFrame(m.qsemfirst, m.qsemlast, m, m', q.sems, a, trail);
  }

  lemma SplicedLane(m: Memory, a: Addr, e: Entry, kept: seq<Entry>, rest: seq<Entry>)
    requires a == AddrOf(e) && Chain(m.qwait, m.next, Addrs(kept) + [a] + Addrs(rest)) && Stored(m.entry, kept + [e] + rest)
    ensures Lane(m.qwait, TailOf(Addrs(kept + [e] + rest)), m, kept + [e] + rest)
  {
    hide Chain, Stored;
    assert Addrs(kept + [e] + rest) == Addrs(kept) + [a] + Addrs(rest);
  }

  lemma OnWaitFacts(w: World, m: Memory, q: Queues, kept: seq<Entry>, rest: seq<Entry>, trail: Addr, point: Addr)
    requires OnWait(w, m, q, kept, rest, trail, point) && kept + rest == q.wait
    ensures Spell(q, m) && Unique(w, q) && Stored(m.entry, kept + rest)
    ensures Chain(m.qwait, m.next, Addrs(kept) + Addrs(rest)) && point == At(Addrs(rest), 0) && trail == TailOf(Addrs(kept))
    ensures trail == NULL <==> kept == []
  {
    assert WaitAs(q, kept + rest) == q;
    hide Unique;
    AddrsConcat(kept, rest);
  }

  lemma SpliceChain(first: Addr, next: map<Addr, Addr>, kept: seq<Addr>, rest: seq<Addr>, a: Addr, trail: Addr, point: Addr)
    requires Chain(first, next, kept + rest) && a != NULL && a !in kept + rest
    requires point == At(rest, 0) && trail == TailOf(kept)
    ensures Chain(if kept == [] then a else first, if kept == [] then next[a := point] else next[a := point][trail := a],
                  kept + [a] + rest)
  {
    var r := kept + [a] + rest;
    var next' := if kept == [] then next[a := point] else next[a := point][trail := a];
    ChainDistinct(first, next, kept + rest);
    assert kept != [] ==> first == (kept + rest)[0] == r[0];
    forall i | 0 <= i < |r| ensures r[i] != NULL && r[i] in next' && next'[r[i]] == At(r, i + 1) {
      SpliceLink(first, next, next', kept, rest, a, trail, point, i);
    }
  }

  lemma SpliceLink(first: Addr, next: map<Addr, Addr>, next': map<Addr, Addr>, kept: seq<Addr>, rest: seq<Addr>, a: Addr,
                   trail: Addr, point: Addr, i: nat)
    requires Chain(first, next, kept + rest) && Distinct(kept + rest) && a != NULL && a !in kept + rest
    requires point == At(rest, 0) && trail == TailOf(kept) && i <= |kept| + |rest|
    requires next' == if kept == [] then next[a := point] else next[a := point][trail := a]
    ensures var r := kept + [a] + rest; r[i] != NULL && r[i] in next' && next'[r[i]] == At(r, i + 1)
  {
    var s, r, n := kept + rest, kept + [a] + rest, |kept|;
    SpliceNth(kept, rest, a, i);
    if i + 1 < |r| { SpliceNth(kept, rest, a, i + 1); }
    if i == n {
      assert n < |s| ==> s[n] == rest[0];
      assert n > 0 ==> s[n - 1] in s;
    } else {
      var j := if i < n then i else i - 1;
      assert s[j] in s && next[s[j]] == At(s, j + 1);
      assert j == n - 1 || n == 0 || s[j] != s[n - 1];
    }
  }

  lemma SpliceNth(kept: seq<Addr>, rest: seq<Addr>, a: Addr, i: nat)
    requires i <= |kept| + |rest|
    ensures var s, r, n := kept + rest, kept + [a] + rest, |kept|;
            r[i] == (if i < n then s[i] else if i == n then a else s[i - 1]) && (n > 0 ==> s[n - 1] == TailOf(kept))
  {
  }

  lemma StoredSplice(entry: map<Addr, Entry>, kept: seq<Entry>, rest: seq<Entry>, e: Entry)
    requires Stored(entry, kept + rest) && NotOn(kept + rest, AddrOf(e))
    ensures Stored(entry[AddrOf(e) := e], kept + [e] + rest)
  {
    var s, r, n := kept + rest, kept + [e] + rest, |kept|;
    forall i | 0 <= i < |r|
      ensures AddrOf(r[i]) in entry[AddrOf(e) := e] && entry[AddrOf(e) := e][AddrOf(r[i])] == r[i]
    {
      if i != n { assert r[i] == s[if i < n then i else i - 1]; }
    }
  }

  /** wait_que appends a new block to the semaphore queue. */
  method AppendSem(w: World, m: Memory, a: Addr, e: Entry, ghost q: Queues) returns (m': Memory)
    requires Spell(q, m) && Unique(w, q) && a == AddrOf(e) && Off(q, a)
    ensures Spell(q.(sems := q.sems + [e]), m')
  {
    UniqueApart(w, q);
    hide Unique, Chain, Stored, Touched, DistinctIds;
    NotOnAddrs(q.sems, a);
    TailNotOn(q.players, q.sems);
    TailNotOn(q.objects, q.sems);
    TailNotOn(q.wait, q.sems);
    hide Disjoint;
    var first, next := Thread(m.qsemfirst, m.qsemlast, m.next, a, Addrs(q.sems));
    m' := m.(qsemfirst := first, qsemlast := a, next := next, entry := m.entry[a := e]);
    JustTouched(m, m', a, m.qsemlast, next, e);
    LaneAppend(first, m, m', q.sems, e, m.qsemlast);
    LaneFrame(m.qfirst, m.qlast, m, m', q.players, a, m.qsemlast);
    LaneFrame(m.qlfirst, m.qllast, m, m', q.objects, a, m.qsemlast);
    LaneFrame(m.qwait, TailOf(Addrs(q.wait)), m, m', q.wait, a, m.qsemlast);
  }

  // ------------------------------------------------------------------ do_second

  lemma ChainJoin(first: Addr, second: Addr, next: map<Addr, Addr>, s: seq<Addr>, t: seq<Addr>)
    requires Chain(first, next, s) && Chain(second, next, t) && (forall x :: x in s ==> x !in t)
    ensures Chain(if s == [] then second else first, if s == [] then next else next[TailOf(s) := second], s + t)
  {
    var r, next' := s + t, if s == [] then next else next[TailOf(s) := second];
    ChainDistinct(first, next, s);
    forall i | 0 <= i < |r| ensures r[i] != NULL && r[i] in next' && next'[r[i]] == At(r, i + 1) {
      if i < |s| {
        assert r[i] == s[i] && (i < |s| - 1 ==> s[i] != s[|s| - 1]);
      } else {
        var j := i - |s|;
        assert r[i] == t[j] && t[j] in t && next[t[j]] == At(t, j + 1);
      }
    }
  }

  /** The object queue is hung behind the player queue. */
  method MergeLinks(w: World, m: Memory, ghost q: Queues) returns (m': Memory)
    requires Spell(q, m) && Unique(w, q)
    ensures Spell(Merge(q), m')
  {
    m' := m;
    if m.qlfirst != NULL {
      UniqueApart(w, q);
      hide Unique, DistinctIds, Chain, Stored, Touched;
      if m.qlast != NULL {
        m' := m'.(next := m.next[m.qlast := m.qlfirst]);
      } else {
        m' := m'.(qfirst := m.qlfirst);
      }
      m' := m'.(qlast := m.qllast, qllast := NULL, qlfirst := NULL);
      MergeLane(m, m', q);
      TailNotOn(q.players, q.wait);
      TailNotOn(q.players, q.sems);
      hide Disjoint, NotOn;
      JustRelinked(m, m', m.qlast);
      LaneFrame(m.qwait, TailOf(Addrs(q.wait)), m, m', q.wait, m.qlast, m.qlast);
      LaneFrame(m.qsemfirst, m.qsemlast, m, m', q.sems, m.qlast, m.qlast);
      EmptyLane(m');
    } else {
      assert q.objects == [] by { hide Unique; }
      assert q.players + [] == q.players;
    }
  }

  lemma EmptyLane(m: Memory)
    ensures Lane(NULL, NULL, m, [])
  {
  }

  lemma JustRelinked(m: Memory, m': Memory, b: Addr)
    requires m'.entry == m.entry && forall x :: x in m.next && x != b ==> x in m'.next && m'.next[x] == m.next[x]
    ensures Touched(m, m', b, b)
  {
  }

  lemma MergeLane(m: Memory, m': Memory, q: Queues)
    requires Lane(m.qfirst, m.qlast, m, q.players) && Lane(m.qlfirst, m.qllast, m, q.objects) && m.qlfirst != NULL
    requires Disjoint(q.players, q.objects) && m'.entry == m.entry
    requires m'.next == if m.qlast == NULL then m.next else m.next[m.qlast := m.qlfirst]
    requires m'.qfirst == (if m.qlast == NULL then m.qlfirst else m.qfirst) && m'.qlast == m.qllast
    ensures Lane(m'.qfirst, m'.qlast, m', q.players + q.objects)
  {
    var s, t := Addrs(q.players), Addrs(q.objects);
    AddrsConcat(q.players, q.objects);
    assert m.qlast == NULL <==> s == [];
    forall x | x in s ensures x !in t {
      NotOnAddrs(q.objects, x);
      var i :| 0 <= i < |s| && s[i] == x;
    }
    ChainJoin(m.qfirst, m.qlfirst, m.next, s, t);
    assert q.objects != [];
    hide Chain;
    StoredConcat(m.entry, q.players, q.objects);
  }

  lemma StoredConcat(entry: map<Addr, Entry>, s: seq<Entry>, t: seq<Entry>)
    requires Stored(entry, s) && Stored(entry, t)
    ensures Stored(entry, s + t)
  {
  }

  /** The block that was given last has no successor. */
  lemma GivenIsLast(w: World, q: Queues, e: Entry, m: Memory)
    requires Spell(Give(w, q, e), m)
    ensures AddrOf(e) in m.next && m.next[AddrOf(e)] == NULL
  {
    var e' := e.(waittime := 0);
    var s := if w.isPlayer(e.cause) then q.players + [e'] else q.objects + [e'];
    var c := Addrs(s);
    assert c[|s| - 1] == AddrOf(e);
    assert Chain(if w.isPlayer(e.cause) then m.qfirst else m.qlfirst, m.next, c);
    assert m.next[c[|s| - 1]] == At(c, |s|);
  }

  /** The loop of do_second over the wait queue.  It follows the link of a block that give_que has just cleared, so
      it stops after the first due block. */
  method WakeLoop(w: World, now: int, m: Memory, ghost q: Queues) returns (m': Memory)
    requires Spell(q, m) && Unique(w, q)
    ensures Spell(WakeFirst(w, q, now), m')
  {
    hide Spell, Unique, OnWait, Total, Off;
    m' := m;
    var point := m.qwait;
    ghost var woken := false;
    WaitBegins(w, m, q);
    if point != NULL { WaitBlock(w, m, q, [], q.wait, NULL, point); }
    WaitEnds(w, m, q, [], q.wait, NULL);
    while point != NULL && m'.entry[point].waittime <= now
      invariant !woken ==> m' == m && point == m.qwait && (point != NULL ==> point in m.entry)
      invariant woken ==> point == NULL && q.wait != [] && q.wait[0].waittime <= now
                          && Spell(Give(w, q.(wait := q.wait[1..]), q.wait[0]), m')
      decreases !woken
    {
      var onward;
      m', onward := TakeWait(w, m', NULL, point, q, [], q.wait);
      UnhookWait(w, m', q, onward);
      m' := GiveLinks(w, m', point, q.(wait := q.wait[1..]));
      GivenIsLast(w, q.(wait := q.wait[1..]), q.wait[0], m');
      point := m'.next[point];
      woken := true;
    }
  }

  lemma UnhookWait(w: World, m: Memory, q: Queues, onward: Addr)
    requires Unique(w, q) && q.wait != [] && OnWait(w, m, q, [], q.wait[1..], NULL, onward)
    ensures var q1 := q.(wait := q.wait[1..]); Spell(q1, m) && Unique(w, q1) && Off(q1, AddrOf(q.wait[0]))
  {
    hide Spell, Unique, Total;
    var q1 := q.(wait := q.wait[1..]);
    assert [] + q.wait == q.wait && [] + q.wait[1..] == q.wait[1..];
    assert WaitAs(q, q.wait) == q && WaitAs(q, q.wait[1..]) == q1;
    DropUnique(w, q, [], q.wait);
    NoneIsOff(w, q1, q.wait[0].id);
  }

  // ------------------------------------------------------------------ do_top

  /** The player field of the block at the head is cleared. */
  method ClearHead(w: World, m: Memory, ghost q: Queues) returns (m': Memory)
    requires Spell(q, m) && Unique(w, q) && q.players != []
    ensures Spell(q.(players := [q.players[0].(player := NOTHING)] + q.players[1..]), m')
  {
    UniqueApart(w, q);
    hide Unique;
    var a := m.qfirst;
    ghost var e := q.players[0];
    assert a == AddrOf(e) && a in m.entry && m.entry[a] == e;
    m' := m.(entry := m.entry[a := m.entry[a].(player := NOTHING)]);
    ClearLane(m, m', q.players);
    assert Touched(m, m', a, a);
    assert NotOn(q.objects, a) && NotOn(q.wait, a) && NotOn(q.sems, a);
    hide Lane, Touched, NotOn, Disjoint, DistinctIds;
    LaneFrame(m.qlfirst, m.qllast, m, m', q.objects, a, a);
    LaneFrame(m.qwait, TailOf(Addrs(q.wait)), m, m', q.wait, a, a);
    LaneFrame(m.qsemfirst, m.qsemlast, m, m', q.sems, a, a);
  }

  lemma ClearLane(m: Memory, m': Memory, s: seq<Entry>)
    requires Lane(m.qfirst, m.qlast, m, s) && s != [] && DistinctIds(s)
    requires m' == m.(entry := m.entry[AddrOf(s[0]) := s[0].(player := NOTHING)])
    ensures Lane(m.qfirst, m.qlast, m', [s[0].(player := NOTHING)] + s[1..])
  {
    hide Chain, Stored, DistinctIds;
    var e := s[0].(player := NOTHING);
    StoredRest(m.entry, s, e);
    StoredCons(m'.entry, e, s[1..]);
    assert Addrs([e] + s[1..]) == Addrs(s);
  }

  /** `qfirst = qfirst->next; if (!qfirst) qlast = NULL` */
  method PopHead(m: Memory, ghost q: Queues) returns (m': Memory)
    requires Spell(q, m) && q.players != []
    ensures Spell(PopTop(q), m')
  {
    ChainStep(m.qfirst, m.next, q.players);
    m' := m.(qfirst := m.next[m.qfirst]);
    if m'.qfirst == NULL { m' := m'.(qlast := NULL); }
    ghost var rest := q.players[1..];
    assert Stored(m.entry, rest);
    assert rest != [] ==> Addrs(rest)[|rest| - 1] == Addrs(q.players)[|q.players| - 1];
    hide Chain, Stored;
    ChainHead(m.next[m.qfirst], m.next, Addrs(rest));
  }

  lemma ChainHead(first: Addr, next: map<Addr, Addr>, s: seq<Addr>)
    requires Chain(first, next, s)
    ensures first == At(s, 0) && (first == NULL <==> s == [])
  {
  }

  // ------------------------------------------------------------------ the queues of the server

  lemma OnceUnique(w: World, q: Queues)
    requires Inv(w, q)
    ensures Unique(w, q) && Off(q, q.admitted + 1)
  {
    hide Total;
    forall i: nat ensures Total(w, WithId(i), q) <= if i < q.admitted then 1 else 0 {
      assert Census(w, q, i) == if i < q.admitted then 1 else 0;
    }
    NoneIsOff(w, q, q.admitted);
  }

  lemma HaltWaitUnique(w: World, k: Sel, q: Queues)
    requires Unique(w, q)
    ensures Unique(w, HaltWait(w, k, q, [], q.wait)) && HaltWait(w, k, q, [], q.wait).sems == q.sems
    ensures HaltWait(w, k, q, [], q.wait).count == q.count
  {
    HaltWaitForm(w, k, q, [], q.wait);
    var q' := HaltWait(w, k, q, [], q.wait);
    assert q'.wait == Keep(w, k, q.wait);
    hide HaltWait, Many, Keep, Hit;
    forall i: nat ensures Total(w, WithId(i), q') <= 1 {
      HitKeepMany(w, k, q.wait, WithId(i));
      assert Total(w, WithId(i), q) <= 1;
    }
  }

  /** The four loops of halt_que */
  method SweepLoops(w: World, k: Sel, m: Memory, count: map<Counter, int>, ghost q: Queues)
    returns (m': Memory, count': map<Counter, int>, numhalted: nat)
    requires Spell(q, m) && Unique(w, q) && count == q.count
    ensures Spell(Sweep(w, k, q), m') && count' == Sweep(w, k, q).count && numhalted == Total(w, k, q)
  {
    hide Spell, Unique, Many, Silence, ChangeAll, HaltWait, HaltSems, Sat;
    ghost var q1 := q.(players := Silence(w, k, q.players));
    ghost var q2 := q1.(objects := Silence(w, k, q.objects));
    ghost var q3 := HaltWait(w, k, q2, [], q2.wait);
    var n1, n2, n3, n4;
    HushIsSilence(w, k, q.players);
    HushIsSilence(w, k, q.objects);
    m', n1 := ChangeQueue(w, Hush(w, k), k, Players, m, q);
    m', n2 := ChangeQueue(w, Hush(w, k), k, Objects, m', q1);
    HaltWaitUnique(w, k, q2);
    m', n3 := HaltWaitLoop(w, k, m', q2);
    m', count', n4 := HaltSemsLoop(w, k, m', count, q3);
    numhalted := n1 + n2 + n3 + n4;
  }

  lemma SweepBooks(w: World, k: Sel, q: Queues)
    ensures Sweep(w, k, q).queued == q.queued && Sweep(w, k, q).admitted == q.admitted
  {
    SweepForm(w, k, q);
  }

  lemma HushIsSilence(w: World, k: Sel, s: seq<Entry>)
    ensures ChangeAll(Hush(w, k), s) == Silence(w, k, s)
  {
    ChangesAre(s);
  }

  class CommandQueues {
    const w: World
    var m: Memory
    var count: map<Counter, int>
    var queued: map<int, int>
    var admitted: nat
    ghost var view: Queues

    ghost predicate Linked()
      reads this
    {
      Spell(view, m) && view.count == count && view.queued == queued && view.admitted == admitted
    }

    constructor (w: World)
      ensures Linked() && view == Start() && this.w == w
    {
      this.w := w;
      m := Memory(NULL, NULL, NULL, NULL, NULL, NULL, NULL, map[], map[]);
      count, queued, admitted := map[], map[], 0;
      view := Start();
    }

    /** halt_que */
    method HaltQue(ptarg: int, otarg: int) returns (numhalted: nat)
      requires Linked() && Unique(w, view)
      modifies this
      ensures Linked() && view == CommandQueue.HaltQue(w, old(view), ptarg, otarg)
      ensures numhalted == Total(w, Wanted(ptarg, otarg), old(view))
    {
      hide Spell, Unique, Sweep;
      var k := Wanted(ptarg, otarg);
      ghost var q := view;
      SweepBooks(w, k, q);
      m, count, numhalted := SweepLoops(w, k, m, count, q);
      var o := if ptarg == NOTHING then w.owner(otarg) else ptarg;
      queued := if otarg == NOTHING then queued[o := 0] else queued[o := (if o in queued then queued[o] else 0) - numhalted];
      BooksSpell(Sweep(w, k, q), CommandQueue.HaltQue(w, q, ptarg, otarg), m);
      view := CommandQueue.HaltQue(w, q, ptarg, otarg);
    }

    /** setup_que without the text: may the command be queued? */
    method SetupQue(who: nat, allowed: bool) returns (ok: bool)
      requires Linked() && Unique(w, view)
      modifies this
      ensures Linked() && (ok, view) == Setup(w, old(view), who, allowed)
    {
      hide Spell, Unique, CommandQueue.HaltQue;
      if !allowed { return false; }
      var o := w.owner(who);
      var n := (if o in queued then queued[o] else 0) + 1;
      queued := queued[o := n];
      BooksSpell(view, AddQueued(view, o, 1), m);
      BooksUnique(w, view, AddQueued(view, o, 1));
      view := AddQueued(view, o, 1);
      if n > w.queueMax(o) {
        var _ := HaltQue(o, NOTHING);
        return false;
      }
      return true;
    }

    /** wait_que */
    method WaitQue(who: nat, cause: int, secs: int, sem: int, attr: int, at: int, allowed: bool)
      requires Linked() && Unique(w, view) && Off(view, admitted + 1)
      modifies this
      ensures Linked() && view == CommandQueue.WaitQue(w, old(view), who, cause, secs, sem, attr, at, allowed)
    {
      hide Spell, Unique, Off, Setup;
      ghost var q := view;
      var ok := SetupQue(who, allowed);
      if !ok { return; }
      assert view == AddQueued(q, w.owner(who), 1) by { ChargeOne(w, q, who, allowed); }
      var e := Entry(admitted, who, cause, sem, attr, if secs != 0 then at + secs else 0);
      var a := admitted + 1;
      ghost var q2 := view.(admitted := view.admitted + 1);
      BooksSpell(view, q2, m);
      BooksUnique(w, q, q2);
      admitted := admitted + 1;
      if sem == NOTHING {
        if secs <= 0 {
          m := Allot(m, a, e, q2);
          m := GiveLinks(w, m, a, q2);
          view := Give(w, q2, e);
          GiveBooks(w, q2, e);
          assert view.admitted == q2.admitted;
        } else {
          m := InsertLoop(w, m, a, e, q2);
          view := q2.(wait := Insert(q2.wait, e));
        }
      } else {
        m := AppendSem(w, m, a, e, q2);
        view := q2.(sems := q2.sems + [e]);
      }
    }

    /** do_wait on a semaphore */
    method DoWait(who: nat, cause: int, thing: int, attr: int, secs: int, at: int, allowed: bool)
      requires Linked() && Unique(w, view) && Off(view, admitted + 1)
      modifies this
      ensures Linked() && view == DoSemWait(w, old(view), who, cause, thing, attr, secs, at, allowed)
    {
      hide Spell, Unique, Off, CommandQueue.WaitQue;
      if thing < 0 || attr <= 0 { return; }
      var num := (if (thing, attr) in count then count[(thing, attr)] else 0) + 1;
      count := count[(thing, attr) := num];
      ghost var q1 := AddTo(view, thing, 1, attr);
      BooksSpell(view, q1, m);
      BooksUnique(w, view, q1);
      view := q1;
      if num <= 0 {
        WaitQue(who, cause, 0, NOTHING, attr, at, allowed);
      } else {
        WaitQue(who, cause, secs, thing, attr, at, allowed);
      }
    }

    /** nfy_que */
    method NfyQue(sem: int, attr: int, key: Key, times: int)
      requires Linked() && Unique(w, view)
      modifies this
      ensures Linked() && view == CommandQueue.NfyQue(w, old(view), sem, attr, key, times)
    {
      hide Spell, Unique, NfyWalk;
      ghost var q := view;
      var num := if attr != 0 then (if (sem, attr) in count then count[(sem, attr)] else 0) else 1;
      if num > 0 {
        WalkBooks(w, q, On(sem, attr), key, times);
        m, queued := NfyLoop(w, On(sem, attr), key, times, m, queued, q);
        view := NfyWalk(w, q, On(sem, attr), key, times, 0, [], q.sems);
      }
      ghost var q' := CommandQueue.NfyQue(w, q, sem, attr, key, times);
      BooksSpell(view, q', m);
      count := if key.Notify? then count[(sem, attr) := (if (sem, attr) in count then count[(sem, attr)] else 0) - times]
               else count[(sem, attr) := 0];
      view := q';
    }

    /** do_second */
    method DoSecond(now: int)
      requires Linked() && Unique(w, view)
      modifies this
      ensures Linked() && view == CommandQueue.DoSecond(w, old(view), now)
    {
      hide Spell, Unique, Expire, Merge, WakeFirst;
      ghost var q := view;
      SecondUnique(w, q, now);
      m := MergeLinks(w, m, q);
      m := WakeLoop(w, now, m, Merge(q));
      m, count := ExpireLoop(w, now, m, count, WakeFirst(w, Merge(q), now));
      SecondAgain(w, q, now);
      view := CommandQueue.DoSecond(w, q, now);
    }

    /** QUEUE_WARP of do_queue */
    method DoWarp(i: int, now: int)
      requires Linked() && Unique(w, view)
      modifies this
      ensures Linked() && view == CommandQueue.DoWarp(w, old(view), i, now)
    {
      hide Spell, Unique, ChangeAll, Rewind, Hasten, CommandQueue.DoSecond;
      ghost var q := view;
      ghost var q1 := q.(wait := Rewind(q.wait, i));
      ClockIsRewind(q.wait, i);
      SemClockIsHasten(q.sems, i);
      var m1, _ := ChangeQueue(w, Clock(i), Due(0), Waiting, m, q);
      var m2, _ := ChangeQueue(w, SemClock(i), Due(0), Semaphores, m1, q1);
      m := m2;
      view := q1.(sems := Hasten(q.sems, i));
      DoSecond(now);
    }

    /** What a command does to the queues while it is run */
    method Act(a: Act)
      requires Linked() && Inv(w, view)
      modifies this
      ensures Linked() && view == Apply(w, old(view), a)
    {
      OnceUnique(w, view);
      hide Spell, Unique, Off, Inv, CommandQueue.WaitQue, DoSemWait, CommandQueue.NfyQue, CommandQueue.HaltQue;
      hide CommandQueue.DoSecond, CommandQueue.DoWarp;
      match a {
        case Wait(who, cause, secs, at, allowed) => WaitQue(who, cause, secs, NOTHING, 0, at, allowed);
        case SemWait(who, cause, thing, attr, secs, at, allowed) => DoWait(who, cause, thing, attr, secs, at, allowed);
        case Nfy(sem, attr, key, times) => NfyQue(sem, attr, key, times);
        case Halt(ptarg, otarg) => var _ := HaltQue(ptarg, otarg);
        case Second(now) => DoSecond(now);
        case Warp(i, now) => DoWarp(i, now);
      }
    }

    method Acts(acts: seq<Act>)
      requires Linked() && Inv(w, view) && Sane(w)
      modifies this
      ensures Linked() && view == Perform(w, old(view), acts)
    {
      hide Spell, Inv, Apply, Sane;
      ghost var start := view;
      var i := 0;
      while i < |acts|
        invariant i <= |acts| && Linked() && Inv(w, view)
        invariant Perform(w, view, acts[i..]) == Perform(w, start, acts)
      {
        ApplyKeeps(w, view, acts[i]);
        Act(acts[i]);
        assert acts[i..][1..] == acts[i + 1..];
        i := i + 1;
      }
    }

    /** do_top takes the command at the head over. */
    method TakeHead(going: bool) returns (runs: bool)
      requires Linked() && Unique(w, view) && view.players != []
      modifies this
      ensures Linked() && view == TakeTop(w, old(view), going) && runs == (old(view).players[0].player >= 0 && !going)
    {
      hide Spell, Unique;
      ghost var q := view;
      HeadOf(q, m);
      var player := m.entry[m.qfirst].player;
      runs := player >= 0 && !going;
      if runs {
        var o := w.owner(player);
        queued := queued[o := (if o in queued then queued[o] else 0) - 1];
        m := ClearHead(w, m, q);
        BooksSpell(q.(players := [q.players[0].(player := NOTHING)] + q.players[1..]), TakeTop(w, q, going), m);
        view := TakeTop(w, q, going);
      }
    }

    /** One round of do_top */
    method DoTop(going: bool, halted: bool, acts: seq<Act>)
      requires Linked() && Inv(w, view) && Sane(w)
      modifies this
      ensures Linked() && Inv(w, view) && view == CommandQueue.DoTop(w, old(view), going, halted, acts)
    {
      hide Spell, Unique, Inv, Perform, Sane, Off, TakeTop, PopTop;
      ghost var q := view;
      TopKeeps(w, q, going, halted, acts);
      OnceUnique(w, q);
      HeadOf(q, m);
      if m.qfirst == NULL { return; }
      TakeTopKeeps(w, q, going);
      var runs := TakeHead(going);
      StillThere(w, q, going, if runs && !halted then acts else []);
      NoActs(w, view);
      if runs && !halted { Acts(acts); }
      m := PopHead(m, view);
      PopBooks(view);
      view := PopTop(view);
    }
  }

  lemma NoActs(w: World, q: Queues)
    ensures Perform(w, q, []) == q
  {
  }

  lemma PopBooks(q: Queues)
    ensures PopTop(q).count == q.count && PopTop(q).queued == q.queued && PopTop(q).admitted == q.admitted
  {
  }

  lemma WalkBooks(w: World, q: Queues, k: Sel, key: Key, times: int)
    ensures var q' := NfyWalk(w, q, k, key, times, 0, [], q.sems); q'.count == q.count && q'.admitted == q.admitted
  {
    NfyIsWoken(w, q, k, key, times);
    hide NfyWalk;
    GiveAllKeeps(w, q, Taken(w, k, key, times, 0, q.sems), LiveOf(0));
    DrainAllBooks(w, q, Taken(w, k, key, times, 0, q.sems));
  }

  lemma {:induction false} DrainAllBooks(w: World, q: Queues, s: seq<Entry>)
    ensures DrainAll(w, q, s).count == q.count && DrainAll(w, q, s).admitted == q.admitted
    decreases |s|
  {
    if s != [] { DrainAllBooks(w, AddQueued(q.(ended := q.ended + [s[0].id]), w.owner(s[0].player), -1), s[1..]); }
  }

  lemma SecondUnique(w: World, q: Queues, now: int)
    requires Unique(w, q)
    ensures Unique(w, Merge(q)) && Unique(w, WakeFirst(w, Merge(q), now))
    ensures Merge(q).count == q.count && WakeFirst(w, Merge(q), now).count == q.count
  {
    hide Many;
    forall i: nat ensures Total(w, WithId(i), Merge(q)) == Total(w, WithId(i), q) {
      ManyConcat(w, WithId(i), q.players, q.objects);
      ManyEmpty(w, WithId(i));
    }
    hide Total;
    forall i: nat ensures Total(w, WithId(i), WakeFirst(w, Merge(q), now)) == Total(w, WithId(i), Merge(q)) {
      WakeTotal(w, Merge(q), now, WithId(i));
    }
  }

  lemma WakeTotal(w: World, q: Queues, now: int, k: Sel)
    requires Steady(k)
    ensures Total(w, k, WakeFirst(w, q, now)) == Total(w, k, q)
  {
    if q.wait != [] && q.wait[0].waittime <= now { GiveKeeps(w, q.(wait := q.wait[1..]), q.wait[0], k); }
  }

  /** do_second is its three parts, and touches no owner's counter. */
  lemma SecondAgain(w: World, q: Queues, now: int)
    ensures var q1 := WakeFirst(w, Merge(q), now);
            CommandQueue.DoSecond(w, q, now) == Expire(w, q1, now, [], q1.sems)
    ensures var q' := CommandQueue.DoSecond(w, q, now); q'.queued == q.queued && q'.admitted == q.admitted
  {
    SecondForm(w, q, now);
    ExpiredTotals(w, WakeFirst(w, Merge(q), now), now, LiveOf(0));
    hide Expired;
  }

  lemma ClockIsRewind(s: seq<Entry>, i: int)
    ensures ChangeAll(Clock(i), s) == Rewind(s, i)
  {
    ChangesAre(s);
  }

  lemma SemClockIsHasten(s: seq<Entry>, i: int)
    ensures ChangeAll(SemClock(i), s) == Hasten(s, i)
  {
    ChangesAre(s);
  }

  lemma HeadOf(q: Queues, m: Memory)
    requires Spell(q, m)
    ensures m.qfirst == NULL <==> q.players == []
    ensures q.players != [] ==> m.qfirst in m.entry && m.entry[m.qfirst] == q.players[0]
  {
    hide Lane;
    LaneFirst(m.qfirst, m.qlast, m, q.players);
  }

  lemma LaneFirst(first: Addr, last: Addr, m: Memory, s: seq<Entry>)
    requires Lane(first, last, m, s)
    ensures first == NULL <==> s == []
    ensures s != [] ==> first in m.entry && m.entry[first] == s[0]
  {
    assert s != [] ==> first == AddrOf(s[0]);
  }

  /** The command that was taken over is still at the head when its round ends. */
  lemma StillThere(w: World, q: Queues, going: bool, todo: seq<Act>)
    requires Sane(w) && Inv(w, q) && q.players != []
    requires todo != [] ==> q.players[0].player >= 0 && !going
    ensures Perform(w, TakeTop(w, q, going), todo).players != []
  {
    TakeTopKeeps(w, q, going);
    if todo != [] { PerformHeads(w, TakeTop(w, q, going), todo, q.players[0].id); }
  }

  lemma BooksSpell(q: Queues, q': Queues, m: Memory)
    requires Spell(q, m) && q'.players == q.players && q'.objects == q.objects && q'.wait == q.wait && q'.sems == q.sems
    ensures Spell(q', m)
  {
  }

  lemma BooksUnique(w: World, q: Queues, q': Queues)
    requires q'.players == q.players && q'.objects == q.objects && q'.wait == q.wait && q'.sems == q.sems
    ensures Unique(w, q) ==> Unique(w, q')
    ensures forall a :: Off(q, a) ==> Off(q', a)
  {
    forall i: nat ensures Total(w, WithId(i), q') == Total(w, WithId(i), q) { }
  }

  /** alloc_qentry and the fields setup_que fills in */
  method Allot(m: Memory, a: Addr, e: Entry, ghost q: Queues) returns (m': Memory)
    requires Spell(q, m) && Off(q, a) && a == AddrOf(e)
    ensures Spell(q, m') && m' == m.(entry := m.entry[a := e])
  {
    hide Lane, Touched, NotOn;
    m' := m.(entry := m.entry[a := e]);
    JustTouched(m, m', a, a, m.next, e);
    LaneFrame(m.qfirst, m.qlast, m, m', q.players, a, a);
    LaneFrame(m.qlfirst, m.qllast, m, m', q.objects, a, a);
    LaneFrame(m.qwait, TailOf(Addrs(q.wait)), m, m', q.wait, a, a);
    LaneFrame(m.qsemfirst, m.qsemlast, m, m', q.sems, a, a);
  }
}
