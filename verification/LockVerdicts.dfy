module LockVerdicts {
  /*
   What the verdicts of locks depend on: the nesting limit, the way a lock is written, and a dump and reload of the
   database.
   */

  import opened Decimal
  import LockFile
  import opened LockEval
  import opened LockReaders
  import opened Locks
  import opened Options

  // ------------------------------------------------------------------ the limit only matters for cycles

  /** Every reference in b leads to an object of rank below n. */
  predicate Below(rank: int -> nat, n: nat, b: Lock) {
    match b
    case And(l, r) => Below(rank, n, l) && Below(rank, n, r)
    case Or(l, r) => Below(rank, n, l) && Below(rank, n, r)
    case Not(l) => Below(rank, n, l)
    case Indir(Const(x)) => rank(x) < n
    case _ => true
  }

  /** References lead downwards: no chain of '@' comes back to an object. */
  ghost predicate Acyclic(locks: int -> Lock, rank: int -> nat) {
    forall x :: Below(rank, rank(x), locks(x))
  }

  /** If no reference chain is cyclic and the limit exceeds their length, the limit has no effect. */
  lemma {:induction false} LimitIrrelevant(locks: int -> Lock, rank: int -> nat, n: nat, m: nat, thing: int, b: Lock)
    requires Acyclic(locks, rank) && Below(rank, n, b) && Below(rank, m, b)
    ensures Expand(locks, n, thing, b) == Expand(locks, m, thing, b)
    decreases n, b
  {
    match b
    case And(l, r) => LimitIrrelevant(locks, rank, n, m, thing, l); LimitIrrelevant(locks, rank, n, m, thing, r);
    case Or(l, r) => LimitIrrelevant(locks, rank, n, m, thing, l); LimitIrrelevant(locks, rank, n, m, thing, r);
    case Not(l) => LimitIrrelevant(locks, rank, n, m, thing, l);
    case Indir(Const(x)) =>
      if x >= 0 {
        assert Below(rank, rank(x), locks(x));
        BelowMore(rank, rank(x), n - 1, locks(x));
        BelowMore(rank, rank(x), m - 1, locks(x));
        LimitIrrelevant(locks, rank, n - 1, m - 1, x, locks(x));
      }
    case _ =>
  }

  lemma {:induction false} BelowMore(rank: int -> nat, k: nat, n: nat, b: Lock)
    requires k <= n && Below(rank, k, b)
    ensures Below(rank, n, b)
  {
    match b
    case And(l, r) => BelowMore(rank, k, n, l); BelowMore(rank, k, n, r);
    case Or(l, r) => BelowMore(rank, k, n, l); BelowMore(rank, k, n, r);
    case Not(l) => BelowMore(rank, k, n, l);
    case _ =>
  }

  /** A lock that only refers to itself never opens, whatever the limit. */
  lemma {:induction false} SelfReferenceFails(realm: Realm, player: int, from: int, n: nat, thing: int, x: nat)
    requires StoredLock(realm, player, x) == Indir(Const(x))
    ensures !Holds(realm, player, from, n, thing, Indir(Const(x)))
  {
    if n > 0 { SelfReferenceFails(realm, player, from, n - 1, x, x); }
  }

  /** On a cycle through a negation the answer depends on the limit: it flips with every level. */
  lemma {:induction false} NegatedCycleFlips(realm: Realm, player: int, from: int, n: nat, thing: int, x: nat)
    requires StoredLock(realm, player, x) == Not(Indir(Const(x)))
    ensures Holds(realm, player, from, n, thing, Not(Indir(Const(x)))) <==> n % 2 == 0
  {
    var locks := Reads(realm, player);
    var inner := Expand(locks, n, thing, Indir(Const(x)));
    assert Value(realm, player, from, Neither(inner)) == !Value(realm, player, from, inner);
    if n == 0 {
      assert inner == False;
    } else {
      NegatedCycleFlips(realm, player, from, n - 1, x, x);
      assert inner == Expand(locks, n - 1, x, Not(Indir(Const(x))));
      assert (n - 1) % 2 == 0 <==> n % 2 != 0;
    }
  }

  // ------------------------------------------------------------------ without negated references the limit settles

  /** No reference to another lock */
  predicate Plainly(b: Lock) {
    match b
    case And(l, r) => Plainly(l) && Plainly(r)
    case Or(l, r) => Plainly(l) && Plainly(r)
    case Not(l) => Plainly(l)
    case Indir(_) => false
    case _ => true
  }

  /** No '!' stands above a reference to another lock. */
  predicate Positive(b: Lock) {
    match b
    case And(l, r) => Positive(l) && Positive(r)
    case Or(l, r) => Positive(l) && Positive(r)
    case Not(l) => Plainly(l)
    case _ => true
  }

  /** References lead to these objects only. */
  predicate RefersTo(objs: set<int>, b: Lock) {
    match b
    case And(l, r) => RefersTo(objs, l) && RefersTo(objs, r)
    case Or(l, r) => RefersTo(objs, l) && RefersTo(objs, r)
    case Not(l) => RefersTo(objs, l)
    case Indir(Const(x)) => x in objs
    case _ => true
  }

  lemma {:induction false} PlainlySame(locks: int -> Lock, n: nat, m: nat, thing: int, b: Lock)
    requires Plainly(b)
    ensures Expand(locks, n, thing, b) == Expand(locks, m, thing, b)
    decreases b
  {
    match b
    case And(l, r) => PlainlySame(locks, n, m, thing, l); PlainlySame(locks, n, m, thing, r);
    case Or(l, r) => PlainlySame(locks, n, m, thing, l); PlainlySame(locks, n, m, thing, r);
    case Not(l) => PlainlySame(locks, n, m, thing, l);
    case _ =>
  }

  /** The verdict grows with the nesting limit. */
  lemma {:induction false} VerdictGrows(realm: Realm, locks: int -> Lock, player: int, from: int, n: nat, m: nat, thing: int, b: Lock)
    requires n <= m && Positive(b) && forall x :: Positive(locks(x))
    requires Judge(realm, locks, player, from, n, thing, b)
    ensures Judge(realm, locks, player, from, m, thing, b)
    decreases n, b
  {
    match b
    case And(l, r) =>
      VerdictGrows(realm, locks, player, from, n, m, thing, l);
      VerdictGrows(realm, locks, player, from, n, m, thing, r);
    case Or(l, r) =>
      if Judge(realm, locks, player, from, n, thing, l) { VerdictGrows(realm, locks, player, from, n, m, thing, l); }
      else { VerdictGrows(realm, locks, player, from, n, m, thing, r); }
    case Not(l) => PlainlySame(locks, n, m, thing, l);
    case Indir(l) =>
      if n > 0 && l.Const? && l.thing >= 0 {
        VerdictGrows(realm, locks, player, from, n - 1, m - 1, l.thing, locks(l.thing));
      }
    case _ =>
  }

  /** The objects whose own lock lets the player through at this limit */
  function Passes(realm: Realm, locks: int -> Lock, player: int, from: int, objs: set<int>, n: nat): set<int> {
    set x | x in objs && Judge(realm, locks, player, from, n, x, locks(x))
  }

  /** One level up a lock sees nothing of the limit but which objects let the player through. */
  lemma {:induction false} OneLevelUp(realm: Realm, locks: int -> Lock, player: int, from: int, objs: set<int>, n: nat, m: nat, thing: int, b: Lock)
    requires Passes(realm, locks, player, from, objs, n) == Passes(realm, locks, player, from, objs, m) && RefersTo(objs, b)
    ensures Judge(realm, locks, player, from, n + 1, thing, b) <==> Judge(realm, locks, player, from, m + 1, thing, b)
    decreases b
  {
    match b
    case And(l, r) =>
      OneLevelUp(realm, locks, player, from, objs, n, m, thing, l);
      OneLevelUp(realm, locks, player, from, objs, n, m, thing, r);
    case Or(l, r) =>
      OneLevelUp(realm, locks, player, from, objs, n, m, thing, l);
      OneLevelUp(realm, locks, player, from, objs, n, m, thing, r);
    case Not(l) => OneLevelUp(realm, locks, player, from, objs, n, m, thing, l);
    case Indir(Const(x)) =>
      assert x in Passes(realm, locks, player, from, objs, n) <==> x in Passes(realm, locks, player, from, objs, m);
      assert x >= 0 ==> Expand(locks, n + 1, thing, b) == Expand(locks, n, x, locks(x));
      assert x >= 0 ==> Expand(locks, m + 1, thing, b) == Expand(locks, m, x, locks(x));
    case _ =>
  }

  ghost predicate Closed(locks: int -> Lock, objs: set<int>) {
    forall x :: x in objs ==> RefersTo(objs, locks(x))
  }

  /** Once a level adds no object, no later level does. */
  lemma {:induction false} StaysSettled(realm: Realm, locks: int -> Lock, player: int, from: int, objs: set<int>, k: nat, n: nat)
    requires Closed(locks, objs) && k <= n
    requires Passes(realm, locks, player, from, objs, k) == Passes(realm, locks, player, from, objs, k + 1)
    ensures Passes(realm, locks, player, from, objs, n) == Passes(realm, locks, player, from, objs, k)
    decreases n - k
  {
    hide Judge;
    if k < n {
      forall x | x in objs ensures x in Passes(realm, locks, player, from, objs, k + 2) <==> x in Passes(realm, locks, player, from, objs, k + 1) {
        OneLevelUp(realm, locks, player, from, objs, k + 1, k, x, locks(x));
      }
      assert Passes(realm, locks, player, from, objs, k + 2) == Passes(realm, locks, player, from, objs, k + 1);
      StaysSettled(realm, locks, player, from, objs, k + 1, n);
    }
  }

  lemma PassesGrow(realm: Realm, locks: int -> Lock, player: int, from: int, objs: set<int>, n: nat)
    requires forall x :: Positive(locks(x))
    ensures Passes(realm, locks, player, from, objs, n) <= Passes(realm, locks, player, from, objs, n + 1) <= objs
  {
    hide Judge;
    forall x | x in Passes(realm, locks, player, from, objs, n) ensures x in Passes(realm, locks, player, from, objs, n + 1) {
      VerdictGrows(realm, locks, player, from, n, n + 1, x, locks(x));
    }
  }

  /** A level either is settled already or lets at least as many objects pass as its number. */
  lemma {:induction false} SettledOrMany(realm: Realm, locks: int -> Lock, player: int, from: int, objs: set<int>, n: nat)
    requires Closed(locks, objs) && forall x :: Positive(locks(x))
    ensures || |Passes(realm, locks, player, from, objs, n)| >= n
            || Passes(realm, locks, player, from, objs, n) == Passes(realm, locks, player, from, objs, n + 1)
  {
    hide Judge, Passes, Positive, Closed;
    if n > 0 {
      SettledOrMany(realm, locks, player, from, objs, n - 1);
      PassesGrow(realm, locks, player, from, objs, n - 1);
      var a, b := Passes(realm, locks, player, from, objs, n - 1), Passes(realm, locks, player, from, objs, n);
      if a == b {
        StaysSettled(realm, locks, player, from, objs, n - 1, n + 1);
      } else {
        Smaller(a, b);
      }
    }
  }

  lemma Smaller(a: set<int>, b: set<int>)
    requires a <= b && a != b
    ensures |a| < |b|
  {
    assert |b| == |a| + |b - a| by { assert b == a + (b - a); }
    assert b - a != {};
  }

  lemma SettledAt(realm: Realm, locks: int -> Lock, player: int, from: int, objs: set<int>, n: nat)
    requires Closed(locks, objs) && (forall x :: Positive(locks(x))) && n >= |objs|
    ensures Passes(realm, locks, player, from, objs, n) == Passes(realm, locks, player, from, objs, |objs|)
  {
    hide Judge, Passes, Positive, Closed;
    var k := |objs|;
    SettledOrMany(realm, locks, player, from, objs, k);
    PassesGrow(realm, locks, player, from, objs, k);
    var a, b := Passes(realm, locks, player, from, objs, k), Passes(realm, locks, player, from, objs, k + 1);
    if a != b {
      if a != objs { Smaller(a, objs); }
    }
    StaysSettled(realm, locks, player, from, objs, k, n);
  }

  /** Where no '!' stands above an '@', cycles or not: the verdict only grows with the nesting limit, and from the
      number of objects referred to on it is the same for every limit. */
  lemma LimitSettles(realm: Realm, player: int, from: int, objs: set<int>, n: nat, thing: int)
    requires var locks := Reads(realm, player); Closed(locks, objs) && forall x :: Positive(locks(x))
    requires thing in objs && n >= |objs|
    ensures Holds(realm, player, from, n, thing, StoredLock(realm, player, thing)) <==>
            Holds(realm, player, from, |objs|, thing, StoredLock(realm, player, thing))
    ensures forall k :: 0 <= k <= n && Holds(realm, player, from, k, thing, StoredLock(realm, player, thing)) ==>
            Holds(realm, player, from, n, thing, StoredLock(realm, player, thing))
  {
    var locks := Reads(realm, player);
    hide Judge, Positive, Closed;
    SettledAt(realm, locks, player, from, objs, n);
    assert thing in Passes(realm, locks, player, from, objs, n) <==> thing in Passes(realm, locks, player, from, objs, |objs|);
    forall k | 0 <= k <= n && Judge(realm, locks, player, from, k, thing, locks(thing))
      ensures Judge(realm, locks, player, from, n, thing, locks(thing)) {
      VerdictGrows(realm, locks, player, from, k, n, thing, locks(thing));
    }
  }

  // ------------------------------------------------------------------ rewriting locks keeps their meaning

  lemma {:induction false} AndThenHolds(realm: Realm, locks: int -> Lock, player: int, from: int, n: nat, thing: int, x: Lock, y: Lock)
    ensures Judge(realm, locks, player, from, n, thing, AndThen(x, y)) <==>
            Judge(realm, locks, player, from, n, thing, x) && Judge(realm, locks, player, from, n, thing, y)
  {
    match x case And(a, b) => AndThenHolds(realm, locks, player, from, n, thing, b, y); case _ =>
  }

  lemma {:induction false} OrElseHolds(realm: Realm, locks: int -> Lock, player: int, from: int, n: nat, thing: int, x: Lock, y: Lock)
    ensures Judge(realm, locks, player, from, n, thing, OrElse(x, y)) <==>
            Judge(realm, locks, player, from, n, thing, x) || Judge(realm, locks, player, from, n, thing, y)
  {
    match x case Or(a, b) => OrElseHolds(realm, locks, player, from, n, thing, b, y); case _ =>
  }

  /** Locks that were all hung to the right let through exactly whom they let through before, cycles included. */
  lemma {:induction false} RewritingKeepsMeaning(realm: Realm, locks: int -> Lock, locks': int -> Lock, player: int, from: int,
      n: nat, thing: int, b: Lock)
    requires forall x :: locks'(x) == Normal(locks(x))
    ensures Judge(realm, locks', player, from, n, thing, Normal(b)) <==> Judge(realm, locks, player, from, n, thing, b)
    decreases n, b
  {
    match b
    case And(l, r) =>
      RewritingKeepsMeaning(realm, locks, locks', player, from, n, thing, l);
      RewritingKeepsMeaning(realm, locks, locks', player, from, n, thing, r);
      AndThenHolds(realm, locks', player, from, n, thing, Normal(l), Normal(r));
    case Or(l, r) =>
      RewritingKeepsMeaning(realm, locks, locks', player, from, n, thing, l);
      RewritingKeepsMeaning(realm, locks, locks', player, from, n, thing, r);
      OrElseHolds(realm, locks', player, from, n, thing, Normal(l), Normal(r));
    case Not(l) => RewritingKeepsMeaning(realm, locks, locks', player, from, n, thing, l);
    case Indir(l) =>
      if n > 0 && l.Const? && l.thing >= 0 {
        RewritingKeepsMeaning(realm, locks, locks', player, from, n - 1, l.thing, locks(l.thing));
      }
    case _ =>
  }

  // ------------------------------------------------------------------ a dump and a reload

  /** realm' is realm after a dump and a reload.  db_write_object parses each lock as God and writes it, db_read
      reads it, before the next field, and stores the text unparse_boolexp_quiet prints.  Objects that were going away
      are not kept: they have no lock afterwards, and may be no objects at all. */
  ghost predicate Reloaded(realm: Realm, realm': Realm, kept: int -> bool, mk: LockFile.MkAttr, names: Names, field: int -> string) {
    && realm' == realm.(lockText := realm'.lockText, goodObj := realm'.goodObj, owner := realm'.owner)
    && (forall x :: realm'.goodObj(x) ==> realm.goodObj(x))
    && (forall x :: kept(x) ==> realm'.goodObj(x) == realm.goodObj(x) && realm'.owner(x) == realm.owner(x))
    && (forall x :: !kept(x) ==> realm'.lockText(x) == "")
    && forall x :: kept(x) ==> Restored(realm, mk, names, field, x, realm'.lockText(x))
  }

  predicate Restored(realm: Realm, mk: LockFile.MkAttr, names: Names, field: int -> string, x: int, text: string) {
    var r := LockFile.GetLock(mk, LockFile.PutLock(names, StoredLock(realm, GOD, x)) + field(x));
    r.Got? && text == Unparse(names, r.lock, Plain)
  }

  /** The lock is followed by a field that is no empty line. */
  ghost predicate Fielded(field: int -> string) { forall x :: field(x) != [] && field(x)[0] != '\n' }

  /** Every stored lock is one line and holds, as God reads it, only attributes that can be found again by reader
      and parser; attributes are found by name only where they have one. */
  ghost predicate Dumpable(realm: Realm, kept: int -> bool, mk: LockFile.MkAttr, names: Names) {
    && Tabled(EnvOf(realm, GOD), names)
    && forall x :: kept(x) ==>
      && LockFile.OneLine(realm.lockText(x))
      && LockFile.AllFindable(mk, names, StoredLock(realm, GOD, x))
      && AllNameable(EnvOf(realm, GOD), names, StoredLock(realm, GOD, x))
  }

  /** The lock of an object by which a player is judged after a reload: what God read before the dump, if the player
      finds every object and, not being God, a name for every attribute in it; no lock at all otherwise. */
  function Dumped(realm: Realm, realm': Realm, kept: int -> bool, names: Names, player: int): int -> Lock {
    x => var g := StoredLock(realm, GOD, x);
      if kept(x) && Readable(EnvOf(realm', player), names, g) then g else Open
  }

  lemma LockReloaded(realm: Realm, realm': Realm, kept: int -> bool, mk: LockFile.MkAttr, names: Names, field: int -> string, player: int, x: int)
    requires Reloaded(realm, realm', kept, mk, names, field) && Fielded(field) && Dumpable(realm, kept, mk, names)
    ensures StoredLock(realm', player, x) == Normal(Dumped(realm, realm', kept, names, player)(x))
  {
    var g, env, env' := StoredLock(realm, GOD, x), EnvOf(realm, GOD), EnvOf(realm', player);
    assert Narrower(env', env);
    if kept(x) {
      assert LockFile.OneLine(realm.lockText(x)) && LockFile.AllFindable(mk, names, g) && AllNameable(env, names, g);
      assert Restored(realm, mk, names, field, x, realm'.lockText(x));
      hide LockFile.GetLock, LockFile.PutLock, Unparse, Parse, AllNameable, LockFile.AllFindable, Normal, Readable, Legal, Tabled, Narrower, Reloaded;
      LockFile.ParsedLockSurvives(env, mk, names, realm.lockText(x), field(x));
      ParsedIsLegal(env, realm.lockText(x));
      ReparseNarrow(env', env, names, g);
      OpenPrint(env', names);
    }
  }

  /** The verdict on any player after a dump and a reload, cycles included: the player is judged by the locks as
      God read them, where it can read them, and not by its own reading of the old texts. */
  lemma ReloadVerdict(realm: Realm, realm': Realm, kept: int -> bool, mk: LockFile.MkAttr, names: Names, field: int -> string,
      player: int, from: int, n: nat, thing: int)
    requires Reloaded(realm, realm', kept, mk, names, field) && Fielded(field) && Dumpable(realm, kept, mk, names)
    ensures var locks := Dumped(realm, realm', kept, names, player);
      Holds(realm', player, from, n, thing, StoredLock(realm', player, thing)) <==>
      Judge(realm', locks, player, from, n, thing, locks(thing))
  {
    hide Judge, Reloaded, Dumpable, Parse, Normal, Readable;
    var locks := Dumped(realm, realm', kept, names, player);
    forall x ensures Reads(realm', player)(x) == Normal(locks(x)) { LockReloaded(realm, realm', kept, mk, names, field, player, x); }
    RewritingKeepsMeaning(realm', locks, Reads(realm', player), player, from, n, thing, locks(thing));
  }

  /** The player reads the old text as God does if it can read the new one, and as no lock if it cannot. */
  predicate Alike(realm: Realm, realm': Realm, names: Names, player: int, x: int) {
    var g := StoredLock(realm, GOD, x);
    StoredLock(realm, player, x) == if Readable(EnvOf(realm', player), names, g) then g else Open
  }

  lemma NormalOpen(b: Lock)
    ensures Normal(b) == Open <==> b == Open
  {
    NormalKind(b);
  }

  /** A reload changes what a player reads in the lock of an object, apart from hanging it to the right, exactly if
      the player did not read the old text alike. */
  lemma ReloadKeepsReading(realm: Realm, realm': Realm, kept: int -> bool, mk: LockFile.MkAttr, names: Names, field: int -> string,
      player: int, x: int)
    requires Reloaded(realm, realm', kept, mk, names, field) && Fielded(field) && Dumpable(realm, kept, mk, names)
    requires kept(x)
    ensures StoredLock(realm', player, x) == Normal(StoredLock(realm, player, x)) <==> Alike(realm, realm', names, player, x)
    ensures !Alike(realm, realm', names, player, x) && Readable(EnvOf(realm', player), names, StoredLock(realm, GOD, x)) ==>
            StoredLock(realm, player, x) == Open
  {
    hide Parse, Normal, Readable, Dumpable, Reloaded;
    LockReloaded(realm, realm', kept, mk, names, field, player, x);
    assert Narrower(EnvOf(realm, player), EnvOf(realm, GOD));
    ParseNarrow(EnvOf(realm, player), EnvOf(realm, GOD), realm.lockText(x));
    NormalOpen(StoredLock(realm, GOD, x));
    NormalOpen(StoredLock(realm, player, x));
    NormalOpen(Open);
  }

  /** The lock names only objects that are kept. */
  predicate Within(kept: int -> bool, b: Lock) {
    match b
    case And(l, r) => Within(kept, l) && Within(kept, r)
    case Or(l, r) => Within(kept, l) && Within(kept, r)
    case Not(l) => Within(kept, l)
    case Indir(Const(x)) => kept(x)
    case OwnerIs(Const(x)) => kept(x)
    case _ => true
  }

  /** Two sets of locks that agree on the kept objects give the same verdict where only kept objects are named. */
  lemma {:induction false} SameLocks(realm: Realm, realm': Realm, kept: int -> bool, locks: int -> Lock, locks': int -> Lock,
      player: int, from: int, n: nat, thing: int, b: Lock)
    requires realm' == realm.(lockText := realm'.lockText, goodObj := realm'.goodObj, owner := realm'.owner)
    requires kept(player) && forall x :: kept(x) ==> realm'.owner(x) == realm.owner(x)
    requires forall x :: kept(x) ==> locks'(x) == locks(x) && Within(kept, locks(x))
    requires Within(kept, b)
    ensures Judge(realm', locks', player, from, n, thing, b) <==> Judge(realm, locks, player, from, n, thing, b)
    decreases n, b
  {
    match b
    case And(l, r) =>
      SameLocks(realm, realm', kept, locks, locks', player, from, n, thing, l);
      SameLocks(realm, realm', kept, locks, locks', player, from, n, thing, r);
    case Or(l, r) =>
      SameLocks(realm, realm', kept, locks, locks', player, from, n, thing, l);
      SameLocks(realm, realm', kept, locks, locks', player, from, n, thing, r);
    case Not(l) => SameLocks(realm, realm', kept, locks, locks', player, from, n, thing, l);
    case Indir(l) =>
      if n > 0 && l.Const? && l.thing >= 0 {
        SameLocks(realm, realm', kept, locks, locks', player, from, n - 1, l.thing, locks(l.thing));
      }
    case _ =>
  }

  /** A dump and a reload keep every verdict on a player who reads all locks alike, if no lock names an object that
      is going away. */
  lemma ReloadKeepsMeaning(realm: Realm, realm': Realm, kept: int -> bool, mk: LockFile.MkAttr, names: Names, field: int -> string,
      player: int, from: int, n: nat, thing: int)
    requires Reloaded(realm, realm', kept, mk, names, field) && Fielded(field) && Dumpable(realm, kept, mk, names)
    requires kept(player) && kept(thing)
    requires forall x :: kept(x) ==> Alike(realm, realm', names, player, x) && Within(kept, StoredLock(realm, player, x))
    ensures Holds(realm', player, from, n, thing, StoredLock(realm', player, thing)) <==>
            Holds(realm, player, from, n, thing, StoredLock(realm, player, thing))
  {
    hide Judge, Dumpable, Parse, Normal, Readable, Within, Restored;
    ReloadVerdict(realm, realm', kept, mk, names, field, player, from, n, thing);
    var locks := Reads(realm, player);
    var locks' := Dumped(realm, realm', kept, names, player);
    forall x | kept(x) ensures locks'(x) == locks(x) && Within(kept, locks(x)) {
      assert Alike(realm, realm', names, player, x) && Within(kept, StoredLock(realm, player, x));
    }
    SameLocks(realm, realm', kept, locks, locks', player, from, n, thing, locks(thing));
  }

  /** Where a player does not read a lock alike and can read it afterwards, the object stood open for the player; it
      stays so only if the lock, as God read it, lets the player through. */
  lemma ReloadShuts(realm: Realm, realm': Realm, kept: int -> bool, mk: LockFile.MkAttr, names: Names, field: int -> string,
      player: int, from: int, n: nat, thing: int)
    requires Reloaded(realm, realm', kept, mk, names, field) && Fielded(field) && Dumpable(realm, kept, mk, names)
    requires kept(thing) && !Alike(realm, realm', names, player, thing)
    requires Readable(EnvOf(realm', player), names, StoredLock(realm, GOD, thing))
    ensures Holds(realm, player, from, n, thing, StoredLock(realm, player, thing))
    ensures Holds(realm', player, from, n, thing, StoredLock(realm', player, thing)) <==>
            Judge(realm', Dumped(realm, realm', kept, names, player), player, from, n, thing, StoredLock(realm, GOD, thing))
  {
    hide Reloaded, Dumpable, Parse, Normal, Readable;
    ReloadKeepsReading(realm, realm', kept, mk, names, field, player, thing);
    ReloadVerdict(realm, realm', kept, mk, names, field, player, from, n, thing);
    assert Expand(Reads(realm, player), n, thing, Open) == True;
  }

  // ------------------------------------------------------------------ a lock that a reload shuts

  const Sexes: Names := n => if n == 3 then Some("SEX") else None

  const SexNumber: LockFile.MkAttr := s => if s == "SEX" then 3 else 0

  const Empty := Realm(x => [], x => x, x => "", s => if s == "SEX" then Some(3) else None, x => 0 <= x < 10, n => n == 3,
    (x, from, n, key) => false, (player, thing, from, n, key) => false)

  /** Nobody has a sex here, and only #5 has a lock. */
  function Town(text: string): Realm { Empty.(lockText := x => if x == 5 then text else "") }

  /** The text of a single reference */
  lemma ParseOne(env: Env, s: string)
    requires Key(s) && s != [] && !IsSpace(s[0]) && s[0] != '(' && s[0] != '!' && !Unary(s[0]) && s[0] != '#'
    ensures Parse(env, s) == match TestAtr(env, s) case Some(b) => b case None => Open
  {
    hide Key, TestAtr, ParseRef;
    RefOf(env, s, "");
    assert s + "" == s;
    LOfRef(env, s);
    hide ParseF;
    if TestAtr(env, s).Some? {
      TEnds(env, s, TestAtr(env, s).value, "");
      EEnds(env, s, TestAtr(env, s).value, "");
    } else {
      assert ParseT(env, s) == Fail;
    }
  }

  lemma ThreeF(env: Env)
    requires env.atrStr("3") == None
    ensures Parse(env, "3:F") == if env.god then Atr(3, "F") else Open
  {
    hide Parse;
    assert Key("3:F");
    ParseOne(env, "3:F");
    SeparatorOf("3", ":F");
    assert "3:F" == "3" + ":F" == "3" + ":" + "F" && "3:F"[..1] == "3";
    if env.god {
      assert AllDigits("3") && Atoi("3") == 3;
      TestAtrOf(env, "3", ":", "F", 3);
    }
  }

  lemma SexF(env: Env)
    requires env.atrStr("SEX") == Some(3)
    ensures Parse(env, "SEX:F") == Atr(3, "F")
  {
    hide Parse;
    assert Key("SEX:F");
    ParseOne(env, "SEX:F");
    assert "SEX:F" == "SEX" + ":" + "F";
    TestAtrOf(env, "SEX", ":", "F", 3);
  }

  lemma TownLocks(player: int, text: string, x: int)
    requires text == "3:F" || text == "SEX:F"
    ensures StoredLock(Town(text), player, x) == if x == 5 && (player == GOD || text == "SEX:F") then Atr(3, "F") else Open
  {
    var env := EnvOf(Town(text), player);
    assert Parse(env, "") == Open;
    hide Parse;
    if text == "3:F" { ThreeF(env); } else { SexF(env); }
  }

  /** A lock that names an attribute by its number is no lock for anybody but God.  The dump writes the name, and
      after the reload it is a lock for everybody. */
  lemma NumberedLockShuts(player: int, from: int, n: nat, field: int -> string)
    requires player != GOD && Fielded(field)
    ensures Reloaded(Town("3:F"), Town("SEX:F"), x => true, SexNumber, Sexes, field) && Dumpable(Town("3:F"), x => true, SexNumber, Sexes)
    ensures Holds(Town("3:F"), player, from, n, 5, StoredLock(Town("3:F"), player, 5))
    ensures !Holds(Town("SEX:F"), player, from, n, 5, StoredLock(Town("SEX:F"), player, 5))
  {
    hide Parse, Dumpable, Reloaded;
    TownDumpable();
    TownReloaded(field);
    TownLocks(player, "3:F", 5);
    TownLocks(player, "SEX:F", 5);
    assert !LeafHolds(Town("SEX:F"), player, from, 5, Atr(3, "F"));
  }

  lemma TownReloaded(field: int -> string)
    requires Fielded(field)
    ensures Reloaded(Town("3:F"), Town("SEX:F"), x => true, SexNumber, Sexes, field)
  {
    var realm, realm' := Town("3:F"), Town("SEX:F");
    hide Parse, LockFile.GetLock, LockFile.PutLock, LockFile.AllFindable;
    TownDumpable();
    assert Unparse(Sexes, Atr(3, "F"), Plain) == "SEX" + ":" + "F" == "SEX:F" && Unparse(Sexes, Open, Plain) == "";
    hide Unparse;
    forall x ensures Restored(realm, SexNumber, Sexes, field, x, realm'.lockText(x)) {
      assert LockFile.OneLine(realm.lockText(x)) && LockFile.AllFindable(SexNumber, Sexes, StoredLock(realm, GOD, x));
      TownLocks(GOD, "3:F", x);
      LockFile.ParsedLockSurvives(EnvOf(realm, GOD), SexNumber, Sexes, realm.lockText(x), field(x));
    }
  }

  lemma TownDumpable()
    ensures Dumpable(Town("3:F"), x => true, SexNumber, Sexes)
  {
    hide Parse;
    var realm := Town("3:F");
    assert LockFile.Findable(SexNumber, Sexes, 3) && GoodName(EnvOf(realm, GOD), 3, "SEX");
    hide LockFile.Findable;
    hide GoodName;
    forall x
      ensures LockFile.OneLine(realm.lockText(x)) && LockFile.AllFindable(SexNumber, Sexes, StoredLock(realm, GOD, x))
      ensures AllNameable(EnvOf(realm, GOD), Sexes, StoredLock(realm, GOD, x))
    {
      TownLocks(GOD, "3:F", x);
    }
  }
}
