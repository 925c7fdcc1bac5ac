module LockEval {
  /*
   The evaluator of src/boolexp.c.  A lock may refer to the lock of another object with '@', and such references
   may form cycles; a nesting counter with a limit ends them.  The reference semantics is independent of the
   counter: references are replaced by the locks they stand for, down to the depth that is left, where they become
   false, and the resulting plain formula is evaluated.
   Object contents, ownership, stored locks and the attribute tests are parameters.
   */

  import opened Locks
  import opened Options
  import opened LockParser

  datatype Realm = Realm(
    contents: int -> seq<int>,
    owner: int -> int,
    lockText: int -> string,
    atrStr: string -> Option<int>,
    goodObj: int -> bool,
    isAttr: int -> bool,
    checkAttr: (int, int, int, string) -> bool,
    evalAttr: (int, int, int, int, string) -> bool)

  /** A formula without references to other locks; leaves know whose lock they came from. */
  datatype Formula =
    | True
    | False
    | Both(l: Formula, r: Formula)
    | Either(l: Formula, r: Formula)
    | Neither(l: Formula)
    | Leaf(thing: int, b: Lock)

  /** What the parser looks up when this player parses: only God may name attributes by number. */
  function EnvOf(realm: Realm, player: int): Env { Env(realm.atrStr, player == GOD, realm.goodObj) }

  /** The stored lock of an object as the player reads it */
  function StoredLock(realm: Realm, player: int, thing: int): Lock {
    Parse(EnvOf(realm, player), realm.lockText(thing))
  }

  function Reads(realm: Realm, player: int): int -> Lock { x => StoredLock(realm, player, x) }

  /** The formula a lock stands for when n more references may be followed, each to a lock of the given ones */
  function Expand(locks: int -> Lock, n: nat, thing: int, b: Lock): Formula
    decreases n, b
  {
    match b
    case Open => True
    case And(l, r) => Both(Expand(locks, n, thing, l), Expand(locks, n, thing, r))
    case Or(l, r) => Either(Expand(locks, n, thing, l), Expand(locks, n, thing, r))
    case Not(l) => Neither(Expand(locks, n, thing, l))
    case Indir(l) =>
      if n == 0 || !l.Const? || l.thing < 0 then False else Expand(locks, n - 1, l.thing, locks(l.thing))
    case _ => Leaf(thing, b)
  }

  predicate AnyCarried(realm: Realm, player: int, from: int, num: int, key: string) {
    exists i :: 0 <= i < |realm.contents(player)| && realm.checkAttr(realm.contents(player)[i], from, num, key)
  }

  predicate LeafHolds(realm: Realm, player: int, from: int, thing: int, b: Lock) {
    match b
    case Const(x) => x == player || x in realm.contents(player)
    case Atr(num, key) =>
      realm.isAttr(num) && (realm.checkAttr(player, from, num, key) || AnyCarried(realm, player, from, num, key))
    case Eval(num, key) => realm.isAttr(num) && realm.evalAttr(player, thing, from, num, key)
    case Is(Const(x)) => x == player
    case Is(Atr(num, key)) => realm.isAttr(num) && realm.checkAttr(player, from, num, key)
    case Carry(Const(x)) => x in realm.contents(player)
    case Carry(Atr(num, key)) => realm.isAttr(num) && AnyCarried(realm, player, from, num, key)
    case OwnerIs(Const(x)) => realm.owner(x) == realm.owner(player)
    case _ => false
  }

  predicate Value(realm: Realm, player: int, from: int, f: Formula) {
    match f
    case True => true
    case False => false
    case Both(l, r) => Value(realm, player, from, l) && Value(realm, player, from, r)
    case Either(l, r) => Value(realm, player, from, l) || Value(realm, player, from, r)
    case Neither(l) => !Value(realm, player, from, l)
    case Leaf(thing, b) => LeafHolds(realm, player, from, thing, b)
  }

  /** The meaning of a lock with n references left, when the objects' locks are the given ones */
  predicate Judge(realm: Realm, locks: int -> Lock, player: int, from: int, n: nat, thing: int, b: Lock) {
    Value(realm, player, from, Expand(locks, n, thing, b))
  }

  /** The meaning of a lock with n references left: the player reads the stored locks for itself. */
  predicate Holds(realm: Realm, player: int, from: int, n: nat, thing: int, b: Lock) {
    Judge(realm, Reads(realm, player), player, from, n, thing, b)
  }

  // ------------------------------------------------------------------ the evaluator

  class Evaluator {
    const realm: Realm
    const lockNestLim: int
    var lockNestLev: int

    /** How many more references may be followed */
    ghost function Allowance(): nat
      reads this
    {
      if lockNestLim - 1 - lockNestLev < 0 then 0 else lockNestLim - 1 - lockNestLev
    }

    constructor (realm: Realm, lim: int)
      ensures this.realm == realm && lockNestLim == lim && lockNestLev == 0
    {
      this.realm, lockNestLim, lockNestLev := realm, lim, 0;
    }

    /** eval_boolexp */
    method EvalBoolexp(player: int, thing: int, from: int, b: Lock) returns (c: bool)
      requires b == Open || Legal(EnvOf(realm, player), b)
      modifies this
      ensures lockNestLev == old(lockNestLev)
      ensures c == Holds(realm, player, from, old(Allowance()), thing, b)
      decreases Allowance(), 1, b
    {
      match b {
        case Open => c := true;
        case And(l, r) =>
          c := EvalBoolexp(player, thing, from, l);
          if c { c := EvalBoolexp(player, thing, from, r); }
        case Or(l, r) =>
          c := EvalBoolexp(player, thing, from, l);
          if !c { c := EvalBoolexp(player, thing, from, r); }
        case Not(l) =>
          c := EvalBoolexp(player, thing, from, l);
          c := !c;
        case Indir(l) =>
          lockNestLev := lockNestLev + 1;
          if lockNestLev >= lockNestLim {
            lockNestLev := lockNestLev - 1;
            return false;
          }
          if !l.Const? || l.thing < 0 {
            lockNestLev := lockNestLev - 1;
            return false;
          }
          c := EvalBoolexpAtr(player, l.thing, from, realm.lockText(l.thing));
          lockNestLev := lockNestLev - 1;
        case _ => c := EvalLeaf(player, thing, from, b);
      }
    }

    /** eval_boolexp_atr: the text is parsed first; an open or broken lock lets everyone pass. */
    method EvalBoolexpAtr(player: int, thing: int, from: int, key: string) returns (c: bool)
      modifies this
      ensures lockNestLev == old(lockNestLev)
      ensures c == Holds(realm, player, from, old(Allowance()), thing, Parse(EnvOf(realm, player), key))
      decreases Allowance(), 2
    {
      var b := ParseBoolexp(EnvOf(realm, player), key);
      ParsedIsLegal(EnvOf(realm, player), key);
      if b == Open { return true; }
      c := EvalBoolexp(player, thing, from, b);
    }

    /** The tests on the player and what it carries */
    method EvalLeaf(player: int, thing: int, from: int, b: Lock) returns (c: bool)
      requires Legal(EnvOf(realm, player), b) && !b.And? && !b.Or? && !b.Not? && !b.Indir?
      ensures c == LeafHolds(realm, player, from, thing, b)
    {
      match b {
        case Const(x) => c := x == player || x in realm.contents(player);
        case Atr(num, key) =>
          if !realm.isAttr(num) { return false; }
          if realm.checkAttr(player, from, num, key) { return true; }
          c := CheckContents(player, from, num, key);
        case Eval(num, key) => c := realm.isAttr(num) && realm.evalAttr(player, thing, from, num, key);
        case Is(l) =>
          if l.Const? { return l.thing == player; }
          c := realm.isAttr(l.num) && realm.checkAttr(player, from, l.num, l.str);
        case Carry(l) =>
          if l.Const? { return l.thing in realm.contents(player); }
          if !realm.isAttr(l.num) { return false; }
          c := CheckContents(player, from, l.num, l.str);
        case OwnerIs(l) => c := realm.owner(l.thing) == realm.owner(player);
      }
    }

    /** The loop over what the player carries */
    method CheckContents(player: int, from: int, num: int, key: string) returns (c: bool)
      ensures c == AnyCarried(realm, player, from, num, key)
    {
      var objs := realm.contents(player);
      for i := 0 to |objs|
        invariant forall j :: 0 <= j < i ==> !realm.checkAttr(objs[j], from, num, key)
      {
        if realm.checkAttr(objs[i], from, num, key) { return true; }
      }
      return false;
    }
  }
}
