module LockLaws {
  /*
   What each form of a lock means, said by laws that tie the forms to each other and to the world: over all realms,
   players, objects asked and nesting limits.
   */

  import opened Decimal
  import opened LockEval
  import opened Locks
  import opened Options

  /** The realm when this player carries other things */
  function Carrying(realm: Realm, player: int, objs: seq<int>): Realm {
    realm.(contents := p => if p == player then objs else realm.contents(p))
  }

  /** A lock that names an object or tests an attribute */
  predicate Keyed(b: Lock) { b.Const? || b.Atr? }

  /** '#5' and 'sex:f' open for who is it or carries it: exactly where '=' or '+' before them opens. */
  lemma BeOrCarry(realm: Realm, locks: int -> Lock, player: int, from: int, n: nat, thing: int, b: Lock)
    requires Keyed(b)
    ensures Judge(realm, locks, player, from, n, thing, b) <==>
            Judge(realm, locks, player, from, n, thing, Is(b)) || Judge(realm, locks, player, from, n, thing, Carry(b))
  {
  }

  /** '=' looks at the player alone, whatever it carries; before an object it opens for exactly that one, and before an
      attribute for exactly those who have it so, as the asking object sees it. */
  lemma BeingIsAlone(realm: Realm, locks: int -> Lock, player: int, from: int, n: nat, thing: int, b: Lock, objs: seq<int>)
    requires Keyed(b)
    ensures Judge(Carrying(realm, player, objs), locks, player, from, n, thing, Is(b)) <==>
            Judge(realm, locks, player, from, n, thing, Is(b))
    ensures b.Const? ==> (Judge(realm, locks, player, from, n, thing, Is(b)) <==> player == b.thing)
    ensures b.Atr? ==>
            (Judge(realm, locks, player, from, n, thing, Is(b)) <==> realm.isAttr(b.num) && realm.checkAttr(player, from, b.num, b.str))
  {
  }

  /** '+' opens exactly if something carried would open it if it were all that is carried, which is when '=' opens for
      that thing itself. */
  lemma CarryingIsBeing(realm: Realm, locks: int -> Lock, player: int, from: int, n: nat, thing: int, b: Lock)
    requires Keyed(b)
    ensures Judge(realm, locks, player, from, n, thing, Carry(b)) <==>
            exists y :: y in realm.contents(player) && Judge(Carrying(realm, player, [y]), locks, player, from, n, thing, Carry(b))
    ensures forall y :: Judge(Carrying(realm, player, [y]), locks, player, from, n, thing, Carry(b)) <==>
            Judge(realm, locks, y, from, n, thing, Is(b))
  {
    var objs := realm.contents(player);
    forall y
      ensures Judge(Carrying(realm, player, [y]), locks, player, from, n, thing, Carry(b)) <==> Judge(realm, locks, y, from, n, thing, Is(b))
    {
      assert Carrying(realm, player, [y]).contents(player)[0] == y;
    }
    if Judge(realm, locks, player, from, n, thing, Carry(b)) {
      if b.Const? {
        assert b.thing in objs && Judge(realm, locks, b.thing, from, n, thing, Is(b));
      } else {
        var i :| 0 <= i < |objs| && realm.checkAttr(objs[i], from, b.num, b.str);
        assert objs[i] in objs && Judge(realm, locks, objs[i], from, n, thing, Is(b));
      }
    }
    if y :| y in objs && Judge(realm, locks, y, from, n, thing, Is(b)) {
      var i :| 0 <= i < |objs| && objs[i] == y;
    }
  }

  /** '$' opens for exactly those who have the same owner: for the object named, alike for players of one owner, and
      alike from both sides. */
  lemma OwningIsShared(realm: Realm, locks: int -> Lock, player: int, other: int, from: int, n: nat, thing: int, x: int)
    ensures Judge(realm, locks, x, from, n, thing, OwnerIs(Const(x)))
    ensures realm.owner(player) == realm.owner(other) ==>
            (Judge(realm, locks, player, from, n, thing, OwnerIs(Const(x))) <==> Judge(realm, locks, other, from, n, thing, OwnerIs(Const(x))))
    ensures realm.owner(player) != realm.owner(other) ==>
            !(Judge(realm, locks, player, from, n, thing, OwnerIs(Const(x))) && Judge(realm, locks, other, from, n, thing, OwnerIs(Const(x))))
    ensures Judge(realm, locks, player, from, n, thing, OwnerIs(Const(x))) <==> Judge(realm, locks, x, from, n, thing, OwnerIs(Const(player)))
  {
  }

  /** An attribute that does not exist opens nothing. */
  lemma NoSuchAttr(realm: Realm, locks: int -> Lock, player: int, from: int, n: nat, thing: int, num: int, key: string)
    requires !realm.isAttr(num)
    ensures !Judge(realm, locks, player, from, n, thing, Atr(num, key)) && !Judge(realm, locks, player, from, n, thing, Eval(num, key))
    ensures !Judge(realm, locks, player, from, n, thing, Is(Atr(num, key)))
    ensures !Judge(realm, locks, player, from, n, thing, Carry(Atr(num, key)))
  {
  }

  /** '/' asks the evaluation for this player of the attribute on the object that asks, or on the one whose lock it is. */
  lemma EvalAsks(realm: Realm, locks: int -> Lock, player: int, from: int, n: nat, thing: int, num: int, key: string)
    requires realm.isAttr(num)
    ensures Judge(realm, locks, player, from, n, thing, Eval(num, key)) <==> realm.evalAttr(player, thing, from, num, key)
  {
  }

  /** '!' turns the verdict, '&' and '|' join two, the open lock lets everybody pass, and '@' is the lock of the object it
      names, as that object's lock and one level deeper, shut at the limit. */
  lemma Connectives(realm: Realm, locks: int -> Lock, player: int, from: int, n: nat, thing: int, l: Lock, r: Lock, x: int)
    ensures Judge(realm, locks, player, from, n, thing, Not(l)) <==> !Judge(realm, locks, player, from, n, thing, l)
    ensures Judge(realm, locks, player, from, n, thing, And(l, r)) <==>
            Judge(realm, locks, player, from, n, thing, l) && Judge(realm, locks, player, from, n, thing, r)
    ensures Judge(realm, locks, player, from, n, thing, Or(l, r)) <==>
            Judge(realm, locks, player, from, n, thing, l) || Judge(realm, locks, player, from, n, thing, r)
    ensures Judge(realm, locks, player, from, n, thing, Open)
    ensures Judge(realm, locks, player, from, n, thing, Indir(Const(x))) <==>
            n > 0 && x >= 0 && Judge(realm, locks, player, from, n - 1, x, locks(x))
  {
  }

  /** No '!' in a lock */
  predicate NoNot(b: Lock) {
    match b
    case Not(_) => false
    case And(l, r) => NoNot(l) && NoNot(r)
    case Or(l, r) => NoNot(l) && NoNot(r)
    case _ => true
  }

  /** Carrying more never shuts a lock without '!', through references as well. */
  lemma {:induction false} MoreOpensMore(realm: Realm, locks: int -> Lock, player: int, from: int, n: nat, thing: int, b: Lock, objs: seq<int>)
    requires NoNot(b) && forall x :: NoNot(locks(x))
    requires forall y :: y in realm.contents(player) ==> y in objs
    requires Judge(realm, locks, player, from, n, thing, b)
    ensures Judge(Carrying(realm, player, objs), locks, player, from, n, thing, b)
    decreases n, b
  {
    match b
    case And(l, r) =>
      MoreOpensMore(realm, locks, player, from, n, thing, l, objs);
      MoreOpensMore(realm, locks, player, from, n, thing, r, objs);
    case Or(l, r) =>
      if Judge(realm, locks, player, from, n, thing, l) { MoreOpensMore(realm, locks, player, from, n, thing, l, objs); }
      else { MoreOpensMore(realm, locks, player, from, n, thing, r, objs); }
    case Indir(l) =>
      if n > 0 && l.Const? && l.thing >= 0 { MoreOpensMore(realm, locks, player, from, n - 1, l.thing, locks(l.thing), objs); }
    case Atr(num, key) => MoreCarried(realm, player, from, num, key, objs);
    case Carry(Atr(num, key)) => MoreCarried(realm, player, from, num, key, objs);
    case _ =>
  }

  lemma MoreCarried(realm: Realm, player: int, from: int, num: int, key: string, objs: seq<int>)
    requires forall y :: y in realm.contents(player) ==> y in objs
    ensures AnyCarried(realm, player, from, num, key) ==> AnyCarried(Carrying(realm, player, objs), player, from, num, key)
  {
    var was := realm.contents(player);
    if AnyCarried(realm, player, from, num, key) {
      var i :| 0 <= i < |was| && realm.checkAttr(was[i], from, num, key);
      assert was[i] in was;
      var j :| 0 <= j < |objs| && objs[j] == was[i];
      assert Carrying(realm, player, objs).contents(player)[j] == was[i];
    }
  }

  /** The same with the stored locks as the player reads them, which what it carries does not change */
  lemma MorePasses(realm: Realm, player: int, from: int, n: nat, thing: int, b: Lock, objs: seq<int>)
    requires (forall x :: NoNot(StoredLock(realm, player, x))) && NoNot(b)
    requires forall y :: y in realm.contents(player) ==> y in objs
    ensures forall x :: StoredLock(Carrying(realm, player, objs), player, x) == StoredLock(realm, player, x)
    ensures Holds(realm, player, from, n, thing, b) ==> Holds(Carrying(realm, player, objs), player, from, n, thing, b)
  {
    var realm', locks := Carrying(realm, player, objs), Reads(realm, player);
    if Holds(realm, player, from, n, thing, b) {
      MoreOpensMore(realm, locks, player, from, n, thing, b, objs);
      SameReading(locks, Reads(realm', player), n, thing, b);
    }
  }

  lemma {:induction false} SameReading(locks: int -> Lock, locks': int -> Lock, n: nat, thing: int, b: Lock)
    requires forall x :: locks'(x) == locks(x)
    ensures Expand(locks', n, thing, b) == Expand(locks, n, thing, b)
    decreases n, b
  {
    match b
    case And(l, r) => SameReading(locks, locks', n, thing, l); SameReading(locks, locks', n, thing, r);
    case Or(l, r) => SameReading(locks, locks', n, thing, l); SameReading(locks, locks', n, thing, r);
    case Not(l) => SameReading(locks, locks', n, thing, l);
    case Indir(l) => if n > 0 && l.Const? && l.thing >= 0 { SameReading(locks, locks', n - 1, l.thing, locks(l.thing)); }
    case _ =>
  }

  /** A stored lock "(#5)", as it is printed for #5, is a keyhole: it opens for #5 itself and for who carries it. */
  lemma KeyOpens(realm: Realm, player: int, from: int, n: nat, thing: int, x: nat)
    requires realm.goodObj(x) && realm.lockText(thing) == "(#" + Show(x) + ")"
    ensures Holds(realm, player, from, n, thing, StoredLock(realm, player, thing)) <==>
            player == x || x in realm.contents(player)
  {
    hide Parse, Show;
    ReparseIsNormal(EnvOf(realm, player), num => None, Const(x));
    assert StoredLock(realm, player, thing) == Const(x);
  }
}
