/**
 The attribute store of src/db.c in the build without MEMORY_BASED: attributes in a keyed store, and for each object
 a coded list of its attribute numbers, kept in the store under A_LIST.  One list at a time is held in a buffer and
 written back when another one is needed.
 */
module AttrStore {
  import opened AttrCode
  import opened Options
  import opened PointerLists

  const A_LIST := 253
  const NOTHING := -1
  const ATR_BUF_CHUNK := 100

  // ------------------------------------------------------------------ scans over one buffer

  /** al_decode at the front of a list */
  method AlNext(buf: array<Byte>, p: nat, ghost list: seq<nat>) returns (n: nat, q: nat)
    requires Holds(buf[..], p, list) && list != []
    ensures n == list[0] && q == p + |Code(n)| && Holds(buf[..], q, list[1..])
  {
    hide Holds, Code, Decode, Ended;
    HoldsNext(buf[..], p, list);
    assert buf[..][p..] == buf[p..];
    n, q := AlDecode(buf, p);
  }

  /** The search loop of al_add: whether the number is there, and the end of the list */
  method AlSearch(buf: array<Byte>, attrnum: nat, ghost list: seq<nat>) returns (found: bool, cp: nat)
    requires Holds(buf[..], 0, list)
    ensures found <==> attrnum in list
    ensures !found ==> cp == |Codes(list)|
  {
    hide Holds, Code, Codes;
    cp := 0;
    ghost var rest := list;
    assert Before(list, rest, cp) by { WholeBefore(list); }
    HoldsEnd(buf[..], 0, list);
    while buf[cp] != 0
      invariant cp < buf.Length && Holds(buf[..], cp, rest) && Before(list, rest, cp)
      invariant buf[cp] == 0 <==> rest == []
      invariant attrnum in list <==> attrnum in rest
      decreases |rest|
    {
      var anum;
      StepBefore(list, rest, cp);
      anum, cp := AlNext(buf, cp, rest);
      if anum == attrnum { return true, cp; }
      rest := rest[1..];
      HoldsEnd(buf[..], cp, rest);
    }
    EndBefore(list, cp);
    return false, cp;
  }

  /** rest is what a scan of list has before it at offset p. */
  ghost predicate Before(list: seq<nat>, rest: seq<nat>, p: nat) {
    |rest| <= |list| && list[|list| - |rest|..] == rest && p + |Codes(rest)| == |Codes(list)|
  }

  lemma WholeBefore(list: seq<nat>)
    ensures Before(list, list, 0)
  {
  }

  lemma StepBefore(list: seq<nat>, rest: seq<nat>, p: nat)
    requires Before(list, rest, p) && rest != []
    ensures Before(list, rest[1..], p + |Code(rest[0])|)
  {
  }

  lemma EndBefore(list: seq<nat>, p: nat)
    requires Before(list, [], p)
    ensures p == |Codes(list)|
  {
  }

  /** The end of al_add: the number is written over the zero byte at cp. */
  method AlAppend(buf: array<Byte>, attrnum: nat, cp: nat, ghost list: seq<nat>)
    requires Holds(buf[..], 0, list) && cp == |Codes(list)| && 0 < attrnum < 0x8000_0000
    requires cp + ATR_BUF_INCR <= buf.Length
    modifies buf
    ensures Holds(buf[..], 0, list + [attrnum])
    ensures forall i :: cp + ATR_BUF_INCR <= i < buf.Length ==> buf[i] == old(buf[i])
  {
    CodeFits(attrnum);
    CodesAppend(list, [attrnum]);
    CodesOne(attrnum);
    hide Code, Codes;
    assert buf[..cp] == Codes(list) by { assert buf[..][0..cp] == buf[..cp]; }
    var q := AlCode(buf, cp, attrnum);
    buf[q] := 0;
    assert buf[..][0..q] == Codes(list + [attrnum]);
  }

  /** The inner loop of al_delete: everything behind the deleted number moves down, one number at a time.  The
      writer dp stays behind the reader cp. */
  method AlMove(buf: array<Byte>, from: nat, to: nat, ghost kept: seq<nat>, ghost rest: seq<nat>)
    requires to < from && Holds(buf[..], from, rest) && Positive(kept) && buf[..to] == Codes(kept)
    modifies buf
    ensures Holds(buf[..], 0, kept + rest)
  {
    hide Holds, Code, Codes;
    var cp: nat, dp: nat := from, to;
    ghost var done, left := kept, rest;
    HoldsEnd(buf[..], cp, left);
    while buf[cp] != 0
      invariant dp < cp < buf.Length && Holds(buf[..], cp, left) && Positive(done) && buf[..dp] == Codes(done)
      invariant buf[cp] == 0 <==> left == []
      invariant done + left == kept + rest
      decreases |left|
    {
      ghost var was := buf[..];
      var anum, q := AlNext(buf, cp, left);
      HoldsPositive(was, cp, left);
      HoldsEnd(was, q, left[1..]);
      dp := AlCode(buf, dp, anum);
      HoldsKept(was, buf[..], q, left[1..]);
      cp := q;
      CodesAppend(done, [anum]);
      CodesOne(anum);
      assert done + [anum] + left[1..] == done + left;
      done, left := done + [anum], left[1..];
      HoldsEnd(buf[..], cp, left);
    }
    buf[dp] := 0;
    assert done + left == done;
    CloseList(buf[..], done);
  }

  lemma HoldsPositive(s: seq<Byte>, p: nat, list: seq<nat>)
    requires Holds(s, p, list) && list != []
    ensures 0 < list[0] < 0x8000_0000
  {
  }

  /** Holding a list depends on the bytes from p on only. */
  lemma HoldsKept(s: seq<Byte>, s': seq<Byte>, p: nat, list: seq<nat>)
    requires Holds(s, p, list) && |s| == |s'| && forall i :: p <= i < |s| ==> s[i] == s'[i]
    ensures Holds(s', p, list)
  {
  }

  lemma CloseList(s: seq<Byte>, list: seq<nat>)
    requires Positive(list) && |Codes(list)| < |s| && s[..|Codes(list)|] == Codes(list) && s[|Codes(list)|] == 0
    ensures Holds(s, 0, list)
  {
  }

  /** The loops of al_delete: the old list without the one number, written in place */
  method AlRemove(buf: array<Byte>, attrnum: nat, ghost list: seq<nat>)
    requires Holds(buf[..], 0, list) && Distinct(list)
    modifies buf
    ensures Holds(buf[..], 0, Without(list, attrnum))
  {
    hide Holds, Code, Codes, Distinct;
    var cp: nat := 0;
    ghost var i: nat := 0;
    assert list[0..] == list;
    HoldsEnd(buf[..], 0, list);
    CodesEmpty();
    assert buf[..0] == Codes(list[..0]);
    while buf[cp] != 0
      invariant i <= |list| && cp < buf.Length && Holds(buf[..], cp, list[i..]) && buf[..cp] == Codes(list[..i])
      invariant buf[cp] == 0 <==> i == |list|
      invariant attrnum !in list[..i] && Holds(buf[..], 0, list)
      decreases |list| - i
    {
      var dp := cp;
      var anum;
      ghost var rest := list[i..];
      assert rest[0] == list[i] && rest[1..] == list[i + 1..];
      anum, cp := AlNext(buf, cp, rest);
      if anum == attrnum {
        PrefixPositive(buf[..], list, i);
        CodeSome(anum);
        AlMove(buf, cp, dp, list[..i], list[i + 1..]);
        WithoutAt(list, i);
        return;
      }
      GoneBy(buf[..], dp, list, i);
      i := i + 1;
      HoldsEnd(buf[..], cp, list[i..]);
    }
    assert list[..i] == list;
  }

  lemma CodesEmpty() ensures Codes([]) == [] { }

  lemma CodeSome(n: nat) ensures |Code(n)| > 0 { }

  lemma PrefixPositive(s: seq<Byte>, list: seq<nat>, i: nat)
    requires Holds(s, 0, list) && i <= |list|
    ensures Positive(list[..i])
  {
  }

  /** A scan has passed the number at index i. */
  lemma GoneBy(s: seq<Byte>, p: nat, list: seq<nat>, i: nat)
    requires i < |list| && p <= |s| && s[..p] == Codes(list[..i]) && Holds(s, p, list[i..])
    ensures p + |Code(list[i])| <= |s| && s[..p + |Code(list[i])|] == Codes(list[..i + 1])
  {
    hide Code;
    assert list[i..][0] == list[i];
    assert list[..i + 1] == list[..i] + [list[i]];
    CodesAppend(list[..i], [list[i]]);
    CodesOne(list[i]);
    Window(s, p, Code(list[i]), Codes(list[i..][1..]));
    var q := p + |Code(list[i])|;
    assert s[p..] == Code(list[i]) + s[q..];
    assert s[..q] == s[..p] + s[p..][..|Code(list[i])|];
  }

  /** Copying a string out of a buffer: the bytes before the first zero */
  method CString(buf: array<Byte>, ghost list: seq<nat>) returns (s: seq<Byte>)
    requires Holds(buf[..], 0, list)
    ensures s == Codes(list)
  {
    hide Codes, Code;
    CodesNoZero(list);
    ghost var c := Codes(list);
    assert forall i :: 0 <= i < |c| ==> c[i] == buf[..][0..|c|][i] == buf[i];
    var i := 0;
    while buf[i] != 0
      invariant 0 <= i <= |c|
      decreases |c| - i
    {
      i := i + 1;
    }
    s := buf[..i];
    assert s == c;
  }

  // ------------------------------------------------------------------ the store

  type Key = (int, int)

  /** The list of an object in the store */
  function Stored(db: map<Key, seq<Byte>>, t: int): seq<Byte> { if (t, A_LIST) in db then db[(t, A_LIST)] else [] }

  function Of(lists: map<int, seq<nat>>, t: int): seq<nat> { if t in lists then lists[t] else [] }

  ghost predicate GoodList(list: seq<nat>) { Positive(list) && Distinct(list) && A_LIST !in list }

  /** The buffer holds the list of modAlId; every other list is in the store. */
  ghost predicate Cached(db: map<Key, seq<Byte>>, modAlId: int, buf: seq<Byte>, lists: map<int, seq<nat>>) {
    && (modAlId != NOTHING ==> Holds(buf, 0, Of(lists, modAlId)))
    && (forall t :: t >= 0 && t != modAlId ==> Stored(db, t) == Codes(Of(lists, t)))
    && (forall t :: GoodList(Of(lists, t)))
  }

  function Lookup(db: map<Key, seq<Byte>>, t: int, n: int): Option<seq<Byte>> {
    if (t, n) in db then Some(db[(t, n)]) else None
  }

  /** The lists name exactly the attributes in the store. */
  ghost predicate Exact(db: map<Key, seq<Byte>>, lists: map<int, seq<nat>>) {
    forall t, n: nat :: n != A_LIST ==> (Lookup(db, t, n).Some? <==> n in Of(lists, t))
  }

  /** Two stores with the same attributes, lists aside */
  ghost predicate SameTexts(db: map<Key, seq<Byte>>, db': map<Key, seq<Byte>>) {
    forall t, n :: n != A_LIST ==> Lookup(db, t, n) == Lookup(db', t, n)
  }

  lemma CachedOf(db: map<Key, seq<Byte>>, id: int, buf: seq<Byte>, lists: map<int, seq<nat>>)
    requires Cached(db, id, buf, lists)
    ensures id != NOTHING ==> Holds(buf, 0, Of(lists, id)) && GoodList(Of(lists, id)) && Distinct(Of(lists, id))
  {
  }

  /** al_store: the list in the buffer goes to the store. */
  lemma CachedStore(db: map<Key, seq<Byte>>, id: int, buf: seq<Byte>, lists: map<int, seq<nat>>, db': map<Key, seq<Byte>>)
    requires Cached(db, id, buf, lists) && id != NOTHING
    requires var s := Codes(Of(lists, id)); db' == if s == [] then db - {(id, A_LIST)} else db[(id, A_LIST) := s]
    ensures Cached(db', NOTHING, buf, lists) && SameTexts(db, db')
  {
    hide Codes, GoodList, Holds;
    forall t | t >= 0 ensures Stored(db', t) == Codes(Of(lists, t)) {
      assert t != id ==> Stored(db', t) == Stored(db, t);
    }
  }

  /** al_fetch: a list comes into the buffer. */
  lemma CachedFetch(db: map<Key, seq<Byte>>, thing: int, buf: seq<Byte>, lists: map<int, seq<nat>>, buf': seq<Byte>)
    requires Cached(db, NOTHING, buf, lists)
    requires Holds(buf', 0, Of(lists, thing))
    ensures Cached(db, thing, buf', lists)
  {
    hide Holds, Codes, GoodList;
  }

  /** A change of the list in the buffer */
  lemma CachedChange(db: map<Key, seq<Byte>>, id: int, buf: seq<Byte>, lists: map<int, seq<nat>>, buf': seq<Byte>, list: seq<nat>)
    requires Cached(db, id, buf, lists) && id != NOTHING && GoodList(list) && Holds(buf', 0, list)
    ensures Cached(db, id, buf', lists[id := list])
  {
    hide Holds, Codes, GoodList;
    var lists' := lists[id := list];
    forall t ensures GoodList(Of(lists', t)) && (t >= 0 && t != id ==> Stored(db, t) == Codes(Of(lists', t))) {
      assert Of(lists', t) == if t == id then list else Of(lists, t);
    }
  }

  /** The list of an object that is not in the buffer is cleared. */
  lemma CachedDestroy(db: map<Key, seq<Byte>>, id: int, buf: seq<Byte>, lists: map<int, seq<nat>>, db': map<Key, seq<Byte>>, thing: int)
    requires Cached(db, id, buf, lists) && thing >= 0 && id != thing && db' == db - {(thing, A_LIST)}
    ensures Cached(db', id, buf, lists[thing := []])
  {
    hide Holds, Codes, GoodList;
    CodesEmpty();
    EmptyIsGood();
    var lists' := lists[thing := []];
    forall t ensures GoodList(Of(lists', t)) && (t >= 0 && t != id ==> Stored(db', t) == Codes(Of(lists', t))) {
      assert Of(lists', t) == if t == thing then [] else Of(lists, t);
    }
  }

  lemma NotListed(db: map<Key, seq<Byte>>, id: int, buf: seq<Byte>, lists: map<int, seq<nat>>, t: int)
    requires Cached(db, id, buf, lists)
    ensures A_LIST !in Of(lists, t)
  {
    assert GoodList(Of(lists, t));
  }

  lemma EmptyIsGood() ensures GoodList([]) { }

  lemma DestroyedExact(db: map<Key, seq<Byte>>, db': map<Key, seq<Byte>>, lists: map<int, seq<nat>>, lists': map<int, seq<nat>>, thing: int)
    requires SameTexts(db, db') && lists' == lists[thing := []]
    requires A_LIST !in Of(lists, thing)
    ensures Exact(db, lists) ==> (Exact(db', lists') <==> Of(lists, thing) == [])
  {
    if Exact(db, lists) {
      forall t ensures Of(lists', t) == if t == thing then [] else Of(lists, t) { }
      if Of(lists, thing) != [] {
        var n := Of(lists, thing)[0];
        assert n in Of(lists, thing) && n != A_LIST && Lookup(db, thing, n).Some? && Lookup(db', thing, n).Some?;
        assert n !in Of(lists', thing);
      }
    }
  }

  class AttrDb {
    var db: map<Key, seq<Byte>>
    var modAlId: int
    var modAlist: array<Byte>
    /** The attribute list of each object, wherever it is at the moment */
    ghost var lists: map<int, seq<nat>>

    constructor ()
      ensures Valid() && db == map[] && lists == map[] && fresh(modAlist)
    {
      db, modAlId, lists := map[], NOTHING, map[];
      modAlist := new Byte[0];
    }

    ghost predicate CacheValid()
      reads this, modAlist
    {
      Cached(db, modAlId, modAlist[..], lists)
    }

    /** Between calls: each list names exactly the attributes the object has. */
    ghost predicate Valid()
      reads this, modAlist
    {
      CacheValid() && Exact(db, lists)
    }

    /** al_extend on the buffer */
    method AlExtend(len: nat, copy: bool)
      modifies this`modAlist
      ensures modAlist.Length >= len && (modAlist == old(modAlist) || fresh(modAlist))
      ensures copy ==> old(modAlist.Length) <= modAlist.Length && modAlist[..old(modAlist.Length)] == old(modAlist[..])
      ensures old(modAlist.Length) >= len ==> modAlist == old(modAlist)
    {
      if len > modAlist.Length {
        var tbuff := new Byte[len + ATR_BUF_CHUNK];
        if copy {
          var i := 0;
          while i < modAlist.Length
            modifies tbuff
            invariant 0 <= i <= modAlist.Length && tbuff[..i] == modAlist[..i]
          {
            tbuff[i] := modAlist[i];
            i := i + 1;
          }
        }
        modAlist := tbuff;
      }
    }

    /** al_store */
    method AlStore()
      requires CacheValid()
      modifies this`db, this`modAlId
      ensures CacheValid() && modAlId == NOTHING && SameTexts(old(db), db)
    {
      hide Cached, Codes, Holds, GoodList;
      if modAlId != NOTHING {
        CachedOf(db, modAlId, modAlist[..], lists);
        var s := CString(modAlist, Of(lists, modAlId));
        ghost var was := db;
        if s != [] { db := db[(modAlId, A_LIST) := s]; } else { db := db - {(modAlId, A_LIST)}; }
        CachedStore(was, modAlId, modAlist[..], lists, db);
      }
      modAlId := NOTHING;
    }

    /** al_fetch */
    method AlFetch(thing: int)
      requires CacheValid() && thing >= 0
      modifies this`db, this`modAlId, this`modAlist, modAlist
      ensures CacheValid() && modAlId == thing && SameTexts(old(db), db)
      ensures modAlist == old(modAlist) || fresh(modAlist)
    {
      hide Cached, Codes, Holds, GoodList;
      if modAlId == thing { return; }
      AlStore();
      ghost var was := modAlist[..];
      ghost var list := Of(lists, thing);
      StoredIs(db, thing, was, lists);
      var astr := Stored(db, thing);
      AlExtend(|astr| + 1, false);
      var i := 0;
      while i < |astr|
        invariant 0 <= i <= |astr| < modAlist.Length && modAlist[..i] == astr[..i]
        modifies modAlist
      {
        modAlist[i] := astr[i];
        i := i + 1;
      }
      modAlist[i] := 0;
      GoodIsPositive(list);
      CloseList(modAlist[..], list);
      CachedFetch(db, thing, was, lists, modAlist[..]);
      modAlId := thing;
    }

    /** al_add */
    method AlAdd(thing: int, attrnum: nat)
      requires CacheValid() && thing >= 0 && 0 < attrnum < 0x8000_0000
      modifies this, modAlist
      ensures CacheValid() && SameTexts(old(db), db) && (modAlist == old(modAlist) || fresh(modAlist))
      ensures lists == if attrnum == A_LIST then old(lists) else old(lists)[thing := Plus(Of(old(lists), thing), attrnum)]
    {
      hide Cached, Codes, Holds, GoodList, Distinct;
      if attrnum == A_LIST { return; }
      AlFetch(thing);
      ghost var list := Of(lists, thing);
      CachedOf(db, thing, modAlist[..], lists);
      var found, cp := AlSearch(modAlist, attrnum, list);
      ghost var was := modAlist[..];
      if !found {
        AlExtend(cp + ATR_BUF_INCR, true);
        HoldsGrown(was, modAlist[..], list);
        AlAppend(modAlist, attrnum, cp, list);
        PlusGood(list, attrnum);
      }
      CachedChange(db, thing, was, lists, modAlist[..], Plus(list, attrnum));
      lists := lists[thing := Plus(list, attrnum)];
    }

    /** al_delete */
    method AlDelete(thing: int, attrnum: nat)
      requires CacheValid() && thing >= 0
      modifies this, modAlist
      ensures CacheValid() && SameTexts(old(db), db) && (modAlist == old(modAlist) || fresh(modAlist))
      ensures lists == if attrnum == A_LIST then old(lists) else old(lists)[thing := Without(Of(old(lists), thing), attrnum)]
    {
      hide Cached, Codes, Holds, GoodList, Distinct;
      if attrnum == A_LIST { return; }
      AlFetch(thing);
      ghost var list := Of(lists, thing);
      ghost var was := modAlist[..];
      CachedOf(db, thing, was, lists);
      AlRemove(modAlist, attrnum, list);
      WithoutGood(list, attrnum);
      CachedChange(db, thing, was, lists, modAlist[..], Without(list, attrnum));
      lists := lists[thing := Without(list, attrnum)];
    }

    /** atr_add_raw; clients keep off A_LIST */
    method AtrAddRaw(thing: int, atr: nat, buff: seq<Byte>)
      requires Valid() && thing >= 0 && 0 < atr < 0x8000_0000 && atr != A_LIST
      modifies this, modAlist
      ensures Valid() && (modAlist == old(modAlist) || fresh(modAlist))
      ensures Replaced(old(db), db, thing, atr, if buff == [] then None else Some(buff))
    {
      hide Cached, Codes, Holds, GoodList;
      if buff == [] {
        AtrClr(thing, atr);
        return;
      }
      ghost var was := db;
      db := db[(thing, atr) := buff];
      CachedElsewhere(was, db, modAlId, modAlist[..], lists);
      assert Replaced(was, db, thing, atr, Some(buff));
      ghost var mid, before := db, lists;
      AlAdd(thing, atr);
      ReplacedSame(was, mid, db, thing, atr, Some(buff));
      ExactAfter(was, db, before, lists, thing, atr, Some(buff));
    }

    /** atr_clr */
    method AtrClr(thing: int, atr: nat)
      requires Valid() && thing >= 0 && atr != A_LIST
      modifies this, modAlist
      ensures Valid() && (modAlist == old(modAlist) || fresh(modAlist))
      ensures Replaced(old(db), db, thing, atr, None)
      ensures lists == old(lists)[thing := Without(Of(old(lists), thing), atr)]
    {
      hide Cached, Codes, Holds, GoodList;
      ghost var was := db;
      db := db - {(thing, atr)};
      CachedElsewhere(was, db, modAlId, modAlist[..], lists);
      assert Replaced(was, db, thing, atr, None);
      ghost var mid, before := db, lists;
      AlDelete(thing, atr);
      ReplacedSame(was, mid, db, thing, atr, None);
      ExactAfter(was, db, before, lists, thing, atr, None);
    }

    /** atr_get_raw: between calls an attribute is found exactly if the effective list of its object names it, and the
        stored list itself is the code of the effective one unless that one is in the buffer. */
    method AtrGetRaw(thing: int, atr: int) returns (r: Option<seq<Byte>>)
      ensures r == Lookup(db, thing, atr)
      ensures Valid() && 0 <= atr != A_LIST ==> (r.Some? <==> atr in Of(lists, thing))
      ensures Valid() && atr == A_LIST && 0 <= thing != modAlId ==>
              (if r.Some? then r.value else []) == Codes(Of(lists, thing)) && (r == None ==> forall n: nat :: n != A_LIST ==> (thing, n) !in db)
    {
      hide Codes, Holds, GoodList;
      CodesEmpty();
      if Valid() && atr == A_LIST && 0 <= thing != modAlId { ListCodes(db, modAlId, modAlist[..], lists, thing); }
      r := if (thing, atr) in db then Some(db[(thing, atr)]) else None;
    }

    /** atr_head: the list is copied, so that the caller may change it during the walk; 0 ends the walk. */
    method AtrHead(thing: int) returns (copy: array<Byte>, cp: nat, n: nat)
      requires Valid() && thing >= 0
      ensures fresh(copy)
      ensures n == First(Of(lists, thing)) && Holds(copy[..], cp, Rest(Of(lists, thing)))
    {
      hide Codes, Code, GoodList, Exact;
      ghost var list := Of(lists, thing);
      assert GoodList(list);
      GoodIsPositive(list);
      var astr;
      if thing == modAlId { astr := CString(modAlist, list); } else { astr := Stored(db, thing); }
      copy := new Byte[|astr| + 1];
      var i := 0;
      while i < |astr|
        invariant 0 <= i <= |astr| && copy[..i] == astr[..i]
        modifies copy
      {
        copy[i] := astr[i];
        i := i + 1;
      }
      copy[i] := 0;
      CloseList(copy[..], list);
      n, cp := AtrNext(copy, 0, list);
    }

    /** al_destroy: the list is gone from buffer and store; the lists still name exactly the attributes if and only if
        the object had none. */
    method AlDestroy(thing: int)
      requires CacheValid() && thing >= 0
      modifies this, modAlist
      ensures CacheValid() && SameTexts(old(db), db) && (thing, A_LIST) !in db
      ensures lists == old(lists)[thing := []] && modAlist == old(modAlist)
      ensures old(Valid()) ==> (Valid() <==> Of(old(lists), thing) == [])
    {
      hide Cached, Codes, Code, GoodList, Holds;
      ghost var start := db;
      NotListed(db, modAlId, modAlist[..], lists, thing);
      if modAlId == thing { AlStore(); }
      ghost var was := db;
      db := db - {(thing, A_LIST)};
      CachedDestroy(was, modAlId, modAlist[..], lists, db, thing);
      ghost var before := lists;
      lists := lists[thing := []];
      DestroyedExact(start, db, before, lists, thing);
    }

    /** atr_free: afterwards the object has nothing in the store, and nobody else has lost anything. */
    method AtrFree(thing: int)
      requires Valid() && thing >= 0
      modifies this, modAlist
      ensures Valid() && (forall n: nat :: (thing, n) !in db) && Of(lists, thing) == []
      ensures forall t, n :: t != thing && n != A_LIST ==> Lookup(db, t, n) == Lookup(old(db), t, n)
    {
      hide Cached, Codes, Code, GoodList, Holds, Exact, Distinct;
      var copy, cp, attr := AtrHead(thing);
      ghost var rest := Rest(Of(lists, thing));
      FirstRest(db, modAlId, modAlist[..], lists, thing);
      while attr != 0
        invariant Valid() && copy != modAlist && Holds(copy[..], cp, rest) && (modAlist == old(modAlist) || fresh(modAlist))
        invariant Of(lists, thing) == if attr == 0 then [] else [attr] + rest
        invariant attr == 0 ==> rest == []
        invariant attr != A_LIST
        invariant forall t, n :: t != thing && n != A_LIST ==> Lookup(db, t, n) == Lookup(old(db), t, n)
        decreases |rest|, attr
      {
        ghost var before := lists;
        WithoutFirst(db, modAlId, modAlist[..], lists, thing);
        AtrClr(thing, attr);
        attr, cp := AtrNext(copy, cp, rest);
        FirstRest(db, modAlId, modAlist[..], lists, thing);
        rest := Rest(rest);
      }
      AlDestroy(thing);
      NothingLeft(db, lists, thing);
      assert Of(lists, thing) == [];
    }
  }

  /** atr_next */
  method AtrNext(copy: array<Byte>, cp: nat, ghost list: seq<nat>) returns (n: nat, cp': nat)
    requires Holds(copy[..], cp, list)
    ensures n == First(list) && Holds(copy[..], cp', Rest(list))
  {
    hide Holds, Code, Codes;
    HoldsEnd(copy[..], cp, list);
    if copy[cp] == 0 { return 0, cp; }
    n, cp' := AlNext(copy, cp, list);
  }

  function First(list: seq<nat>): nat { if list == [] then 0 else list[0] }

  function Rest(list: seq<nat>): seq<nat> { if list == [] then [] else list[1..] }

  /** db' is db with one attribute replaced, lists aside. */
  ghost predicate Replaced(db: map<Key, seq<Byte>>, db': map<Key, seq<Byte>>, thing: int, atr: int, text: Option<seq<Byte>>) {
    forall t, n :: n != A_LIST ==> Lookup(db', t, n) == if t == thing && n == atr then text else Lookup(db, t, n)
  }

  lemma ReplacedSame(db: map<Key, seq<Byte>>, mid: map<Key, seq<Byte>>, db': map<Key, seq<Byte>>, thing: int, atr: int,
      text: Option<seq<Byte>>)
    requires Replaced(db, mid, thing, atr, text) && SameTexts(mid, db')
    ensures Replaced(db, db', thing, atr, text)
  {
  }

  /** A change of an attribute does not touch the lists. */
  lemma CachedElsewhere(db: map<Key, seq<Byte>>, db': map<Key, seq<Byte>>, id: int, buf: seq<Byte>, lists: map<int, seq<nat>>)
    requires Cached(db, id, buf, lists) && forall t :: Stored(db, t) == Stored(db', t)
    ensures Cached(db', id, buf, lists)
  {
    hide Holds, Codes, GoodList;
  }

  lemma ExactAfter(db: map<Key, seq<Byte>>, db': map<Key, seq<Byte>>, lists: map<int, seq<nat>>, lists': map<int, seq<nat>>,
      thing: int, atr: nat, text: Option<seq<Byte>>)
    requires Exact(db, lists) && Replaced(db, db', thing, atr, text) && atr != A_LIST
    requires lists' == lists[thing := if text.Some? then Plus(Of(lists, thing), atr) else Without(Of(lists, thing), atr)]
    ensures Exact(db', lists')
  {
    forall t, n: nat | n != A_LIST ensures Lookup(db', t, n).Some? <==> n in Of(lists', t) {
      assert Of(lists', t) == if t != thing then Of(lists, t)
        else if text.Some? then Plus(Of(lists, thing), atr) else Without(Of(lists, thing), atr);
    }
  }

  lemma FirstRest(db: map<Key, seq<Byte>>, id: int, buf: seq<Byte>, lists: map<int, seq<nat>>, t: int)
    requires Cached(db, id, buf, lists)
    ensures var list := Of(lists, t);
      First(list) != A_LIST && (First(list) == 0 <==> list == []) && (list != [] ==> list == [First(list)] + Rest(list))
  {
    assert GoodList(Of(lists, t));
  }

  lemma WithoutFirst(db: map<Key, seq<Byte>>, id: int, buf: seq<Byte>, lists: map<int, seq<nat>>, t: int)
    requires Cached(db, id, buf, lists) && Of(lists, t) != []
    ensures Without(Of(lists, t), First(Of(lists, t))) == Rest(Of(lists, t))
  {
    assert GoodList(Of(lists, t));
    WithoutAt(Of(lists, t), 0);
  }

  lemma NothingLeft(db: map<Key, seq<Byte>>, lists: map<int, seq<nat>>, thing: int)
    requires Exact(db, lists) && Of(lists, thing) == []
    ensures forall n: nat :: n != A_LIST ==> (thing, n) !in db
  {
    forall n: nat | n != A_LIST ensures (thing, n) !in db { assert Lookup(db, thing, n) == None; }
  }

  function Plus(list: seq<nat>, n: nat): seq<nat> { if n in list then list else list + [n] }

  lemma PlusGood(list: seq<nat>, n: nat)
    requires GoodList(list) && 0 < n < 0x8000_0000 && n != A_LIST
    ensures GoodList(Plus(list, n))
  {
  }

  lemma WithoutGood(list: seq<nat>, n: nat)
    requires GoodList(list)
    ensures GoodList(Without(list, n))
  {
    WithoutDistinct(list, n);
    var r := Without(list, n);
    forall i | 0 <= i < |r| ensures 0 < r[i] < 0x8000_0000 { assert r[i] in r; }
  }

  lemma GoodIsPositive(list: seq<nat>)
    requires GoodList(list)
    ensures Positive(list)
  {
  }

  lemma HoldsGrown(s: seq<Byte>, s': seq<Byte>, list: seq<nat>)
    requires Holds(s, 0, list) && |s| <= |s'| && s'[..|s|] == s
    ensures Holds(s', 0, list)
  {
    hide Codes;
    var k := |Codes(list)|;
    assert s'[0..k] == s'[..|s|][0..k];
    assert s'[k] == s'[..|s|][k];
  }

  /** The stored list of an object whose list is not in the buffer */
  lemma ListCodes(db: map<Key, seq<Byte>>, id: int, buf: seq<Byte>, lists: map<int, seq<nat>>, t: int)
    requires Cached(db, id, buf, lists) && Exact(db, lists) && 0 <= t != id
    ensures Stored(db, t) == Codes(Of(lists, t))
    ensures Lookup(db, t, A_LIST) == None ==> forall n: nat :: n != A_LIST ==> (t, n) !in db
  {
    GoodIsPositive(Of(lists, t));
    if Lookup(db, t, A_LIST) == None {
      NoCodes(Of(lists, t));
      NothingLeft(db, lists, t);
    }
  }

  lemma NoCodes(list: seq<nat>)
    requires Codes(list) == []
    ensures list == []
  {
    hide Code;
    if list != [] { CodeSome(list[0]); }
  }

  lemma StoredIs(db: map<Key, seq<Byte>>, t: int, buf: seq<Byte>, lists: map<int, seq<nat>>)
    requires Cached(db, NOTHING, buf, lists) && t >= 0
    ensures Stored(db, t) == Codes(Of(lists, t)) && GoodList(Of(lists, t))
  {
  }
}
