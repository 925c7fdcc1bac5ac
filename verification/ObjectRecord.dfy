module ObjectRecord {
  /*
   Object records of the flat file: db_write_object, get_list and the '!' record of db_read in src/db_rw.c, in the
   server's own build and the MUX format.  Output functions take the text that will follow.
   */

  import opened Decimal
  import opened FlatFile
  import opened LockFile
  import opened Locks
  import opened Options

  const A_MONEY := 25
  const A_LOCK := 42
  const A_NAME := 43
  const A_LIST := 253
  const NOTHING := -1

  // ------------------------------------------------------------------ the format word

  const V_ZONE := 0x100
  const V_LINK := 0x200
  const V_GDBM := 0x400
  const V_ATRNAME := 0x800
  const V_ATRKEY := 0x1000
  const V_PARENT := 0x2000
  const V_ATRMONEY := 0x8000
  const V_XFLAGS := 0x1_0000
  const V_POWERS := 0x2_0000
  const V_3FLAGS := 0x4_0000
  const V_QUOTED := 0x8_0000

  /** A bit of a 32-bit word; `bit` is a power of two. */
  predicate Has(word: int, bit: int)
    requires bit > 0
  {
    word / bit % 2 == 1
  }

  function Clear(word: int, bit: int): int
    requires bit > 0
  {
    if Has(word, bit) then word - bit else word
  }

  /** What the reader expects in a record, as the "+X" header sets it */
  datatype Config = Config(attribs: bool, name: bool, zone: bool, link: bool, key: bool, parent: bool, money: bool,
    xflags: bool, flags3: bool, powers: bool, newStrings: bool)

  const PlainConfig := Config(true, true, false, false, true, false, true, false, false, false, false)

  function ConfigOf(v: int): Config {
    Config(!Has(v, V_GDBM), !Has(v, V_GDBM) || !Has(v, V_ATRNAME), Has(v, V_ZONE), Has(v, V_LINK), !Has(v, V_ATRKEY),
      Has(v, V_PARENT), !Has(v, V_ATRMONEY), Has(v, V_XFLAGS), Has(v, V_3FLAGS), Has(v, V_POWERS), Has(v, V_QUOTED))
  }

  // ------------------------------------------------------------------ objects

  /** The header words of an object, its attribute list and its attributes.  Name, lock and money are attributes. */
  datatype Obj = Obj(location: int, zone: int, contents: int, exits: int, link: int, next: int, owner: int, parent: int,
    flags: int, flags2: int, flags3: int, powers: int, powers2: int, list: seq<int>, attrs: map<int, string>)

  /** initialize_objects */
  const Blank := Obj(NOTHING, NOTHING, NOTHING, NOTHING, NOTHING, NOTHING, GOD, NOTHING, 0x4005, 0, 0, 0, 0, [], map[])

  datatype Slot = Location | Zone | Contents | Exits | Link | Next | Owner | Parent | Pennies | Flags | Flags2 | Flags3
    | Powers | Powers2

  /** The attribute tables, the lock parser's view for GOD, and the text part of a stored attribute (atr_decode) */
  datatype Tables = Tables(names: Names, mk: MkAttr, env: Env, text: string -> string)

  function Raw(o: Obj, n: int): string { if n in o.attrs then o.attrs[n] else "" }

  /** atr_add_raw: the empty text clears the attribute. */
  function SetAttr(o: Obj, n: int, s: string): Obj {
    if s == "" then o.(attrs := o.attrs - {n}, list := Drop(o.list, n))
    else o.(attrs := o.attrs[n := s], list := if n in o.list then o.list else o.list + [n])
  }

  function Drop(list: seq<int>, n: int): seq<int> {
    if list == [] then [] else if list[0] == n then list[1..] else [list[0]] + Drop(list[1..], n)
  }

  function Name(tb: Tables, o: Obj): string { tb.text(Raw(o, A_NAME)) }

  function LockOf(tb: Tables, o: Obj): Lock { Parse(tb.env, tb.text(Raw(o, A_LOCK))) }

  function Fetch(o: Obj, slot: Slot): int {
    match slot
    case Location => o.location case Zone => o.zone case Contents => o.contents case Exits => o.exits
    case Link => o.link case Next => o.next case Owner => o.owner case Parent => o.parent
    case Pennies => Atoi(Raw(o, A_MONEY))
    case Flags => o.flags case Flags2 => o.flags2 case Flags3 => o.flags3 case Powers => o.powers case Powers2 => o.powers2
  }

  function Store(o: Obj, slot: Slot, n: int): Obj {
    match slot
    case Location => o.(location := n) case Zone => o.(zone := n) case Contents => o.(contents := n)
    case Exits => o.(exits := n) case Link => o.(link := n) case Next => o.(next := n) case Owner => o.(owner := n)
    case Parent => o.(parent := n) case Pennies => SetAttr(o, A_MONEY, Show(n)) case Flags => o.(flags := n)
    case Flags2 => o.(flags2 := n) case Flags3 => o.(flags3 := n) case Powers => o.(powers := n)
    case Powers2 => o.(powers2 := n)
  }

  /** s_Name */
  function SetName(o: Obj, s: string): Obj { SetAttr(o, A_NAME, if |s| > MBUF_SIZE then s[..MBUF_SIZE] else s) }

  function SetLock(tb: Tables, o: Obj, b: Lock): Obj { SetAttr(o, A_LOCK, Unparse(tb.names, b, Plain)) }

  const TYPE_PLAYER := 3
  const CONNECTED := 0x4000_0000
  const GOING := 0x4000

  predicate IsPlayer(o: Obj) { o.flags % 8 == TYPE_PLAYER }

  predicate Going(o: Obj) { Has(o.flags, GOING) }

  /** c_Connected on players */
  function Disconnect(o: Obj): Obj { if IsPlayer(o) then o.(flags2 := Clear(o.flags2, CONNECTED)) else o }

  // ------------------------------------------------------------------ writing

  function PutSlot(on: bool, o: Obj, slot: Slot, t: string): string { if on then PutRef(Fetch(o, slot), t) else t }

  /** Which attributes go into the list of a record */
  predicate Saved(tb: Tables, v: int, n: int) {
    && n > 0 && tb.names(n).Some?
    && (if n == A_NAME then Has(v, V_ATRNAME) else if n == A_LOCK then Has(v, V_ATRKEY) else n != A_LIST && n != A_MONEY)
  }

  function PutAttrs(tb: Tables, v: int, o: Obj, list: seq<int>, t: string): string {
    if list == [] then "<\n" + t
    else if Saved(tb, v, list[0]) then
      ">" + PutRef(list[0], PutString(Raw(o, list[0]), PutAttrs(tb, v, o, list[1..], t)))
    else PutAttrs(tb, v, o, list[1..], t)
  }

  /** db_write_object */
  function PutObject(tb: Tables, v: int, panicking: bool, o: Obj, t: string): string {
    var body := PutBody(tb, v, panicking, o, t);
    if Has(v, V_ATRNAME) then body else PutString(Name(tb, o), body)
  }

  /** What follows the name */
  function PutBody(tb: Tables, v: int, panicking: bool, o: Obj, t: string): string {
    PutFront(v, o,
      if Has(v, V_ATRKEY) then PutBack(tb, v, panicking, o, t)
      else PutLock(tb.names, LockOf(tb, o)) + PutBack(tb, v, panicking, o, t))
  }

  function PutFront(v: int, o: Obj, t: string): string {
    PutSlot(true, o, Location, PutSlot(Has(v, V_ZONE), o, Zone, PutSlot(true, o, Contents, PutSlot(true, o, Exits,
      PutSlot(Has(v, V_LINK), o, Link, PutSlot(true, o, Next, t))))))
  }

  function PutBack(tb: Tables, v: int, panicking: bool, o: Obj, t: string): string {
    PutOwner(v, o, PutWords(v, o, if !Has(v, V_GDBM) || panicking then PutAttrs(tb, v, o, o.list, t) else t))
  }

  function PutOwner(v: int, o: Obj, t: string): string {
    PutSlot(true, o, Owner, PutSlot(Has(v, V_PARENT), o, Parent, PutSlot(!Has(v, V_ATRMONEY), o, Pennies, t)))
  }

  function PutWords(v: int, o: Obj, t: string): string {
    PutSlot(true, o, Flags, PutSlot(Has(v, V_XFLAGS), o, Flags2, PutSlot(Has(v, V_3FLAGS), o, Flags3,
      PutSlot(Has(v, V_POWERS), o, Powers, PutSlot(Has(v, V_POWERS), o, Powers2, t)))))
  }

  // ------------------------------------------------------------------ reading

  /** Where a reader stands; Stop: abort() was called, or the input ended inside a record */
  datatype Place = Stop | At(o: Obj, f: string)

  function GetSlot(on: bool, p: Place, slot: Slot): (q: Place)
    ensures q.At? ==> p.At? && |q.f| <= |p.f|
  {
    if p.Stop? || !on then p
    else match GetRef(p.f)
      case None => Stop
      case Some((n, rest)) => At(Store(p.o, slot, n), rest)
  }

  /** A slot that gets a fixed value when the record does not hold it */
  function GetOr(on: bool, p: Place, slot: Slot, n: int): (q: Place)
    ensures q.At? ==> p.At? && |q.f| <= |p.f|
  {
    if p.Stop? || on then GetSlot(true, p, slot) else At(Store(p.o, slot, n), p.f)
  }

  function GetName(cfg: Config, p: Place): (q: Place)
    ensures q.At? ==> p.At? && |q.f| <= |p.f|
  {
    if p.Stop? || !cfg.name then p else var (s, rest) := GetString(cfg.newStrings, p.f); At(SetName(p.o, s), rest)
  }

  function GetLockField(tb: Tables, cfg: Config, p: Place): (q: Place)
    ensures q.At? ==> p.At? && |q.f| <= |p.f|
  {
    if p.Stop? || !cfg.key then p
    else match GetLock(tb.mk, p.f)
      case Abort => Stop
      case Got(b, rest) => At(SetLock(tb, p.o, b), rest)
  }

  /** get_list; it never returns at the end of the input */
  function GetAttrs(newStrings: bool, o: Obj, f: string): (q: Place)
    ensures q.At? ==> |q.f| <= |f|
    decreases |f|
  {
    if f == [] then Stop
    else if f[0] == '>' then
      match GetRef(f[1..])
      case None => Stop
      case Some((n, rest)) =>
        var (s, rest2) := GetString(newStrings, rest);
        GetAttrs(newStrings, if n > 0 then SetAttr(o, n, s) else o, rest2)
    else if f[0] == '\n' then GetAttrs(newStrings, o, f[1..])
    else if f[0] == '<' then At(o, PassNewline(f[1..]))
    else GetAttrs(newStrings, o, GetString(newStrings, f[1..]).1)
  }

  function GetList(cfg: Config, p: Place): (q: Place)
    ensures q.At? ==> p.At? && |q.f| <= |p.f|
  {
    if p.Stop? || !cfg.attribs then p else GetAttrs(cfg.newStrings, p.o, p.f)
  }

  function GetFront(cfg: Config, p: Place): (q: Place)
    ensures q.At? ==> p.At? && |q.f| <= |p.f|
  {
    GetSlot(true, GetOr(cfg.link, GetSlot(true, GetSlot(true, GetSlot(cfg.zone, GetSlot(true, p, Location), Zone),
      Contents), Exits), Link, NOTHING), Next)
  }

  function GetOwner(cfg: Config, p: Place): (q: Place)
    ensures q.At? ==> p.At? && |q.f| <= |p.f|
  {
    GetSlot(cfg.money, GetOr(cfg.parent, GetSlot(true, p, Owner), Parent, NOTHING), Pennies)
  }

  function GetWords(cfg: Config, p: Place): (q: Place)
    ensures q.At? ==> p.At? && |q.f| <= |p.f|
  {
    var flags := GetOr(cfg.flags3, GetOr(cfg.xflags, GetSlot(true, p, Flags), Flags2, 0), Flags3, 0);
    GetSlot(cfg.powers, GetSlot(cfg.powers, flags, Powers), Powers2)
  }

  function GetBack(cfg: Config, p: Place): (q: Place)
    ensures q.At? ==> p.At? && |q.f| <= |p.f|
  {
    GetList(cfg, GetWords(cfg, GetOwner(cfg, p)))
  }

  /** The '!' record, after its number, into the object o */
  function GetObject(tb: Tables, cfg: Config, o: Obj, f: string): (q: Place)
    ensures q.At? ==> |q.f| <= |f|
  {
    match GetBack(cfg, GetLockField(tb, cfg, GetFront(cfg, GetName(cfg, At(o, f)))))
    case Stop => Stop
    case At(r, rest) => At(Disconnect(r), rest)
  }

  // ------------------------------------------------------------------ a record read back

  /** The attribute list names exactly the attributes, each once. */
  ghost predicate Listed(o: Obj) {
    (forall i, j :: 0 <= i < j < |o.list| ==> o.list[i] != o.list[j]) && forall n :: n in o.list <==> n in o.attrs
  }

  lemma {:induction false} Dropped(list: seq<int>, n: int)
    requires forall i, j :: 0 <= i < j < |list| ==> list[i] != list[j]
    ensures forall i, j :: 0 <= i < j < |Drop(list, n)| ==> Drop(list, n)[i] != Drop(list, n)[j]
    ensures forall m :: m in Drop(list, n) <==> m in list && m != n
  {
    if list != [] {
      Dropped(list[1..], n);
      assert forall m :: m in list <==> m == list[0] || m in list[1..];
      var d := Drop(list[1..], n);
      forall k | 0 <= k < |d| ensures d[k] != list[0] { assert d[k] in d; }
    }
  }

  lemma SetKeepsListed(o: Obj, n: int, s: string)
    requires Listed(o)
    ensures Listed(SetAttr(o, n, s))
  {
    Dropped(o.list, n);
  }

  /** Words fit an int, texts fit a buffer, the lock can be written down, and the list names exactly the attributes. */
  ghost predicate Storable(tb: Tables, o: Obj) {
    && (forall slot :: Int(Fetch(o, slot)))
    && (forall n :: n in o.attrs ==> Int(n) && Text(o.attrs[n]) && |o.attrs[n]| < LBUF_SIZE)
    && Listed(o)
    && Text(Name(tb, o)) && |Name(tb, o)| < LBUF_SIZE
    && OneLine(tb.text(Raw(o, A_LOCK))) && AllFindable(tb.mk, tb.names, LockOf(tb, o))
  }

  /** The reader expects what the writer wrote: strings are quoted or there are none, names are missing only together
      with the attribute list, and the list is not written into a file that should not have it. */
  predicate Agreed(v: int, panicking: bool) {
    (Has(v, V_QUOTED) || Has(v, V_ATRNAME)) && (Has(v, V_ATRNAME) ==> Has(v, V_GDBM)) && (panicking ==> !Has(v, V_GDBM))
  }

  /** The text an attribute has after the record of o was read into x */
  function TextAfter(tb: Tables, v: int, x: Obj, o: Obj, n: int): string {
    if !Has(v, V_GDBM) && n in o.attrs && Saved(tb, v, n) then o.attrs[n]
    else if n == A_NAME && !Has(v, V_ATRNAME) then
      var s := Name(tb, o); if |s| > MBUF_SIZE then s[..MBUF_SIZE] else s
    else if n == A_LOCK && !Has(v, V_ATRKEY) then Unparse(tb.names, LockOf(tb, o), Plain)
    else if n == A_MONEY && !Has(v, V_ATRMONEY) then Show(Fetch(o, Pennies))
    else Raw(x, n)
  }

  ghost predicate HeaderRestored(v: int, x: Obj, o: Obj, r: Obj) {
    && r.location == o.location && r.contents == o.contents && r.exits == o.exits && r.next == o.next && r.owner == o.owner
    && r.zone == (if Has(v, V_ZONE) then o.zone else x.zone)
    && r.link == (if Has(v, V_LINK) then o.link else NOTHING)
    && r.parent == (if Has(v, V_PARENT) then o.parent else NOTHING)
    && r.flags == o.flags
    && r.flags2 == (var w := if Has(v, V_XFLAGS) then o.flags2 else 0; if IsPlayer(o) then Clear(w, CONNECTED) else w)
    && r.flags3 == (if Has(v, V_3FLAGS) then o.flags3 else 0)
    && r.powers == (if Has(v, V_POWERS) then o.powers else x.powers)
    && r.powers2 == (if Has(v, V_POWERS) then o.powers2 else x.powers2)
  }

  /** r is x after the record of o was read into it: every field the format holds, and every attribute it saves. */
  ghost predicate Restored(tb: Tables, v: int, x: Obj, o: Obj, r: Obj) {
    HeaderRestored(v, x, o, r) && forall n :: Raw(r, n) == TextAfter(tb, v, x, o, n)
  }

  lemma SlotBack(on: bool, x: Obj, o: Obj, slot: Slot, t: string)
    requires Int(Fetch(o, slot))
    ensures GetSlot(on, At(x, PutSlot(on, o, slot, t)), slot) == At(if on then Store(x, slot, Fetch(o, slot)) else x, t)
  {
    hide Store, Fetch, FlatFile.GetRef, PutRef;
    RefRoundTrip(Fetch(o, slot), t);
  }

  lemma OrBack(on: bool, x: Obj, o: Obj, slot: Slot, n: int, t: string)
    requires Int(Fetch(o, slot))
    ensures GetOr(on, At(x, PutSlot(on, o, slot, t)), slot, n) == At(Store(x, slot, if on then Fetch(o, slot) else n), t)
  {
    hide Store, Fetch, GetSlot;
    SlotBack(true, x, o, slot, t);
  }

  function FrontOf(v: int, x: Obj, o: Obj): Obj {
    x.(location := o.location, zone := if Has(v, V_ZONE) then o.zone else x.zone, contents := o.contents,
       exits := o.exits, link := if Has(v, V_LINK) then o.link else NOTHING, next := o.next)
  }

  lemma FrontBack(v: int, x: Obj, o: Obj, t: string)
    requires forall slot :: Int(Fetch(o, slot))
    ensures GetFront(ConfigOf(v), At(x, PutFront(v, o, t))) == At(FrontOf(v, x, o), t)
  {
    hide GetSlot, GetOr, PutSlot, Has, Int;
    var t5 := PutSlot(true, o, Next, t);
    var t4 := PutSlot(Has(v, V_LINK), o, Link, t5);
    var t3 := PutSlot(true, o, Exits, t4);
    var t2 := PutSlot(true, o, Contents, t3);
    var t1 := PutSlot(Has(v, V_ZONE), o, Zone, t2);
    SlotBack(true, x, o, Location, t1);
    var x1 := x.(location := o.location);
    SlotBack(Has(v, V_ZONE), x1, o, Zone, t2);
    var x2 := if Has(v, V_ZONE) then x1.(zone := o.zone) else x1;
    SlotBack(true, x2, o, Contents, t3);
    var x3 := x2.(contents := o.contents);
    SlotBack(true, x3, o, Exits, t4);
    var x4 := x3.(exits := o.exits);
    OrBack(Has(v, V_LINK), x4, o, Link, NOTHING, t5);
    var x5 := x4.(link := if Has(v, V_LINK) then o.link else NOTHING);
    SlotBack(true, x5, o, Next, t);
  }

  function OwnerOf(v: int, x: Obj, o: Obj): Obj {
    var y := x.(owner := o.owner, parent := if Has(v, V_PARENT) then o.parent else NOTHING);
    if Has(v, V_ATRMONEY) then y else SetAttr(y, A_MONEY, Show(Fetch(o, Pennies)))
  }

  lemma OwnerBack(v: int, x: Obj, o: Obj, t: string)
    requires forall slot :: Int(Fetch(o, slot))
    ensures GetOwner(ConfigOf(v), At(x, PutOwner(v, o, t))) == At(OwnerOf(v, x, o), t)
  {
    hide GetSlot, GetOr, PutSlot, Has, SetAttr, Int, Raw;
    var t2 := PutSlot(!Has(v, V_ATRMONEY), o, Pennies, t);
    var t1 := PutSlot(Has(v, V_PARENT), o, Parent, t2);
    SlotBack(true, x, o, Owner, t1);
    var x1 := x.(owner := o.owner);
    OrBack(Has(v, V_PARENT), x1, o, Parent, NOTHING, t2);
    var x2 := x1.(parent := if Has(v, V_PARENT) then o.parent else NOTHING);
    SlotBack(!Has(v, V_ATRMONEY), x2, o, Pennies, t);
  }

  function WordsOf(v: int, x: Obj, o: Obj): Obj {
    x.(flags := o.flags, flags2 := if Has(v, V_XFLAGS) then o.flags2 else 0,
       flags3 := if Has(v, V_3FLAGS) then o.flags3 else 0,
       powers := if Has(v, V_POWERS) then o.powers else x.powers,
       powers2 := if Has(v, V_POWERS) then o.powers2 else x.powers2)
  }

  lemma WordsBack(v: int, x: Obj, o: Obj, t: string)
    requires forall slot :: Int(Fetch(o, slot))
    ensures GetWords(ConfigOf(v), At(x, PutWords(v, o, t))) == At(WordsOf(v, x, o), t)
  {
    hide GetSlot, GetOr, PutSlot, Has, Int, Raw;
    var t4 := PutSlot(Has(v, V_POWERS), o, Powers2, t);
    var t3 := PutSlot(Has(v, V_POWERS), o, Powers, t4);
    var t2 := PutSlot(Has(v, V_3FLAGS), o, Flags3, t3);
    var t1 := PutSlot(Has(v, V_XFLAGS), o, Flags2, t2);
    SlotBack(true, x, o, Flags, t1);
    var x1 := x.(flags := o.flags);
    OrBack(Has(v, V_XFLAGS), x1, o, Flags2, 0, t2);
    var x2 := x1.(flags2 := if Has(v, V_XFLAGS) then o.flags2 else 0);
    OrBack(Has(v, V_3FLAGS), x2, o, Flags3, 0, t3);
    var x3 := x2.(flags3 := if Has(v, V_3FLAGS) then o.flags3 else 0);
    SlotBack(Has(v, V_POWERS), x3, o, Powers, t4);
    var x4 := if Has(v, V_POWERS) then x3.(powers := o.powers) else x3;
    SlotBack(Has(v, V_POWERS), x4, o, Powers2, t);
  }

  // ------------------------------------------------------------------ the attribute list

  function AddAttrs(tb: Tables, v: int, x: Obj, o: Obj, list: seq<int>): Obj
    decreases |list|
  {
    if list == [] then x
    else AddAttrs(tb, v, if Saved(tb, v, list[0]) then SetAttr(x, list[0], Raw(o, list[0])) else x, o, list[1..])
  }

  ghost predicate Listable(o: Obj, list: seq<int>) {
    forall i :: 0 <= i < |list| ==> Int(list[i]) && Text(Raw(o, list[i])) && |Raw(o, list[i])| < LBUF_SIZE
  }

  lemma {:induction false} AttrsBack(tb: Tables, v: int, x: Obj, o: Obj, list: seq<int>, t: string)
    requires Listable(o, list)
    ensures GetAttrs(true, x, PutAttrs(tb, v, o, list, t)) == At(AddAttrs(tb, v, x, o, list), t)
    decreases |list|
  {
    hide PutRef, PutString, GetString, FlatFile.GetRef, SetAttr, Raw;
    if list == [] {
      EmptyListBack(true, x, t);
    } else if Saved(tb, v, list[0]) {
      var s := Raw(o, list[0]);
      var tail := PutAttrs(tb, v, o, list[1..], t);
      OneAttrBack(x, list[0], s, tail);
      AttrsBack(tb, v, SetAttr(x, list[0], s), o, list[1..], t);
    } else {
      AttrsBack(tb, v, x, o, list[1..], t);
    }
  }

  lemma EmptyListBack(newStrings: bool, x: Obj, t: string)
    ensures GetAttrs(newStrings, x, "<\n" + t) == At(x, t)
  {
    var f := "<\n" + t;
    assert f[1..] == "\n" + t && ("\n" + t)[1..] == t;
  }

  lemma OneAttrBack(x: Obj, n: int, s: string, tail: string)
    requires Int(n) && n > 0 && Text(s) && |s| < LBUF_SIZE
    ensures GetAttrs(true, x, ">" + PutRef(n, PutString(s, tail))) == GetAttrs(true, SetAttr(x, n, s), tail)
  {
    hide PutRef, PutString, GetString, FlatFile.GetRef, SetAttr;
    var f := ">" + PutRef(n, PutString(s, tail));
    assert f[0] == '>' && f[1..] == PutRef(n, PutString(s, tail));
    RefRoundTrip(n, PutString(s, tail));
    StringRoundTrip(s, tail);
  }

  lemma RawSet(x: Obj, n: int, s: string, m: int)
    ensures Raw(SetAttr(x, n, s), m) == if m == n then s else Raw(x, m)
  {
  }

  predicate SameHeader(x: Obj, y: Obj) { y == x.(list := y.list, attrs := y.attrs) }

  /** Each saved attribute of the list gets its text; no other attribute and no header word changes. */
  lemma {:induction false} AddedAttrs(tb: Tables, v: int, x: Obj, o: Obj, list: seq<int>, n: int)
    ensures SameHeader(x, AddAttrs(tb, v, x, o, list))
    ensures Raw(AddAttrs(tb, v, x, o, list), n) == if n in list && Saved(tb, v, n) then Raw(o, n) else Raw(x, n)
    decreases |list|
  {
    hide Saved, Raw, SetAttr;
    if list != [] {
      var m := list[0];
      var y := if Saved(tb, v, m) then SetAttr(x, m, Raw(o, m)) else x;
      AddedAttrs(tb, v, y, o, list[1..], n);
      RawSet(x, m, Raw(o, m), n);
      SetKeepsHeader(x, m, Raw(o, m));
      assert n in list <==> n == m || n in list[1..];
    }
  }

  lemma SetKeepsHeader(x: Obj, n: int, s: string)
    ensures SameHeader(x, SetAttr(x, n, s))
  {
  }

  // ------------------------------------------------------------------ the whole record

  function NameOf(tb: Tables, v: int, x: Obj, o: Obj): Obj { if Has(v, V_ATRNAME) then x else SetName(x, Name(tb, o)) }

  function LockSet(tb: Tables, v: int, x: Obj, o: Obj): Obj { if Has(v, V_ATRKEY) then x else SetLock(tb, x, LockOf(tb, o)) }

  function ListOf(tb: Tables, v: int, x: Obj, o: Obj): Obj { if Has(v, V_GDBM) then x else AddAttrs(tb, v, x, o, o.list) }

  function AfterName(tb: Tables, v: int, y: Obj, o: Obj): Obj {
    WordsOf(v, OwnerOf(v, LockSet(tb, v, FrontOf(v, y, o), o), o), o)
  }

  function BeforeList(tb: Tables, v: int, x: Obj, o: Obj): Obj { AfterName(tb, v, NameOf(tb, v, x, o), o) }

  function Loaded(tb: Tables, v: int, x: Obj, o: Obj): Obj { Disconnect(ListOf(tb, v, BeforeList(tb, v, x, o), o)) }

  lemma NameBack(tb: Tables, v: int, x: Obj, o: Obj, t: string)
    requires Storable(tb, o) && (Has(v, V_QUOTED) || Has(v, V_ATRNAME)) && (Has(v, V_ATRNAME) ==> Has(v, V_GDBM))
    ensures GetName(ConfigOf(v), At(x, if Has(v, V_ATRNAME) then t else PutString(Name(tb, o), t))) == At(NameOf(tb, v, x, o), t)
  {
    hide PutString, GetString, Has, SetName, OneLine, Raw;
    StringRoundTrip(Name(tb, o), t);
  }

  lemma LockBack(tb: Tables, v: int, x: Obj, o: Obj, t: string)
    requires Storable(tb, o) && (t == [] || t[0] != '\n')
    ensures GetLockField(tb, ConfigOf(v), At(x, if Has(v, V_ATRKEY) then t else PutLock(tb.names, LockOf(tb, o)) + t))
         == At(LockSet(tb, v, x, o), t)
  {
    hide PutLock, GetLock, Has, SetLock, OneLine, Raw, AllFindable, Parse, Text;
    ParsedLockSurvives(tb.env, tb.mk, tb.names, tb.text(Raw(o, A_LOCK)), t);
  }

  /** What the reader leaves: an attribute list it does not expect, and what follows */
  function Leftover(tb: Tables, v: int, panicking: bool, o: Obj, t: string): string {
    if panicking && Has(v, V_GDBM) then PutAttrs(tb, v, o, o.list, t) else t
  }

  lemma ListBack(tb: Tables, v: int, panicking: bool, x: Obj, o: Obj, t: string)
    requires Storable(tb, o) && (Has(v, V_QUOTED) || Has(v, V_GDBM) || o.list == [])
    ensures GetList(ConfigOf(v), At(x, if !Has(v, V_GDBM) || panicking then PutAttrs(tb, v, o, o.list, t) else t))
         == At(ListOf(tb, v, x, o), Leftover(tb, v, panicking, o, t))
  {
    hide GetAttrs, Has, OneLine, AllFindable, Parse, Text;
    if !Has(v, V_GDBM) {
      if o.list == [] {
        EmptyListBack(Has(v, V_QUOTED), x, t);
      } else {
        hide PutAttrs, AddAttrs;
        assert Listable(o, o.list);
        AttrsBack(tb, v, x, o, o.list, t);
      }
    }
  }

  lemma BackStarts(tb: Tables, v: int, panicking: bool, o: Obj, t: string)
    ensures var f := PutBack(tb, v, panicking, o, t); f != [] && f[0] != '\n'
  {
    hide PutWords, PutAttrs, Has, ShowNat;
    assert PutBack(tb, v, panicking, o, t)[0] == Show(o.owner)[0];
  }

  lemma BackBack(tb: Tables, v: int, panicking: bool, x: Obj, o: Obj, t: string)
    requires Storable(tb, o) && (Has(v, V_QUOTED) || Has(v, V_GDBM) || o.list == [])
    ensures GetBack(ConfigOf(v), At(x, PutBack(tb, v, panicking, o, t))) ==
            At(ListOf(tb, v, WordsOf(v, OwnerOf(v, x, o), o), o), Leftover(tb, v, panicking, o, t))
  {
    hide GetOwner, GetWords, GetList, PutOwner, PutWords, PutAttrs, Has, OwnerOf, WordsOf, ListOf, ConfigOf, Leftover;
    var rest := if !Has(v, V_GDBM) || panicking then PutAttrs(tb, v, o, o.list, t) else t;
    OwnerBack(v, x, o, PutWords(v, o, rest));
    WordsBack(v, OwnerOf(v, x, o), o, rest);
    ListBack(tb, v, panicking, WordsOf(v, OwnerOf(v, x, o), o), o, t);
  }

  /** Everything after the name, which became part of y */
  lemma RestBack(tb: Tables, v: int, panicking: bool, y: Obj, o: Obj, t: string)
    requires Storable(tb, o) && (Has(v, V_QUOTED) || Has(v, V_GDBM) || o.list == [])
    ensures GetBack(ConfigOf(v), GetLockField(tb, ConfigOf(v), GetFront(ConfigOf(v), At(y, PutBody(tb, v, panicking, o, t))))) ==
            At(ListOf(tb, v, AfterName(tb, v, y, o), o), Leftover(tb, v, panicking, o, t))
  {
    hide GetFront, GetLockField, GetBack, PutFront, PutLock, PutBack, Has, ConfigOf, FrontOf, LockSet, OwnerOf, WordsOf, ListOf,
      LockOf, Leftover;
    var back := PutBack(tb, v, panicking, o, t);
    var locked := if Has(v, V_ATRKEY) then back else PutLock(tb.names, LockOf(tb, o)) + back;
    FrontBack(v, y, o, locked);
    var x2 := FrontOf(v, y, o);
    BackStarts(tb, v, panicking, o, t);
    LockBack(tb, v, x2, o, back);
    BackBack(tb, v, panicking, LockSet(tb, v, x2, o), o, t);
  }

  lemma ObjectBack(tb: Tables, v: int, panicking: bool, x: Obj, o: Obj, t: string)
    requires Storable(tb, o) && (Has(v, V_QUOTED) || Has(v, V_ATRNAME)) && (Has(v, V_ATRNAME) ==> Has(v, V_GDBM))
    ensures GetObject(tb, ConfigOf(v), x, PutObject(tb, v, panicking, o, t)) ==
            At(Loaded(tb, v, x, o), Leftover(tb, v, panicking, o, t))
  {
    hide GetName, GetFront, GetLockField, GetBack, PutBody, PutString, Has, ConfigOf, NameOf, AfterName, ListOf, Disconnect, Name,
      Leftover, Storable;
    NameBack(tb, v, x, o, PutBody(tb, v, panicking, o, t));
    RestBack(tb, v, panicking, NameOf(tb, v, x, o), o, t);
  }

  lemma ListRestores(tb: Tables, v: int, x: Obj, o: Obj, n: int)
    ensures SameHeader(x, ListOf(tb, v, x, o))
    ensures Raw(ListOf(tb, v, x, o), n) == if !Has(v, V_GDBM) && n in o.list && Saved(tb, v, n) then Raw(o, n) else Raw(x, n)
  {
    hide Saved, Has, AddAttrs, Raw;
    AddedAttrs(tb, v, x, o, o.list, n);
  }

  lemma {:induction false} AddedListed(tb: Tables, v: int, x: Obj, o: Obj, list: seq<int>)
    requires Listed(x)
    ensures Listed(AddAttrs(tb, v, x, o, list))
    decreases |list|
  {
    hide Saved, Raw, SetAttr, Listed;
    if list != [] {
      SetKeepsListed(x, list[0], Raw(o, list[0]));
      AddedListed(tb, v, if Saved(tb, v, list[0]) then SetAttr(x, list[0], Raw(o, list[0])) else x, o, list[1..]);
    }
  }

  lemma BeforeListText(tb: Tables, v: int, x: Obj, o: Obj, n: int)
    requires !(!Has(v, V_GDBM) && n in o.attrs && Saved(tb, v, n))
    ensures Raw(BeforeList(tb, v, x, o), n) == TextAfter(tb, v, x, o, n)
  {
    AfterNameText(tb, v, NameOf(tb, v, x, o), o, n);
    hide Has, SetAttr, Unparse, Show, Fetch, Name, LockOf, Saved, AfterName;
    var s := Name(tb, o);
    RawSet(x, A_NAME, if |s| > MBUF_SIZE then s[..MBUF_SIZE] else s, n);
  }

  /** Lock and money are written behind the name; no other text changes there. */
  lemma AfterNameText(tb: Tables, v: int, y: Obj, o: Obj, n: int)
    ensures Raw(AfterName(tb, v, y, o), n) ==
            if n == A_LOCK && !Has(v, V_ATRKEY) then Unparse(tb.names, LockOf(tb, o), Plain)
            else if n == A_MONEY && !Has(v, V_ATRMONEY) then Show(Fetch(o, Pennies))
            else Raw(y, n)
  {
    hide Has, SetAttr, Unparse, Show, Fetch, LockOf;
    var x1 := FrontOf(v, y, o);
    RawSet(x1, A_LOCK, Unparse(tb.names, LockOf(tb, o), Plain), n);
    var x2 := LockSet(tb, v, x1, o).(owner := o.owner, parent := if Has(v, V_PARENT) then o.parent else NOTHING);
    RawSet(x2, A_MONEY, Show(Fetch(o, Pennies)), n);
  }

  lemma HeaderIsRestored(tb: Tables, v: int, x: Obj, o: Obj)
    ensures HeaderRestored(v, x, o, Loaded(tb, v, x, o))
  {
    hide Has, SetAttr, Unparse, Show, Fetch, Name, LockOf, Saved, ListOf, IsPlayer, Clear;
    var s := Name(tb, o);
    SetKeepsHeader(x, A_NAME, if |s| > MBUF_SIZE then s[..MBUF_SIZE] else s);
    var x1 := FrontOf(v, NameOf(tb, v, x, o), o);
    SetKeepsHeader(x1, A_LOCK, Unparse(tb.names, LockOf(tb, o), Plain));
    var x2 := LockSet(tb, v, x1, o).(owner := o.owner, parent := if Has(v, V_PARENT) then o.parent else NOTHING);
    SetKeepsHeader(x2, A_MONEY, Show(Fetch(o, Pennies)));
    var y := BeforeList(tb, v, x, o);
    assert HeaderRestored(v, x, o, y.(flags2 := if IsPlayer(o) then Clear(y.flags2, CONNECTED) else y.flags2));
    ListRestores(tb, v, y, o, 0);
    var z := ListOf(tb, v, y, o);
    assert IsPlayer(z) == IsPlayer(o) by { PlayerBit(z, o); }
  }

  lemma PlayerBit(z: Obj, o: Obj)
    requires z.flags == o.flags
    ensures IsPlayer(z) == IsPlayer(o)
  {
  }

  lemma ListedAfter(tb: Tables, v: int, x: Obj, o: Obj)
    requires Listed(x)
    ensures Listed(Loaded(tb, v, x, o))
  {
    hide Has, SetAttr, Unparse, Show, Fetch, Name, LockOf, AddAttrs, IsPlayer, Clear;
    var s := Name(tb, o);
    SetKeepsListed(x, A_NAME, if |s| > MBUF_SIZE then s[..MBUF_SIZE] else s);
    var x1 := FrontOf(v, NameOf(tb, v, x, o), o);
    SetKeepsListed(x1, A_LOCK, Unparse(tb.names, LockOf(tb, o), Plain));
    var x2 := LockSet(tb, v, x1, o).(owner := o.owner, parent := if Has(v, V_PARENT) then o.parent else NOTHING);
    SetKeepsListed(x2, A_MONEY, Show(Fetch(o, Pennies)));
    AddedListed(tb, v, BeforeList(tb, v, x, o), o, o.list);
  }

  /** The record of o, read into x, restores o and leaves the stream at the next record. */
  ghost predicate ComesBack(tb: Tables, v: int, panicking: bool, x: Obj, o: Obj, t: string) {
    var q := GetObject(tb, ConfigOf(v), x, PutObject(tb, v, panicking, o, t));
    q.At? && q.f == t && Restored(tb, v, x, o, q.o) && Listed(q.o)
  }

  /** The record round trip, for every format word the reader and writer agree on: each header word the format
      holds, each saved attribute, the name, the money and the lock come back, nothing else changes, and the stream
      is left at the next record. */
  lemma RecordRoundTrip(tb: Tables, v: int, panicking: bool, x: Obj, o: Obj, t: string)
    requires Storable(tb, o) && Agreed(v, panicking) && Listed(x)
    ensures ComesBack(tb, v, panicking, x, o, t)
  {
    hide GetObject, PutObject, Storable, Has, IsPlayer, Clear;
    ObjectBack(tb, v, panicking, x, o, t);
    ListedAfter(tb, v, x, o);
    HeaderIsRestored(tb, v, x, o);
    var r := Loaded(tb, v, x, o);
    forall n ensures Raw(r, n) == TextAfter(tb, v, x, o, n) { TextRestored(tb, v, x, o, n); }
  }

  lemma TextRestored(tb: Tables, v: int, x: Obj, o: Obj, n: int)
    requires Storable(tb, o)
    ensures Raw(Loaded(tb, v, x, o), n) == TextAfter(tb, v, x, o, n)
  {
    hide Has, Saved, BeforeList, ListOf, OneLine, AllFindable, Text, Fetch, LockOf, Name;
    var y := BeforeList(tb, v, x, o);
    ListRestores(tb, v, y, o, n);
    assert Raw(Loaded(tb, v, x, o), n) == Raw(ListOf(tb, v, y, o), n) by { LoadedText(tb, v, x, o, n); }
    if !(!Has(v, V_GDBM) && n in o.attrs && Saved(tb, v, n)) { BeforeListText(tb, v, x, o, n); }
  }

  lemma LoadedText(tb: Tables, v: int, x: Obj, o: Obj, n: int)
    ensures Raw(Loaded(tb, v, x, o), n) == Raw(ListOf(tb, v, BeforeList(tb, v, x, o), o), n)
  {
    hide WordsOf, OwnerOf, LockSet, FrontOf, NameOf, ListOf, Clear, IsPlayer;
  }

  const INFO: char := 1 as char

  /** atr_decode: a text that does not begin with the owner and flags is the text itself. */
  ghost predicate Decodes(tb: Tables) { forall s :: (s == [] || s[0] != INFO) ==> tb.text(s) == s }

  lemma {:induction false} PrintStarts(env: Env, names: Names, b: Lock, outer: Outer)
    requires Legal(env, b) && AllNameable(env, names, b)
    ensures var s := Unparse(names, b, outer); s != [] && s[0] != INFO
  {
    match b
    case And(l, r) => PrintStarts(env, names, l, InAnd);
    case Or(l, r) => PrintStarts(env, names, l, Plain);
    case Atr(num, str) => NameIsPlain(env, names, num); assert AttrText(names, num, ":", str)[0] == NameText(names, num)[0];
    case Eval(num, str) => NameIsPlain(env, names, num); assert AttrText(names, num, "/", str)[0] == NameText(names, num)[0];
    case _ =>
  }

  /** The lock of the object read is the lock written, hung to the right, or the very lock where it travels as an
      attribute. */
  lemma LockRestored(tb: Tables, v: int, panicking: bool, x: Obj, o: Obj, t: string)
    requires Storable(tb, o) && Agreed(v, panicking) && Listed(x)
    requires Decodes(tb) && AllNameable(tb.env, tb.names, LockOf(tb, o))
    ensures var q := GetObject(tb, ConfigOf(v), x, PutObject(tb, v, panicking, o, t));
      && q.At?
      && (!Has(v, V_ATRKEY) ==> LockOf(tb, q.o) == Normal(LockOf(tb, o)))
      && (Has(v, V_ATRKEY) && !Has(v, V_GDBM) && A_LOCK in o.attrs && tb.names(A_LOCK).Some? ==> LockOf(tb, q.o) == LockOf(tb, o))
  {
    hide GetObject, PutObject, Storable, Has, Agreed, Listed, HeaderRestored, Unparse, Parse, AllNameable, Normal;
    RecordRoundTrip(tb, v, panicking, x, o, t);
    var q := GetObject(tb, ConfigOf(v), x, PutObject(tb, v, panicking, o, t));
    assert Raw(q.o, A_LOCK) == TextAfter(tb, v, x, o, A_LOCK);
    if !Has(v, V_ATRKEY) { PrintedLock(tb, o); }
  }

  lemma PrintedLock(tb: Tables, o: Obj)
    requires Decodes(tb) && AllNameable(tb.env, tb.names, LockOf(tb, o))
    ensures Parse(tb.env, tb.text(Unparse(tb.names, LockOf(tb, o), Plain))) == Normal(LockOf(tb, o))
  {
    var b := LockOf(tb, o);
    ParsedIsLegal(tb.env, tb.text(Raw(o, A_LOCK)));
    if b == Open {
      assert Unparse(tb.names, b, Plain) == [] && Parse(tb.env, []) == Open;
    } else {
      hide LockOf, Parse, Unparse, Normal;
      PrintStarts(tb.env, tb.names, b, Plain);
      ReparseIsNormal(tb.env, tb.names, b);
    }
  }

  // ------------------------------------------------------------------ formats on which reader and writer disagree

  /** An object without attributes whose first words differ */
  const Probe := Blank.(location := 5, zone := 6, contents := 6)

  const Plainest := Tables(n => None, s => 0, Env(s => None, true, n => false), s => s)

  lemma ProbeStorable()
    ensures Storable(Plainest, Probe) && Listed(Blank) && Name(Plainest, Probe) == ""
  {
    assert Raw(Probe, A_MONEY) == "" && Atoi("") == 0;
    forall slot ensures Int(Fetch(Probe, slot)) { }
    assert LockOf(Plainest, Probe) == Open;
  }

  lemma SetKeepsLocation(x: Obj, n: int, s: string)
    ensures SetAttr(x, n, s).location == x.location
  {
  }

  lemma {:induction false} AttrsKeepLocation(newStrings: bool, o: Obj, f: string)
    ensures var q := GetAttrs(newStrings, o, f); q.At? ==> q.o.location == o.location
    decreases |f|
  {
    hide GetString, FlatFile.GetRef, SetAttr;
    if f != [] && f[0] == '>' {
      var r := FlatFile.GetRef(f[1..]);
      if r.Some? {
        var (s, rest2) := GetString(newStrings, r.value.1);
        SetKeepsLocation(o, r.value.0, s);
        AttrsKeepLocation(newStrings, if r.value.0 > 0 then SetAttr(o, r.value.0, s) else o, rest2);
      }
    } else if f != [] && f[0] == '\n' {
      AttrsKeepLocation(newStrings, o, f[1..]);
    } else if f != [] && f[0] != '<' {
      AttrsKeepLocation(newStrings, o, GetString(newStrings, f[1..]).1);
    }
  }

  lemma SlotKeepsLocation(on: bool, p: Place, slot: Slot, n: int)
    requires slot != Location
    ensures var q := GetSlot(on, p, slot); q.At? ==> p.At? && q.o.location == p.o.location
    ensures var q := GetOr(on, p, slot, n); q.At? ==> p.At? && q.o.location == p.o.location
  {
    hide FlatFile.GetRef, Show, SetAttr;
    if p.At? {
      forall k ensures SetAttr(p.o, A_MONEY, Show(k)).location == p.o.location { SetKeepsLocation(p.o, A_MONEY, Show(k)); }
    }
  }

  /** The location is what is read first after the name; nothing behind it changes the location again. */
  lemma LocationStays(tb: Tables, cfg: Config, p: Place)
    ensures var q := GetBack(cfg, GetLockField(tb, cfg, GetFront(cfg, p)));
            q.At? ==> GetSlot(true, p, Location).At? && q.o.location == GetSlot(true, p, Location).o.location
  {
    hide GetSlot, GetOr, GetAttrs, GetLock, SetAttr;
    var p1 := GetSlot(true, p, Location);
    var p2 := GetSlot(cfg.zone, p1, Zone);             SlotKeepsLocation(cfg.zone, p1, Zone, 0);
    var p3 := GetSlot(true, p2, Contents);             SlotKeepsLocation(true, p2, Contents, 0);
    var p4 := GetSlot(true, p3, Exits);                SlotKeepsLocation(true, p3, Exits, 0);
    var p5 := GetOr(cfg.link, p4, Link, NOTHING);      SlotKeepsLocation(cfg.link, p4, Link, NOTHING);
    var p6 := GetSlot(true, p5, Next);                 SlotKeepsLocation(true, p5, Next, 0);
    assert GetFront(cfg, p) == p6;
    var p7 := GetLockField(tb, cfg, p6);
    LockKeepsLocation(tb, cfg, p6);
    BackKeepsLocation(cfg, p7);
  }

  lemma LockKeepsLocation(tb: Tables, cfg: Config, p: Place)
    ensures var q := GetLockField(tb, cfg, p); q.At? ==> p.At? && q.o.location == p.o.location
  {
    hide GetLock, Unparse, SetAttr;
    if p.At? {
      forall b ensures SetLock(tb, p.o, b).location == p.o.location { SetKeepsLocation(p.o, A_LOCK, Unparse(tb.names, b, Plain)); }
    }
  }

  lemma OwnerKeepsLocation(cfg: Config, p: Place)
    ensures var q := GetOwner(cfg, p); q.At? ==> p.At? && q.o.location == p.o.location
  {
    hide GetSlot, GetOr;
    var p1 := GetSlot(true, p, Owner);                 SlotKeepsLocation(true, p, Owner, 0);
    var p2 := GetOr(cfg.parent, p1, Parent, NOTHING);  SlotKeepsLocation(cfg.parent, p1, Parent, NOTHING);
    SlotKeepsLocation(cfg.money, p2, Pennies, 0);
  }

  lemma WordsKeepLocation(cfg: Config, p: Place)
    ensures var q := GetWords(cfg, p); q.At? ==> p.At? && q.o.location == p.o.location
  {
    hide GetSlot, GetOr;
    var p1 := GetSlot(true, p, Flags);                 SlotKeepsLocation(true, p, Flags, 0);
    var p2 := GetOr(cfg.xflags, p1, Flags2, 0);        SlotKeepsLocation(cfg.xflags, p1, Flags2, 0);
    var p3 := GetOr(cfg.flags3, p2, Flags3, 0);        SlotKeepsLocation(cfg.flags3, p2, Flags3, 0);
    var p4 := GetSlot(cfg.powers, p3, Powers);         SlotKeepsLocation(cfg.powers, p3, Powers, 0);
    SlotKeepsLocation(cfg.powers, p4, Powers2, 0);
  }

  lemma BackKeepsLocation(cfg: Config, p: Place)
    ensures var q := GetBack(cfg, p); q.At? ==> p.At? && q.o.location == p.o.location
  {
    hide GetOwner, GetWords, GetAttrs;
    OwnerKeepsLocation(cfg, p);
    WordsKeepLocation(cfg, GetOwner(cfg, p));
    var q := GetWords(cfg, GetOwner(cfg, p));
    if q.At? { AttrsKeepLocation(cfg.newStrings, q.o, q.f); }
  }

  lemma LocationFirst(o: Obj, tail: string)
    requires Int(o.location)
    ensures forall b :: GetString(b, PutSlot(true, o, Location, tail)) == (Show(o.location), tail)
  {
    hide ShowNat;
    IntWidth(o.location);
    ShowNoNewline(o.location);
    ShowIsText(o.location);
    LineRoundTrip(Show(o.location), tail);
    assert PutSlot(true, o, Location, tail)[0] == Show(o.location)[0] != '"';
  }

  lemma ShowIsText(n: int)
    ensures Text(Show(n)) && Show(n)[|Show(n)| - 1] != '\r'
  {
  }

  /** What the record of an object holds behind the location */
  function AfterLocation(tb: Tables, v: int, panicking: bool, o: Obj, t: string): string {
    PutSlot(Has(v, V_ZONE), o, Zone, PutSlot(true, o, Contents, PutSlot(true, o, Exits, PutSlot(Has(v, V_LINK), o, Link,
      PutSlot(true, o, Next, if Has(v, V_ATRKEY) then PutBack(tb, v, panicking, o, t)
      else PutLock(tb.names, LockOf(tb, o)) + PutBack(tb, v, panicking, o, t))))))
  }

  lemma ShiftedName(tb: Tables, v: int, panicking: bool, x: Obj, o: Obj, t: string)
    requires Has(v, V_ATRNAME) && !Has(v, V_GDBM) && Int(o.location)
    ensures GetName(ConfigOf(v), At(x, PutObject(tb, v, panicking, o, t))) ==
            At(SetName(x, Show(o.location)), AfterLocation(tb, v, panicking, o, t))
  {
    hide PutBack, PutLock, LockOf, Has, PutSlot, SetName, Show, GetString;
    LocationFirst(o, AfterLocation(tb, v, panicking, o, t));
  }

  lemma ShiftedLocation(tb: Tables, v: int, panicking: bool, y: Obj, o: Obj, t: string)
    requires Int(o.zone) && Int(o.contents)
    ensures var q := GetSlot(true, At(y, AfterLocation(tb, v, panicking, o, t)), Location);
            q.At? && q.o.location == if Has(v, V_ZONE) then o.zone else o.contents
  {
    var tail := PutSlot(true, o, Exits, PutSlot(Has(v, V_LINK), o, Link,
      PutSlot(true, o, Next, if Has(v, V_ATRKEY) then PutBack(tb, v, panicking, o, t)
      else PutLock(tb.names, LockOf(tb, o)) + PutBack(tb, v, panicking, o, t))));
    hide PutBack, PutLock, LockOf, Has, FlatFile.GetRef, PutRef;
    RefRoundTrip(o.contents, tail);
    RefRoundTrip(o.zone, PutSlot(true, o, Contents, tail));
  }

  /** Names kept as attributes without V_GDBM: the reader takes the location for the name and the word behind it for
      the location, so no object comes back whose location differs from that word. */
  lemma LocationReadAsName(tb: Tables, v: int, panicking: bool, x: Obj, o: Obj, t: string)
    requires Has(v, V_ATRNAME) && !Has(v, V_GDBM) && Int(o.location) && Int(o.zone) && Int(o.contents)
    requires o.location != if Has(v, V_ZONE) then o.zone else o.contents
    ensures !ComesBack(tb, v, panicking, x, o, t)
  {
    ShiftedName(tb, v, panicking, x, o, t);
    hide Has, GetName, GetFront, GetLockField, GetBack, GetSlot, SetName, PutObject, AfterLocation, Show, Clear, IsPlayer, ConfigOf;
    var y := SetName(x, Show(o.location));
    ShiftedLocation(tb, v, panicking, y, o, t);
    LocationStays(tb, ConfigOf(v), At(y, AfterLocation(tb, v, panicking, o, t)));
    var p := GetBack(ConfigOf(v), GetLockField(tb, ConfigOf(v), GetFront(ConfigOf(v), At(y, AfterLocation(tb, v, panicking, o, t)))));
    if p.At? { assert Disconnect(p.o).location != o.location; }
  }

  /** Without V_QUOTED, and with names in the record: the reader takes the quotes for a part of the name. */
  lemma QuoteReadAsName(tb: Tables, v: int, panicking: bool, x: Obj, o: Obj, t: string)
    requires !Has(v, V_QUOTED) && !Has(v, V_ATRNAME) && Storable(tb, o) && o.list == [] && Name(tb, o) == ""
    ensures !ComesBack(tb, v, panicking, x, o, t)
  {
    var body := PutBody(tb, v, panicking, o, t);
    var y := SetName(x, "\"\"");
    QuotesTaken(tb, v, panicking, x, o, t);
    hide PutObject, PutBody, Has, Storable, GetName, GetFront, GetLockField, GetBack, AfterName, ListOf, IsPlayer, Clear, ConfigOf,
      SetName, HeaderRestored, Leftover, Raw;
    RestBack(tb, v, panicking, y, o, t);
    NameStays(tb, v, y, o);
    var r := ListOf(tb, v, AfterName(tb, v, y, o), o);
    assert Raw(Disconnect(r), A_NAME) == Raw(r, A_NAME) by { SameText(r); }
    assert TextAfter(tb, v, x, o, A_NAME) == "" by { NoNameAfter(tb, v, x, o); }
  }

  lemma SameText(r: Obj)
    ensures Raw(Disconnect(r), A_NAME) == Raw(r, A_NAME)
  {
  }

  lemma NoNameAfter(tb: Tables, v: int, x: Obj, o: Obj)
    requires !Has(v, V_ATRNAME) && Name(tb, o) == ""
    ensures TextAfter(tb, v, x, o, A_NAME) == ""
  {
    hide Has, Raw;
  }

  lemma QuotesTaken(tb: Tables, v: int, panicking: bool, x: Obj, o: Obj, t: string)
    requires !Has(v, V_QUOTED) && !Has(v, V_ATRNAME) && Name(tb, o) == ""
    ensures GetName(ConfigOf(v), At(x, PutObject(tb, v, panicking, o, t))) == At(SetName(x, "\"\""), PutBody(tb, v, panicking, o, t))
    ensures Raw(SetName(x, "\"\""), A_NAME) == "\"\""
  {
    hide PutBody, Has, SetAttr, Name;
    var body := PutBody(tb, v, panicking, o, t);
    assert PutString("", body) == "\"\"" + ("\n" + body);
    hide GetString, PutString;
    LineRoundTrip("\"\"", body);
    RawSet(x, A_NAME, "\"\"", A_NAME);
  }

  lemma NameStays(tb: Tables, v: int, y: Obj, o: Obj)
    requires o.list == []
    ensures Raw(ListOf(tb, v, AfterName(tb, v, y, o), o), A_NAME) == Raw(y, A_NAME)
  {
    hide Has, AfterName, Unparse, Show, Fetch, LockOf, ListOf;
    ListRestores(tb, v, AfterName(tb, v, y, o), o, A_NAME);
    AfterNameText(tb, v, y, o, A_NAME);
  }

  /** A dump in a panic writes the attribute lists even with V_GDBM, where the reader does not expect them. */
  lemma ListLeftBehind(tb: Tables, v: int, x: Obj, o: Obj, t: string)
    requires (Has(v, V_QUOTED) || Has(v, V_ATRNAME)) && Has(v, V_GDBM) && Storable(tb, o)
    ensures !ComesBack(tb, v, true, x, o, t)
  {
    hide GetObject, PutObject, Storable, Has, Loaded;
    ObjectBack(tb, v, true, x, o, t);
    ListIsLonger(tb, v, o, o.list, t);
  }

  lemma {:induction false} ListIsLonger(tb: Tables, v: int, o: Obj, list: seq<int>, t: string)
    ensures |PutAttrs(tb, v, o, list, t)| > |t|
    decreases |list|
  {
    hide Saved, Show, Raw;
    if list != [] {
      ListIsLonger(tb, v, o, list[1..], t);
      EscapeLonger(Raw(o, list[0]), "\"\n" + PutAttrs(tb, v, o, list[1..], t));
    }
  }

  lemma {:induction false} EscapeLonger(s: string, t: string)
    ensures |Escape(s, t)| >= |t|
    decreases |s|
  {
    if s != [] { EscapeLonger(s[1..], t); }
  }

  /** The format words under which every object comes back are exactly those reader and writer agree on. */
  lemma FormatsExactly(v: int, panicking: bool)
    ensures Agreed(v, panicking) <==>
            forall tb, x, o, t :: Storable(tb, o) && Listed(x) ==> ComesBack(tb, v, panicking, x, o, t)
  {
    hide ComesBack, Storable, Has, Listed;
    if Agreed(v, panicking) {
      forall tb, x, o, t | Storable(tb, o) && Listed(x) ensures ComesBack(tb, v, panicking, x, o, t) {
        RecordRoundTrip(tb, v, panicking, x, o, t);
      }
    } else {
      ProbeStorable();
      assert !ComesBack(Plainest, v, panicking, Blank, Probe, "") by {
        if Has(v, V_ATRNAME) && !Has(v, V_GDBM) {
          LocationReadAsName(Plainest, v, panicking, Blank, Probe, "");
        } else if !Has(v, V_QUOTED) && !Has(v, V_ATRNAME) {
          QuoteReadAsName(Plainest, v, panicking, Blank, Probe, "");
        } else {
          ListLeftBehind(Plainest, v, Blank, Probe, "");
        }
      }
    }
  }
}
