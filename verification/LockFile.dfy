module LockFile {
  /*
   Locks in the flat file: putboolexp and getboolexp of src/db_rw.c.  The stream is the text that is left; a call
   of abort() is the result Abort.
   */

  import opened Decimal
  import opened FlatFile
  import opened Locks
  import opened Options

  /** mkattr: the number of an attribute name, made on demand; not positive when the name is refused */
  type MkAttr = string -> int

  datatype Read = Abort | Got(lock: Lock, rest: string)

  // ------------------------------------------------------------------ writing

  /** putbool_subexp */
  function Put(names: Names, b: Lock): string {
    match b
    case Open => []
    case And(l, r) => "(" + Put(names, l) + "&" + Put(names, r) + ")"
    case Or(l, r) => "(" + Put(names, l) + "|" + Put(names, r) + ")"
    case Not(l) => "(!" + Put(names, l) + ")"
    case Indir(l) => "(@" + Put(names, l) + ")"
    case Is(l) => "(=" + Put(names, l) + ")"
    case Carry(l) => "(+" + Put(names, l) + ")"
    case OwnerIs(l) => "($" + Put(names, l) + ")"
    case Const(thing) => Show(thing)
    case Atr(num, str) => AttrText(names, num, ":", str) + Trail(names, b)
    case Eval(num, str) => AttrText(names, num, "/", str) + Trail(names, b)
  }

  /** Some references are followed by a newline of their own. */
  function Trail(names: Names, b: Lock): string {
    if b.Eval? || (b.Atr? && names(b.num).None?) then "\n" else []
  }

  /** putboolexp */
  function PutLock(names: Names, b: Lock): string { Put(names, b) + "\n" }

  // ------------------------------------------------------------------ reading

  /** Up to the first character that ends a key: newline, ')', '|' or '&' */
  predicate EndsKey(c: char) { c == '\n' || Ends(c) }

  predicate EndsName(c: char) { c == '\n' || c == ':' || c == '/' }

  function TakeKey(f: string): (r: string)
    ensures r <= f && (forall i :: 0 <= i < |r| ==> !EndsKey(r[i])) && (|r| < |f| ==> EndsKey(f[|r|]))
    decreases |f|
  {
    if f == [] || EndsKey(f[0]) then [] else [f[0]] + TakeKey(f[1..])
  }

  function TakeName(f: string): (r: string)
    ensures r <= f && (forall i :: 0 <= i < |r| ==> !EndsName(r[i])) && (|r| < |f| ==> EndsName(f[|r|]))
    decreases |f|
  {
    if f == [] || EndsName(f[0]) then [] else [f[0]] + TakeName(f[1..])
  }

  /** After the number or name of a reference: a key, if ':' or '/' follows */
  function GetKey(num: int, f: string): Read {
    if f != [] && (f[0] == ':' || f[0] == '/') then
      var key := TakeKey(f[1..]);
      if |key| == |f[1..]| then Abort
      else Got(if f[0] == '/' then Eval(num, key) else Atr(num, key), f[1..][|key|..])
    else Got(Const(num), f)
  }

  /** A number or a name */
  function GetReference(mk: MkAttr, f: string): Read
    requires f != []
  {
    if IsDigit(f[0]) then
      var (n, rest) := ReadDigits(f, 0);
      GetKey(n, rest)
    else if IsAlpha(f[0]) then
      var name := TakeName(f);
      if |name| == |f| || mk(name) <= 0 then Abort else GetKey(mk(name), f[|name|..])
    else Abort
  }

  /** `if ((d = getc(f)) == '\n') d = getc(f); if (d != ')') goto error` */
  function Close(b: Lock, f: string): Read {
    var g := PassNewline(f);
    if g != [] && g[0] == ')' then Got(b, g[1..]) else Abort
  }

  predicate Prefix(c: char) { c == '!' || Unary(c) }

  function Wrap(c: char, b: Lock): Lock
    requires Prefix(c)
  {
    if c == '!' then Not(b) else if c == '@' then Indir(b) else if c == '=' then Is(b) else if c == '+' then Carry(b) else OwnerIs(b)
  }

  function DropLine(f: string): (r: string)
    ensures |r| <= |f| && (r != [] ==> r[0] == '\n')
    decreases |f|
  {
    if f == [] || f[0] == '\n' then f else DropLine(f[1..])
  }

  lemma {:induction false} DigitsShrink(f: string, acc: nat)
    ensures |ReadDigits(f, acc).1| <= |f|
    decreases |f|
  {
    if f != [] && IsDigit(f[0]) { DigitsShrink(f[1..], acc * 10 + DigitValue(f[0])); }
  }

  /** A reference that starts with a name in quotes */
  function GetQuotedRef(mk: MkAttr, f: string): (r: Read)
    ensures r.Got? ==> |r.rest| <= |f|
  {
    var (name, rest) := GetString(true, f);
    if rest == [] then Got(Open, [])
    else if mk(name) <= 0 then Abort
    else if rest[0] == ':' || rest[0] == '/' then
      var (key, rest2) := GetString(true, rest[1..]);
      Got(if rest[0] == '/' then Eval(mk(name), key) else Atr(mk(name), key), rest2)
    else Abort
  }

  /** getboolexp1.  The lock it builds from a name in quotes alone has no type; here that is an Abort. */
  function Get(mk: MkAttr, f: string): (r: Read)
    ensures r.Got? ==> |r.rest| <= |f|
    decreases |f|
  {
    if f == [] then Abort
    else if f[0] == '"' then GetQuotedRef(mk, f)
    else if f[0] == '\n' then Got(Open, f)
    else if f[0] == '(' then
      if |f| > 1 && Prefix(f[1]) then
        match Get(mk, f[2..])
        case Abort => Abort
        case Got(b, rest) => Close(Wrap(f[1], b), rest)
      else
        match Get(mk, f[1..])
        case Abort => Abort
        case Got(l, rest) =>
          var g := PassNewline(rest);
          if g != [] && (g[0] == '&' || g[0] == '|') then
            match Get(mk, g[1..])
            case Abort => Abort
            case Got(r, rest2) => Close(if g[0] == '&' then And(l, r) else Or(l, r), rest2)
          else Abort
    else if f[0] == '-' then
      var rest := DropLine(f[1..]);
      if rest == [] then Abort else Got(Open, rest)
    else DigitsShrink(f, 0); GetReference(mk, f)
  }

  /** getboolexp in the MUX format: the line must end here, and one more newline is passed over. */
  function GetLock(mk: MkAttr, f: string): Read {
    match Get(mk, f)
    case Abort => Abort
    case Got(b, rest) => if rest != [] && rest[0] == '\n' then Got(b, PassNewline(rest[1..])) else Abort
  }

  // ------------------------------------------------------------------ what is written can be read back

  /** The reader finds the attribute again: by a name that starts with a letter and holds no separator, or by number. */
  predicate Findable(mk: MkAttr, names: Names, num: int) {
    match names(num)
    case Some(name) =>
      name != [] && IsAlpha(name[0]) && (forall i :: 0 <= i < |name| ==> !EndsName(name[i])) && num > 0 && mk(name) == num
    case None => num >= 0
  }

  predicate LineKey(s: string) { forall i :: 0 <= i < |s| ==> !EndsKey(s[i]) }

  /** Keys without newlines, attributes that can be found again, no open part */
  predicate Savable(mk: MkAttr, names: Names, b: Lock) {
    match b
    case Open => false
    case And(l, r) => Savable(mk, names, l) && Savable(mk, names, r)
    case Or(l, r) => Savable(mk, names, l) && Savable(mk, names, r)
    case Const(thing) => thing >= 0
    case Atr(num, str) => Findable(mk, names, num) && LineKey(str)
    case Eval(num, str) => Findable(mk, names, num) && LineKey(str)
    case _ => Savable(mk, names, b.l)
  }

  lemma {:induction false} TakeNameOf(name: string, t: string)
    requires forall i :: 0 <= i < |name| ==> !EndsName(name[i])
    requires t != [] && EndsName(t[0])
    ensures TakeName(name + t) == name
  {
    if name != [] {
      assert (name + t)[0] == name[0] && (name + t)[1..] == name[1..] + t;
      TakeNameOf(name[1..], t);
    }
  }

  lemma {:induction false} TakeKeyOf(key: string, t: string)
    requires LineKey(key) && t != [] && EndsKey(t[0])
    ensures TakeKey(key + t) == key
  {
    if key != [] {
      assert (key + t)[0] == key[0] && (key + t)[1..] == key[1..] + t;
      TakeKeyOf(key[1..], t);
    }
  }

  lemma GetKeyOf(num: int, sep: string, str: string, t: string)
    requires sep == ":" || sep == "/"
    requires LineKey(str) && t != [] && EndsKey(t[0])
    ensures GetKey(num, sep + str + t) == Got(if sep == "/" then Eval(num, str) else Atr(num, str), t)
  {
    var f := sep + str + t;
    assert f[1..] == str + t;
    TakeKeyOf(str, t);
    assert (str + t)[|str|..] == t;
  }

  lemma GetRefOf(mk: MkAttr, names: Names, num: int, sep: string, str: string, t: string)
    requires sep == ":" || sep == "/"
    requires Findable(mk, names, num) && LineKey(str) && t != [] && EndsKey(t[0])
    ensures Get(mk, AttrText(names, num, sep, str) + t) == Got(if sep == "/" then Eval(num, str) else Atr(num, str), t)
  {
    hide GetKey, TakeName, LineKey, ReadDigits, ShowNat;
    GetKeyOf(num, sep, str, t);
    var tail := sep + str + t;
    match names(num) {
      case Some(name) =>
        assert name + sep + str + t == name + tail;
        TakeNameOf(name, tail);
        assert (name + tail)[0] == name[0];
        assert (name + tail)[|name|..] == tail;
        assert Get(mk, name + tail) == GetReference(mk, name + tail);
      case None =>
        assert Show(num) + sep + str + t == ShowNat(num) + tail;
        ReadShow(num, tail);
        assert (ShowNat(num) + tail)[0] == ShowNat(num)[0];
        assert Get(mk, ShowNat(num) + tail) == GetReference(mk, ShowNat(num) + tail);
    }
  }

  lemma GetConst(mk: MkAttr, num: nat, t: string)
    requires t != [] && EndsKey(t[0])
    ensures Get(mk, Show(num) + t) == Got(Const(num), t)
  {
    ReadShow(num, t);
    var f := ShowNat(num) + t;
    assert f[0] == ShowNat(num)[0];
    assert Get(mk, f) == GetReference(mk, f);
  }

  /** A trailing newline of the part just read is passed over before the next character. */
  lemma PassTrail(names: Names, b: Lock, t: string)
    requires t != [] && t[0] != '\n'
    ensures PassNewline(Trail(names, b) + t) == t
  {
    assert Trail(names, b) == [] ==> Trail(names, b) + t == t;
    assert Trail(names, b) != [] ==> (Trail(names, b) + t)[1..] == t;
  }

  lemma GetPrefixed(mk: MkAttr, names: Names, c: char, l: Lock, s: string, t: string)
    requires Prefix(c)
    requires Get(mk, s + ")" + t) == Got(l, Trail(names, l) + (")" + t))
    ensures Get(mk, "(" + [c] + s + ")" + t) == Got(Wrap(c, l), t)
  {
    hide Get;
    var f := "(" + [c] + s + ")" + t;
    assert f[0] == '(' && f[1] == c && f[2..] == s + ")" + t;
    PassTrail(names, l, ")" + t);
    assert (")" + t)[1..] == t;
    StepPrefixed(mk, f, l, Trail(names, l) + (")" + t));
  }

  lemma StepPrefixed(mk: MkAttr, f: string, b: Lock, rest: string)
    requires |f| > 1 && f[0] == '(' && Prefix(f[1]) && Get(mk, f[2..]) == Got(b, rest)
    ensures Get(mk, f) == Close(Wrap(f[1], b), rest)
  {
    hide GetReference, DropLine, Wrap, Close, PassNewline;
  }

  lemma StepPair(mk: MkAttr, f: string, l: Lock, rest: string, g: string, r: Lock, rest2: string)
    requires |f| > 1 && f[0] == '(' && !Prefix(f[1]) && Get(mk, f[1..]) == Got(l, rest)
    requires g == PassNewline(rest) && g != [] && (g[0] == '&' || g[0] == '|') && Get(mk, g[1..]) == Got(r, rest2)
    ensures Get(mk, f) == Close(if g[0] == '&' then And(l, r) else Or(l, r), rest2)
  {
    hide GetReference, DropLine, Wrap, Close, PassNewline, Prefix;
  }

  predicate StartsPlain(s: string) { s != [] && !Prefix(s[0]) }

  lemma PutStarts(mk: MkAttr, names: Names, b: Lock)
    requires Savable(mk, names, b)
    ensures StartsPlain(Put(names, b))
  {
    assert forall c: char :: IsAlpha(c) || IsDigit(c) || c == '(' ==> !Prefix(c);
    if b.Const? { assert IsDigit(Show(b.thing)[0]); }
    else if b.Atr? || b.Eval? {
      var name := if names(b.num).Some? then names(b.num).value else Show(b.num);
      var sep := if b.Atr? then ":" else "/";
      assert (name + sep + b.str)[0] == name[0];
    }
  }

  lemma GetPair(mk: MkAttr, names: Names, c: char, l: Lock, r: Lock, x: string, y: string, t: string)
    requires c == '&' || c == '|'
    requires StartsPlain(x)
    requires Get(mk, x + [c] + y + ")" + t) == Got(l, Trail(names, l) + ([c] + y + ")" + t))
    requires Get(mk, y + ")" + t) == Got(r, Trail(names, r) + (")" + t))
    ensures Get(mk, "(" + x + [c] + y + ")" + t) == Got(if c == '&' then And(l, r) else Or(l, r), t)
  {
    hide Get;
    var f := "(" + x + [c] + y + ")" + t;
    var g := [c] + y + ")" + t;
    PairText(c, x, y, t);
    PassTrail(names, l, g);
    PassTrail(names, r, ")" + t);
    assert (")" + t)[1..] == t;
    StepPair(mk, f, l, Trail(names, l) + g, g, r, Trail(names, r) + (")" + t));
  }

  lemma PairText(c: char, x: string, y: string, t: string)
    requires x != []
    ensures var f := "(" + x + [c] + y + ")" + t; f[0] == '(' && f[1] == x[0] && f[1..] == x + [c] + y + ")" + t
    ensures var g := [c] + y + ")" + t; g[0] == c && g[1..] == y + ")" + t
  {
  }

  /** Reading what putbool_subexp wrote gives the lock and leaves what follows. */
  lemma {:induction false} GetPut(mk: MkAttr, names: Names, b: Lock, t: string)
    requires Savable(mk, names, b) && t != [] && EndsKey(t[0])
    ensures Get(mk, Put(names, b) + t) == Got(b, Trail(names, b) + t)
    decreases b, 1
  {
    hide Get, Savable, AttrText, StartsPlain;
    match b
    case And(l, r) => GetPutPair(mk, names, b, t);
    case Or(l, r) => GetPutPair(mk, names, b, t);
    case Const(thing) => SavableConst(mk, names, b); GetConst(mk, thing, t);
    case Atr(num, str) => GetPutAttr(mk, names, b, t);
    case Eval(num, str) => GetPutAttr(mk, names, b, t);
    case Open => SavableConst(mk, names, b);
    case _ =>
      SavableConst(mk, names, b);
      GetPut(mk, names, b.l, ")" + t);
      var s := Put(names, b.l);
      assert s + (")" + t) == s + ")" + t;
      var c := if b.Not? then '!' else if b.Indir? then '@' else if b.Is? then '=' else if b.Carry? then '+' else '$';
      GetPrefixed(mk, names, c, b.l, s, t);
      assert Put(names, b) + t == "(" + [c] + s + ")" + t;
  }

  lemma SavableConst(mk: MkAttr, names: Names, b: Lock)
    requires Savable(mk, names, b)
    ensures b != Open && (b.Const? ==> b.thing >= 0)
    ensures b.And? || b.Or? ==> Savable(mk, names, b.l) && Savable(mk, names, b.r)
    ensures b.Not? || b.Indir? || b.Is? || b.Carry? || b.OwnerIs? ==> Savable(mk, names, b.l)
    ensures b.Atr? || b.Eval? ==> Findable(mk, names, b.num) && LineKey(b.str)
  {
  }

  lemma {:induction false} GetPutAttr(mk: MkAttr, names: Names, b: Lock, t: string)
    requires Savable(mk, names, b) && (b.Atr? || b.Eval?) && t != [] && EndsKey(t[0])
    ensures Get(mk, Put(names, b) + t) == Got(b, Trail(names, b) + t)
  {
    hide Get, AttrText, Findable, LineKey;
    var sep := if b.Atr? then ":" else "/";
    var tail := Trail(names, b) + t;
    GetRefOf(mk, names, b.num, sep, b.str, tail);
    assert Put(names, b) + t == AttrText(names, b.num, sep, b.str) + tail;
  }

  lemma {:induction false} GetPutPair(mk: MkAttr, names: Names, b: Lock, t: string)
    requires Savable(mk, names, b) && (b.And? || b.Or?) && t != [] && EndsKey(t[0])
    ensures Get(mk, Put(names, b) + t) == Got(b, Trail(names, b) + t)
    decreases b, 0
  {
    hide Get, AttrText, StartsPlain;
    var c := if b.And? then '&' else '|';
    var x, y := Put(names, b.l), Put(names, b.r);
    var g := [c] + y + ")" + t;
    GetPut(mk, names, b.l, g);
    GetPut(mk, names, b.r, ")" + t);
    PutStarts(mk, names, b.l);
    assert x + g == x + [c] + y + ")" + t;
    assert y + (")" + t) == y + ")" + t;
    GetPair(mk, names, c, b.l, b.r, x, y, t);
    assert Put(names, b) + t == "(" + x + [c] + y + ")" + t;
  }

  /** What getboolexp leaves after a whole lock: the next field, short of a newline it may start with */
  lemma GetPutLock(mk: MkAttr, names: Names, b: Lock, t: string)
    requires b == Open || Savable(mk, names, b)
    ensures GetLock(mk, PutLock(names, b) + t) == Got(b, if Trail(names, b) == [] then PassNewline(t) else t)
  {
    hide Savable;
    var f := "\n" + t;
    assert PutLock(names, b) + t == Put(names, b) + f;
    if b == Open {
      assert Put(names, b) + f == f;
      assert Get(mk, f) == Got(Open, f);
    } else {
      GetPut(mk, names, b, f);
    }
    assert Trail(names, b) == [] ==> Trail(names, b) + f == f;
    assert Trail(names, b) != [] ==> (Trail(names, b) + f)[1..] == f;
    assert f[1..] == t;
  }

  /** The lock round trip: getboolexp reads the very tree and stops at the next field, unless that field is an
      empty line and the lock did not bring a newline of its own, in which case exactly that line is lost. */
  lemma LockRoundTrip(mk: MkAttr, names: Names, b: Lock, t: string)
    requires b == Open || Savable(mk, names, b)
    ensures GetLock(mk, PutLock(names, b) + t) == Got(b, t) <==> Trail(names, b) != [] || t == [] || t[0] != '\n'
    ensures GetLock(mk, PutLock(names, b) + t).Got? && GetLock(mk, PutLock(names, b) + t).lock == b
  {
    GetPutLock(mk, names, b, t);
    assert t != [] ==> t[1..] != t;
  }

  // ------------------------------------------------------------------ which attribute locks come back

  lemma GetKeyParts(num: int, g: string, b: Lock, rest: string)
    requires GetKey(num, g) == Got(b, rest) && (b.Atr? || b.Eval?)
    ensures g != [] && g[0] == (if b.Eval? then '/' else ':') && b.num == num && LineKey(b.str) && g[1..] == b.str + rest
  {
    var key := TakeKey(g[1..]);
    assert g[1..] == g[1..][..|key|] + g[1..][|key|..];
  }

  /** What was read, if an attribute lock was read that starts with a name */
  lemma CameBackParts(mk: MkAttr, f: string, b: Lock, t: string) returns (rest: string)
    requires f != [] && IsAlpha(f[0]) && GetLock(mk, f) == Got(b, t) && (b.Atr? || b.Eval?)
    ensures var nm := TakeName(f);
            && |nm| < |f| && mk(nm) == b.num > 0 && LineKey(b.str)
            && f == nm + [f[|nm|]] + (b.str + rest)
            && rest != [] && rest[0] == '\n' && PassNewline(rest[1..]) == t
  {
    hide TakeName, GetKey, LineKey;
    assert Get(mk, f) == GetReference(mk, f);
    hide Get;
    var nm := TakeName(f);
    rest := Get(mk, f).rest;
    GetKeyParts(mk(nm), f[|nm|..], b, rest);
    assert f == f[..|nm|] + [f[|nm|]] + f[|nm|..][1..];
  }

  /** Two readings of one line: the name cannot have ended early, since the lengths would not fit. */
  lemma NameIsWhole(name: string, sep: char, str: string, trail: string, t: string, nm: string, c: char, rest: string)
    requires nm + [c] + (str + rest) == name + [sep] + str + trail + ("\n" + t)
    requires |nm| <= |name| && |trail| <= 1 && LineKey(str) && sep != '\n'
    requires rest != [] && rest[0] == '\n' && PassNewline(rest[1..]) == t
    ensures nm == name
  {
    var f := name + [sep] + str + trail + ("\n" + t);
    var g := nm + [c] + (str + rest);
    assert |nm| + |rest| == |name| + |trail| + 1 + |t|;
    assert rest[1..] == t || (rest[1..][0] == '\n' && rest[1..][1..] == t);
    var k := |name| + |str|;
    assert f[k] != '\n' by { assert f[k] == if str == [] then sep else str[|str| - 1]; }
    assert g[|nm| + 1 + |str|] == rest[0];
    assert |nm| == |name|;
    assert f[..|name|] == name && g[..|nm|] == nm;
  }

  lemma TrailIsShort(names: Names, b: Lock) ensures |Trail(names, b)| <= 1 { }

  lemma AttrLockText(names: Names, b: Lock, t: string)
    requires b.Atr? || b.Eval?
    ensures PutLock(names, b) + t == NameText(names, b.num) + [if b.Eval? then '/' else ':'] + b.str + Trail(names, b) + ("\n" + t)
  {
    hide Show, Trail;
    var sep := if b.Eval? then "/" else ":";
    assert sep == [sep[0]];
    var a := NameText(names, b.num) + sep + b.str;
    assert AttrText(names, b.num, sep, b.str) == a;
    assert a + Trail(names, b) + "\n" + t == a + Trail(names, b) + ("\n" + t);
  }

  /** If an attribute lock with a name came back, its name holds no separator and is found again. */
  lemma NamedCameBack(mk: MkAttr, names: Names, b: Lock, t: string)
    requires (b.Atr? || b.Eval?) && names(b.num).Some? && names(b.num).value != [] && IsAlpha(names(b.num).value[0])
    requires GetLock(mk, PutLock(names, b) + t) == Got(b, t)
    ensures Findable(mk, names, b.num) && LineKey(b.str)
  {
    var name := names(b.num).value;
    var sep := if b.Eval? then '/' else ':';
    var f := PutLock(names, b) + t;
    AttrLockText(names, b, t);
    hide PutLock, GetLock, TakeName, Trail;
    assert |Trail(names, b)| <= 1 by { TrailIsShort(names, b); }
    assert f[0] == name[0] && f[|name|] == sep;
    var rest := CameBackParts(mk, f, b, t);
    var nm := TakeName(f);
    assert EndsName(f[|name|]) && forall i :: 0 <= i < |nm| ==> nm[i] == f[i];
    NameIsWhole(name, sep, b.str, Trail(names, b), t, nm, f[|nm|], rest);
  }

  /** An attribute lock comes back from the file, with the stream at the next field, exactly if it is savable: its
      attribute can be found again and its key ends where it should. */
  lemma AttrLockExactly(mk: MkAttr, names: Names, b: Lock, t: string)
    requires b.Atr? || b.Eval?
    requires names(b.num).Some? ==> names(b.num).value != [] && IsAlpha(names(b.num).value[0])
    requires t == [] || t[0] != '\n'
    ensures GetLock(mk, PutLock(names, b) + t) == Got(b, t) <==> Savable(mk, names, b)
  {
    if Savable(mk, names, b) {
      LockRoundTrip(mk, names, b, t);
    } else if GetLock(mk, PutLock(names, b) + t) == Got(b, t) {
      if names(b.num).Some? {
        NamedCameBack(mk, names, b, t);
      } else {
        NumberedCameBack(mk, names, b, t);
      }
    }
  }

  lemma NumberedCameBack(mk: MkAttr, names: Names, b: Lock, t: string)
    requires (b.Atr? || b.Eval?) && names(b.num).None? && GetLock(mk, PutLock(names, b) + t) == Got(b, t)
    ensures b.num >= 0 && LineKey(b.str)
  {
    var sep := [if b.Eval? then '/' else ':'];
    var f := PutLock(names, b) + t;
    var tail := sep + (b.str + (Trail(names, b) + ("\n" + t)));
    AttrLockText(names, b, t);
    hide PutLock, Get, GetKey, LineKey, Trail, Show, ShowNat;
    Regroup(Show(b.num), sep, b.str, Trail(names, b), "\n" + t);
    if b.num < 0 {
      MinusIsOpen(mk, f);
    } else {
      ShowIsPlain(b.num);
      NumberRead(mk, b.num, tail);
      GetKeyParts(b.num, tail, b, Get(mk, f).rest);
    }
  }

  lemma Regroup(a: string, b: string, c: string, d: string, e: string)
    ensures a + b + c + d + e == a + (b + (c + (d + e)))
  {
  }

  lemma NumberRead(mk: MkAttr, num: nat, tail: string)
    requires tail != [] && !IsDigit(tail[0])
    ensures Get(mk, ShowNat(num) + tail) == GetKey(num, tail)
  {
    hide ReadDigits, ShowNat, GetKey;
    var f := ShowNat(num) + tail;
    assert f[0] == ShowNat(num)[0];
    ReadShow(num, tail);
    assert Get(mk, f) == GetReference(mk, f);
  }

  lemma MinusIsOpen(mk: MkAttr, f: string)
    requires f != [] && f[0] == '-'
    ensures GetLock(mk, f) == Abort || GetLock(mk, f).lock == Open
  {
  }

  /** A legal attribute name with a slash: the reader takes what stands before the slash for the name, and an
      attribute lock comes back as an evaluation lock on another attribute, if there can be one. */
  lemma SlashedNameMisread(mk: MkAttr, names: Names, num: int, str: string, t: string)
    requires names(num) == Some("A/B") && LineKey(str)
    ensures GetLock(mk, PutLock(names, Atr(num, str)) + t) ==
            if mk("A") <= 0 then Abort else Got(Eval(mk("A"), "B:" + str), PassNewline(t))
  {
    var b := Atr(num, str);
    var f := PutLock(names, b) + t;
    var tail := "/" + ("B:" + str) + ("\n" + t);
    AttrLockText(names, b, t);
    assert Trail(names, b) == [];
    assert "A/B" + [':'] == "A" + "/" + "B:";
    assert f == "A" + tail by {
      assert "A/B" + [':'] + str + [] + ("\n" + t) == "A" + "/" + "B:" + str + ("\n" + t);
      assert "A" + "/" + "B:" + str + ("\n" + t) == "A" + ("/" + ("B:" + str) + ("\n" + t));
    }
    hide PutLock;
    assert LineKey("B:" + str);
    hide GetKey, LineKey, TakeName;
    TakeNameOf("A", tail);
    assert f[0] == 'A' && f[|"A"|..] == tail;
    assert Get(mk, f) == GetReference(mk, f);
    GetKeyOf(mk("A"), "/", "B:" + str, "\n" + t);
    assert ("\n" + t)[1..] == t;
  }

  // ------------------------------------------------------------------ locks the parser built

  predicate OneLine(s: string) { forall i :: 0 <= i < |s| ==> s[i] != '\n' }

  predicate AllOneLine(b: Lock) {
    match b
    case Open => true
    case And(l, r) => AllOneLine(l) && AllOneLine(r)
    case Or(l, r) => AllOneLine(l) && AllOneLine(r)
    case Const(_) => true
    case Atr(_, str) => OneLine(str)
    case Eval(_, str) => OneLine(str)
    case _ => AllOneLine(b.l)
  }

  predicate ParsedOneLine(p: Parsed) { p.Ok? ==> AllOneLine(p.lock) && OneLine(p.rest) }

  lemma {:induction false} SkipOneLine(s: string)
    requires OneLine(s)
    ensures OneLine(SkipSpace(s))
    decreases |s|
  {
    if s != [] { SkipOneLine(s[1..]); }
  }

  lemma RefOneLine(env: Env, s: string)
    requires OneLine(s)
    ensures ParsedOneLine(ParseRef(env, s))
  {
    hide Atoi;
    var raw := Word(s);
    var buf := StripEnd(raw);
    assert OneLine(s[|raw|..]);
    assert forall i :: 0 <= i < |buf| ==> buf[i] == raw[i] == s[i];
    assert OneLine(buf);
    AttrOneLine(env, buf);
  }

  lemma AttrOneLine(env: Env, buf: string)
    requires OneLine(buf)
    ensures TestAtr(env, buf).Some? ==> AllOneLine(TestAtr(env, buf).value)
  {
    hide Atoi;
    var n := Separator(buf);
    if n < |buf| { assert OneLine(buf[n + 1..]); }
  }

  lemma {:induction false} LOneLine(env: Env, s0: string)
    requires OneLine(s0)
    ensures ParsedOneLine(ParseL(env, s0))
    decreases |s0|, 0
  {
    hide ParseRef, ParseE, SkipSpace;
    SkipOneLine(s0);
    var s := SkipSpace(s0);
    if s != [] && s[0] == '(' {
      EOneLine(env, s[1..]);
      if ParseE(env, s[1..]).Ok? { SkipOneLine(ParseE(env, s[1..]).rest); }
    } else {
      RefOneLine(env, s);
    }
  }

  lemma {:induction false} FOneLine(env: Env, s0: string)
    requires OneLine(s0)
    ensures ParsedOneLine(ParseF(env, s0))
    decreases |s0|, 1
  {
    hide ParseL, SkipSpace;
    SkipOneLine(s0);
    var s := SkipSpace(s0);
    if s != [] && s[0] == '!' { FOneLine(env, s[1..]); } else if s != [] && Unary(s[0]) { LOneLine(env, s[1..]); } else { LOneLine(env, s); }
  }

  lemma {:induction false} TOneLine(env: Env, s: string)
    requires OneLine(s)
    ensures ParsedOneLine(ParseT(env, s))
    decreases |s|, 2
  {
    hide ParseF, SkipSpace;
    FOneLine(env, s);
    if ParseF(env, s).Ok? {
      SkipOneLine(ParseF(env, s).rest);
      var t := SkipSpace(ParseF(env, s).rest);
      if t != [] && t[0] == '&' { TOneLine(env, t[1..]); }
    }
  }

  lemma {:induction false} EOneLine(env: Env, s: string)
    requires OneLine(s)
    ensures ParsedOneLine(ParseE(env, s))
    decreases |s|, 3
  {
    hide ParseT, SkipSpace;
    TOneLine(env, s);
    if ParseT(env, s).Ok? {
      SkipOneLine(ParseT(env, s).rest);
      var t := SkipSpace(ParseT(env, s).rest);
      if t != [] && t[0] == '|' { EOneLine(env, t[1..]); }
    }
  }

  predicate AllFindable(mk: MkAttr, names: Names, b: Lock) {
    match b
    case Open => true
    case And(l, r) => AllFindable(mk, names, l) && AllFindable(mk, names, r)
    case Or(l, r) => AllFindable(mk, names, l) && AllFindable(mk, names, r)
    case Const(_) => true
    case Atr(num, _) => Findable(mk, names, num)
    case Eval(num, _) => Findable(mk, names, num)
    case _ => AllFindable(mk, names, b.l)
  }

  lemma {:induction false} LegalIsSavable(env: Env, mk: MkAttr, names: Names, b: Lock)
    requires Legal(env, b) && AllOneLine(b) && AllFindable(mk, names, b)
    ensures Savable(mk, names, b)
  {
    hide Findable;
    match b
    case Open =>
    case And(l, r) => LegalIsSavable(env, mk, names, l); LegalIsSavable(env, mk, names, r);
    case Or(l, r) => LegalIsSavable(env, mk, names, l); LegalIsSavable(env, mk, names, r);
    case Const(_) =>
    case Atr(_, _) =>
    case Eval(_, _) =>
    case _ => LegalIsSavable(env, mk, names, b.l);
  }

  /** The lock of any one-line text survives the flat file, whatever the text: broken ones as the open lock. */
  lemma ParsedLockSurvives(env: Env, mk: MkAttr, names: Names, text: string, t: string)
    requires OneLine(text) && AllFindable(mk, names, Parse(env, text))
    requires t == [] || t[0] != '\n'
    ensures GetLock(mk, PutLock(names, Parse(env, text)) + t) == Got(Parse(env, text), t)
  {
    hide Savable, Findable, AllFindable;
    var b := Parse(env, text);
    if b != Open {
      ParsedIsLegal(env, text);
      EOneLine(env, text);
      LegalIsSavable(env, mk, names, b);
    }
    LockRoundTrip(mk, names, b, t);
  }

  /** The whole way of a lock through a dump: parsed from the stored text, written, read, printed as stored text
      again.  The new text parses to the old lock with its conjunctions and disjunctions hung to the right. */
  lemma LockThroughDump(env: Env, mk: MkAttr, names: Names, text: string, t: string)
    requires OneLine(text) && AllFindable(mk, names, Parse(env, text)) && AllNameable(env, names, Parse(env, text))
    requires t == [] || t[0] != '\n'
    ensures var r := GetLock(mk, PutLock(names, Parse(env, text)) + t);
      && r.Got? && r.rest == t
      && Parse(env, Unparse(names, r.lock, Plain)) == Normal(Parse(env, text))
  {
    hide Savable, Findable, AllFindable;
    ParsedLockSurvives(env, mk, names, text, t);
    ParsedIsLegal(env, text);
    if Parse(env, text) != Open { ReparseIsNormal(env, names, Parse(env, text)); }
  }
}
