module Locks {
  /*
   Lock expressions: the tree, the parser of src/boolexp.c in the mode used for stored locks, and the printer of
   src/unparse.c that produces stored locks.  TRUE_BOOLEXP, the null pointer, is the tree `Open`.
   The parser takes the text that is left and returns what it leaves; a failed parse is TRUE_BOOLEXP in the source.
   */

  import opened Decimal
  import opened Options

  datatype Lock =
    | Open
    | And(l: Lock, r: Lock)
    | Or(l: Lock, r: Lock)
    | Not(l: Lock)
    | Indir(l: Lock)
    | Is(l: Lock)
    | Carry(l: Lock)
    | OwnerIs(l: Lock)
    | Const(thing: int)
    | Atr(num: int, str: string)
    | Eval(num: int, str: string)

  /** What the parser looks up: attribute names, whether the player is God, which objects exist. */
  datatype Env = Env(atrStr: string -> Option<int>, god: bool, goodObj: int -> bool)

  datatype Parsed = Fail | Ok(lock: Lock, rest: string)

  const GOD := 1

  // ------------------------------------------------------------------ the parser

  /** Characters that end an object or attribute reference */
  predicate Ends(c: char) { c == '&' || c == '|' || c == ')' }

  function Word(s: string): (r: string)
    ensures r <= s && forall i :: 0 <= i < |r| ==> !Ends(r[i])
    decreases |s|
  {
    if s == [] || Ends(s[0]) then [] else [s[0]] + Word(s[1..])
  }

  function StripEnd(s: string): (r: string)
    ensures r <= s && (r != [] ==> !IsSpace(r[|r| - 1]))
    decreases |s|
  {
    if s != [] && IsSpace(s[|s| - 1]) then StripEnd(s[..|s| - 1]) else s
  }

  /** The first ':' or '/' of a text, or its length */
  function Separator(s: string): (n: nat)
    ensures n <= |s| && (forall i :: 0 <= i < n ==> s[i] != ':' && s[i] != '/') && (n < |s| ==> s[n] == ':' || s[n] == '/')
    decreases |s|
  {
    if s == [] || s[0] == ':' || s[0] == '/' then 0 else 1 + Separator(s[1..])
  }

  predicate AllDigits(s: string) { forall i :: 0 <= i < |s| ==> IsDigit(s[i]) }

  /** test_atr */
  function TestAtr(env: Env, s: string): Option<Lock> {
    var n := Separator(s);
    if n == |s| then None
    else
      var name, key := s[..n], s[n + 1..];
      var num := match env.atrStr(name)
                 case Some(k) => Some(k)
                 case None => if env.god && AllDigits(name) then Some(Atoi(name)) else None;
      match num
      case None => None
      case Some(k) => Some(if s[n] == '/' then Eval(k, key) else Atr(k, key))
  }

  /** The part of parse_boolexp_L for a reference */
  function ParseRef(env: Env, s: string): Parsed {
    var raw := Word(s);
    var buf := StripEnd(raw);
    match TestAtr(env, buf)
    case Some(b) => Ok(b, s[|raw|..])
    case None =>
      if buf == [] || buf[0] != '#' then Fail
      else
        var thing := Atoi(buf[1..]);
        if thing >= 0 && env.goodObj(thing) then Ok(Const(thing), s[|raw|..]) else Fail
  }

  /** L -> (E); L -> object identifier */
  function ParseL(env: Env, s0: string): (p: Parsed)
    ensures p.Ok? ==> |p.rest| <= |s0|
    decreases |s0|, 0
  {
    var s := SkipSpace(s0);
    if s != [] && s[0] == '(' then
      match ParseE(env, s[1..])
      case Fail => Fail
      case Ok(b, rest) =>
        var t := SkipSpace(rest);
        if t != [] && t[0] == ')' then Ok(b, t[1..]) else Fail
    else ParseRef(env, s)
  }

  predicate Unary(c: char) { c == '@' || c == '=' || c == '+' || c == '$' }

  /** F -> !F; F -> @L; F -> =L; F -> +L; F -> $L; F -> L */
  function ParseF(env: Env, s0: string): (p: Parsed)
    ensures p.Ok? ==> |p.rest| <= |s0|
    decreases |s0|, 1
  {
    var s := SkipSpace(s0);
    if s != [] && s[0] == '!' then
      match ParseF(env, s[1..])
      case Fail => Fail
      case Ok(b, rest) => Ok(Not(b), rest)
    else if s != [] && Unary(s[0]) then
      match ParseL(env, s[1..])
      case Fail => Fail
      case Ok(b, rest) =>
        if s[0] == '@' then if b.Const? then Ok(Indir(b), rest) else Fail
        else if s[0] == '=' then if b.Const? || b.Atr? then Ok(Is(b), rest) else Fail
        else if s[0] == '+' then if b.Const? || b.Atr? then Ok(Carry(b), rest) else Fail
        else if b.Const? then Ok(OwnerIs(b), rest) else Fail
    else ParseL(env, s)
  }

  /** T -> F; T -> F & T */
  function ParseT(env: Env, s: string): (p: Parsed)
    ensures p.Ok? ==> |p.rest| <= |s|
    decreases |s|, 2
  {
    match ParseF(env, s)
    case Fail => Fail
    case Ok(b, rest) =>
      var t := SkipSpace(rest);
      if t != [] && t[0] == '&' then
        match ParseT(env, t[1..])
        case Fail => Fail
        case Ok(b2, rest2) => Ok(And(b, b2), rest2)
      else Ok(b, t)
  }

  /** E -> T; E -> T | E */
  function ParseE(env: Env, s: string): (p: Parsed)
    ensures p.Ok? ==> |p.rest| <= |s|
    decreases |s|, 3
  {
    match ParseT(env, s)
    case Fail => Fail
    case Ok(b, rest) =>
      var t := SkipSpace(rest);
      if t != [] && t[0] == '|' then
        match ParseE(env, t[1..])
        case Fail => Fail
        case Ok(b2, rest2) => Ok(Or(b, b2), rest2)
      else Ok(b, t)
  }

  /** parse_boolexp: an empty or broken lock is the open lock. */
  function Parse(env: Env, s: string): Lock {
    if s == [] then Open else match ParseE(env, s) case Fail => Open case Ok(b, _) => b
  }

  // ------------------------------------------------------------------ what parsed locks look like

  /** A key string: no character that ends a reference, no trailing white space */
  predicate Key(s: string) {
    (forall i :: 0 <= i < |s| ==> !Ends(s[i])) && (s != [] ==> !IsSpace(s[|s| - 1]))
  }

  /** Only legal children, only existing objects, only proper keys */
  ghost predicate Legal(env: Env, b: Lock) {
    match b
    case Open => false
    case And(l, r) => Legal(env, l) && Legal(env, r)
    case Or(l, r) => Legal(env, l) && Legal(env, r)
    case Not(l) => Legal(env, l)
    case Indir(l) => l.Const? && Legal(env, l)
    case OwnerIs(l) => l.Const? && Legal(env, l)
    case Is(l) => (l.Const? || l.Atr?) && Legal(env, l)
    case Carry(l) => (l.Const? || l.Atr?) && Legal(env, l)
    case Const(thing) => thing >= 0 && env.goodObj(thing)
    case Atr(num, str) => Numbered(env, num) && Key(str)
    case Eval(num, str) => Numbered(env, num) && Key(str)
  }

  /** An attribute number is one that a name resolves to, or one that God typed. */
  ghost predicate Numbered(env: Env, num: int) {
    (exists s :: env.atrStr(s) == Some(num)) || (env.god && num >= 0)
  }

  /** What follows the separator is a proper key. */
  lemma KeyOf(buf: string, n: nat)
    requires n < |buf| && Key(buf)
    ensures Key(buf[n + 1..])
  {
    var key := buf[n + 1..];
    forall i | 0 <= i < |key| ensures !Ends(key[i]) { assert key[i] == buf[n + 1 + i]; }
    assert key != [] ==> key[|key| - 1] == buf[|buf| - 1];
  }

  lemma AttrIsLegal(env: Env, buf: string)
    requires Key(buf)
    ensures TestAtr(env, buf).Some? ==> Legal(env, TestAtr(env, buf).value)
  {
    hide Atoi, Key;
    var n := Separator(buf);
    if n < |buf| {
      KeyOf(buf, n);
      var name := buf[..n];
      if env.atrStr(name) == None && AllDigits(name) { AtoiOfDigits(name); }
    }
  }

  lemma BufIsKey(s: string)
    ensures Key(StripEnd(Word(s)))
  {
    var raw := Word(s);
    var buf := StripEnd(raw);
    forall i | 0 <= i < |buf| ensures !Ends(buf[i]) { assert buf[i] == raw[i]; }
  }

  lemma RefIsLegal(env: Env, s: string)
    ensures ParseRef(env, s).Ok? ==> Legal(env, ParseRef(env, s).lock)
  {
    BufIsKey(s);
    hide Word, StripEnd, Key, TestAtr, Atoi;
    AttrIsLegal(env, StripEnd(Word(s)));
  }

  lemma AtoiOfDigits(s: string)
    requires AllDigits(s)
    ensures Atoi(s) >= 0
  {
    assert s != [] ==> !IsSpace(s[0]);
  }

  lemma {:induction false} LIsLegal(env: Env, s0: string)
    ensures ParseL(env, s0).Ok? ==> Legal(env, ParseL(env, s0).lock)
    decreases |s0|, 0
  {
    var s := SkipSpace(s0);
    if s != [] && s[0] == '(' { EIsLegal(env, s[1..]); } else { RefIsLegal(env, s); }
  }

  lemma {:induction false} FIsLegal(env: Env, s0: string)
    ensures ParseF(env, s0).Ok? ==> Legal(env, ParseF(env, s0).lock)
    decreases |s0|, 1
  {
    hide ParseL;
    var s := SkipSpace(s0);
    if s != [] && s[0] == '!' { FIsLegal(env, s[1..]); } else if s != [] && Unary(s[0]) { LIsLegal(env, s[1..]); } else { LIsLegal(env, s); }
  }

  lemma {:induction false} TIsLegal(env: Env, s: string)
    ensures ParseT(env, s).Ok? ==> Legal(env, ParseT(env, s).lock)
    decreases |s|, 2
  {
    hide ParseF;
    FIsLegal(env, s);
    if ParseF(env, s).Ok? {
      var t := SkipSpace(ParseF(env, s).rest);
      if t != [] && t[0] == '&' { TIsLegal(env, t[1..]); }
    }
  }

  lemma {:induction false} EIsLegal(env: Env, s: string)
    ensures ParseE(env, s).Ok? ==> Legal(env, ParseE(env, s).lock)
    decreases |s|, 3
  {
    hide ParseT;
    TIsLegal(env, s);
    if ParseT(env, s).Ok? {
      var t := SkipSpace(ParseT(env, s).rest);
      if t != [] && t[0] == '|' { EIsLegal(env, t[1..]); }
    }
  }

  /** Every lock the parser builds is legal. */
  lemma ParsedIsLegal(env: Env, s: string)
    ensures Parse(env, s) != Open ==> Legal(env, Parse(env, s))
  {
    EIsLegal(env, s);
  }

  // ------------------------------------------------------------------ the printer for stored locks

  /** The kind of expression around the one being printed */
  datatype Outer = InNot | InAnd | Plain

  /** atr_num: the name of an attribute */
  type Names = int -> Option<string>

  function Parens(wrap: bool, s: string): string { if wrap then "(" + s + ")" else s }

  function AttrText(names: Names, num: int, sep: string, str: string): string {
    match names(num)
    case Some(name) => name + sep + str
    case None => Show(num) + sep + str
  }

  /** unparse_boolexp1 with F_QUIET */
  function Unparse(names: Names, b: Lock, outer: Outer): string {
    match b
    case Open => []
    case And(l, r) => Parens(outer.InNot?, Unparse(names, l, InAnd) + "&" + Unparse(names, r, InAnd))
    case Or(l, r) => Parens(!outer.Plain?, Unparse(names, l, Plain) + "|" + Unparse(names, r, Plain))
    case Not(l) => "!" + Unparse(names, l, InNot)
    case Indir(l) => "@" + Unparse(names, l, Plain)
    case Is(l) => "=" + Unparse(names, l, Plain)
    case Carry(l) => "+" + Unparse(names, l, Plain)
    case OwnerIs(l) => "$" + Unparse(names, l, Plain)
    case Const(thing) => if thing == -1 then "-1" else if thing == -3 then "-3" else "(#" + Show(thing) + ")"
    case Atr(num, str) => AttrText(names, num, ":", str)
    case Eval(num, str) => AttrText(names, num, "/", str)
  }

  // ------------------------------------------------------------------ printing and parsing again

  /** Conjunctions and disjunctions hang to the right, as the parser builds them. */
  function Normal(b: Lock): Lock {
    match b
    case And(l, r) => AndThen(Normal(l), Normal(r))
    case Or(l, r) => OrElse(Normal(l), Normal(r))
    case Not(l) => Not(Normal(l))
    case _ => b
  }

  function AndThen(x: Lock, y: Lock): Lock {
    match x case And(a, b) => And(a, AndThen(b, y)) case _ => And(x, y)
  }

  function OrElse(x: Lock, y: Lock): Lock {
    match x case Or(a, b) => Or(a, OrElse(b, y)) case _ => Or(x, y)
  }

  lemma {:induction false} AndThenAssoc(x: Lock, y: Lock, z: Lock)
    ensures AndThen(AndThen(x, y), z) == AndThen(x, AndThen(y, z))
  {
    match x case And(a, b) => AndThenAssoc(b, y, z); case _ =>
  }

  lemma {:induction false} OrElseAssoc(x: Lock, y: Lock, z: Lock)
    ensures OrElse(OrElse(x, y), z) == OrElse(x, OrElse(y, z))
  {
    match x case Or(a, b) => OrElseAssoc(b, y, z); case _ =>
  }

  /** A name the parser finds again: a letter first, nothing that ends the name, and it resolves to the number. */
  predicate GoodName(env: Env, num: int, name: string) {
    name != [] && IsAlpha(name[0]) && (forall i :: 0 <= i < |name| ==> !Ends(name[i]) && name[i] != ':' && name[i] != '/')
    && env.atrStr(name) == Some(num)
  }

  /** The attribute can be named in a stored lock: by its name, or by number when God parses it. */
  predicate Nameable(env: Env, names: Names, num: int) {
    match names(num)
    case Some(name) => GoodName(env, num, name)
    case None => num > 0 && Resolves(env, Show(num), num)
  }

  predicate AllNameable(env: Env, names: Names, b: Lock) {
    match b
    case And(l, r) => AllNameable(env, names, l) && AllNameable(env, names, r)
    case Or(l, r) => AllNameable(env, names, l) && AllNameable(env, names, r)
    case Atr(num, _) => Nameable(env, names, num)
    case Eval(num, _) => Nameable(env, names, num)
    case Not(l) => AllNameable(env, names, l)
    case Is(l) => AllNameable(env, names, l)
    case Carry(l) => AllNameable(env, names, l)
    case _ => true
  }

  /** What may follow an expression in a stored lock */
  predicate Stops(t: string) { t == [] || Ends(t[0]) }

  lemma StopsSkip(t: string)
    requires Stops(t)
    ensures SkipSpace(t) == t
  {
    assert t != [] ==> !IsSpace(t[0]);
  }

  lemma {:induction false} WordOf(s: string, t: string)
    requires (forall i :: 0 <= i < |s| ==> !Ends(s[i])) && Stops(t)
    ensures Word(s + t) == s
    decreases |s|
  {
    if s == [] {
      assert s + t == t;
    } else {
      assert (s + t)[1..] == s[1..] + t;
      WordOf(s[1..], t);
    }
  }

  lemma {:induction false} SeparatorOf(name: string, key: string)
    requires forall i :: 0 <= i < |name| ==> name[i] != ':' && name[i] != '/'
    requires key != [] && (key[0] == ':' || key[0] == '/')
    ensures Separator(name + key) == |name|
    decreases |name|
  {
    if name == [] {
      assert name + key == key;
    } else {
      assert (name + key)[1..] == name[1..] + key;
      SeparatorOf(name[1..], key);
    }
  }

  lemma StripNone(s: string)
    requires s != [] ==> !IsSpace(s[|s| - 1])
    ensures StripEnd(s) == s
  {
  }

  lemma ShowIsPlain(n: nat)
    ensures AllDigits(ShowNat(n)) && Show(n) == ShowNat(n)
    ensures forall i :: 0 <= i < |ShowNat(n)| ==> !Ends(ShowNat(n)[i]) && ShowNat(n)[i] != ':' && ShowNat(n)[i] != '/'
  {
    var s := ShowNat(n);
    forall i | 0 <= i < |s| ensures !Ends(s[i]) && s[i] != ':' && s[i] != '/' { assert IsDigit(s[i]); }
  }

  /** A reference whose text ends where it should */
  lemma RefOf(env: Env, buf: string, t: string)
    requires Key(buf) && Stops(t)
    ensures ParseRef(env, buf + t) == match TestAtr(env, buf)
              case Some(b) => Ok(b, t)
              case None =>
                if buf == [] || buf[0] != '#' then Fail
                else if Atoi(buf[1..]) >= 0 && env.goodObj(Atoi(buf[1..])) then Ok(Const(Atoi(buf[1..])), t) else Fail
  {
    WordOf(buf, t);
    StripNone(buf);
    assert (buf + t)[|buf|..] == t;
  }

  /** How the left side of a separator is found to be an attribute */
  predicate Resolves(env: Env, name: string, num: int) {
    env.atrStr(name) == Some(num) || (env.atrStr(name) == None && env.god && AllDigits(name) && Atoi(name) == num)
  }

  lemma TestAtrOf(env: Env, name: string, sep: string, str: string, num: int)
    requires Resolves(env, name, num) && (sep == ":" || sep == "/")
    requires forall i :: 0 <= i < |name| ==> name[i] != ':' && name[i] != '/'
    ensures TestAtr(env, name + sep + str) == Some(if sep == "/" then Eval(num, str) else Atr(num, str))
  {
    var buf := name + sep + str;
    assert buf == name + (sep + str);
    SeparatorOf(name, sep + str);
    assert buf[..|name|] == name && buf[|name| + 1..] == str && buf[|name|] == sep[0];
  }

  lemma KeyText(name: string, sep: string, str: string)
    requires (forall i :: 0 <= i < |name| ==> !Ends(name[i])) && Key(str) && (sep == ":" || sep == "/")
    ensures Key(name + sep + str)
  {
    var buf := name + sep + str;
    forall i | 0 <= i < |buf| ensures !Ends(buf[i]) {
      if |name| < i { assert buf[i] == str[i - |name| - 1]; }
    }
    assert str != [] ==> buf[|buf| - 1] == str[|str| - 1];
    assert str == [] ==> buf[|buf| - 1] == sep[0];
  }

  function NameText(names: Names, num: int): string {
    match names(num) case Some(n) => n case None => Show(num)
  }

  lemma NameIsPlain(env: Env, names: Names, num: int)
    requires Nameable(env, names, num)
    ensures var name := NameText(names, num);
            && name != [] && (IsAlpha(name[0]) || IsDigit(name[0])) && Resolves(env, name, num)
            && (forall i :: 0 <= i < |name| ==> !Ends(name[i]) && name[i] != ':' && name[i] != '/')
  {
    if names(num).None? {
      ShowIsPlain(num);
      AtoiOfShow(num, "");
      assert Show(num) + "" == Show(num);
    }
  }

  /** An attribute reference is read back. */
  lemma RefAttr(env: Env, names: Names, num: int, sep: string, str: string, t: string)
    requires Nameable(env, names, num) && Key(str) && Stops(t) && (sep == ":" || sep == "/")
    ensures ParseRef(env, AttrText(names, num, sep, str) + t) == Ok(if sep == "/" then Eval(num, str) else Atr(num, str), t)
    ensures var a := AttrText(names, num, sep, str); a != [] && (IsAlpha(a[0]) || IsDigit(a[0]))
  {
    var name := NameText(names, num);
    NameIsPlain(env, names, num);
    assert AttrText(names, num, sep, str) == name + sep + str && (name + sep + str)[0] == name[0];
    KeyText(name, sep, str);
    TestAtrOf(env, name, sep, str, num);
    hide Resolves, Nameable, Key, ParseRef, TestAtr;
    RefOf(env, name + sep + str, t);
  }

  // Unfolding the parser where the text is known

  lemma LInParens(env: Env, inner: string, b: Lock, t: string)
    requires ParseE(env, inner + (")" + t)) == Ok(b, ")" + t)
    ensures ParseL(env, "(" + inner + ")" + t) == Ok(b, t) && ParseF(env, "(" + inner + ")" + t) == Ok(b, t)
  {
    var s := "(" + inner + ")" + t;
    assert s[0] == '(' && s[1..] == inner + (")" + t);
    assert SkipSpace(s) == s && SkipSpace(")" + t) == ")" + t && (")" + t)[1..] == t;
    hide ParseE;
  }

  lemma FOfUnary(env: Env, c: char, s: string, b: Lock, t: string)
    requires Unary(c) && ParseL(env, s) == Ok(b, t)
    requires b.Const? || (b.Atr? && (c == '=' || c == '+'))
    ensures ParseF(env, [c] + s) ==
            Ok(if c == '@' then Indir(b) else if c == '=' then Is(b) else if c == '+' then Carry(b) else OwnerIs(b), t)
  {
    var x := [c] + s;
    assert x[0] == c && x[1..] == s && SkipSpace(x) == x;
    hide ParseL;
  }

  lemma FOfNot(env: Env, s: string, b: Lock, t: string)
    requires ParseF(env, s) == Ok(b, t)
    ensures ParseF(env, "!" + s) == Ok(Not(b), t)
  {
    var x := "!" + s;
    assert x[0] == '!' && x[1..] == s && SkipSpace(x) == x;
  }

  lemma LOfRef(env: Env, s: string)
    requires s != [] && !IsSpace(s[0]) && s[0] != '('
    ensures ParseL(env, s) == ParseRef(env, s)
    ensures s[0] != '!' && !Unary(s[0]) ==> ParseF(env, s) == ParseRef(env, s)
  {
    assert SkipSpace(s) == s;
  }

  lemma TEnds(env: Env, s: string, b: Lock, t: string)
    requires ParseF(env, s) == Ok(b, t) && Stops(t) && (t != [] ==> t[0] != '&')
    ensures ParseT(env, s) == Ok(b, t)
  {
    StopsSkip(t);
  }

  lemma TGoesOn(env: Env, s: string, b: Lock, t: string, y: Lock, t3: string)
    requires ParseF(env, s) == Ok(b, "&" + t) && ParseT(env, t) == Ok(y, t3)
    ensures ParseT(env, s) == Ok(And(b, y), t3)
  {
    StopsSkip("&" + t);
    assert ("&" + t)[1..] == t;
  }

  lemma EEnds(env: Env, s: string, b: Lock, t: string)
    requires ParseT(env, s) == Ok(b, t) && Stops(t) && (t != [] ==> t[0] != '|')
    ensures ParseE(env, s) == Ok(b, t)
  {
    StopsSkip(t);
  }

  lemma EGoesOn(env: Env, s: string, b: Lock, t: string, y: Lock, t3: string)
    requires ParseT(env, s) == Ok(b, "|" + t) && ParseE(env, t) == Ok(y, t3)
    ensures ParseE(env, s) == Ok(Or(b, y), t3)
  {
    StopsSkip("|" + t);
    assert ("|" + t)[1..] == t;
  }

  lemma ConstRef(env: Env, thing: nat, t: string)
    requires env.goodObj(thing) && Stops(t)
    ensures ParseRef(env, "#" + Show(thing) + t) == Ok(Const(thing), t)
  {
    var buf := "#" + Show(thing);
    ShowIsPlain(thing);
    assert Key(buf) by { assert IsDigit(buf[|buf| - 1]); }
    assert TestAtr(env, buf) == None by {
      assert forall i :: 0 <= i < |buf| ==> buf[i] != ':' && buf[i] != '/';
      assert Separator(buf) == |buf|;
    }
    assert Atoi(buf[1..]) == thing by { AtoiOfShow(thing, ""); assert buf[1..] == Show(thing) + ""; }
    hide Key, TestAtr, Atoi, ParseRef, Show;
    RefOf(env, buf, t);
  }

  /** An object reference, printed in parentheses */
  lemma ConstBack(env: Env, thing: nat, t: string)
    requires env.goodObj(thing)
    ensures var s := "(#" + Show(thing) + ")"; ParseL(env, s + t) == Ok(Const(thing), t) && ParseF(env, s + t) == Ok(Const(thing), t)
  {
    hide ParseRef, ParseL, ParseF, ParseT, ParseE, Show;
    var buf := "#" + Show(thing);
    var s := buf + (")" + t);
    assert s[0] == '#';
    ConstRef(env, thing, ")" + t);
    LOfRef(env, s);
    TEnds(env, s, Const(thing), ")" + t);
    EEnds(env, s, Const(thing), ")" + t);
    LInParens(env, buf, Const(thing), t);
    assert "(#" + Show(thing) + ")" + t == "(" + buf + ")" + t;
  }

  /** Printed as one factor: no parentheses needed, or parentheses given */
  predicate Factor(b: Lock, outer: Outer) {
    (b.And? ==> outer.InNot?) && (b.Or? ==> !outer.Plain?)
  }

  lemma LeafBack(env: Env, names: Names, b: Lock, t: string)
    requires Legal(env, b) && AllNameable(env, names, b) && Stops(t) && (b.Const? || b.Atr? || b.Eval?)
    ensures ParseL(env, Unparse(names, b, Plain) + t) == Ok(b, t) && ParseF(env, Unparse(names, b, Plain) + t) == Ok(b, t)
  {
    match b
    case Const(thing) => ConstBack(env, thing, t);
    case Atr(num, str) => AttrBack(env, names, num, ":", str, t);
    case Eval(num, str) => AttrBack(env, names, num, "/", str, t);
  }

  lemma AttrBack(env: Env, names: Names, num: int, sep: string, str: string, t: string)
    requires Nameable(env, names, num) && Key(str) && Stops(t) && (sep == ":" || sep == "/")
    ensures var p := Ok(if sep == "/" then Eval(num, str) else Atr(num, str), t); var s := AttrText(names, num, sep, str) + t;
            ParseL(env, s) == p && ParseF(env, s) == p
  {
    RefAttr(env, names, num, sep, str, t);
    var s := AttrText(names, num, sep, str) + t;
    assert s[0] == AttrText(names, num, sep, str)[0];
    hide ParseRef, Nameable, Key;
    LOfRef(env, s);
  }

  /** The text of a lock that is not a disjunction does not depend on whether it stands in a conjunction. */
  lemma SameText(names: Names, b: Lock)
    ensures !b.Or? ==> Unparse(names, b, Plain) == Unparse(names, b, InAnd)
    ensures !b.Or? && !b.And? ==> forall o :: Unparse(names, b, o) == Unparse(names, b, Plain)
  {
    forall o | !b.Or? && !b.And? ensures Unparse(names, b, o) == Unparse(names, b, Plain) { }
  }

  lemma NormalKind(b: Lock)
    ensures Normal(b).And? <==> b.And?
    ensures Normal(b).Or? <==> b.Or?
  {
    if b.And? { AndThenKind(Normal(b.l), Normal(b.r)); }
    if b.Or? { OrElseKind(Normal(b.l), Normal(b.r)); }
  }

  lemma AndThenKind(x: Lock, y: Lock) ensures AndThen(x, y).And? { }

  lemma OrElseKind(x: Lock, y: Lock) ensures OrElse(x, y).Or? { }

  /** A single factor is parsed back. */
  lemma {:induction false} FactorBack(env: Env, names: Names, b: Lock, outer: Outer, t: string)
    requires Legal(env, b) && AllNameable(env, names, b) && Stops(t) && Factor(b, outer)
    ensures ParseF(env, Unparse(names, b, outer) + t) == Ok(Normal(b), t)
    decreases b, if b.And? then 5 else if b.Or? then 2 else 0
  {
    hide ParseL, ParseF, ParseT, ParseE;
    var s := Unparse(names, b, outer);
    match b
    case And(_, _) =>
      DisjunctionBack(env, names, b, ")" + t);
      LInParens(env, Unparse(names, b, Plain), Normal(b), t);
      assert s + t == "(" + Unparse(names, b, Plain) + ")" + t;
    case Or(_, _) =>
      DisjunctionBack(env, names, b, ")" + t);
      LInParens(env, Unparse(names, b, Plain), Normal(b), t);
      assert s + t == "(" + Unparse(names, b, Plain) + ")" + t;
    case Not(l) =>
      FactorBack(env, names, l, InNot, t);
      FOfNot(env, Unparse(names, l, InNot) + t, Normal(l), t);
      assert s + t == "!" + (Unparse(names, l, InNot) + t);
    case Indir(l) => UnaryBack(env, names, '@', l, t); assert s + t == "@" + (Unparse(names, l, Plain) + t);
    case Is(l) => UnaryBack(env, names, '=', l, t); assert s + t == "=" + (Unparse(names, l, Plain) + t);
    case Carry(l) => UnaryBack(env, names, '+', l, t); assert s + t == "+" + (Unparse(names, l, Plain) + t);
    case OwnerIs(l) => UnaryBack(env, names, '$', l, t); assert s + t == "$" + (Unparse(names, l, Plain) + t);
    case Const(_) => LeafBack(env, names, b, t);
    case Atr(_, _) => LeafBack(env, names, b, t);
    case Eval(_, _) => LeafBack(env, names, b, t);
  }

  lemma UnaryBack(env: Env, names: Names, c: char, l: Lock, t: string)
    requires Legal(env, l) && AllNameable(env, names, l) && Stops(t) && Unary(c)
    requires l.Const? || (l.Atr? && (c == '=' || c == '+'))
    ensures ParseF(env, [c] + (Unparse(names, l, Plain) + t)) ==
            Ok(if c == '@' then Indir(l) else if c == '=' then Is(l) else if c == '+' then Carry(l) else OwnerIs(l), t)
  {
    hide ParseL, ParseF, Legal, AllNameable, Unparse;
    LeafBack(env, names, l, t);
    FOfUnary(env, c, Unparse(names, l, Plain) + t, l, t);
  }

  /** A conjunction is parsed back when no '&' follows. */
  lemma {:induction false} ConjunctionBack(env: Env, names: Names, b: Lock, t: string)
    requires Legal(env, b) && AllNameable(env, names, b) && Stops(t) && (t != [] ==> t[0] != '&')
    ensures ParseT(env, Unparse(names, b, InAnd) + t) == Ok(Normal(b), t)
    decreases b, 3
  {
    hide ParseF, ParseT;
    var s := Unparse(names, b, InAnd);
    if b.And? {
      var r := Unparse(names, b.r, InAnd) + t;
      ConjunctionBack(env, names, b.r, t);
      ConjunctionMore(env, names, b.l, r, Normal(b.r), t);
      assert s + t == Unparse(names, b.l, InAnd) + "&" + r;
    } else {
      FactorBack(env, names, b, InAnd, t);
      TEnds(env, s + t, Normal(b), t);
    }
  }

  /** A conjunction followed by '&' and another one */
  lemma {:induction false} ConjunctionMore(env: Env, names: Names, b: Lock, t: string, y: Lock, t3: string)
    requires Legal(env, b) && AllNameable(env, names, b) && ParseT(env, t) == Ok(y, t3)
    ensures ParseT(env, Unparse(names, b, InAnd) + "&" + t) == Ok(AndThen(Normal(b), y), t3)
    decreases b, 3
  {
    hide ParseF, ParseT;
    var s := Unparse(names, b, InAnd);
    if b.And? {
      var r := Unparse(names, b.r, InAnd) + "&" + t;
      ConjunctionMore(env, names, b.r, t, y, t3);
      ConjunctionMore(env, names, b.l, r, AndThen(Normal(b.r), y), t3);
      AndThenAssoc(Normal(b.l), Normal(b.r), y);
      assert s + "&" + t == Unparse(names, b.l, InAnd) + "&" + r;
    } else {
      FactorBack(env, names, b, InAnd, "&" + t);
      assert s + "&" + t == s + ("&" + t);
      TGoesOn(env, s + "&" + t, Normal(b), t, y, t3);
      NormalKind(b);
    }
  }

  /** A whole expression is parsed back at the end of the text or before ')'. */
  lemma {:induction false} DisjunctionBack(env: Env, names: Names, b: Lock, t: string)
    requires Legal(env, b) && AllNameable(env, names, b) && (t == [] || t[0] == ')')
    ensures ParseE(env, Unparse(names, b, Plain) + t) == Ok(Normal(b), t)
    decreases b, if b.Or? then 1 else 4
  {
    hide ParseT, ParseE;
    var s := Unparse(names, b, Plain);
    if b.Or? {
      var r := Unparse(names, b.r, Plain) + t;
      DisjunctionBack(env, names, b.r, t);
      DisjunctionMore(env, names, b.l, r, Normal(b.r), t);
      assert s + t == Unparse(names, b.l, Plain) + "|" + r;
    } else {
      SameText(names, b);
      ConjunctionBack(env, names, b, t);
      EEnds(env, s + t, Normal(b), t);
    }
  }

  lemma {:induction false} DisjunctionMore(env: Env, names: Names, b: Lock, t: string, y: Lock, t3: string)
    requires Legal(env, b) && AllNameable(env, names, b) && ParseE(env, t) == Ok(y, t3)
    ensures ParseE(env, Unparse(names, b, Plain) + "|" + t) == Ok(OrElse(Normal(b), y), t3)
    decreases b, if b.Or? then 1 else 4
  {
    hide ParseT, ParseE;
    var s := Unparse(names, b, Plain);
    if b.Or? {
      var r := Unparse(names, b.r, Plain) + "|" + t;
      DisjunctionMore(env, names, b.r, t, y, t3);
      DisjunctionMore(env, names, b.l, r, OrElse(Normal(b.r), y), t3);
      OrElseAssoc(Normal(b.l), Normal(b.r), y);
      assert s + "|" + t == Unparse(names, b.l, Plain) + "|" + r;
    } else {
      SameText(names, b);
      ConjunctionBack(env, names, b, "|" + t);
      assert s + "|" + t == s + ("|" + t);
      EGoesOn(env, s + "|" + t, Normal(b), t, y, t3);
      NormalKind(b);
    }
  }

  /** Parsing a printed lock gives the lock back, with its conjunctions and disjunctions hung to the right. */
  lemma ReparseIsNormal(env: Env, names: Names, b: Lock)
    requires Legal(env, b) && AllNameable(env, names, b)
    ensures Parse(env, Unparse(names, b, Plain)) == Normal(b)
  {
    DisjunctionBack(env, names, b, "");
    assert Unparse(names, b, Plain) + "" == Unparse(names, b, Plain);
    EmptyFails(env);
  }

  lemma EmptyFails(env: Env)
    ensures ParseE(env, "") == Fail
  {
    assert SkipSpace("") == "" && Word("") == "" && StripEnd("") == "" && Separator("") == 0;
    assert ParseRef(env, "") == Fail;
    assert ParseL(env, "") == Fail;
    assert ParseF(env, "") == Fail;
    assert ParseT(env, "") == Fail;
  }

  /** Printing and parsing a second time changes nothing more. */
  lemma {:induction false} NormalIsStable(b: Lock)
    ensures Normal(Normal(b)) == Normal(b)
  {
    match b
    case And(l, r) =>
      NormalIsStable(l);
      NormalIsStable(r);
      NormalAndThen(Normal(l), Normal(r));
    case Or(l, r) =>
      NormalIsStable(l);
      NormalIsStable(r);
      NormalOrElse(Normal(l), Normal(r));
    case Not(l) => NormalIsStable(l);
    case _ =>
  }

  lemma {:induction false} NormalAndThen(x: Lock, y: Lock)
    ensures Normal(AndThen(x, y)) == AndThen(Normal(x), Normal(y))
  {
    match x
    case And(a, b) =>
      NormalAndThen(b, y);
      AndThenAssoc(Normal(a), Normal(b), Normal(y));
    case _ =>
  }

  lemma {:induction false} NormalOrElse(x: Lock, y: Lock)
    ensures Normal(OrElse(x, y)) == OrElse(Normal(x), Normal(y))
  {
    match x
    case Or(a, b) =>
      NormalOrElse(b, y);
      OrElseAssoc(Normal(a), Normal(b), Normal(y));
    case _ =>
  }
}
