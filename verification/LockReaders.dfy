module LockReaders {
  /*
   What a reader who knows less makes of a stored lock.  test_atr in src/boolexp.c lets only God name attributes by
   number, and objects may be gone when a lock is parsed again; a reference that is not found breaks the whole lock,
   and a broken lock is the open lock.
   */

  import opened Decimal
  import opened Locks
  import opened Options

  /** Whatever env' finds, env finds too. */
  ghost predicate Narrower(env': Env, env: Env) {
    env'.atrStr == env.atrStr && (env'.god ==> env.god) && forall x :: env'.goodObj(x) ==> env.goodObj(x)
  }

  lemma RefNarrow(env': Env, env: Env, s: string)
    requires Narrower(env', env)
    ensures ParseRef(env', s) == Fail || ParseRef(env', s) == ParseRef(env, s)
  {
    var buf := StripEnd(Word(s));
    var n := Separator(buf);
    if n < |buf| && TestAtr(env', buf).None? && TestAtr(env, buf).Some? {
      var name := buf[..n];
      assert AllDigits(name);
      assert buf[0] != '#' by { assert name != [] ==> IsDigit(name[0]); }
    }
  }

  lemma {:induction false} LNarrow(env': Env, env: Env, s0: string)
    requires Narrower(env', env)
    ensures ParseL(env', s0) == Fail || ParseL(env', s0) == ParseL(env, s0)
    decreases |s0|, 0
  {
    hide ParseRef, ParseE, Narrower;
    var s := SkipSpace(s0);
    if s != [] && s[0] == '(' { ENarrow(env', env, s[1..]); } else { RefNarrow(env', env, s); }
  }

  lemma {:induction false} FNarrow(env': Env, env: Env, s0: string)
    requires Narrower(env', env)
    ensures ParseF(env', s0) == Fail || ParseF(env', s0) == ParseF(env, s0)
    decreases |s0|, 1
  {
    hide ParseL, Narrower;
    var s := SkipSpace(s0);
    if s != [] && s[0] == '!' { FNarrow(env', env, s[1..]); }
    else if s != [] && Unary(s[0]) { LNarrow(env', env, s[1..]); }
    else { LNarrow(env', env, s); }
  }

  lemma {:induction false} TNarrow(env': Env, env: Env, s: string)
    requires Narrower(env', env)
    ensures ParseT(env', s) == Fail || ParseT(env', s) == ParseT(env, s)
    decreases |s|, 2
  {
    hide ParseF, Narrower;
    FNarrow(env', env, s);
    if ParseF(env', s).Ok? {
      var t := SkipSpace(ParseF(env', s).rest);
      if t != [] && t[0] == '&' { TNarrow(env', env, t[1..]); }
    }
  }

  lemma {:induction false} ENarrow(env': Env, env: Env, s: string)
    requires Narrower(env', env)
    ensures ParseE(env', s) == Fail || ParseE(env', s) == ParseE(env, s)
    decreases |s|, 3
  {
    hide ParseT, Narrower;
    TNarrow(env', env, s);
    if ParseT(env', s).Ok? {
      var t := SkipSpace(ParseT(env', s).rest);
      if t != [] && t[0] == '|' { ENarrow(env', env, t[1..]); }
    }
  }

  /** A reader who knows less makes the same lock of a text, or the open one. */
  lemma ParseNarrow(env': Env, env: Env, s: string)
    requires Narrower(env', env)
    ensures Parse(env', s) == Open || Parse(env', s) == Parse(env, s)
  {
    hide ParseE, Narrower;
    ENarrow(env', env, s);
  }

  /** Every attribute found by name has a name: atr_str and atr_num look into one table. */
  ghost predicate Tabled(env: Env, names: Names) {
    forall s :: env.atrStr(s).Some? ==> names(env.atrStr(s).value).Some?
  }

  /** The reader finds all objects, and finds all attributes by name unless the reader is God. */
  predicate Readable(env: Env, names: Names, b: Lock) {
    match b
    case Open => true
    case And(l, r) => Readable(env, names, l) && Readable(env, names, r)
    case Or(l, r) => Readable(env, names, l) && Readable(env, names, r)
    case Const(x) => env.goodObj(x)
    case Atr(num, _) => env.god || names(num).Some?
    case Eval(num, _) => env.god || names(num).Some?
    case _ => Readable(env, names, b.l)
  }

  lemma {:induction false} ReadableIsLegal(env': Env, env: Env, names: Names, b: Lock)
    requires Narrower(env', env) && Tabled(env, names) && Legal(env, b) && AllNameable(env, names, b)
    ensures Legal(env', b) <==> Readable(env', names, b)
    ensures Readable(env', names, b) ==> AllNameable(env', names, b)
  {
    match b
    case Open =>
    case And(l, r) => ReadableIsLegal(env', env, names, l); ReadableIsLegal(env', env, names, r);
    case Or(l, r) => ReadableIsLegal(env', env, names, l); ReadableIsLegal(env', env, names, r);
    case Const(_) =>
    case Atr(num, _) => NumberIsFound(env', env, names, num);
    case Eval(num, _) => NumberIsFound(env', env, names, num);
    case _ => ReadableIsLegal(env', env, names, b.l);
  }

  lemma NumberIsFound(env': Env, env: Env, names: Names, num: int)
    requires Narrower(env', env) && Tabled(env, names) && Nameable(env, names, num)
    ensures Numbered(env', num) <==> env'.god || names(num).Some?
    ensures env'.god || names(num).Some? ==> Nameable(env', names, num)
  {
    if names(num).Some? { assert env'.atrStr(names(num).value) == Some(num); }
    if exists s :: env'.atrStr(s) == Some(num) {
      var s :| env'.atrStr(s) == Some(num);
      assert env.atrStr(s).Some?;
    }
  }

  lemma {:induction false} LegalAndThen(env: Env, x: Lock, y: Lock)
    ensures Legal(env, AndThen(x, y)) <==> Legal(env, x) && Legal(env, y)
  {
    match x case And(a, b) => LegalAndThen(env, b, y); case _ =>
  }

  lemma {:induction false} LegalOrElse(env: Env, x: Lock, y: Lock)
    ensures Legal(env, OrElse(x, y)) <==> Legal(env, x) && Legal(env, y)
  {
    match x case Or(a, b) => LegalOrElse(env, b, y); case _ =>
  }

  lemma {:induction false} LegalNormal(env: Env, b: Lock)
    ensures Legal(env, Normal(b)) <==> Legal(env, b)
  {
    match b
    case And(l, r) => LegalNormal(env, l); LegalNormal(env, r); LegalAndThen(env, Normal(l), Normal(r));
    case Or(l, r) => LegalNormal(env, l); LegalNormal(env, r); LegalOrElse(env, Normal(l), Normal(r));
    case Not(l) => LegalNormal(env, l);
    case _ =>
  }

  /** What a reader who knows less makes of a printed lock: the lock hung to the right if every reference is found
      there, and the open lock otherwise. */
  lemma ReparseNarrow(env': Env, env: Env, names: Names, b: Lock)
    requires Narrower(env', env) && Tabled(env, names)
    requires b == Open || (Legal(env, b) && AllNameable(env, names, b))
    ensures Parse(env', Unparse(names, b, Plain)) == if Readable(env', names, b) then Normal(b) else Open
  {
    hide Legal, AllNameable, Readable, Narrower, Tabled, Parse, Normal, Unparse;
    var s := Unparse(names, b, Plain);
    if b == Open {
      OpenPrint(env', names);
    } else {
      ReadableIsLegal(env', env, names, b);
      if Readable(env', names, b) {
        ReparseIsNormal(env', names, b);
      } else {
        ReparseIsNormal(env, names, b);
        ParseNarrow(env', env, s);
        ParsedIsLegal(env', s);
        LegalNormal(env', b);
      }
    }
  }

  lemma OpenPrint(env: Env, names: Names)
    ensures Parse(env, Unparse(names, Open, Plain)) == Open && Readable(env, names, Open)
    ensures Normal(Open) == Open
  {
  }

  /** Printing and parsing a second time changes nothing more. */
  lemma ReparseTwice(env: Env, names: Names, b: Lock)
    requires Legal(env, b) && AllNameable(env, names, b)
    ensures var once := Parse(env, Unparse(names, b, Plain)); Parse(env, Unparse(names, once, Plain)) == once
  {
    hide Legal, AllNameable, Parse, Normal, Unparse;
    ReparseIsNormal(env, names, b);
    LegalNormal(env, b);
    NameableNormal(env, names, b);
    ReparseIsNormal(env, names, Normal(b));
    NormalIsStable(b);
  }

  lemma {:induction false} NameableAndThen(env: Env, names: Names, x: Lock, y: Lock)
    requires AllNameable(env, names, x) && AllNameable(env, names, y)
    ensures AllNameable(env, names, AndThen(x, y))
  {
    match x case And(a, b) => NameableAndThen(env, names, b, y); case _ =>
  }

  lemma {:induction false} NameableOrElse(env: Env, names: Names, x: Lock, y: Lock)
    requires AllNameable(env, names, x) && AllNameable(env, names, y)
    ensures AllNameable(env, names, OrElse(x, y))
  {
    match x case Or(a, b) => NameableOrElse(env, names, b, y); case _ =>
  }

  lemma {:induction false} NameableNormal(env: Env, names: Names, b: Lock)
    requires AllNameable(env, names, b)
    ensures AllNameable(env, names, Normal(b))
  {
    hide Nameable;
    match b
    case And(l, r) =>
      NameableNormal(env, names, l);
      NameableNormal(env, names, r);
      NameableAndThen(env, names, Normal(l), Normal(r));
    case Or(l, r) =>
      NameableNormal(env, names, l);
      NameableNormal(env, names, r);
      NameableOrElse(env, names, Normal(l), Normal(r));
    case Not(l) => NameableNormal(env, names, l);
    case _ =>
  }

  // ------------------------------------------------------------------ which attribute locks are parsed again

  lemma RefIsAttr(env: Env, s: string)
    ensures var p := ParseRef(env, s); p.Ok? && (p.lock.Atr? || p.lock.Eval?) ==> TestAtr(env, StripEnd(Word(s))) == Some(p.lock)
  {
    hide TestAtr, Atoi;
  }

  /** A text that starts as a reference and is parsed as one attribute lock is that reference. */
  lemma OneRefParsed(env: Env, s: string, b: Lock)
    requires s != [] && (IsAlpha(s[0]) || IsDigit(s[0])) && (b.Atr? || b.Eval?) && Parse(env, s) == b
    ensures ParseRef(env, s).Ok? && ParseRef(env, s).lock == b
  {
    LOfRef(env, s);
    hide ParseL, ParseF, ParseRef, SkipSpace;
    assert ParseE(env, s).Ok? && ParseE(env, s).lock == b;
    assert ParseT(env, s).Ok? && ParseT(env, s).lock == b;
  }

  /** If a text is parsed as one attribute lock, a prefix of it up to a separator names the attribute. */
  lemma OneAttrParsed(env: Env, s: string, b: Lock) returns (n: nat)
    requires s != [] && (IsAlpha(s[0]) || IsDigit(s[0])) && (b.Atr? || b.Eval?) && Parse(env, s) == b
    ensures n < |s| && Resolves(env, s[..n], b.num)
    ensures forall i :: 0 <= i < n ==> !Ends(s[i]) && s[i] != ':' && s[i] != '/'
    ensures s[n] == ':' || s[n] == '/'
  {
    hide Parse, ParseRef, TestAtr, Resolves, Word, StripEnd, Separator;
    OneRefParsed(env, s, b);
    RefIsAttr(env, s);
    var raw := Word(s);
    var buf := StripEnd(raw);
    n := Separator(buf);
    AttrResolves(env, buf, b);
    assert forall i :: 0 <= i < |buf| ==> buf[i] == raw[i] == s[i];
    assert s[..n] == buf[..n];
  }

  lemma AttrResolves(env: Env, buf: string, b: Lock)
    requires TestAtr(env, buf) == Some(b)
    ensures var n := Separator(buf); n < |buf| && (b.Atr? || b.Eval?) && Resolves(env, buf[..n], b.num)
  {
    hide Separator, Atoi;
  }

  /** The table gives the attribute to names of one length only: to spellings of its name. */
  ghost predicate OneName(env: Env, names: Names, num: int) {
    names(num).Some? ==> forall s :: env.atrStr(s) == Some(num) ==> |s| == |names(num).value|
  }

  lemma PrintedParts(names: Names, b: Lock)
    requires (b.Atr? || b.Eval?) && NameText(names, b.num) != []
    ensures var s, name := Unparse(names, b, Plain), NameText(names, b.num);
            && |s| > |name| && s[0] == name[0] && s[..|name|] == name && s[|name|] == if b.Eval? then '/' else ':'
  {
    hide Show;
    var sep := if b.Eval? then "/" else ":";
    assert Unparse(names, b, Plain) == NameText(names, b.num) + sep + b.str;
  }

  /** If an attribute lock was parsed again, its attribute can be named. */
  lemma AttrCameBack(env: Env, names: Names, b: Lock)
    requires (b.Atr? || b.Eval?) && OneName(env, names, b.num) && Parse(env, Unparse(names, b, Plain)) == b
    requires match names(b.num) case Some(name) => name != [] && IsAlpha(name[0]) case None => b.num > 0
    ensures Nameable(env, names, b.num)
  {
    hide Parse, Unparse, Show, Atoi;
    var s, name := Unparse(names, b, Plain), NameText(names, b.num);
    if names(b.num).None? { ShowIsPlain(b.num); }
    PrintedParts(names, b);
    var n := OneAttrParsed(env, s, b);
    assert n <= |name|;
    assert n > 0;
    if names(b.num).Some? {
      assert s[..n][0] == name[0] && !IsDigit(name[0]);
      assert !AllDigits(s[..n]);
      assert s[..n] == name;
    } else {
      assert forall i :: 0 <= i < |name| ==> s[i] == name[i];
      assert n == |name|;
    }
  }

  /** An attribute lock is parsed again from its printed text exactly if its attribute can be named there. */
  lemma ReparseAttrExactly(env: Env, names: Names, b: Lock)
    requires (b.Atr? || b.Eval?) && Key(b.str) && OneName(env, names, b.num)
    requires match names(b.num) case Some(name) => name != [] && IsAlpha(name[0]) case None => b.num > 0
    ensures Parse(env, Unparse(names, b, Plain)) == b <==> Nameable(env, names, b.num)
  {
    hide Parse, Unparse, Show, Atoi, Nameable, Key, OneName;
    if Parse(env, Unparse(names, b, Plain)) == b { AttrCameBack(env, names, b); }
    if Nameable(env, names, b.num) { AttrReparsed(env, names, b); }
  }

  lemma AttrReparsed(env: Env, names: Names, b: Lock)
    requires (b.Atr? || b.Eval?) && Key(b.str) && Nameable(env, names, b.num)
    ensures Parse(env, Unparse(names, b, Plain)) == b
  {
    hide ParseL, ParseF, Nameable, Key;
    var sep := if b.Eval? then "/" else ":";
    var s := Unparse(names, b, Plain);
    AttrBack(env, names, b.num, sep, b.str, "");
    RefAttr(env, names, b.num, sep, b.str, "");
    assert s == AttrText(names, b.num, sep, b.str) && s + "" == s && s != [];
    TEnds(env, s, b, "");
    EEnds(env, s, b, "");
  }

  // ------------------------------------------------------------------ the notation

  function Ref(thing: nat): string { "#" + Show(thing) }

  lemma FactorTyped(env: Env, a: nat, t: string)
    requires env.goodObj(a) && Stops(t)
    ensures ParseL(env, Ref(a) + t) == Ok(Const(a), t) && ParseF(env, Ref(a) + t) == Ok(Const(a), t)
  {
    hide Show, ParseRef, ParseL, ParseF, ParseT, ParseE;
    ConstRef(env, a, t);
    assert (Ref(a) + t)[0] == '#';
    LOfRef(env, Ref(a) + t);
  }

  lemma ParsedAll(env: Env, s: string, b: Lock)
    requires s != "" && ParseF(env, s) == Ok(b, "")
    ensures Parse(env, s) == b
  {
    hide ParseF, ParseT, ParseE;
    TEnds(env, s, b, "");
    EEnds(env, s, b, "");
  }

  /** What the prefixes stand for: '!' not, '@' the lock of another object, '=' being it, '+' carrying it, '$' having its
      owner. */
  lemma PrefixesMean(env: Env, a: nat)
    requires env.goodObj(a)
    ensures Parse(env, Ref(a)) == Const(a) && Parse(env, "!" + Ref(a)) == Not(Const(a)) && Parse(env, "@" + Ref(a)) == Indir(Const(a))
    ensures Parse(env, "=" + Ref(a)) == Is(Const(a)) && Parse(env, "+" + Ref(a)) == Carry(Const(a))
    ensures Parse(env, "$" + Ref(a)) == OwnerIs(Const(a))
  {
    hide Parse, ParseF, ParseL, Ref;
    FactorTyped(env, a, "");
    assert Ref(a) + "" == Ref(a);
    assert Ref(a) != "" by { RefSome(a); }
    ParsedAll(env, Ref(a), Const(a));
    FOfNot(env, Ref(a), Const(a), "");
    ParsedAll(env, "!" + Ref(a), Not(Const(a)));
    FOfUnary(env, '@', Ref(a), Const(a), "");
    ParsedAll(env, "@" + Ref(a), Indir(Const(a)));
    FOfUnary(env, '=', Ref(a), Const(a), "");
    ParsedAll(env, "=" + Ref(a), Is(Const(a)));
    FOfUnary(env, '+', Ref(a), Const(a), "");
    ParsedAll(env, "+" + Ref(a), Carry(Const(a)));
    FOfUnary(env, '$', Ref(a), Const(a), "");
    ParsedAll(env, "$" + Ref(a), OwnerIs(Const(a)));
  }

  lemma RefSome(a: nat)
    ensures Ref(a) != ""
  {
  }

  /** '&' binds closer than '|', on either side. */
  lemma AndBindsCloser(env: Env, a: nat, b: nat, c: nat)
    requires env.goodObj(a) && env.goodObj(b) && env.goodObj(c)
    ensures Parse(env, Ref(a) + ("&" + (Ref(b) + ("|" + Ref(c))))) == Or(And(Const(a), Const(b)), Const(c))
    ensures Parse(env, Ref(a) + ("|" + (Ref(b) + ("&" + Ref(c))))) == Or(Const(a), And(Const(b), Const(c)))
  {
    hide ParseF, ParseT, ParseE, ParseL, Ref;
    LastTyped(env, c);
    RefSome(a);
    var s, t := Ref(b) + ("|" + Ref(c)), Ref(b) + ("&" + Ref(c));
    FactorTyped(env, b, "|" + Ref(c));
    TEnds(env, s, Const(b), "|" + Ref(c));
    FactorTyped(env, a, "&" + s);
    TGoesOn(env, Ref(a) + ("&" + s), Const(a), s, Const(b), "|" + Ref(c));
    EGoesOn(env, Ref(a) + ("&" + s), And(Const(a), Const(b)), Ref(c), Const(c), "");
    FactorTyped(env, b, "&" + Ref(c));
    TGoesOn(env, t, Const(b), Ref(c), Const(c), "");
    EEnds(env, t, And(Const(b), Const(c)), "");
    FactorTyped(env, a, "|" + t);
    TEnds(env, Ref(a) + ("|" + t), Const(a), "|" + t);
    EGoesOn(env, Ref(a) + ("|" + t), Const(a), t, And(Const(b), Const(c)), "");
  }

  lemma LastTyped(env: Env, c: nat)
    requires env.goodObj(c)
    ensures ParseT(env, Ref(c)) == Ok(Const(c), "") && ParseE(env, Ref(c)) == Ok(Const(c), "")
  {
    hide ParseF, ParseT, ParseE, Ref;
    FactorTyped(env, c, "");
    assert Ref(c) + "" == Ref(c);
    TEnds(env, Ref(c), Const(c), "");
    EEnds(env, Ref(c), Const(c), "");
  }
}
