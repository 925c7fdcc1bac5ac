module DumpFile {
  /*
   A whole flat file: db_write and db_read of src/db_rw.c, in the server's own build and the MUX format.
   */

  import opened Decimal
  import opened FlatFile
  import opened LockFile
  import opened Locks
  import opened ObjectRecord
  import opened Options

  /** A user-named attribute */
  datatype Vattr = Vattr(number: int, flags: int, name: string)

  datatype Db = Db(objs: seq<Obj>, vattrs: seq<Vattr>, attrNext: int, recordPlayers: int)

  const EndMark := "**END OF DUMP***"

  // ------------------------------------------------------------------ writing

  /** The definition of a user-named attribute is a string without escapes. */
  function PutVattr(a: Vattr, t: string): string {
    "+A" + PutRef(a.number, "\"" + (Show(a.flags) + (":" + (a.name + ("\"\n" + t)))))
  }

  function PutVattrs(vattrs: seq<Vattr>, t: string): string {
    if vattrs == [] then t else PutVattr(vattrs[0], PutVattrs(vattrs[1..], t))
  }

  /** The objects from number i on; those being destroyed are left out */
  function PutObjs(tb: Tables, v: int, panicking: bool, objs: seq<Obj>, i: nat, t: string): string
    decreases |objs| - i
  {
    if i >= |objs| then t
    else if Going(objs[i]) then PutObjs(tb, v, panicking, objs, i + 1, t)
    else "!" + PutRef(i, PutObject(tb, v, panicking, objs[i], PutObjs(tb, v, panicking, objs, i + 1, t)))
  }

  /** db_write; the attributes marked as deleted are not among db.vattrs */
  function PutDb(tb: Tables, v: int, panicking: bool, db: Db): string {
    "+X" + PutRef(v, "+S" + PutRef(|db.objs|, "+N" + PutRef(db.attrNext, "-R" + PutRef(db.recordPlayers,
      PutVattrs(db.vattrs, PutObjs(tb, v, panicking, db.objs, 0, "*" + (EndMark + "\n")))))))
  }

  // ------------------------------------------------------------------ reading

  datatype Loader = Loader(cfg: Config, headerGotten: bool, sizeGotten: bool, nextGotten: bool, minSize: int, db: Db)

  const Fresh := Loader(PlainConfig, false, false, false, 0, Db([], [], 0, 0))

  /** db_grow */
  function Grow(objs: seq<Obj>, n: nat): (r: seq<Obj>)
    ensures |r| == (if |objs| < n then n else |objs|) && objs <= r && forall i :: |objs| <= i < |r| ==> r[i] == Blank
    decreases n
  {
    if n <= |objs| then objs else Grow(objs, n - 1) + [Blank]
  }

  /** What a "+A" line defines; the flags default to the configured ones */
  function VattrOf(number: int, s: string, flags: int): Vattr {
    if s != [] && IsDigit(s[0]) then
      var (n, rest) := ReadDigits(s, 0);
      Vattr(number, n, if rest == [] then [] else rest[1..])
    else Vattr(number, flags, s)
  }

  datatype Step = Bad | Ended | GoOn(st: Loader, f: string)

  /** One tag of db_read */
  function Tag(tb: Tables, flags: int, st: Loader, f: string): (r: Step)
    ensures r.GoOn? ==> |r.f| < |f|
  {
    if f == [] then Bad
    else if f[0] == '-' then MiscTag(st, f[1..])
    else if f[0] == '+' then HeaderTag(flags, st, f[1..])
    else if f[0] == '!' then ObjectTag(tb, st, f[1..])
    else if f[0] == '*' then if GetString(false, f[1..]).0 == EndMark then Ended else Bad
    else Bad
  }

  function MiscTag(st: Loader, f: string): (r: Step)
    ensures r.GoOn? ==> |r.f| <= |f|
  {
    if f != [] && f[0] == 'R' then
      match FlatFile.GetRef(f[1..])
      case None => Bad
      case Some((n, rest)) => GoOn(st.(db := st.db.(recordPlayers := n)), rest)
    else GoOn(st, GetString(false, if f == [] then f else f[1..]).1)
  }

  function HeaderTag(flags: int, st: Loader, f: string): (r: Step)
    ensures r.GoOn? ==> |r.f| <= |f|
  {
    if f == [] then GoOn(st, f)
    else
      var c, g := f[0], f[1..];
      if (c == 'X' && st.headerGotten) || (c == 'S' && st.sizeGotten) || (c == 'N' && st.nextGotten)
        || !(c == 'X' || c == 'S' || c == 'N' || c == 'A' || c == 'F')
      then GoOn(st, GetString(false, g).1)
      else match FlatFile.GetRef(g)
        case None => Bad
        case Some((n, rest)) =>
          if c == 'X' then GoOn(st.(headerGotten := true, cfg := ConfigOf(n)), rest)
          else if c == 'S' then GoOn(st.(sizeGotten := true, minSize := n), rest)
          else if c == 'N' then GoOn(st.(nextGotten := true, db := st.db.(attrNext := n)), rest)
          else if c == 'F' then GoOn(st, rest)
          else
            var (s, rest2) := GetString(st.cfg.newStrings, rest);
            GoOn(st.(db := st.db.(vattrs := st.db.vattrs + [VattrOf(n, s, flags)])), rest2)
  }

  function ObjectTag(tb: Tables, st: Loader, f: string): (r: Step)
    ensures r.GoOn? ==> |r.f| <= |f|
  {
    match FlatFile.GetRef(f)
    case None => Bad
    case Some((i, rest)) =>
      if i < 0 then Bad
      else
        var objs := Grow(st.db.objs, i + 1);
        match GetObject(tb, st.cfg, objs[i], rest)
        case Stop => Bad
        case At(o, rest2) => GoOn(st.(db := st.db.(objs := objs[i := o])), rest2)
  }

  /** db_read */
  function GetDb(tb: Tables, flags: int, st: Loader, f: string): Option<Loader>
    decreases |f|
  {
    match Tag(tb, flags, st, f)
    case Bad => None
    case Ended => Some(st)
    case GoOn(st', rest) => GetDb(tb, flags, st', rest)
  }

  // ------------------------------------------------------------------ a file read back

  predicate PlainName(s: string) { Text(s) && forall i :: 0 <= i < |s| ==> !Special(s[i]) }

  /** A definition that reads back: small enough and without characters that need an escape */
  predicate GoodVattr(a: Vattr) {
    Int(a.number) && Int(a.flags) && a.flags >= 0 && PlainName(a.name) && |a.name| < LBUF_SIZE - 12
  }

  ghost predicate GoodDb(tb: Tables, db: Db) {
    && (forall i :: 0 <= i < |db.objs| && !Going(db.objs[i]) ==> Storable(tb, db.objs[i]))
    && (forall i :: 0 <= i < |db.vattrs| ==> GoodVattr(db.vattrs[i]))
    && Int(|db.objs|) && Int(db.attrNext) && Int(db.recordPlayers)
  }

  lemma {:induction false} NoEscape(s: string, t: string)
    requires forall i :: 0 <= i < |s| ==> !Special(s[i])
    ensures Escape(s, t) == s + t
  {
    if s != [] {
      NoEscape(s[1..], t);
      assert [s[0]] + (s[1..] + t) == s + t;
    } else {
      assert s + t == t;
    }
  }

  lemma ShowIsPlain(n: int)
    ensures PlainName(Show(n))
  {
  }

  lemma VattrText(a: Vattr, t: string)
    requires GoodVattr(a)
    ensures PutVattr(a, t) == "+A" + PutRef(a.number, PutString(Show(a.flags) + ":" + a.name, t))
    ensures Text(Show(a.flags) + ":" + a.name) && |Show(a.flags) + ":" + a.name| < LBUF_SIZE
  {
    hide Show;
    var s := Show(a.flags) + ":" + a.name;
    ShowIsPlain(a.flags);
    IntWidth(a.flags);
    assert PlainName(s);
    NoEscape(s, "\"\n" + t);
    assert s + ("\"\n" + t) == Show(a.flags) + (":" + (a.name + ("\"\n" + t)));
  }

  lemma VattrBack(a: Vattr, flags: int)
    requires GoodVattr(a)
    ensures VattrOf(a.number, Show(a.flags) + ":" + a.name, flags) == a
  {
    hide ReadDigits;
    var s := Show(a.flags) + ":" + a.name;
    assert s == ShowNat(a.flags) + (":" + a.name) && s[0] == Show(a.flags)[0];
    ReadShow(a.flags, ":" + a.name);
    assert (":" + a.name)[1..] == a.name;
  }

  lemma VattrTag(tb: Tables, flags: int, st: Loader, a: Vattr, t: string)
    requires GoodVattr(a) && st.cfg.newStrings
    ensures Tag(tb, flags, st, PutVattr(a, t)) == GoOn(st.(db := st.db.(vattrs := st.db.vattrs + [a])), t)
  {
    hide PutVattr, PutString, PutRef, FlatFile.GetRef, GetString, VattrOf, Show;
    VattrText(a, t);
    VattrBack(a, flags);
    var s := Show(a.flags) + ":" + a.name;
    var f := PutVattr(a, t);
    var body := PutRef(a.number, PutString(s, t));
    assert f[0] == '+' && f[1..] == "A" + body;
    assert ("A" + body)[0] == 'A' && ("A" + body)[1..] == body;
    RefRoundTrip(a.number, PutString(s, t));
    StringRoundTrip(s, t);
  }

  lemma {:induction false} UnquotedKeeps(f: string, last: char, buf: string)
    ensures buf <= Unquoted(f, last, buf).0
    decreases |f|
  {
    if f != [] && !(f[0] == NUL || (f[0] == '\n' && last != '\r')) { UnquotedKeeps(f[1..], f[0], Append(buf, f[0])); }
  }

  /** A definition line comes back if and only if the format has quoted strings: without them its quotes become part
      of the name. */
  lemma VattrExactly(tb: Tables, flags: int, st: Loader, a: Vattr, t: string)
    requires GoodVattr(a)
    ensures Tag(tb, flags, st, PutVattr(a, t)) == GoOn(st.(db := st.db.(vattrs := st.db.vattrs + [a])), t) <==> st.cfg.newStrings
  {
    if st.cfg.newStrings {
      VattrTag(tb, flags, st, a, t);
    } else {
      UnquotedVattr(tb, flags, st, a, t);
    }
  }

  lemma UnquotedVattr(tb: Tables, flags: int, st: Loader, a: Vattr, t: string)
    requires GoodVattr(a) && !st.cfg.newStrings
    ensures Tag(tb, flags, st, PutVattr(a, t)) != GoOn(st.(db := st.db.(vattrs := st.db.vattrs + [a])), t)
  {
    var g := "\"" + (Show(a.flags) + (":" + (a.name + ("\"\n" + t))));
    var body := PutRef(a.number, g);
    QuoteKept(a, flags, g);
    assert PutVattr(a, t) == "+A" + body;
    TwoChars("+A", body);
    hide PutRef, FlatFile.GetRef, Show, PutVattr, GetString, VattrOf;
    RefRoundTrip(a.number, g);
    var made := VattrOf(a.number, GetString(false, g).0, flags);
    var made' := st.db.vattrs + [made];
    assert made'[|st.db.vattrs|] != (st.db.vattrs + [a])[|st.db.vattrs|];
    assert Tag(tb, flags, st, "+A" + body) == GoOn(st.(db := st.db.(vattrs := made')), GetString(false, g).1);
  }

  lemma QuoteKept(a: Vattr, flags: int, g: string)
    requires GoodVattr(a) && g != [] && g[0] == '"'
    ensures VattrOf(a.number, GetString(false, g).0, flags) != a
  {
    assert Append([], '"') == "\"";
    UnquotedKeeps(g[1..], '"', "\"");
    var s := GetString(false, g).0;
    assert "\"" <= s && s[0] == '"';
    hide GetString;
    assert VattrOf(a.number, s, flags).name == s;
  }

  lemma {:induction false} VattrsBack(tb: Tables, flags: int, st: Loader, vattrs: seq<Vattr>, t: string)
    requires (forall i :: 0 <= i < |vattrs| ==> GoodVattr(vattrs[i])) && (st.cfg.newStrings || vattrs == [])
    ensures GetDb(tb, flags, st, PutVattrs(vattrs, t)) == GetDb(tb, flags, st.(db := st.db.(vattrs := st.db.vattrs + vattrs)), t)
    decreases |vattrs|
  {
    hide Tag, PutVattr;
    if vattrs == [] {
      assert st.db.vattrs + vattrs == st.db.vattrs;
    } else {
      VattrTag(tb, flags, st, vattrs[0], PutVattrs(vattrs[1..], t));
      VattrsBack(tb, flags, st.(db := st.db.(vattrs := st.db.vattrs + [vattrs[0]])), vattrs[1..], t);
      assert st.db.vattrs + [vattrs[0]] + vattrs[1..] == st.db.vattrs + vattrs;
    }
  }

  /** The objects 0..n of a database that read back as objs: the surviving ones restored, the others blank */
  ghost predicate ObjsRestored(tb: Tables, v: int, db: seq<Obj>, n: nat, objs: seq<Obj>)
    requires n <= |db|
  {
    && |objs| <= n
    && (forall i :: 0 <= i < |objs| && Going(db[i]) ==> objs[i] == Blank)
    && (forall i :: 0 <= i < |objs| && !Going(db[i]) ==> Restored(tb, v, Blank, db[i], objs[i]) && Listed(objs[i]))
    && (forall i :: |objs| <= i < n ==> Going(db[i]))
  }

  lemma ObjectTagBack(tb: Tables, v: int, flags: int, panicking: bool, st: Loader, o: Obj, i: nat, t: string)
    requires Storable(tb, o) && Agreed(v, panicking) && st.cfg == ConfigOf(v) && |st.db.objs| <= i && Int(i)
    ensures var r := Tag(tb, flags, st, "!" + PutRef(i, PutObject(tb, v, panicking, o, t)));
      && r.GoOn? && r.f == t
      && r.st == st.(db := st.db.(objs := r.st.db.objs))
      && |r.st.db.objs| == i + 1 && st.db.objs <= r.st.db.objs
      && (forall k :: |st.db.objs| <= k < i ==> r.st.db.objs[k] == Blank)
      && Restored(tb, v, Blank, o, r.st.db.objs[i]) && Listed(r.st.db.objs[i])
  {
    hide PutRef, PutObject, FlatFile.GetRef, GetObject, Storable, Restored, ConfigOf, Agreed, MiscTag, HeaderTag;
    var body := PutRef(i, PutObject(tb, v, panicking, o, t));
    assert ("!" + body)[0] == '!' && ("!" + body)[1..] == body;
    RefRoundTrip(i, PutObject(tb, v, panicking, o, t));
    RecordRoundTrip(tb, v, panicking, Blank, o, t);
  }

  lemma {:induction false} ObjsBack(tb: Tables, v: int, flags: int, panicking: bool, st: Loader, db: Db, i: nat, t: string)
      returns (st': Loader)
    requires GoodDb(tb, db) && Agreed(v, panicking) && st.cfg == ConfigOf(v) && i <= |db.objs|
    requires ObjsRestored(tb, v, db.objs, i, st.db.objs)
    ensures GetDb(tb, flags, st, PutObjs(tb, v, panicking, db.objs, i, t)) == GetDb(tb, flags, st', t)
    ensures st' == st.(db := st.db.(objs := st'.db.objs)) && ObjsRestored(tb, v, db.objs, |db.objs|, st'.db.objs)
    decreases |db.objs| - i
  {
    hide Tag, PutObject, Storable, Restored, ConfigOf, Agreed, Going, PutRef, Listed, GoodVattr;
    if i == |db.objs| {
      st' := st;
    } else if Going(db.objs[i]) {
      st' := ObjsBack(tb, v, flags, panicking, st, db, i + 1, t);
    } else {
      var rest := PutObjs(tb, v, panicking, db.objs, i + 1, t);
      ObjectTagBack(tb, v, flags, panicking, st, db.objs[i], i, rest);
      var r := Tag(tb, flags, st, "!" + PutRef(i, PutObject(tb, v, panicking, db.objs[i], rest)));
      st' := ObjsBack(tb, v, flags, panicking, r.st, db, i + 1, t);
    }
  }

  lemma EndBack(tb: Tables, flags: int, st: Loader)
    ensures GetDb(tb, flags, st, "*" + (EndMark + "\n")) == Some(st)
  {
    hide GetString;
    var f := "*" + (EndMark + "\n");
    assert f[0] == '*' && f[1..] == EndMark + ("\n" + []);
    LineRoundTrip(EndMark, []);
  }

  /** A header line whose tag is two characters and a number */
  lemma NumberTag(tb: Tables, flags: int, st: Loader, n: int, t: string)
    requires Int(n)
    ensures !st.headerGotten ==> Tag(tb, flags, st, "+X" + PutRef(n, t)) == GoOn(st.(headerGotten := true, cfg := ConfigOf(n)), t)
    ensures !st.sizeGotten ==> Tag(tb, flags, st, "+S" + PutRef(n, t)) == GoOn(st.(sizeGotten := true, minSize := n), t)
    ensures !st.nextGotten ==>
      Tag(tb, flags, st, "+N" + PutRef(n, t)) == GoOn(st.(nextGotten := true, db := st.db.(attrNext := n)), t)
    ensures Tag(tb, flags, st, "-R" + PutRef(n, t)) == GoOn(st.(db := st.db.(recordPlayers := n)), t)
  {
    hide PutRef, FlatFile.GetRef, GetString, ConfigOf, VattrOf;
    RefRoundTrip(n, t);
    var body := PutRef(n, t);
    TwoChars("+X", body);
    TwoChars("+S", body);
    TwoChars("+N", body);
    TwoChars("-R", body);
  }

  lemma TwoChars(tag: string, body: string)
    requires |tag| == 2
    ensures var f := tag + body; f[0] == tag[0] && f[1..] != [] && f[1..][0] == tag[1] && f[1..][1..] == body
  {
  }

  lemma StepTo(tb: Tables, flags: int, st: Loader, f: string, st': Loader, t: string)
    requires Tag(tb, flags, st, f) == GoOn(st', t)
    ensures GetDb(tb, flags, st, f) == GetDb(tb, flags, st', t)
  {
  }

  /** Dumping a database and loading the file restores it: every object that is not being destroyed, up to the last
      of them, with all its fields and saved attributes; the user-named attributes; the counters. */
  lemma DumpRoundTrip(tb: Tables, v: int, flags: int, panicking: bool, db: Db)
    requires GoodDb(tb, db) && Agreed(v, panicking) && Int(v) && (Has(v, V_QUOTED) || db.vattrs == [])
    ensures var r := GetDb(tb, flags, Fresh, PutDb(tb, v, panicking, db));
      && r.Some? && r.value.db == db.(objs := r.value.db.objs) && r.value.minSize == |db.objs|
      && ObjsRestored(tb, v, db.objs, |db.objs|, r.value.db.objs)
  {
    hide GetDb, Tag, PutRef, PutObjs, PutVattrs, Storable, Restored, Going, GoodVattr;
    var e := "*" + (EndMark + "\n");
    var t4 := PutObjs(tb, v, panicking, db.objs, 0, e);
    var t3 := PutVattrs(db.vattrs, t4);
    var t2 := "-R" + PutRef(db.recordPlayers, t3);
    var t1 := "+N" + PutRef(db.attrNext, t2);
    var t0 := "+S" + PutRef(|db.objs|, t1);
    NumberTag(tb, flags, Fresh, v, t0);
    var s0 := Fresh.(headerGotten := true, cfg := ConfigOf(v));
    StepTo(tb, flags, Fresh, PutDb(tb, v, panicking, db), s0, t0);
    NumberTag(tb, flags, s0, |db.objs|, t1);
    var s1 := s0.(sizeGotten := true, minSize := |db.objs|);
    StepTo(tb, flags, s0, t0, s1, t1);
    NumberTag(tb, flags, s1, db.attrNext, t2);
    var s2 := s1.(nextGotten := true, db := s1.db.(attrNext := db.attrNext));
    StepTo(tb, flags, s1, t1, s2, t2);
    NumberTag(tb, flags, s2, db.recordPlayers, t3);
    var s3 := s2.(db := s2.db.(recordPlayers := db.recordPlayers));
    StepTo(tb, flags, s2, t2, s3, t3);
    VattrsBack(tb, flags, s3, db.vattrs, t4);
    assert [] + db.vattrs == db.vattrs;
    var s4 := s3.(db := s3.db.(vattrs := db.vattrs));
    var s5 := ObjsBack(tb, v, flags, panicking, s4, db, 0, e);
    EndBack(tb, flags, s5);
  }
}
