/**
 db_write and db_read of src/db_rw.c as loops over a file, proved against the functions of ObjectRecord and DumpFile.
 */
module DumpStream {
  import opened Decimal
  import opened DumpFile
  import opened FlatFile
  import opened LockFile
  import opened LockStream
  import opened Locks
  import opened ObjectRecord
  import opened Options

  // ------------------------------------------------------------------ reading

  ghost predicate Reaches(q: Place, ok: bool, o: Obj, left: string) { q == if ok then At(o, left) else Stop }

  method ReadSlot(f: Stream, o: Obj, slot: Slot) returns (ok: bool, r: Obj)
    modifies f
    ensures Reaches(GetSlot(true, At(o, old(f.left)), slot), ok, r, f.left)
  {
    var n;
    ok, n := f.ReadRef();
    r := Store(o, slot, n);
  }

  /** get_list */
  method ReadAttrs(f: Stream, o: Obj, newStrings: bool) returns (ok: bool, r: Obj)
    modifies f
    ensures Reaches(GetAttrs(newStrings, o, old(f.left)), ok, r, f.left)
  {
    hide GetString, FlatFile.GetRef, SetAttr;
    r := o;
    while true
      invariant GetAttrs(newStrings, r, f.left) == GetAttrs(newStrings, o, old(f.left))
      decreases |f.left|
    {
      var c := f.Getc();
      if c == None { return false, r; }
      match c.value {
        case '>' =>
          var n;
          ok, n := f.ReadRef();
          if !ok { return; }
          var s := f.ReadString(newStrings);
          if n > 0 { r := SetAttr(r, n, s); }
        case '\n' =>
        case '<' =>
          f.SkipNewline();
          return true, r;
        case _ =>
          var s := f.ReadString(newStrings);
      }
    }
  }

  /** The fields before the lock */
  method ReadFront(f: Stream, cfg: Config, o: Obj) returns (ok: bool, r: Obj)
    modifies f
    ensures Reaches(GetFront(cfg, At(o, old(f.left))), ok, r, f.left)
  {
    hide GetSlot;
    ok, r := ReadSlot(f, o, Location);
    if !ok { StopStays(); return; }
    ghost var p := At(r, f.left);
    if cfg.zone { ok, r := ReadSlot(f, r, Zone); } else { Skips(p, Zone); }
    if !ok { StopStays(); return; }
    ok, r := ReadSlot(f, r, Contents);
    if !ok { StopStays(); return; }
    ok, r := ReadSlot(f, r, Exits);
    if !ok { StopStays(); return; }
    if cfg.link { ok, r := ReadSlot(f, r, Link); } else { r := Store(r, Link, NOTHING); }
    if !ok { StopStays(); return; }
    ok, r := ReadSlot(f, r, Slot.Next);
  }

  lemma StopStays()
    ensures forall on, slot :: GetSlot(on, Stop, slot) == Stop
    ensures forall on, slot, n :: GetOr(on, Stop, slot, n) == Stop
  {
  }

  lemma Skips(p: Place, slot: Slot)
    ensures GetSlot(false, p, slot) == p
  {
  }

  method ReadOwner(f: Stream, cfg: Config, o: Obj) returns (ok: bool, r: Obj)
    modifies f
    ensures Reaches(GetOwner(cfg, At(o, old(f.left))), ok, r, f.left)
  {
    hide GetSlot;
    ok, r := ReadSlot(f, o, Owner);
    if !ok { StopStays(); return; }
    if cfg.parent { ok, r := ReadSlot(f, r, Parent); } else { r := Store(r, Parent, NOTHING); }
    if !ok { StopStays(); return; }
    ghost var p := At(r, f.left);
    if cfg.money { ok, r := ReadSlot(f, r, Pennies); } else { Skips(p, Pennies); }
  }

  method ReadWords(f: Stream, cfg: Config, o: Obj) returns (ok: bool, r: Obj)
    modifies f
    ensures Reaches(GetWords(cfg, At(o, old(f.left))), ok, r, f.left)
  {
    hide GetSlot;
    ok, r := ReadSlot(f, o, Flags);
    if !ok { StopStays(); return; }
    if cfg.xflags { ok, r := ReadSlot(f, r, Flags2); } else { r := Store(r, Flags2, 0); }
    if !ok { StopStays(); return; }
    if cfg.flags3 { ok, r := ReadSlot(f, r, Flags3); } else { r := Store(r, Flags3, 0); }
    if !ok { StopStays(); return; }
    ghost var p := At(r, f.left);
    if cfg.powers {
      ok, r := ReadSlot(f, r, Powers);
      if !ok { StopStays(); return; }
      ok, r := ReadSlot(f, r, Powers2);
    } else {
      Skips(p, Powers);
      Skips(p, Powers2);
    }
  }

  /** The '!' record after its number */
  method ReadObject(f: Stream, tb: Tables, cfg: Config, o: Obj) returns (ok: bool, r: Obj)
    modifies f
    ensures Reaches(GetObject(tb, cfg, o, old(f.left)), ok, r, f.left)
  {
    hide GetFront, GetOwner, GetWords, GetAttrs, GetString, SetName, SetLock, GetLock;
    r := o;
    if cfg.name {
      var s := f.ReadString(cfg.newStrings);
      r := SetName(r, s);
    }
    assert GetName(cfg, At(o, old(f.left))) == At(r, f.left);
    StopGoesOn(tb, cfg);
    ok, r := ReadFront(f, cfg, r);
    if !ok { return; }
    ghost var p := At(r, f.left);
    if cfg.key {
      var b;
      ok, b := ReadBoolexp(f, tb.mk);
      if !ok { return; }
      r := SetLock(tb, r, b);
    }
    assert GetLockField(tb, cfg, p) == At(r, f.left);
    ok, r := ReadOwner(f, cfg, r);
    if !ok { return; }
    ok, r := ReadWords(f, cfg, r);
    if !ok { return; }
    if cfg.attribs {
      ok, r := ReadAttrs(f, r, cfg.newStrings);
      if !ok { return; }
    }
    r := Disconnect(r);
  }

  lemma StopGoesOn(tb: Tables, cfg: Config)
    ensures GetLockField(tb, cfg, Stop) == Stop && GetOwner(cfg, Stop) == Stop && GetWords(cfg, Stop) == Stop
  {
  }

  ghost predicate Leads(s: Step, ok: bool, ended: bool, st: Loader, st': Loader, left: string) {
    s == if !ok then Bad else if ended then Ended else GoOn(st', left)
  }

  /** One turn of the loop of db_read */
  method ReadTag(f: Stream, tb: Tables, flags: int, st: Loader) returns (ok: bool, ended: bool, r: Loader)
    modifies f
    ensures Leads(Tag(tb, flags, st, old(f.left)), ok, ended, st, r, f.left)
    ensures ended ==> r == st
    ensures ok && !ended ==> |f.left| < |old(f.left)|
  {
    hide HeaderTag, ObjectTag, GetString;
    ok, ended, r := true, false, st;
    var c := f.Getc();
    if c == None { ok := false; return; }
    match c.value {
      case '-' =>
        c := f.Getc();
        if c == Some('R') {
          var n;
          ok, n := f.ReadRef();
          r := st.(db := st.db.(recordPlayers := n));
        } else {
          var s := f.ReadString(false);
        }
      case '+' => ok, r := ReadHeader(f, flags, st);
      case '!' => ok, r := ReadNumbered(f, tb, st);
      case '*' =>
        var s := f.ReadString(false);
        ok, ended := s == EndMark, s == EndMark;
      case _ => ok := false;
    }
  }

  method ReadHeader(f: Stream, flags: int, st: Loader) returns (ok: bool, r: Loader)
    modifies f
    ensures Leads(HeaderTag(flags, st, old(f.left)), ok, false, st, r, f.left)
  {
    hide GetString, FlatFile.GetRef, ConfigOf, VattrOf;
    ok, r := true, st;
    var c := f.Getc();
    if c == None { return; }
    var n;
    match c.value {
      case 'X' =>
        if st.headerGotten { var s := f.ReadString(false); return; }
        ok, n := f.ReadRef();
        r := st.(headerGotten := true, cfg := ConfigOf(n));
      case 'S' =>
        if st.sizeGotten { var s := f.ReadString(false); return; }
        ok, n := f.ReadRef();
        r := st.(sizeGotten := true, minSize := n);
      case 'N' =>
        if st.nextGotten { var s := f.ReadString(false); return; }
        ok, n := f.ReadRef();
        r := st.(nextGotten := true, db := st.db.(attrNext := n));
      case 'F' => ok, n := f.ReadRef();
      case 'A' =>
        ok, n := f.ReadRef();
        if !ok { return; }
        var s := f.ReadString(st.cfg.newStrings);
        r := st.(db := st.db.(vattrs := st.db.vattrs + [VattrOf(n, s, flags)]));
      case _ => var s := f.ReadString(false);
    }
  }

  method ReadNumbered(f: Stream, tb: Tables, st: Loader) returns (ok: bool, r: Loader)
    modifies f
    ensures Leads(ObjectTag(tb, st, old(f.left)), ok, false, st, r, f.left)
  {
    hide GetObject, FlatFile.GetRef, Grow;
    var i;
    r := st;
    ok, i := f.ReadRef();
    if !ok || i < 0 { ok := false; return; }
    var objs := Grow(st.db.objs, i + 1);
    var o;
    ok, o := ReadObject(f, tb, st.cfg, objs[i]);
    if ok { r := st.(db := st.db.(objs := objs[i := o])); }
  }

  /** db_read */
  method ReadDb(f: Stream, tb: Tables, flags: int) returns (ok: bool, st: Loader)
    modifies f
    ensures GetDb(tb, flags, Fresh, old(f.left)) == if ok then Some(st) else None
  {
    hide Tag;
    st := Fresh;
    while true
      invariant GetDb(tb, flags, st, f.left) == GetDb(tb, flags, Fresh, old(f.left))
      decreases |f.left|
    {
      var ended, r;
      ok, ended, r := ReadTag(f, tb, flags, st);
      if !ok || ended { return; }
      st := r;
    }
  }

  // ------------------------------------------------------------------ writing

  /** The loop over the attribute list of an object */
  method WriteAttrs(tb: Tables, v: int, o: Obj) returns (out: string)
    ensures forall t :: out + t == PutAttrs(tb, v, o, o.list, t)
  {
    hide PutRef, PutString, Saved, Raw;
    out := "";
    var i := 0;
    assert o.list[0..] == o.list;
    assert forall t :: "" + PutAttrs(tb, v, o, o.list, t) == PutAttrs(tb, v, o, o.list, t);
    while i < |o.list|
      invariant 0 <= i <= |o.list|
      invariant forall t :: out + PutAttrs(tb, v, o, o.list[i..], t) == PutAttrs(tb, v, o, o.list, t)
    {
      ghost var was := out;
      var n := o.list[i];
      if Saved(tb, v, n) {
        var s := WriteString(Raw(o, n));
        out := Longer(out, n, s);
        OneMore(tb, v, o, i, was, s);
      }
      assert o.list[i..][0] == n && o.list[i..][1..] == o.list[i + 1..];
      i := i + 1;
    }
    ghost var was := out;
    out := out + "<\n";
    assert o.list[i..] == [];
    forall t ensures out + t == PutAttrs(tb, v, o, o.list, t) {
      assert was + PutAttrs(tb, v, o, o.list[i..], t) == PutAttrs(tb, v, o, o.list, t);
      assert out + t == was + ("<\n" + t);
    }
  }

  /** One attribute written at the end of what is there */
  lemma OneMore(tb: Tables, v: int, o: Obj, i: nat, was: string, s: string)
    requires i < |o.list| && Saved(tb, v, o.list[i])
    requires forall t :: s + t == PutString(Raw(o, o.list[i]), t)
    ensures forall t :: Longer(was, o.list[i], s) + PutAttrs(tb, v, o, o.list[i + 1..], t) == was + PutAttrs(tb, v, o, o.list[i..], t)
  {
    hide Saved, Raw, PutString;
    var n := o.list[i];
    forall t ensures Longer(was, n, s) + PutAttrs(tb, v, o, o.list[i + 1..], t) == was + PutAttrs(tb, v, o, o.list[i..], t) {
      var tail := PutAttrs(tb, v, o, o.list[i + 1..], t);
      assert o.list[i..][0] == n && o.list[i..][1..] == o.list[i + 1..];
      assert s + tail == PutString(Raw(o, n), tail);
      assert ">" + (Show(n) + ("\n" + s)) + tail == ">" + (Show(n) + ("\n" + (s + tail)));
    }
  }

  function Longer(was: string, n: int, s: string): string { was + (">" + (Show(n) + ("\n" + s))) }
}
