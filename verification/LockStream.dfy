/**
 The readers and the printer of src/db_rw.c as they move along a file: getboolexp1, getboolexp, putbool_subexp.
 Each is proved against its function in LockFile.
 */
module LockStream {
  import opened Decimal
  import opened FlatFile
  import opened LockFile
  import opened Locks
  import opened Options

  /** What a reader reports: the lock and the rest of the file, or a call of abort() */
  ghost predicate Reports(r: Read, ok: bool, b: Lock, left: string) { r == if ok then Got(b, left) else Abort }

  /** The loop over the characters of a key */
  method ReadKey(f: Stream) returns (ok: bool, key: string)
    modifies f
    ensures key == TakeKey(old(f.left)) && f.left == old(f.left)[|key|..] && ok == (f.left != [])
  {
    ghost var start := f.left;
    key := [];
    while true
      invariant LineKey(key) && start == key + f.left
      decreases |f.left|
    {
      ghost var left := f.left;
      var c := f.Getc();
      if c == None {
        WholeKey(key);
        assert start == key;
        return false, key;
      }
      if EndsKey(c.value) {
        f.Ungetc(c);
        assert f.left == left;
        TakeKeyOf(key, left);
        return true, key;
      }
      key := key + [c.value];
    }
  }

  lemma WholeKey(s: string)
    requires LineKey(s)
    ensures TakeKey(s) == s
  {
    assert |TakeKey(s)| == |s|;
  }

  /** The loop over the characters of an attribute name */
  method ReadName(f: Stream) returns (ok: bool, name: string)
    modifies f
    ensures name == TakeName(old(f.left)) && f.left == old(f.left)[|name|..] && ok == (f.left != [])
  {
    ghost var start := f.left;
    name := [];
    while true
      invariant (forall i :: 0 <= i < |name| ==> !EndsName(name[i])) && start == name + f.left
      decreases |f.left|
    {
      ghost var left := f.left;
      var c := f.Getc();
      if c == None {
        assert |TakeName(name)| == |name|;
        assert start == name;
        return false, name;
      }
      if EndsName(c.value) {
        f.Ungetc(c);
        assert f.left == left;
        TakeNameOf(name, left);
        return true, name;
      }
      name := name + [c.value];
    }
  }

  /** The loop over the digits of a number */
  method ReadNumber(f: Stream) returns (n: nat)
    modifies f
    ensures (n, f.left) == ReadDigits(old(f.left), 0)
  {
    n := 0;
    while true
      invariant ReadDigits(f.left, n) == ReadDigits(old(f.left), 0)
      decreases |f.left|
    {
      ghost var left := f.left;
      var c := f.Getc();
      if c == None || !IsDigit(c.value) {
        f.Ungetc(c);
        assert f.left == left;
        return;
      }
      n := n * 10 + DigitValue(c.value);
    }
  }

  /** What follows the number or name of a reference */
  method ReadTail(f: Stream, num: int) returns (ok: bool, b: Lock)
    modifies f
    ensures Reports(GetKey(num, old(f.left)), ok, b, f.left)
  {
    ghost var left := f.left;
    var c := f.Getc();
    if c == Some(':') || c == Some('/') {
      var key;
      ok, key := ReadKey(f);
      b := if c == Some('/') then Eval(num, key) else Atr(num, key);
    } else {
      f.Ungetc(c);
      assert f.left == left;
      return true, Const(num);
    }
  }

  method ReadReference(f: Stream, mk: MkAttr) returns (ok: bool, b: Lock)
    requires f.left != []
    modifies f
    ensures Reports(LockFile.GetReference(mk, old(f.left)), ok, b, f.left)
  {
    ok, b := false, Open;
    if IsDigit(f.left[0]) {
      var n := ReadNumber(f);
      ok, b := ReadTail(f, n);
    } else if IsAlpha(f.left[0]) {
      var name;
      ok, name := ReadName(f);
      if ok && mk(name) > 0 { ok, b := ReadTail(f, mk(name)); } else { ok := false; }
    }
  }

  method ReadQuotedRef(f: Stream, mk: MkAttr) returns (ok: bool, b: Lock)
    modifies f
    ensures Reports(GetQuotedRef(mk, old(f.left)), ok, b, f.left)
  {
    var name := f.ReadString(true);
    var c := f.Getc();
    if c == None { return true, Open; }
    ok, b := false, Open;
    if mk(name) > 0 && (c == Some(':') || c == Some('/')) {
      var key := f.ReadString(true);
      return true, if c == Some('/') then Eval(mk(name), key) else Atr(mk(name), key);
    }
  }

  /** `if ((d = getc(f)) == '\n') d = getc(f)` and the test of d */
  method ReadClose(f: Stream) returns (ok: bool)
    modifies f
    ensures forall b :: Reports(Close(b, old(f.left)), ok, b, f.left)
  {
    var d := f.Getc();
    if d == Some('\n') { d := f.Getc(); }
    ok := d == Some(')');
  }

  /** The obsolete key: the rest of the line is eaten. */
  method EatLine(f: Stream) returns (ok: bool)
    modifies f
    ensures f.left == DropLine(old(f.left)) && ok == (f.left != [])
  {
    while true
      invariant DropLine(f.left) == DropLine(old(f.left))
      decreases |f.left|
    {
      ghost var left := f.left;
      var c := f.Getc();
      if c == None { return false; }
      if c == Some('\n') {
        f.Ungetc(c);
        assert f.left == left;
        return true;
      }
    }
  }

  /** getboolexp1 */
  method ReadBoolexp1(f: Stream, mk: MkAttr) returns (ok: bool, b: Lock)
    modifies f
    ensures Reports(Get(mk, old(f.left)), ok, b, f.left)
    decreases |f.left|, 1
  {
    hide GetQuotedRef, GetReference, DropLine;
    ghost var left := f.left;
    var c := f.Getc();
    if c == None { return false, Open; }
    if c.value == '(' {
      ok, b := ReadParens(f, mk, left);
    } else if c.value == '-' {
      ok := EatLine(f);
      b := Open;
    } else {
      f.Ungetc(c);
      assert f.left == left;
      if c.value == '\n' {
        return true, Open;
      } else if c.value == '"' {
        ok, b := ReadQuotedRef(f, mk);
      } else {
        ok, b := ReadReference(f, mk);
      }
    }
  }

  /** getboolexp1 after an opening parenthesis */
  method ReadParens(f: Stream, mk: MkAttr, ghost all: string) returns (ok: bool, b: Lock)
    requires all != [] && all[0] == '(' && f.left == all[1..]
    modifies f
    ensures Reports(Get(mk, all), ok, b, f.left)
    decreases |f.left|, 2
  {
    hide Get, Wrap;
    ghost var left := f.left;
    var c := f.Getc();
    if c.Some? && Prefix(c.value) {
      assert f.left == all[2..];
      ok, b := ReadBoolexp1(f, mk);
      PrefixedOrNot(mk, all);
      if ok {
        b := Wrap(c.value, b);
        ok := ReadClose(f);
      }
    } else {
      f.Ungetc(c);
      assert f.left == left;
      PairOrNot(mk, all);
      ok, b := ReadBoolexp1(f, mk);
      if !ok { return; }
      ghost var rest := f.left;
      c := f.Getc();
      if c == Some('\n') { c := f.Getc(); }
      ok := false;
      if c == Some('&') || c == Some('|') {
        var r;
        ok, r := ReadBoolexp1(f, mk);
        b := if c == Some('&') then And(b, r) else Or(b, r);
        if ok { ok := ReadClose(f); }
      }
    }
  }

  lemma PrefixedOrNot(mk: MkAttr, f: string)
    requires |f| > 1 && f[0] == '(' && Prefix(f[1])
    ensures Get(mk, f) == match Get(mk, f[2..]) case Abort => Abort case Got(b, rest) => Close(Wrap(f[1], b), rest)
  {
    hide GetQuotedRef, GetReference, DropLine, Close, Wrap;
  }

  /** What getboolexp1 does after the first half of a pair */
  function SecondHalf(mk: MkAttr, l: Lock, g: string): Read {
    if g != [] && (g[0] == '&' || g[0] == '|') then
      match Get(mk, g[1..])
      case Abort => Abort
      case Got(r, rest) => Close(if g[0] == '&' then And(l, r) else Or(l, r), rest)
    else Abort
  }

  lemma PairOrNot(mk: MkAttr, f: string)
    requires |f| > 0 && f[0] == '(' && (|f| > 1 ==> !Prefix(f[1]))
    ensures Get(mk, f) == match Get(mk, f[1..]) case Abort => Abort case Got(l, rest) => SecondHalf(mk, l, PassNewline(rest))
  {
    hide GetQuotedRef, GetReference, DropLine, Close, Wrap;
  }

  /** getboolexp */
  method ReadBoolexp(f: Stream, mk: MkAttr) returns (ok: bool, b: Lock)
    modifies f
    ensures Reports(GetLock(mk, old(f.left)), ok, b, f.left)
  {
    ok, b := ReadBoolexp1(f, mk);
    if !ok { return; }
    var c := f.Getc();
    if c != Some('\n') { return false, b; }
    f.SkipNewline();
  }
}
