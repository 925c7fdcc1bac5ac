module FlatFile {
  /*
   Strings and numbers in the flat file: putstring, getstring_noalloc, putref and getref of src/db.c.  An output
   function takes the text that will follow; an input function takes the text that is left and returns what it leaves.
   */

  import opened Decimal
  import opened Options

  const LBUF_SIZE := 8000
  const MBUF_SIZE := 400
  const SBUF_SIZE := 64

  const NUL: char := 0 as char

  /** A C string holds no NUL. */
  predicate Text(s: string) { forall i :: 0 <= i < |s| ==> s[i] != NUL }

  /** A C int has 32 bits. */
  predicate Int(n: int) { -0x8000_0000 <= n < 0x8000_0000 }

  // ------------------------------------------------------------------ writing

  predicate Special(c: char) { c == '\\' || c == '"' }

  function Escape(s: string, t: string): string {
    if s == [] then t else (if Special(s[0]) then ['\\', s[0]] else [s[0]]) + Escape(s[1..], t)
  }

  /** putstring, before the text t */
  function PutString(s: string, t: string): string { "\"" + Escape(s, "\"\n" + t) }

  /** putref, before the text t */
  function PutRef(n: int, t: string): string { Show(n) + ("\n" + t) }

  // ------------------------------------------------------------------ reading

  /** safe_chr */
  function Append(buf: string, c: char): string { if |buf| < LBUF_SIZE - 1 then buf + [c] else buf }

  function PassNewline(f: string): string { if f != [] && f[0] == '\n' then f[1..] else f }

  /** The loop of getstring_noalloc after an opening quote */
  function Quoted(f: string, buf: string): (r: (string, string))
    ensures |r.1| <= |f|
    decreases |f|
  {
    if f == [] then (buf, f)
    else if f[0] == '"' then (buf, PassNewline(f[1..]))
    else if f[0] == '\\' then
      if |f| == 1 then (buf, []) else if f[1] == NUL then (buf, f[2..]) else Quoted(f[2..], Append(buf, f[1]))
    else if f[0] == NUL then (buf, f[1..])
    else Quoted(f[1..], Append(buf, f[0]))
  }

  /** The loop for an old string: up to a newline that no carriage return precedes */
  function Unquoted(f: string, last: char, buf: string): (r: (string, string))
    ensures |r.1| <= |f|
    decreases |f|
  {
    if f == [] then (buf, f)
    else if f[0] == NUL || (f[0] == '\n' && last != '\r') then (buf, f[1..])
    else Unquoted(f[1..], f[0], Append(buf, f[0]))
  }

  /** getstring_noalloc */
  function GetString(newStrings: bool, f: string): (r: (string, string))
    ensures |r.1| <= |f|
  {
    if newStrings && f != [] && f[0] == '"' then Quoted(f[1..], []) else Unquoted(f, NUL, [])
  }

  /** fgets: at most n characters, up to and including a newline */
  function Line(f: string, n: nat, buf: string): (r: (string, string))
    ensures |r.1| <= |f| && (f != [] && n > 0 ==> |r.1| < |f|)
    decreases n
  {
    if f == [] || n == 0 then (buf, f)
    else if f[0] == '\n' then (buf + [f[0]], f[1..])
    else Line(f[1..], n - 1, buf + [f[0]])
  }

  /** getref; None at the end of the input */
  function GetRef(f: string): (r: Option<(int, string)>)
    ensures r.Some? ==> |r.value.1| < |f|
  {
    if f == [] then None else var (line, rest) := Line(f, SBUF_SIZE - 1, []); Some((Atoi(line), rest))
  }

  // ------------------------------------------------------------------ strings come back

  function Clip(s: string): string { if |s| < LBUF_SIZE then s else s[..LBUF_SIZE - 1] }

  lemma {:induction false} QuotedBack(s: string, t: string, buf: string)
    requires Text(s) && |buf| < LBUF_SIZE
    ensures Quoted(Escape(s, "\"\n" + t), buf) == (Clip(buf + s), t)
    decreases |s|
  {
    if s == [] {
      assert buf + s == buf && ("\"\n" + t)[1..] == "\n" + t && ("\n" + t)[1..] == t;
    } else {
      var f := Escape(s, "\"\n" + t);
      var tail := Escape(s[1..], "\"\n" + t);
      var next := Append(buf, s[0]);
      assert Text(s[1..]) && s[0] != NUL;
      QuotedBack(s[1..], t, next);
      assert Clip(next + s[1..]) == Clip(buf + s) by {
        if |buf| < LBUF_SIZE - 1 { assert next + s[1..] == buf + s; } else { FullBuffer(buf, s); }
      }
      assert Special(s[0]) ==> f == ['\\', s[0]] + tail && f[2..] == tail;
      assert !Special(s[0]) ==> f == [s[0]] + tail && f[1..] == tail;
    }
  }

  lemma FullBuffer(buf: string, s: string)
    requires |buf| == LBUF_SIZE - 1 && s != []
    ensures Clip(buf + s[1..]) == buf == Clip(buf + s)
  {
    assert |s| == 1 ==> buf + s[1..] == buf;
  }

  /** getstring_noalloc undoes putstring on every C string that fits the buffer, quotes, backslashes and newlines
      included; a longer one loses its end; the stream is left right after the string. */
  lemma StringRoundTrip(s: string, t: string)
    requires Text(s)
    ensures GetString(true, PutString(s, t)) == (Clip(s), t)
    ensures GetString(true, PutString(s, t)) == (s, t) <==> |s| < LBUF_SIZE
  {
    var f := Escape(s, "\"\n" + t);
    assert PutString(s, t)[1..] == f;
    QuotedBack(s, t, []);
    assert [] + s == s;
  }

  /** An old string is a line that does not end in a carriage return. */
  lemma {:induction false} UnquotedBack(s: string, t: string, last: char, buf: string)
    requires Text(s) && |buf| + |s| < LBUF_SIZE
    requires forall i :: 0 <= i < |s| ==> s[i] != '\n'
    requires (if s == [] then last else s[|s| - 1]) != '\r'
    ensures Unquoted(s + ("\n" + t), last, buf) == (buf + s, t)
    decreases |s|
  {
    var f := s + ("\n" + t);
    if s == [] {
      assert f == "\n" + t && f[1..] == t && buf + s == buf;
    } else {
      assert f[0] == s[0] && f[1..] == s[1..] + ("\n" + t);
      assert buf + s == (buf + [s[0]]) + s[1..];
      UnquotedBack(s[1..], t, s[0], buf + [s[0]]);
    }
  }

  lemma LineRoundTrip(s: string, t: string)
    requires Text(s) && |s| < LBUF_SIZE && (forall i :: 0 <= i < |s| ==> s[i] != '\n') && (s != [] ==> s[|s| - 1] != '\r')
    ensures GetString(false, s + ("\n" + t)) == (s, t)
  {
    UnquotedBack(s, t, NUL, []);
    assert [] + s == s;
  }

  // ------------------------------------------------------------------ numbers come back

  lemma {:induction false} LineBack(s: string, t: string, n: nat, buf: string)
    requires |s| < n && forall i :: 0 <= i < |s| ==> s[i] != '\n'
    ensures Line(s + ("\n" + t), n, buf) == (buf + s + "\n", t)
    decreases |s|
  {
    var f := s + ("\n" + t);
    if s == [] {
      assert f == "\n" + t && f[1..] == t && buf + s == buf;
    } else {
      assert f[0] == s[0] && f[1..] == s[1..] + ("\n" + t);
      LineBack(s[1..], t, n - 1, buf + [s[0]]);
      assert buf + [s[0]] + s[1..] == buf + s;
    }
  }

  lemma {:induction false} ShowWidth(n: nat, k: nat)
    requires n < Pow10(k) && k > 0
    ensures |ShowNat(n)| <= k
  {
    if n >= 10 { ShowWidth(n / 10, k - 1); }
  }

  lemma IntWidth(n: int)
    requires Int(n)
    ensures |Show(n)| <= 11
  {
    assert Pow10(10) == 10000000000 by {
      assert Pow10(3) == 1000;
      assert Pow10(6) == 1000000;
      assert Pow10(9) == 1000000000;
    }
    ShowWidth(if n < 0 then 0 - n else n, 10);
  }

  lemma ShowNoNewline(n: int)
    ensures forall i :: 0 <= i < |Show(n)| ==> Show(n)[i] != '\n'
  {
  }

  /** getref undoes putref on every int. */
  lemma RefRoundTrip(n: int, t: string)
    requires Int(n)
    ensures GetRef(PutRef(n, t)) == Some((n, t))
  {
    IntWidth(n);
    ShowNoNewline(n);
    LineBack(Show(n), t, SBUF_SIZE - 1, []);
    assert [] + Show(n) == Show(n);
    AtoiOfShow(n, "\n");
  }

  // ------------------------------------------------------------------ the streams

  /** An input file; `left` is what has not been read. */
  class Stream {
    var left: string

    constructor (text: string)
      ensures left == text
    {
      left := text;
    }

    /** getc; None is EOF */
    method Getc() returns (c: Option<char>)
      modifies this
      ensures old(left) == [] ==> c == None && left == []
      ensures old(left) != [] ==> c == Some(old(left)[0]) && left == old(left)[1..]
    {
      if left == [] { return None; }
      c := Some(left[0]);
      left := left[1..];
    }

    /** ungetc of a character just read; pushing back EOF does nothing */
    method Ungetc(c: Option<char>)
      modifies this
      ensures left == if c.Some? then [c.value] + old(left) else old(left)
    {
      if c.Some? { left := [c.value] + left; }
    }

    /** `if ((c = fgetc(f)) != '\n') ungetc(c, f)` */
    method SkipNewline()
      modifies this
      ensures left == PassNewline(old(left))
    {
      var c := Getc();
      if c != Some('\n') { Ungetc(c); }
    }

    method ReadString(newStrings: bool) returns (buf: string)
      modifies this
      ensures (buf, left) == GetString(newStrings, old(left))
    {
      buf := [];
      var c := Getc();
      if !newStrings || c != Some('"') {
        Ungetc(c);
        assert left == old(left);
        buf := ReadUnquoted();
      } else {
        buf := ReadQuoted();
      }
    }

    method ReadUnquoted() returns (buf: string)
      modifies this
      ensures (buf, left) == Unquoted(old(left), NUL, [])
    {
      buf := [];
      var ch := NUL;
      while true
        invariant Unquoted(left, ch, buf) == Unquoted(old(left), NUL, [])
        decreases |left|
      {
        var last := ch;
        var c := Getc();
        if c == None || c == Some(NUL) { return; }
        ch := c.value;
        if ch == '\n' && last != '\r' { return; }
        buf := Append(buf, ch);
      }
    }

    method ReadQuoted() returns (buf: string)
      modifies this
      ensures (buf, left) == Quoted(old(left), [])
    {
      buf := [];
      while true
        invariant Quoted(left, buf) == Quoted(old(left), [])
        decreases |left|
      {
        var c := Getc();
        if c == Some('"') {
          SkipNewline();
          return;
        } else if c == Some('\\') {
          c := Getc();
        }
        if c == None || c == Some(NUL) { return; }
        buf := Append(buf, c.value);
      }
    }

    /** getref; false at the end of the input */
    method ReadRef() returns (ok: bool, n: int)
      modifies this
      ensures ok == GetRef(old(left)).Some?
      ensures ok ==> GetRef(old(left)).value == (n, left)
      ensures !ok ==> left == []
    {
      if left == [] { return false, 0; }
      var line := ReadLine(SBUF_SIZE - 1);
      return true, Atoi(line);
    }

    method ReadLine(n: nat) returns (line: string)
      modifies this
      ensures (line, left) == Line(old(left), n, [])
    {
      line := [];
      var k := n;
      while k > 0
        invariant Line(left, k, line) == Line(old(left), n, [])
      {
        var c := Getc();
        if c == None { return; }
        line := line + [c.value];
        if c.value == '\n' { return; }
        k := k - 1;
      }
    }
  }

  /** putstring: the loop that writes the characters */
  method WriteString(s: string) returns (out: string)
    ensures forall t :: out + t == PutString(s, t)
  {
    out := "\"";
    var i := 0;
    while i < |s|
      invariant 0 <= i <= |s|
      invariant forall t :: out + Escape(s[i..], "\"\n" + t) == PutString(s, t)
    {
      ghost var was := out;
      if Special(s[i]) { out := out + "\\"; }
      out := out + [s[i]];
      assert s[i..][1..] == s[i + 1..];
      forall t ensures out + Escape(s[i + 1..], "\"\n" + t) == PutString(s, t) {
        assert was + Escape(s[i..], "\"\n" + t) == PutString(s, t);
        assert out + Escape(s[i + 1..], "\"\n" + t) == was + Escape(s[i..], "\"\n" + t);
      }
      i := i + 1;
    }
    ghost var was := out;
    out := out + "\"" + "\n";
    forall t ensures out + t == PutString(s, t) {
      assert was + Escape(s[i..], "\"\n" + t) == PutString(s, t);
      assert Escape([], "\"\n" + t) == "\"\n" + t;
      assert out + t == was + ("\"\n" + t);
    }
  }
}
