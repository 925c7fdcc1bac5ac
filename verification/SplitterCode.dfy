/**
 parse_to of src/eval.c on a character buffer, with its cursors rstr (start of the piece), cstr (reader) and zstr
 (writer), proved against Splitter.  The writer never passes the reader, in any mode.
 */
module SplitterCode {
  import opened Decimal
  import FlatFile
  import opened Locks
  import opened Options
  import opened Splitter

  const NUL: char := FlatFile.NUL

  /** A line of n characters from `base` on, with its NUL, in the buffer t */
  ghost predicate Holds(t: seq<char>, base: nat, s: string) {
    base + |s| < |t| && t[base..base + |s|] == s && t[base + |s|] == NUL && FlatFile.Text(s)
  }

  /** The reader is at place i of the line s; the piece so far stands from r up to z, behind or at the reader; what the
      reader has not seen, and the character before it, are as they were. */
  ghost predicate Tape(t: seq<char>, base: nat, s: string, i: nat, r: nat, z: nat, out: string) {
    && i <= |s| && base + |s| < |t| && base <= r <= z <= base + i
    && |out| == z - r && t[r..z] == out
    && (forall k :: i <= k < |s| ==> t[base + k] == s[k])
    && t[base + |s|] == NUL && FlatFile.Text(s)
    && (i > 0 ==> t[base + i - 1] == s[i - 1])
  }

  lemma TapeStart(t: seq<char>, base: nat, s: string)
    requires Holds(t, base, s)
    ensures Tape(t, base, s, 0, base, base, [])
  {
    forall k | 0 <= k < |s| ensures t[base + k] == s[k] { assert t[base..base + |s|][k] == s[k]; }
  }

  /** NEXTCHAR */
  lemma TapeNext(t: seq<char>, base: nat, s: string, i: nat, r: nat, z: nat, out: string)
    requires Tape(t, base, s, i, r, z, out) && i < |s|
    ensures Tape(t[z := s[i]], base, s, i + 1, r, z + 1, out + [s[i]])
  {
    var t' := t[z := s[i]];
    assert t'[r..z + 1] == t[r..z] + [s[i]];
  }

  /** `zstr--` */
  lemma TapeBack(t: seq<char>, base: nat, s: string, i: nat, r: nat, z: nat, out: string)
    requires Tape(t, base, s, i, r, z, out) && out != []
    ensures Tape(t, base, s, i, r, z - 1, Shorter(out))
  {
    assert t[r..z - 1] == t[r..z][..z - 1 - r];
  }

  /** The search down the stack */
  method FindOnStack(stack: seq<char>, c: char) returns (tp: int)
    ensures tp == -1 <==> c !in stack
    ensures tp >= 0 ==> tp < |stack| && Unwind(stack, c) == Some(stack[..tp])
    ensures -1 <= tp
  {
    tp := |stack| - 1;
    assert stack[..tp + 1] == stack;
    while tp >= 0 && stack[tp] != c
      invariant -1 <= tp < |stack| && Unwind(stack, c) == Unwind(stack[..tp + 1], c)
      invariant c in stack <==> c in stack[..tp + 1]
    {
      ghost var part := stack[..tp + 1];
      assert part[|part| - 1] == stack[tp] && part[..|part| - 1] == stack[..tp];
      tp := tp - 1;
    }
    if tp >= 0 {
      ghost var part := stack[..tp + 1];
      assert part[|part| - 1] == c && part[..|part| - 1] == stack[..tp];
    }
  }

  /** The cells outside the line */
  ghost predicate SameOutside(t: seq<char>, t': seq<char>, base: nat, n: nat) {
    |t| == |t'| && forall k :: 0 <= k < |t| && (k < base || base + n < k) ==> t[k] == t'[k]
  }

  /** A line being cut: the buffer and the cursors */
  class LineBuffer {
    const buf: array<char>
    const base: nat
    var rstr: nat
    var cstr: nat
    var zstr: nat
    ghost const s: string
    ghost const t0: seq<char>
    ghost var out: string

    constructor (buf: array<char>, base: nat, ghost s: string)
      requires Holds(buf[..], base, s)
      ensures Valid() && this.buf == buf && this.base == base && this.s == s && I() == 0 && out == [] && rstr == base
      ensures t0 == buf[..]
    {
      this.buf, this.base, this.s, this.t0, out := buf, base, s, buf[..], [];
      rstr, cstr, zstr := base, base, base;
      TapeStart(buf[..], base, s);
    }

    /** The reader's place in the line */
    ghost function I(): nat
      reads this
      requires cstr >= base
    {
      cstr - base
    }

    ghost predicate Valid()
      reads this, buf
    {
      base <= rstr <= zstr <= cstr && Tape(buf[..], base, s, I(), rstr, zstr, out) && SameOutside(t0, buf[..], base, |s|)
    }

    ghost predicate Reads(c: char, i: nat)
      reads this
    {
      (c == NUL <==> i >= |s|) && (i < |s| ==> c == s[i])
    }

    /** *cstr */
    method Current() returns (c: char)
      requires Valid()
      ensures I() <= |s| && Reads(c, I()) && cstr < buf.Length && c == buf[cstr]
    {
      c := buf[cstr];
      if I() < |s| { assert buf[..][base + I()] == s[I()]; } else { assert buf[..][base + |s|] == c; }
    }

    /** cstr[1] */
    method Following() returns (c: char)
      requires Valid() && I() < |s|
      ensures Reads(c, I() + 1)
    {
      c := buf[cstr + 1];
      if I() + 1 < |s| { assert buf[..][base + (I() + 1)] == s[I() + 1]; } else { assert buf[..][base + |s|] == c; }
    }

    /** cstr[-1] */
    method Previous() returns (c: char)
      requires Valid() && I() > 0
      ensures I() <= |s| && c == s[I() - 1]
    {
      c := buf[cstr - 1];
    }

    /** NEXTCHAR */
    method NextChar()
      requires Valid() && I() < |s|
      modifies this`cstr, this`zstr, this`out, buf
      ensures Valid() && I() == old(I()) + 1 && out == old(out) + [s[old(I())]]
      ensures cstr == zstr <==> old(cstr == zstr)
    {
      hide SameOutside;
      ghost var t := buf[..];
      TapeNext(t, base, s, I(), rstr, zstr, out);
      if cstr != zstr { buf[zstr] := buf[cstr]; }
      assert buf[..] == t[zstr := s[I()]];
      OutsideWrite(t0, t, base, |s|, zstr, s[I()]);
      out := out + [s[I()]];
      cstr, zstr := cstr + 1, zstr + 1;
    }

    /** cstr++ */
    method Skip()
      requires Valid() && I() < |s|
      modifies this`cstr
      ensures Valid() && I() == old(I()) + 1
    {
      cstr := cstr + 1;
    }

    /** zstr-- */
    method Back()
      requires Valid() && out != []
      modifies this`zstr, this`out
      ensures Valid() && out == Shorter(old(out)) && zstr == old(zstr) - 1
    {
      hide SameOutside;
      TapeBack(buf[..], base, s, I(), rstr, zstr, out);
      zstr := zstr - 1;
      out := Shorter(out);
    }

    /** The loop over the inside of a brace, from its first character to past its end */
    method WalkBrace(m: Mode)
      requires Valid() && I() <= |s|
      modifies this`cstr, this`zstr, this`out, buf
      ensures Valid() && I() == Brace(s, old(I()), 1) && out == old(out) + BraceText(m, s, old(I()), 1)
    {
      hide Tape, SameOutside, InBrace, Brace, BraceText;
      var bracketlev: nat := 1;
      ghost var end, goal := Brace(s, I(), 1), out + BraceText(m, s, I(), 1);
      BraceStarts(m, s, I(), out, end, goal);
      var c := Current();
      while c != NUL && bracketlev > 0
        invariant Valid() && I() <= |s| && Reads(c, I()) && InBrace(m, s, I(), bracketlev, out, end, goal)
        decreases |s| - I(), bracketlev
      {
        BraceTurn(m, s, I(), bracketlev, out, end, goal);
        if c == '\\' || c == '%' {
          var next := Following();
          if next != NUL {
            if c == '\\' && m.stripEsc { Skip(); } else { NextChar(); }
          }
        } else if c == '{' {
          bracketlev := bracketlev + 1;
        } else if c == '}' {
          bracketlev := bracketlev - 1;
        }
        if bracketlev > 0 { NextChar(); }
        c := Current();
      }
      BraceEnds(m, s, I(), bracketlev, out, end, goal);
      if bracketlev == 0 {
        if m.strip { Skip(); } else { NextChar(); }
      }
    }

    /** What holds between two turns */
    ghost predicate Between(m: Mode, first: bool)
      reads this, buf
    {
      && Valid() && I() <= |s|
      && (first ==> I() == 0 || s[I() - 1] == ' ')
      && (first && Compress(m) ==> rstr == zstr == cstr)
      && (!first ==> rstr < cstr)
      && (!first && I() > 0 && s[I() - 1] == ' ' ==> BlankLast(out))
      && (!m.strip && out == [] ==> NoBrace())
    }

    /** The piece has not begun, or the cell it would begin at holds no brace. */
    ghost predicate NoBrace()
      reads this, buf
    {
      cstr == rstr || (rstr < buf.Length && buf[rstr] != '{')
    }

    /** `rstr++` before NEXTCHAR, while nothing has been written */
    method SkipBlank()
      requires Valid() && I() < |s| && rstr == zstr == cstr
      modifies this`rstr, this`cstr, this`zstr, this`out, buf
      ensures Valid() && I() == old(I()) + 1 && out == [] && rstr == zstr == cstr
    {
      hide SameOutside;
      ghost var t := buf[..];
      TapeBlank(t, base, s, I(), rstr, zstr, out);
      rstr, cstr, zstr := rstr + 1, cstr + 1, zstr + 1;
      out := [];
    }

    /** An escape and the character behind it */
    method TurnEscape(m: Mode, first: bool, ghost stack: seq<char>)
      requires Between(m, first) && I() < |s| && Escape(s[I()])
      modifies this`cstr, this`zstr, this`out, buf
      ensures Between(m, false) && Did(m, s, old(I()), first, stack, old(out), I(), false, stack, out)
    {
      hide Tape, SameOutside, Did, BlankLast;
      ghost var i, was := I(), out;
      var c := Current();
      if c == '\\' && m.stripEsc { Skip(); } else { NextChar(); }
      ghost var mid := out;
      c := Current();
      if c != NUL { NextChar(); }
      EscapeDid(m, s, i, first, stack, was, mid, I(), out);
    }

    method TurnBrace(m: Mode, first: bool, ghost stack: seq<char>)
      requires Between(m, first) && I() < |s| && s[I()] == '{'
      modifies this`cstr, this`zstr, this`out, buf
      ensures Between(m, false) && Did(m, s, old(I()), first, stack, old(out), I(), false, stack, out)
    {
      hide Tape, SameOutside, Brace, BraceText;
      ghost var i := I();
      if m.strip { Skip(); } else { NextChar(); }
      assert out + [] == out;
      BraceLast(m, s, i + 1, 1);
      WalkBrace(m);
    }

    /** All other characters */
    method TurnPlain(m: Mode, first: bool, stack: seq<char>) returns (first': bool, stack': seq<char>)
      requires Between(m, first) && I() < |s| && !Escape(s[I()]) && !Closer(s[I()]) && s[I()] != '{'
      modifies this`rstr, this`cstr, this`zstr, this`out, buf
      ensures Between(m, first') && Did(m, s, old(I()), first, stack, old(out), I(), first', stack', out)
    {
      hide Tape, SameOutside;
      first', stack' := first, stack;
      var c := Current();
      if c == ' ' {
        if Compress(m) {
          if first {
            SkipBlank();
            return;
          }
          var prev := Previous();
          if prev == ' ' { Back(); }
        }
      } else if c == '[' {
        first' := false;
        var escaped := false;
        if cstr != rstr {
          var prev := Previous();
          escaped := prev == ESC;
        }
        if !escaped { stack' := Push(stack, ']'); }
      } else {
        first' := false;
        if c == '(' { stack' := Push(stack, ')'); }
      }
      NextChar();
    }

    /** One turn of the loop of parse_to; cut is true at the delimiter. */
    method Turn(m: Mode, delim: char, first: bool, stack: seq<char>) returns (cut: bool, first': bool, stack': seq<char>)
      requires Between(m, first) && I() < |s|
      modifies this`rstr, this`cstr, this`zstr, this`out, buf
      ensures cut == old(Cuts(delim, s, Scan(I(), first, stack)))
      ensures cut ==> Between(m, first) && I() == old(I()) && out == old(out) && first' == first && stack' == stack
      ensures !cut ==> Between(m, first') && Did(m, s, old(I()), first, stack, old(out), I(), first', stack', out)
    {
      hide Tape, SameOutside, Did;
      cut, first', stack' := false, first, stack;
      var c := Current();
      if c == '\\' || c == '%' {
        TurnEscape(m, first, stack);
        first' := false;
      } else if c == ']' || c == ')' {
        cut, stack' := TurnCloser(m, delim, first, stack);
        if !cut { first' := false; }
      } else if c == '{' {
        TurnBrace(m, first, stack);
        first' := false;
      } else if c == delim && stack == [] {
        cut := true;
      } else {
        first', stack' := TurnPlain(m, first, stack);
      }
    }

    method TurnCloser(m: Mode, delim: char, first: bool, stack: seq<char>) returns (cut: bool, stack': seq<char>)
      requires Between(m, first) && I() < |s| && Closer(s[I()])
      modifies this`cstr, this`zstr, this`out, buf
      ensures cut == old(Cuts(delim, s, Scan(I(), first, stack)))
      ensures cut ==> Between(m, first) && I() == old(I()) && out == old(out) && stack' == stack
      ensures !cut ==> Between(m, false) && Did(m, s, old(I()), first, stack, old(out), I(), false, stack', out)
    {
      hide Tape, SameOutside, Unwind;
      stack' := stack;
      var c := Current();
      var tp := FindOnStack(stack, c);
      if tp >= 0 {
        stack' := stack[..tp];
      } else if c == delim {
        return true, stack;
      }
      NextChar();
      cut := false;
    }

    /** The loop of parse_to: it stops where the scanner stops, with the text the reference writes. */
    method Walk(m: Mode, delim: char) returns (found: bool, first: bool, ghost brackets: seq<char>)
      requires Valid() && I() == 0 && out == [] && rstr == base
      modifies this`rstr, this`cstr, this`zstr, this`out, buf
      ensures Between(m, first) && found == (I() < |s|) && (found ==> Cuts(delim, s, Scan(I(), first, brackets)))
      ensures Stop(delim, s, Start).i == I() && Stop(delim, s, Start).first == first
      ensures out == Splitter.Text(m, delim, s, Start, [])
    {
      hide Tape, SameOutside, Did, Cuts, Move, Emit;
      first := true;
      var stack: seq<char> := [];
      assert rstr == zstr == cstr by { TapeEmpty(buf[..], base, s, I(), rstr, zstr, out); }
      var c := Current();
      while c != NUL
        invariant Between(m, first) && Reads(c, I())
        invariant Stop(delim, s, Scan(I(), first, stack)) == Stop(delim, s, Start)
        invariant Splitter.Text(m, delim, s, Scan(I(), first, stack), out) == Splitter.Text(m, delim, s, Start, [])
        decreases |s| - I()
      {
        ghost var i, f, k, o := I(), first, stack, out;
        var cut;
        cut, first, stack := Turn(m, delim, first, stack);
        if cut { return true, first, stack; }
        DidGives(m, s, i, f, k, o, I(), first, stack, out);
        c := Current();
      }
      found, brackets := false, stack;
    }

    /** parse_to_cleanup.  Where it looks at *rstr although the piece is empty, there is no brace: the piece has not
        begun and the reader stands at the delimiter or the end, or what was skipped there is an escape or a blank. */
    method Finish(m: Mode, delim: char, first: bool, ghost stack: seq<char>) returns (r: nat, ghost text: string)
      requires Between(m, first) && FlatFile.Text(out) && I() <= |s| && !(m.strip && m.stripAround)
      requires I() < |s| ==> Cuts(delim, s, Scan(I(), first, stack))
      modifies buf
      ensures text == Cleanup(m, s, Scan(I(), first, []), out)
      ensures Holds(buf[..], r, text) && base <= r && r + |text| <= cstr
      ensures forall k :: 0 <= k < buf.Length && (k < base || cstr < k) ==> buf[k] == old(buf[k])
    {
      hide Cleaned, SameOutside;
      var trim := false;
      if Trail(m) && !first {
        var prev := Previous();
        trim := prev == ' ';
      }
      assert buf[rstr..zstr] == buf[..][rstr..zstr] == out;
      var c := Current();
      assert c != '{';
      assert out != [] ==> buf[rstr] == out[0];
      r, text := CleanBuffer(buf, m, rstr, zstr, trim, out);
    }
  }

  /** parse_to_cleanup on the piece from rstr to zstr */
  method CleanBuffer(buf: array<char>, m: Mode, rstr: nat, zstr: nat, trim: bool, ghost out: string)
      returns (r: nat, ghost text: string)
    requires rstr <= zstr < buf.Length && buf[rstr..zstr] == out && FlatFile.Text(out) && (trim ==> out != [])
    requires m.stripAround && zstr - (if trim then 1 else 0) == rstr ==> buf[rstr] != '{'
    modifies buf
    ensures text == Cleaned(m, trim, out) && Holds(buf[..], r, text) && rstr <= r && r + |text| <= zstr
    ensures forall k :: 0 <= k < buf.Length && (k < rstr || zstr < k) ==> buf[k] == old(buf[k])
  {
    hide Around, FlatFile.Text;
    var z := zstr;
    text := out;
    if trim {
      TrimPiece(buf[..], rstr, z, out);
      z, text := z - 1, Shorter(text);
    }
    r := rstr;
    PieceEnds(buf[..], r, z, text);
    if m.stripAround && buf[r] == '{' && buf[z - 1] == '}' {
      ghost var was := text;
      text := Around(m, text);
      r, z := StripAround(buf, m, r, z, was);
    }
    ghost var t := buf[..];
    buf[z] := NUL;
    assert buf[..] == t[z := NUL];
    PieceHeld(t, r, z, text);
  }

  lemma TrimPiece(t: seq<char>, r: nat, z: nat, out: string)
    requires r <= z <= |t| && t[r..z] == out && out != [] && FlatFile.Text(out)
    ensures r < z && t[r..z - 1] == Shorter(out) && FlatFile.Text(Shorter(out))
  {
    assert t[r..z - 1] == t[r..z][..z - 1 - r];
  }

  lemma PieceEnds(t: seq<char>, r: nat, z: nat, text: string)
    requires r <= z <= |t| && t[r..z] == text
    ensures |text| == z - r && (text != [] ==> text[0] == t[r] && text[|text| - 1] == t[z - 1])
  {
  }

  lemma PieceHeld(t: seq<char>, r: nat, z: nat, text: string)
    requires r <= z < |t| && t[r..z] == text && FlatFile.Text(text)
    ensures Holds(t[z := NUL], r, text)
  {
    assert t[z := NUL][r..z] == t[r..z];
  }

  /** The part of parse_to_cleanup for braces around the piece */
  method StripAround(buf: array<char>, m: Mode, r0: nat, z0: nat, ghost t: string) returns (r: nat, z: nat)
    requires r0 < z0 <= buf.Length && buf[r0..z0] == t && FlatFile.Text(t) && |t| >= 2 && t[0] == '{' && t[|t| - 1] == '}'
    modifies buf
    ensures r0 < r <= z < z0 && buf[r..z] == Around(m, t)
    ensures forall k :: 0 <= k < buf.Length && (k < r0 || z0 <= k) ==> buf[k] == old(buf[k])
    ensures FlatFile.Text(Around(m, t))
  {
    AroundIsText(m, t);
    hide FlatFile.Text, SkipSpace, StripEnd;
    ghost var mid := t[1..|t| - 1];
    r := r0 + 1;
    MidOf(buf[..], r0, z0, t);
    PartIsText(t, 1, |t| - 1);
    SkipIsText(mid);
    if m.spaceCompress && (!m.noCompress || m.stripLS) { r := SkipBlanks(buf, r, z0 - 1); }
    ghost var mid' := buf[r..z0 - 1];
    buf[r - 1] := NUL;
    z := z0 - 1;
    assert buf[r..z] == mid';
    if m.spaceCompress && (!m.noCompress || m.stripTS) { z := DropBlanks(buf, r, z); }
  }

  lemma MidOf(b: seq<char>, r: nat, z: nat, t: string)
    requires r < z <= |b| && b[r..z] == t && |t| >= 2
    ensures b[r + 1..z - 1] == t[1..|t| - 1] && b[z - 1] == t[|t| - 1]
  {
    var x, y := b[r + 1..z - 1], t[1..|t| - 1];
    forall k | 0 <= k < |x| ensures x[k] == y[k] { assert x[k] == b[r + 1 + k] == t[1 + k]; }
  }

  lemma {:induction false} SkipIsText(s: string)
    requires FlatFile.Text(s)
    ensures FlatFile.Text(SkipSpace(s))
    decreases |s|
  {
    if s != [] && IsSpace(s[0]) {
      PartIsText(s, 1, |s|);
      assert s[1..|s|] == s[1..];
      SkipIsText(s[1..]);
    }
  }

  lemma AroundIsText(m: Mode, t: string)
    requires |t| >= 2 && FlatFile.Text(t)
    ensures FlatFile.Text(Around(m, t))
  {
    hide FlatFile.Text, SkipSpace, StripEnd;
    var mid := t[1..|t| - 1];
    PartIsText(t, 1, |t| - 1);
    SkipIsText(mid);
    var mid' := if m.spaceCompress && (!m.noCompress || m.stripLS) then SkipSpace(mid) else mid;
    PartIsText(mid', 0, |StripEnd(mid')|);
    assert mid'[0..|StripEnd(mid')|] == StripEnd(mid');
  }

  lemma PartIsText(t: string, i: nat, j: nat)
    requires FlatFile.Text(t) && i <= j <= |t|
    ensures FlatFile.Text(t[i..j])
  {
    forall k | 0 <= k < j - i ensures t[i..j][k] != NUL { assert t[i..j][k] == t[i + k]; }
  }

  method SkipBlanks(buf: array<char>, r0: nat, end: nat) returns (r: nat)
    requires r0 <= end < buf.Length && buf[end] == '}' && FlatFile.Text(buf[r0..end])
    ensures r0 <= r <= end && buf[r..end] == SkipSpace(buf[r0..end])
  {
    r := r0;
    while buf[r] != NUL && IsSpace(buf[r])
      invariant r0 <= r <= end && SkipSpace(buf[r..end]) == SkipSpace(buf[r0..end])
      decreases end - r
    {
      assert buf[r..end][0] == buf[r] && buf[r..end][1..] == buf[r + 1..end];
      r := r + 1;
    }
    assert r < end ==> buf[r..end][0] == buf[r];
  }

  method DropBlanks(buf: array<char>, r: nat, z0: nat) returns (z: nat)
    requires 0 < r <= z0 <= buf.Length && buf[r - 1] == NUL && FlatFile.Text(buf[r..z0])
    ensures r <= z <= z0 && buf[r..z] == StripEnd(buf[r..z0])
  {
    z := z0;
    while buf[z - 1] != NUL && IsSpace(buf[z - 1])
      invariant r <= z <= z0 && StripEnd(buf[r..z]) == StripEnd(buf[r..z0])
      decreases z
    {
      assert buf[r..z][|buf[r..z]| - 1] == buf[z - 1] && buf[r..z][..|buf[r..z]| - 1] == buf[r..z - 1];
      z := z - 1;
    }
    assert r < z ==> buf[r..z][|buf[r..z]| - 1] == buf[z - 1];
  }

  // ------------------------------------------------------------------ pieces hold no NUL

  lemma {:induction false} BraceIsText(m: Mode, s: string, i: nat, lev: nat)
    requires i <= |s| && lev > 0 && FlatFile.Text(s)
    ensures FlatFile.Text(BraceText(m, s, i, lev))
    decreases |s| - i
  {
    if i < |s| {
      if Escape(s[i]) {
        if i + 1 < |s| { BraceIsText(m, s, i + 2, lev); }
      } else if s[i] == '{' {
        BraceIsText(m, s, i + 1, lev + 1);
      } else if s[i] == '}' {
        if lev > 1 { BraceIsText(m, s, i + 1, lev - 1); }
      } else {
        BraceIsText(m, s, i + 1, lev);
      }
    }
  }

  lemma EmitIsText(m: Mode, s: string, q: Scan, out: string)
    requires q.i < |s| && FlatFile.Text(s) && FlatFile.Text(out)
    ensures FlatFile.Text(Emit(m, s, q, out))
  {
    hide BraceText;
    BraceIsText(m, s, q.i + 1, 1);
  }

  lemma {:induction false} TextIsText(m: Mode, delim: char, s: string, q: Scan, out: string)
    requires q.i <= |s| && FlatFile.Text(s) && FlatFile.Text(out)
    ensures FlatFile.Text(Splitter.Text(m, delim, s, q, out))
    decreases |s| - q.i
  {
    hide Move, Emit, Cuts;
    if q.i < |s| && !Cuts(delim, s, q) {
      EmitIsText(m, s, q, out);
      TextIsText(m, delim, s, Move(s, q), Emit(m, s, q, out));
    }
  }

  // ------------------------------------------------------------------ the whole function

  /** parse_to on a line that starts at dstr: the piece starts at rstr, and dstr' is where the remainder starts, or None
      for the null pointer. */
  method ParseTo(buf: array<char>, dstr: nat, delim: char, m: Mode, ghost s: string) returns (rstr: nat, dstr': Option<nat>)
    requires Holds(buf[..], dstr, s) && !(m.strip && m.stripAround)
    modifies buf
    ensures Holds(buf[..], rstr, Piece(m, delim, s))
    ensures dstr'.Some? <==> Remains(m, delim, s).Some?
    ensures dstr'.Some? ==> Holds(buf[..], dstr'.value, Remains(m, delim, s).value)
    ensures forall k :: 0 <= k < buf.Length && (k < dstr || dstr + |s| < k) ==> buf[k] == old(buf[k])
  {
    hide Holds, Splitter.Text, Stop, Cleanup;
    HoldsFirst(buf[..], dstr, s);
    if buf[dstr] == NUL {
      EmptyLine(m, delim);
      return dstr, None;
    }
    var start := dstr;
    if Lead(m) { start := SkipLead(buf, dstr, s); }
    rstr, dstr' := CutLine(buf, start, delim, m, Splitter.Line(m, s));
  }

  /** parse_to after the leading blanks */
  method CutLine(buf: array<char>, start: nat, delim: char, m: Mode, ghost t: string) returns (rstr: nat, dstr': Option<nat>)
    requires Holds(buf[..], start, t) && !(m.strip && m.stripAround)
    modifies buf
    ensures Holds(buf[..], rstr, Cleanup(m, t, Stop(delim, t, Start), Splitter.Text(m, delim, t, Start, [])))
    ensures dstr'.Some? <==> Cut(delim, t) < |t|
    ensures dstr'.Some? ==> Holds(buf[..], dstr'.value, t[Cut(delim, t) + 1..])
    ensures forall k :: 0 <= k < buf.Length && (k < start || start + |t| < k) ==> buf[k] == old(buf[k])
  {
    hide Holds, Splitter.Text, Stop, SameOutside, Tape, Cleaned, Cuts;
    var line := new LineBuffer(buf, start, t);
    ghost var t0 := buf[..];
    var found, first;
    ghost var brackets;
    found, first, brackets := line.Walk(m, delim);
    ghost var was := buf[..];
    HoldsText(t0, start, t);
    TextIsText(m, delim, t, Start, []);
    ghost var text;
    rstr, text := line.Finish(m, delim, first, brackets);
    FrameAll(t0, was, buf[..], start, |t|, line.cstr);
    if found {
      TailHolds(was, buf[..], start, t, line.I(), line.rstr, line.zstr, line.out);
      return rstr, Some(line.cstr + 1);
    }
    dstr' := None;
  }

  /** The loop over leading blanks */
  method SkipLead(buf: array<char>, dstr: nat, ghost s: string) returns (start: nat)
    requires Holds(buf[..], dstr, s)
    ensures dstr <= start && start + |SkipSpace(s)| == dstr + |s| && Holds(buf[..], start, SkipSpace(s))
  {
    hide Holds;
    start := dstr;
    ghost var t := s;
    HoldsFirst(buf[..], start, t);
    while buf[start] != NUL && IsSpace(buf[start])
      invariant dstr <= start < buf.Length && start + |t| == dstr + |s| && Holds(buf[..], start, t)
      invariant SkipSpace(t) == SkipSpace(s) && (buf[start] == NUL <==> t == []) && (t != [] ==> buf[start] == t[0])
      decreases |t|
    {
      HoldsTail(buf[..], start, t);
      start, t := start + 1, t[1..];
      HoldsFirst(buf[..], start, t);
    }
  }

  lemma HoldsFirst(t: seq<char>, p: nat, s: string)
    requires Holds(t, p, s)
    ensures p < |t| && (t[p] == NUL <==> s == []) && (s != [] ==> t[p] == s[0])
  {
    if s != [] { assert t[p] == t[p..p + |s|][0]; }
  }

  lemma HoldsTail(t: seq<char>, p: nat, s: string)
    requires Holds(t, p, s) && s != []
    ensures Holds(t, p + 1, s[1..])
  {
    assert t[p + 1..p + 1 + |s[1..]|] == t[p..p + |s|][1..];
  }

  lemma HoldsText(t: seq<char>, p: nat, s: string)
    requires Holds(t, p, s)
    ensures FlatFile.Text(s)
  {
  }

  lemma EmptyLine(m: Mode, delim: char)
    ensures Piece(m, delim, []) == [] && Remains(m, delim, []) == None
  {
  }

  lemma FrameAll(t0: seq<char>, was: seq<char>, now: seq<char>, start: nat, n: nat, cstr: nat)
    requires SameOutside(t0, was, start, n) && start <= cstr <= start + n && |was| == |now|
    requires forall k :: 0 <= k < |now| && (k < start || cstr < k) ==> now[k] == was[k]
    ensures forall k :: 0 <= k < |now| && (k < start || start + n < k) ==> now[k] == t0[k]
  {
  }

  /** Behind the delimiter the line is as it was. */
  lemma TailHolds(t: seq<char>, t': seq<char>, base: nat, s: string, i: nat, r: nat, z: nat, out: string)
    requires Tape(t, base, s, i, r, z, out) && i < |s| && |t| == |t'|
    requires forall k :: 0 <= k < |t| && base + i < k ==> t'[k] == t[k]
    ensures Holds(t', base + i + 1, s[i + 1..])
  {
    var rest := s[i + 1..];
    forall k | 0 <= k < |rest| ensures t'[base + i + 1 + k] == rest[k] { assert t[base + (i + 1 + k)] == s[i + 1 + k]; }
    assert t'[base + i + 1..base + i + 1 + |rest|] == rest;
  }

  /** A turn that did what Move and Emit say */
  ghost predicate Did(m: Mode, s: string, i: nat, first: bool, stack: seq<char>, out: string, i': nat, first': bool,
      stack': seq<char>, out': string)
    requires i < |s|
  {
    Scan(i', first', stack') == Move(s, Scan(i, first, stack)) && out' == Emit(m, s, Scan(i, first, stack), out)
  }

  lemma EscapeDid(m: Mode, s: string, i: nat, first: bool, stack: seq<char>, out: string, mid: string, i': nat, out': string)
    requires i < |s| && Escape(s[i]) && i' == (if i + 1 < |s| then i + 2 else i + 1)
    requires mid == (if s[i] == '\\' && m.stripEsc then out else out + [s[i]])
    requires out' == if i + 1 < |s| then mid + [s[i + 1]] else mid
    ensures Did(m, s, i, first, stack, out, i', false, stack, out') && (s[i' - 1] == ' ' ==> BlankLast(out'))
  {
    assert out + [] == out && mid + [] == mid;
    assert mid == out + Escaped(m, s[i]);
  }

  lemma DidGives(m: Mode, s: string, i: nat, first: bool, stack: seq<char>, out: string, i': nat, first': bool,
      stack': seq<char>, out': string)
    requires i < |s| && Did(m, s, i, first, stack, out, i', first', stack', out')
    ensures Scan(i', first', stack') == Move(s, Scan(i, first, stack)) && out' == Emit(m, s, Scan(i, first, stack), out)
  {
  }

  /** A text that ends with a blank */
  predicate BlankLast(t: string) { t != [] && t[|t| - 1] == ' ' }

  lemma LastOf(a: string, t: string)
    ensures t != [] ==> BlankLast(a + t) == BlankLast(t)
    ensures t == [] ==> BlankLast(a + t) == BlankLast(a)
  {
    assert t == [] ==> a + t == a;
  }

  /** A brace whose walk ends behind a blank has written that blank last. */
  lemma {:induction false} BraceLast(m: Mode, s: string, i: nat, lev: nat)
    requires i <= |s| && lev > 0
    ensures var j := Brace(s, i, lev); j > i && s[j - 1] == ' ' ==> BlankLast(BraceText(m, s, i, lev))
    decreases |s| - i
  {
    hide BlankLast;
    if i < |s| && !(Escape(s[i]) && i + 1 == |s|) && !(s[i] == '}' && lev == 1) {
      var k := if Escape(s[i]) then i + 2 else i + 1;
      var lev' := if Escape(s[i]) then lev else if s[i] == '{' then lev + 1 else if s[i] == '}' then lev - 1 else lev;
      var pre := if Escape(s[i]) then Escaped(m, s[i]) + [s[i + 1]] else [s[i]];
      var rest := BraceText(m, s, k, lev');
      assert Brace(s, i, lev) == Brace(s, k, lev') && BraceText(m, s, i, lev) == pre + rest;
      BraceLast(m, s, k, lev');
      hide Brace, BraceText;
      LastOf(pre, rest);
      LastOf(Escaped(m, s[i]), [s[k - 1]]);
      LastOf([], [s[k - 1]]);
      OneBlank(s[k - 1]);
      NoBlank();
    }
  }

  lemma OneBlank(c: char) ensures BlankLast([c]) == (c == ' ') { }

  lemma NoBlank() ensures !BlankLast([]) { }

  lemma TapeBlank(t: seq<char>, base: nat, s: string, i: nat, r: nat, z: nat, out: string)
    requires Tape(t, base, s, i, r, z, out) && i < |s| && r == z == base + i
    ensures Tape(t, base, s, i + 1, r + 1, z + 1, [])
  {
  }

  lemma TapeEmpty(t: seq<char>, base: nat, s: string, i: nat, r: nat, z: nat, out: string)
    requires Tape(t, base, s, i, r, z, out) && out == []
    ensures r == z
  {
  }

  /** In the brace loop at place i and level lev: where it will end, and what it will have written */
  ghost predicate InBrace(m: Mode, s: string, i: nat, lev: nat, out: string, end: nat, goal: string) {
    if lev > 0 then i <= |s| && Brace(s, i, lev) == end && out + BraceText(m, s, i, lev) == goal
    else i < |s| && s[i] == '}' && i + 1 == end && out + (if m.strip then [] else [s[i]]) == goal
  }

  lemma BraceStarts(m: Mode, s: string, i: nat, out: string, end: nat, goal: string)
    requires i <= |s| && end == Brace(s, i, 1) && goal == out + BraceText(m, s, i, 1)
    ensures InBrace(m, s, i, 1, out, end, goal)
  {
  }

  lemma BraceEnds(m: Mode, s: string, i: nat, lev: nat, out: string, end: nat, goal: string)
    requires InBrace(m, s, i, lev, out, end, goal) && (i >= |s| || lev == 0)
    ensures lev > 0 ==> i == end && out == goal
    ensures lev == 0 ==> i < |s| && i + 1 == end && (if m.strip then out else out + [s[i]]) == goal
  {
  }

  /** The state after one turn of the brace loop */
  lemma BraceTurn(m: Mode, s: string, i: nat, lev: nat, out: string, end: nat, goal: string)
    requires InBrace(m, s, i, lev, out, end, goal) && lev > 0 && i < |s|
    ensures Escape(s[i]) && i + 1 < |s| && Escaped(m, s[i]) == [] ==> InBrace(m, s, i + 2, lev, out + [s[i + 1]], end, goal)
    ensures Escape(s[i]) && i + 1 < |s| && Escaped(m, s[i]) != [] ==>
      InBrace(m, s, i + 2, lev, out + [s[i]] + [s[i + 1]], end, goal)
    ensures Escape(s[i]) && i + 1 == |s| ==> InBrace(m, s, i + 1, lev, out + [s[i]], end, goal)
    ensures s[i] == '{' ==> InBrace(m, s, i + 1, lev + 1, out + [s[i]], end, goal)
    ensures s[i] == '}' && lev > 1 ==> InBrace(m, s, i + 1, lev - 1, out + [s[i]], end, goal)
    ensures s[i] == '}' && lev == 1 ==> InBrace(m, s, i, 0, out, end, goal)
    ensures !Escape(s[i]) && s[i] != '{' && s[i] != '}' ==> InBrace(m, s, i + 1, lev, out + [s[i]], end, goal)
  {
    if Escape(s[i]) {
      if i + 1 < |s| {
        var tail := BraceText(m, s, i + 2, lev);
        Assoc(out, Escaped(m, s[i]), [s[i + 1]], tail);
        assert out + [] == out;
      } else {
        assert BraceText(m, s, i + 1, lev) == [] && out + [s[i]] + [] == out + [s[i]];
      }
    } else if s[i] == '{' {
      Assoc(out, [s[i]], [], BraceText(m, s, i + 1, lev + 1));
    } else if s[i] == '}' {
      if lev > 1 { Assoc(out, [s[i]], [], BraceText(m, s, i + 1, lev - 1)); }
    } else {
      Assoc(out, [s[i]], [], BraceText(m, s, i + 1, lev));
    }
  }

  lemma Assoc(a: string, b: string, c: string, d: string)
    ensures a + (b + c + d) == a + b + c + d && (c == [] ==> a + (b + d) == a + b + d)
  {
  }

  lemma OutsideWrite(t0: seq<char>, t: seq<char>, base: nat, n: nat, z: nat, c: char)
    requires SameOutside(t0, t, base, n) && base <= z <= base + n && z < |t|
    ensures SameOutside(t0, t[z := c], base, n)
  {
  }

}
