module Splitter {
  /*
   parse_to of src/eval.c: cut a line at a delimiter, obeying escapes, braces and nested brackets.  The line is rewritten
   in place through three cursors.  This module is the reference: where the line is cut, and what the piece becomes.
   */

  import opened Decimal
  import opened Locks
  import opened Options

  const STACKLIM := 32
  const ESC: char := 27 as char

  /** mudconf.space_compress and the EV_ flags; no caller asks for both kinds of brace stripping */
  datatype Mode = Mode(spaceCompress: bool, stripLS: bool, stripTS: bool, stripAround: bool, strip: bool, stripEsc: bool,
    noCompress: bool)

  predicate Compress(m: Mode) { m.spaceCompress && !m.noCompress }

  predicate Lead(m: Mode) { (m.spaceCompress || m.stripLS) && !m.noCompress }

  predicate Trail(m: Mode) { (m.spaceCompress || m.stripTS) && !m.noCompress }

  // ------------------------------------------------------------------ where the line is cut

  /** The scanner: its place, whether nothing but blanks came so far, and the brackets it waits for */
  datatype Scan = Scan(i: nat, first: bool, stack: seq<char>)

  predicate Escape(c: char) { c == '\\' || c == '%' }

  /** Past the brace that closes level `lev`, or the end */
  function Brace(s: string, i: nat, lev: nat): (j: nat)
    requires i <= |s| && lev > 0
    ensures i <= j <= |s|
    decreases |s| - i
  {
    if i == |s| then i
    else if Escape(s[i]) then if i + 1 < |s| then Brace(s, i + 2, lev) else i + 1
    else if s[i] == '{' then Brace(s, i + 1, lev + 1)
    else if s[i] == '}' then if lev == 1 then i + 1 else Brace(s, i + 1, lev - 1)
    else Brace(s, i + 1, lev)
  }

  /** The stack below the last c on it */
  function Unwind(stack: seq<char>, c: char): (r: Option<seq<char>>)
    ensures r.Some? <==> c in stack
    ensures r.Some? ==> r.value < stack && stack[|r.value|] == c && c !in stack[|r.value| + 1..]
    decreases |stack|
  {
    if stack == [] then None
    else if stack[|stack| - 1] == c then Some(stack[..|stack| - 1])
    else Unwind(stack[..|stack| - 1], c)
  }

  function Push(stack: seq<char>, c: char): seq<char> { if |stack| < STACKLIM then stack + [c] else stack }

  predicate Closer(c: char) { c == ']' || c == ')' }

  /** Whether the line is cut here */
  predicate Cuts(delim: char, s: string, q: Scan)
    requires q.i < |s|
  {
    var c := s[q.i];
    c == delim && !Escape(c) && c != '{' && (if Closer(c) then c !in q.stack else q.stack == [])
  }

  /** One turn of the scanner over what does not cut */
  function Move(s: string, q: Scan): (r: Scan)
    requires q.i < |s|
    ensures q.i < r.i <= |s|
  {
    var c := s[q.i];
    if Escape(c) then Scan(if q.i + 1 < |s| then q.i + 2 else q.i + 1, false, q.stack)
    else if Closer(c) then Scan(q.i + 1, false, if c in q.stack then Unwind(q.stack, c).value else q.stack)
    else if c == '{' then Scan(Brace(s, q.i + 1, 1), false, q.stack)
    else if c == ' ' then Scan(q.i + 1, q.first, q.stack)
    else if c == '[' && (q.i == 0 || s[q.i - 1] != ESC) then Scan(q.i + 1, false, Push(q.stack, ']'))
    else if c == '(' then Scan(q.i + 1, false, Push(q.stack, ')'))
    else Scan(q.i + 1, false, q.stack)
  }

  /** Where the scanner stops: at the delimiter, or at the end of the line */
  function Stop(delim: char, s: string, q: Scan): (r: Scan)
    requires q.i <= |s|
    ensures q.i <= r.i <= |s| && (r.i < |s| ==> Cuts(delim, s, r))
    decreases |s| - q.i
  {
    if q.i == |s| || Cuts(delim, s, q) then q else Stop(delim, s, Move(s, q))
  }

  const Start := Scan(0, true, [])

  /** The place of the first delimiter outside all nesting, or the length of the line */
  function Cut(delim: char, s: string): (p: nat)
    ensures p <= |s| && (p < |s| ==> s[p] == delim)
  {
    Stop(delim, s, Start).i
  }

  // ------------------------------------------------------------------ what the piece becomes

  /** What the walk through a brace writes, its braces included unless they are stripped */
  function BraceText(m: Mode, s: string, i: nat, lev: nat): string
    requires i <= |s| && lev > 0
    decreases |s| - i
  {
    if i == |s| then []
    else if Escape(s[i]) then
      if i + 1 < |s| then Escaped(m, s[i]) + [s[i + 1]] + BraceText(m, s, i + 2, lev) else [s[i]]
    else if s[i] == '{' then [s[i]] + BraceText(m, s, i + 1, lev + 1)
    else if s[i] == '}' then
      if lev == 1 then if m.strip then [] else [s[i]] else [s[i]] + BraceText(m, s, i + 1, lev - 1)
    else [s[i]] + BraceText(m, s, i + 1, lev)
  }

  /** An escape character, unless it is stripped */
  function Escaped(m: Mode, c: char): string { if c == '\\' && m.stripEsc then [] else [c] }

  function Shorter(out: string): string { if out == [] then [] else out[..|out| - 1] }

  /** The text so far after one more turn */
  function Emit(m: Mode, s: string, q: Scan, out: string): string
    requires q.i < |s|
  {
    var c := s[q.i];
    if Escape(c) then out + Escaped(m, c) + (if q.i + 1 < |s| then [s[q.i + 1]] else [])
    else if c == '{' then out + (if m.strip then [] else [c]) + BraceText(m, s, q.i + 1, 1)
    else if c == ' ' && Compress(m) && q.first then []
    else if c == ' ' && Compress(m) && q.i > 0 && s[q.i - 1] == ' ' then Shorter(out) + [c]
    else out + [c]
  }

  function Text(m: Mode, delim: char, s: string, q: Scan, out: string): string
    requires q.i <= |s|
    decreases |s| - q.i
  {
    if q.i == |s| || Cuts(delim, s, q) then out else Text(m, delim, s, Move(s, q), Emit(m, s, q, out))
  }

  /** The inside of the braces around a piece */
  function Around(m: Mode, t: string): string
    requires |t| >= 2
  {
    var mid := t[1..|t| - 1];
    var mid' := if m.spaceCompress && (!m.noCompress || m.stripLS) then SkipSpace(mid) else mid;
    if m.spaceCompress && (!m.noCompress || m.stripTS) then StripEnd(mid') else mid'
  }

  /** The piece without the blank behind it, if that goes, and without braces around it */
  function Cleaned(m: Mode, trim: bool, out: string): string {
    var t := if trim then Shorter(out) else out;
    if m.stripAround && |t| >= 2 && t[0] == '{' && t[|t| - 1] == '}' then Around(m, t) else t
  }

  /** parse_to_cleanup; q is where the scanner stopped */
  function Cleanup(m: Mode, s: string, q: Scan, out: string): string
    requires q.i <= |s|
  {
    Cleaned(m, Trail(m) && !q.first && q.i > 0 && s[q.i - 1] == ' ', out)
  }

  /** The line after the leading blanks that are skipped */
  function Line(m: Mode, s: string): string { if Lead(m) then SkipSpace(s) else s }

  /** The piece parse_to returns */
  function Piece(m: Mode, delim: char, s: string): string {
    var t := Line(m, s);
    Cleanup(m, t, Stop(delim, t, Start), Text(m, delim, t, Start, []))
  }

  /** What is left behind the delimiter; None when there was none */
  function Remains(m: Mode, delim: char, s: string): Option<string> {
    var t := Line(m, s);
    var p := Cut(delim, t);
    if p < |t| then Some(t[p + 1..]) else None
  }

  // ------------------------------------------------------------------ without stripping, nothing is lost

  predicate Verbatim(m: Mode) {
    !m.spaceCompress && !m.stripLS && !m.stripTS && !m.stripAround && !m.strip && !m.stripEsc
  }

  lemma OneMore(s: string, i: nat, j: nat)
    requires i < j <= |s|
    ensures s[i..j] == [s[i]] + s[i + 1..j]
  {
  }

  lemma {:induction false} BraceVerbatim(m: Mode, s: string, i: nat, lev: nat)
    requires Verbatim(m) && i <= |s| && lev > 0
    ensures BraceText(m, s, i, lev) == s[i..Brace(s, i, lev)]
    decreases |s| - i
  {
    if i < |s| {
      var j := Brace(s, i, lev);
      OneMore(s, i, j);
      if Escape(s[i]) {
        if i + 1 < |s| {
          BraceVerbatim(m, s, i + 2, lev);
          OneMore(s, i + 1, j);
        }
      } else if s[i] == '{' {
        BraceVerbatim(m, s, i + 1, lev + 1);
      } else if s[i] == '}' {
        if lev > 1 { BraceVerbatim(m, s, i + 1, lev - 1); }
      } else {
        BraceVerbatim(m, s, i + 1, lev);
      }
    }
  }

  lemma EmitVerbatim(m: Mode, s: string, q: Scan)
    requires Verbatim(m) && q.i < |s|
    ensures Emit(m, s, q, s[..q.i]) == s[..Move(s, q).i]
  {
    hide Brace, BraceText, Unwind;
    if s[q.i] == '{' {
      BraceVerbatim(m, s, q.i + 1, 1);
      var j := Brace(s, q.i + 1, 1);
      assert s[..q.i] + [s[q.i]] + s[q.i + 1..j] == s[..j];
    }
  }

  lemma {:induction false} TextVerbatim(m: Mode, delim: char, s: string, q: Scan)
    requires Verbatim(m) && q.i <= |s|
    ensures Text(m, delim, s, q, s[..q.i]) == s[..Stop(delim, s, q).i]
    decreases |s| - q.i
  {
    hide Emit, Move;
    if q.i < |s| && !Cuts(delim, s, q) {
      EmitVerbatim(m, s, q);
      TextVerbatim(m, delim, s, Move(s, q));
    }
  }

  /** Piece, delimiter and remainder are the line, cut where the scanner first meets the delimiter outside nesting. */
  lemma CutsVerbatim(m: Mode, delim: char, s: string)
    requires Verbatim(m)
    ensures Piece(m, delim, s) == s[..Cut(delim, s)]
    ensures match Remains(m, delim, s)
            case Some(rest) => s == Piece(m, delim, s) + [delim] + rest && |rest| < |s|
            case None => s == Piece(m, delim, s)
  {
    TextVerbatim(m, delim, s, Start);
    assert s[..0] == [];
    var p := Cut(delim, s);
    assert p < |s| ==> s == s[..p] + [s[p]] + s[p + 1..];
    assert p == |s| ==> s[..p] == s;
  }

  // ------------------------------------------------------------------ cutting a whole line, as do_top does

  /** All pieces of a line, by calling parse_to until nothing remains */
  function Pieces(m: Mode, delim: char, s: string): seq<string>
    requires Verbatim(m)
    decreases |s|
  {
    CutsVerbatim(m, delim, s);
    match Remains(m, delim, s)
    case None => [Piece(m, delim, s)]
    case Some(rest) => [Piece(m, delim, s)] + Pieces(m, delim, rest)
  }

  function Join(pieces: seq<string>, delim: char): string
    requires pieces != []
  {
    if |pieces| == 1 then pieces[0] else pieces[0] + [delim] + Join(pieces[1..], delim)
  }

  /** The pieces joined by the delimiter are the line. */
  lemma {:induction false} PiecesRejoin(m: Mode, delim: char, s: string)
    requires Verbatim(m)
    ensures Pieces(m, delim, s) != [] && Join(Pieces(m, delim, s), delim) == s
    decreases |s|
  {
    CutsVerbatim(m, delim, s);
    match Remains(m, delim, s)
    case None =>
    case Some(rest) =>
      PiecesRejoin(m, delim, rest);
      var ps := Pieces(m, delim, s);
      assert ps[1..] == Pieces(m, delim, rest);
  }

  lemma {:induction false} BracePrefix(s: string, p: nat, i: nat, lev: nat)
    requires i <= p <= |s| && lev > 0 && Brace(s, i, lev) <= p
    ensures Brace(s[..p], i, lev) == Brace(s, i, lev)
    decreases |s| - i
  {
    if i < p {
      if Escape(s[i]) {
        if i + 1 < |s| && i + 2 <= p { BracePrefix(s, p, i + 2, lev); }
      } else if s[i] == '{' {
        BracePrefix(s, p, i + 1, lev + 1);
      } else if s[i] == '}' {
        if lev > 1 { BracePrefix(s, p, i + 1, lev - 1); }
      } else {
        BracePrefix(s, p, i + 1, lev);
      }
    }
  }

  lemma MovePrefix(s: string, p: nat, q: Scan)
    requires q.i < p <= |s| && Move(s, q).i <= p
    ensures Move(s[..p], q) == Move(s, q)
  {
    hide Unwind, Brace;
    if s[q.i] == '{' { BracePrefix(s, p, q.i + 1, 1); }
  }

  lemma {:induction false} StopPrefix(delim: char, s: string, q: Scan)
    requires q.i <= |s|
    ensures var p := Stop(delim, s, q).i; Stop(delim, s[..p], q).i == p
    decreases |s| - q.i
  {
    hide Move;
    var p := Stop(delim, s, q).i;
    if q.i < |s| && !Cuts(delim, s, q) {
      StopPrefix(delim, s, Move(s, q));
      MovePrefix(s, p, q);
      assert Cuts(delim, s[..p], q) == Cuts(delim, s, q);
    }
  }

  /** No piece can be cut again. */
  lemma {:induction false} PiecesAreWhole(m: Mode, delim: char, s: string, k: nat)
    requires Verbatim(m) && k < |Pieces(m, delim, s)|
    ensures Cut(delim, Pieces(m, delim, s)[k]) == |Pieces(m, delim, s)[k]|
    decreases |s|
  {
    CutsVerbatim(m, delim, s);
    StopPrefix(delim, s, Start);
    if k > 0 { PiecesAreWhole(m, delim, Remains(m, delim, s).value, k - 1); }
  }

  // ------------------------------------------------------------------ in every mode, nothing is invented

  /** a is s with some characters left out. */
  predicate Within(a: string, s: string)
    decreases |s|
  {
    a == [] || (s != [] && ((a[0] == s[0] && Within(a[1..], s[1..])) || Within(a, s[1..])))
  }

  lemma {:induction false} WithinSelf(s: string)
    ensures Within(s, s)
  {
    if s != [] { WithinSelf(s[1..]); }
  }

  lemma {:induction false} WithinLater(a: string, s: string, t: string)
    requires Within(a, t)
    ensures Within(a, s + t)
  {
    if s == [] {
      assert s + t == t;
    } else {
      WithinLater(a, s[1..], t);
      assert (s + t)[1..] == s[1..] + t;
    }
  }

  lemma {:induction false} WithinBoth(a: string, s: string, b: string, t: string)
    requires Within(a, s) && Within(b, t)
    ensures Within(a + b, s + t)
    decreases |s|
  {
    if a == [] {
      assert a + b == b;
      WithinLater(b, s, t);
    } else {
      assert (s + t)[1..] == s[1..] + t && (s + t)[0] == s[0] && (a + b)[0] == a[0] && (a + b)[1..] == a[1..] + b;
      if a[0] == s[0] && Within(a[1..], s[1..]) { WithinBoth(a[1..], s[1..], b, t); } else { WithinBoth(a, s[1..], b, t); }
    }
  }

  lemma {:induction false} WithinTail(a: string, s: string)
    requires Within(a, s) && a != []
    ensures Within(a[1..], s)
    decreases |s|
  {
    if a[0] == s[0] && Within(a[1..], s[1..]) { } else { WithinTail(a, s[1..]); }
  }

  lemma {:induction false} WithinShorter(a: string, s: string)
    requires Within(a, s)
    ensures Within(Shorter(a), s)
    decreases |s|
  {
    if |a| > 1 {
      if a[0] == s[0] && Within(a[1..], s[1..]) {
        WithinShorter(a[1..], s[1..]);
        assert Shorter(a)[1..] == Shorter(a[1..]) && Shorter(a)[0] == a[0];
      } else {
        WithinShorter(a, s[1..]);
      }
    }
  }

  /** Characters added at the end of the line */
  lemma WithinMore(out: string, s: string, i: nat, b: string, j: nat)
    requires i <= j <= |s| && Within(out, s[..i]) && Within(b, s[i..j])
    ensures Within(out + b, s[..j])
  {
    WithinBoth(out, s[..i], b, s[i..j]);
    assert s[..i] + s[i..j] == s[..j];
  }

  /** Text for a first part, then text for the rest */
  lemma WithinSplit(s: string, i: nat, k: nat, j: nat, a: string, b: string)
    requires i <= k <= j <= |s| && Within(a, s[i..k]) && Within(b, s[k..j])
    ensures Within(a + b, s[i..j])
  {
    WithinBoth(a, s[i..k], b, s[k..j]);
    assert s[i..k] + s[k..j] == s[i..j];
  }

  lemma WithinOne(s: string, i: nat)
    requires i < |s|
    ensures Within([s[i]], s[i..i + 1]) && Within([], s[i..i + 1])
  {
    assert s[i..i + 1] == [s[i]];
  }

  lemma EscapedWithin(m: Mode, s: string, i: nat)
    requires i + 1 < |s|
    ensures Within(Escaped(m, s[i]) + [s[i + 1]], s[i..i + 2])
  {
    WithinOne(s, i);
    WithinOne(s, i + 1);
    WithinSplit(s, i, i + 1, i + 2, Escaped(m, s[i]), [s[i + 1]]);
  }

  lemma {:induction false} BraceWithin(m: Mode, s: string, i: nat, lev: nat)
    requires i <= |s| && lev > 0
    ensures Within(BraceText(m, s, i, lev), s[i..Brace(s, i, lev)])
    decreases |s| - i
  {
    hide Within;
    if i == |s| {
      WithinSelf(s[i..i]);
    } else {
      var j := Brace(s, i, lev);
      WithinOne(s, i);
      if Escape(s[i]) {
        if i + 1 < |s| {
          BraceWithin(m, s, i + 2, lev);
          EscapedWithin(m, s, i);
          WithinSplit(s, i, i + 2, j, Escaped(m, s[i]) + [s[i + 1]], BraceText(m, s, i + 2, lev));
        }
      } else if s[i] == '{' {
        BraceWithin(m, s, i + 1, lev + 1);
        WithinSplit(s, i, i + 1, j, [s[i]], BraceText(m, s, i + 1, lev + 1));
      } else if s[i] == '}' {
        if lev > 1 {
          BraceWithin(m, s, i + 1, lev - 1);
          WithinSplit(s, i, i + 1, j, [s[i]], BraceText(m, s, i + 1, lev - 1));
        }
      } else {
        BraceWithin(m, s, i + 1, lev);
        WithinSplit(s, i, i + 1, j, [s[i]], BraceText(m, s, i + 1, lev));
      }
    }
  }

  lemma EmitWithin(m: Mode, s: string, q: Scan, out: string)
    requires q.i < |s| && Within(out, s[..q.i])
    ensures Within(Emit(m, s, q, out), s[..Move(s, q).i])
  {
    hide Within, Brace, BraceText, Unwind;
    var i, c := q.i, s[q.i];
    var j := Move(s, q).i;
    WithinOne(s, i);
    if Escape(c) {
      if i + 1 < |s| {
        EscapedWithin(m, s, i);
        WithinMore(out, s, i, Escaped(m, c) + [s[i + 1]], j);
        assert out + Escaped(m, c) + [s[i + 1]] == out + (Escaped(m, c) + [s[i + 1]]);
      } else {
        WithinMore(out, s, i, Escaped(m, c), j);
        assert out + Escaped(m, c) + [] == out + Escaped(m, c);
      }
    } else if c == '{' {
      BraceWithin(m, s, i + 1, 1);
      var open := if m.strip then [] else [c];
      WithinSplit(s, i, i + 1, j, open, BraceText(m, s, i + 1, 1));
      WithinMore(out, s, i, open + BraceText(m, s, i + 1, 1), j);
      assert out + open + BraceText(m, s, i + 1, 1) == out + (open + BraceText(m, s, i + 1, 1));
    } else {
      WithinShorter(out, s[..i]);
      WithinMore(out, s, i, [c], j);
      WithinMore(Shorter(out), s, i, [c], j);
      WithinNothing(s[..j]);
    }
  }

  lemma WithinNothing(s: string) ensures Within([], s) { }

  lemma {:induction false} TextWithin(m: Mode, delim: char, s: string, q: Scan, out: string)
    requires q.i <= |s| && Within(out, s[..q.i])
    ensures Within(Text(m, delim, s, q, out), s[..Stop(delim, s, q).i])
    decreases |s| - q.i
  {
    hide Within, Emit, Move, Cuts;
    if q.i < |s| && !Cuts(delim, s, q) {
      EmitWithin(m, s, q, out);
      TextWithin(m, delim, s, Move(s, q), Emit(m, s, q, out));
    }
  }

  lemma {:induction false} SkippedWithin(a: string, s: string)
    requires Within(a, s)
    ensures Within(SkipSpace(a), s)
    decreases |a|
  {
    hide Within;
    if a != [] && IsSpace(a[0]) {
      WithinTail(a, s);
      SkippedWithin(a[1..], s);
    }
  }

  lemma {:induction false} StrippedWithin(a: string, s: string)
    requires Within(a, s)
    ensures Within(StripEnd(a), s)
    decreases |a|
  {
    hide Within;
    if a != [] && IsSpace(a[|a| - 1]) {
      WithinShorter(a, s);
      StrippedWithin(a[..|a| - 1], s);
    }
  }

  lemma CleanedWithin(m: Mode, trim: bool, out: string, s: string)
    requires Within(out, s)
    ensures Within(Cleaned(m, trim, out), s)
  {
    hide Within, SkipSpace, StripEnd;
    WithinShorter(out, s);
    var t := if trim then Shorter(out) else out;
    if |t| >= 2 {
      WithinTail(t, s);
      WithinShorter(t[1..], s);
      var mid := t[1..|t| - 1];
      assert Shorter(t[1..]) == mid;
      SkippedWithin(mid, s);
      StrippedWithin(mid, s);
      StrippedWithin(SkipSpace(mid), s);
    }
  }

  /** In every mode the piece is the line up to the cut with some characters left out. */
  lemma PieceIsPart(m: Mode, delim: char, s: string)
    ensures var t := Line(m, s); Within(Piece(m, delim, s), t[..Cut(delim, t)])
  {
    hide Within, Cleaned, Text, Stop;
    var t := Line(m, s);
    var q := Stop(delim, t, Start);
    WithinNothing(t[..0]);
    TextWithin(m, delim, t, Start, []);
    CleanedWithin(m, Trail(m) && !q.first && q.i > 0 && t[q.i - 1] == ' ', Text(m, delim, t, Start, []), t[..q.i]);
  }
}
