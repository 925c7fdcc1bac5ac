module Nesting {
  /*
   What parse_to of src/eval.c takes for nested, as a grammar of texts: plain characters, escape pairs, braces, and round
   and square brackets, which may be left open inside a bracket and do not count from the 33rd on.  The scanner is proved
   against it: it passes over every such text, and stops at the delimiter behind it.
   */

  import opened Decimal
  import opened Locks
  import opened Options
  import opened Splitter

  /** The inside of a brace */
  datatype Inner =
    | Done
    | Single(c: char, more: Inner)
    | Both(e: char, d: char, more: Inner)
    | Deeper(inside: Inner, more: Inner)

  /** A text; Lost is a bracket that is not closed before the one around it is. */
  datatype Text =
    | End
    | Char(c: char, rest: Text)
    | Pair(e: char, d: char, rest: Text)
    | Braced(inside: Inner, rest: Text)
    | Nested(o: char, inner: Text, rest: Text)
    | Lost(o: char, rest: Text)

  function Closing(o: char): char { if o == '(' then ')' else ']' }

  predicate Opener(o: char) { o == '(' || o == '[' }

  /** The grammar's own alphabet, stated apart from the scanner's */
  predicate Quoting(c: char) { c == '\\' || c == '%' }

  // ------------------------------------------------------------------ how they are written

  function PrintInner(t: Inner): string {
    match t
    case Done => ""
    case Single(c, more) => [c] + PrintInner(more)
    case Both(e, d, more) => [e] + ([d] + PrintInner(more))
    case Deeper(inside, more) => "{" + (PrintInner(inside) + ("}" + PrintInner(more)))
  }

  function Print(t: Text): string {
    match t
    case End => ""
    case Char(c, rest) => [c] + Print(rest)
    case Pair(e, d, rest) => [e] + ([d] + Print(rest))
    case Braced(inside, rest) => "{" + (PrintInner(inside) + ("}" + Print(rest)))
    case Nested(o, inner, rest) => [o] + (Print(inner) + ([Closing(o)] + Print(rest)))
    case Lost(o, rest) => [o] + Print(rest)
  }

  /** The closing brackets that the lost ones of a text would need */
  function LostIn(t: Text): seq<char> {
    match t
    case End => []
    case Lost(o, rest) => [Closing(o)] + LostIn(rest)
    case _ => LostIn(t.rest)
  }

  // ------------------------------------------------------------------ which of them hide their delimiters

  predicate GoodInner(t: Inner) {
    match t
    case Done => true
    case Single(c, more) => !Quoting(c) && c != '{' && c != '}' && GoodInner(more)
    case Both(e, _, more) => Quoting(e) && GoodInner(more)
    case Deeper(inside, more) => GoodInner(inside) && GoodInner(more)
  }

  /** A bracket counts if there are fewer than 32 around it; an opening square bracket after an ESC (27) is no bracket. */
  predicate Counts(o: char, depth: nat, prev: char) { Opener(o) && depth < 32 && (o == '[' ==> prev != 27 as char) }

  /** A character that is just passed: no escape, no brace, no bracket that counts, no closing bracket for one of those
      around, and no delimiter outside all brackets.  A closing bracket as the delimiter counts inside brackets too. */
  predicate Passed(delim: char, c: char, around: seq<char>, prev: char) {
    && !Quoting(c) && c != '{' && !Counts(c, |around|, prev)
    && (if c == ')' || c == ']' then c !in around && c != delim else around != [] || c != delim)
  }

  /** The text stands inside the brackets `around`, then `lost` more were opened that will not be closed; no delimiter
      is left to be found in it. */
  predicate Good(delim: char, t: Text, around: seq<char>, lost: seq<char>, prev: char)
    decreases t
  {
    match t
    case End => true
    case Char(c, rest) => Passed(delim, c, around + lost, prev) && Good(delim, rest, around, lost, c)
    case Pair(e, d, rest) => Quoting(e) && Good(delim, rest, around, lost, d)
    case Braced(inside, rest) => GoodInner(inside) && Good(delim, rest, around, lost, '}')
    case Nested(o, inner, rest) =>
      && Counts(o, |around + lost|, prev) && (around + lost == [] ==> o != delim)
      && Good(delim, inner, around + lost + [Closing(o)], [], o)
      && Good(delim, rest, around, lost, Closing(o))
    case Lost(o, rest) =>
      && Counts(o, |around + lost|, prev) && around != [] && Closing(o) != around[|around| - 1]
      && Good(delim, rest, around, lost + [Closing(o)], o)
  }

  // ------------------------------------------------------------------ what a piece without blanks to squeeze becomes

  /** A backslash goes under EV_STRIP_ESC; a percent sign never does. */
  function Quoted(m: Mode, e: char): string { if m.stripEsc && e == '\\' then [] else [e] }

  function RenderInner(m: Mode, t: Inner): string {
    match t
    case Done => ""
    case Single(c, more) => [c] + RenderInner(m, more)
    case Both(e, d, more) => Quoted(m, e) + [d] + RenderInner(m, more)
    case Deeper(inside, more) => "{" + (RenderInner(m, inside) + ("}" + RenderInner(m, more)))
  }

  /** EV_STRIP takes the outer braces away, and EV_STRIP_ESC the backslashes. */
  function Render(m: Mode, t: Text): string {
    match t
    case End => ""
    case Char(c, rest) => [c] + Render(m, rest)
    case Pair(e, d, rest) => Quoted(m, e) + [d] + Render(m, rest)
    case Braced(inside, rest) =>
      (if m.strip then RenderInner(m, inside) else "{" + RenderInner(m, inside) + "}") + Render(m, rest)
    case Nested(o, inner, rest) => [o] + (Render(m, inner) + ([Closing(o)] + Render(m, rest)))
    case Lost(o, rest) => [o] + Render(m, rest)
  }

  // ------------------------------------------------------------------ the scanner passes over

  /** x stands at place i of s. */
  predicate Stands(s: string, i: nat, x: string) { i + |x| <= |s| && s[i..i + |x|] == x }

  lemma StandsBoth(s: string, i: nat, x: string, y: string)
    requires Stands(s, i, x + y)
    ensures Stands(s, i, x) && Stands(s, i + |x|, y)
  {
    assert s[i..i + |x|] == s[i..i + |x + y|][..|x|];
    assert s[i + |x|..i + |x| + |y|] == s[i..i + |x + y|][|x|..];
  }

  lemma StandsOne(s: string, i: nat, c: char, y: string)
    requires Stands(s, i, [c] + y)
    ensures i < |s| && s[i] == c && Stands(s, i + 1, y)
  {
    StandsBoth(s, i, [c], y);
    assert s[i..i + 1][0] == c;
  }

  function PrevAt(s: string, i: nat): char
    requires i <= |s|
  {
    if i == 0 then ' ' else s[i - 1]
  }

  /** One turn inside a brace */
  lemma BraceSteps(m: Mode, s: string, i: nat, lev: nat)
    requires i < |s| && lev > 0
    ensures var c := s[i];
      && (!Escape(c) && c != '{' && c != '}' ==>
           Brace(s, i, lev) == Brace(s, i + 1, lev) && BraceText(m, s, i, lev) == [c] + BraceText(m, s, i + 1, lev))
      && (Escape(c) && i + 1 < |s| ==>
           && Brace(s, i, lev) == Brace(s, i + 2, lev)
           && BraceText(m, s, i, lev) == Escaped(m, c) + [s[i + 1]] + BraceText(m, s, i + 2, lev))
      && (c == '{' ==>
           Brace(s, i, lev) == Brace(s, i + 1, lev + 1) && BraceText(m, s, i, lev) == [c] + BraceText(m, s, i + 1, lev + 1))
      && (c == '}' && lev > 1 ==>
           Brace(s, i, lev) == Brace(s, i + 1, lev - 1) && BraceText(m, s, i, lev) == [c] + BraceText(m, s, i + 1, lev - 1))
      && (c == '}' && lev == 1 ==> Brace(s, i, lev) == i + 1 && BraceText(m, s, i, lev) == if m.strip then [] else [c])
  {
  }

  lemma Assoc(a: string, b: string, c: string, d: string)
    ensures a + (b + (c + d)) == a + b + c + d == a + (b + c) + d == (a + (b + c)) + d
    ensures a + (b + c) == a + b + c
  {
  }

  /** The inside of a brace leaves the level as it is. */
  lemma {:induction false} InnerPassed(m: Mode, s: string, i: nat, lev: nat, t: Inner)
    requires GoodInner(t) && Stands(s, i, PrintInner(t)) && lev > 0
    ensures i + |PrintInner(t)| <= |s|
    ensures Brace(s, i, lev) == Brace(s, i + |PrintInner(t)|, lev)
    ensures BraceText(m, s, i, lev) == RenderInner(m, t) + BraceText(m, s, i + |PrintInner(t)|, lev)
    decreases t, 1
  {
    hide Brace, BraceText, Stands, Escape;
    match t
    case Done => DonePassed(s, i);
    case Single(c, more) => SinglePassed(m, s, i, lev, c, more);
    case Both(e, d, more) => BothPassed(m, s, i, lev, e, d, more);
    case Deeper(inside, more) => DeeperPassed(m, s, i, lev, inside, more);
  }

  lemma DonePassed(s: string, i: nat)
    requires Stands(s, i, "")
    ensures i <= |s|
  {
  }

  lemma {:induction false} SinglePassed(m: Mode, s: string, i: nat, lev: nat, c: char, more: Inner)
    requires !Quoting(c) && c != '{' && c != '}' && GoodInner(more) && Stands(s, i, [c] + PrintInner(more)) && lev > 0
    ensures var j := i + 1 + |PrintInner(more)|;
      && j <= |s| && Brace(s, i, lev) == Brace(s, j, lev)
      && BraceText(m, s, i, lev) == [c] + RenderInner(m, more) + BraceText(m, s, j, lev)
    decreases Single(c, more), 0
  {
    hide Brace, BraceText, Stands;
    StandsOne(s, i, c, PrintInner(more));
    BraceSteps(m, s, i, lev);
    InnerPassed(m, s, i + 1, lev, more);
    Assoc([c], RenderInner(m, more), BraceText(m, s, i + 1 + |PrintInner(more)|, lev), []);
  }

  lemma {:induction false} BothPassed(m: Mode, s: string, i: nat, lev: nat, e: char, d: char, more: Inner)
    requires Quoting(e) && GoodInner(more) && Stands(s, i, [e] + ([d] + PrintInner(more))) && lev > 0
    ensures var j := i + 2 + |PrintInner(more)|;
      && j <= |s| && Brace(s, i, lev) == Brace(s, j, lev)
      && BraceText(m, s, i, lev) == Quoted(m, e) + [d] + RenderInner(m, more) + BraceText(m, s, j, lev)
    decreases Both(e, d, more), 0
  {
    hide Brace, BraceText, Stands;
    StandsOne(s, i, e, [d] + PrintInner(more));
    StandsOne(s, i + 1, d, PrintInner(more));
    BraceSteps(m, s, i, lev);
    InnerPassed(m, s, i + 2, lev, more);
    Assoc(Quoted(m, e) + [d], RenderInner(m, more), BraceText(m, s, i + 2 + |PrintInner(more)|, lev), []);
  }

  lemma StandsFits(s: string, i: nat, x: string)
    requires Stands(s, i, x)
    ensures i + |x| <= |s|
  {
  }

  lemma {:induction false} DeeperPassed(m: Mode, s: string, i: nat, lev: nat, inside: Inner, more: Inner)
    requires GoodInner(inside) && GoodInner(more) && Stands(s, i, PrintInner(Deeper(inside, more))) && lev > 0
    ensures var j := i + |PrintInner(Deeper(inside, more))|;
      && j <= |s| && Brace(s, i, lev) == Brace(s, j, lev)
      && BraceText(m, s, i, lev) == RenderInner(m, Deeper(inside, more)) + BraceText(m, s, j, lev)
    decreases Deeper(inside, more), 0
  {
    DeeperText(m, inside, more);
    hide Brace, BraceText, Stands, Escape, PrintInner, RenderInner, GoodInner;
    var x, y := PrintInner(inside), PrintInner(more);
    StandsOne(s, i, '{', x + ("}" + y));
    StandsBoth(s, i + 1, x, "}" + y);
    var k := i + 1 + |x|;
    StandsOne(s, k, '}', y);
    StandsFits(s, k + 1, y);
    BraceSteps(m, s, i, lev);
    InnerPassed(m, s, i + 1, lev + 1, inside);
    BraceSteps(m, s, k, lev + 1);
    InnerPassed(m, s, k + 1, lev, more);
    BraceRegroup(RenderInner(m, inside), RenderInner(m, more), BraceText(m, s, k + 1 + |y|, lev));
  }

  lemma DeeperText(m: Mode, inside: Inner, more: Inner)
    ensures PrintInner(Deeper(inside, more)) == "{" + (PrintInner(inside) + ("}" + PrintInner(more)))
    ensures |PrintInner(Deeper(inside, more))| == 2 + |PrintInner(inside)| + |PrintInner(more)|
    ensures RenderInner(m, Deeper(inside, more)) == "{" + (RenderInner(m, inside) + ("}" + RenderInner(m, more)))
  {
  }

  lemma BraceRegroup(a: string, b: string, c: string)
    ensures ['{'] + (a + (['}'] + (b + c))) == "{" + (a + ("}" + b)) + c
  {
  }

  // ------------------------------------------------------------------ outside braces

  /** The scanner gets from one state to the other, and the piece grows accordingly where blanks are not squeezed. */
  ghost predicate Reaches(m: Mode, delim: char, s: string, q: Scan, out: string, q': Scan, out': string) {
    && q.i <= q'.i <= |s| && Stop(delim, s, q) == Stop(delim, s, q')
    && (!Compress(m) ==> Splitter.Text(m, delim, s, q, out) == Splitter.Text(m, delim, s, q', out'))
  }

  lemma OneTurn(m: Mode, delim: char, s: string, q: Scan, out: string)
    requires q.i < |s| && !Cuts(delim, s, q)
    ensures Reaches(m, delim, s, q, out, Move(s, q), Emit(m, s, q, out))
  {
    hide Move, Emit, Cuts;
  }

  lemma ReachesOn(m: Mode, delim: char, s: string, q: Scan, out: string, q1: Scan, out1: string, q2: Scan, out2: string)
    requires Reaches(m, delim, s, q, out, q1, out1) && Reaches(m, delim, s, q1, out1, q2, out2)
    ensures Reaches(m, delim, s, q, out, q2, out2)
  {
    hide Stop, Splitter.Text, Compress;
  }

  /** The text between two states when blanks are not squeezed; any text will do when they are. */
  ghost predicate Wrote(m: Mode, s: string, q: Scan, out: string, more: string)
    requires q.i < |s|
  {
    !Compress(m) ==> Emit(m, s, q, out) == out + more
  }

  lemma TurnTo(m: Mode, delim: char, s: string, q: Scan, out: string, q': Scan, more: string)
    requires q.i < |s| && !Cuts(delim, s, q) && Move(s, q) == q' && Wrote(m, s, q, out, more)
    ensures Reaches(m, delim, s, q, out, q', out + more)
  {
    OneTurn(m, delim, s, q, out);
    hide Move, Emit, Cuts, Stop, Splitter.Text;
  }

  lemma CharPassed(m: Mode, delim: char, s: string, q: Scan, out: string) returns (f: bool)
    requires q.i < |s| && Passed(delim, s[q.i], q.stack, PrevAt(s, q.i))
    ensures Reaches(m, delim, s, q, out, Scan(q.i + 1, f, q.stack), out + [s[q.i]])
  {
    hide Unwind, Brace, BraceText;
    f := Move(s, q).first;
    assert Move(s, q) == Scan(q.i + 1, f, q.stack) && !Cuts(delim, s, q);
    TurnTo(m, delim, s, q, out, Scan(q.i + 1, f, q.stack), [s[q.i]]);
  }

  lemma PairPassed(m: Mode, delim: char, s: string, q: Scan, out: string)
    requires q.i + 1 < |s| && Escape(s[q.i])
    ensures Reaches(m, delim, s, q, out, Scan(q.i + 2, false, q.stack), out + (Escaped(m, s[q.i]) + [s[q.i + 1]]))
  {
    hide Unwind, Brace, BraceText;
    Assoc(out, Escaped(m, s[q.i]), [s[q.i + 1]], []);
    TurnTo(m, delim, s, q, out, Scan(q.i + 2, false, q.stack), Escaped(m, s[q.i]) + [s[q.i + 1]]);
  }

  lemma BracedPassed(m: Mode, delim: char, s: string, q: Scan, out: string, inside: Inner)
    requires GoodInner(inside) && Stands(s, q.i, "{" + (PrintInner(inside) + "}"))
    ensures var j := q.i + 2 + |PrintInner(inside)|;
      Reaches(m, delim, s, q, out, Scan(j, false, q.stack), out + if m.strip then RenderInner(m, inside) else "{" + RenderInner(m, inside) + "}")
  {
    hide Brace, BraceText, Unwind, Stands, GoodInner, PrintInner, RenderInner;
    var x, r := PrintInner(inside), RenderInner(m, inside);
    StandsOne(s, q.i, '{', x + "}");
    StandsBoth(s, q.i + 1, x, "}");
    var k := q.i + 1 + |x|;
    StandsOne(s, k, '}', "");
    InnerPassed(m, s, q.i + 1, 1, inside);
    BraceSteps(m, s, k, 1);
    var more := if m.strip then r else "{" + r + "}";
    BracedWrote(m, s, q, out, r);
    assert Move(s, q) == Scan(k + 1, false, q.stack);
    hide Wrote, Move;
    TurnTo(m, delim, s, q, out, Scan(k + 1, false, q.stack), more);
  }

  lemma BracedWrote(m: Mode, s: string, q: Scan, out: string, r: string)
    requires q.i < |s| && s[q.i] == '{' && BraceText(m, s, q.i + 1, 1) == r + if m.strip then [] else ['}']
    ensures Wrote(m, s, q, out, if m.strip then r else "{" + r + "}")
  {
    hide BraceText, Brace;
    Assoc(out, "{", r, "}");
    assert r + [] == r && out + [] + r == out + r;
  }

  lemma OpenPassed(m: Mode, delim: char, s: string, q: Scan, out: string)
    requires q.i < |s| && Counts(s[q.i], |q.stack|, PrevAt(s, q.i)) && (q.stack == [] ==> s[q.i] != delim)
    ensures Reaches(m, delim, s, q, out, Scan(q.i + 1, false, q.stack + [Closing(s[q.i])]), out + [s[q.i]])
  {
    hide Unwind, Brace, BraceText;
    TurnTo(m, delim, s, q, out, Scan(q.i + 1, false, q.stack + [Closing(s[q.i])]), [s[q.i]]);
  }

  lemma {:induction false} UnwindTo(a: seq<char>, c: char, b: seq<char>)
    requires c !in b
    ensures Unwind(a + [c] + b, c) == Some(a)
    decreases |b|
  {
    if b == [] {
      LastOff(a, c);
      assert a + [c] + b == a + [c];
    } else {
      var b', x := b[..|b| - 1], b[|b| - 1];
      UnwindTo(a, c, b');
      LastOff(a + [c] + b', x);
      assert b == b' + [x];
      assert a + [c] + b == a + [c] + b' + [x];
      hide Unwind;
      UnwindPast(a + [c] + b', x, c);
    }
  }

  lemma LastOff(u: seq<char>, x: char)
    ensures (u + [x])[..|u + [x]| - 1] == u && (u + [x])[|u + [x]| - 1] == x
  {
  }

  lemma UnwindPast(u: seq<char>, x: char, c: char)
    requires x != c
    ensures Unwind(u + [x], c) == Unwind(u, c)
  {
    LastOff(u, x);
  }

  /** A closing bracket takes away everything opened since its opening one. */
  lemma ClosePassed(m: Mode, delim: char, s: string, q: Scan, out: string, a: seq<char>, b: seq<char>)
    requires q.i < |s| && Closer(s[q.i]) && s[q.i] !in b && q.stack == a + [s[q.i]] + b
    ensures Reaches(m, delim, s, q, out, Scan(q.i + 1, false, a), out + [s[q.i]])
  {
    var c := s[q.i];
    UnwindTo(a, c, b);
    assert q.stack[|a|] == c;
    hide Unwind, Brace, BraceText;
    assert Move(s, q) == Scan(q.i + 1, false, a) && !Cuts(delim, s, q);
    TurnTo(m, delim, s, q, out, Scan(q.i + 1, false, a), [c]);
  }

  /** What is lost inside a bracket would not close it. */
  lemma {:induction false} LostIsOther(delim: char, t: Text, around: seq<char>, lost: seq<char>, prev: char)
    requires around != [] && Good(delim, t, around, lost, prev)
    ensures around[|around| - 1] !in LostIn(t)
    decreases t
  {
    hide Passed, GoodInner;
    match t
    case End =>
    case Char(c, rest) => LostIsOther(delim, rest, around, lost, c);
    case Pair(e, d, rest) => LostIsOther(delim, rest, around, lost, d);
    case Braced(inside, rest) => LostIsOther(delim, rest, around, lost, '}');
    case Nested(o, inner, rest) => LostIsOther(delim, rest, around, lost, Closing(o));
    case Lost(o, rest) => LostIsOther(delim, rest, around, lost + [Closing(o)], o);
  }

  /** What passing over a text t from the state q means */
  ghost predicate RunsOver(m: Mode, delim: char, s: string, q: Scan, out: string, t: Text, f: bool) {
    Reaches(m, delim, s, q, out, Scan(q.i + |Print(t)|, f, q.stack + LostIn(t)), out + Render(m, t))
  }

  /** The scanner passes over every good text, and comes out of it with the brackets it went in with and the lost ones. */
  lemma {:induction false} RunOver(m: Mode, delim: char, s: string, q: Scan, out: string, t: Text, around: seq<char>, lost: seq<char>)
      returns (f: bool)
    requires q.i <= |s| && q.stack == around + lost && Good(delim, t, around, lost, PrevAt(s, q.i)) && Stands(s, q.i, Print(t))
    ensures RunsOver(m, delim, s, q, out, t, f)
    decreases t, 1
  {
    hide RunsOver, Good, Print, Stands;
    match t
    case End => f := q.first; RunEnd(m, delim, s, q, out);
    case Char(c, rest) => f := RunChar(m, delim, s, q, out, c, rest, around, lost);
    case Pair(e, d, rest) => f := RunPair(m, delim, s, q, out, e, d, rest, around, lost);
    case Braced(inside, rest) => f := RunBraced(m, delim, s, q, out, inside, rest, around, lost);
    case Nested(o, inner, rest) => f := RunNested(m, delim, s, q, out, o, inner, rest, around, lost);
    case Lost(o, rest) => f := RunLost(m, delim, s, q, out, o, rest, around, lost);
  }

  lemma RunEnd(m: Mode, delim: char, s: string, q: Scan, out: string)
    requires q.i <= |s|
    ensures RunsOver(m, delim, s, q, out, End, q.first)
  {
    StandingStill(m, delim, s, q, out);
    assert q.stack + [] == q.stack && out + [] == out;
  }

  lemma {:induction false} RunChar(m: Mode, delim: char, s: string, q: Scan, out: string, c: char, rest: Text, around: seq<char>, lost: seq<char>)
      returns (f: bool)
    requires q.i <= |s| && q.stack == around + lost && Good(delim, Char(c, rest), around, lost, PrevAt(s, q.i))
    requires Stands(s, q.i, Print(Char(c, rest)))
    ensures RunsOver(m, delim, s, q, out, Char(c, rest), f)
    decreases Char(c, rest), 0
  {
    hide Reaches, Stands, Passed, Good, Print, Render, LostIn, RunsOver;
    CharText(m, delim, c, rest, around, lost, PrevAt(s, q.i));
    StandsOne(s, q.i, c, Print(rest));
    f := CharPassed(m, delim, s, q, out);
    f := RunOn(m, delim, s, q, out, Scan(q.i + 1, f, q.stack), [c], rest, around, lost);
    RunsOverBy(m, delim, s, q, out, Char(c, rest), Scan(q.i + 1 + |Print(rest)|, f, q.stack + LostIn(rest)), [c] + Render(m, rest));
  }

  lemma CharText(m: Mode, delim: char, c: char, rest: Text, around: seq<char>, lost: seq<char>, prev: char)
    requires Good(delim, Char(c, rest), around, lost, prev)
    ensures Passed(delim, c, around + lost, prev) && Good(delim, rest, around, lost, c)
    ensures var t := Char(c, rest);
      Print(t) == [c] + Print(rest) && LostIn(t) == LostIn(rest) && Render(m, t) == [c] + Render(m, rest)
  {
  }

  lemma {:induction false} RunPair(m: Mode, delim: char, s: string, q: Scan, out: string, e: char, d: char, rest: Text, around: seq<char>,
      lost: seq<char>) returns (f: bool)
    requires q.i <= |s| && q.stack == around + lost && Good(delim, Pair(e, d, rest), around, lost, PrevAt(s, q.i))
    requires Stands(s, q.i, Print(Pair(e, d, rest)))
    ensures RunsOver(m, delim, s, q, out, Pair(e, d, rest), f)
    decreases Pair(e, d, rest), 0
  {
    hide Reaches, Stands, Good, Print, Render, LostIn, RunsOver;
    PairText(m, delim, e, d, rest, around, lost, PrevAt(s, q.i));
    StandsOne(s, q.i, e, [d] + Print(rest));
    StandsOne(s, q.i + 1, d, Print(rest));
    PairPassed(m, delim, s, q, out);
    var more := Quoted(m, e) + [d];
    f := RunOn(m, delim, s, q, out, Scan(q.i + 2, false, q.stack), more, rest, around, lost);
    RunsOverBy(m, delim, s, q, out, Pair(e, d, rest), Scan(q.i + 2 + |Print(rest)|, f, q.stack + LostIn(rest)), more + Render(m, rest));
  }

  lemma PairText(m: Mode, delim: char, e: char, d: char, rest: Text, around: seq<char>, lost: seq<char>, prev: char)
    requires Good(delim, Pair(e, d, rest), around, lost, prev)
    ensures Quoting(e) && Good(delim, rest, around, lost, d)
    ensures var t := Pair(e, d, rest);
      && Print(t) == [e] + ([d] + Print(rest)) && |Print(t)| == 2 + |Print(rest)| && LostIn(t) == LostIn(rest)
      && Render(m, t) == Quoted(m, e) + [d] + Render(m, rest)
  {
  }

  lemma {:induction false} RunBraced(m: Mode, delim: char, s: string, q: Scan, out: string, inside: Inner, rest: Text, around: seq<char>,
      lost: seq<char>) returns (f: bool)
    requires q.i <= |s| && q.stack == around + lost && Good(delim, Braced(inside, rest), around, lost, PrevAt(s, q.i))
    requires Stands(s, q.i, Print(Braced(inside, rest)))
    ensures RunsOver(m, delim, s, q, out, Braced(inside, rest), f)
    decreases Braced(inside, rest), 0
  {
    var x := PrintInner(inside);
    var more := if m.strip then RenderInner(m, inside) else "{" + RenderInner(m, inside) + "}";
    BracedText(m, inside, rest);
    hide Reaches, Stands, GoodInner, PrintInner, RenderInner, Print, RunsOver;
    StandsBoth(s, q.i, "{" + (x + "}"), Print(rest));
    BraceEnd(s, q.i, x);
    BracedPassed(m, delim, s, q, out, inside);
    f := RunOn(m, delim, s, q, out, Scan(q.i + 2 + |x|, false, q.stack), more, rest, around, lost);
    hide Render, Good, LostIn;
    RunsOverBy(m, delim, s, q, out, Braced(inside, rest), Scan(q.i + 2 + |x| + |Print(rest)|, f, q.stack + LostIn(rest)), more + Render(m, rest));
  }

  lemma BracedText(m: Mode, inside: Inner, rest: Text)
    ensures Print(Braced(inside, rest)) == "{" + (PrintInner(inside) + "}") + Print(rest)
    ensures LostIn(Braced(inside, rest)) == LostIn(rest)
    ensures Render(m, Braced(inside, rest))
      == (if m.strip then RenderInner(m, inside) else "{" + RenderInner(m, inside) + "}") + Render(m, rest)
    ensures |"{" + (PrintInner(inside) + "}")| == 2 + |PrintInner(inside)|
  {
    Assoc("{", PrintInner(inside), "}", Print(rest));
  }

  lemma {:induction false} RunLost(m: Mode, delim: char, s: string, q: Scan, out: string, o: char, rest: Text, around: seq<char>, lost: seq<char>)
      returns (f: bool)
    requires q.i <= |s| && q.stack == around + lost && Good(delim, Lost(o, rest), around, lost, PrevAt(s, q.i))
    requires Stands(s, q.i, Print(Lost(o, rest)))
    ensures RunsOver(m, delim, s, q, out, Lost(o, rest), f)
    decreases Lost(o, rest), 0
  {
    var c := Closing(o);
    LostText(m, o, rest);
    hide Reaches, Stands, Counts, Closing, RunsOver, Print, Render, LostIn;
    StandsOne(s, q.i, o, Print(rest));
    OpenPassed(m, delim, s, q, out);
    StackOn(around, lost, c, LostIn(rest));
    f := RunOn(m, delim, s, q, out, Scan(q.i + 1, false, q.stack + [c]), [o], rest, around, lost + [c]);
    RunsOverBy(m, delim, s, q, out, Lost(o, rest), Scan(q.i + 1 + |Print(rest)|, f, q.stack + [c] + LostIn(rest)), [o] + Render(m, rest));
  }

  lemma LostText(m: Mode, o: char, rest: Text)
    ensures var t := Lost(o, rest);
      && Print(t) == [o] + Print(rest) && |Print(t)| == 1 + |Print(rest)|
      && Render(m, t) == [o] + Render(m, rest) && LostIn(t) == [Closing(o)] + LostIn(rest)
  {
  }

  lemma StackOn(around: seq<char>, lost: seq<char>, c: char, more: seq<char>)
    ensures around + lost + [c] == around + (lost + [c]) && around + lost + [c] + more == around + lost + ([c] + more)
  {
  }

  lemma RunsOverBy(m: Mode, delim: char, s: string, q: Scan, out: string, t: Text, q': Scan, more: string)
    requires q'.i == q.i + |Print(t)| && q'.stack == q.stack + LostIn(t) && more == Render(m, t)
    requires Reaches(m, delim, s, q, out, q', out + more)
    ensures RunsOver(m, delim, s, q, out, t, q'.first)
  {
    hide Reaches;
  }

  lemma StandingStill(m: Mode, delim: char, s: string, q: Scan, out: string)
    requires q.i <= |s|
    ensures Reaches(m, delim, s, q, out, q, out)
  {
  }

  lemma BraceEnd(s: string, i: nat, x: string)
    requires Stands(s, i, "{" + (x + "}"))
    ensures i + 2 + |x| <= |s| && PrevAt(s, i + 2 + |x|) == '}'
  {
    StandsOne(s, i, '{', x + "}");
    StandsBoth(s, i + 1, x, "}");
    StandsOne(s, i + 1 + |x|, '}', "");
  }

  /** On from where one item was passed */
  lemma {:induction false} RunOn(m: Mode, delim: char, s: string, q: Scan, out: string, q1: Scan, more: string, rest: Text,
      around: seq<char>, lost: seq<char>) returns (f: bool)
    requires Reaches(m, delim, s, q, out, q1, out + more) && q1.i <= |s| && q1.stack == around + lost
    requires Good(delim, rest, around, lost, PrevAt(s, q1.i)) && Stands(s, q1.i, Print(rest))
    ensures Reaches(m, delim, s, q, out, Scan(q1.i + |Print(rest)|, f, q1.stack + LostIn(rest)), out + (more + Render(m, rest)))
    decreases rest, 2
  {
    hide Reaches, Stands, Good, Print, Render, LostIn;
    f := RunOver(m, delim, s, q1, out + more, rest, around, lost);
    Assoc(out, more, Render(m, rest), []);
    ReachesOn(m, delim, s, q, out, q1, out + more, Scan(q1.i + |Print(rest)|, f, q1.stack + LostIn(rest)), out + more + Render(m, rest));
  }

  lemma {:induction false} RunNested(m: Mode, delim: char, s: string, q: Scan, out: string, o: char, inner: Text, rest: Text,
      around: seq<char>, lost: seq<char>) returns (f: bool)
    requires q.i <= |s| && q.stack == around + lost && Stands(s, q.i, Print(Nested(o, inner, rest)))
    requires Good(delim, Nested(o, inner, rest), around, lost, PrevAt(s, q.i))
    ensures RunsOver(m, delim, s, q, out, Nested(o, inner, rest), f)
    decreases Nested(o, inner, rest), 0
  {
    hide Reaches, Stands, Counts, Good, Print, Render, LostIn, Closing, RunsOver;
    NestedText(m, o, inner, rest);
    NestedGood(delim, o, inner, rest, around, lost, PrevAt(s, q.i));
    var q1 := NestedInside(m, delim, s, q, out, o, inner, Print(rest));
    f := RunClosed(m, delim, s, q, out, q1, [o] + Render(m, inner), q.stack, Closing(o), LostIn(inner), rest, around, lost);
    NestedDone(m, delim, s, q, out, o, inner, rest, Scan(q1.i + 1 + |Print(rest)|, f, q.stack + LostIn(rest)));
  }

  lemma NestedDone(m: Mode, delim: char, s: string, q: Scan, out: string, o: char, inner: Text, rest: Text, q': Scan)
    requires q'.i == q.i + 2 + |Print(inner)| + |Print(rest)| && q'.stack == q.stack + LostIn(rest)
    requires Reaches(m, delim, s, q, out, q', out + ([o] + Render(m, inner) + [Closing(o)] + Render(m, rest)))
    ensures RunsOver(m, delim, s, q, out, Nested(o, inner, rest), q'.first)
  {
    hide Print, Render, LostIn, Closing, RunsOver, Reaches;
    NestedText(m, o, inner, rest);
    RegroupNested([o], Render(m, inner), [Closing(o)], Render(m, rest));
    RunsOverBy(m, delim, s, q, out, Nested(o, inner, rest), q', [o] + Render(m, inner) + [Closing(o)] + Render(m, rest));
  }

  /** Up to the closing bracket */
  lemma {:induction false} NestedInside(m: Mode, delim: char, s: string, q: Scan, out: string, o: char, inner: Text, y: string)
      returns (q1: Scan)
    requires q.i <= |s| && Stands(s, q.i, [o] + (Print(inner) + ([Closing(o)] + y)))
    requires Counts(o, |q.stack|, PrevAt(s, q.i)) && (q.stack == [] ==> o != delim)
    requires Good(delim, inner, q.stack + [Closing(o)], [], o)
    ensures Reaches(m, delim, s, q, out, q1, out + ([o] + Render(m, inner)))
    ensures q1.i == q.i + 1 + |Print(inner)| < |s| && s[q1.i] == Closing(o) && Stands(s, q1.i + 1, y)
    ensures q1.stack == q.stack + [Closing(o)] + LostIn(inner)
    decreases inner, 4
  {
    hide Reaches, Stands, Counts, Good, Print, Render, LostIn, Closing;
    NestedPlace(s, q.i, o, Print(inner), Closing(o), y);
    OpenPassed(m, delim, s, q, out);
    var f := RunInner(m, delim, s, q, out, o, inner, q.stack + [Closing(o)]);
    q1 := Scan(q.i + 1 + |Print(inner)|, f, q.stack + [Closing(o)] + LostIn(inner));
  }

  lemma NestedPlace(s: string, i: nat, o: char, x: string, c: char, y: string)
    requires Stands(s, i, [o] + (x + ([c] + y)))
    ensures var k := i + 1 + |x|;
      k < |s| && s[i] == o && Stands(s, i + 1, x) && s[k] == c && Stands(s, k + 1, y)
  {
    hide Stands;
    StandsOne(s, i, o, x + ([c] + y));
    StandsBoth(s, i + 1, x, [c] + y);
    StandsOne(s, i + 1 + |x|, c, y);
  }

  /** What stands inside a bracket */
  lemma {:induction false} RunInner(m: Mode, delim: char, s: string, q: Scan, out: string, o: char, inner: Text, around: seq<char>)
      returns (f: bool)
    requires q.i < |s| && s[q.i] == o && Reaches(m, delim, s, q, out, Scan(q.i + 1, false, around), out + [o])
    requires Good(delim, inner, around, [], o) && Stands(s, q.i + 1, Print(inner))
    ensures Reaches(m, delim, s, q, out, Scan(q.i + 1 + |Print(inner)|, f, around + LostIn(inner)), out + ([o] + Render(m, inner)))
    decreases inner, 3
  {
    hide Reaches, Stands, Good, Print, Render, LostIn;
    assert around + [] == around;
    f := RunOn(m, delim, s, q, out, Scan(q.i + 1, false, around), [o], inner, around, []);
  }

  lemma RegroupNested(a: string, b: string, c: string, d: string)
    ensures a + b + c + d == a + (b + (c + d))
  {
  }

  /** The closing bracket and what follows it */
  lemma {:induction false} RunClosed(m: Mode, delim: char, s: string, q: Scan, out: string, q1: Scan, more: string, base: seq<char>, c: char,
      gone: seq<char>, rest: Text, around: seq<char>, lost: seq<char>) returns (f: bool)
    requires Reaches(m, delim, s, q, out, q1, out + more) && q1.i < |s| && s[q1.i] == c && Closer(c) && c !in gone
    requires q1.stack == base + [c] + gone && base == around + lost
    requires Good(delim, rest, around, lost, c) && Stands(s, q1.i + 1, Print(rest))
    ensures Reaches(m, delim, s, q, out, Scan(q1.i + 1 + |Print(rest)|, f, base + LostIn(rest)), out + (more + [c] + Render(m, rest)))
    decreases rest, 3
  {
    hide Reaches, Stands, Good, Print, Render, LostIn;
    ClosePassed(m, delim, s, q1, out + more, base, gone);
    ReachesOn(m, delim, s, q, out, q1, out + more, Scan(q1.i + 1, false, base), out + more + [c]);
    Assoc(out, more, [c], []);
    f := RunOn(m, delim, s, q, out, Scan(q1.i + 1, false, base), more + [c], rest, around, lost);
  }

  lemma NestedText(m: Mode, o: char, inner: Text, rest: Text)
    ensures var t := Nested(o, inner, rest);
      && Print(t) == [o] + (Print(inner) + ([Closing(o)] + Print(rest))) && |Print(t)| == 2 + |Print(inner)| + |Print(rest)|
      && Render(m, t) == [o] + (Render(m, inner) + ([Closing(o)] + Render(m, rest))) && LostIn(t) == LostIn(rest)
  {
  }

  lemma NestedGood(delim: char, o: char, inner: Text, rest: Text, around: seq<char>, lost: seq<char>, prev: char)
    requires Good(delim, Nested(o, inner, rest), around, lost, prev)
    ensures var base := around + lost; var c := Closing(o);
      && Counts(o, |base|, prev) && (base == [] ==> o != delim) && Closer(c)
      && Good(delim, inner, base + [c], [], o) && Good(delim, rest, around, lost, c)
      && c !in LostIn(inner)
  {
    var base := around + lost;
    LostIsOther(delim, inner, base + [Closing(o)], [], o);
  }

  // ------------------------------------------------------------------ where a line is cut

  /** The delimiters parse_to can find; it never looks for an escape or an opening brace. */
  predicate Findable(delim: char) { !Quoting(delim) && delim != '{' }

  lemma FoundHere(delim: char, s: string, q: Scan)
    requires q.i < |s| && s[q.i] == delim && Findable(delim) && q.stack == []
    ensures Stop(delim, s, q) == q
  {
  }

  /** The first delimiter outside all nesting is the cut, whatever follows it; a line without one is not cut. */
  lemma CutsOutside(delim: char, t: Text, rest: string)
    requires Good(delim, t, [], [], ' ') && Findable(delim)
    ensures Cut(delim, Print(t) + [delim] + rest) == |Print(t)|
    ensures Cut(delim, Print(t)) == |Print(t)|
  {
    var m := Mode(false, false, false, false, false, false, true);
    var x := Print(t);
    hide Good, Print, Render, Stands;
    NothingLost(delim, t, [], ' ');
    var s := x + [delim] + rest;
    StandsFirst(x, [delim] + rest);
    assert s == x + ([delim] + rest);
    var f := RunOver(m, delim, s, Start, "", t, [], []);
    assert [] + [] + LostIn(t) == [];
    FoundHere(delim, s, Scan(|x|, f, []));
    StandsFirst(x, "");
    assert x + "" == x;
    f := RunOver(m, delim, x, Start, "", t, [], []);
  }

  lemma StandsFirst(x: string, y: string)
    ensures Stands(x + y, 0, x)
  {
  }

  /** Outside all brackets none can be lost. */
  lemma {:induction false} NothingLost(delim: char, t: Text, lost: seq<char>, prev: char)
    requires Good(delim, t, [], lost, prev)
    ensures LostIn(t) == []
    decreases t
  {
    hide Passed, GoodInner, Counts;
    match t
    case End =>
    case Char(c, rest) => NothingLost(delim, rest, lost, c);
    case Pair(e, d, rest) => NothingLost(delim, rest, lost, d);
    case Braced(inside, rest) => NothingLost(delim, rest, lost, '}');
    case Nested(o, inner, rest) => NothingLost(delim, rest, lost, Closing(o));
  }

  /** The piece of such a line, where blanks are not squeezed: the text with what EV_STRIP and EV_STRIP_ESC take away,
      and the rest behind the delimiter. */
  lemma PieceRendered(m: Mode, delim: char, t: Text, rest: string)
    requires Good(delim, t, [], [], ' ') && Findable(delim) && m.noCompress
    ensures Piece(m, delim, Print(t) + [delim] + rest) == Cleaned(m, false, Render(m, t))
    ensures Remains(m, delim, Print(t) + [delim] + rest) == Some(rest)
  {
    var x := Print(t);
    hide Good, Print, Render, Stands, Cleaned;
    NothingLost(delim, t, [], ' ');
    CutsOutside(delim, t, rest);
    var s := x + [delim] + rest;
    StandsFirst(x, [delim] + rest);
    assert s == x + ([delim] + rest) && s[|x| + 1..] == rest;
    var f := RunOver(m, delim, s, Start, "", t, [], []);
    assert [] + [] + LostIn(t) == [] && "" + Render(m, t) == Render(m, t);
    FoundHere(delim, s, Scan(|x|, f, []));
    assert Splitter.Text(m, delim, s, Scan(|x|, f, []), Render(m, t)) == Render(m, t);
  }

  /** Only EV_STRIP_AROUND takes more off such a piece, namely one brace at either end when there is one at both. */
  lemma AroundStripped(m: Mode, delim: char, t: Text, rest: string)
    requires Good(delim, t, [], [], ' ') && Findable(delim) && m.noCompress && !m.spaceCompress
    ensures var r := Render(m, t);
      var braced := |r| >= 2 && r[0] == '{' && r[|r| - 1] == '}';
      Piece(m, delim, Print(t) + [delim] + rest) == if m.stripAround && braced then r[1..|r| - 1] else r
  {
    hide Good, Print, Render, Piece;
    PieceRendered(m, delim, t, rest);
  }

  // ------------------------------------------------------------------ the 33rd bracket

  function Row(c: char, n: nat): string { if n == 0 then "" else [c] + Row(c, n - 1) }

  function Least(a: nat, b: nat): nat { if a < b then a else b }

  lemma {:induction false} RowSnoc(c: char, n: nat)
    ensures Row(c, n) + [c] == Row(c, n + 1)
  {
    if n > 0 {
      RowSnoc(c, n - 1);
      assert Row(c, n) + [c] == [c] + (Row(c, n - 1) + [c]);
    }
  }

  lemma {:induction false} RowLong(c: char, n: nat)
    ensures |Row(c, n)| == n
  {
    if n > 0 { RowLong(c, n - 1); }
  }

  function Left(k: nat, m: nat): nat { if m < k then k - m else 0 }

  lemma StopOn(delim: char, s: string, q: Scan, q': Scan)
    requires q.i < |s| && !Cuts(delim, s, q) && Move(s, q) == q'
    ensures Stop(delim, s, q) == Stop(delim, s, q')
  {
    hide Move;
  }

  lemma OpenOne(delim: char, s: string, q: Scan, k: nat)
    requires q.i < |s| && s[q.i] == '(' && delim != '(' && k <= 32 && q.stack == Row(')', k)
    ensures Stop(delim, s, q) == Stop(delim, s, Scan(q.i + 1, false, Row(')', Least(k + 1, 32))))
  {
    RowSnoc(')', k);
    RowLong(')', k);
    hide Unwind, Brace, Stop;
    StopOn(delim, s, q, Scan(q.i + 1, false, Row(')', Least(k + 1, 32))));
  }

  lemma CloseOne(delim: char, s: string, q: Scan, k: nat)
    requires q.i < |s| && s[q.i] == ')' && delim != ')' && q.stack == Row(')', k)
    ensures Stop(delim, s, q) == Stop(delim, s, Scan(q.i + 1, false, Row(')', Left(k, 1))))
  {
    if k > 0 { RowUnwinds(k); }
    assert Row(')', 0) == "";
    hide Unwind, Brace, Stop, Row;
    StopOn(delim, s, q, Scan(q.i + 1, false, Row(')', Left(k, 1))));
  }

  lemma RowUnwinds(k: nat)
    requires k > 0
    ensures Unwind(Row(')', k), ')') == Some(Row(')', k - 1)) && ')' in Row(')', k)
  {
    var b := Row(')', k - 1);
    RowSnoc(')', k - 1);
    hide Row;
    UnwindTo(b, ')', []);
    assert b + [')'] + [] == b + [')'];
    assert (b + [')'])[|b|] == ')';
  }

  lemma RowStands(s: string, i: nat, c: char, n: nat)
    requires Stands(s, i, Row(c, n))
    ensures i + n <= |s| && (n > 0 ==> i < |s| && s[i] == c && Stands(s, i + 1, Row(c, n - 1)))
  {
    RowLong(c, n);
    StandsFits(s, i, Row(c, n));
    hide Stands;
    if n > 0 { StandsOne(s, i, c, Row(c, n - 1)); }
  }

  /** Only the first 32 of n opening brackets are noted. */
  lemma {:induction false} OpenRow(delim: char, s: string, q: Scan, n: nat, k: nat) returns (f: bool)
    requires delim != '(' && Stands(s, q.i, Row('(', n)) && k <= 32 && q.stack == Row(')', k)
    ensures q.i + n <= |s| && Stop(delim, s, q) == Stop(delim, s, Scan(q.i + n, f, Row(')', Least(k + n, 32))))
    decreases n
  {
    hide Stands, Stop, Row;
    RowStands(s, q.i, '(', n);
    f := q.first;
    if n > 0 {
      OpenOne(delim, s, q, k);
      var k' := Least(k + 1, 32);
      f := OpenRow(delim, s, Scan(q.i + 1, false, Row(')', k')), n - 1, k');
    }
  }

  /** Each closing bracket takes one off, until none is left. */
  lemma {:induction false} CloseRow(delim: char, s: string, q: Scan, m: nat, k: nat) returns (f: bool)
    requires delim != ')' && Stands(s, q.i, Row(')', m)) && q.stack == Row(')', k)
    ensures q.i + m <= |s| && Stop(delim, s, q) == Stop(delim, s, Scan(q.i + m, f, Row(')', Left(k, m))))
    decreases m
  {
    hide Stands, Stop, Row;
    RowStands(s, q.i, ')', m);
    f := q.first;
    if m > 0 {
      CloseOne(delim, s, q, k);
      f := CloseRow(delim, s, Scan(q.i + 1, false, Row(')', Left(k, 1))), m - 1, Left(k, 1));
    }
  }

  lemma HereExactly(delim: char, s: string, q: Scan)
    requires q.i < |s| && s[q.i] == delim && Findable(delim) && !Closer(delim)
    ensures Stop(delim, s, q).i == q.i <==> q.stack == []
  {
    hide Move;
  }

  /** n brackets opened, m of them closed, and then a delimiter: the line is cut at it if and only if all of the first 32
      were closed.  From the 33rd on they are not noted, so a delimiter that still stands inside one of those is taken. */
  lemma DepthExactly(delim: char, n: nat, m: nat, rest: string)
    requires Findable(delim) && delim != '(' && delim != ')' && delim != ']'
    ensures Cut(delim, Row('(', n) + Row(')', m) + [delim] + rest) == n + m <==> m >= Least(n, 32)
  {
    var x, y := Row('(', n), Row(')', m);
    var s := x + y + [delim] + rest;
    RowLong('(', n);
    RowLong(')', m);
    hide Row, Stands, Cut;
    RowsStand(x, y, [delim] + rest);
    assert s == x + y + ([delim] + rest) && s[n + m] == delim;
    DepthCut(delim, s, n, m);
  }

  lemma DepthCut(delim: char, s: string, n: nat, m: nat)
    requires Findable(delim) && delim != '(' && delim != ')' && delim != ']'
    requires Stands(s, 0, Row('(', n)) && Stands(s, n, Row(')', m)) && n + m < |s| && s[n + m] == delim
    ensures Cut(delim, s) == n + m <==> m >= Least(n, 32)
  {
    hide Row, Stands, Stop, Cuts;
    RowEmpty(0);
    RowEmpty(Left(Least(n, 32), m));
    var f := OpenRow(delim, s, Start, n, 0);
    var g := CloseRow(delim, s, Scan(n, f, Row(')', Least(n, 32))), m, Least(n, 32));
    HereExactly(delim, s, Scan(n + m, g, Row(')', Left(Least(n, 32), m))));
  }

  lemma RowEmpty(n: nat)
    ensures Row(')', n) == [] <==> n == 0
  {
  }

  lemma RowsStand(x: string, y: string, z: string)
    ensures Stands(x + y + z, 0, x) && Stands(x + y + z, |x|, y)
  {
    StandsFirst(x + y, z);
    StandsBoth(x + y + z, 0, x, y);
  }

  // ------------------------------------------------------------------ where blanks are squeezed

  /** Of blanks in a row only the last stays. */
  function Squeeze(x: string): string {
    if x == "" then "" else if x[0] == ' ' && |x| > 1 && x[1] == ' ' then Squeeze(x[1..]) else [x[0]] + Squeeze(x[1..])
  }

  predicate EndsBlank(x: string) { x != "" && x[|x| - 1] == ' ' }

  lemma {:induction false} SqueezeSnoc(x: string, c: char)
    ensures EndsBlank(x) ==> EndsBlank(Squeeze(x))
    ensures Squeeze(x + [c]) == (if c == ' ' && EndsBlank(x) then Shorter(Squeeze(x)) else Squeeze(x)) + [c]
    decreases x
  {
    if x != "" {
      var y := x[1..];
      assert (x + [c])[1..] == y + [c];
      SqueezeSnoc(y, c);
      if y == "" {
        assert x == [x[0]];
      } else {
        assert EndsBlank(x) == EndsBlank(y);
        var r := Squeeze(y);
        assert r != "" ==> Shorter([x[0]] + r) == [x[0]] + Shorter(r);
        SqueezeSome(y);
      }
    }
  }

  lemma {:induction false} SqueezeSome(x: string)
    ensures x != "" ==> Squeeze(x) != ""
    decreases x
  {
    if |x| > 1 { SqueezeSome(x[1..]); }
  }

  /** The state of the walk: the piece is the line so far, squeezed. */
  predicate Squeezing(s: string, q: Scan, out: string) {
    q.i <= |s| && '{' !in s[..q.i] && out == Squeeze(s[..q.i]) && (q.first ==> q.i == 0)
  }

  lemma SqueezeStep(m: Mode, delim: char, s: string, q: Scan, out: string)
    requires Compress(m) && !m.stripEsc && Squeezing(s, q, out) && q.i < |s| && s[0] != ' ' && s[q.i] != '{'
    requires Move(s, q).i <= |s| && '{' !in s[..Move(s, q).i]
    ensures Squeezing(s, Move(s, q), Emit(m, s, q, out))
  {
    hide Brace, BraceText, Unwind, Squeeze;
    var i, c := q.i, s[q.i];
    assert s[..i + 1] == s[..i] + [c];
    SqueezeSnoc(s[..i], c);
    if Escape(c) && i + 1 < |s| {
      assert s[..i + 2] == s[..i + 1] + [s[i + 1]];
      assert !EndsBlank(s[..i + 1]);
      SqueezeSnoc(s[..i + 1], s[i + 1]);
      assert out + [c] + [s[i + 1]] == out + ([c] + [s[i + 1]]);
    }
  }

  lemma {:induction false} SqueezeWalk(m: Mode, delim: char, s: string, q: Scan, out: string)
    requires Compress(m) && !m.stripEsc && Squeezing(s, q, out) && (s != "" ==> s[0] != ' ')
    requires '{' !in s[..Stop(delim, s, q).i]
    ensures Splitter.Text(m, delim, s, q, out) == Squeeze(s[..Stop(delim, s, q).i]) && (Stop(delim, s, q).first ==> Stop(delim, s, q).i == 0)
    decreases |s| - q.i
  {
    hide Emit, Squeeze, Move;
    if q.i < |s| && !Cuts(delim, s, q) {
      var q', e := Move(s, q), Stop(delim, s, q).i;
      assert s[q.i] in s[..e] by { assert s[..e][q.i] == s[q.i]; }
      assert s[..q'.i] == s[..e][..q'.i];
      SqueezeStep(m, delim, s, q, out);
      SqueezeWalk(m, delim, s, q', Emit(m, s, q, out));
    }
  }

  lemma {:induction false} SqueezePart(x: string)
    ensures forall c :: c in Squeeze(x) ==> c in x
    ensures EndsBlank(Squeeze(x)) == EndsBlank(x)
    decreases x
  {
    if x != "" {
      SqueezePart(x[1..]);
      SqueezeSome(x[1..]);
    }
  }

  /** With mudconf.space_compress, a piece without braces is the part before the cut with its blanks squeezed, and without
      the blank at its end. */
  lemma PieceSqueezed(m: Mode, delim: char, s: string)
    requires Compress(m) && !m.stripEsc
    requires '{' !in Line(m, s)[..Cut(delim, Line(m, s))]
    ensures var x := Squeeze(Line(m, s)[..Cut(delim, Line(m, s))]);
      Piece(m, delim, s) == if EndsBlank(x) then x[..|x| - 1] else x
  {
    var t := Line(m, s);
    var e := Cut(delim, t);
    var x := Squeeze(t[..e]);
    assert Squeezing(t, Start, "");
    SqueezeWalk(m, delim, t, Start, "");
    SqueezePart(t[..e]);
    hide Squeeze, Stop, Splitter.Text, Around;
    assert '{' !in x;
    var trim := e > 0 && t[e - 1] == ' ';
    assert trim == EndsBlank(x);
    var y := if trim then Shorter(x) else x;
    assert y != "" ==> y[0] == x[0] && x[0] in x;
  }
}
