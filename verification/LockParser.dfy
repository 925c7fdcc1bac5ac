/**
 The lock parser of src/boolexp.c in its own form: a text buffer with a cursor that the mutually recursive
 routines move.  Each routine is proved to return what the grammar functions of Locks say, with the cursor where
 they stop; a failed parse returns the open lock.
 */
module LockParser {
  import opened Decimal
  import opened Locks
  import opened Options

  /** What a routine must return for a parse result, and where it must leave the cursor */
  ghost predicate Matches(p: Parsed, b: Lock, rest: string) {
    match p case Fail => b == Open case Ok(lock, r) => b == lock && b != Open && rest == r
  }

  class Parser {
    const text: string
    const env: Env
    var pos: nat

    ghost predicate Valid()
      reads this
    {
      pos <= |text|
    }

    ghost function Rest(): string
      requires Valid()
      reads this
    {
      text[pos..]
    }

    constructor (env: Env, text: string)
      ensures Valid() && this.text == text && this.env == env && Rest() == text
    {
      this.env, this.text, pos := env, text, 0;
      new;
      assert text[0..] == text;
    }

    method SkipWhitespace()
      requires Valid()
      modifies this`pos
      ensures Valid() && old(pos) <= pos && Rest() == SkipSpace(old(Rest()))
    {
      while pos < |text| && IsSpace(text[pos])
        invariant Valid() && old(pos) <= pos && SkipSpace(Rest()) == SkipSpace(old(Rest()))
      {
        assert Rest()[1..] == text[pos + 1..];
        pos := pos + 1;
      }
    }

    /** The loop that loads a reference */
    method LoadWord() returns (buf: string)
      requires Valid()
      modifies this`pos
      ensures Valid() && old(pos) <= pos && buf == Word(old(Rest())) && Rest() == old(Rest())[|buf|..]
    {
      hide Word;
      ghost var start, from := Rest(), pos;
      buf := [];
      assert [] + Word(start) == Word(start);
      while pos < |text| && !Ends(text[pos])
        invariant from <= pos <= |text| && |buf| == pos - from && Word(start) == buf + Word(text[pos..])
      {
        WordAt(text, pos);
        Assoc(buf, [text[pos]], Word(text[pos + 1..]));
        buf := buf + [text[pos]];
        pos := pos + 1;
      }
      WordAt(text, pos);
      assert buf + [] == buf;
      DropTwice(text, from, |buf|);
    }

    /** The part of parse_boolexp_L for a reference */
    method ParseReference() returns (b: Lock)
      requires Valid()
      modifies this`pos
      ensures Valid() && old(pos) <= pos && Matches(ParseRef(env, old(Rest())), b, Rest())
    {
      RefIsLegal(env, Rest());
      var raw := LoadWord();
      var buf := Strip(raw);
      hide Word, StripEnd, Atoi, TestAtr;
      match TestAtr(env, buf) {
        case Some(found) => return found;
        case None =>
      }
      if buf == [] || buf[0] != '#' { return Open; }
      var thing := Atoi(buf[1..]);
      b := if thing >= 0 && env.goodObj(thing) then Const(thing) else Open;
    }

    /** parse_boolexp_L */
    method ParseL() returns (b: Lock)
      requires Valid()
      modifies this`pos
      ensures Valid() && old(pos) <= pos && Matches(Locks.ParseL(env, old(Rest())), b, Rest())
      decreases |text| - pos, 1
    {
      hide ParseRef, Locks.ParseE, SkipSpace;
      SkipWhitespace();
      HeadAt(text, pos);
      if pos < |text| && text[pos] == '(' {
        pos := pos + 1;
        b := ParseE();
        if b == Open { return; }
        SkipWhitespace();
        HeadAt(text, pos);
        if pos < |text| && text[pos] == ')' {
          pos := pos + 1;
        } else {
          b := Open;
        }
      } else {
        b := ParseReference();
      }
    }

    /** parse_boolexp_F */
    method ParseF() returns (b: Lock)
      requires Valid()
      modifies this`pos
      ensures Valid() && old(pos) <= pos && Matches(Locks.ParseF(env, old(Rest())), b, Rest())
      decreases |text| - pos, 2
    {
      hide Locks.ParseL, SkipSpace;
      SkipWhitespace();
      HeadAt(text, pos);
      if pos < |text| && text[pos] == '!' {
        pos := pos + 1;
        b := ParseF();
        b := if b == Open then Open else Not(b);
      } else if pos < |text| && Unary(text[pos]) {
        var c := text[pos];
        pos := pos + 1;
        b := ParseL();
        if c == '@' {
          b := if b.Const? then Indir(b) else Open;
        } else if c == '=' {
          b := if b.Const? || b.Atr? then Is(b) else Open;
        } else if c == '+' {
          b := if b.Const? || b.Atr? then Carry(b) else Open;
        } else {
          b := if b.Const? then OwnerIs(b) else Open;
        }
      } else {
        b := ParseL();
      }
    }

    /** parse_boolexp_T */
    method ParseT() returns (b: Lock)
      requires Valid()
      modifies this`pos
      ensures Valid() && old(pos) <= pos && Matches(Locks.ParseT(env, old(Rest())), b, Rest())
      decreases |text| - pos, 3
    {
      hide Locks.ParseF, SkipSpace;
      b := ParseF();
      if b != Open {
        SkipWhitespace();
        HeadAt(text, pos);
        if pos < |text| && text[pos] == '&' {
          pos := pos + 1;
          var b2 := ParseT();
          b := if b2 == Open then Open else And(b, b2);
        }
      }
    }

    /** parse_boolexp_E */
    method ParseE() returns (b: Lock)
      requires Valid()
      modifies this`pos
      ensures Valid() && old(pos) <= pos && Matches(Locks.ParseE(env, old(Rest())), b, Rest())
      decreases |text| - pos, 4
    {
      hide Locks.ParseT, SkipSpace;
      b := ParseT();
      if b != Open {
        SkipWhitespace();
        HeadAt(text, pos);
        if pos < |text| && text[pos] == '|' {
          pos := pos + 1;
          var b2 := ParseE();
          b := if b2 == Open then Open else Or(b, b2);
        }
      }
    }
  }

  /** What stands at the cursor is the head of the rest. */
  lemma HeadAt(text: string, pos: nat)
    requires pos <= |text|
    ensures text[pos..] == [] <==> pos == |text|
    ensures pos < |text| ==> text[pos..][0] == text[pos] && text[pos..][1..] == text[pos + 1..]
  {
  }

  lemma WordAt(text: string, pos: nat)
    requires pos <= |text|
    ensures Word(text[pos..]) == if pos == |text| || Ends(text[pos]) then [] else [text[pos]] + Word(text[pos + 1..])
  {
    if pos < |text| { assert text[pos..][1..] == text[pos + 1..]; }
  }

  lemma DropTwice(s: string, i: nat, k: nat)
    requires i + k <= |s|
    ensures s[i..][k..] == s[i + k..]
  {
  }

  lemma Assoc(a: string, b: string, c: string)
    ensures a + (b + c) == a + b + c
  {
  }

  /** The loop that strips trailing white space */
  method Strip(raw: string) returns (buf: string)
    ensures buf == StripEnd(raw)
  {
    buf := raw;
    while buf != [] && IsSpace(buf[|buf| - 1])
      invariant StripEnd(buf) == StripEnd(raw)
      decreases |buf|
    {
      buf := buf[..|buf| - 1];
    }
  }

  /** parse_boolexp */
  method ParseBoolexp(env: Env, text: string) returns (b: Lock)
    ensures b == Parse(env, text)
  {
    if text == [] { return Open; }
    var p := new Parser(env, text);
    b := p.ParseE();
  }
}
