module AttrCode {
  /*
   The byte code of attribute lists in src/db.c: al_code, al_decode, and the scans of al_add and al_delete over one
   buffer.  A list is a run of coded numbers with a zero byte behind it.
   */

  type Byte = b: int | 0 <= b < 256

  const ATR_BUF_INCR := 6

  /** Seven bits a byte, low bits first; all but the last byte have the top bit set. */
  function Code(n: nat): (s: seq<Byte>)
    ensures s != []
  {
    if n < 128 then [n] else [128 + n % 128] + Code(n / 128)
  }

  function Codes(list: seq<nat>): seq<Byte> { if list == [] then [] else Code(list[0]) + Codes(list[1..]) }

  predicate Ended(s: seq<Byte>) { exists i :: 0 <= i < |s| && s[i] < 128 }

  /** The number at the front of s, and how many bytes it takes */
  function Decode(s: seq<Byte>): (nat, nat)
    requires Ended(s)
  {
    if s[0] < 128 then (s[0], 1)
    else
      assert Ended(s[1..]) by { var i :| 0 <= i < |s| && s[i] < 128; assert s[1..][i - 1] == s[i]; }
      var (v, k) := Decode(s[1..]);
      (s[0] - 128 + 128 * v, k + 1)
  }

  predicate Positive(list: seq<nat>) { forall i :: 0 <= i < |list| ==> 0 < list[i] < 0x8000_0000 }

  // ------------------------------------------------------------------ the code is a prefix code without zeros

  lemma {:induction false} CodeEnds(n: nat, t: seq<Byte>)
    ensures Ended(Code(n) + t)
  {
    var s := Code(n) + t;
    if n < 128 {
      assert s[0] == n;
    } else {
      CodeEnds(n / 128, t);
      assert s[1..] == Code(n / 128) + t;
      var i :| 0 <= i < |s[1..]| && s[1..][i] < 128;
      assert s[i + 1] == s[1..][i];
    }
  }

  /** al_decode undoes al_code, whatever follows. */
  lemma {:induction false} DecodeCode(n: nat, t: seq<Byte>)
    ensures Ended(Code(n) + t) && Decode(Code(n) + t) == (n, |Code(n)|)
  {
    CodeEnds(n, t);
    var s := Code(n) + t;
    if n < 128 {
      assert s[0] == n;
    } else {
      DecodeCode(n / 128, t);
      assert s[0] == 128 + n % 128 && s[1..] == Code(n / 128) + t;
    }
  }

  lemma {:induction false} CodeNoZero(n: nat)
    requires n > 0
    ensures forall i :: 0 <= i < |Code(n)| ==> Code(n)[i] != 0
  {
    if n >= 128 { CodeNoZero(n / 128); }
  }

  lemma {:induction false} CodesNoZero(list: seq<nat>)
    requires Positive(list)
    ensures forall i :: 0 <= i < |Codes(list)| ==> Codes(list)[i] != 0
  {
    if list != [] {
      CodeNoZero(list[0]);
      CodesNoZero(list[1..]);
    }
  }

  /** A number below 2^31 takes five bytes at most, so number and zero byte fit into ATR_BUF_INCR. */
  lemma CodeFits(n: nat)
    requires n < 0x8000_0000
    ensures |Code(n)| + 1 <= ATR_BUF_INCR
  {
    var a := n / 128;
    var b := a / 128;
    var c := b / 128;
    var d := c / 128;
    assert d < 128;
    assert |Code(d)| == 1;
    assert |Code(c)| <= 2;
    assert |Code(b)| <= 3;
    assert |Code(a)| <= 4;
  }

  /** Different lists have different codes. */
  lemma {:induction false} CodesUnique(a: seq<nat>, b: seq<nat>)
    requires Codes(a) == Codes(b)
    ensures a == b
    decreases |a|
  {
    if a != [] && b != [] {
      DecodeCode(a[0], Codes(a[1..]));
      DecodeCode(b[0], Codes(b[1..]));
      assert Codes(a)[|Code(a[0])|..] == Codes(a[1..]);
      assert Codes(b)[|Code(b[0])|..] == Codes(b[1..]);
      CodesUnique(a[1..], b[1..]);
      assert a == [a[0]] + a[1..] && b == [b[0]] + b[1..];
    }
  }

  lemma {:induction false} CodesAppend(a: seq<nat>, b: seq<nat>)
    ensures Codes(a + b) == Codes(a) + Codes(b)
  {
    if a == [] {
      assert a + b == b;
    } else {
      CodesAppend(a[1..], b);
      assert (a + b)[1..] == a[1..] + b && (a + b)[0] == a[0];
    }
  }

  lemma CodesOne(n: nat)
    ensures Codes([n]) == Code(n)
  {
    assert Codes([n]) == Code(n) + Codes([]);
  }

  // ------------------------------------------------------------------ a list in a buffer

  /** From position p on, s holds the coded list and its zero byte. */
  ghost predicate Holds(s: seq<Byte>, p: nat, list: seq<nat>) {
    Positive(list) && p + |Codes(list)| < |s| && s[p..p + |Codes(list)|] == Codes(list) && s[p + |Codes(list)|] == 0
  }

  lemma HoldsEnd(s: seq<Byte>, p: nat, list: seq<nat>)
    requires Holds(s, p, list)
    ensures p < |s| && (s[p] == 0 <==> list == [])
  {
    if list != [] {
      CodeNoZero(list[0]);
      assert s[p] == s[p..p + |Codes(list)|][0] == Code(list[0])[0];
    }
  }

  /** Two halves of a window */
  lemma Window(s: seq<Byte>, p: nat, x: seq<Byte>, y: seq<Byte>)
    requires p + |x| + |y| <= |s| && s[p..p + |x| + |y|] == x + y
    ensures s[p..] == x + s[p + |x|..] && s[p + |x|..p + |x| + |y|] == y
  {
    var w := s[p..p + |x| + |y|];
    assert w[..|x|] == x && w[|x|..] == y;
    assert s[p..p + |x|] == w[..|x|];
    assert s[p + |x|..p + |x| + |y|] == w[|x|..];
    assert s[p..] == s[p..p + |x|] + s[p + |x|..];
  }

  lemma HoldsNext(s: seq<Byte>, p: nat, list: seq<nat>)
    requires Holds(s, p, list) && list != []
    ensures p + |Code(list[0])| <= |s| && Ended(s[p..]) && Decode(s[p..]) == (list[0], |Code(list[0])|)
    ensures Holds(s, p + |Code(list[0])|, list[1..])
  {
    hide Code, Decode, Ended;
    var n := list[0];
    assert Codes(list) == Code(n) + Codes(list[1..]);
    Window(s, p, Code(n), Codes(list[1..]));
    DecodeCode(n, s[p + |Code(n)|..]);
  }

  function Pow128(k: nat): nat { if k == 0 then 1 else 128 * Pow128(k - 1) }

  /** anum << 7 * k */
  function Shifted(anum: nat, k: nat): nat {
    assert Pow128(k) * anum >= 0;
    Pow128(k) * anum
  }

  /** al_decode has read k bytes of s0, which made acc, and s is left. */
  ghost predicate Reading(s0: seq<Byte>, acc: nat, k: nat, s: seq<Byte>) {
    Ended(s0) && Ended(s) && Decode(s0) == (acc + Pow128(k) * Decode(s).0, k + Decode(s).1)
  }

  lemma DecodeMore(s: seq<Byte>)
    requires s != [] && Ended(s) && s[0] >= 128
    ensures Ended(s[1..]) && Decode(s) == (s[0] - 128 + 128 * Decode(s[1..]).0, Decode(s[1..]).1 + 1)
  {
    var i :| 0 <= i < |s| && s[i] < 128;
    assert s[1..][i - 1] == s[i];
  }

  lemma ShiftIn(acc: nat, p: nat, b: nat, v: nat)
    ensures acc + p * (b + 128 * v) == (acc + p * b) + (128 * p) * v
  {
    assert p * (b + 128 * v) == p * b + p * (128 * v);
    assert p * (128 * v) == (128 * p) * v;
  }

  lemma ReadingOn(s0: seq<Byte>, acc: nat, k: nat, s: seq<Byte>, acc': nat)
    requires s != [] && Reading(s0, acc, k, s) && s[0] >= 128
    requires acc' == acc + Pow128(k) * (s[0] - 128)
    ensures Reading(s0, acc', k + 1, s[1..])
  {
    hide Decode, Ended;
    DecodeMore(s);
    ShiftIn(acc, Pow128(k), s[0] - 128, Decode(s[1..]).0);
  }

  lemma ReadingDone(s0: seq<Byte>, acc: nat, k: nat, s: seq<Byte>)
    requires s != [] && Reading(s0, acc, k, s) && s[0] < 128
    ensures Decode(s0) == (acc + Pow128(k) * s[0], k + 1)
  {
  }

  /** al_decode */
  method AlDecode(buf: array<Byte>, ap: nat) returns (atrnum: nat, ap': nat)
    requires ap <= buf.Length && Ended(buf[ap..])
    ensures ap <= ap' && (atrnum, ap' - ap) == Decode(buf[ap..])
  {
    hide Decode, Ended;
    atrnum, ap' := 0, ap;
    var k := 0;
    ghost var s0 := buf[ap..];
    assert Reading(s0, 0, 0, s0);
    while true
      invariant ap <= ap' <= buf.Length && ap' == ap + k && Reading(s0, atrnum, k, buf[ap'..])
      decreases buf.Length - ap'
    {
      ghost var s := buf[ap'..];
      assert s != [] by { EndedSome(s); }
      assert s[0] == buf[ap'] && s[1..] == buf[ap' + 1..];
      var c := buf[ap'];
      var more: nat := Shifted(c % 128, k);
      if c < 128 { ReadingDone(s0, atrnum, k, s); } else { ReadingOn(s0, atrnum, k, s, atrnum + more); }
      atrnum := atrnum + more;
      ap' := ap' + 1;
      if c < 128 { return; }
      k := k + 1;
    }
  }

  lemma EndedSome(s: seq<Byte>)
    requires Ended(s)
    ensures s != []
  {
  }

  /** al_code */
  method AlCode(buf: array<Byte>, ap: nat, n: nat) returns (ap': nat)
    requires ap + |Code(n)| <= buf.Length
    modifies buf
    ensures ap' == ap + |Code(n)|
    ensures buf[..ap'] == old(buf[..ap]) + Code(n)
    ensures forall i :: ap' <= i < buf.Length ==> buf[i] == old(buf[i])
  {
    ap' := ap;
    var atrnum := n;
    ghost var was := buf[..ap];
    while true
      invariant ap <= ap' && ap' + |Code(atrnum)| == ap + |Code(n)| <= buf.Length
      invariant buf[..ap'] + Code(atrnum) == was + Code(n)
      invariant forall i :: ap' <= i < buf.Length ==> buf[i] == old(buf[i])
      decreases atrnum
    {
      ghost var before, m := buf[..ap'], atrnum;
      buf[ap'] := atrnum % 128;
      atrnum := atrnum / 128;
      if atrnum == 0 {
        ap' := ap' + 1;
        assert buf[..ap'] == before + Code(m);
        return;
      }
      buf[ap'] := buf[ap'] + 128;
      ap' := ap' + 1;
      assert buf[..ap'] == before + [128 + m % 128];
      assert Code(m) == [128 + m % 128] + Code(atrnum);
      assert buf[..ap'] + Code(atrnum) == before + Code(m);
    }
  }
}
