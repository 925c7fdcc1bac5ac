module Cipher {
  /*
   encrypt() and decrypt() of src/funceval.c: crypt_code and crunch_code.  A char is signed, as on the server's
   platforms; a C string holds no zero.
   */

  type Char = c: int | -128 <= c < 128

  const START := 32
  const END := 126
  const MOD := 95

  predicate Printable(c: Char) { START <= c <= END }

  /** The remainder of C, which has the sign of the dividend */
  function Rem(a: int, m: int): int
    requires m > 0
  {
    if a >= 0 then a % m else -((-a) % m)
  }

  /** The printable characters of a text */
  function Kept(text: seq<Char>): seq<Char> {
    if text == [] then [] else if Printable(text[0]) then [text[0]] + Kept(text[1..]) else Kept(text[1..])
  }

  /** One character under one key character */
  function Shift(encrypt: bool, p: Char, q: Char): Char
    requires Printable(p)
  {
    if encrypt then Rem(p - START + (q - START), MOD) + START else Rem(p - q + 2 * MOD, MOD) + START
  }

  /** The next place in the cyclic key */
  function Next(code: seq<Char>, q: nat): nat { if q + 1 < |code| then q + 1 else 0 }

  /** What the loop of crypt_code makes of the text, with the key at place q */
  function Crypt(code: seq<Char>, encrypt: bool, text: seq<Char>, q: nat): seq<Char>
    requires q < |code|
  {
    if text == [] then []
    else if Printable(text[0]) then [Shift(encrypt, text[0], code[q])] + Crypt(code, encrypt, text[1..], Next(code, q))
    else Crypt(code, encrypt, text[1..], q)
  }

  /** crunch_code: its test is true of every character. */
  method CrunchCode(code: seq<Char>) returns (output: seq<Char>)
    ensures output == code
  {
    output := [];
    var i := 0;
    while i < |code|
      invariant 0 <= i <= |code| && output == code[..i]
    {
      if code[i] >= 32 || code[i] <= 126 { output := output + [code[i]]; }
      i := i + 1;
    }
  }

  /** crypt_code on a whole text */
  function CryptText(code: seq<Char>, encrypt: bool, text: seq<Char>): seq<Char> {
    if code == [] then text else Crypt(code, encrypt, text, 0)
  }

  method CryptCode(code: seq<Char>, text: seq<Char>, encrypt: bool) returns (r: seq<Char>)
    ensures r == CryptText(code, encrypt, text)
  {
    var codebuff := CrunchCode(code);
    if codebuff == [] { return text; }
    r := [];
    var p, q := 0, 0;
    assert text[0..] == text;
    while p < |text|
      invariant 0 <= p <= |text| && 0 <= q < |code|
      invariant r + Crypt(code, encrypt, text[p..], q) == Crypt(code, encrypt, text, 0)
    {
      assert text[p..][0] == text[p] && text[p..][1..] == text[p + 1..];
      if text[p] < START || text[p] > END {
        p := p + 1;
        continue;
      }
      r := r + [Shift(encrypt, text[p], codebuff[q])];
      p, q := p + 1, q + 1;
      if q == |codebuff| { q := 0; }
    }
  }

  // ------------------------------------------------------------------ decryption undoes encryption

  /** With a key character from the blank on, the shift stays printable and is undone. */
  lemma ShiftBack(p: Char, q: Char)
    requires Printable(p) && q >= START
    ensures Printable(Shift(true, p, q)) && Shift(false, Shift(true, p, q), q) == p
  {
    var a := p - START + (q - START);
    assert 0 <= a < 2 * MOD && a % MOD == if a < MOD then a else a - MOD;
    var c := Shift(true, p, q);
    assert c - q + 2 * MOD == (if a < MOD then p - START else p - START - MOD) + 2 * MOD;
  }

  ghost predicate GoodKey(code: seq<Char>) { forall i :: 0 <= i < |code| ==> code[i] >= START }

  lemma {:induction false} CryptBack(code: seq<Char>, text: seq<Char>, q: nat)
    requires GoodKey(code) && q < |code|
    ensures Crypt(code, false, Crypt(code, true, text, q), q) == Kept(text)
  {
    if text != [] {
      if Printable(text[0]) {
        CryptBack(code, text[1..], Next(code, q));
        ShiftBack(text[0], code[q]);
        var e := Crypt(code, true, text, q);
        assert e[1..] == Crypt(code, true, text[1..], Next(code, q));
      } else {
        CryptBack(code, text[1..], q);
      }
    }
  }

  lemma {:induction false} CryptLength(code: seq<Char>, encrypt: bool, text: seq<Char>, q: nat)
    requires q < |code|
    ensures |Crypt(code, encrypt, text, q)| == |Kept(text)|
  {
    if text != [] { CryptLength(code, encrypt, text[1..], if Printable(text[0]) then Next(code, q) else q); }
  }

  function Blanks(n: nat, p: Char): seq<Char> { if n == 0 then [p] else [START] + Blanks(n - 1, p) }

  lemma {:induction false} KeptBlanks(n: nat, p: Char)
    requires Printable(p)
    ensures |Kept(Blanks(n, p))| == n + 1
  {
    if n > 0 {
      KeptBlanks(n - 1, p);
      assert Blanks(n, p)[1..] == Blanks(n - 1, p);
    }
  }

  /** A key character below the blank makes some printable character unprintable. */
  lemma LostChar(q: Char) returns (p: Char)
    requires q < START
    ensures Printable(p) && !Printable(Shift(true, p, q))
  {
    p := if (START - q) % MOD == 0 then START + 1 else START;
  }

  /** A text that reaches the bad key character with a character it loses comes back too short. */
  lemma {:induction false} ShorterBack(code: seq<Char>, i: nat, q: nat, p: Char)
    requires q + i < |code| && Printable(p) && !Printable(Shift(true, p, code[q + i]))
    ensures |Kept(Crypt(code, true, Blanks(i, p), q))| < i + 1
  {
    var e := Crypt(code, true, Blanks(i, p), q);
    if i == 0 {
      assert e == [Shift(true, p, code[q])] + Crypt(code, true, [], Next(code, q));
    } else {
      assert Blanks(i, p)[1..] == Blanks(i - 1, p);
      ShorterBack(code, i - 1, q + 1, p);
      assert e[1..] == Crypt(code, true, Blanks(i - 1, p), q + 1);
    }
  }

  /** Decrypting an encrypted text gives back its printable characters, for all texts exactly if no character of the
      code lies below the blank. */
  lemma RoundTrip(code: seq<Char>)
    requires code != []
    ensures GoodKey(code) <==> forall text :: CryptText(code, false, CryptText(code, true, text)) == Kept(text)
  {
    if GoodKey(code) {
      forall text ensures CryptText(code, false, CryptText(code, true, text)) == Kept(text) { CryptBack(code, text, 0); }
    } else {
      var i :| 0 <= i < |code| && code[i] < START;
      var p := LostChar(code[i]);
      var text := Blanks(i, p);
      KeptBlanks(i, p);
      ShorterBack(code, i, 0, p);
      var e := CryptText(code, true, text);
      CryptLength(code, false, e, 0);
      assert CryptText(code, false, e) != Kept(text);
    }
  }
}
