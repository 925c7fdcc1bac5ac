/**
 The linked lists of the server, in a field-indexed memory: an address is a natural number, NULL is 0,
 and a struct field such as `next` is a map from addresses to its value in the node at that address.
 A null-terminated chain is related to the sequence of the addresses on it.  The list macros of
 event/event.h become methods on those maps.
 */
module PointerLists {
  type Addr = nat

  const NULL: Addr := 0

  ghost predicate Distinct(s: seq<Addr>) {
    forall i, j :: 0 <= i < j < |s| ==> s[i] != s[j]
  }

  lemma DistinctCons(e: Addr, s: seq<Addr>)
    requires Distinct(s) && e !in s
    ensures Distinct([e] + s)
  {
    var r := [e] + s;
    forall i, j | 0 <= i < j < |r| ensures r[i] != r[j] {
      assert r[j] == s[j - 1] && r[j] in s;
      if i > 0 { assert r[i] == s[i - 1]; }
    }
  }

  lemma DistinctTail(s: seq<Addr>)
    requires Distinct(s) && s != []
    ensures Distinct(s[1..]) && s[0] !in s[1..]
    ensures forall x :: x in s <==> x == s[0] || x in s[1..]
  {
    assert s == [s[0]] + s[1..];
  }

  /** The i-th address of a chain, NULL once the chain has ended. */
  function At(s: seq<Addr>, i: nat): Addr {
    if i < |s| then s[i] else NULL
  }

  /** Following `next` from `head` visits exactly `s` and then ends. */
  ghost predicate Chain(head: Addr, next: map<Addr, Addr>, s: seq<Addr>) {
    && head == At(s, 0)
    && (forall i :: 0 <= i < |s| ==> s[i] != NULL && s[i] in next && next[s[i]] == At(s, i + 1))
  }

  /** The address before the i-th, NULL at the head. */
  function Before(s: seq<Addr>, i: nat): Addr
    requires i < |s|
  {
    if i == 0 then NULL else s[i - 1]
  }

  ghost predicate Backward(prev: map<Addr, Addr>, s: seq<Addr>) {
    forall i :: 0 <= i < |s| ==> s[i] in prev && prev[s[i]] == Before(s, i)
  }

  /** A chain whose `prev` fields run backwards along it. */
  ghost predicate Bidir(head: Addr, prev: map<Addr, Addr>, next: map<Addr, Addr>, s: seq<Addr>) {
    Chain(head, next, s) && Backward(prev, s)
  }

  /** The sequence without its element `b`. */
  function Without(s: seq<Addr>, b: Addr): (r: seq<Addr>)
    ensures b !in r
    ensures forall x :: x in r <==> x in s && x != b
    ensures b !in s ==> r == s
  {
    if s == [] then []
    else if s[0] == b then Without(s[1..], b)
    else [s[0]] + Without(s[1..], b)
  }

  lemma {:induction false} WithoutAt(s: seq<Addr>, k: nat)
    requires Distinct(s) && k < |s|
    ensures Without(s, s[k]) == s[..k] + s[k + 1..]
  {
    if k == 0 {
      assert s[0] !in s[1..];
    } else {
      WithoutAt(s[1..], k - 1);
      assert s[1..][..k - 1] == s[1..k] && s[1..][k..] == s[k + 1..];
    }
  }

  lemma {:induction false} WithoutDistinct(s: seq<Addr>, b: Addr)
    requires Distinct(s)
    ensures Distinct(Without(s, b))
    ensures |Without(s, b)| == if b in s then |s| - 1 else |s|
  {
    if b in s {
      var k :| 0 <= k < |s| && s[k] == b;
      WithoutAt(s, k);
    }
  }

  lemma IndexOf(s: seq<Addr>, b: Addr) returns (k: nat)
    requires b in s
    ensures k < |s| && s[k] == b
  {
    k :| 0 <= k < |s| && s[k] == b;
  }

  /** A chain never meets an address twice: it would then never reach NULL. */
  lemma {:induction false} ChainDistinct(head: Addr, next: map<Addr, Addr>, s: seq<Addr>)
    requires Chain(head, next, s)
    ensures Distinct(s)
  {
    forall i, j | 0 <= i < j < |s| ensures s[i] != s[j] {
      if s[i] == s[j] { ChainRepeats(head, next, s, i, j); }
    }
  }

  lemma {:induction false} ChainRepeats(head: Addr, next: map<Addr, Addr>, s: seq<Addr>, i: nat, j: nat)
    requires Chain(head, next, s) && i < j < |s| && s[i] == s[j]
    ensures false
    decreases |s| - j
  {
    assert next[s[i]] == At(s, i + 1) && next[s[j]] == At(s, j + 1);
    if j + 1 < |s| { ChainRepeats(head, next, s, i + 1, j + 1); }
  }

  /** A chain is determined by its head and its links. */
  lemma {:induction false} ChainUnique(head: Addr, next: map<Addr, Addr>, s: seq<Addr>, t: seq<Addr>)
    requires Chain(head, next, s) && Chain(head, next, t)
    ensures s == t
    decreases |s|
  {
    if s != [] {
      assert s[0] == t[0] == head;
      forall i | 0 <= i < |s[1..]| ensures next[s[1..][i]] == At(s[1..], i + 1) { assert s[1..][i] == s[i + 1]; }
      forall i | 0 <= i < |t[1..]| ensures next[t[1..][i]] == At(t[1..], i + 1) { assert t[1..][i] == t[i + 1]; }
      ChainUnique(next[head], next, s[1..], t[1..]);
      assert s == [s[0]] + s[1..] && t == [t[0]] + t[1..];
    }
  }

  /** Links outside a chain do not matter to it. */
  lemma ChainFrame(head: Addr, next: map<Addr, Addr>, next': map<Addr, Addr>, s: seq<Addr>)
    requires Chain(head, next, s)
    requires forall x :: x in s ==> x in next' && next'[x] == next[x]
    ensures Chain(head, next', s)
  {
  }

  lemma ChainMember(head: Addr, next: map<Addr, Addr>, s: seq<Addr>, x: Addr)
    requires Chain(head, next, s) && x in s
    ensures x in next && x != NULL
  {
    var i := IndexOf(s, x);
  }

  /** A node linked in before the head of a chain. */
  lemma ChainPush(head: Addr, next: map<Addr, Addr>, s: seq<Addr>, b: Addr)
    requires Chain(head, next, s) && b !in s && b != NULL
    ensures Chain(b, next[b := head], [b] + s)
  {
    var s' := [b] + s;
    var next' := next[b := head];
    forall i | 0 <= i < |s'| ensures s'[i] in next' && next'[s'[i]] == At(s', i + 1) {
      if i > 0 { assert s'[i] == s[i - 1] && s[i - 1] in s; }
    }
  }

  /** The j-th address left once the k-th is taken out. */
  lemma WithoutNth(s: seq<Addr>, k: nat, j: nat)
    requires Distinct(s) && k < |s| && j < |s| - 1
    ensures |Without(s, s[k])| == |s| - 1
    ensures Without(s, s[k])[j] == s[if j < k then j else j + 1]
  {
    WithoutAt(s, k);
  }

  /** Unlinking the k-th node of a chain forwards. */
  lemma ChainUnlink(a: Addr, d: map<Addr, Addr>, s: seq<Addr>, k: nat)
    requires Chain(a, d, s) && Distinct(s) && k < |s|
    ensures Chain(if k == 0 then At(s, 1) else a, if k > 0 then d[s[k - 1] := At(s, k + 1)] else d, Without(s, s[k]))
  {
    var r := Without(s, s[k]);
    WithoutAt(s, k);
    var d' := if k > 0 then d[s[k - 1] := At(s, k + 1)] else d;
    forall j | 0 <= j < |r| ensures r[j] != NULL && r[j] in d' && d'[r[j]] == At(r, j + 1) {
      WithoutNth(s, k, j);
      if j + 1 < |r| { WithoutNth(s, k, j + 1); }
      var i := if j < k then j else j + 1;
      assert s[i] in d && d[s[i]] == At(s, i + 1);
      assert i + 1 == k || k == 0 || s[i] != s[k - 1];
    }
  }

  /** Unlinking the k-th node of a chain backwards. */
  lemma BackUnlink(c: map<Addr, Addr>, s: seq<Addr>, k: nat)
    requires Distinct(s) && k < |s| && Backward(c, s)
    ensures Backward(if k + 1 < |s| then c[s[k + 1] := Before(s, k)] else c, Without(s, s[k]))
  {
    var r := Without(s, s[k]);
    WithoutAt(s, k);
    var c' := if k + 1 < |s| then c[s[k + 1] := Before(s, k)] else c;
    forall j | 0 <= j < |r| ensures r[j] in c' && c'[r[j]] == Before(r, j) {
      WithoutNth(s, k, j);
      if j > 0 { WithoutNth(s, k, j - 1); }
      var i := if j < k then j else j + 1;
      assert s[i] in c && c[s[i]] == Before(s, i);
      assert i == k + 1 || k + 1 >= |s| || s[i] != s[k + 1];
    }
  }

  // ------------------------------------------------------------------ the macros

  /** ADD_TO_LIST_HEAD(a, c, b) */
  method AddToListHead(a: Addr, c: map<Addr, Addr>, b: Addr, ghost s: seq<Addr>)
    returns (a': Addr, c': map<Addr, Addr>)
    requires Chain(a, c, s) && b != NULL && b !in s
    ensures a' == b && c' == c[b := a]
    ensures Chain(a', c', [b] + s)
  {
    c' := c[b := a];
    a' := b;
  }

  /** REMOVE_FROM_LIST(a, c, b): finds the predecessor by walking from the head. */
  method RemoveFromList(a: Addr, c: map<Addr, Addr>, b: Addr, ghost s: seq<Addr>)
    returns (a': Addr, c': map<Addr, Addr>)
    requires Chain(a, c, s) && b in s
    ensures Chain(a', c', Without(s, b))
    ensures c'.Keys == c.Keys && c'[b] == c[b]
    ensures forall x :: x in c && x !in s ==> c'[x] == c[x]
  {
    ghost var k := IndexOf(s, b);
    ChainDistinct(a, c, s);
    WithoutAt(s, k);
    ChainUnlink(a, c, s, k);
    if a == b {
      a', c' := c[b], c;
    } else {
      var t := a;
      ghost var i := 0;
      while c[t] != b
        invariant 0 <= i < k && t == s[i]
        decreases k - i
      {
        t := c[t];
        i := i + 1;
      }
      assert i == k - 1;
      a', c' := a, c[t := c[b]];
    }
  }

  /** ADD_TO_BIDIR_LIST_HEAD(a, c, d, b) */
  method AddToBidirHead(a: Addr, c: map<Addr, Addr>, d: map<Addr, Addr>, b: Addr, ghost s: seq<Addr>)
    returns (a': Addr, c': map<Addr, Addr>, d': map<Addr, Addr>)
    requires Bidir(a, c, d, s) && b != NULL && b !in s
    ensures a' == b && Bidir(a', c', d', [b] + s)
    ensures forall x :: x != b && x !in s ==> (x in c' <==> x in c) && (x in d' <==> x in d)
    ensures forall x :: x != b && x !in s && x in c ==> c'[x] == c[x]
    ensures forall x :: x != b && x !in s && x in d ==> d'[x] == d[x]
  {
    c', d' := c, d[b := a];
    if a != NULL { c' := c'[a := b]; }
    a' := b;
    c' := c'[b := NULL];
    ChainDistinct(a, d, s);
  }

  /** REMOVE_FROM_BIDIR_LIST(a, c, d, b) */
  method RemoveFromBidir(a: Addr, c: map<Addr, Addr>, d: map<Addr, Addr>, b: Addr, ghost s: seq<Addr>)
    returns (a': Addr, c': map<Addr, Addr>, d': map<Addr, Addr>)
    requires Bidir(a, c, d, s) && b in s
    ensures Bidir(a', c', d', Without(s, b))
    ensures c'.Keys == c.Keys && d'.Keys == d.Keys
    ensures forall x :: x in c && x !in s ==> c'[x] == c[x]
    ensures forall x :: x in d && x !in s ==> d'[x] == d[x]
  {
    ghost var k := IndexOf(s, b);
    ChainDistinct(a, d, s);
    ChainUnlink(a, d, s, k);
    BackUnlink(c, s, k);
    assert c[b] == Before(s, k) && d[b] == At(s, k + 1);
    a', c', d' := a, c, d;
    if c'[b] != NULL { d' := d'[c'[b] := d'[b]]; }
    if d'[b] != NULL { c' := c'[d'[b] := c'[b]]; }
    if a' == b {
      a' := d'[b];
      if a' != NULL { c' := c'[a' := NULL]; }
    }
    assert k == 0 <==> a == b;
    assert d' == if k > 0 then d[s[k - 1] := At(s, k + 1)] else d;
    assert c' == if k + 1 < |s| then c[s[k + 1] := Before(s, k)] else c;
  }
}
