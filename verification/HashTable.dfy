/**
 The hash tables of src/htab.c: buckets of linked entries, with an entry moved to the head of its bucket after more
 than twenty hits.  Addresses and links are those of PointerLists; the data is a pointer that is not null.
 */
module HashTable {
  import opened Options
  import opened PointerLists

  datatype Ent = Ent(target: string, data: int, checks: nat)

  type Nodes = map<Addr, Ent>

  // ------------------------------------------------------------------ hashing

  function Pow2(k: nat): nat { if k == 0 then 1 else 2 * Pow2(k - 1) }

  ghost predicate PowerOfTwo(n: nat) { exists k :: Pow2(k) == n }

  /** A char is signed. */
  function CharValue(c: char): int { if c as int % 256 >= 128 then c as int % 256 - 256 else c as int % 256 }

  /** The hash before the mask, with the wrap-around of a 32-bit int */
  function HashSum(s: string): int { if s == [] then 0 else Wrap(33 * HashSum(s[..|s| - 1]) + CharValue(s[|s| - 1])) }

  function Wrap(n: int): int { (n + 0x8000_0000) % 0x1_0000_0000 - 0x8000_0000 }

  /** `hash & mask` for a mask of size - 1 */
  function Hash(s: string, size: nat): (h: nat)
    requires size > 0
    ensures h < size
  {
    HashSum(s) % size
  }

  /** hashval */
  method HashVal(str: string, size: nat) returns (h: nat)
    requires size > 0
    ensures h == Hash(str, size)
  {
    var hash := 0;
    var i := 0;
    while i < |str|
      invariant 0 <= i <= |str| && hash == HashSum(str[..i])
    {
      assert str[..i + 1][..i] == str[..i];
      hash := Wrap(hash * 32 + hash + CharValue(str[i]));
      i := i + 1;
    }
    assert str[..i] == str;
    return hash % size;
  }

  function Pow33(k: nat): nat { if k == 0 then 1 else 33 * Pow33(k - 1) }

  /** The polynomial in 33 whose coefficients are the characters, the first one at the highest power */
  function Poly(s: string): int { if s == "" then 0 else CharValue(s[0]) * Pow33(|s| - 1) + Poly(s[1..]) }

  lemma {:induction false} PolySnoc(s: string, c: char)
    ensures Poly(s + [c]) == 33 * Poly(s) + CharValue(c)
    decreases s
  {
    if s != "" {
      assert (s + [c])[1..] == s[1..] + [c];
      PolySnoc(s[1..], c);
      Scale(CharValue(s[0]), Pow33(|s| - 1));
    }
  }

  lemma Scale(a: int, b: int)
    ensures a * (33 * b) == 33 * (a * b)
  {
  }

  lemma WrapStep(x: int, c: int)
    ensures Wrap(33 * Wrap(x) + c) == Wrap(33 * x + c)
  {
    var k := (x + 0x8000_0000) / 0x1_0000_0000;
    assert Wrap(x) == x - k * 0x1_0000_0000;
    WrapShift(33 * x + c, 33 * k);
  }

  lemma WrapShift(n: int, k: int)
    ensures Wrap(n - k * 0x1_0000_0000) == Wrap(n)
  {
  }

  /** The loop's running sum, wrapped at every character, is the polynomial wrapped once. */
  lemma {:induction false} HashIsPolynomial(s: string, size: nat)
    requires size > 0
    ensures HashSum(s) == Wrap(Poly(s)) && Hash(s, size) == Wrap(Poly(s)) % size
    decreases s
  {
    if s != "" {
      var n := |s| - 1;
      HashIsPolynomial(s[..n], size);
      assert s == s[..n] + [s[n]];
      PolySnoc(s[..n], s[n]);
      WrapStep(Poly(s[..n]), CharValue(s[n]));
    }
  }

  /** get_hashmask: the next power of two, from 1 up */
  method GetHashmask(size: int) returns (tsize: nat)
    ensures tsize > 0 && PowerOfTwo(tsize) && tsize >= size
    ensures tsize == 1 || tsize < 2 * size
  {
    tsize := 1;
    ghost var k := 0;
    while tsize < size
      invariant tsize == Pow2(k) > 0
      invariant tsize == 1 || tsize < 2 * size
      decreases size - tsize
    {
      tsize := tsize * 2;
      k := k + 1;
    }
  }

  // ------------------------------------------------------------------ one bucket

  /** Known entries whose keys belong into bucket h, no key twice */
  ghost predicate Filed(node: Nodes, s: seq<Addr>, h: nat, size: nat, limit: Addr) {
    && size > 0
    && (forall x :: x in s ==> x in node && x != NULL && x < limit && Hash(node[x].target, size) == h && node[x].data != 0)
    && (forall x, y :: x in s && y in s && x != y ==> node[x].target != node[y].target)
  }

  ghost predicate Bucket(head: Addr, next: map<Addr, Addr>, node: Nodes, s: seq<Addr>, h: nat, size: nat, limit: Addr) {
    Chain(head, next, s) && Filed(node, s, h, size, limit)
  }

  /** What the entries say about a key */
  function FindIn(node: Nodes, s: seq<Addr>, key: string): Option<int> {
    if s == [] || s[0] !in node then None
    else if node[s[0]].target == key then Some(node[s[0]].data) else FindIn(node, s[1..], key)
  }

  lemma {:induction false} FindMiss(node: Nodes, s: seq<Addr>, key: string)
    requires forall x :: x in s ==> x in node && node[x].target != key
    ensures FindIn(node, s, key) == None
  {
    if s != [] {
      assert s[0] in s;
      FindMiss(node, s[1..], key);
    }
  }

  lemma {:induction false} FindHit(node: Nodes, s: seq<Addr>, h: nat, size: nat, limit: Addr, x: Addr)
    requires Filed(node, s, h, size, limit) && x in s
    ensures FindIn(node, s, node[x].target) == Some(node[x].data)
  {
    assert s[0] in s;
    if s[0] != x { FindHit(node, s[1..], h, size, limit, x); }
  }

  /** Two lists of the same entries, in whatever order, answer alike. */
  lemma SameAnswers(node: Nodes, s: seq<Addr>, node': Nodes, s': seq<Addr>, h: nat, size: nat, limit: Addr, key: string)
    requires Filed(node, s, h, size, limit) && Filed(node', s', h, size, limit)
    requires forall x :: x in s <==> x in s'
    requires forall x :: x in s ==> node'[x].target == node[x].target && node'[x].data == node[x].data
    ensures FindIn(node', s', key) == FindIn(node, s, key)
  {
    if x :| x in s && node[x].target == key {
      FindHit(node, s, h, size, limit, x);
      FindHit(node', s', h, size, limit, x);
    } else {
      FindMiss(node, s, key);
      FindMiss(node', s', key);
    }
  }

  /** Without its entry b a list answers as before, except for b's key. */
  lemma WithoutAnswers(node: Nodes, s: seq<Addr>, h: nat, size: nat, limit: Addr, b: Addr, key: string)
    requires Filed(node, s, h, size, limit) && b in s
    ensures Filed(node, Without(s, b), h, size, limit)
    ensures FindIn(node, Without(s, b), key) == if key == node[b].target then None else FindIn(node, s, key)
  {
    var r := Without(s, b);
    if x :| x in r && node[x].target == key {
      FindHit(node, s, h, size, limit, x);
      FindHit(node, r, h, size, limit, x);
    } else {
      FindMiss(node, r, key);
      if key != node[b].target { FindMiss(node, s, key); }
    }
  }

  /** A new first entry answers for its key. */
  lemma PushAnswers(node: Nodes, s: seq<Addr>, h: nat, size: nat, limit: Addr, b: Addr, key: string)
    requires Filed(node, s, h, size, limit) && b in node && b != NULL && b < limit && node[b].data != 0
    requires Hash(node[b].target, size) == h && forall x :: x in s ==> node[x].target != node[b].target
    ensures Filed(node, [b] + s, h, size, limit)
    ensures FindIn(node, [b] + s, key) == if key == node[b].target then Some(node[b].data) else FindIn(node, s, key)
  {
    assert ([b] + s)[1..] == s;
  }

  /** New data under an old key */
  lemma DataAnswers(node: Nodes, s: seq<Addr>, h: nat, size: nat, limit: Addr, b: Addr, d: int, key: string)
    requires Filed(node, s, h, size, limit) && b in s && d != 0
    ensures Filed(node[b := node[b].(data := d)], s, h, size, limit)
    ensures FindIn(node[b := node[b].(data := d)], s, key) == if key == node[b].target then Some(d) else FindIn(node, s, key)
  {
    var node' := node[b := node[b].(data := d)];
    if x :| x in s && node[x].target == key {
      FindHit(node, s, h, size, limit, x);
      FindHit(node', s, h, size, limit, x);
    } else {
      FindMiss(node, s, key);
      FindMiss(node', s, key);
    }
  }

  /** Entries elsewhere do not matter to a bucket. */
  lemma {:induction false} FindFrame(node: Nodes, node': Nodes, s: seq<Addr>, key: string)
    requires forall x :: x in s ==> x in node && x in node' && node'[x] == node[x]
    ensures FindIn(node', s, key) == FindIn(node, s, key)
  {
    if s != [] {
      assert s[0] in s;
      FindFrame(node, node', s[1..], key);
    }
  }

  lemma BucketFrame(head: Addr, next: map<Addr, Addr>, node: Nodes, next': map<Addr, Addr>, node': Nodes, s: seq<Addr>, h: nat,
      size: nat, limit: Addr, limit': Addr)
    requires Bucket(head, next, node, s, h, size, limit) && limit <= limit'
    requires forall x :: x in s ==> x in next' && next'[x] == next[x] && x in node' && node'[x] == node[x]
    ensures Bucket(head, next', node', s, h, size, limit')
  {
    ChainFrame(head, next, next', s);
  }

  // ------------------------------------------------------------------ the whole table

  /** The bucket heads and the entries in memory; addresses from `limit` on are unused. */
  datatype Heap = Heap(element: seq<Addr>, next: map<Addr, Addr>, node: Nodes, limit: Addr)

  /** Each key sits in its own bucket only. */
  ghost predicate Table(hp: Heap, chains: seq<seq<Addr>>) {
    && |hp.element| == |chains| > 0 && PowerOfTwo(|chains|) && hp.limit > NULL
    && forall h :: 0 <= h < |chains| ==> Bucket(hp.element[h], hp.next, hp.node, chains[h], h, |chains|, hp.limit)
  }

  /** The map the table stands for */
  function Lookup(hp: Heap, chains: seq<seq<Addr>>, key: string): Option<int> {
    if chains == [] then None else FindIn(hp.node, chains[Hash(key, |chains|)], key)
  }

  /** The entries outside bucket h, as they were */
  ghost predicate SameElsewhere(hp: Heap, hp': Heap, s: seq<Addr>) {
    hp.limit <= hp'.limit
    && (forall x :: x in hp.next && x < hp.limit && x !in s ==> x in hp'.next && hp'.next[x] == hp.next[x])
    && (forall x :: x in hp.node && x < hp.limit && x !in s ==> x in hp'.node && hp'.node[x] == hp.node[x])
  }

  /** A change of bucket h leaves all other buckets, and the answers for their keys. */
  lemma Rebucket(hp: Heap, chains: seq<seq<Addr>>, hp': Heap, h: nat, s': seq<Addr>)
    requires Table(hp, chains) && h < |chains| && SameElsewhere(hp, hp', chains[h])
    requires |hp'.element| == |hp.element| && hp'.element == hp.element[h := hp'.element[h]]
    requires Bucket(hp'.element[h], hp'.next, hp'.node, s', h, |chains|, hp'.limit)
    ensures Table(hp', chains[h := s'])
    ensures forall key :: Hash(key, |chains|) != h ==> Lookup(hp', chains[h := s'], key) == Lookup(hp, chains, key)
    ensures forall key :: Hash(key, |chains|) == h ==> Lookup(hp', chains[h := s'], key) == FindIn(hp'.node, s', key)
  {
    hide Bucket, Hash, FindIn;
    var chains' := chains[h := s'];
    forall g | 0 <= g < |chains| && g != h
      ensures Bucket(hp'.element[g], hp'.next, hp'.node, chains'[g], g, |chains|, hp'.limit)
      ensures forall key :: FindIn(hp'.node, chains[g], key) == FindIn(hp.node, chains[g], key)
    {
      Stranger(hp, chains, hp', h, g);
    }
    forall key | Hash(key, |chains|) != h ensures Lookup(hp', chains', key) == Lookup(hp, chains, key) {
      var g := Hash(key, |chains|);
      assert chains'[g] == chains[g];
    }
  }

  lemma Stranger(hp: Heap, chains: seq<seq<Addr>>, hp': Heap, h: nat, g: nat)
    requires Table(hp, chains) && h < |chains| && g < |chains| && g != h && SameElsewhere(hp, hp', chains[h])
    ensures Bucket(hp.element[g], hp'.next, hp'.node, chains[g], g, |chains|, hp'.limit)
    ensures forall key :: FindIn(hp'.node, chains[g], key) == FindIn(hp.node, chains[g], key)
  {
    hide Hash;
    var s := chains[g];
    assert Bucket(hp.element[h], hp.next, hp.node, chains[h], h, |chains|, hp.limit);
    assert Bucket(hp.element[g], hp.next, hp.node, s, g, |chains|, hp.limit);
    forall x | x in s ensures x in hp'.next && hp'.next[x] == hp.next[x] && x in hp'.node && hp'.node[x] == hp.node[x] {
      ChainMember(hp.element[g], hp.next, s, x);
      assert Hash(hp.node[x].target, |chains|) == g;
      assert x !in chains[h];
    }
    BucketFrame(hp.element[g], hp.next, hp.node, hp'.next, hp'.node, s, g, |chains|, hp.limit, hp'.limit);
    forall key ensures FindIn(hp'.node, s, key) == FindIn(hp.node, s, key) { FindFrame(hp.node, hp'.node, s, key); }
  }

  // ------------------------------------------------------------------ counting

  function Total(chains: seq<seq<Addr>>): nat { if chains == [] then 0 else |chains[0]| + Total(chains[1..]) }

  function Empties(chains: seq<seq<Addr>>): nat {
    if chains == [] then 0 else (if chains[0] == [] then 1 else 0) + Empties(chains[1..])
  }

  lemma {:induction false} CountUpdate(chains: seq<seq<Addr>>, h: nat, s: seq<Addr>)
    requires h < |chains|
    ensures Total(chains[h := s]) == Total(chains) - |chains[h]| + |s|
    ensures Empties(chains[h := s]) == Empties(chains) - (if chains[h] == [] then 1 else 0) + (if s == [] then 1 else 0)
  {
    var c := chains[h := s];
    if h > 0 {
      CountUpdate(chains[1..], h - 1, s);
      assert c[1..] == chains[1..][h - 1 := s] && c[0] == chains[0];
    } else {
      assert c[1..] == chains[1..];
    }
  }

  // ------------------------------------------------------------------ the steps on memory

  /** The search loop of hashfind, hashdelete and hashrepl: the entry with the key or NULL, the entry before it (itself
      at the head), and how many entries were looked at */
  method Seek(hp: Heap, h: nat, key: string, ghost s: seq<Addr>, ghost size: nat)
      returns (hptr: Addr, prev: Addr, numchecks: nat)
    requires h < |hp.element| && Bucket(hp.element[h], hp.next, hp.node, s, h, size, hp.limit)
    ensures hptr == NULL ==> FindIn(hp.node, s, key) == None && numchecks == |s| && forall x :: x in s ==> hp.node[x].target != key
    ensures hptr != NULL ==> 1 <= numchecks <= |s| && s[numchecks - 1] == hptr && hp.node[hptr].target == key
    ensures hptr != NULL ==> prev == if numchecks == 1 then hptr else s[numchecks - 2]
    ensures hptr != NULL ==> hptr in hp.node && hptr in hp.next && FindIn(hp.node, s, key) == Some(hp.node[hptr].data)
  {
    hide FindIn, Hash, Filed, Chain, Passed;
    hptr := hp.element[h];
    prev, numchecks := hptr, 0;
    SeekAt(hp, h, s, size, 0);
    assert Passed(hp.node, s, 0, key) by { PassedNone(hp.node, s, key); }
    while hptr != NULL
      invariant numchecks <= |s| && hptr == At(s, numchecks) && (hptr == NULL <==> numchecks == |s|)
      invariant prev == if numchecks == 0 then hptr else s[numchecks - 1]
      invariant Passed(hp.node, s, numchecks, key)
      decreases |s| - numchecks
    {
      SeekAt(hp, h, s, size, numchecks);
      numchecks := numchecks + 1;
      if hp.node[hptr].target == key {
        FindHit(hp.node, s, h, size, hp.limit, hptr);
        return;
      }
      PassedOne(hp.node, s, numchecks - 1, key);
      prev := hptr;
      hptr := hp.next[hptr];
      SeekAt(hp, h, s, size, numchecks);
    }
    PassedAll(hp.node, s, key);
    FindMiss(hp.node, s, key);
  }

  /** The first n entries do not have the key. */
  ghost predicate Passed(node: Nodes, s: seq<Addr>, n: nat, key: string) {
    n <= |s| && forall i :: 0 <= i < n ==> s[i] in node && node[s[i]].target != key
  }

  lemma PassedNone(node: Nodes, s: seq<Addr>, key: string) ensures Passed(node, s, 0, key) { }

  lemma PassedOne(node: Nodes, s: seq<Addr>, n: nat, key: string)
    requires Passed(node, s, n, key) && n < |s| && s[n] in node && node[s[n]].target != key
    ensures Passed(node, s, n + 1, key)
  {
  }

  lemma PassedAll(node: Nodes, s: seq<Addr>, key: string)
    requires Passed(node, s, |s|, key)
    ensures forall x :: x in s ==> x in node && node[x].target != key
  {
  }

  lemma SeekAt(hp: Heap, h: nat, s: seq<Addr>, size: nat, i: nat)
    requires h < |hp.element| && Bucket(hp.element[h], hp.next, hp.node, s, h, size, hp.limit) && i <= |s|
    ensures At(s, 0) == hp.element[h] && (At(s, i) == NULL <==> i == |s|)
    ensures i < |s| ==> s[i] in s && s[i] in hp.node && s[i] in hp.next && hp.next[s[i]] == At(s, i + 1)
  {
    if i < |s| { assert s[i] in s; }
  }

  /** Moving the k-th entry of a bucket to its head */
  lemma ToFront(hp: Heap, h: nat, s: seq<Addr>, size: nat, k: nat, n: nat)
    requires h < |hp.element| && Bucket(hp.element[h], hp.next, hp.node, s, h, size, hp.limit) && 0 < k < |s| && s[k] in hp.node
    ensures Bucket(s[k], hp.next[s[k - 1] := At(s, k + 1)][s[k] := hp.element[h]], hp.node[s[k] := hp.node[s[k]].(checks := n)],
      [s[k]] + Without(s, s[k]), h, size, hp.limit)
    ensures forall key :: FindIn(hp.node[s[k] := hp.node[s[k]].(checks := n)], [s[k]] + Without(s, s[k]), key) == FindIn(hp.node, s, key)
  {
    hide FindIn, Hash;
    ChainDistinct(hp.element[h], hp.next, s);
    ChainUnlink(hp.element[h], hp.next, s, k);
    ChainPush(hp.element[h], hp.next[s[k - 1] := At(s, k + 1)], Without(s, s[k]), s[k]);
    FrontAnswers(hp.node, s, h, size, hp.limit, s[k], n);
  }

  lemma FrontAnswers(node: Nodes, s: seq<Addr>, h: nat, size: nat, limit: Addr, b: Addr, n: nat)
    requires Filed(node, s, h, size, limit) && b in s
    ensures Filed(node[b := node[b].(checks := n)], [b] + Without(s, b), h, size, limit)
    ensures forall key :: FindIn(node[b := node[b].(checks := n)], [b] + Without(s, b), key) == FindIn(node, s, key)
  {
    hide FindIn, Hash;
    var node' := node[b := node[b].(checks := n)];
    var s' := [b] + Without(s, b);
    assert Filed(node', s', h, size, limit);
    forall key ensures FindIn(node', s', key) == FindIn(node, s, key) { SameAnswers(node, s, node', s', h, size, limit, key); }
  }

  /** Counting a hit */
  lemma Counted(hp: Heap, h: nat, s: seq<Addr>, size: nat, b: Addr, n: nat)
    requires h < |hp.element| && Bucket(hp.element[h], hp.next, hp.node, s, h, size, hp.limit) && b in s && b in hp.node
    ensures Bucket(hp.element[h], hp.next, hp.node[b := hp.node[b].(checks := n)], s, h, size, hp.limit)
    ensures forall key :: FindIn(hp.node[b := hp.node[b].(checks := n)], s, key) == FindIn(hp.node, s, key)
  {
    hide FindIn, Hash;
    var node' := hp.node[b := hp.node[b].(checks := n)];
    assert Filed(node', s, h, size, hp.limit);
    forall key ensures FindIn(node', s, key) == FindIn(hp.node, s, key) { SameAnswers(hp.node, s, node', s, h, size, hp.limit, key); }
  }

  // ------------------------------------------------------------------ the table

  class HashTab {
    var hp: Heap
    var entries: int
    var nulls: int
    var deletes: nat
    var scans: nat
    var hits: nat
    var checks: nat
    var maxScan: nat
    var lastHval: nat
    var lastEntry: Addr
    /** The addresses in each bucket */
    ghost var chains: seq<seq<Addr>>

    ghost predicate Valid()
      reads this
    {
      Table(hp, chains) && entries == Total(chains) && nulls == Empties(chains)
    }

    /** The finite map */
    ghost function Find(key: string): Option<int>
      reads this
    {
      Lookup(hp, chains, key)
    }

    /** hashinit */
    constructor (size: int)
      ensures Valid() && (forall key :: Find(key) == None) && |chains| >= size && entries == 0
    {
      var tsize := GetHashmask(size);
      hp := Heap(seq(tsize, _ => NULL), map[], map[], 1);
      entries, nulls, deletes, scans, hits, checks, maxScan := 0, tsize, 0, 0, 0, 0, 0;
      chains := seq(tsize, _ => []);
      EmptyTable(tsize, Heap(seq(tsize, _ => NULL), map[], map[], 1), seq(tsize, _ => []));
    }

    /** hashfind: the data, or null; the map stays as it is */
    method HashFind(str: string) returns (data: int)
      requires Valid()
      modifies this
      ensures Valid() && forall key :: Find(key) == old(Find(key))
      ensures data == match Find(str) case Some(d) => d case None => 0
      ensures data == 0 <==> Find(str) == None
      ensures |chains| == |old(chains)| && entries == old(entries) && hp.element != [] && hp.limit == old(hp.limit)
      ensures data == 0 ==> hp == old(hp) && chains == old(chains)
    {
      hide Hash, FindIn, Filed, Chain, Total, Empties;
      scans := scans + 1;
      ghost var was, cs := hp, chains;
      var h := HashVal(str, |hp.element|);
      ghost var s := chains[h];
      var hptr, prev, n := Seek(hp, h, str, s, |chains|);
      if n > maxScan { maxScan := n; }
      checks := checks + n;
      if hptr == NULL { return 0; }
      hits := hits + 1;
      DataIsSome(hp, h, s, |chains|, hptr);
      data := hp.node[hptr].data;
      ghost var s';
      hp, s' := Touch(hp, h, hptr, prev, n, s, |chains|);
      Rebucket(was, chains, hp, h, s');
      CountUpdate(chains, h, s');
      chains := chains[h := s'];
      SameMap(was, cs, hp, chains, h);
    }

    /** hashadd: -1 if the key is there already */
    method HashAdd(str: string, hashdata: int) returns (r: int)
      requires Valid() && hashdata != 0
      modifies this
      ensures Valid() && (r == 0 <==> old(Find(str)) == None) && (r == 0 || r == -1)
      ensures r == 0 ==> forall key :: Find(key) == if key == str then Some(hashdata) else old(Find(key))
      ensures r != 0 ==> forall key :: Find(key) == old(Find(key))
      ensures entries == old(entries) + (if r == 0 then 1 else 0)
    {
      hide Hash, FindIn, Filed, Chain, Total, Empties, SameElsewhere;
      var found := HashFind(str);
      if found != 0 { return -1; }
      ghost var was, cs := hp, chains;
      var h := HashVal(str, |hp.element|);
      ghost var s := chains[h];
      assert Bucket(hp.element[h], hp.next, hp.node, s, h, |chains|, hp.limit);
      entries := entries + 1;
      HeadEmpty(hp.element[h], hp.next, s);
      if hp.element[h] == NULL { nulls := nulls - 1; }
      hp := Link(hp, h, Ent(str, hashdata, 0), s, |chains|);
      Rebucket(was, chains, hp, h, [was.limit] + s);
      CountUpdate(chains, h, [was.limit] + s);
      chains := chains[h := [was.limit] + s];
      NewMap(was, cs, hp, chains, h, str, Some(hashdata));
      return 0;
    }

    /** hashdelete */
    method HashDelete(str: string)
      requires Valid()
      modifies this
      ensures Valid() && forall key :: Find(key) == if key == str then None else old(Find(key))
      ensures entries == old(entries) - (if old(Find(str)).Some? then 1 else 0)
    {
      hide Hash, FindIn, Filed, Chain, Total, Empties, SameElsewhere;
      ghost var was, cs := hp, chains;
      var h := HashVal(str, |hp.element|);
      ghost var s := chains[h];
      var hptr, last, n := Seek(hp, h, str, s, |chains|);
      if hptr == NULL { return; }
      hp := Unlink(hp, h, hptr, last, n, s, |chains|);
      deletes := deletes + 1;
      entries := entries - 1;
      ghost var s' := Without(s, hptr);
      BucketEmpty(hp.element[h], hp.next, hp.node, s', h, |chains|, hp.limit);
      if hp.element[h] == NULL { nulls := nulls + 1; }
      Rebucket(was, chains, hp, h, s');
      CountUpdate(chains, h, s');
      chains := chains[h := s'];
      NewMap(was, cs, hp, chains, h, str, None);
    }

    /** hashrepl: 1 if the key was there */
    method HashRepl(str: string, hashdata: int) returns (r: int)
      requires Valid() && hashdata != 0
      modifies this
      ensures Valid() && (r == 1 <==> old(Find(str)).Some?) && (r == 0 || r == 1)
      ensures forall key :: Find(key) == if key == str && r == 1 then Some(hashdata) else old(Find(key))
      ensures entries == old(entries)
    {
      hide Hash, FindIn, Filed, Chain, Total, Empties, SameElsewhere;
      ghost var was, cs := hp, chains;
      var h := HashVal(str, |hp.element|);
      ghost var s := chains[h];
      var hptr, last, n := Seek(hp, h, str, s, |chains|);
      if hptr == NULL { return 0; }
      Redata(hp, h, s, |chains|, hptr, hashdata);
      hp := hp.(node := hp.node[hptr := hp.node[hptr].(data := hashdata)]);
      Rebucket(was, chains, hp, h, s);
      assert chains[h := s] == chains;
      NewMap(was, cs, hp, chains, h, str, Some(hashdata));
      return 1;
    }

    /** hashflush: empty, and of another size if one is asked for */
    method HashFlush(size: int)
      requires Valid()
      modifies this
      ensures Valid() && (forall key :: Find(key) == None) && entries == 0
    {
      var n := |hp.element|;
      if size > 0 && size != n { n := GetHashmask(size); }
      hp := Heap(seq(n, _ => NULL), map[], map[], hp.limit);
      chains := seq(n, _ => []);
      checks, scans, maxScan, hits, entries, deletes, nulls := 0, 0, 0, 0, 0, 0, n;
      EmptyTable(n, hp, chains);
    }

    /** hashreplall: one pointer replaced by another wherever it is the data */
    method HashReplAll(old_: int, new_: int)
      requires Valid() && new_ != 0
      modifies this`hp
      ensures Valid() && forall key :: Find(key) == Swapped(old(Find(key)), old_, new_)
    {
      hide Hash, FindIn, Total, Empties;
      var node := ReplAll(hp, old_, new_, chains);
      AllSwapped(hp, chains, node, old_, new_);
      hp := hp.(node := node);
    }

    /** The walk has come to the i-th entry of the table. */
    ghost predicate CursorAt(i: nat)
      reads this
    {
      && lastHval < |chains|
      && var start := |Flat(chains[..lastHval])|; start <= i < start + |chains[lastHval]| && chains[lastHval][i - start] == lastEntry
    }

    /** hash_firstentry */
    method HashFirstEntry() returns (data: int)
      requires Valid()
      modifies this`lastHval, this`lastEntry
      ensures data == 0 <==> Flat(chains) == []
      ensures data != 0 ==> CursorAt(0) && Entry(hp, chains, 0, data)
    {
      hide Table, Flat, Entry;
      TableSize(hp, chains);
      FlatNone(chains);
      data := FirstFrom(0);
    }

    /** The loop over the buckets from hval on */
    method FirstFrom(hval: nat) returns (data: int)
      requires Valid() && hval <= |chains|
      modifies this`lastHval, this`lastEntry
      ensures data == 0 <==> |Flat(chains[..hval])| == |Flat(chains)|
      ensures data != 0 ==> CursorAt(|Flat(chains[..hval])|) && Entry(hp, chains, |Flat(chains[..hval])|, data)
    {
      hide Table, Flat, Entry;
      TableSize(hp, chains);
      var h := hval;
      while h < |hp.element|
        invariant hval <= h <= |chains| && |Flat(chains[..h])| == |Flat(chains[..hval])|
      {
        BucketOf(hp, chains, h);
        if hp.element[h] != NULL {
          lastHval, lastEntry := h, hp.element[h];
          EntryAt(hp, chains, h, 0);
          return hp.node[lastEntry].data;
        }
        FlatMore(chains, h);
        h := h + 1;
      }
      assert chains[..h] == chains;
      return 0;
    }

    /** hash_nextentry: each entry once, until none is left */
    method HashNextEntry(ghost i: nat) returns (data: int)
      requires Valid() && CursorAt(i)
      modifies this`lastHval, this`lastEntry
      ensures i < |Flat(chains)| && (data == 0 <==> i + 1 == |Flat(chains)|)
      ensures data != 0 ==> CursorAt(i + 1) && Entry(hp, chains, i + 1, data)
    {
      hide Table, Flat, Entry;
      TableSize(hp, chains);
      ghost var k := i - |Flat(chains[..lastHval])|;
      BucketOf(hp, chains, lastHval);
      EntryAt(hp, chains, lastHval, k);
      if hp.next[lastEntry] != NULL {
        EntryAt(hp, chains, lastHval, k + 1);
        lastEntry := hp.next[lastEntry];
        return hp.node[lastEntry].data;
      }
      FlatMore(chains, lastHval);
      data := FirstFrom(lastHval + 1);
    }
  }

  // ------------------------------------------------------------------ walking the table

  /** All entries, bucket by bucket */
  function Flat(chains: seq<seq<Addr>>): seq<Addr> { if chains == [] then [] else chains[0] + Flat(chains[1..]) }

  ghost predicate Entry(hp: Heap, chains: seq<seq<Addr>>, i: nat, data: int) {
    i < |Flat(chains)| && Flat(chains)[i] in hp.node && hp.node[Flat(chains)[i]].data == data
  }

  lemma TableSize(hp: Heap, chains: seq<seq<Addr>>)
    requires Table(hp, chains)
    ensures |hp.element| == |chains| > 0
  {
  }

  lemma FlatNone(chains: seq<seq<Addr>>)
    ensures Flat(chains[..0]) == []
  {
  }

  lemma {:induction false} FlatMore(chains: seq<seq<Addr>>, h: nat)
    requires h < |chains|
    ensures Flat(chains[..h + 1]) == Flat(chains[..h]) + chains[h]
  {
    if h > 0 {
      FlatMore(chains[1..], h - 1);
      assert chains[..h + 1][1..] == chains[1..][..h] && chains[..h][1..] == chains[1..][..h - 1];
    } else {
      assert chains[..1][1..] == [];
      assert chains[h] + [] == chains[h];
    }
  }

  lemma {:induction false} FlatAt(chains: seq<seq<Addr>>, h: nat, k: nat)
    requires h < |chains| && k < |chains[h]|
    ensures |Flat(chains[..h])| + k < |Flat(chains)| && Flat(chains)[|Flat(chains[..h])| + k] == chains[h][k]
  {
    if h > 0 {
      FlatAt(chains[1..], h - 1, k);
      assert chains[..h][1..] == chains[1..][..h - 1];
    }
  }

  lemma BucketOf(hp: Heap, chains: seq<seq<Addr>>, h: nat)
    requires Table(hp, chains) && h < |chains|
    ensures (hp.element[h] == NULL <==> chains[h] == []) && (chains[h] != [] ==> hp.element[h] == chains[h][0])
    ensures Bucket(hp.element[h], hp.next, hp.node, chains[h], h, |chains|, hp.limit)
  {
  }

  /** The k-th entry of bucket h in the order of the walk */
  lemma EntryAt(hp: Heap, chains: seq<seq<Addr>>, h: nat, k: nat)
    requires Table(hp, chains) && h < |chains| && k < |chains[h]|
    ensures var x := chains[h][k];
      && x in hp.node && hp.node[x].data != 0 && x in hp.next
      && hp.next[x] == (if k + 1 < |chains[h]| then chains[h][k + 1] else NULL)
      && (k + 1 < |chains[h]| ==> chains[h][k + 1] != NULL)
      && Entry(hp, chains, |Flat(chains[..h])| + k, hp.node[x].data)
      && |Flat(chains[..h])| + |chains[h]| <= |Flat(chains)|
  {
    hide Flat;
    BucketOf(hp, chains, h);
    SeekAt(hp, h, chains[h], |chains|, k);
    DataIsSome(hp, h, chains[h], |chains|, chains[h][k]);
    FlatAt(chains, h, k);
    FlatAt(chains, h, |chains[h]| - 1);
  }

  /** The walk meets as many entries as are counted, */
  lemma {:induction false} FlatTotal(chains: seq<seq<Addr>>)
    ensures |Flat(chains)| == Total(chains)
  {
    if chains != [] { FlatTotal(chains[1..]); }
  }

  lemma {:induction false} FlatMember(chains: seq<seq<Addr>>, x: Addr) returns (h: nat)
    requires x in Flat(chains)
    ensures h < |chains| && x in chains[h]
  {
    if x in chains[0] { h := 0; } else { h := FlatMember(chains[1..], x); h := h + 1; }
  }

  /** and none of them twice. */
  lemma WalkMeetsEachOnce(hp: Heap, chains: seq<seq<Addr>>)
    requires Table(hp, chains)
    ensures Distinct(Flat(chains)) && |Flat(chains)| == Total(chains)
    ensures forall h, x :: 0 <= h < |chains| && x in chains[h] ==> x in Flat(chains)
  {
    hide Hash;
    FlatTotal(chains);
    assert forall h :: 0 <= h < |chains| ==> Bucket(hp.element[h], hp.next, hp.node, chains[h], h, |chains|, hp.limit);
    FlatDistinct(hp, chains, |chains|);
    assert chains[..|chains|] == chains;
    forall h, x | 0 <= h < |chains| && x in chains[h] ensures x in Flat(chains) {
      var k :| 0 <= k < |chains[h]| && chains[h][k] == x;
      FlatAt(chains, h, k);
    }
  }

  lemma {:induction false} FlatDistinct(hp: Heap, chains: seq<seq<Addr>>, n: nat)
    requires n <= |chains| == |hp.element|
    requires forall h :: 0 <= h < |chains| ==> Bucket(hp.element[h], hp.next, hp.node, chains[h], h, |chains|, hp.limit)
    ensures Distinct(Flat(chains[..n]))
  {
    hide Hash, Flat, Chain;
    if n > 0 {
      FlatDistinct(hp, chains, n - 1);
      FlatMore(chains, n - 1);
      ChainDistinct(hp.element[n - 1], hp.next, chains[n - 1]);
      var a, b := Flat(chains[..n - 1]), chains[n - 1];
      forall x | x in a ensures x !in b {
        var g := FlatMember(chains[..n - 1], x);
        assert x in chains[g];
        assert Bucket(hp.element[g], hp.next, hp.node, chains[g], g, |chains|, hp.limit);
      }
      DistinctJoin(a, b);
    } else {
      FlatNone(chains);
    }
  }

  lemma DistinctJoin(a: seq<Addr>, b: seq<Addr>)
    requires Distinct(a) && Distinct(b) && forall x :: x in a ==> x !in b
    ensures Distinct(a + b)
  {
    var r := a + b;
    forall i, j | 0 <= i < j < |r| ensures r[i] != r[j] {
      if i < |a| <= j { assert r[i] in a && r[j] in b; }
    }
  }

  // ------------------------------------------------------------------ replacing data everywhere

  function Swapped(v: Option<int>, old_: int, new_: int): Option<int> { if v == Some(old_) then Some(new_) else v }

  function SwappedEnt(e: Ent, old_: int, new_: int): Ent { if e.data == old_ then e.(data := new_) else e }

  /** The entries in `done` have been treated. */
  ghost predicate Treated(node: Nodes, node': Nodes, done: seq<Addr>, old_: int, new_: int) {
    node'.Keys == node.Keys && forall x :: x in node ==> node'[x] == if x in done then SwappedEnt(node[x], old_, new_) else node[x]
  }

  lemma TreatedOne(node: Nodes, node': Nodes, done: seq<Addr>, old_: int, new_: int, x: Addr)
    requires Treated(node, node', done, old_, new_) && x in node && x !in done
    ensures Treated(node, node'[x := SwappedEnt(node'[x], old_, new_)], done + [x], old_, new_)
  {
  }

  /** The loops of hashreplall */
  method ReplAll(hp: Heap, old_: int, new_: int, ghost chains: seq<seq<Addr>>) returns (node: Nodes)
    requires Table(hp, chains)
    ensures Treated(hp.node, node, Flat(chains), old_, new_)
  {
    hide Table, Flat, Treated, Distinct;
    node := hp.node;
    TableSize(hp, chains);
    WalkMeetsEachOnce(hp, chains);
    FlatNone(chains);
    TreatedNone(hp.node, old_, new_);
    var hval := 0;
    while hval < |hp.element|
      invariant 0 <= hval <= |chains| && Treated(hp.node, node, Flat(chains[..hval]), old_, new_)
    {
      node := ReplBucket(hp, hval, node, old_, new_, chains);
      hval := hval + 1;
    }
    assert chains[..hval] == chains;
  }

  method ReplBucket(hp: Heap, hval: nat, node0: Nodes, old_: int, new_: int, ghost chains: seq<seq<Addr>>) returns (node: Nodes)
    requires Table(hp, chains) && hval < |chains| == |hp.element| && Distinct(Flat(chains))
    requires Treated(hp.node, node0, Flat(chains[..hval]), old_, new_)
    ensures Treated(hp.node, node, Flat(chains[..hval + 1]), old_, new_)
  {
    hide Table, Flat, Treated, Distinct;
    BucketOf(hp, chains, hval);
    node := node0;
    var hptr := hp.element[hval];
    ghost var s, k := chains[hval], 0;
    ghost var done := Flat(chains[..hval]);
    assert done + s[..0] == done;
    while hptr != NULL
      invariant 0 <= k <= |s| && hptr == At(s, k) && (hptr == NULL <==> k == |s|)
      invariant done == Flat(chains[..hval]) + s[..k] && Treated(hp.node, node, done, old_, new_)
      decreases |s| - k
    {
      EntryAt(hp, chains, hval, k);
      FreshHere(chains, hval, k);
      TreatedOne(hp.node, node, done, old_, new_, hptr);
      SameKeys(hp.node, node, done, old_, new_);
      node := node[hptr := SwappedEnt(node[hptr], old_, new_)];
      done := done + [hptr];
      hptr := hp.next[hptr];
      assert s[..k + 1] == s[..k] + [s[k]];
      k := k + 1;
    }
    FlatMore(chains, hval);
    assert s[..k] == s;
  }

  lemma TreatedNone(node: Nodes, old_: int, new_: int) ensures Treated(node, node, [], old_, new_) { }

  lemma SameKeys(node: Nodes, node': Nodes, done: seq<Addr>, old_: int, new_: int)
    requires Treated(node, node', done, old_, new_)
    ensures node'.Keys == node.Keys
  {
  }

  lemma FreshHere(chains: seq<seq<Addr>>, h: nat, k: nat)
    requires h < |chains| && k < |chains[h]| && Distinct(Flat(chains))
    ensures chains[h][k] !in Flat(chains[..h]) + chains[h][..k]
  {
    var n := |Flat(chains[..h])|;
    FlatAt(chains, h, k);
    FlatPrefix(chains, h);
    var part := Flat(chains[..h]) + chains[h][..k];
    forall i | 0 <= i < |part| ensures part[i] != chains[h][k] {
      if i >= n { FlatAt(chains, h, i - n); }
      assert part[i] == Flat(chains)[i];
    }
  }

  lemma {:induction false} FlatPrefix(chains: seq<seq<Addr>>, h: nat)
    requires h <= |chains|
    ensures Flat(chains[..h]) <= Flat(chains)
  {
    if h > 0 {
      FlatPrefix(chains[1..], h - 1);
      assert chains[..h][1..] == chains[1..][..h - 1];
    }
  }

  lemma {:induction false} SwappedAnswers(node: Nodes, node': Nodes, s: seq<Addr>, old_: int, new_: int, key: string)
    requires forall x :: x in s ==> x in node && x in node' && node'[x] == SwappedEnt(node[x], old_, new_)
    ensures FindIn(node', s, key) == Swapped(FindIn(node, s, key), old_, new_)
  {
    if s != [] {
      assert s[0] in s;
      SwappedAnswers(node, node', s[1..], old_, new_, key);
    }
  }

  lemma AllSwapped(hp: Heap, chains: seq<seq<Addr>>, node: Nodes, old_: int, new_: int)
    requires Table(hp, chains) && Treated(hp.node, node, Flat(chains), old_, new_) && new_ != 0
    ensures Table(hp.(node := node), chains)
    ensures forall key :: Lookup(hp.(node := node), chains, key) == Swapped(Lookup(hp, chains, key), old_, new_)
  {
    hide Hash, FindIn, Flat, Chain;
    WalkMeetsEachOnce(hp, chains);
    forall h | 0 <= h < |chains|
      ensures Bucket(hp.element[h], hp.next, node, chains[h], h, |chains|, hp.limit)
      ensures forall x :: x in chains[h] ==> x in hp.node && x in node && node[x] == SwappedEnt(hp.node[x], old_, new_)
    {
      assert Bucket(hp.element[h], hp.next, hp.node, chains[h], h, |chains|, hp.limit);
    }
    forall key ensures Lookup(hp.(node := node), chains, key) == Swapped(Lookup(hp, chains, key), old_, new_) {
      SwappedAnswers(hp.node, node, chains[Hash(key, |chains|)], old_, new_, key);
    }
  }

  lemma HeadEmpty(head: Addr, next: map<Addr, Addr>, s: seq<Addr>)
    requires Chain(head, next, s)
    ensures head == NULL <==> s == []
  {
  }

  lemma BucketEmpty(head: Addr, next: map<Addr, Addr>, node: Nodes, s: seq<Addr>, h: nat, size: nat, limit: Addr)
    requires Bucket(head, next, node, s, h, size, limit)
    ensures head == NULL <==> s == []
  {
  }

  /** A new entry at the head of its bucket */
  method Link(hp: Heap, h: nat, e: Ent, ghost s: seq<Addr>, ghost size: nat) returns (hp': Heap)
    requires h < |hp.element| && Bucket(hp.element[h], hp.next, hp.node, s, h, size, hp.limit) && hp.limit > NULL
    requires size > 0 && Hash(e.target, size) == h && e.data != 0 && FindIn(hp.node, s, e.target) == None
    ensures |hp'.element| == |hp.element| && hp'.element == hp.element[h := hp'.element[h]]
    ensures Bucket(hp'.element[h], hp'.next, hp'.node, [hp.limit] + s, h, size, hp'.limit) && SameElsewhere(hp, hp', s)
    ensures forall key :: FindIn(hp'.node, [hp.limit] + s, key) == if key == e.target then Some(e.data) else FindIn(hp.node, s, key)
    ensures hp'.limit > NULL
  {
    hide Hash, FindIn, Chain, SameElsewhere;
    var b := hp.limit;
    hp' := Heap(hp.element[h := b], hp.next[b := hp.element[h]], hp.node[b := e], b + 1);
    NotThere(hp, h, s, size, e.target);
    ChainPush(hp.element[h], hp.next, s, b);
    assert Filed(hp'.node, s, h, size, hp'.limit);
    forall key ensures FindIn(hp'.node, [b] + s, key) == if key == e.target then Some(e.data) else FindIn(hp.node, s, key) {
      FindFrame(hp.node, hp'.node, s, key);
      PushAnswers(hp'.node, s, h, size, hp'.limit, b, key);
    }
    PushAnswers(hp'.node, s, h, size, hp'.limit, b, e.target);
    Elsewhere(hp, hp', s);
  }

  lemma NotThere(hp: Heap, h: nat, s: seq<Addr>, size: nat, key: string)
    requires h < |hp.element| && Bucket(hp.element[h], hp.next, hp.node, s, h, size, hp.limit) && FindIn(hp.node, s, key) == None
    ensures forall x :: x in s ==> x in hp.node && hp.node[x].target != key
    ensures hp.limit !in s
  {
    hide FindIn, Hash, Chain;
    forall x | x in s ensures hp.node[x].target != key { FindHit(hp.node, s, h, size, hp.limit, x); }
  }

  /** Taking an entry out of its bucket */
  method Unlink(hp: Heap, h: nat, hptr: Addr, last: Addr, ghost n: nat, ghost s: seq<Addr>, ghost size: nat) returns (hp': Heap)
    requires h < |hp.element| && Bucket(hp.element[h], hp.next, hp.node, s, h, size, hp.limit)
    requires 1 <= n <= |s| && s[n - 1] == hptr && hptr in hp.node && hptr in hp.next
    requires last == if n == 1 then hptr else s[n - 2]
    ensures |hp'.element| == |hp.element| && hp'.element == hp.element[h := hp'.element[h]] && hp'.limit == hp.limit
    ensures Bucket(hp'.element[h], hp'.next, hp'.node, Without(s, hptr), h, size, hp'.limit) && SameElsewhere(hp, hp', s)
    ensures |Without(s, hptr)| == |s| - 1
    ensures forall key :: FindIn(hp'.node, Without(s, hptr), key) == if key == hp.node[hptr].target then None else FindIn(hp.node, s, key)
  {
    hide Hash, FindIn, Chain, SameElsewhere;
    SeekAt(hp, h, s, size, n - 1);
    if hptr == last {
      hp' := hp.(element := hp.element[h := hp.next[hptr]]);
    } else {
      assert last in s;
      hp' := hp.(next := hp.next[last := hp.next[hptr]]);
    }
    ChainDistinct(hp.element[h], hp.next, s);
    SecondIsOther(s, n);
    ChainUnlink(hp.element[h], hp.next, s, n - 1);
    WithoutDistinct(s, hptr);
    forall key ensures FindIn(hp'.node, Without(s, hptr), key) == if key == hp.node[hptr].target then None else FindIn(hp.node, s, key) {
      WithoutAnswers(hp.node, s, h, size, hp.limit, hptr, key);
    }
    WithoutAnswers(hp.node, s, h, size, hp.limit, hptr, "");
    Elsewhere(hp, hp', s);
  }

  lemma SecondIsOther(s: seq<Addr>, n: nat)
    requires Distinct(s) && 1 <= n <= |s|
    ensures n > 1 ==> s[n - 2] != s[n - 1]
  {
  }

  lemma Redata(hp: Heap, h: nat, s: seq<Addr>, size: nat, b: Addr, d: int)
    requires h < |hp.element| && Bucket(hp.element[h], hp.next, hp.node, s, h, size, hp.limit) && b in s && d != 0 && b in hp.node
    ensures var hp' := hp.(node := hp.node[b := hp.node[b].(data := d)]);
      && Bucket(hp'.element[h], hp'.next, hp'.node, s, h, size, hp'.limit) && SameElsewhere(hp, hp', s)
      && forall key :: FindIn(hp'.node, s, key) == if key == hp.node[b].target then Some(d) else FindIn(hp.node, s, key)
  {
    hide Hash, FindIn, Chain;
    var node' := hp.node[b := hp.node[b].(data := d)];
    forall key ensures FindIn(node', s, key) == if key == hp.node[b].target then Some(d) else FindIn(hp.node, s, key) {
      DataAnswers(hp.node, s, h, size, hp.limit, b, d, key);
    }
    DataAnswers(hp.node, s, h, size, hp.limit, b, d, "");
  }

  /** The map has changed at one key if bucket h has. */
  lemma NewMap(hp: Heap, chains: seq<seq<Addr>>, hp': Heap, chains': seq<seq<Addr>>, h: nat, str: string, v: Option<int>)
    requires |chains| == |chains'| > h && Hash(str, |chains|) == h
    requires forall key :: Hash(key, |chains|) != h ==> Lookup(hp', chains', key) == Lookup(hp, chains, key)
    requires forall key :: FindIn(hp'.node, chains'[h], key) == if key == str then v else FindIn(hp.node, chains[h], key)
    ensures forall key :: Lookup(hp', chains', key) == if key == str then v else Lookup(hp, chains, key)
  {
    hide Hash, FindIn;
    forall key ensures Lookup(hp', chains', key) == if key == str then v else Lookup(hp, chains, key) {
      if Hash(key, |chains|) == h { assert FindIn(hp'.node, chains'[h], key) == if key == str then v else FindIn(hp.node, chains[h], key); }
    }
  }

  /** A hit: the counter goes up, and past twenty the entry moves to the head of its bucket. */
  method Touch(hp: Heap, h: nat, hptr: Addr, prev: Addr, ghost n: nat, ghost s: seq<Addr>, ghost size: nat)
      returns (hp': Heap, ghost s': seq<Addr>)
    requires h < |hp.element| && Bucket(hp.element[h], hp.next, hp.node, s, h, size, hp.limit)
    requires 1 <= n <= |s| && s[n - 1] == hptr && hptr in hp.node && hptr in hp.next
    requires prev == if n == 1 then hptr else s[n - 2]
    ensures |hp'.element| == |hp.element| && hp'.element == hp.element[h := hp'.element[h]] && hp'.limit == hp.limit
    ensures Bucket(hp'.element[h], hp'.next, hp'.node, s', h, size, hp'.limit) && |s'| == |s| && SameElsewhere(hp, hp', s)
    ensures forall key :: FindIn(hp'.node, s', key) == FindIn(hp.node, s, key)
  {
    hide Hash, FindIn, Filed, Chain, SameElsewhere;
    var c := hp.node[hptr].checks + 1;
    s' := s;
    SeekAt(hp, h, s, size, n - 1);
    if c > 20 && hptr != prev {
      assert n > 1;
      assert prev in s;
      ToFront(hp, h, s, size, n - 1, 0);
      s' := [hptr] + Without(s, hptr);
      hp' := hp.(next := hp.next[prev := hp.next[hptr]][hptr := hp.element[h]], element := hp.element[h := hptr],
                 node := hp.node[hptr := hp.node[hptr].(checks := 0)]);
      FrontCounts(hp.element[h], hp.next, s, hptr);
    } else {
      Counted(hp, h, s, size, hptr, c);
      hp' := hp.(node := hp.node[hptr := hp.node[hptr].(checks := c)]);
    }
    Elsewhere(hp, hp', s);
  }

  lemma EmptyTable(n: nat, hp: Heap, chains: seq<seq<Addr>>)
    requires n > 0 && PowerOfTwo(n) && |hp.element| == |chains| == n && hp.limit > NULL
    requires forall h :: 0 <= h < n ==> hp.element[h] == NULL && chains[h] == []
    ensures Table(hp, chains) && Total(chains) == 0 && Empties(chains) == n
    ensures forall key :: Lookup(hp, chains, key) == None
  {
    hide Hash;
    EmptyCounts(chains);
    forall key ensures Lookup(hp, chains, key) == None { assert chains[Hash(key, n)] == []; }
  }

  lemma {:induction false} EmptyCounts(chains: seq<seq<Addr>>)
    requires forall h :: 0 <= h < |chains| ==> chains[h] == []
    ensures Total(chains) == 0 && Empties(chains) == |chains|
  {
    if chains != [] { EmptyCounts(chains[1..]); }
  }

  lemma DataIsSome(hp: Heap, h: nat, s: seq<Addr>, size: nat, x: Addr)
    requires h < |hp.element| && Bucket(hp.element[h], hp.next, hp.node, s, h, size, hp.limit) && x in s
    ensures x in hp.node && hp.node[x].data != 0 && x < hp.limit
  {
  }

  lemma FrontCounts(head: Addr, next: map<Addr, Addr>, s: seq<Addr>, b: Addr)
    requires Chain(head, next, s) && b in s
    ensures |[b] + Without(s, b)| == |s|
  {
    ChainDistinct(head, next, s);
    WithoutDistinct(s, b);
  }

  /** Changes at addresses of one bucket are no changes elsewhere. */
  lemma Elsewhere(hp: Heap, hp': Heap, s: seq<Addr>)
    requires hp.limit <= hp'.limit
    requires forall x :: x !in s && x in hp.next && x < hp.limit ==> x in hp'.next && hp'.next[x] == hp.next[x]
    requires forall x :: x !in s && x in hp.node && x < hp.limit ==> x in hp'.node && hp'.node[x] == hp.node[x]
    ensures SameElsewhere(hp, hp', s)
  {
  }

  /** The map has not changed if bucket h answers as before and the others do. */
  lemma SameMap(hp: Heap, chains: seq<seq<Addr>>, hp': Heap, chains': seq<seq<Addr>>, h: nat)
    requires |chains| == |chains'| && h < |chains|
    requires forall key :: Hash(key, |chains|) != h ==> Lookup(hp', chains', key) == Lookup(hp, chains, key)
    requires forall key :: FindIn(hp'.node, chains'[h], key) == FindIn(hp.node, chains[h], key)
    ensures forall key :: Lookup(hp', chains', key) == Lookup(hp, chains, key)
  {
    hide Hash, FindIn;
    forall key ensures Lookup(hp', chains', key) == Lookup(hp, chains, key) {
      if Hash(key, |chains|) == h { assert FindIn(hp'.node, chains'[h], key) == FindIn(hp.node, chains[h], key); }
    }
  }
}
