/**
 The buffer pools of src/alloc.c: buffers on a chain, free ones also on a free list and marked by a magic number in
 their first word.  Headers and footers are intact, and clients never store the magic number first.
 */
module BufferPool {
  import opened PointerLists

  const MAGIC := 0xdeadbeef

  /** Header fields and the first word of every buffer; addresses from `limit` on are unused. */
  datatype Heap = Heap(next: map<Addr, Addr>, nxtfree: map<Addr, Addr>, size: map<Addr, int>, word: map<Addr, int>, limit: Addr)

  ghost predicate Known(hp: Heap, s: seq<Addr>, size: int) {
    forall x :: x in s ==> x in hp.next && x in hp.nxtfree && x in hp.word && x in hp.size && hp.size[x] == size && x < hp.limit
  }

  /** The free list holds exactly the buffers of the chain that are marked as free. */
  ghost predicate Marked(hp: Heap, chain: seq<Addr>, free: seq<Addr>) {
    (forall x :: x in free ==> x in chain)
    && forall x :: x in chain && x in hp.word ==> (hp.word[x] == MAGIC <==> x in free)
  }

  ghost predicate Pooled(hp: Heap, chainHead: Addr, freeHead: Addr, chain: seq<Addr>, free: seq<Addr>, size: int) {
    && Chain(chainHead, hp.next, chain) && Chain(freeHead, hp.nxtfree, free)
    && Known(hp, chain, size) && Marked(hp, chain, free) && hp.limit > NULL
  }

  /** The buffers in the hands of clients */
  ghost function Live(chain: seq<Addr>, free: seq<Addr>): set<Addr> { set x | x in chain && x !in free }

  ghost function Elems(s: seq<Addr>): set<Addr> { set x | x in s }

  lemma {:induction false} SetSize(s: seq<Addr>)
    requires Distinct(s)
    ensures |Elems(s)| == |s|
  {
    if s == [] {
      assert Elems(s) == {};
    } else {
      DistinctTail(s);
      SetSize(s[1..]);
      assert Elems(s) == {s[0]} + Elems(s[1..]);
    }
  }

  lemma LiveSize(chain: seq<Addr>, free: seq<Addr>)
    requires Distinct(chain) && Distinct(free) && forall x :: x in free ==> x in chain
    ensures |Live(chain, free)| == |chain| - |free|
  {
    SetSize(chain);
    SetSize(free);
    assert Live(chain, free) == Elems(chain) - Elems(free) && Elems(free) <= Elems(chain);
  }

  lemma PooledDistinct(hp: Heap, chainHead: Addr, freeHead: Addr, chain: seq<Addr>, free: seq<Addr>, size: int)
    requires Pooled(hp, chainHead, freeHead, chain, free, size)
    ensures Distinct(chain) && Distinct(free) && |Live(chain, free)| == |chain| - |free| && hp.limit !in chain
    ensures forall x :: x in Live(chain, free) ==> x in hp.word && x != hp.limit
  {
    ChainDistinct(chainHead, hp.next, chain);
    ChainDistinct(freeHead, hp.nxtfree, free);
    LiveSize(chain, free);
  }

  lemma TailChain(head: Addr, next: map<Addr, Addr>, s: seq<Addr>)
    requires Chain(head, next, s) && s != []
    ensures head == s[0] && head != NULL && head in next && Chain(next[head], next, s[1..])
  {
    forall i | 0 <= i < |s[1..]| ensures s[1..][i] != NULL && s[1..][i] in next && next[s[1..][i]] == At(s[1..], i + 1) {
      assert s[1..][i] == s[i + 1];
    }
  }

  /** A new buffer at the head of the chain, in use */
  lemma PooledGrow(hp: Heap, chainHead: Addr, freeHead: Addr, chain: seq<Addr>, free: seq<Addr>, size: int, hp': Heap)
    requires Pooled(hp, chainHead, freeHead, chain, free, size)
    requires var b := hp.limit;
      hp' == Heap(hp.next[b := chainHead], hp.nxtfree[b := NULL], hp.size[b := size], hp.word[b := 0], b + 1)
    ensures Pooled(hp', hp.limit, freeHead, [hp.limit] + chain, free, size)
    ensures Live([hp.limit] + chain, free) == Live(chain, free) + {hp.limit}
  {
    ChainPush(chainHead, hp.next, chain, hp.limit);
    FreeKnown(hp, chainHead, freeHead, chain, free, size);
    ChainFrame(freeHead, hp.nxtfree, hp'.nxtfree, free);
  }

  lemma FreeKnown(hp: Heap, chainHead: Addr, freeHead: Addr, chain: seq<Addr>, free: seq<Addr>, size: int)
    requires Pooled(hp, chainHead, freeHead, chain, free, size)
    ensures forall x :: x in free ==> x in hp.nxtfree && x < hp.limit
  {
  }

  /** The first free buffer goes into use. */
  lemma PooledTake(hp: Heap, chainHead: Addr, freeHead: Addr, chain: seq<Addr>, free: seq<Addr>, size: int)
    requires Pooled(hp, chainHead, freeHead, chain, free, size) && free != []
    ensures freeHead == free[0] && freeHead in hp.word && freeHead in hp.nxtfree && freeHead !in Live(chain, free)
    ensures Pooled(hp.(word := hp.word[freeHead := 0]), chainHead, hp.nxtfree[freeHead], chain, free[1..], size)
    ensures Live(chain, free[1..]) == Live(chain, free) + {freeHead}
  {
    TailChain(freeHead, hp.nxtfree, free);
    ChainDistinct(freeHead, hp.nxtfree, free);
    DistinctTail(free);
  }

  /** A buffer in use becomes the first free one. */
  lemma PooledGive(hp: Heap, chainHead: Addr, freeHead: Addr, chain: seq<Addr>, free: seq<Addr>, size: int, b: Addr)
    requires Pooled(hp, chainHead, freeHead, chain, free, size) && b in Live(chain, free) && b in hp.word && b in hp.nxtfree
    ensures Pooled(hp.(word := hp.word[b := MAGIC], nxtfree := hp.nxtfree[b := freeHead]), chainHead, b, chain, [b] + free, size)
    ensures Live(chain, [b] + free) == Live(chain, free) - {b}
  {
    ChainMember(chainHead, hp.next, chain, b);
    ChainPush(freeHead, hp.nxtfree, free, b);
  }

  /** The buffers in use among s, in reverse */
  function KeptOf(word: map<Addr, int>, s: seq<Addr>): (r: seq<Addr>)
    ensures forall x :: x in r <==> x in s && !(x in word && word[x] == MAGIC)
  {
    if s == [] then []
    else
      var r := KeptOf(word, s[..|s| - 1]);
      var x := s[|s| - 1];
      assert s == s[..|s| - 1] + [x];
      if x in word && word[x] == MAGIC then r else [x] + r
  }

  class Pool {
    const poolSize: int
    var hp: Heap
    var freeHead: Addr
    var chainHead: Addr
    var totAlloc: int
    var numAlloc: int
    var maxAlloc: int
    ghost var chain: seq<Addr>
    ghost var free: seq<Addr>

    /** num_alloc counts the buffers in use, max_alloc the buffers of the chain. */
    ghost predicate Valid()
      reads this
    {
      && Pooled(hp, chainHead, freeHead, chain, free, poolSize)
      && numAlloc == |Live(chain, free)| && maxAlloc == |chain|
    }

    ghost function InUse(): set<Addr>
      reads this
    {
      Live(chain, free)
    }

    /** pool_init */
    constructor (poolsize: int)
      ensures Valid() && poolSize == poolsize && InUse() == {}
    {
      poolSize := poolsize;
      hp := Heap(map[], map[], map[], map[], 1);
      freeHead, chainHead, totAlloc, numAlloc, maxAlloc := NULL, NULL, 0, 0, 0;
      chain, free := [], [];
    }

    /** pool_alloc: a buffer that was not in use, new or from the free list */
    method Alloc() returns (b: Addr)
      requires Valid()
      modifies this
      ensures Valid() && b !in old(InUse()) && InUse() == old(InUse()) + {b} && hp.word[b] == 0
      ensures forall x :: x in old(InUse()) ==> x in hp.word && x in old(hp.word) && hp.word[x] == old(hp.word[x])
      ensures old(free) == [] ==> maxAlloc == old(maxAlloc) + 1
      ensures old(free) != [] ==> maxAlloc == old(maxAlloc) && b == old(free)[0]
    {
      hide Chain, Distinct, Known, Marked, Live;
      PooledDistinct(hp, chainHead, freeHead, chain, free, poolSize);
      FreeEnds(hp, freeHead, free);
      if freeHead == NULL {
        b := hp.limit;
        ghost var was := hp;
        hp := Heap(hp.next[b := chainHead], hp.nxtfree[b := NULL], hp.size[b := poolSize], hp.word[b := 0], b + 1);
        PooledGrow(was, chainHead, freeHead, chain, free, poolSize, hp);
        chainHead := b;
        maxAlloc := maxAlloc + 1;
        chain := [b] + chain;
      } else {
        b := freeHead;
        PooledTake(hp, chainHead, freeHead, chain, free, poolSize);
        freeHead := hp.nxtfree[b];
        hp := hp.(word := hp.word[b := 0]);
        free := free[1..];
      }
      totAlloc := totAlloc + 1;
      numAlloc := numAlloc + 1;
    }

    /** A client writes the first word of a buffer it holds. */
    method Store(b: Addr, w: int)
      requires Valid() && b in InUse() && w != MAGIC
      modifies this`hp
      ensures Valid() && InUse() == old(InUse()) && hp == old(hp).(word := old(hp.word)[b := w])
    {
      hp := hp.(word := hp.word[b := w]);
    }

    /** pool_free: a buffer of another size is left alone, and so is one that is free already. */
    method Free(b: Addr)
      requires Valid() && b in hp.size && (hp.size[b] == poolSize ==> b in chain)
      modifies this
      ensures Valid()
      ensures InUse() == old(InUse()) - {b} && chain == old(chain)
      ensures b !in old(InUse()) ==> hp == old(hp) && freeHead == old(freeHead) && free == old(free) && numAlloc == old(numAlloc)
      ensures b in old(InUse()) ==> free == [b] + old(free)
    {
      hide Chain, Distinct;
      if hp.size[b] != poolSize { return; }
      if hp.word[b] != MAGIC {
        PooledGive(hp, chainHead, freeHead, chain, free, poolSize, b);
        hp := hp.(word := hp.word[b := MAGIC], nxtfree := hp.nxtfree[b := freeHead]);
        freeHead := b;
        numAlloc := numAlloc - 1;
        free := [b] + free;
      }
    }

    /** pool_reset on this pool: exactly the buffers in use are kept. */
    method Reset()
      requires Valid()
      modifies this
      ensures Valid() && InUse() == old(InUse()) && Elems(chain) == InUse() && free == []
      ensures hp.word == old(hp.word) && maxAlloc == numAlloc == old(numAlloc)
    {
      hide Distinct, Chain, Known;
      PooledDistinct(hp, chainHead, freeHead, chain, free, poolSize);
      ghost var was, kept := hp, KeptOf(hp.word, chain);
      var newchain, next', nxtfree' := Sweep(hp, chainHead, chain, poolSize);
      SweptPool(was, chainHead, freeHead, chain, free, poolSize, newchain, next', nxtfree', kept);
      hp := hp.(next := next', nxtfree := nxtfree');
      chainHead, freeHead, maxAlloc := newchain, NULL, numAlloc;
      chain, free := kept, [];
    }
  }

  lemma FreeEnds(hp: Heap, freeHead: Addr, free: seq<Addr>)
    requires Chain(freeHead, hp.nxtfree, free)
    ensures freeHead == NULL <==> free == []
  {
  }

  /** The loop of pool_reset: the kept buffers are linked anew, last one first. */
  method Sweep(hp: Heap, chainHead: Addr, ghost chain: seq<Addr>, ghost size: int)
      returns (newchain: Addr, next: map<Addr, Addr>, nxtfree: map<Addr, Addr>)
    requires Chain(chainHead, hp.next, chain) && Known(hp, chain, size) && Distinct(chain)
    ensures Chain(newchain, next, KeptOf(hp.word, chain))
    ensures next.Keys == hp.next.Keys && nxtfree.Keys == hp.nxtfree.Keys
  {
    hide Chain, Distinct, KeptOf;
    newchain, next, nxtfree := NULL, hp.next, hp.nxtfree;
    var ph := chainHead;
    ghost var i := 0;
    SweepStart(hp, chainHead, chain);
    while ph != NULL
      invariant 0 <= i <= |chain| && Swept(hp, next, chain, i, ph, newchain)
      invariant next.Keys == hp.next.Keys && nxtfree.Keys == hp.nxtfree.Keys
      decreases |chain| - i
    {
      SweepTurn(hp, next, chain, i, ph, newchain, size);
      var phnext := next[ph];
      if hp.word[ph] != MAGIC {
        next := next[ph := newchain];
        newchain := ph;
        nxtfree := nxtfree[ph := NULL];
      }
      ph := phnext;
      i := i + 1;
    }
    SweepEnd(hp, next, chain, i, newchain);
  }

  /** The first i buffers have been treated; ph is the next one. */
  ghost predicate Swept(hp: Heap, next: map<Addr, Addr>, chain: seq<Addr>, i: nat, ph: Addr, newchain: Addr) {
    i <= |chain| && Chain(ph, next, chain[i..]) && Chain(newchain, next, KeptOf(hp.word, chain[..i]))
  }

  lemma SweepStart(hp: Heap, chainHead: Addr, chain: seq<Addr>)
    requires Chain(chainHead, hp.next, chain)
    ensures Swept(hp, hp.next, chain, 0, chainHead, NULL)
  {
    assert chain[0..] == chain && KeptOf(hp.word, chain[..0]) == [];
  }

  lemma SweepEnd(hp: Heap, next: map<Addr, Addr>, chain: seq<Addr>, i: nat, newchain: Addr)
    requires Swept(hp, next, chain, i, NULL, newchain)
    ensures Chain(newchain, next, KeptOf(hp.word, chain))
  {
    assert chain[i..] == [] by { FreeEnds(hp.(nxtfree := next), NULL, chain[i..]); }
    assert chain[..i] == chain;
  }

  lemma SweepTurn(hp: Heap, next: map<Addr, Addr>, chain: seq<Addr>, i: nat, ph: Addr, newchain: Addr, size: int)
    requires Swept(hp, next, chain, i, ph, newchain) && ph != NULL && Known(hp, chain, size) && Distinct(chain)
    requires next.Keys == hp.next.Keys
    ensures i < |chain| && ph in next && ph in hp.word && ph in hp.nxtfree
    ensures hp.word[ph] != MAGIC ==> Swept(hp, next[ph := newchain], chain, i + 1, next[ph], ph)
    ensures hp.word[ph] == MAGIC ==> Swept(hp, next, chain, i + 1, next[ph], newchain)
  {
    hide Chain, KeptOf, Distinct;
    var rest := chain[i..];
    FreeEnds(hp.(nxtfree := next), ph, rest);
    TailChain(ph, next, rest);
    assert rest[0] == chain[i] && rest[1..] == chain[i + 1..] && ph in chain;
    KeptMore(hp.word, chain, i);
    NotAgain(chain, i);
    var kept := KeptOf(hp.word, chain[..i]);
    KeptMembers(hp.word, chain[..i]);
    if hp.word[ph] != MAGIC {
      ChainPush(newchain, next, kept, ph);
      MembersIn(next[ph], next, rest[1..]);
      ChainFrame(next[ph], next, next[ph := newchain], rest[1..]);
    }
  }

  lemma MembersIn(head: Addr, next: map<Addr, Addr>, s: seq<Addr>)
    requires Chain(head, next, s)
    ensures forall x :: x in s ==> x in next
  {
  }

  lemma KeptMembers(word: map<Addr, int>, s: seq<Addr>)
    ensures forall x :: x in KeptOf(word, s) ==> x in s
  {
  }

  lemma KeptMore(word: map<Addr, int>, chain: seq<Addr>, i: nat)
    requires i < |chain|
    ensures KeptOf(word, chain[..i + 1]) ==
      if chain[i] in word && word[chain[i]] == MAGIC then KeptOf(word, chain[..i]) else [chain[i]] + KeptOf(word, chain[..i])
  {
    assert chain[..i + 1][..i] == chain[..i] && chain[..i + 1][i] == chain[i];
  }

  lemma NotAgain(chain: seq<Addr>, i: nat)
    requires Distinct(chain) && i < |chain|
    ensures chain[i] !in chain[..i] && chain[i] !in chain[i + 1..]
  {
  }

  /** After the sweep the chain holds exactly the buffers in use. */
  lemma SweptPool(hp: Heap, chainHead: Addr, freeHead: Addr, chain: seq<Addr>, free: seq<Addr>, size: int, newchain: Addr,
      next: map<Addr, Addr>, nxtfree: map<Addr, Addr>, kept: seq<Addr>)
    requires Pooled(hp, chainHead, freeHead, chain, free, size) && kept == KeptOf(hp.word, chain)
    requires Chain(newchain, next, kept) && next.Keys == hp.next.Keys && nxtfree.Keys == hp.nxtfree.Keys
    ensures Pooled(hp.(next := next, nxtfree := nxtfree), newchain, NULL, kept, [], size)
    ensures Live(kept, []) == Live(chain, free) == Elems(kept) && |Live(kept, [])| == |kept|
  {
    ChainDistinct(newchain, next, kept);
    SetSize(kept);
    assert Live(kept, []) == Elems(kept);
  }
}
