module AttrArray {
  /*
   The attributes of one object in the MEMORY_BASED build of src/db.c: an array sorted by attribute number, searched by
   bisection, shifted in place on insertion and removal.
   */

  import opened Options

  const LBUF_SIZE := 8000

  datatype Entry = Entry(number: int, data: string)

  ghost predicate Sorted(s: seq<Entry>) { forall i, j :: 0 <= i < j < |s| ==> s[i].number < s[j].number }

  /** What a list of entries says about an attribute, by plain search */
  function Find(s: seq<Entry>, n: int): Option<string> {
    if s == [] then None else if s[0].number == n then Some(s[0].data) else Find(s[1..], n)
  }

  /** atr_add_raw keeps what fits into a buffer. */
  function Clipped(s: string): string { if |s| >= LBUF_SIZE then s[..LBUF_SIZE - 1] else s }

  lemma {:induction false} FindAppend(a: seq<Entry>, b: seq<Entry>, n: int)
    ensures Find(a + b, n) == if Find(a, n).Some? then Find(a, n) else Find(b, n)
  {
    if a == [] {
      assert a + b == b;
    } else {
      FindAppend(a[1..], b, n);
      assert (a + b)[0] == a[0] && (a + b)[1..] == a[1..] + b;
    }
  }

  lemma {:induction false} FindNone(s: seq<Entry>, n: int)
    requires forall i :: 0 <= i < |s| ==> s[i].number != n
    ensures Find(s, n) == None
  {
    if s != [] { FindNone(s[1..], n); }
  }

  /** In a sorted list the parts around index i hold other numbers. */
  lemma Around(s: seq<Entry>, i: nat, n: int)
    requires Sorted(s) && i < |s| && s[i].number == n
    ensures Find(s[..i], n) == None && Find(s[i + 1..], n) == None
    ensures s == s[..i] + [s[i]] + s[i + 1..]
  {
    FindNone(s[..i], n);
    FindNone(s[i + 1..], n);
  }

  lemma FindAt(s: seq<Entry>, i: nat)
    requires Sorted(s) && i < |s|
    ensures Find(s, s[i].number) == Some(s[i].data)
  {
    var n := s[i].number;
    Around(s, i, n);
    FindAppend(s[..i] + [s[i]], s[i + 1..], n);
    FindAppend(s[..i], [s[i]], n);
  }

  function Inserted(s: seq<Entry>, i: nat, e: Entry): seq<Entry>
    requires i <= |s|
  {
    s[..i] + [e] + s[i..]
  }

  function Removed(s: seq<Entry>, i: nat): seq<Entry>
    requires i < |s|
  {
    s[..i] + s[i + 1..]
  }

  /** Where a number that is missing belongs */
  ghost predicate Gap(s: seq<Entry>, i: nat, n: int) {
    i <= |s| && (forall k :: 0 <= k < i ==> s[k].number < n) && (forall k :: i <= k < |s| ==> s[k].number > n)
  }

  lemma InsertedSorted(s: seq<Entry>, i: nat, e: Entry)
    requires Sorted(s) && Gap(s, i, e.number)
    ensures Sorted(Inserted(s, i, e))
  {
    var r := Inserted(s, i, e);
    forall j, k | 0 <= j < k < |r| ensures r[j].number < r[k].number {
      assert r[j] == if j < i then s[j] else if j == i then e else s[j - 1];
      assert r[k] == if k < i then s[k] else if k == i then e else s[k - 1];
    }
  }

  lemma InsertedFinds(s: seq<Entry>, i: nat, e: Entry, n: int)
    requires Gap(s, i, e.number)
    ensures Find(Inserted(s, i, e), n) == if n == e.number then Some(e.data) else Find(s, n)
  {
    FindAppend(s[..i] + [e], s[i..], n);
    FindAppend(s[..i], [e], n);
    FindAppend(s[..i], s[i..], n);
    assert s == s[..i] + s[i..];
    if n == e.number { FindNone(s[..i], n); }
  }

  lemma UpdatedFinds(s: seq<Entry>, i: nat, data: string, n: int)
    requires Sorted(s) && i < |s|
    ensures Sorted(s[i := Entry(s[i].number, data)])
    ensures Find(s[i := Entry(s[i].number, data)], n) == if n == s[i].number then Some(data) else Find(s, n)
  {
    var m := s[i].number;
    var r := s[i := Entry(m, data)];
    Around(s, i, m);
    Around(r, i, m);
    FindAppend(s[..i] + [s[i]], s[i + 1..], n);
    FindAppend(s[..i], [s[i]], n);
    FindAppend(r[..i] + [r[i]], r[i + 1..], n);
    FindAppend(r[..i], [r[i]], n);
    assert r[..i] == s[..i] && r[i + 1..] == s[i + 1..];
  }

  lemma RemovedFinds(s: seq<Entry>, i: nat, n: int)
    requires Sorted(s) && i < |s|
    ensures Sorted(Removed(s, i))
    ensures Find(Removed(s, i), n) == if n == s[i].number then None else Find(s, n)
  {
    Around(s, i, s[i].number);
    FindAppend(s[..i] + [s[i]], s[i + 1..], n);
    FindAppend(s[..i], [s[i]], n);
    FindAppend(s[..i], s[i + 1..], n);
  }

  /** The bisection of atr_add_raw, atr_clr and atr_get_raw over the first `count` entries: the place of the number, or
      the gap it belongs into */
  method Bisect(list: array<Entry>, count: nat, atr: int) returns (found: bool, at: nat)
    requires count <= list.Length && Sorted(list[..count])
    ensures found ==> at < count && list[at].number == atr
    ensures !found ==> Gap(list[..count], at, atr)
  {
    var lo, hi := 0, count - 1;
    while lo <= hi
      invariant 0 <= lo <= hi + 1 <= count
      invariant forall k :: 0 <= k < lo ==> list[..count][k].number < atr
      invariant forall k :: hi < k < count ==> list[..count][k].number > atr
    {
      var mid := (hi - lo) / 2 + lo;
      if list[mid].number == atr { return true, mid; }
      if list[mid].number > atr {
        assert list[..count][mid].number > atr;
        hi := mid - 1;
      } else {
        assert list[..count][mid].number < atr;
        lo := mid + 1;
      }
    }
    return false, lo;
  }

  /** bcopy of the entries from lo on up by one, and the new entry in the gap */
  method Insert(list: array<Entry>, lo: nat, count: nat, e: Entry)
    requires lo <= count < list.Length
    modifies list
    ensures list[..count + 1] == Inserted(old(list[..count]), lo, e)
  {
    ghost var was := list[..count];
    var i := count;
    while i > lo
      invariant lo <= i <= count
      invariant forall k :: 0 <= k < i ==> list[k] == was[k]
      invariant forall k :: i < k <= count ==> list[k] == was[k - 1]
    {
      list[i] := list[i - 1];
      i := i - 1;
    }
    list[lo] := e;
    InsertedAt(was, list[..count + 1], lo, e);
  }

  lemma InsertedAt(s: seq<Entry>, r: seq<Entry>, i: nat, e: Entry)
    requires i <= |s| && |r| == |s| + 1 && r[i] == e
    requires (forall k :: 0 <= k < i ==> r[k] == s[k]) && forall k :: i < k < |r| ==> r[k] == s[k - 1]
    ensures r == Inserted(s, i, e)
  {
    assert r[..i] == s[..i] && r[i + 1..] == s[i..];
    assert r == r[..i] + [r[i]] + r[i + 1..];
  }

  /** bcopy of the entries behind mid down by one */
  method MoveDown(list: array<Entry>, mid: nat, count: nat)
    requires mid < count <= list.Length
    modifies list
    ensures list[..count - 1] == Removed(old(list[..count]), mid)
  {
    ghost var was := list[..count];
    var i := mid;
    while i < count - 1
      invariant mid <= i <= count - 1
      invariant forall k :: 0 <= k < mid ==> list[k] == was[k]
      invariant forall k :: mid <= k < i ==> list[k] == was[k + 1]
      invariant forall k :: i < k < count ==> list[k] == was[k]
    {
      list[i] := list[i + 1];
      i := i + 1;
    }
    RemovedAt(was, list[..count - 1], mid);
  }

  lemma RemovedAt(s: seq<Entry>, r: seq<Entry>, i: nat)
    requires i < |s| && |r| == |s| - 1
    requires (forall k :: 0 <= k < i ==> r[k] == s[k]) && forall k :: i <= k < |r| ==> r[k] == s[k + 1]
    ensures r == Removed(s, i)
  {
    assert r[..i] == s[..i] && r[i..] == s[i + 1..];
    assert r == r[..i] + r[i..];
  }

  /** Where a walk stands: a number and the index of the next one, or a null pointer was followed */
  datatype Head = NullFollowed | Number(number: int, next: nat)

  lemma OnlyOne(s: seq<Entry>, atr: int, text: string)
    requires Sorted(s) && forall n :: Find(s, n) == if n == atr then Some(text) else None
    ensures s == [Entry(atr, text)]
  {
    forall i | 0 <= i < |s| ensures s[i] == Entry(atr, text) { FindAt(s, i); }
    assert Find(s, atr) == Some(text);
    assert s != [];
    assert |s| >= 2 ==> s[0].number < s[1].number;
    assert |s| == 1;
  }

  class Attrs {
    var ahead: array?<Entry>
    var atCount: nat

    constructor ()
      ensures Valid() && Contents() == []
    {
      ahead, atCount := null, 0;
    }

    /** Without an array the count says nothing. */
    ghost function Contents(): seq<Entry>
      reads this, ahead
    {
      if ahead == null || atCount > ahead.Length then [] else ahead[..atCount]
    }

    ghost predicate Valid()
      reads this, ahead
    {
      (ahead != null ==> atCount <= ahead.Length) && Sorted(Contents())
    }

    /** atr_get_raw refines lookup. */
    method AtrGetRaw(atr: int) returns (r: Option<string>)
      requires Valid()
      ensures r == Find(Contents(), atr)
    {
      if ahead == null { return None; }
      var found, at := Bisect(ahead, atCount, atr);
      if found {
        FindAt(Contents(), at);
        return Some(ahead[at].data);
      }
      FindNone(Contents(), atr);
      return None;
    }

    /** atr_clr refines removal. */
    method AtrClr(atr: int)
      requires Valid()
      modifies this, ahead
      ensures Valid() && ahead == old(ahead)
      ensures forall n :: Find(Contents(), n) == if n == atr then None else Find(old(Contents()), n)
    {
      hide Find;
      ghost var was := Contents();
      if atCount == 0 || ahead == null {
        NothingThere(was);
        return;
      }
      var found, mid := Bisect(ahead, atCount, atr);
      if found {
        MoveDown(ahead, mid, atCount);
        atCount := atCount - 1;
        assert Contents() == Removed(was, mid);
        RemovedAll(was, mid);
      } else {
        FindNone(was, atr);
      }
    }

    /** atr_add_raw refines update; the empty text clears. */
    method AtrAddRaw(atr: int, buff: string)
      requires Valid()
      modifies this, ahead
      ensures Valid() && (ahead == old(ahead) || fresh(ahead))
      ensures buff == "" ==> forall n :: Find(Contents(), n) == if n == atr then None else Find(old(Contents()), n)
      ensures buff != "" ==> forall n :: Find(Contents(), n) == if n == atr then Some(Clipped(buff)) else Find(old(Contents()), n)
    {
      hide Find;
      if buff == "" {
        AtrClr(atr);
        return;
      }
      var text := Clipped(buff);
      ghost var was := Contents();
      var list;
      if ahead == null {
        list := new Entry[1](_ => Entry(atr, text));
        ahead, atCount := list, 1;
        assert Contents() == Inserted([], 0, Entry(atr, text));
        InsertedAll([], 0, Entry(atr, text));
        return;
      }
      var found, lo := Bisect(ahead, atCount, atr);
      if found {
        ahead[lo] := Entry(ahead[lo].number, text);
        assert Contents() == was[lo := Entry(was[lo].number, text)];
        UpdatedAll(was, lo, text);
      } else {
        list := Realloc(ahead, atCount);
        assert list[..atCount] == was;
        Insert(list, lo, atCount, Entry(atr, text));
        atCount := atCount + 1;
        ahead := list;
        assert Contents() == Inserted(was, lo, Entry(atr, text));
        InsertedAll(was, lo, Entry(atr, text));
      }
    }

    /** atr_free; the count is left as it was. */
    method AtrFree()
      modifies this
      ensures Valid() && Contents() == [] && ahead == null && atCount == old(atCount)
    {
      ahead := null;
    }

    /** atr_head: it follows the array whenever the count is positive, whether there is an array or not. */
    method AtrHead() returns (h: Head)
      requires Valid()
      ensures h == NullFollowed <==> atCount > 0 && ahead == null
      ensures h != NullFollowed ==> h == if Contents() == [] then Number(0, 0) else Number(Contents()[0].number, 1)
    {
      if atCount > 0 {
        if ahead == null { return NullFollowed; }
        return Number(ahead[0].number, 1);
      }
      return Number(0, 0);
    }

    /** atr_next: without changes in between, the numbers come in order and each once. */
    method AtrNext(next: nat) returns (h: Head)
      requires Valid()
      ensures h == NullFollowed <==> next < atCount && ahead == null
      ensures h != NullFollowed ==>
              h == if next >= |Contents()| then Number(0, next) else Number(Contents()[next].number, next + 1)
    {
      if next >= atCount { return Number(0, next); }
      if ahead == null { return NullFollowed; }
      return Number(ahead[next].number, next + 1);
    }

    /** A walk started right after atr_free follows the null pointer exactly if the object had attributes. */
    method WalkAfterFree() returns (h: Head)
      requires Valid()
      modifies this
      ensures h == if old(atCount) > 0 then NullFollowed else Number(0, 0)
      ensures old(ahead) != null ==> (h == NullFollowed <==> old(Contents()) != [])
    {
      AtrFree();
      h := AtrHead();
    }

    /** The next atr_add_raw with a text repairs the count. */
    method AddAfterFree(atr: int, buff: string) returns (h: Head)
      requires Valid() && buff != ""
      modifies this, ahead
      ensures h == Number(atr, 1) && Valid() && Contents() == [Entry(atr, Clipped(buff))]
    {
      AtrFree();
      NothingThere(Contents());
      hide Find;
      AtrAddRaw(atr, buff);
      OnlyOne(Contents(), atr, Clipped(buff));
      h := AtrHead();
    }
  }

  /** realloc to one entry more than are in use */
  method Realloc(old_: array<Entry>, count: nat) returns (list: array<Entry>)
    requires count <= old_.Length
    ensures fresh(list) && list.Length == count + 1 && list[..count] == old_[..count]
  {
    list := new Entry[count + 1](_ => Entry(0, ""));
    var i := 0;
    while i < count
      invariant 0 <= i <= count && list[..i] == old_[..i]
    {
      list[i] := old_[i];
      i := i + 1;
    }
  }

  lemma NothingThere(s: seq<Entry>)
    requires s == []
    ensures forall n :: Find(s, n) == None
  {
  }

  lemma InsertedAll(s: seq<Entry>, i: nat, e: Entry)
    requires Sorted(s) && Gap(s, i, e.number)
    ensures Sorted(Inserted(s, i, e))
    ensures forall n :: Find(Inserted(s, i, e), n) == if n == e.number then Some(e.data) else Find(s, n)
  {
    InsertedSorted(s, i, e);
    forall n ensures Find(Inserted(s, i, e), n) == if n == e.number then Some(e.data) else Find(s, n) { InsertedFinds(s, i, e, n); }
  }

  lemma UpdatedAll(s: seq<Entry>, i: nat, data: string)
    requires Sorted(s) && i < |s|
    ensures Sorted(s[i := Entry(s[i].number, data)])
    ensures forall n :: Find(s[i := Entry(s[i].number, data)], n) == if n == s[i].number then Some(data) else Find(s, n)
  {
    var r := s[i := Entry(s[i].number, data)];
    forall n ensures Find(r, n) == if n == s[i].number then Some(data) else Find(s, n) { UpdatedFinds(s, i, data, n); }
  }

  lemma RemovedAll(s: seq<Entry>, i: nat)
    requires Sorted(s) && i < |s|
    ensures Sorted(Removed(s, i))
    ensures forall n :: Find(Removed(s, i), n) == if n == s[i].number then None else Find(s, n)
  {
    forall n ensures Find(Removed(s, i), n) == if n == s[i].number then None else Find(s, n) { RemovedFinds(s, i, n); }
  }
}
