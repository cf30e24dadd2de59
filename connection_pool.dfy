/**
 * The connection pool of server/scas_connection.c: connection records
 * threaded on two circular doubly-linked lists, the free list and the
 * live list, each headed by a static anchor record.  Records are slots:
 * slot 0 is the free-list anchor, slot 1 the live-list anchor, and a link
 * is a slot number or NULL.  The free list is refilled a slab at a time
 * and never shrinks.
 */
module ConnectionPool {
  import opened Wrappers
  import opened Connection
  import opened LinearAllocator

  const NULL: int := -1
  /** `free_list_anchor`. */
  const FREE: nat := 0
  /** `live_list_anchor`. */
  const LIVE: nat := 1
  const POOL_REALLOCATION_DELTA: nat := 16

  /** The `next` and `prev` fields of every record. */
  datatype Links = Links(next: seq<int>, prev: seq<int>)

  ghost predicate Distinct(s: seq<nat>) {
    forall i, j :: 0 <= i < j < |s| ==> s[i] != s[j]
  }

  /**
   * `list` is the circular list headed by `anchor`, in `next` order: the
   * anchor's `next` is its first record and its `prev` the last, and each
   * record links to its neighbours, the ends to the anchor.
   */
  ghost predicate Ring(l: Links, anchor: nat, list: seq<nat>) {
    && |l.next| == |l.prev| && anchor < |l.next|
    && anchor !in list && Distinct(list)
    && (forall k :: 0 <= k < |list| ==> list[k] < |l.next|)
    && l.next[anchor] == (if list == [] then anchor else list[0])
    && l.prev[anchor] == (if list == [] then anchor else list[|list| - 1])
    && (forall k :: 0 <= k < |list| ==> l.next[list[k]] == if k + 1 < |list| then list[k + 1] else anchor)
    && (forall k :: 0 <= k < |list| ==> l.prev[list[k]] == if k == 0 then anchor else list[k - 1])
  }

  /**
   * `scas_connection_list_add`: links `c` in right after `anchor`.  Only
   * the links of `c`, the anchor and the anchor's old successor change.
   */
  function AddLinks(l: Links, anchor: nat, c: nat): (r: Links)
    requires |l.next| == |l.prev| && anchor < |l.next| && c < |l.next|
    requires 0 <= l.next[anchor] < |l.next|
    ensures |r.next| == |r.prev| == |l.next|
    ensures r.next[anchor] == c && r.prev[l.next[anchor]] == c
    ensures c != anchor ==> r.next[c] == l.next[anchor]
    ensures c != l.next[anchor] ==> r.prev[c] == anchor
    ensures forall x :: 0 <= x < |l.next| && x != c && x != anchor ==> r.next[x] == l.next[x]
    ensures forall x :: 0 <= x < |l.next| && x != c && x != l.next[anchor] ==> r.prev[x] == l.prev[x]
  {
    var n0 := l.next[anchor];
    var next1 := l.next[c := n0];
    var prev1 := l.prev[c := anchor];
    var prev2 := prev1[n0 := c];
    var next2 := next1[anchor := c];
    Links(next2, prev2)
  }

  /**
   * `scas_connection_list_remove`: unlinks `c` from its neighbours and
   * clears its links.  Only the links of `c` and its two neighbours change.
   */
  function RemoveLinks(l: Links, c: nat): (r: Links)
    requires |l.next| == |l.prev| && c < |l.next|
    requires l.next[c] == NULL || 0 <= l.next[c] < |l.next|
    requires l.prev[c] == NULL || 0 <= l.prev[c] < |l.next|
    ensures |r.next| == |r.prev| == |l.next|
    ensures r.next[c] == NULL && r.prev[c] == NULL
    ensures l.prev[c] != NULL && l.prev[c] != c ==> r.next[l.prev[c]] == l.next[c]
    ensures l.next[c] != NULL && l.next[c] != c ==> r.prev[l.next[c]] == l.prev[c]
    ensures forall x :: 0 <= x < |l.next| && x != c && x != l.prev[c] ==> r.next[x] == l.next[x]
    ensures forall x :: 0 <= x < |l.next| && x != c && x != l.next[c] ==> r.prev[x] == l.prev[x]
  {
    var nx := l.next[c];
    var pv := l.prev[c];
    var prev1 := if nx != NULL then l.prev[nx := pv] else l.prev;
    var next1 := if pv != NULL then l.next[pv := nx] else l.next;
    Links(next1[c := NULL], prev1[c := NULL])
  }

  /** The record after position `k` of a ring. */
  lemma RingNext(l: Links, anchor: nat, list: seq<nat>, k: nat)
    requires Ring(l, anchor, list) && k < |list|
    ensures l.next[list[k]] == if k + 1 < |list| then list[k + 1] else anchor
  {
  }

  /** A ring only depends on the links of its own records. */
  lemma RingFrame(l: Links, l': Links, anchor: nat, list: seq<nat>)
    requires Ring(l, anchor, list)
    requires |l'.next| == |l'.prev| >= |l.next|
    requires l'.next[anchor] == l.next[anchor] && l'.prev[anchor] == l.prev[anchor]
    requires forall k :: 0 <= k < |list| ==> l'.next[list[k]] == l.next[list[k]] && l'.prev[list[k]] == l.prev[list[k]]
    ensures Ring(l', anchor, list)
  {
  }

  /** Appending unlinked records leaves a ring as it was. */
  lemma RingGrow(l: Links, anchor: nat, list: seq<nat>, n: nat)
    requires Ring(l, anchor, list)
    ensures Ring(Links(l.next + seq(n, _ => NULL), l.prev + seq(n, _ => NULL)), anchor, list)
  {
    RingFrame(l, Links(l.next + seq(n, _ => NULL), l.prev + seq(n, _ => NULL)), anchor, list);
  }

  /** The links of the record at position `k` > 0 of the lengthened ring. */
  lemma InsertedLinksAt(l: Links, anchor: nat, list: seq<nat>, c: nat, k: nat)
    requires Ring(l, anchor, list) && c < |l.next| && c != anchor && c !in list
    requires 1 <= k <= |list|
    ensures 0 <= l.next[anchor] < |l.next|
    ensures var r := AddLinks(l, anchor, c); var list' := [c] + list;
            && r.next[list'[k]] == (if k + 1 < |list'| then list'[k + 1] else anchor)
            && r.prev[list'[k]] == list'[k - 1]
  {
    var list' := [c] + list;
    assert list'[k] == list[k - 1];
    assert list[k - 1] in list;
    assert l.next[list[k - 1]] == (if k < |list| then list[k] else anchor);
    assert l.prev[list[k - 1]] == (if k == 1 then anchor else list[k - 2]);
    if k + 1 < |list'| {
      assert list'[k + 1] == list[k];
    }
    if k > 1 {
      assert list[k - 1] != list[0];
      assert list'[k - 1] == list[k - 2];
    }
    if list != [] {
      assert list[0] in list;
    }
  }

  /** Adding a record that is on no list puts it at the head of the anchor's list. */
  lemma AddToRing(l: Links, anchor: nat, list: seq<nat>, c: nat)
    requires Ring(l, anchor, list) && c < |l.next| && c != anchor && c !in list
    ensures 0 <= l.next[anchor] < |l.next|
    ensures Ring(AddLinks(l, anchor, c), anchor, [c] + list)
  {
    var r := AddLinks(l, anchor, c);
    var list' := [c] + list;
    if list != [] {
      assert list[0] in list;
    }
    forall k | 0 <= k < |list'|
      ensures r.next[list'[k]] == if k + 1 < |list'| then list'[k + 1] else anchor
      ensures r.prev[list'[k]] == if k == 0 then anchor else list'[k - 1]
    {
      if k == 0 {
        assert r.next[c] == l.next[anchor];
        if list == [] {
          assert r.prev[c] == anchor;
        } else {
          assert list'[1] == list[0];
          assert r.prev[c] == anchor;
        }
      } else {
        InsertedLinksAt(l, anchor, list, c, k);
      }
    }
    assert Distinct(list') by {
      forall a, b | 0 <= a < b < |list'| ensures list'[a] != list'[b] {
        assert list'[b] == list[b - 1];
        if a > 0 { assert list'[a] == list[a - 1]; }
        else { assert list[b - 1] in list; }
      }
    }
    assert anchor !in list';
    assert Ring(r, anchor, list');
  }

  /** Adding to one ring leaves a disjoint ring as it was. */
  lemma AddKeepsRing(l: Links, anchor: nat, list: seq<nat>, c: nat, other: nat, otherList: seq<nat>)
    requires Ring(l, anchor, list) && Ring(l, other, otherList) && c < |l.next|
    requires c != other && c !in otherList && anchor != other && anchor !in otherList
    requires forall x :: x in list ==> x != other && x !in otherList
    ensures 0 <= l.next[anchor] < |l.next|
    ensures Ring(AddLinks(l, anchor, c), other, otherList)
  {
    var r := AddLinks(l, anchor, c);
    if list != [] {
      assert list[0] in list;
    }
    forall k | 0 <= k < |otherList|
      ensures r.next[otherList[k]] == l.next[otherList[k]] && r.prev[otherList[k]] == l.prev[otherList[k]]
    {
      assert otherList[k] in otherList;
    }
    RingFrame(l, r, other, otherList);
  }

  /** `list` without its element at `j`. */
  function Drop(list: seq<nat>, j: nat): (r: seq<nat>)
    requires j < |list|
    ensures |r| == |list| - 1
    ensures forall k :: 0 <= k < j ==> r[k] == list[k]
    ensures forall k :: j <= k < |r| ==> r[k] == list[k + 1]
  {
    list[..j] + list[j + 1..]
  }

  /** Dropping an element of a list without repeats leaves a list without it or repeats. */
  lemma DropDistinct(list: seq<nat>, j: nat)
    requires Distinct(list) && j < |list|
    ensures Distinct(Drop(list, j)) && list[j] !in Drop(list, j)
    ensures forall x :: x in Drop(list, j) ==> x in list
  {
    var d := Drop(list, j);
    forall a, b | 0 <= a < b < |d| ensures d[a] != d[b] {
      var a' := if a < j then a else a + 1;
      var b' := if b < j then b else b + 1;
      assert d[a] == list[a'] && d[b] == list[b'];
    }
    forall k | 0 <= k < |d| ensures d[k] != list[j] && d[k] in list {
      var k' := if k < j then k else k + 1;
      assert d[k] == list[k'];
    }
  }

  /** The links of the record at position `k` of the shortened ring. */
  lemma RemoveLinksAt(l: Links, anchor: nat, list: seq<nat>, j: nat, k: nat)
    requires Ring(l, anchor, list) && j < |list| && k < |list| - 1
    ensures l.next[list[j]] == NULL || 0 <= l.next[list[j]] < |l.next|
    ensures l.prev[list[j]] == NULL || 0 <= l.prev[list[j]] < |l.next|
    ensures var r := RemoveLinks(l, list[j]); var d := Drop(list, j);
            && r.next[d[k]] == (if k + 1 < |d| then d[k + 1] else anchor)
            && r.prev[d[k]] == (if k == 0 then anchor else d[k - 1])
  {
    var c := list[j];
    var d := Drop(list, j);
    assert l.next[c] == (if j + 1 < |list| then list[j + 1] else anchor);
    assert l.prev[c] == (if j == 0 then anchor else list[j - 1]);
    var k' := if k < j then k else k + 1;
    assert l.next[list[k']] == (if k' + 1 < |list| then list[k' + 1] else anchor);
    assert l.prev[list[k']] == (if k' == 0 then anchor else list[k' - 1]);
    assert d[k] == list[k'] && k' != j;
    assert list[k'] != c;
    assert list[k'] != anchor by { assert list[k'] in list; }
    var r := RemoveLinks(l, c);
    if k' + 1 == j {
      assert l.prev[c] == list[k'];
      assert r.next[list[k']] == l.next[c];
    } else {
      assert list[k'] != l.prev[c] by {
        if j > 0 { assert list[k'] != list[j - 1]; }
      }
      assert r.next[list[k']] == l.next[list[k']];
    }
    if k' == j + 1 {
      assert l.next[c] == list[k'];
      assert r.prev[list[k']] == l.prev[c];
    } else {
      assert list[k'] != l.next[c] by {
        if j + 1 < |list| { assert list[k'] != list[j + 1]; }
      }
      assert r.prev[list[k']] == l.prev[list[k']];
    }
  }

  /** Removing the record at position `j` closes the gap in its ring. */
  lemma RemoveFromRing(l: Links, anchor: nat, list: seq<nat>, j: nat)
    requires Ring(l, anchor, list) && j < |list|
    ensures l.next[list[j]] == NULL || 0 <= l.next[list[j]] < |l.next|
    ensures l.prev[list[j]] == NULL || 0 <= l.prev[list[j]] < |l.next|
    ensures Ring(RemoveLinks(l, list[j]), anchor, Drop(list, j))
  {
    var c := list[j];
    var d := Drop(list, j);
    DropDistinct(list, j);
    assert anchor != c by { assert list[j] in list; }
    assert l.next[c] == (if j + 1 < |list| then list[j + 1] else anchor);
    assert l.prev[c] == (if j == 0 then anchor else list[j - 1]);
    var r := RemoveLinks(l, c);
    forall k | 0 <= k < |d|
      ensures r.next[d[k]] == (if k + 1 < |d| then d[k + 1] else anchor)
      ensures r.prev[d[k]] == (if k == 0 then anchor else d[k - 1])
    {
      RemoveLinksAt(l, anchor, list, j, k);
    }
    if j == 0 {
      assert l.prev[c] == anchor;
    } else {
      assert l.prev[c] != anchor by { assert list[j - 1] in list; }
    }
    if j + 1 == |list| {
      assert l.next[c] == anchor;
    } else {
      assert l.next[c] != anchor by { assert list[j + 1] in list; }
    }
    assert anchor !in d && Distinct(d);
    assert Ring(r, anchor, d);
  }

  /** Removing from one ring leaves a disjoint ring as it was. */
  lemma RemoveKeepsRing(l: Links, anchor: nat, list: seq<nat>, j: nat, other: nat, otherList: seq<nat>)
    requires Ring(l, anchor, list) && Ring(l, other, otherList) && j < |list|
    requires anchor != other && anchor !in otherList
    requires forall x :: x in list ==> x != other && x !in otherList
    ensures l.next[list[j]] == NULL || 0 <= l.next[list[j]] < |l.next|
    ensures l.prev[list[j]] == NULL || 0 <= l.prev[list[j]] < |l.next|
    ensures Ring(RemoveLinks(l, list[j]), other, otherList)
  {
    assert list[j] in list;
    if j + 1 < |list| { assert list[j + 1] in list; }
    if j > 0 { assert list[j - 1] in list; }
    assert l.next[list[j]] == (if j + 1 < |list| then list[j + 1] else anchor);
    assert l.prev[list[j]] == (if j == 0 then anchor else list[j - 1]);
    var r := RemoveLinks(l, list[j]);
    forall k | 0 <= k < |otherList|
      ensures r.next[otherList[k]] == l.next[otherList[k]] && r.prev[otherList[k]] == l.prev[otherList[k]]
    {
      assert otherList[k] in otherList;
    }
    RingFrame(l, r, other, otherList);
  }

  /** `scas_connection_list_is_empty` answers whether the ring has no records. */
  lemma IsEmptyIff(l: Links, anchor: nat, list: seq<nat>)
    requires Ring(l, anchor, list)
    ensures (l.next[anchor] == anchor && l.prev[anchor] == anchor) <==> list == []
  {
    if list != [] {
      assert list[0] in list;
    }
  }

  /** The first position of `list` whose record has descriptor `fd`. */
  function FirstWithFd(list: seq<nat>, fds: seq<int>, fd: int): (r: Option<nat>)
    requires forall k :: 0 <= k < |list| ==> list[k] < |fds|
    ensures r.Some? ==>
              && r.value < |list| && fds[list[r.value]] == fd
              && forall m :: 0 <= m < r.value ==> fds[list[m]] != fd
    ensures r.None? ==> forall m :: 0 <= m < |list| ==> fds[list[m]] != fd
  {
    if list == [] then None
    else if fds[list[0]] == fd then Some(0)
    else match FirstWithFd(list[1..], fds, fd)
      case None => None
      case Some(k) => Some(k + 1)
  }

  /** The records the pool owns and the two lists through them. */
  class Pool {
    var next: seq<int>
    var prev: seq<int>
    var fds: seq<int>
    var conns: seq<Connection>
    ghost var freeList: seq<nat>
    ghost var liveList: seq<nat>

    function Linkage(): Links
      reads this
    {
      Links(next, prev)
    }

    /** Both rings well formed and disjoint. */
    ghost predicate Lists()
      reads this
    {
      && |next| == |prev| == |fds| == |conns| >= 2
      && Ring(Linkage(), FREE, freeList) && Ring(Linkage(), LIVE, liveList)
      && LIVE !in freeList && FREE !in liveList
      && (forall x :: x in freeList ==> x !in liveList)
    }

    ghost predicate Valid()
      reads this
    {
      Lists() && fds[FREE] == 0 && fds[LIVE] == 0
    }

    /** The zeroed static anchors before `scas_connection_initialize`. */
    constructor ()
      ensures next == [NULL, NULL] && prev == [NULL, NULL] && fds == [0, 0] && |conns| == 2
    {
      var a := new Connection();
      var b := new Connection();
      next, prev, fds, conns := [NULL, NULL], [NULL, NULL], [0, 0], [a, b];
      freeList, liveList := [], [];
    }

    /** `scas_connection_initialize`: both lists empty. */
    method Initialize()
      requires |next| == |prev| == |fds| == |conns| == 2 && fds == [0, 0]
      modifies this
      ensures Valid() && freeList == [] && liveList == []
      ensures fds == old(fds) && conns == old(conns)
    {
      next := next[FREE := FREE][LIVE := LIVE];
      prev := prev[FREE := FREE][LIVE := LIVE];
      freeList, liveList := [], [];
    }

    method ListAdd(anchor: nat, c: nat)
      requires |next| == |prev| && anchor < |next| && c < |next| && anchor != c
      requires 0 <= next[anchor] < |next|
      modifies this
      ensures Linkage() == AddLinks(old(Linkage()), anchor, c)
      ensures fds == old(fds) && conns == old(conns) && freeList == old(freeList) && liveList == old(liveList)
    {
      var n0 := next[anchor];
      next := next[c := n0];
      prev := prev[c := anchor];
      prev := prev[n0 := c];
      next := next[anchor := c];
    }

    method ListRemove(c: nat)
      requires |next| == |prev| && c < |next|
      requires next[c] == NULL || 0 <= next[c] < |next|
      requires prev[c] == NULL || 0 <= prev[c] < |next|
      modifies this
      ensures Linkage() == RemoveLinks(old(Linkage()), c)
      ensures fds == old(fds) && conns == old(conns) && freeList == old(freeList) && liveList == old(liveList)
    {
      var nx := next[c];
      var pv := prev[c];
      if nx != NULL {
        prev := prev[nx := pv];
      }
      if pv != NULL {
        next := next[pv := nx];
      }
      next := next[c := NULL];
      prev := prev[c := NULL];
    }

    method IsEmpty(anchor: nat) returns (r: bool)
      requires Lists() && (anchor == FREE || anchor == LIVE)
      ensures r <==> (if anchor == FREE then freeList else liveList) == []
    {
      IsEmptyIff(Linkage(), anchor, if anchor == FREE then freeList else liveList);
      r := next[anchor] == anchor && prev[anchor] == anchor;
    }

    /** `scas_connection_list_add(anchor, c)` for a record on no list. */
    method Push(anchor: nat, c: nat)
      requires Lists() && (anchor == FREE || anchor == LIVE)
      requires c < |next| && c != FREE && c != LIVE && c !in freeList && c !in liveList
      modifies this
      ensures Lists() && fds == old(fds) && conns == old(conns)
      ensures anchor == FREE ==> freeList == [c] + old(freeList) && liveList == old(liveList)
      ensures anchor == LIVE ==> liveList == [c] + old(liveList) && freeList == old(freeList)
    {
      if anchor == FREE {
        AddKeepsRing(Linkage(), FREE, freeList, c, LIVE, liveList);
        AddToRing(Linkage(), FREE, freeList, c);
        ListAdd(FREE, c);
        freeList := [c] + freeList;
      } else {
        AddKeepsRing(Linkage(), LIVE, liveList, c, FREE, freeList);
        AddToRing(Linkage(), LIVE, liveList, c);
        ListAdd(LIVE, c);
        liveList := [c] + liveList;
      }
    }

    /** The records of a `calloc`ed slab: sixteen fresh, zeroed connections. */
    static method NewSlab() returns (slab: seq<Connection>)
      ensures |slab| == POOL_REALLOCATION_DELTA
      ensures forall k :: 0 <= k < |slab| ==> fresh(slab[k]) && slab[k].Zeroed()
    {
      slab := [];
      while |slab| < POOL_REALLOCATION_DELTA
        invariant |slab| <= POOL_REALLOCATION_DELTA
        invariant forall k :: 0 <= k < |slab| ==> fresh(slab[k]) && slab[k].Zeroed()
      {
        var record := new Connection();
        slab := slab + [record];
      }
    }

    /** The `calloc` of a slab: sixteen zeroed records, on no list. */
    method Extend()
      requires Lists()
      modifies this
      ensures Lists() && freeList == old(freeList) && liveList == old(liveList)
      ensures next == old(next) + seq(POOL_REALLOCATION_DELTA, _ => NULL)
      ensures prev == old(prev) + seq(POOL_REALLOCATION_DELTA, _ => NULL)
      ensures fds == old(fds) + seq(POOL_REALLOCATION_DELTA, _ => 0)
      ensures |conns| == |old(conns)| + POOL_REALLOCATION_DELTA && conns[..|old(conns)|] == old(conns)
      ensures forall k :: |old(conns)| <= k < |conns| ==> fresh(conns[k]) && conns[k].Zeroed()
    {
      var slab := NewSlab();
      RingGrow(Linkage(), FREE, freeList, POOL_REALLOCATION_DELTA);
      RingGrow(Linkage(), LIVE, liveList, POOL_REALLOCATION_DELTA);
      next := next + seq(POOL_REALLOCATION_DELTA, _ => NULL);
      prev := prev + seq(POOL_REALLOCATION_DELTA, _ => NULL);
      fds := fds + seq(POOL_REALLOCATION_DELTA, _ => 0);
      conns := conns + slab;
      assert conns[..|old(conns)|] == old(conns);
    }

    /** The refill of `scas_connection_allocate`: a slab, each record pushed on the free list in turn. */
    method Refill()
      requires Valid() && freeList == []
      modifies this
      ensures Valid() && liveList == old(liveList)
      ensures |next| == |old(next)| + POOL_REALLOCATION_DELTA
      ensures freeList == seq(POOL_REALLOCATION_DELTA, k => |old(next)| + POOL_REALLOCATION_DELTA - 1 - k)
      ensures fds == old(fds) + seq(POOL_REALLOCATION_DELTA, _ => 0)
      ensures |conns| == |old(conns)| + POOL_REALLOCATION_DELTA && conns[..|old(conns)|] == old(conns)
      ensures forall k :: |old(conns)| <= k < |conns| ==> fresh(conns[k]) && conns[k].Zeroed()
    {
      var base := |next|;
      Extend();
      assert forall k :: 0 <= k < |liveList| ==> liveList[k] < base by {
        forall k | 0 <= k < |liveList| ensures liveList[k] < base {
          assert liveList[k] in old(liveList);
        }
      }
      PushSlab(base);
    }

    /** The loop of `scas_connection_allocate` that puts a new slab's slots on the free list, lowest first. */
    method PushSlab(base: nat)
      requires Lists() && freeList == [] && 2 <= base && |next| == base + POOL_REALLOCATION_DELTA
      requires forall k :: 0 <= k < |liveList| ==> liveList[k] < base
      modifies this
      ensures Lists() && liveList == old(liveList) && fds == old(fds) && conns == old(conns)
      ensures |next| == |old(next)|
      ensures freeList == seq(POOL_REALLOCATION_DELTA, k => base + POOL_REALLOCATION_DELTA - 1 - k)
    {
      var i := 0;
      while i < POOL_REALLOCATION_DELTA
        invariant 0 <= i <= POOL_REALLOCATION_DELTA
        invariant Lists() && |next| == base + POOL_REALLOCATION_DELTA
        invariant freeList == seq(i, k => base + i - 1 - k)
        invariant liveList == old(liveList) && fds == old(fds) && conns == old(conns)
        modifies this
      {
        assert base + i !in liveList;
        Countdown(base, i);
        Push(FREE, base + i);
        i := i + 1;
      }
    }

    /** Taking the head of a countdown of slots leaves the countdown below it. */
    static lemma CountdownTail(base: nat, n: nat)
      requires n > 0
      ensures seq(n, k => base + n - 1 - k)[1..] == seq(n - 1, k => base + n - 2 - k)
    {
    }

    /** Pushing the next slot onto a countdown of slots extends the countdown. */
    static lemma Countdown(base: nat, i: nat)
      ensures base + i !in seq(i, k => base + i - 1 - k)
      ensures [base + i] + seq(i, k => base + i - 1 - k) == seq(i + 1, k => base + i - k)
    {
      var s := seq(i, k => base + i - 1 - k);
      forall k | 0 <= k < i ensures s[k] < base + i { }
    }

    /** The take of `scas_connection_allocate`: the first free record leaves the free list. */
    method TakeFree() returns (c: nat)
      requires Lists() && freeList != []
      modifies this
      ensures Lists() && fds == old(fds) && conns == old(conns) && |next| == |old(next)|
      ensures c == old(freeList)[0] && freeList == old(freeList)[1..] && liveList == old(liveList)
      ensures c < |next| && c != FREE && c != LIVE && c !in freeList && c !in liveList
      ensures next[c] == NULL && prev[c] == NULL
    {
      c := next[FREE];
      RemoveKeepsRing(Linkage(), FREE, freeList, 0, LIVE, liveList);
      RemoveFromRing(Linkage(), FREE, freeList, 0);
      DropDistinct(freeList, 0);
      assert Drop(freeList, 0) == freeList[1..];
      ListRemove(c);
      freeList := freeList[1..];
    }

    /**
     * `scas_connection_allocate`: takes the first free record, after
     * refilling an empty free list with a zeroed slab of sixteen (the last
     * of which is then the one taken).  The record comes back on no list.
     */
    method Allocate() returns (c: nat)
      requires Valid()
      modifies this
      decreases if freeList == [] then 2 else 0
      ensures Lists() && fds[FREE] == 0 && fds[LIVE] == 0
      ensures c < |next| && c != FREE && c != LIVE && c !in freeList && c !in liveList
      ensures next[c] == NULL && prev[c] == NULL
      ensures liveList == old(liveList)
      ensures old(freeList) != [] ==>
                c == old(freeList)[0] && freeList == old(freeList)[1..]
                && fds == old(fds) && conns == old(conns)
      ensures old(freeList) == [] ==>
                var base := |old(next)|;
                && |next| == base + POOL_REALLOCATION_DELTA
                && c == base + POOL_REALLOCATION_DELTA - 1
                && freeList == seq(POOL_REALLOCATION_DELTA - 1, k => base + POOL_REALLOCATION_DELTA - 2 - k)
                && fds == old(fds) + seq(POOL_REALLOCATION_DELTA, _ => 0)
                && |conns| == base + POOL_REALLOCATION_DELTA && conns[..base] == old(conns)
                && (forall k :: base <= k < |conns| ==> fresh(conns[k]) && conns[k].Zeroed())
      ensures |old(conns)| <= |conns| && conns[..|old(conns)|] == old(conns)
      ensures forall k :: |old(conns)| <= k < |conns| ==> fresh(conns[k]) && conns[k].Zeroed()
    {
      var empty := IsEmpty(FREE);
      if empty {
        c := RefillThenAllocate();
        return;
      }
      c := TakeFree();
    }

    /** The empty-list branch of `scas_connection_allocate`: a slab, then the allocation again. */
    method RefillThenAllocate() returns (c: nat)
      requires Valid() && freeList == []
      modifies this
      decreases 1
      ensures Lists() && fds[FREE] == 0 && fds[LIVE] == 0
      ensures c < |next| && c != FREE && c != LIVE && c !in freeList && c !in liveList
      ensures next[c] == NULL && prev[c] == NULL
      ensures liveList == old(liveList)
      ensures var base := |old(next)|;
                && |next| == base + POOL_REALLOCATION_DELTA
                && c == base + POOL_REALLOCATION_DELTA - 1
                && freeList == seq(POOL_REALLOCATION_DELTA - 1, k => base + POOL_REALLOCATION_DELTA - 2 - k)
                && fds == old(fds) + seq(POOL_REALLOCATION_DELTA, _ => 0)
                && |conns| == base + POOL_REALLOCATION_DELTA && conns[..base] == old(conns)
                && (forall k :: base <= k < |conns| ==> fresh(conns[k]) && conns[k].Zeroed())
    {
      var base := |next|;
      Refill();
      ghost var refilled := freeList;
      ghost var grown := conns;
      c := Allocate();
      assert c == refilled[0] && freeList == refilled[1..] && conns == grown;
      CountdownTail(base, POOL_REALLOCATION_DELTA);
    }

    /** The loop of `scas_connection_find` as evidently intended: once round the live ring. */
    method FindLive(fd: int) returns (r: Option<nat>)
      requires Lists()
      ensures FirstWithFd(liveList, fds, fd).None? ==> r.None?
      ensures FirstWithFd(liveList, fds, fd).Some? ==> r == Some(liveList[FirstWithFd(liveList, fds, fd).value])
    {
      var i := next[LIVE];
      ghost var k := 0;
      while i != LIVE
        invariant 0 <= k <= |liveList|
        invariant i == if k < |liveList| then liveList[k] else LIVE
        invariant forall m :: 0 <= m < k ==> fds[liveList[m]] != fd
        decreases |liveList| - k
      {
        if fds[i] == fd {
          assert FirstWithFd(liveList, fds, fd) == Some(k);
          return Some(i);
        }
        RingNext(Linkage(), LIVE, liveList, k);
        i := next[i];
        k := k + 1;
      }
      assert FirstWithFd(liveList, fds, fd).None?;
      return None;
    }

    /**
     * `scas_connection_find` as evidently intended: the first live record
     * with descriptor `fd`; when there is none, a newly allocated record for
     * `fd` at the head of the live list.
     */
    method Find(fd: int) returns (c: nat)
      requires Valid()
      modifies this
      ensures Valid() && c < |conns| && fds[c] == fd && c in liveList && c != FREE && c != LIVE
      ensures FirstWithFd(old(liveList), old(fds), fd).Some? ==>
                c == old(liveList)[FirstWithFd(old(liveList), old(fds), fd).value]
                && next == old(next) && prev == old(prev) && fds == old(fds) && conns == old(conns)
                && freeList == old(freeList) && liveList == old(liveList)
      ensures FirstWithFd(old(liveList), old(fds), fd).None? ==>
                liveList == [c] + old(liveList) && c !in old(liveList)
      ensures |old(conns)| <= |conns| && conns[..|old(conns)|] == old(conns)
      ensures forall k :: |old(conns)| <= k < |conns| ==> fresh(conns[k]) && conns[k].Zeroed()
    {
      var found := FindLive(fd);
      if found.Some? {
        return found.value;
      }
      c := AllocateLive(fd);
    }

    /** The miss branch of `scas_connection_find`: a new record for `fd` at the head of the live list. */
    method AllocateLive(fd: int) returns (c: nat)
      requires Valid()
      modifies this
      ensures Valid() && c < |conns| && fds[c] == fd && c != FREE && c != LIVE
      ensures liveList == [c] + old(liveList) && c !in old(liveList)
      ensures |old(conns)| <= |conns| && conns[..|old(conns)|] == old(conns)
      ensures forall k :: |old(conns)| <= k < |conns| ==> fresh(conns[k]) && conns[k].Zeroed()
    {
      c := Allocate();
      SetFd(c, fd);
      Push(LIVE, c);
    }

    /** `connection->fd = fd`. */
    method SetFd(c: nat, fd: int)
      requires Lists() && c < |fds|
      modifies this
      ensures Lists() && fds == old(fds)[c := fd]
      ensures next == old(next) && prev == old(prev) && conns == old(conns)
      ensures freeList == old(freeList) && liveList == old(liveList)
    {
      fds := fds[c := fd];
    }

    /** The unlinking half of `scas_connection_free`: live record `c` leaves the live list. */
    method Unlink(c: nat) returns (ghost j: nat)
      requires Valid() && c in liveList
      modifies this
      ensures Lists() && fds == old(fds) && conns == old(conns) && freeList == old(freeList)
      ensures j < |old(liveList)| && old(liveList)[j] == c && liveList == old(liveList)[..j] + old(liveList)[j + 1..]
      ensures c !in freeList && c !in liveList && c != FREE && c != LIVE && c < |next|
    {
      j :| 0 <= j < |liveList| && liveList[j] == c;
      RemoveKeepsRing(Linkage(), LIVE, liveList, j, FREE, freeList);
      RemoveFromRing(Linkage(), LIVE, liveList, j);
      DropDistinct(liveList, j);
      ListRemove(c);
      liveList := Drop(liveList, j);
    }

    /**
     * `scas_connection_free`: unlinks a live record, releases its
     * allocator, zeroes it (descriptor included) and puts it at the head
     * of the free list.
     */
    method Free(c: nat)
      requires Valid() && c in liveList
      modifies this, conns[c], conns[c].allocator
      ensures Valid()
      ensures freeList == [c] + old(freeList)
      ensures exists j :: 0 <= j < |old(liveList)| && old(liveList)[j] == c && liveList == old(liveList)[..j] + old(liveList)[j + 1..]
      ensures fds == old(fds)[c := 0] && conns == old(conns)
      ensures conns[c].header == seq(16, _ => 0) && conns[c].state == New
      ensures conns[c].allocator == null && conns[c].context == null
      ensures conns[c].ptr == NoTarget && conns[c].offset == 0 && conns[c].size == 0
      ensures old(conns[c].allocator) != null ==> !old(conns[c].allocator).mapped
    {
      var conn := conns[c];
      ghost var j := Unlink(c);
      var _ := Destroy(conn.allocator);
      conn.Clear();
      fds := fds[c := 0];
      Push(FREE, c);
    }
  }

  // ----- the code as written -----

  /** Where the loop of `scas_connection_find` as written stops. */
  datatype Scan = Hit(slot: nat) | ReachedNull | Exhausted

  /**
   * The loop of `scas_connection_find` as written: from record `i`, follow
   * `next` until a record has descriptor `fd` or the link is NULL, for at
   * most `fuel` steps.
   */
  function AsWrittenScan(l: Links, fds: seq<int>, i: int, fd: int, fuel: nat): (r: Scan)
    requires |fds| == |l.next|
    ensures r.Hit? ==> r.slot < |fds| && fds[r.slot] == fd
    decreases fuel
  {
    if i == NULL then ReachedNull
    else if !(0 <= i < |fds|) then Exhausted
    else if fds[i] == fd then Hit(i)
    else if fuel == 0 then Exhausted
    else AsWrittenScan(l, fds, l.next[i], fd, fuel - 1)
  }

  /** As written, the scan starts at the live anchor itself. */
  function AsWrittenFind(l: Links, fds: seq<int>, fd: int, fuel: nat): (r: Scan)
    requires |fds| == |l.next| && LIVE < |fds|
    ensures r.Hit? ==> r.slot < |fds| && fds[r.slot] == fd
  {
    AsWrittenScan(l, fds, LIVE, fd, fuel)
  }

  /** Descriptor 0 finds the zeroed live anchor, not a connection. */
  lemma AsWrittenFindReturnsAnchor(l: Links, fds: seq<int>, fuel: nat)
    requires |fds| == |l.next| && LIVE < |fds| && fds[LIVE] == 0
    ensures AsWrittenFind(l, fds, 0, fuel) == Hit(LIVE)
  {
  }

  /** From any record of a ring holding no `fd`, the scan never meets NULL. */
  lemma {:induction false} AsWrittenScanCircles(l: Links, fds: seq<int>, list: seq<nat>, i: int, fd: int, fuel: nat)
    requires Ring(l, LIVE, list) && |fds| == |l.next|
    requires fds[LIVE] != fd && forall k :: 0 <= k < |list| ==> fds[list[k]] != fd
    requires i == LIVE || i in list
    ensures AsWrittenScan(l, fds, i, fd, fuel) == Exhausted
    decreases fuel
  {
    if fuel > 0 {
      if i == LIVE {
        if list != [] { assert list[0] in list; }
      } else {
        var k :| 0 <= k < |list| && list[k] == i;
        if k + 1 < |list| { assert list[k + 1] in list; }
      }
      AsWrittenScanCircles(l, fds, list, l.next[i], fd, fuel - 1);
    } else if i != LIVE {
      var k :| 0 <= k < |list| && list[k] == i;
    }
  }

  /**
   * A descriptor no live record has: the scan as written goes round the
   * ring for as long as it is let run, and never reaches the allocation
   * after the loop.
   */
  lemma AsWrittenFindNeverAllocates(l: Links, fds: seq<int>, list: seq<nat>, fd: int, fuel: nat)
    requires Ring(l, LIVE, list) && |fds| == |l.next|
    requires fds[LIVE] != fd && forall k :: 0 <= k < |list| ==> fds[list[k]] != fd
    ensures AsWrittenFind(l, fds, fd, fuel) == Exhausted
  {
    AsWrittenScanCircles(l, fds, list, LIVE, fd, fuel);
  }
}
