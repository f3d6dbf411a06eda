/** The intrusive LIST and TAILQ macros of include/queue.h.

    The elements live in one array of structs (`pages` or `envs`), so an element is
    its index.  A `struct type **` is the address of a pointer cell, and the cells
    the macros ever point at are the head's first pointer and some element's next
    pointer.  Both classes keep the raw link fields; `items` is the sequence they
    stand for. */
module Queue {

  datatype Link = Null | Elem(i: nat)

  /** The address of a pointer cell. */
  datatype Cell = First | NextOf(i: nat)

  ghost predicate Distinct(s: seq<nat>) {
    forall a, b :: 0 <= a < b < |s| ==> s[a] != s[b]
  }

  ghost function IndexOf(s: seq<nat>, e: nat): (k: nat)
    requires e in s
    ensures k < |s| && s[k] == e
  {
    var k: nat :| k < |s| && s[k] == e; k
  }

  /** `s` without the element at position k. */
  function Drop(s: seq<nat>, k: nat): (r: seq<nat>)
    requires k < |s|
  {
    s[..k] + s[k + 1..]
  }

  /** The value the pointer cell in front of position k holds. */
  function LinkTo(s: seq<nat>, k: nat): (r: Link) {
    if k < |s| then Elem(s[k]) else Null
  }

  /** The cell that points at position k. */
  function CellTo(s: seq<nat>, k: nat): (r: Cell)
    requires k <= |s|
  {
    if k == 0 then First else NextOf(s[k - 1])
  }

  /** The first pointer and the next fields after `*c = l`. */
  function StoreFirst(first: Link, c: Cell, l: Link): (r: Link) {
    if c.First? then l else first
  }

  function StoreNext(next: seq<Link>, c: Cell, l: Link): (r: seq<Link>)
    ensures |r| == |next|
  {
    if c.NextOf? && c.i < |next| then next[c.i := l] else next
  }

  /** The prev fields after `l->prev = c`, skipped when l is NULL. */
  function StorePrev(prev: seq<Cell>, l: Link, c: Cell): (r: seq<Cell>)
    ensures |r| == |prev|
  {
    if l.Elem? && l.i < |prev| then prev[l.i := c] else prev
  }

  /** The link fields of the element at position k. */
  ghost predicate LinkedAt(next: seq<Link>, prev: seq<Cell>, s: seq<nat>, k: nat)
    requires k < |s|
  {
    && s[k] < |next| && s[k] < |prev|
    && next[s[k]] == LinkTo(s, k + 1)
    && prev[s[k]] == CellTo(s, k)
  }

  /** first, next and prev link up exactly the sequence s. */
  ghost predicate Linked(first: Link, next: seq<Link>, prev: seq<Cell>, s: seq<nat>) {
    && |next| == |prev|
    && Distinct(s)
    && first == LinkTo(s, 0)
    && (forall k :: 0 <= k < |s| ==> LinkedAt(next, prev, s, k))
  }

  /** The forward links alone determine the sequence, so `items` is no free choice. */
  lemma {:induction false} LinkedUnique(first: Link, next: seq<Link>, prev: seq<Cell>, s: seq<nat>, t: seq<nat>)
    requires Linked(first, next, prev, s)
    requires Linked(first, next, prev, t)
    ensures s == t
  {
    var k := 0;
    while k < |s| && k < |t|
      invariant 0 <= k <= |s| && k <= |t|
      invariant s[..k] == t[..k]
      invariant LinkTo(s, k) == LinkTo(t, k)
    {
      assert s[k] == t[k];
      assert LinkedAt(next, prev, s, k) && LinkedAt(next, prev, t, k);
      assert s[..k + 1] == s[..k] + [s[k]] && t[..k + 1] == t[..k] + [t[k]];
      k := k + 1;
    }
    assert s == s[..k] && t == t[..k];
  }

  /** Removing the first of a list. */
  lemma DropFirst(s: seq<nat>)
    requires Distinct(s) && s != []
    ensures Drop(s, IndexOf(s, s[0])) == s[1..]
  {
  }

  lemma DropDistinct(s: seq<nat>, k: nat)
    requires k < |s| && Distinct(s)
    ensures Distinct(Drop(s, k))
    ensures s[k] !in Drop(s, k)
    ensures forall e :: e in Drop(s, k) <==> e in s && e != s[k]
  {
    var r := Drop(s, k);
    assert forall m :: 0 <= m < |r| ==> r[m] == (if m < k then s[m] else s[m + 1]);
    forall e | e in s && e != s[k] ensures e in r {
      var m := IndexOf(s, e);
      assert r[if m < k then m else m - 1] == e;
    }
  }

  /** Pointing the front of s at a new element. */
  lemma HeadLinked(first: Link, next: seq<Link>, prev: seq<Cell>, s: seq<nat>, elm: nat)
    requires Linked(first, next, prev, s) && elm < |next| && elm !in s
    ensures first.Elem? ==> first.i < |prev|
    ensures Linked(Elem(elm), next[elm := first], StorePrev(prev, first, NextOf(elm))[elm := First], [elm] + s)
  {
    var t := [elm] + s;
    var next' := next[elm := first];
    var prev' := StorePrev(prev, first, NextOf(elm))[elm := First];
    if first.Elem? { assert LinkedAt(next, prev, s, 0); }
    forall k | 0 <= k < |t| ensures LinkedAt(next', prev', t, k) {
      if k > 0 { assert LinkedAt(next, prev, s, k - 1); }
    }
  }

  /** The cell behind the last element now points at a new one. */
  lemma TailLinked(first: Link, next: seq<Link>, prev: seq<Cell>, s: seq<nat>, elm: nat)
    requires Linked(first, next, prev, s) && elm < |next| && elm !in s
    ensures
      var last := CellTo(s, |s|);
      && (last.NextOf? ==> last.i < |next|)
      && Linked(StoreFirst(first, last, Elem(elm)), StoreNext(next[elm := Null], last, Elem(elm)),
                prev[elm := last], s + [elm])
  {
    var t, last := s + [elm], CellTo(s, |s|);
    var next', prev' := StoreNext(next[elm := Null], last, Elem(elm)), prev[elm := last];
    if last.NextOf? { assert LinkedAt(next, prev, s, |s| - 1); }
    forall k | 0 <= k < |t| ensures LinkedAt(next', prev', t, k) {
      if k < |s| { assert LinkedAt(next, prev, s, k); }
    }
  }

  /** Unlinking the element at position k through its own prev and next fields. */
  lemma DropLinked(first: Link, next: seq<Link>, prev: seq<Cell>, s: seq<nat>, k: nat)
    requires Linked(first, next, prev, s) && k < |s|
    ensures s[k] < |next|
    ensures
      var l, c := next[s[k]], prev[s[k]];
      && (l.Elem? ==> l.i < |prev|) && (c.NextOf? ==> c.i < |next|)
      && Linked(StoreFirst(first, c, l), StoreNext(next, c, l), StorePrev(prev, l, c), Drop(s, k))
  {
    var t := Drop(s, k);
    DropDistinct(s, k);
    assert LinkedAt(next, prev, s, k);
    if k > 0 { assert LinkedAt(next, prev, s, k - 1); }
    if k + 1 < |s| { assert LinkedAt(next, prev, s, k + 1); }
    var l, c := next[s[k]], prev[s[k]];
    var next', prev' := StoreNext(next, c, l), StorePrev(prev, l, c);
    forall m | 0 <= m < |t| ensures LinkedAt(next', prev', t, m) {
      var n := if m < k then m else m + 1;
      assert t[m] == s[n] && LinkedAt(next, prev, s, n);
    }
  }

  /** LIST_HEAD / LIST_ENTRY. */
  class List {
    var first: Link
    var next: array<Link>
    var prev: array<Cell>
    ghost var items: seq<nat>

    ghost predicate Valid()
      reads this, next, prev
    {
      && next.Length == prev.Length
      && Linked(first, next[..], prev[..], items)
    }

    /** LIST_INIT over a fresh array of n structs. */
    constructor (n: nat)
      ensures Valid() && fresh(next) && fresh(prev)
      ensures next.Length == n && items == []
    {
      first := Null;
      next := new Link[n](_ => Null);
      prev := new Cell[n](_ => First);
      items := [];
    }

    /** `*cell = link`. */
    method Store(cell: Cell, link: Link)
      requires cell.NextOf? ==> cell.i < next.Length
      modifies this`first, next
      ensures first == StoreFirst(old(first), cell, link)
      ensures next[..] == StoreNext(old(next[..]), cell, link)
    {
      match cell
      case First => first := link;
      case NextOf(i) => next[i] := link;
    }

    /** LIST_INSERT_HEAD: the element joins at the front, whatever its stale links held. */
    method InsertHead(elm: nat)
      requires Valid() && elm < next.Length && elm !in items
      modifies this, next, prev
      ensures Valid() && next == old(next) && prev == old(prev)
      ensures items == [elm] + old(items)
    {
      HeadLinked(first, next[..], prev[..], items, elm);
      next[elm] := first;
      if first.Elem? {
        prev[first.i] := NextOf(elm);
      }
      first := Elem(elm);
      prev[elm] := First;
      items := [elm] + items;
    }

    /** LIST_REMOVE: an element anywhere in the list leaves it in constant time. */
    method Remove(elm: nat)
      requires Valid() && elm in items
      modifies this, next, prev
      ensures Valid() && next == old(next) && prev == old(prev)
      ensures items == Drop(old(items), IndexOf(old(items), elm))
    {
      ghost var k := IndexOf(items, elm);
      DropLinked(first, next[..], prev[..], items, k);
      if next[elm].Elem? {
        prev[next[elm].i] := prev[elm];
      }
      Store(prev[elm], next[elm]);
      items := Drop(items, k);
    }
  }

  // ---------------------------------------------------------------------------
  // TAILQ on values, for any element and whatever its links hold

  /** All that the TAILQ macros read and write. */
  datatype Links = Links(first: Link, last: Cell, next: seq<Link>, prev: seq<Cell>)

  /** Every link is NULL or an element, also in elements that are in no queue. */
  ghost predicate Bounded(q: Links) {
    && |q.next| == |q.prev|
    && (q.last.NextOf? ==> q.last.i < |q.next|)
    && (forall i :: 0 <= i < |q.next| && q.next[i].Elem? ==> q.next[i].i < |q.next|)
    && (forall i :: 0 <= i < |q.prev| && q.prev[i].NextOf? ==> q.prev[i].i < |q.next|)
  }

  ghost predicate Represents(q: Links, s: seq<nat>) {
    Linked(q.first, q.next, q.prev, s) && q.last == CellTo(s, |s|)
  }

  /** TAILQ_REMOVE as it is written. */
  function Unlinked(q: Links, e: nat): (r: Links)
    requires e < |q.next| == |q.prev|
    ensures |r.next| == |r.prev| == |q.next|
  {
    var l, c := q.next[e], q.prev[e];
    Links(StoreFirst(q.first, c, l), if l.Elem? then q.last else c, StoreNext(q.next, c, l), StorePrev(q.prev, l, c))
  }

  /** TAILQ_INSERT_TAIL as it is written. */
  function Appended(q: Links, e: nat): (r: Links)
    requires e < |q.next| == |q.prev|
    ensures |r.next| == |r.prev| == |q.next|
  {
    Links(StoreFirst(q.first, q.last, Elem(e)), NextOf(e), StoreNext(q.next[e := Null], q.last, Elem(e)),
          q.prev[e := q.last])
  }

  lemma UnlinkedBounded(q: Links, e: nat)
    requires Bounded(q) && e < |q.next|
    ensures Bounded(Unlinked(q, e)) && |Unlinked(q, e).next| == |q.next|
  {
  }

  lemma AppendedBounded(q: Links, e: nat)
    requires Bounded(q) && e < |q.next|
    ensures Bounded(Appended(q, e)) && |Appended(q, e).next| == |q.next|
  {
  }

  /** Removing a member by its own links represents the sequence without it. */
  lemma UnlinkMember(q: Links, s: seq<nat>, k: nat)
    requires Represents(q, s) && k < |s|
    ensures s[k] < |q.next| == |q.prev| && Represents(Unlinked(q, s[k]), Drop(s, k))
  {
    DropLinked(q.first, q.next, q.prev, s, k);
    assert LinkedAt(q.next, q.prev, s, k);
  }

  lemma AppendNew(q: Links, s: seq<nat>, e: nat)
    requires Represents(q, s) && e < |q.next| && e !in s
    ensures |q.next| == |q.prev| && Represents(Appended(q, e), s + [e])
  {
    TailLinked(q.first, q.next, q.prev, s, e);
  }

  /** The stores of removing a non-member through stale links write nothing new. */
  predicate Harmless(q: Links, s: seq<nat>, e: nat)
    requires e < |q.next| == |q.prev|
  {
    var l, c := q.next[e], q.prev[e];
    && (c.First? ==> q.first == l)
    && (c.NextOf? && c.i in s && c.i < |q.next| ==> q.next[c.i] == l)
    && (l.Elem? && l.i in s && l.i < |q.prev| ==> q.prev[l.i] == c)
    && (l.Null? ==> q.last == c)
  }

  /** Removing an element that is in no queue leaves the queue as it was if and only if its stale
      links happen to agree with it. */
  lemma UnlinkStaleIff(q: Links, s: seq<nat>, e: nat)
    requires Represents(q, s) && e < |q.next| && e !in s
    ensures |q.next| == |q.prev| && (Represents(Unlinked(q, e), s) <==> Harmless(q, s, e))
  {
    var r, l, c := Unlinked(q, e), q.next[e], q.prev[e];
    if Represents(r, s) {
      if c.NextOf? && c.i in s && c.i < |q.next| {
        var k := IndexOf(s, c.i);
        assert LinkedAt(q.next, q.prev, s, k) && LinkedAt(r.next, r.prev, s, k);
      }
      if l.Elem? && l.i in s && l.i < |q.prev| {
        var k := IndexOf(s, l.i);
        assert LinkedAt(q.next, q.prev, s, k) && LinkedAt(r.next, r.prev, s, k);
      }
    }
    if Harmless(q, s, e) {
      forall k | 0 <= k < |s| ensures LinkedAt(r.next, r.prev, s, k) {
        assert LinkedAt(q.next, q.prev, s, k) && s[k] in s;
      }
    }
  }

  /** The links of an element that is in no queue still lead to x, from behind a. */
  ghost predicate Stale(q: Links, a: seq<nat>, e: nat, x: nat) {
    e < |q.next| == |q.prev| && q.next[e] == Elem(x) && q.prev[e] == CellTo(a, |a|)
  }

  lemma RemovedIsStale(q: Links, a: seq<nat>, e: nat, x: nat, b: seq<nat>)
    requires Represents(q, a + [e, x] + b)
    ensures e < |q.next| == |q.prev| && x < |q.next|
    ensures Represents(Unlinked(q, e), a + [x] + b) && Stale(Unlinked(q, e), a, e, x) && e !in a + [x] + b
  {
    var s, k := a + [e, x] + b, |a|;
    assert s[k] == e && s[k + 1] == x;
    assert LinkedAt(q.next, q.prev, s, k) && LinkedAt(q.next, q.prev, s, k + 1);
    UnlinkMember(q, s, k);
    DropDistinct(s, k);
    assert Drop(s, k) == a + [x] + b;
    assert k > 0 ==> a[k - 1] == s[k - 1];
  }

  lemma StaleAfterRemove(q: Links, a: seq<nat>, e: nat, x: nat, b: seq<nat>)
    requires Represents(q, a + [x] + b) && Stale(q, a, e, x) && e !in a + [x] + b
    ensures x < |q.next| && Represents(Unlinked(q, x), a + b) && Stale(Unlinked(q, x), a, e, x)
    ensures x !in a + b && e !in a + b
  {
    var s, k := a + [x] + b, |a|;
    assert s[k] == x && LinkedAt(q.next, q.prev, s, k);
    UnlinkMember(q, s, k);
    DropDistinct(s, k);
    assert Drop(s, k) == a + b;
    assert k > 0 ==> s[k - 1] == a[k - 1] && a[k - 1] != e;
    assert k + 1 < |s| ==> s[k + 1] in b;
  }

  lemma StaleAfterAppend(q: Links, a: seq<nat>, e: nat, x: nat, b: seq<nat>, z: nat)
    requires Represents(q, a + b) && Stale(q, a, e, x) && z < |q.next| && z != e && z !in a + b && e !in a + b
    ensures Represents(Appended(q, z), a + b + [z]) && Stale(Appended(q, z), a, e, x)
  {
    AppendNew(q, a + b, z);
    assert |a + b| > 0 ==> (a + b)[|a + b| - 1] != e;
  }

  lemma StaleBreaks(q: Links, a: seq<nat>, e: nat, x: nat, c: seq<nat>)
    requires Represents(q, a + c) && Stale(q, a, e, x) && e !in a + c && x !in a + c
    ensures
      var r := Unlinked(q, e);
      && (if a == [] then r.first == Elem(x) else a[|a| - 1] < |r.next| && r.next[a[|a| - 1]] == Elem(x))
      && !Represents(r, a + c)
  {
    var s, k, r := a + c, |a|, Unlinked(q, e);
    assert LinkTo(s, k) != Elem(x) by { if k < |s| { assert s[k] in s; } }
    if k > 0 {
      assert s[k - 1] == a[k - 1] && LinkedAt(q.next, q.prev, s, k - 1);
      assert !LinkedAt(r.next, r.prev, s, k - 1);
    }
  }

  /** It can go wrong.  In a queue a, e, x, b remove e, then x, append z, and remove e again: the
      pointer behind a leads to x, which is in no queue. */
  lemma SecondRemoveBreaks(q: Links, a: seq<nat>, e: nat, x: nat, b: seq<nat>, z: nat)
    requires Represents(q, a + [e, x] + b) && z < |q.next| && z !in a + [e, x] + b
    ensures e < |q.next| == |q.prev| && x < |q.next|
    ensures
      var r1 := Unlinked(q, e);
      var r2 := Unlinked(r1, x);
      var r3 := Appended(r2, z);
      var r4 := Unlinked(r3, e);
      && Represents(r1, a + [x] + b) && Represents(r2, a + b) && Represents(r3, a + b + [z])
      && (if a == [] then r4.first == Elem(x) else a[|a| - 1] < |r4.next| && r4.next[a[|a| - 1]] == Elem(x))
      && !Represents(r4, a + b + [z])
  {
    RemovedIsStale(q, a, e, x, b);
    var r1 := Unlinked(q, e);
    StaleAfterRemove(r1, a, e, x, b);
    var r2 := Unlinked(r1, x);
    assert z !in a + b && z != e && z != x;
    StaleAfterAppend(r2, a, e, x, b, z);
    assert a + (b + [z]) == a + b + [z];
    StaleBreaks(Appended(r2, z), a, e, x, b + [z]);
  }

  /** TAILQ_HEAD / TAILQ_ENTRY: a list that also knows its last next-cell. */
  class TailQueue {
    var first: Link
    var last: Cell
    var next: array<Link>
    var prev: array<Cell>
    ghost var items: seq<nat>

    ghost function Store(): (q: Links)
      reads this, next, prev
    {
      Links(first, last, next[..], prev[..])
    }

    /** Links that are at least links, as every macro leaves them. */
    ghost predicate Whole()
      reads this, next, prev
    {
      next != prev as object && Bounded(Store())
    }

    ghost predicate Valid()
      reads this, next, prev
    {
      Whole() && Represents(Store(), items)
    }

    /** TAILQ_INIT. */
    constructor (n: nat)
      ensures Valid() && fresh(next) && fresh(prev)
      ensures next.Length == n && items == []
    {
      first := Null;
      last := First;
      next := new Link[n](_ => Null);
      prev := new Cell[n](_ => First);
      items := [];
    }

    method Put(cell: Cell, link: Link)
      requires cell.NextOf? ==> cell.i < next.Length
      modifies this`first, next
      ensures first == StoreFirst(old(first), cell, link)
      ensures next[..] == StoreNext(old(next[..]), cell, link)
    {
      match cell
      case First => first := link;
      case NextOf(i) => next[i] := link;
    }

    /** TAILQ_INSERT_HEAD. */
    method InsertHead(elm: nat)
      requires Valid() && elm < next.Length && elm !in items
      modifies this, next, prev
      ensures Valid() && next == old(next) && prev == old(prev)
      ensures items == [elm] + old(items)
    {
      HeadLinked(first, next[..], prev[..], items, elm);
      next[elm] := first;
      if first.Elem? {
        prev[first.i] := NextOf(elm);
      } else {
        last := NextOf(elm);
      }
      first := Elem(elm);
      prev[elm] := First;
      items := [elm] + items;
    }

    /** TAILQ_INSERT_TAIL of anything, in the queue or not: one store through tqh_last, which may
        be the head's own cell. */
    method Append(elm: nat)
      requires Whole() && elm < next.Length && (elm !in items ==> Represents(Store(), items))
      modifies this, next, prev
      ensures Whole() && next == old(next) && prev == old(prev)
      ensures items == old(items) + [elm] && Store() == Appended(old(Store()), elm)
      ensures elm !in old(items) ==> Valid()
    {
      AppendedBounded(Store(), elm);
      if elm !in items { AppendNew(Store(), items, elm); }
      next[elm] := Null;
      prev[elm] := last;
      Put(last, Elem(elm));
      last := NextOf(elm);
      items := items + [elm];
    }

    /** TAILQ_INSERT_TAIL of an element that is in no queue. */
    method InsertTail(elm: nat)
      requires Valid() && elm < next.Length && elm !in items
      modifies this, next, prev
      ensures Valid() && next == old(next) && prev == old(prev)
      ensures items == old(items) + [elm] && Store() == Appended(old(Store()), elm)
    {
      Append(elm);
    }

    /** TAILQ_REMOVE of anything, member or not. */
    method Unlink(elm: nat)
      requires Whole() && elm < next.Length
      modifies this`first, this`last, next, prev
      ensures Whole() && Store() == Unlinked(old(Store()), elm)
    {
      UnlinkedBounded(Store(), elm);
      var l, c := next[elm], prev[elm];
      if l.Elem? {
        prev[l.i] := c;
      } else {
        last := c;
      }
      Put(c, l);
    }

    /** The same with its effect on items: the queue is sound afterwards if elm was a member. */
    method RemoveAny(elm: nat)
      requires Valid() && elm < next.Length
      modifies this, next, prev
      ensures Whole() && next == old(next) && prev == old(prev) && Store() == Unlinked(old(Store()), elm)
      ensures elm in old(items) ==> Valid() && items == Drop(old(items), IndexOf(old(items), elm))
      ensures elm !in old(items) ==> items == old(items)
    {
      ghost var k := if elm in items then IndexOf(items, elm) else 0;
      if elm in items { UnlinkMember(Store(), items, k); }
      Unlink(elm);
      items := if elm in items then Drop(items, k) else items;
    }

    /** TAILQ_REMOVE of a member. */
    method Remove(elm: nat)
      requires Valid() && elm in items
      modifies this, next, prev
      ensures Valid() && next == old(next) && prev == old(prev)
      ensures items == Drop(old(items), IndexOf(old(items), elm))
      ensures elm < next.Length && Store() == Unlinked(old(Store()), elm)
    {
      ghost var k := IndexOf(items, elm);
      UnlinkMember(Store(), items, k);
      Unlink(elm);
      items := Drop(items, k);
    }

    /** TAILQ_FOREACH: following tqe_next from tqh_first visits items in order. */
    method Traverse() returns (visited: seq<nat>)
      requires Valid()
      ensures visited == items
    {
      visited := [];
      var cur := first;
      while cur.Elem?
        invariant |visited| <= |items| && visited == items[..|visited|]
        invariant cur == LinkTo(items, |visited|)
        decreases |items| - |visited|
      {
        assert LinkedAt(next[..], prev[..], items, |visited|);
        visited := visited + [cur.i];
        cur := next[cur.i];
      }
    }
  }
}
