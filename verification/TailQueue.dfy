/**
 The tail queues of queue.h at the level of their pointers, each operation proved to do to the
 sequence of elements what its name says.

 tqe_prev and tqh_last hold the address of a pointer cell, which is either the tqh_first cell of a
 head or the tqe_next cell of an element (or none, for an element never inserted).
 */
module TailQueue {
  import opened Lists

  datatype Cell = NoCell | FirstOf(head: Head) | NextOf(elm: Elm)

  class Head {
    var first: Elm?
    var last: Cell
  }

  class Elm {
    var next: Elm?
    var prev: Cell
  }

  /** The queue at `head` holds exactly the elements of s, in that order. */
  ghost predicate IsQueue(head: Head, s: seq<Elm>)
    reads head, s
  {
    && NoDup(s)
    && head.first == At(s, 0)
    && head.last == CellBefore(head, s, |s|)
    && (forall i {:trigger s[i].next} :: 0 <= i < |s| ==> s[i].next == At(s, i + 1))
    && (forall i {:trigger s[i].prev} :: 0 <= i < |s| ==> s[i].prev == CellBefore(head, s, i))
  }

  ghost function At(s: seq<Elm>, i: nat): Elm? {
    if i < |s| then s[i] else null
  }

  /** The cell that points to position i of the queue. */
  ghost function CellBefore(head: Head, s: seq<Elm>, i: nat): Cell
    requires i <= |s|
  {
    if i == 0 then FirstOf(head) else NextOf(s[i - 1])
  }

  /** Reading through a cell. */
  function Load(c: Cell): Elm?
    requires c != NoCell
    reads match c case NoCell => {} case FirstOf(h) => {h as object} case NextOf(e) => {e}
  {
    match c
    case FirstOf(h) => h.first
    case NextOf(e) => e.next
  }

  /** TAILQ_PREV casts the address of a `next` cell to a queue head, whose second word is then the
      `prev` word of the element, or the `last` word of the head itself. */
  method Prev(elm: Elm, ghost head: Head, ghost s: seq<Elm>) returns (p: Elm?)
    requires IsQueue(head, s) && elm in s
    ensures var i := Index(s, elm); p == if i == 0 then null else s[i - 1]
  {
    ghost var i := Index(s, elm);
    assert elm.prev == CellBefore(head, s, i);
    var second := match elm.prev case FirstOf(h) => h.last case NextOf(e) => e.prev;
    p := Load(second);
  }

  method Init(head: Head)
    modifies head
    ensures IsQueue(head, [])
  {
    head.first := null;
    head.last := FirstOf(head);
  }

  method InsertHead(head: Head, elm: Elm, ghost s: seq<Elm>)
    requires IsQueue(head, s) && elm !in s
    modifies head, elm, s
    ensures IsQueue(head, [elm] + s)
  {
    elm.next := head.first;
    if head.first != null {
      head.first.prev := NextOf(elm);
    } else {
      head.last := NextOf(elm);
    }
    head.first := elm;
    elm.prev := FirstOf(head);
  }

  method InsertTail(head: Head, elm: Elm, ghost s: seq<Elm>)
    requires IsQueue(head, s) && elm !in s
    modifies head, elm, s
    ensures IsQueue(head, s + [elm])
  {
    elm.next := null;
    elm.prev := head.last;
    match head.last {
      case FirstOf(h) => h.first := elm;
      case NextOf(e) => e.next := elm;
    }
    head.last := NextOf(elm);
  }

  method InsertAfterElm(head: Head, listelm: Elm, elm: Elm, ghost l: seq<Elm>, ghost r: seq<Elm>)
    requires IsQueue(head, l + [listelm] + r) && elm !in l + [listelm] + r
    modifies head, elm, listelm, r
    ensures IsQueue(head, l + [listelm, elm] + r)
  {
    ghost var s, t, i := l + [listelm] + r, l + [listelm, elm] + r, |l|;
    assert NoDup(t) by { NoDupMiddle(l + [listelm], elm, r); assert t == l + [listelm] + [elm] + r; }
    assert s[i] == listelm;
    elm.next := listelm.next;
    if elm.next != null {
      elm.next.prev := NextOf(elm);
    } else {
      head.last := NextOf(elm);
    }
    listelm.next := elm;
    elm.prev := NextOf(listelm);
    forall k | 0 <= k < |t| ensures t[k].next == At(t, k + 1) && t[k].prev == CellBefore(head, t, k) {
      var j := if k <= i then k else k - 1;
      assert k != i + 1 ==> t[k] == s[j];
    }
  }

  method InsertBeforeElm(listelm: Elm, elm: Elm, ghost head: Head, ghost l: seq<Elm>, ghost r: seq<Elm>)
    requires IsQueue(head, l + [listelm] + r) && elm !in l + [listelm] + r
    modifies head, elm, listelm, l
    ensures IsQueue(head, l + [elm, listelm] + r)
  {
    ghost var s, t, i := l + [listelm] + r, l + [elm, listelm] + r, |l|;
    assert NoDup(t) by {
      NoDupMiddle(l, elm, [listelm] + r);
      assert t == l + [elm] + ([listelm] + r);
      assert s == l + ([listelm] + r);
    }
    assert s[i] == listelm;
    elm.prev := listelm.prev;
    elm.next := listelm;
    match listelm.prev {
      case FirstOf(h) => h.first := elm;
      case NextOf(e) => e.next := elm;
    }
    listelm.prev := NextOf(elm);
    forall k | 0 <= k < |t| ensures t[k].next == At(t, k + 1) && t[k].prev == CellBefore(head, t, k) {
      var j := if k < i then k else k - 1;
      assert k != i ==> t[k] == s[j];
    }
  }

  method RemoveElm(head: Head, elm: Elm, ghost l: seq<Elm>, ghost r: seq<Elm>)
    requires IsQueue(head, l + [elm] + r)
    modifies head, l, r
    ensures IsQueue(head, l + r)
  {
    ghost var s, t, i := l + [elm] + r, l + r, |l|;
    assert NoDup(t) by { NoDupMiddle(l, elm, r); }
    assert s[i] == elm;
    if elm.next != null {
      elm.next.prev := elm.prev;
    } else {
      head.last := elm.prev;
    }
    match elm.prev {
      case FirstOf(h) => h.first := elm.next;
      case NextOf(e) => e.next := elm.next;
    }
    forall k | 0 <= k < |t| ensures t[k].next == At(t, k + 1) && t[k].prev == CellBefore(head, t, k) {
      var j := if k < i then k else k + 1;
      assert t[k] == s[j];
    }
  }

  /** TAILQ_SWAP: `second` must directly follow `first`. */
  method SwapNeighbours(first: Elm, second: Elm, head: Head, ghost l: seq<Elm>, ghost r: seq<Elm>)
    requires IsQueue(head, l + [first, second] + r)
    modifies head, first, second, l, r
    ensures IsQueue(head, l + [second, first] + r)
  {
    ghost var s, t, i := l + [first, second] + r, l + [second, first] + r, |l|;
    assert NoDup(t) by { NoDupNeighbours(l, first, second, r); }
    assert s[i] == first && s[i + 1] == second;
    match first.prev {
      case FirstOf(h) => h.first := second;
      case NextOf(e) => e.next := second;
    }
    second.prev := first.prev;
    first.prev := NextOf(second);
    first.next := second.next;
    if second.next != null {
      second.next.prev := NextOf(first);
    }
    second.next := first;
    if head.last == NextOf(second) {
      head.last := NextOf(first);
    }
    forall k | 0 <= k < |t| ensures t[k].next == At(t, k + 1) && t[k].prev == CellBefore(head, t, k) {
      assert k != i && k != i + 1 ==> t[k] == s[k];
    }
  }
}
