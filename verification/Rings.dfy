/** The intrusive circular lists of slkc/src/slkc/list.c. A ring is described by the
    sequence of its nodes, the head first; the methods rewrite the links in place and
    their contracts name the sequence that results. */
module Rings {

  // ----- rings as sequences

  function Succ(i: nat, n: nat): nat {
    if i + 1 == n then 0 else i + 1
  }

  predicate Distinct<T(==)>(r: seq<T>) {
    forall i, j :: 0 <= i < j < |r| ==> r[i] != r[j]
  }

  predicate Disjoint<T(==)>(a: seq<T>, b: seq<T>) {
    forall i, j :: 0 <= i < |a| && 0 <= j < |b| ==> a[i] != b[j]
  }

  function Rotate<T>(r: seq<T>, k: nat): seq<T>
    requires k <= |r|
  {
    r[k..] + r[..k]
  }

  function Without<T>(r: seq<T>, k: nat): seq<T>
    requires k < |r|
  {
    r[..k] + r[k + 1..]
  }

  /** `x` put before position `m`. Before the head is behind the last. */
  function Before<T>(r: seq<T>, m: nat, x: T): seq<T>
    requires m < |r|
  {
    if m == 0 then r + [x] else r[..m] + [x] + r[m..]
  }

  function After<T>(r: seq<T>, m: nat, x: T): seq<T>
    requires m < |r|
  {
    r[..m + 1] + [x] + r[m + 1..]
  }

  /** Node `k` moved before node `m` of the same ring. A head that moves stays the head. */
  function MovedBefore<T>(r: seq<T>, k: nat, m: nat): seq<T>
    requires k < |r| && m < |r| && k != m
  {
    if k == 0 then [r[0]] + (r[m..] + r[1..m])
    else Before(Without(r, k), if k < m then m - 1 else m, r[k])
  }

  function MovedAfter<T>(r: seq<T>, k: nat, m: nat): seq<T>
    requires k < |r| && m < |r| && k != m
  {
    if k == 0 then [r[0]] + (r[m + 1..] + r[1..m + 1])
    else After(Without(r, k), if k < m then m - 1 else m, r[k])
  }

  class ListNode {
    var prev: ListNode
    var next: ListNode
    var head: ListNode

    /** A node that is linked to itself. `sk_list_init` leaves that to its caller. */
    constructor ()
      ensures IsRing([this])
    {
      prev := this;
      next := this;
      head := this;
    }

    /** `sk_list_remove`. What is left is a ring unless the removed node was its head: then
        the others stay linked, with a head that is no longer among them. */
    method Remove(ghost ring: seq<ListNode>, ghost k: nat)
      requires IsRing(ring) && k < |ring| && ring[k] == this
      modifies this, prev, next
      ensures IsRing([this])
      ensures Linked(Without(ring, k)) && Headed(Without(ring, k), ring[0])
      ensures |ring| > 1 ==> (IsRing(Without(ring, k)) <==> k != 0)
    {
      hide Linked, Distinct, Without;
      ghost var rest, w := ring[k + 1..] + ring[..k], Without(ring, k);
      Opened(ring, k);
      OthersHeaded(ring, k);
      Unlink(rest);
      head := this;
      Closed(ring, k);
      SelfRing(this);
      Remainder(ring, k);
    }

    /** `sk_list_insert_before`. The ring the node leaves is a ring afterwards unless the
        node was its head and left others behind. */
    method InsertBefore(target: ListNode, ghost a: seq<ListNode>, ghost k: nat, ghost b: seq<ListNode>, ghost m: nat)
      requires IsRing(a) && k < |a| && a[k] == this && IsRing(b) && m < |b| && b[m] == target
      requires a == b || Disjoint(a, b)
      modifies a, b
      ensures a != b ==> IsRing(Before(b, m, this)) && Left(a, k)
      ensures a == b && k != m ==> IsRing(MovedBefore(a, k, m))
      ensures a == b && k == m ==> IsRing([this]) && Left(a, k)
    {
      hide Linked, Distinct, Before, Without, MovedBefore;
      Neighbours(a, k);
      Remove(a, k);
      ghost var c, p := Lodging(a, k, b, m).0, Lodging(a, k, b, m).1;
      LodgingIsCycle(a, k, b, m);
      Neighbours(c, p);
      Opened(c, p);
      HeadedReordered(c, p, target.head);
      LinkBefore(target, c[p + 1..] + c[..p], LeftBehind(a, k, b, m), a[0]);
      if a != b || k == m {
        Remainder(a, k);
      }
      if a != b || k != m {
        LodgedBefore(a, k, b, m);
      }
    }

    /** `sk_list_insert_after`. */
    method InsertAfter(target: ListNode, ghost a: seq<ListNode>, ghost k: nat, ghost b: seq<ListNode>, ghost m: nat)
      requires IsRing(a) && k < |a| && a[k] == this && IsRing(b) && m < |b| && b[m] == target
      requires a == b || Disjoint(a, b)
      modifies a, b
      ensures a != b ==> IsRing(After(b, m, this)) && Left(a, k)
      ensures a == b && k != m ==> IsRing(MovedAfter(a, k, m))
      ensures a == b && k == m ==> IsRing([this]) && Left(a, k)
    {
      hide Linked, Distinct, After, Without, MovedAfter;
      Neighbours(a, k);
      Remove(a, k);
      ghost var c, p := Lodging(a, k, b, m).0, Lodging(a, k, b, m).1;
      LodgingIsCycle(a, k, b, m);
      Neighbours(c, p);
      Opened(c, p);
      HeadedReordered(c, p, target.head);
      LinkAfter(target, c[p + 1..] + c[..p], LeftBehind(a, k, b, m), a[0]);
      if a != b || k == m {
        Remainder(a, k);
      }
      if a != b || k != m {
        LodgedAfter(a, k, b, m);
      }
    }

    /** `sk_list_insert_tail`: behind the last node, whichever member is given. */
    method InsertTail(target: ListNode, ghost a: seq<ListNode>, ghost k: nat, ghost b: seq<ListNode>, ghost m: nat)
      requires IsRing(a) && k < |a| && a[k] == this && IsRing(b) && m < |b| && b[m] == target
      requires a == b || Disjoint(a, b)
      modifies a, b
      ensures a != b ==> IsRing(b + [this]) && Left(a, k)
      ensures a == b && k != 0 ==> IsRing(Without(a, k) + [this])
      ensures a == b && k == 0 ==> IsRing([this]) && Left(a, k)
    {
      InsertBefore(target.head, a, k, b, 0);
    }

    /** `sk_list_insert_head`: right behind the head. */
    method InsertHead(target: ListNode, ghost a: seq<ListNode>, ghost k: nat, ghost b: seq<ListNode>, ghost m: nat)
      requires IsRing(a) && k < |a| && a[k] == this && IsRing(b) && m < |b| && b[m] == target
      requires a == b || Disjoint(a, b)
      modifies a, b
      ensures a != b ==> IsRing([b[0], this] + b[1..]) && Left(a, k)
      ensures a == b && k != 0 ==> IsRing([a[0], this] + Without(a, k)[1..])
      ensures a == b && k == 0 ==> IsRing([this]) && Left(a, k)
    {
      InsertAfter(target.head, a, k, b, 0);
      assert After(b, 0, this) == [b[0], this] + b[1..];
      assert a == b && k != 0 ==> MovedAfter(a, k, 0) == [a[0], this] + Without(a, k)[1..];
    }

    /** `sk_list_count`: the nodes besides the head, whichever member is asked. */
    method Count(ghost ring: seq<ListNode>) returns (count: nat)
      requires IsRing(ring) && this in ring
      ensures count == |ring| - 1
    {
      count := 0;
      var node := head.next;
      while node != head
        invariant count < |ring| && node == ring[Succ(count, |ring|)] && head == ring[0]
        decreases |ring| - count
      {
        count := count + 1;
        node := node.next;
      }
    }

    /** `sk_list_tail`: the last node, or the head when there is no other. */
    function Tail(ghost ring: seq<ListNode>): (tail: ListNode)
      requires IsRing(ring) && this in ring
      reads ring
      ensures tail == ring[|ring| - 1]
    {
      LinkAt(ring, |ring| - 1);
      head.prev
    }

    /** The assignments behind the removal: the node goes between the target and the
        target's neighbour on the left. */
    method LinkBefore(target: ListNode, ghost u: seq<ListNode>, ghost w: seq<ListNode>, ghost h: ListNode)
      requires Distinct([target] + u) && Linked([target] + u)
      requires this !in [target] + u || (target == this && u == [])
      requires Headed([target] + u, target.head)
      requires Linked(w) && Headed(w, h) && Disjoint(w, [target] + u + [this])
      modifies this, target`prev, target.prev`next
      ensures target != this ==> Linked([target] + u + [this])
      ensures target == this ==> Linked([this])
      ensures head == target.head == old(target.head) && Headed([target] + u, head)
      ensures Linked(w) && Headed(w, h)
    {
      hide Linked, Distinct, Disjoint;
      UnlinkedEnds(target, u);
      EndsApart(w, target, u, this);
      next := target;
      prev := target.prev;
      target.prev := this;
      prev.next := this;
      head := target.head;
      SelfLinked(this);
      if target != this {
        LinkedBefore(target, this, u);
      }
    }

    method LinkAfter(target: ListNode, ghost u: seq<ListNode>, ghost w: seq<ListNode>, ghost h: ListNode)
      requires Distinct([target] + u) && Linked([target] + u)
      requires this !in [target] + u || (target == this && u == [])
      requires Headed([target] + u, target.head)
      requires Linked(w) && Headed(w, h) && Disjoint(w, [target] + u + [this])
      modifies this, target`next, target.next`prev
      ensures target != this ==> Linked([target] + ([this] + u))
      ensures target == this ==> Linked([this])
      ensures head == target.head == old(target.head) && Headed([target] + u, head)
      ensures Linked(w) && Headed(w, h)
    {
      hide Linked, Distinct, Disjoint;
      UnlinkedEnds(target, u);
      EndsApart(w, target, u, this);
      prev := target;
      next := target.next;
      target.next := this;
      next.prev := this;
      head := target.head;
      SelfLinked(this);
      if target != this {
        LinkedAfter(target, this, u);
      }
    }

    method Unlink(ghost rest: seq<ListNode>)
      requires Distinct([this] + rest) && Linked([this] + rest)
      modifies this`next, this`prev, prev`next, next`prev
      ensures next == this && prev == this && Linked(rest)
    {
      UnlinkedEnds(this, rest);
      prev.next := next;
      next.prev := prev;
      next := this;
      prev := this;
    }
  }

  /** The links run once around `r` in both directions. */
  ghost predicate Linked(r: seq<ListNode>)
    reads r
  {
    forall i :: 0 <= i < |r| ==> r[i].next == r[Succ(i, |r|)] && r[Succ(i, |r|)].prev == r[i]
  }

  ghost predicate Headed(r: seq<ListNode>, h: ListNode)
    reads r
  {
    forall i :: 0 <= i < |r| ==> r[i].head == h
  }

  ghost predicate IsRing(r: seq<ListNode>)
    reads r
  {
    r != [] && Distinct(r) && Linked(r) && Headed(r, r[0])
  }

  /** A ring in its nodes' own fields: `next` leads from each to the one behind it and from the
      last to the first, `prev` leads back, and `head` to the first from all of them. */
  lemma RingLinks(r: seq<ListNode>)
    ensures IsRing(r) <==>
            && r != [] && (forall i, j :: 0 <= i < j < |r| ==> r[i] != r[j])
            && (forall i :: 0 <= i < |r| - 1 ==> r[i].next == r[i + 1])
            && (forall i :: 1 <= i < |r| ==> r[i].prev == r[i - 1])
            && r[|r| - 1].next == r[0] && r[0].prev == r[|r| - 1]
            && (forall i :: 0 <= i < |r| ==> r[i].head == r[0])
  {
    var n := |r|;
    if n > 0 && Linked(r) {
      forall i | 1 <= i < n ensures r[i].prev == r[i - 1] {
        LinkAt(r, i - 1);
      }
      LinkAt(r, n - 1);
    }
  }

  lemma RotateLinked(r: seq<ListNode>, k: nat)
    requires k <= |r| && Distinct(r) && Linked(r)
    ensures Distinct(Rotate(r, k)) && Linked(Rotate(r, k))
  {
    var n, q := |r|, Rotate(r, k);
    forall i | 0 <= i < n ensures q[i].next == q[Succ(i, n)] && q[Succ(i, n)].prev == q[i] {
      var j := if i < n - k then i + k else i + k - n;
      assert q[i] == r[j] && q[Succ(i, n)] == r[Succ(j, n)];
    }
  }

  /** The neighbours of a node in a cycle, and the links between the others. */
  lemma UnlinkedEnds(x: ListNode, rest: seq<ListNode>)
    requires Distinct([x] + rest) && Linked([x] + rest)
    ensures rest == [] ==> x.next == x && x.prev == x
    ensures rest != [] ==> x.next == rest[0] && x.prev == rest[|rest| - 1]
    ensures rest != [] ==> rest[0].prev == x && rest[|rest| - 1].next == x
    ensures x !in rest && Distinct(rest)
    ensures forall i :: 0 <= i < |rest| - 1 ==> rest[i].next == rest[i + 1] && rest[i + 1].prev == rest[i]
  {
    hide Linked, Distinct;
    TailDistinct(x, rest);
    var c := [x] + rest;
    assert c[0] == x;
    forall i | 0 <= i < |rest| ensures rest[i] == c[i + 1] {
    }
    LinkAt(c, 0);
    LinkAt(c, |rest|);
    forall i | 0 <= i < |rest| - 1 ensures rest[i].next == rest[i + 1] && rest[i + 1].prev == rest[i] {
      LinkAt(c, i + 1);
    }
  }

  lemma TailDistinct<T>(x: T, rest: seq<T>)
    requires Distinct([x] + rest)
    ensures Distinct(rest) && x !in rest
  {
    var c := [x] + rest;
    assert c[0] == x && forall i :: 0 <= i < |rest| ==> rest[i] == c[i + 1];
  }

  lemma LinkAt(c: seq<ListNode>, i: nat)
    requires Linked(c) && i < |c|
    ensures c[i].next == c[Succ(i, |c|)] && c[Succ(i, |c|)].prev == c[i]
  {
  }

  lemma EndsApart(w: seq<ListNode>, t: ListNode, u: seq<ListNode>, x: ListNode)
    requires Disjoint(w, [t] + u + [x])
    ensures t !in w && x !in w && (u != [] ==> u[0] !in w && u[|u| - 1] !in w)
  {
    var c := [t] + u + [x];
    assert c[0] == t && c[|u| + 1] == x && (u != [] ==> c[1] == u[0] && c[|u|] == u[|u| - 1]);
  }

  lemma LinkedBefore(t: ListNode, x: ListNode, u: seq<ListNode>)
    requires x.next == t && t.prev == x
    requires x.prev == (if u == [] then t else u[|u| - 1]) && x.prev.next == x
    requires u != [] ==> u[0].prev == t && t.next == u[0]
    requires forall i :: 0 <= i < |u| - 1 ==> u[i].next == u[i + 1] && u[i + 1].prev == u[i]
    ensures Linked([t] + u + [x])
  {
    var c := [t] + u + [x];
    forall i | 0 <= i < |c| ensures c[i].next == c[Succ(i, |c|)] && c[Succ(i, |c|)].prev == c[i] {
      assert 1 <= i <= |u| ==> c[i] == u[i - 1];
      assert i < |u| ==> c[i + 1] == u[i];
    }
  }

  lemma LinkedAfter(t: ListNode, x: ListNode, u: seq<ListNode>)
    requires t.next == x && x.prev == t
    requires x.next == (if u == [] then t else u[0]) && x.next.prev == x
    requires u != [] ==> u[|u| - 1].next == t && t.prev == u[|u| - 1]
    requires forall i :: 0 <= i < |u| - 1 ==> u[i].next == u[i + 1] && u[i + 1].prev == u[i]
    ensures Linked([t] + ([x] + u))
  {
    var c := [t] + ([x] + u);
    forall i | 0 <= i < |c| ensures c[i].next == c[Succ(i, |c|)] && c[Succ(i, |c|)].prev == c[i] {
      assert i >= 2 ==> c[i] == u[i - 2];
      assert i >= 1 && i + 1 < |c| ==> c[i + 1] == u[i - 1];
    }
  }

  lemma Neighbours(a: seq<ListNode>, k: nat)
    requires Linked(a) && k < |a|
    ensures a[k].next in a && a[k].prev in a
  {
    LinkAt(a, k);
    LinkAt(a, if k == 0 then |a| - 1 else k - 1);
  }

  /** The cycle the target is in, and its place there, when the node has been removed. */
  ghost function Lodging(a: seq<ListNode>, k: nat, b: seq<ListNode>, m: nat): (r: (seq<ListNode>, nat))
    requires k < |a| && m < |b|
    ensures r.1 < |r.0| && r.0[r.1] == b[m]
  {
    if a != b then (b, m)
    else if k != m then (Without(a, k), if k < m then m - 1 else m)
    else ([a[k]], 0)
  }

  /** The nodes of the ring that is left, unless they are the target's as well. */
  ghost function LeftBehind(a: seq<ListNode>, k: nat, b: seq<ListNode>, m: nat): seq<ListNode>
    requires k < |a| && m < |b|
  {
    if a == b && k != m then [] else Without(a, k)
  }

  lemma NothingLinked()
    ensures Linked([])
  {
  }

  lemma LodgingIsCycle(a: seq<ListNode>, k: nat, b: seq<ListNode>, m: nat)
    requires k < |a| && m < |b| && Distinct(a) && (a == b || Disjoint(a, b))
    requires IsRing([a[k]]) && Left(a, k) && (a != b ==> IsRing(b))
    ensures var c, p := Lodging(a, k, b, m).0, Lodging(a, k, b, m).1;
            && Distinct(c) && Linked(c)
            && (if a == b && k == m then c == [a[k]] else a[k] !in c && Headed(c, b[0]))
            && (forall x :: x in c ==> x in a || x in b)
            && var w := LeftBehind(a, k, b, m);
               Linked(w) && Headed(w, a[0]) && Disjoint(w, [b[m]] + (c[p + 1..] + c[..p]) + [a[k]])
  {
    NothingLinked();
    hide Linked;
  }

  lemma LodgedBefore(a: seq<ListNode>, k: nat, b: seq<ListNode>, m: nat)
    requires k < |a| && m < |b| && Distinct(a) && (a != b || k != m)
    requires var c, p := Lodging(a, k, b, m).0, Lodging(a, k, b, m).1;
             && Distinct(c) && a[k] !in c && Headed([c[p]] + (c[p + 1..] + c[..p]), b[0]) && a[k].head == b[0]
             && Linked([c[p]] + (c[p + 1..] + c[..p]) + [a[k]])
    ensures a != b ==> IsRing(Before(b, m, a[k]))
    ensures a == b ==> IsRing(MovedBefore(a, k, m))
  {
    hide Linked, Distinct, Headed, Before;
    LodgingIs(a, k, b, m);
    var c, p := Lodging(a, k, b, m).0, Lodging(a, k, b, m).1;
    CycleBefore(c, p, a[k]);
    HeadedReordered(c, p, b[0]);
    HeadedWith(c, p, a[k], b[0]);
    if a == b && k == 0 {
      HeadMoved(a, m);
    }
  }

  /** The two ways of writing a ring whose head has moved. */
  lemma HeadMoved<T>(a: seq<T>, m: nat)
    requires 0 < m < |a|
    ensures var c := Without(a, 0); |c| == |a| - 1 && MovedBefore(a, 0, m) == [a[0]] + (c[m - 1..] + c[..m - 1])
    ensures var c := Without(a, 0); MovedAfter(a, 0, m) == [a[0]] + (c[m..] + c[..m])
  {
    var c := Without(a, 0);
    assert c == a[1..];
    assert c[m - 1..] == a[m..] && c[..m - 1] == a[1..m];
    assert c[m..] == a[m + 1..] && c[..m] == a[1..m + 1];
  }

  lemma HeadedWith(c: seq<ListNode>, p: nat, x: ListNode, h: ListNode)
    requires p < |c| && Headed(c, h) && x.head == h
    ensures Headed(Before(c, p, x), h) && Headed([x] + (c[p..] + c[..p]), h)
    ensures Before(c, p, x) != [] && Before(c, p, x)[0] == c[0]
    ensures Headed(After(c, p, x), h) && Headed([x] + (c[p + 1..] + c[..p + 1]), h)
    ensures After(c, p, x) != [] && After(c, p, x)[0] == c[0]
  {
  }

  lemma LodgedAfter(a: seq<ListNode>, k: nat, b: seq<ListNode>, m: nat)
    requires k < |a| && m < |b| && Distinct(a) && (a != b || k != m)
    requires var c, p := Lodging(a, k, b, m).0, Lodging(a, k, b, m).1;
             && Distinct(c) && a[k] !in c && Headed([c[p]] + (c[p + 1..] + c[..p]), b[0]) && a[k].head == b[0]
             && Linked([c[p]] + ([a[k]] + (c[p + 1..] + c[..p])))
    ensures a != b ==> IsRing(After(b, m, a[k]))
    ensures a == b ==> IsRing(MovedAfter(a, k, m))
  {
    hide Linked, Distinct, Headed, After;
    LodgingIs(a, k, b, m);
    var c, p := Lodging(a, k, b, m).0, Lodging(a, k, b, m).1;
    CycleAfter(c, p, a[k]);
    HeadedReordered(c, p, b[0]);
    HeadedWith(c, p, a[k], b[0]);
    if a == b && k == 0 {
      HeadMoved(a, m);
    }
  }

  /** Where the target lodges starts with its head, unless that head is the node itself. */
  lemma LodgingIs(a: seq<ListNode>, k: nat, b: seq<ListNode>, m: nat)
    requires k < |a| && m < |b| && (a != b || k != m)
    ensures var c := Lodging(a, k, b, m).0; c != [] && (a != b || k != 0 ==> c[0] == b[0])
  {
  }

  lemma HeadedReordered(c: seq<ListNode>, p: nat, h: ListNode)
    requires p < |c|
    ensures Headed([c[p]] + (c[p + 1..] + c[..p]), h) <==> Headed(c, h)
  {
    var d := [c[p]] + (c[p + 1..] + c[..p]);
    assert forall i :: 0 <= i < |c| ==> c[i] == d[if i >= p then i - p else i + |c| - p];
  }

  lemma CycleBefore(c: seq<ListNode>, p: nat, x: ListNode)
    requires p < |c| && Distinct(c) && x !in c && Linked([c[p]] + (c[p + 1..] + c[..p]) + [x])
    ensures Linked(Before(c, p, x)) && Distinct(Before(c, p, x))
    ensures Linked([x] + (c[p..] + c[..p])) && Distinct([x] + (c[p..] + c[..p]))
  {
    var d := [c[p]] + (c[p + 1..] + c[..p]) + [x];
    assert d == c[p..] + c[..p] + [x];
    RotateLinked(d, |c|);
    assert Rotate(d, |c|) == [x] + (c[p..] + c[..p]);
    RotateLinked(d, if p == 0 then 0 else |c| - p);
    assert Rotate(d, if p == 0 then 0 else |c| - p) == Before(c, p, x);
  }

  lemma CycleAfter(c: seq<ListNode>, p: nat, x: ListNode)
    requires p < |c| && Distinct(c) && x !in c && Linked([c[p]] + ([x] + (c[p + 1..] + c[..p])))
    ensures Linked(After(c, p, x)) && Distinct(After(c, p, x))
    ensures Linked([x] + (c[p + 1..] + c[..p + 1])) && Distinct([x] + (c[p + 1..] + c[..p + 1]))
  {
    var d := [c[p]] + ([x] + (c[p + 1..] + c[..p]));
    RotateLinked(d, 1);
    assert Rotate(d, 1) == [x] + (c[p + 1..] + c[..p + 1]);
    RotateLinked(d, |c| + 1 - p);
    assert Rotate(d, |c| + 1 - p) == After(c, p, x);
  }

  /** What a ring is after its node `k` is removed. */
  ghost predicate Left(a: seq<ListNode>, k: nat)
    requires k < |a|
    reads a
  {
    && Linked(Without(a, k)) && Headed(Without(a, k), a[0])
    && (|a| > 1 ==> (IsRing(Without(a, k)) <==> k != 0))
  }

  lemma Opened(ring: seq<ListNode>, k: nat)
    requires k < |ring| && Distinct(ring) && Linked(ring)
    ensures var c := [ring[k]] + (ring[k + 1..] + ring[..k]); Distinct(c) && Linked(c)
    ensures ring[k] !in ring[k + 1..] + ring[..k]
  {
    RotateLinked(ring, k);
    assert Rotate(ring, k) == [ring[k]] + (ring[k + 1..] + ring[..k]);
  }

  lemma Closed(ring: seq<ListNode>, k: nat)
    requires k < |ring| && Distinct(ring) && Linked(ring[k + 1..] + ring[..k])
    ensures Linked(Without(ring, k)) && Distinct(Without(ring, k))
  {
    var rest := ring[k + 1..] + ring[..k];
    RotateLinked(rest, |ring| - 1 - k);
    assert Rotate(rest, |ring| - 1 - k) == Without(ring, k);
  }

  lemma SelfLinked(x: ListNode)
    ensures x.next == x && x.prev == x ==> Linked([x])
  {
  }

  lemma SelfRing(x: ListNode)
    requires x.next == x && x.prev == x && x.head == x
    ensures IsRing([x])
  {
  }

  lemma OthersHeaded(ring: seq<ListNode>, k: nat)
    requires k < |ring| && Distinct(ring) && Headed(ring, ring[0])
    ensures var w := Without(ring, k);
            Headed(w, ring[0]) && forall i :: 0 <= i < |w| ==> w[i] != ring[k] && w[i] in ring
  {
  }

  lemma Remainder(ring: seq<ListNode>, k: nat)
    requires k < |ring| && Distinct(ring) && Linked(Without(ring, k)) && Headed(Without(ring, k), ring[0])
    ensures |ring| > 1 ==> (IsRing(Without(ring, k)) <==> k != 0)
  {
  }

  // ----- what the resulting sequences are

  /** Inserting puts the node exactly next to its target, adds nothing else, and keeps the
      order of the others: without the node the ring is the old one. */
  lemma BeforePlaces<T>(r: seq<T>, m: nat, x: T) returns (j: nat)
    requires m < |r|
    ensures var q := Before(r, m, x);
            j < |q| && q[j] == x && q[Succ(j, |q|)] == r[m] && Without(q, j) == r && q[0] == r[0]
    ensures multiset(Before(r, m, x)) == multiset(r) + multiset{x}
  {
    j := if m == 0 then |r| else m;
    assert r == r[..m] + r[m..];
  }

  lemma AfterPlaces<T>(r: seq<T>, m: nat, x: T)
    requires m < |r|
    ensures var q := After(r, m, x);
            |q| == |r| + 1 && q[m + 1] == x && q[m] == r[m] && Without(q, m + 1) == r && q[0] == r[0]
    ensures multiset(After(r, m, x)) == multiset(r) + multiset{x}
  {
    assert r == r[..m + 1] + r[m + 1..];
  }

  lemma WithoutLoses<T>(r: seq<T>, k: nat)
    requires k < |r|
    ensures multiset(r) == multiset(Without(r, k)) + multiset{r[k]}
  {
    assert r == r[..k] + ([r[k]] + r[k + 1..]);
  }

  /** A move within a ring keeps its nodes and its head, and the others in their order
      around the ring. */
  lemma MovedBeforePlaces<T>(r: seq<T>, k: nat, m: nat) returns (j: nat, t: nat)
    requires k < |r| && m < |r| && k != m
    ensures var q := MovedBefore(r, k, m);
            && j < |q| && q[j] == r[k] && q[Succ(j, |q|)] == r[m] && q[0] == r[0]
            && t <= |r| - 1 && Without(q, j) == Rotate(Without(r, k), t) && (k != 0 ==> t == 0)
    ensures multiset(MovedBefore(r, k, m)) == multiset(r)
  {
    hide Before, Without, Rotate;
    RotateNone(Without(r, k));
    WithoutAt(r, k, m);
    if k == 0 {
      j, t := 0, m - 1;
      HeadMoves(r, t);
    } else {
      j := BeforePlaces(Without(r, k), if k < m then m - 1 else m, r[k]);
      t := 0;
      WithoutLoses(r, k);
    }
  }

  lemma MovedAfterPlaces<T>(r: seq<T>, k: nat, m: nat) returns (j: nat, t: nat)
    requires k < |r| && m < |r| && k != m
    ensures var q := MovedAfter(r, k, m);
            && j < |q| && q[Succ(j, |q|)] == r[k] && q[j] == r[m] && q[0] == r[0]
            && t <= |r| - 1 && Without(q, Succ(j, |q|)) == Rotate(Without(r, k), t) && (k != 0 ==> t == 0)
    ensures multiset(MovedAfter(r, k, m)) == multiset(r)
  {
    hide After, Without, Rotate;
    RotateNone(Without(r, k));
    WithoutAt(r, k, m);
    if k == 0 {
      j, t := |r| - 1, m;
      HeadMoves(r, t);
    } else {
      j, t := if k < m then m - 1 else m, 0;
      AfterPlaces(Without(r, k), j, r[k]);
      WithoutLoses(r, k);
    }
  }

  lemma WithoutAt<T>(r: seq<T>, k: nat, m: nat)
    requires k < |r| && m < |r| && k != m
    ensures |Without(r, k)| == |r| - 1 && Without(r, k)[if k < m then m - 1 else m] == r[m]
    ensures k != 0 ==> Without(r, k)[0] == r[0]
  {
  }

  lemma RotateNone<T>(r: seq<T>)
    ensures Rotate(r, 0) == r
  {
  }

  /** A head that moves: the others are turned. */
  lemma HeadMoves<T>(r: seq<T>, t: nat)
    requires r != [] && t < |r|
    ensures var q := [r[0]] + (r[t + 1..] + r[1..t + 1]);
            |q| == |r| && q[0] == r[0] && (t > 0 ==> q[|r| - 1] == r[t]) && Without(q, 0) == Rotate(Without(r, 0), t)
            && multiset(q) == multiset(r)
  {
    hide Without;
    var w, q := r[1..], [r[0]] + (r[t + 1..] + r[1..t + 1]);
    WithoutFirst(r);
    WithoutFirst(q);
    assert q[1..] == r[t + 1..] + r[1..t + 1] && w[t..] == r[t + 1..] && w[..t] == r[1..t + 1];
    TurnKeeps(w, t);
    FirstKept(r[0], w, w[t..] + w[..t]);
    assert r == [r[0]] + w;
  }

  lemma WithoutFirst<T>(r: seq<T>)
    requires r != []
    ensures Without(r, 0) == r[1..]
  {
  }

  lemma FirstKept<T>(x: T, y: seq<T>, z: seq<T>)
    requires multiset(y) == multiset(z)
    ensures multiset([x] + y) == multiset([x] + z)
  {
  }

  lemma TurnKeeps<T>(w: seq<T>, t: nat)
    requires t <= |w|
    ensures multiset(w[t..] + w[..t]) == multiset(w)
  {
    assert w == w[..t] + w[t..];
  }

  // ----- whole populations of rings

  /** Any number of rings among the nodes `all`, no two with a node in common; a sequence
      whose last node has gone is empty. */
  ghost predicate Population(rs: seq<seq<ListNode>>, all: set<ListNode>)
    reads all
  {
    && (forall i, n :: 0 <= i < |rs| && n in rs[i] ==> n in all)
    && (forall i :: 0 <= i < |rs| ==> rs[i] == [] || IsRing(rs[i]))
    && (forall i, j :: 0 <= i < j < |rs| ==> Disjoint(rs[i], rs[j]))
  }

  /** Inserting a node anywhere leaves every ring of the population a ring, exactly when
      the node is not the head of others that it leaves behind. */
  method Relocate(x: ListNode, target: ListNode, ghost rs: seq<seq<ListNode>>, ghost all: set<ListNode>,
                  ghost i: nat, ghost k: nat, ghost j: nat, ghost m: nat)
    requires Population(rs, all) && i < |rs| && j < |rs| && k < |rs[i]| && m < |rs[j]|
    requires rs[i][k] == x && rs[j][m] == target && x != target
    modifies rs[i], rs[j]
    ensures i != j
            ==> (Population(rs[i := Without(rs[i], k)][j := Before(rs[j], m, x)], all) <==> k != 0 || |rs[i]| == 1)
    ensures i == j ==> Population(rs[i := MovedBefore(rs[i], k, m)], all)
  {
    OthersApart(rs, i, j);
    hide IsRing, Linked, Headed, Distinct, Disjoint, Before, Without, MovedBefore;
    x.InsertBefore(target, rs[i], k, rs[j], m);
    if i != j {
      BeforeMembers(rs[j], m, x);
      Resettled(rs, all, i, k, j, Before(rs[j], m, x));
    } else {
      MovedMembers(rs[i], k, m);
      Resettled1(rs, all, i, MovedBefore(rs[i], k, m));
    }
  }

  /** The same for inserting behind the target. */
  method RelocateAfter(x: ListNode, target: ListNode, ghost rs: seq<seq<ListNode>>, ghost all: set<ListNode>,
                       ghost i: nat, ghost k: nat, ghost j: nat, ghost m: nat)
    requires Population(rs, all) && i < |rs| && j < |rs| && k < |rs[i]| && m < |rs[j]|
    requires rs[i][k] == x && rs[j][m] == target && x != target
    modifies rs[i], rs[j]
    ensures i != j
            ==> (Population(rs[i := Without(rs[i], k)][j := After(rs[j], m, x)], all) <==> k != 0 || |rs[i]| == 1)
    ensures i == j ==> Population(rs[i := MovedAfter(rs[i], k, m)], all)
  {
    OthersApart(rs, i, j);
    hide IsRing, Linked, Headed, Distinct, Disjoint, After, Without, MovedAfter;
    x.InsertAfter(target, rs[i], k, rs[j], m);
    if i != j {
      AfterMembers(rs[j], m, x);
      Resettled(rs, all, i, k, j, After(rs[j], m, x));
    } else {
      MovedMembers(rs[i], k, m);
      Resettled1(rs, all, i, MovedAfter(rs[i], k, m));
    }
  }

  lemma OthersApart(rs: seq<seq<ListNode>>, i: nat, j: nat)
    requires i < |rs| && j < |rs| && forall p, q :: 0 <= p < q < |rs| ==> Disjoint(rs[p], rs[q])
    ensures forall l, n :: 0 <= l < |rs| && l != i && l != j && n in rs[l] ==> n !in rs[i] && n !in rs[j]
    ensures i != j ==> Disjoint(rs[i], rs[j])
  {
  }

  /** Every ring of the population but the two. */
  ghost predicate OtherRings(rs: seq<seq<ListNode>>, all: set<ListNode>, i: nat, j: nat)
    reads all
  {
    && (forall l, n :: 0 <= l < |rs| && n in rs[l] ==> n in all)
    && (forall l :: 0 <= l < |rs| && l != i && l != j ==> rs[l] == [] || IsRing(rs[l]))
    && (forall p, q :: 0 <= p < q < |rs| ==> Disjoint(rs[p], rs[q]))
  }

  lemma Resettled(rs: seq<seq<ListNode>>, all: set<ListNode>, i: nat, k: nat, j: nat, v: seq<ListNode>)
    requires i < |rs| && j < |rs| && i != j && k < |rs[i]| && OtherRings(rs, all, i, j)
    requires Distinct(rs[i]) && Left(rs[i], k) && IsRing(v) && forall n :: n in v <==> n in rs[j] || n == rs[i][k]
    ensures Population(rs[i := Without(rs[i], k)][j := v], all) <==> k != 0 || |rs[i]| == 1
  {
    WithoutMembers(rs[i], k);
    var w := Without(rs[i], k);
    var rs' := rs[i := w][j := v];
    hide IsRing, Linked, Headed, Distinct, Without, Disjoint;
    forall p, q | 0 <= p < q < |rs| ensures Disjoint(rs'[p], rs'[q]) {
      Shares(rs[p], rs[q]);
      Shares(rs'[p], rs'[q]);
      Shares(rs[if p == j then q else p], rs[i]);
      Shares(rs[i], rs[if p == j then q else p]);
    }
    assert rs'[i] == w && rs'[j] == v;
  }

  lemma Shares<T>(a: seq<T>, b: seq<T>)
    ensures Disjoint(a, b) <==> forall n :: n in a ==> n !in b
  {
    if Disjoint(a, b) {
      forall n | n in a ensures n !in b {
      }
    } else {
      var c, d :| 0 <= c < |a| && 0 <= d < |b| && a[c] == b[d];
      assert a[c] in a && a[c] in b;
    }
  }

  lemma Resettled1(rs: seq<seq<ListNode>>, all: set<ListNode>, i: nat, v: seq<ListNode>)
    requires i < |rs| && OtherRings(rs, all, i, i) && IsRing(v) && forall n :: n in v ==> n in rs[i]
    ensures Population(rs[i := v], all)
  {
    hide IsRing, Disjoint;
    var rs' := rs[i := v];
    forall p, q | 0 <= p < q < |rs| ensures Disjoint(rs'[p], rs'[q]) {
      PartsApart(rs[p], rs[q], rs'[p], rs'[q]);
    }
  }

  lemma PartsApart<T>(a: seq<T>, b: seq<T>, a': seq<T>, b': seq<T>)
    requires Disjoint(a, b) && (forall n :: n in a' ==> n in a) && (forall n :: n in b' ==> n in b)
    ensures Disjoint(a', b')
  {
    forall c, d | 0 <= c < |a'| && 0 <= d < |b'| ensures a'[c] != b'[d] {
      assert a'[c] in a && b'[d] in b;
    }
  }

  lemma MovedMembers<T>(r: seq<T>, k: nat, m: nat)
    requires k < |r| && m < |r| && k != m
    ensures forall n :: n in MovedBefore(r, k, m) ==> n in r
    ensures forall n :: n in MovedAfter(r, k, m) ==> n in r
  {
    var _, _ := MovedBeforePlaces(r, k, m);
    var _, _ := MovedAfterPlaces(r, k, m);
    hide MovedBefore, MovedAfter;
    forall n | n in MovedBefore(r, k, m) ensures n in r {
      assert n in multiset(MovedBefore(r, k, m));
    }
    forall n | n in MovedAfter(r, k, m) ensures n in r {
      assert n in multiset(MovedAfter(r, k, m));
    }
  }

  lemma AfterMembers<T>(r: seq<T>, m: nat, x: T)
    requires m < |r|
    ensures forall n :: n in After(r, m, x) <==> n in r || n == x
  {
    AfterPlaces(r, m, x);
    forall n ensures n in After(r, m, x) <==> n in r || n == x {
      assert n in multiset(After(r, m, x)) <==> n in multiset(r) || n == x;
    }
  }

  lemma BeforeMembers<T>(r: seq<T>, m: nat, x: T)
    requires m < |r|
    ensures forall n :: n in Before(r, m, x) <==> n in r || n == x
  {
    var _ := BeforePlaces(r, m, x);
    forall n ensures n in Before(r, m, x) <==> n in r || n == x {
      assert n in multiset(Before(r, m, x)) <==> n in multiset(r) || n == x;
    }
  }

  lemma WithoutMembers<T>(r: seq<T>, k: nat)
    requires k < |r| && Distinct(r)
    ensures forall n :: n in Without(r, k) <==> n in r && n != r[k]
    ensures |Without(r, k)| == |r| - 1
  {
  }

  /** A fresh node that is put at the tail and the tail that is taken off again leave the
      ring as it was, link by link. */
  method PutAndTake(x: ListNode, target: ListNode, ghost ring: seq<ListNode>, ghost m: nat) returns (tail: ListNode)
    requires IsRing([x]) && IsRing(ring) && m < |ring| && ring[m] == target && x !in ring
    modifies ring, x
    ensures tail == x && IsRing([x]) && IsRing(ring)
    ensures forall n :: n in ring ==> n.prev == old(n.prev) && n.next == old(n.next) && n.head == old(n.head)
  {
    forall i | 0 <= i < |ring| ensures Linkage(ring, i) {
      LinkageOf(ring, i);
    }
    hide Linked;
    x.InsertTail(target, [x], 0, ring, m);
    Neighbours(ring + [x], |ring|);
    tail := target.Tail(ring + [x]);
    tail.Remove(ring + [x], |ring|);
    assert Without(ring + [x], |ring|) == ring;
    forall n | n in ring ensures n.prev == old(n.prev) && n.next == old(n.next) && n.head == old(n.head) {
      var i :| 0 <= i < |ring| && ring[i] == n;
      LinkageOf(ring, i);
      assert old(Linkage(ring, i));
    }
  }

  /** All links of a node of a ring. */
  ghost predicate Linkage(r: seq<ListNode>, i: nat)
    requires i < |r|
    reads r
  {
    r[i].next == r[Succ(i, |r|)] && r[i].prev == r[if i == 0 then |r| - 1 else i - 1] && r[i].head == r[0]
  }

  lemma LinkageOf(r: seq<ListNode>, i: nat)
    requires IsRing(r) && i < |r|
    ensures Linkage(r, i)
  {
    LinkAt(r, i);
    LinkAt(r, if i == 0 then |r| - 1 else i - 1);
  }
}
