/**
  The circular doubly linked list of bio.c. Node NBUF is the head; `order` lists the other
  nodes on the ring, most recently released first.
 */
module CacheList {
  import opened CacheModel

  const HEAD := NBUF

  /** The ring as it is walked: the head, the nodes of `order`, the head again. */
  function Node(order: seq<nat>, i: nat): nat {
    if 1 <= i <= |order| then order[i - 1] else HEAD
  }

  ghost predicate Ring(prev: seq<nat>, next: seq<nat>, order: seq<nat>) {
    && |prev| == |next| == NBUF + 1
    && (forall i :: 0 <= i < |order| ==> order[i] < NBUF)
    && (forall i, j :: 0 <= i < j < |order| ==> order[i] != order[j])
    && (forall i :: 0 <= i <= |order| ==> next[Node(order, i)] == Node(order, i + 1))
    && (forall i :: 0 <= i <= |order| ==> prev[Node(order, i + 1)] == Node(order, i))
  }

  function Without(order: seq<nat>, i: nat): (r: seq<nat>)
    requires i < |order|
    ensures |r| == |order| - 1
    ensures forall j :: 0 <= j < |r| ==> r[j] == order[if j < i then j else j + 1]
  {
    order[..i] + order[i + 1..]
  }

  /** Taking the node at position `i` out leaves the ring of the others. */
  lemma Unlinked(prev: seq<nat>, next: seq<nat>, order: seq<nat>, i: nat)
    requires Ring(prev, next, order) && i < |order|
    ensures var b := order[i];
            && |prev| == |next| == NBUF + 1 && b < NBUF && next[b] <= NBUF && prev[b] <= NBUF && b !in Without(order, i)
            && Ring(prev[next[b] := prev[b]], next[prev[b] := next[b]], Without(order, i))
  {
    var b, o := order[i], Without(order, i);
    assert b == Node(order, i + 1);
    assert next[b] == Node(order, i + 2) && prev[b] == Node(order, i);
    var p, n := prev[next[b] := prev[b]], next[prev[b] := next[b]];
    forall j | 0 <= j <= |o|
      ensures n[Node(o, j)] == Node(o, j + 1)
      ensures p[Node(o, j + 1)] == Node(o, j)
    {
      var k := if j <= i then j else j + 1;
      assert Node(o, j) == Node(order, k);
      assert next[Node(order, k)] == Node(order, k + 1) && prev[Node(order, k + 1)] == Node(order, k);
      assert Node(o, j + 1) == Node(order, if j < i then j + 1 else j + 2);
    }
  }

  /** Putting a node that is not on the ring right after the head. */
  lemma Pushed(prev: seq<nat>, next: seq<nat>, order: seq<nat>, b: nat)
    requires Ring(prev, next, order) && b < NBUF && b !in order
    ensures |prev| == |next| == NBUF + 1 && next[HEAD] <= NBUF
    ensures Ring(prev[b := HEAD][next[HEAD] := b], next[b := next[HEAD]][HEAD := b], [b] + order)
  {
    var o := [b] + order;
    assert next[Node(order, 0)] == Node(order, 1);
    var p, n := prev[b := HEAD][next[HEAD] := b], next[b := next[HEAD]][HEAD := b];
    assert forall i :: 0 <= i <= |order| + 1 ==> Node(o, i + 1) == if i == 0 then b else Node(order, i);
    forall j | 0 <= j <= |o|
      ensures n[Node(o, j)] == Node(o, j + 1)
      ensures p[Node(o, j + 1)] == Node(o, j)
    {
      if j >= 1 {
        assert next[Node(order, j - 1)] == Node(order, j) && prev[Node(order, j)] == Node(order, j - 1);
      }
    }
  }

  /** Every buffer is on the ring, most recently released first. */
  ghost predicate Sorted(order: seq<nat>, stamp: seq<int>) {
    && |order| == |stamp| == NBUF
    && (forall i :: 0 <= i < NBUF ==> order[i] < NBUF)
    && (forall i, j :: 0 <= i < j < NBUF ==> stamp[order[i]] > stamp[order[j]])
    && (forall b :: 0 <= b < NBUF ==> b in order)
  }

  lemma Position(order: seq<nat>, stamp: seq<int>, b: nat) returns (i: nat)
    requires Sorted(order, stamp) && b < NBUF
    ensures i < |order| == NBUF && order[i] == b
  {
    assert b in order;
    i :| 0 <= i < |order| && order[i] == b;
  }

  /** A buffer released now goes to the front. */
  lemma ReleasedFirst(order: seq<nat>, stamp: seq<int>, i: nat, now: int)
    requires Sorted(order, stamp) && i < NBUF && forall b :: 0 <= b < NBUF ==> stamp[b] < now
    ensures Sorted([order[i]] + Without(order, i), stamp[order[i] := now])
  {
    var b := order[i];
    var o := [b] + Without(order, i);
    assert forall j :: 0 <= j < NBUF && j != i ==> order[j] != b;
    forall c | 0 <= c < NBUF
      ensures c in o
    {
      assert c in order;
      var j :| 0 <= j < |order| && order[j] == c;
      assert c == if j == i then o[0] else if j < i then o[j + 1] else o[j];
    }
  }

  lemma CountedDown(o: seq<nat>)
    requires |o| == NBUF && forall i :: 0 <= i < NBUF ==> o[i] == NBUF - 1 - i
    ensures Sorted(o, seq(NBUF, i => i))
  {
    forall b | 0 <= b < NBUF
      ensures b in o
    {
      var i := NBUF - 1 - b;
      assert o[i] == b;
    }
  }

  /** A walk over the whole ring that meets no buffer with the block has looked at every buffer. */
  lemma NoneHas(order: seq<nat>, stamp: seq<int>, bufs: seq<Buf>, k: nat)
    requires Sorted(order, stamp) && |bufs| == NBUF && forall j :: 0 <= j < NBUF ==> !Has(bufs[order[j]], k)
    ensures forall c :: 0 <= c < NBUF ==> !Has(bufs[c], k)
  {
    forall c | 0 <= c < NBUF
      ensures !Has(bufs[c], k)
    {
      assert c in order;
      var j :| 0 <= j < |order| && order[j] == c;
      assert !Has(bufs[order[j]], k);
    }
  }

  /** The first idle buffer met from the back is the least recently released one. */
  lemma FirstFromBack(order: seq<nat>, s: State, i: nat)
    requires Shape(s) && Sorted(order, s.stamp) && i <= NBUF && forall j :: i <= j < NBUF ==> !Idle(s.bufs[order[j]])
    ensures i == 0 ==> forall c :: 0 <= c < NBUF ==> !Idle(s.bufs[c])
    ensures i > 0 && Idle(s.bufs[order[i - 1]]) ==> Victim(s, order[i - 1])
  {
    forall c | 0 <= c < NBUF && Idle(s.bufs[c])
      ensures i > 0 && s.stamp[order[i - 1]] <= s.stamp[c]
    {
      assert c in order;
      var j :| 0 <= j < |order| && order[j] == c;
      assert j < i;
    }
  }
}
