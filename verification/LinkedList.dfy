/**
 The circular, doubly linked lists of src/list.h on the heap, refining sequences.
 */
module LinkedList {

  /** ring_mem of src/mm.c without its links: a tracked allocation. */
  datatype Block = Block(p: nat, size: nat, file: string, line: nat, userdata: nat)

  /** A list_head, with the structure it is embedded in as its item. */
  class Node {
    var next: Node?
    var prev: Node?
    var item: Block

    constructor (item: Block)
      ensures this.item == item
    {
      this.item := item;
    }
  }

  ghost predicate Joined(c: seq<Node>, k: nat)
    requires k + 1 < |c|
    reads c
  {
    c[k].next == c[k + 1] && c[k + 1].prev == c[k]
  }

  /** Neighbours in `c` point at each other; the outer pointers of its ends are free. */
  ghost predicate Chain(c: seq<Node>)
    reads c
  {
    forall k :: 0 <= k < |c| - 1 ==> Joined(c, k)
  }

  ghost predicate Distinct(c: seq<Node>) {
    forall i, j :: 0 <= i < j < |c| ==> c[i] != c[j]
  }

  /** The list at `head` holds the nodes `s`, in that order, round and back to `head`. */
  ghost predicate IsList(head: Node, s: seq<Node>)
    reads head, s
  {
    Distinct([head] + s) && Chain([head] + s + [head])
  }

  lemma {:induction false} Glue(a: seq<Node>, b: seq<Node>)
    requires Chain(a) && Chain(b)
    requires a != [] && b != [] ==> a[|a| - 1].next == b[0] && b[0].prev == a[|a| - 1]
    ensures Chain(a + b)
  {
    forall k | 0 <= k < |a + b| - 1
      ensures Joined(a + b, k)
    {
      if k + 1 < |a| {
        assert Joined(a, k);
      } else if k >= |a| {
        assert Joined(b, k - |a|);
      }
    }
  }

  lemma {:induction false} Unglue(a: seq<Node>, b: seq<Node>)
    requires Chain(a + b)
    ensures Chain(a) && Chain(b)
    ensures a != [] && b != [] ==> a[|a| - 1].next == b[0] && b[0].prev == a[|a| - 1]
  {
    forall k | 0 <= k < |a| - 1
      ensures Joined(a, k)
    {
      assert Joined(a + b, k);
    }
    forall k | 0 <= k < |b| - 1
      ensures Joined(b, k)
    {
      assert Joined(a + b, |a| + k);
    }
    if a != [] && b != [] {
      assert Joined(a + b, |a| - 1);
    }
  }

  /** A chain stays one while its inner pointers stay. */
  twostate lemma {:induction false} StillChain(c: seq<Node>)
    requires c != [] && old(Chain(c))
    requires forall n :: n in c[..|c| - 1] ==> n.next == old(n.next)
    requires forall n :: n in c[1..] ==> n.prev == old(n.prev)
    ensures Chain(c)
  {
    forall k | 0 <= k < |c| - 1
      ensures Joined(c, k)
    {
      assert old(Joined(c, k));
      assert c[..|c| - 1][k] == c[k] && c[1..][k] == c[k + 1];
    }
  }

  ghost predicate Disjoint(a: seq<Node>, b: seq<Node>) {
    forall n :: n in a ==> n !in b
  }

  lemma {:induction false} DistinctParts(a: seq<Node>, b: seq<Node>)
    ensures Distinct(a + b) <==> Distinct(a) && Distinct(b) && Disjoint(a, b)
  {
    var c := a + b;
    if Distinct(c) {
      assert forall i :: 0 <= i < |a| ==> c[i] == a[i];
      assert forall i :: 0 <= i < |b| ==> c[|a| + i] == b[i];
      forall i, j | 0 <= i < j < |b|
        ensures b[i] != b[j]
      {
        assert c[|a| + i] != c[|a| + j];
      }
      forall i, j | 0 <= i < |a| && 0 <= j < |b|
        ensures a[i] != b[j]
      {
        assert c[i] != c[|a| + j];
      }
    }
    if Distinct(a) && Distinct(b) && Disjoint(a, b) {
      forall i, j | 0 <= i < j < |c|
        ensures c[i] != c[j]
      {
        if i < |a| <= j {
          assert c[i] in a && c[j] == b[j - |a|];
        }
      }
    }
  }

  lemma {:induction false} Inner(c: seq<Node>)
    requires c != []
    ensures forall n :: n in c[..|c| - 1] ==> n in c
    ensures forall n :: n in c[1..] ==> n in c
  {
  }

  /** INIT_LIST_HEAD */
  method Init(list: Node)
    modifies list
    ensures IsList(list, [])
    ensures list.item == old(list.item)
  {
    list.next := list;
    list.prev := list;
  }

  /** __list_add: between two neighbours, the end of one chain and the start of another. */
  method AddBetween(node: Node, prev: Node, next: Node, ghost a: seq<Node>, ghost b: seq<Node>)
    requires Chain(a) && Chain(b) && a != [] && b != [] && a[|a| - 1] == prev && b[0] == next
    requires node !in a && node !in b
    requires prev !in a[..|a| - 1] && prev !in b[..|b| - 1] && next !in a[1..] && next !in b[1..]
    modifies node`next, node`prev, prev`next, next`prev
    ensures Chain(a + [node] + b)
  {
    next.prev := node;
    node.next := next;
    node.prev := prev;
    prev.next := node;
    StillChain(a);
    StillChain(b);
    Glue(a, [node]);
    Glue(a + [node], b);
  }

  /** list_add: behind the head. */
  method Add(node: Node, head: Node, ghost s: seq<Node>)
    requires IsList(head, s) && node != head && node !in s
    modifies node`next, node`prev, head`next, head`prev, s
    ensures IsList(head, [node] + s)
    ensures forall n :: n in s ==> n.item == old(n.item)
  {
    ghost var a, b := [head], s + [head];
    assert [head] + s + [head] == a + b;
    Unglue(a, b);
    DistinctParts([head], s);
    AddBetween(node, head, head.next, a, b);
    assert [head] + ([node] + s) + [head] == a + [node] + b;
    DistinctParts([node], s);
    DistinctParts([head], [node] + s);
  }

  /** list_add_tail: before the head. */
  method AddTail(node: Node, head: Node, ghost s: seq<Node>)
    requires IsList(head, s) && node != head && node !in s
    modifies node`next, node`prev, head`next, head`prev, s
    ensures IsList(head, s + [node])
    ensures forall n :: n in s ==> n.item == old(n.item)
  {
    ghost var a, b := [head] + s, [head];
    Unglue(a, b);
    DistinctParts([head], s);
    assert a[|a| - 1] == head.prev;
    Split(a);
    AddBetween(node, head.prev, head, a, b);
    assert [head] + (s + [node]) + [head] == a + [node] + b;
    DistinctParts(a, [node]);
    assert a + [node] == [head] + (s + [node]);
  }

  /** The last of distinct nodes is not among the others, nor is the first. */
  lemma {:induction false} Split(c: seq<Node>)
    requires c != [] && Distinct(c)
    ensures c[|c| - 1] !in c[..|c| - 1] && c[0] !in c[1..]
  {
  }

  function Without(s: seq<Node>, k: nat): seq<Node>
    requires k < |s|
  {
    s[..k] + s[k + 1..]
  }

  /** __list_del: the neighbours are made to point at each other. */
  method Bypass(prev: Node, next: Node, ghost a: seq<Node>, ghost b: seq<Node>)
    requires Chain(a) && Chain(b) && a != [] && b != [] && a[|a| - 1] == prev && b[0] == next
    requires prev !in a[..|a| - 1] && prev !in b[..|b| - 1] && next !in a[1..] && next !in b[1..]
    modifies prev`next, next`prev
    ensures Chain(a + b)
  {
    next.prev := prev;
    prev.next := next;
    StillChain(a);
    StillChain(b);
    Glue(a, b);
  }

  /** The two chains on both sides of place `k`. */
  lemma {:induction false} Sides(head: Node, s: seq<Node>, k: nat)
    requires IsList(head, s) && k < |s|
    ensures var a, b := [head] + s[..k], s[k + 1..] + [head];
            && Chain(a) && Chain(b) && s[k].prev == a[|a| - 1] && s[k].next == b[0]
            && a[|a| - 1] !in a[..|a| - 1] && a[|a| - 1] !in b[..|b| - 1]
            && b[0] !in a[1..] && b[0] !in b[1..]
    ensures Distinct([head] + Without(s, k)) && s[k] !in [head] + Without(s, k)
  {
    var a, b := [head] + s[..k], s[k + 1..] + [head];
    var entry := [s[k]];
    assert [head] + s + [head] == a + (entry + b);
    Unglue(a, entry + b);
    Unglue(entry, b);
    assert [head] + s == a + (entry + s[k + 1..]);
    DistinctParts(a, entry + s[k + 1..]);
    DistinctParts(entry, s[k + 1..]);
    DistinctParts(a, s[k + 1..]);
    DistinctParts([head], s[..k]);
    assert a + s[k + 1..] == [head] + Without(s, k);
    Split(a);
    assert forall n :: n in a[1..] ==> n in a;
    if s[k + 1..] != [] {
      Split(s[k + 1..]);
      assert b[1..] == s[k + 1..][1..] + [head];
      assert head in a && b[0] in s[k + 1..];
    } else {
      assert a[1..] == s[..k];
    }
  }

  /** __list_del_entry */
  method DelEntry(entry: Node, ghost head: Node, ghost s: seq<Node>, ghost k: nat)
    requires IsList(head, s) && k < |s| && s[k] == entry
    modifies head`next, head`prev, s
    ensures IsList(head, Without(s, k)) && entry !in [head] + Without(s, k)
    ensures entry.next == old(entry.next) && entry.prev == old(entry.prev)
    ensures forall n :: n in s ==> n.item == old(n.item)
  {
    ghost var a, b := [head] + s[..k], s[k + 1..] + [head];
    Sides(head, s, k);
    assert entry.prev in [head] + s && entry.next in [head] + s;
    Bypass(entry.prev, entry.next, a, b);
    assert [head] + Without(s, k) + [head] == a + b;
  }

  /** list_del */
  method Del(entry: Node, ghost head: Node, ghost s: seq<Node>, ghost k: nat)
    requires IsList(head, s) && k < |s| && s[k] == entry
    modifies head`next, head`prev, s
    ensures IsList(head, Without(s, k)) && entry.next == null && entry.prev == null
    ensures forall n :: n in s ==> n.item == old(n.item)
  {
    DelEntry(entry, head, s, k);
    entry.next := null;
    entry.prev := null;
  }

  /** list_move_tail of an entry of the list itself. */
  method MoveTail(node: Node, head: Node, ghost s: seq<Node>, ghost k: nat)
    requires IsList(head, s) && k < |s| && s[k] == node
    modifies head`next, head`prev, s
    ensures IsList(head, Without(s, k) + [node])
  {
    DelEntry(node, head, s, k);
    AddTail(node, head, Without(s, k));
  }

  /** list_move_tail of an entry of another list. */
  method MoveTailAcross(node: Node, head: Node, ghost from: Node, ghost s: seq<Node>, ghost k: nat, ghost t: seq<Node>)
    requires IsList(from, s) && k < |s| && s[k] == node
    requires IsList(head, t) && Disjoint([from] + s, [head] + t)
    modifies from`next, from`prev, s, head`next, head`prev, t
    ensures IsList(head, t + [node]) && IsList(from, Without(s, k))
  {
    DelBeside(node, from, s, k, head, t);
    Apart(from, s, head, t);
    assert forall n :: n in [from] + Without(s, k) ==> n in [from] + s;
    AddTailBeside(node, head, t, from, Without(s, k));
  }

  /** Another list stays as it is. */
  method DelBeside(node: Node, ghost from: Node, ghost s: seq<Node>, ghost k: nat, ghost head: Node, ghost t: seq<Node>)
    requires IsList(from, s) && k < |s| && s[k] == node
    requires IsList(head, t) && Disjoint([from] + s, [head] + t)
    modifies from`next, from`prev, s
    ensures IsList(from, Without(s, k)) && node !in [from] + Without(s, k) && IsList(head, t)
  {
    Apart(from, s, head, t);
    DelEntry(node, from, s, k);
    ghost var c := [head] + t + [head];
    assert forall n :: n in c ==> n == head || n in t;
    forall i | 0 <= i < |c| - 1
      ensures Joined(c, i)
    {
      assert old(Joined(c, i)) && c[i] in c && c[i + 1] in c;
    }
  }

  method AddTailBeside(node: Node, head: Node, ghost t: seq<Node>, ghost from: Node, ghost rest: seq<Node>)
    requires IsList(head, t) && node != head && node !in t
    requires IsList(from, rest) && Disjoint([from] + rest, [head] + t) && node !in [from] + rest
    modifies node`next, node`prev, head`next, head`prev, t
    ensures IsList(head, t + [node]) && IsList(from, rest)
  {
    Apart(from, rest, head, t);
    assert from in [from] + rest && forall n :: n in rest ==> n in [from] + rest;
    AddTail(node, head, t);
    ghost var c := [from] + rest + [from];
    assert forall n :: n in c ==> n == from || n in rest;
    forall k | 0 <= k < |c| - 1
      ensures Joined(c, k)
    {
      assert old(Joined(c, k)) && c[k] in c && c[k + 1] in c;
    }
  }

  lemma {:induction false} Apart(from: Node, s: seq<Node>, head: Node, t: seq<Node>)
    requires Disjoint([from] + s, [head] + t)
    ensures   && from != head && head !in s && from !in t
              && (forall n :: n in t ==> n !in s) && (forall n :: n in s ==> n !in t)
  {
    assert from in [from] + s && head in [head] + t;
    assert forall n :: n in s ==> n in [from] + s;
    assert forall n :: n in t ==> n in [head] + t;
  }

  /** list_rotate_left */
  method RotateLeft(head: Node, ghost s: seq<Node>)
    requires IsList(head, s)
    modifies head`next, head`prev, s
    ensures IsList(head, if s == [] then [] else s[1..] + [s[0]])
  {
    assert Joined([head] + s + [head], 0);
    var first := head.next;
    if first != head {
      DistinctParts([head], s);
      assert s != [] && first == s[0];
      assert Without(s, 0) == s[1..];
      MoveTail(first, head, s, 0);
    } else {
      DistinctParts([head], s);
    }
  }

  // ----- cutting and splicing

  /**
   list_cut_position: the first `k` entries move to `list`. An empty list is not cut, and
   `list` is then left alone.
   */
  method CutPosition(list: Node, head: Node, entry: Node, ghost s: seq<Node>, ghost k: nat)
    requires IsList(head, s) && list !in [head] + s
    requires k <= |s| && entry == if k == 0 then head else s[k - 1]
    modifies list`next, list`prev, head`next, head`prev, s
    ensures s != [] ==> IsList(list, s[..k]) && IsList(head, s[k..])
    ensures s == [] ==> list.next == old(list.next) && list.prev == old(list.prev) && IsList(head, s)
  {
    assert Joined([head] + s + [head], 0);
    DistinctParts([head], s);
    if head.next == head {
      return;
    }
    assert k > 0 ==> entry in s;
    if entry == head {
      InitBeside(list, head, s);
      assert s[..k] == [] && s[k..] == s;
    } else {
      Cut(list, head, entry, s, k);
    }
  }

  method InitBeside(list: Node, head: Node, ghost s: seq<Node>)
    requires IsList(head, s) && list !in [head] + s
    modifies list`next, list`prev
    ensures IsList(list, []) && IsList(head, s)
  {
    list.next := list;
    list.prev := list;
    assert head in [head] + s;
    assert forall n :: n in s ==> n in [head] + s;
    ghost var c := [head] + s + [head];
    assert forall n :: n in c ==> n == head || n in s;
    forall k | 0 <= k < |c| - 1
      ensures Joined(c, k)
    {
      assert old(Joined(c, k)) && c[k] in c && c[k + 1] in c;
    }
  }

  /** __list_cut_position */
  method Cut(list: Node, head: Node, entry: Node, ghost s: seq<Node>, ghost k: nat)
    requires IsList(head, s) && list !in [head] + s
    requires 1 <= k <= |s| && entry == s[k - 1]
    modifies list`next, list`prev, head`next, head`prev, s
    ensures IsList(list, s[..k]) && IsList(head, s[k..])
  {
    ghost var a, b := s[..k], s[k..] + [head];
    hide IsList, Chain;
    CutSides(head, s, k);
    Inner(a);
    Inner(b);
    CutWithin(head, s, k);
    var newFirst := entry.next;
    assert entry in a && head.next in a && newFirst in b;
    list.next := head.next;
    list.next.prev := list;
    list.prev := entry;
    entry.next := list;
    head.next := newFirst;
    newFirst.prev := head;
    StillChain(a);
    StillChain(b);
    RingOf(list, a);
    Glue([head], b);
    assert [head] + s[k..] + [head] == [head] + b;
  }

  /** A chain whose ends and whose head point at each other. */
  lemma {:induction false} RingOf(head: Node, s: seq<Node>)
    requires s != [] && Chain(s) && s[|s| - 1].next == head && head.prev == s[|s| - 1]
    requires head.next == s[0] && s[0].prev == head
    ensures Chain([head] + s + [head])
  {
    Glue([head], s);
    Glue([head] + s, [head]);
  }

  lemma {:induction false} CutWithin(head: Node, s: seq<Node>, k: nat)
    requires k <= |s|
    ensures forall n :: n in s[..k] || n in s[k..] + [head] ==> n in [head] + s
    ensures head in [head] + s && head in s[k..] + [head]
  {
  }

  /** The two chains on both sides of a cut, and that their ends are apart. */
  lemma {:induction false} CutSides(head: Node, s: seq<Node>, k: nat)
    requires IsList(head, s) && 1 <= k <= |s|
    ensures var a, b := s[..k], s[k..] + [head];
            && Chain(a) && Chain(b) && s[k - 1].next == b[0] && head.next == s[0]
            && head !in a && s[k - 1] !in a[..k - 1] && s[0] !in a[1..]
            && (forall n :: n in a ==> n !in b)
            && b[0] !in b[1..] && head !in b[..|b| - 1]
    ensures Distinct(s[..k]) && Distinct([head] + s[k..])
  {
    var a, b := s[..k], s[k..] + [head];
    assert [head] + s + [head] == [head] + (a + b);
    Unglue([head], a + b);
    Unglue(a, b);
    DistinctParts([head], s);
    assert s == a + s[k..];
    DistinctParts(a, s[k..]);
    assert forall n :: n in a || n in s[k..] ==> n in s;
    assert head in [head];
    DistinctParts([head], s[k..]);
    Split(a);
    if s[k..] != [] {
      Split(s[k..]);
      assert b[1..] == s[k..][1..] + [head];
    }
  }

  /** __list_splice: all of another list goes between two neighbours. */
  method SpliceBetween(list: Node, prev: Node, next: Node, ghost l: seq<Node>, ghost a: seq<Node>, ghost b: seq<Node>)
    requires IsList(list, l) && l != []
    requires Chain(a) && Chain(b) && a != [] && b != [] && a[|a| - 1] == prev && b[0] == next
    requires prev !in a[..|a| - 1] && prev !in b[..|b| - 1] && next !in a[1..] && next !in b[1..]
    requires forall n :: n in l ==> n !in a && n !in b
    modifies prev`next, next`prev, l
    ensures Chain(a + l + b)
  {
    SpliceEnds(list, l);
    Inner(a);
    Inner(l);
    Inner(b);
    var first := list.next;
    var last := list.prev;
    assert first in l && last in l && prev in a && next in b;
    first.prev := prev;
    prev.next := first;
    last.next := next;
    next.prev := last;
    StillChain(a);
    StillChain(l);
    StillChain(b);
    Glue(a, l);
    Glue(a + l, b);
  }

  lemma {:induction false} SpliceEnds(list: Node, l: seq<Node>)
    requires IsList(list, l) && l != []
    ensures Chain(l) && list.next == l[0] && list.prev == l[|l| - 1]
    ensures l[0] !in l[1..] && l[|l| - 1] !in l[..|l| - 1]
  {
    assert [list] + l + [list] == [list] + (l + [list]);
    Unglue([list], l + [list]);
    Unglue(l, [list]);
    DistinctParts([list], l);
    Split(l);
  }

  /** list_splice: in front of the entries of `head`. The emptied head still points at them. */
  method Splice(list: Node, head: Node, ghost l: seq<Node>, ghost s: seq<Node>)
    requires IsList(list, l) && IsList(head, s) && Disjoint([list] + l, [head] + s)
    modifies head`next, head`prev, s, l
    ensures IsList(head, l + s)
    ensures list.next == old(list.next) && list.prev == old(list.prev)
  {
    Apart(list, l, head, s);
    DistinctParts([head], s);
    DistinctParts([list], l);
    assert list in [list];
    DistinctParts(l, s);
    DistinctParts([head], l + s);
    if list.next != list {
      ghost var a, b := [head], s + [head];
      assert [head] + s + [head] == a + b;
      Unglue(a, b);
      NotEmpty(list, l);
      SpliceBetween(list, head, head.next, l, a, b);
      assert [head] + (l + s) + [head] == a + l + b;
    } else {
      Empty(list, l);
      assert l + s == s;
    }
  }

  lemma {:induction false} NotEmpty(list: Node, l: seq<Node>)
    requires IsList(list, l) && list.next != list
    ensures l != []
  {
    assert Joined([list] + l + [list], 0);
  }

  lemma {:induction false} Empty(list: Node, l: seq<Node>)
    requires IsList(list, l) && list.next == list
    ensures l == []
  {
    assert Joined([list] + l + [list], 0);
    DistinctParts([list], l);
  }

  /** list_splice_tail: behind the entries of `head`. */
  method SpliceTail(list: Node, head: Node, ghost l: seq<Node>, ghost s: seq<Node>)
    requires IsList(list, l) && IsList(head, s) && Disjoint([list] + l, [head] + s)
    modifies head`next, head`prev, s, l
    ensures IsList(head, s + l)
    ensures list.next == old(list.next) && list.prev == old(list.prev)
  {
    Apart(list, l, head, s);
    DistinctParts([head], s);
    DistinctParts([list], l);
    assert list in [list];
    DistinctParts(s, l);
    DistinctParts([head], s + l);
    if list.next != list {
      ghost var a, b := [head] + s, [head];
      Unglue(a, b);
      Split(a);
      NotEmpty(list, l);
      SpliceBetween(list, head.prev, head, l, a, b);
      assert [head] + (s + l) + [head] == a + l + b;
    } else {
      Empty(list, l);
      assert s + l == s;
    }
  }

  /** list_splice_init and list_splice_tail_init: the emptied list is a list again. */
  method SpliceInit(list: Node, head: Node, tail: bool, ghost l: seq<Node>, ghost s: seq<Node>)
    requires IsList(list, l) && IsList(head, s) && Disjoint([list] + l, [head] + s)
    modifies list, head`next, head`prev, s, l
    ensures IsList(head, if tail then s + l else l + s) && IsList(list, [])
  {
    Apart(list, l, head, s);
    DistinctParts([list], l);
    if list.next != list {
      if tail {
        SpliceTail(list, head, l, s);
        InitBeside(list, head, s + l);
      } else {
        Splice(list, head, l, s);
        InitBeside(list, head, l + s);
      }
    } else {
      Empty(list, l);
      assert s + l == s && l + s == s;
    }
  }

  /** Main result: cutting anywhere and splicing back in front restores the list. */
  method CutThenSplice(list: Node, head: Node, entry: Node, ghost s: seq<Node>, ghost k: nat)
    requires IsList(head, s) && list !in [head] + s && s != []
    requires k <= |s| && entry == if k == 0 then head else s[k - 1]
    modifies list, head`next, head`prev, s
    ensures IsList(head, s) && IsList(list, [])
  {
    CutPosition(list, head, entry, s, k);
    CutApart(list, head, s, k);
    SpliceInit(list, head, false, s[..k], s[k..]);
    assert s[..k] + s[k..] == s;
  }

  lemma {:induction false} CutApart(list: Node, head: Node, s: seq<Node>, k: nat)
    requires list !in [head] + s && Distinct([head] + s) && k <= |s|
    ensures Disjoint([list] + s[..k], [head] + s[k..])
  {
    DistinctParts([head], s);
    assert s == s[..k] + s[k..];
    DistinctParts(s[..k], s[k..]);
    assert forall n :: n in s ==> n in [head] + s;
    assert head in [head] + s;
  }
}
