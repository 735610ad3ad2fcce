/**
 The leak tracker of src/mm.c on top of the circular list: over any run of allocations the
 ring holds exactly the live tracked blocks, and the final check reports each of them once.
 */
module AllocationRing {
  import opened LinkedList

  /** What a caller asks for; the pointers that malloc and realloc give are part of it. */
  datatype Op = Malloc(b: Block) | Realloc(old_p: nat, b: Block) | Free(p: nat)

  const NULL: nat := 0

  // ----- what each call does to the blocks in the ring

  function Remove(blocks: seq<Block>, p: nat): seq<Block> {
    if blocks == [] then []
    else if blocks[0].p == p then blocks[1..]
    else [blocks[0]] + Remove(blocks[1..], p)
  }

  function Retarget(blocks: seq<Block>, p: nat, b: Block): seq<Block> {
    seq(|blocks|, i requires 0 <= i < |blocks| => if blocks[i].p == p then b else blocks[i])
  }

  lemma {:induction false} RetargetIs(before: seq<Block>, after: seq<Block>, p: nat, b: Block)
    requires |after| == |before|
    requires forall k :: 0 <= k < |before| ==> after[k] == if before[k].p == p then b else before[k]
    ensures after == Retarget(before, p, b)
  {
  }

  function Apply(blocks: seq<Block>, op: Op): seq<Block> {
    match op
    case Malloc(b) => if b.p == NULL then blocks else [b] + blocks
    case Realloc(p, b) =>
      if p == NULL then (if b.p == NULL then blocks else [b] + blocks)
      else if b.size == 0 then Remove(blocks, p)
      else if b.p == NULL then blocks
      else Retarget(blocks, p, b)
    case Free(p) => if p == NULL then blocks else Remove(blocks, p)
  }

  predicate Fresh(blocks: seq<Block>, p: nat) {
    forall i :: 0 <= i < |blocks| ==> blocks[i].p != p
  }

  /** The allocator never gives a pointer that is still live; realloc may give its own back. */
  predicate Legit(blocks: seq<Block>, op: Op) {
    match op
    case Malloc(b) => b.p == NULL || Fresh(blocks, b.p)
    case Realloc(p, b) => b.p == NULL || b.p == p || Fresh(blocks, b.p)
    case Free(_) => true
  }

  predicate DistinctPointers(blocks: seq<Block>) {
    forall i, j :: 0 <= i < j < |blocks| ==> blocks[i].p != blocks[j].p
  }

  // ----- the ring itself

  ghost function Items(s: seq<Node>): (r: seq<Block>)
    reads s
    ensures |r| == |s|
  {
    seq(|s|, i requires 0 <= i < |s| reads s => s[i].item)
  }

  /** The node that `pos` reaches after `i` steps round the list. */
  function Position(head: Node, s: seq<Node>, i: nat): Node {
    if i < |s| then s[i] else head
  }

  lemma {:induction false} Around(head: Node, s: seq<Node>, i: nat)
    requires IsList(head, s)
    ensures i == 0 ==> head.next == Position(head, s, 0)
    ensures i < |s| ==> s[i].next == Position(head, s, i + 1) && s[i] != head
  {
    var c := [head] + s + [head];
    assert Joined(c, 0);
    if i < |s| {
      assert Joined(c, i + 1) && c[i + 1] == s[i];
      DistinctParts([head], s);
      assert s[i] in s && head in [head];
    }
  }

  lemma {:induction false} RemoveAt(blocks: seq<Block>, p: nat, i: nat)
    requires i < |blocks| && blocks[i].p == p && Fresh(blocks[..i], p)
    ensures Remove(blocks, p) == blocks[..i] + blocks[i + 1..]
  {
    if i > 0 {
      assert blocks[0] == blocks[..i][0];
      assert blocks[1..][..i - 1] == blocks[..i][1..];
      RemoveAt(blocks[1..], p, i - 1);
    }
  }

  lemma {:induction false} RemoveNone(blocks: seq<Block>, p: nat)
    requires Fresh(blocks, p)
    ensures Remove(blocks, p) == blocks
  {
    if blocks != [] {
      assert forall k :: 0 <= k < |blocks| - 1 ==> blocks[1..][k] == blocks[k + 1];
      RemoveNone(blocks[1..], p);
    }
  }

  /** Every call keeps the pointers distinct. */
  lemma {:induction false} ApplyKeepsDistinct(blocks: seq<Block>, op: Op)
    requires DistinctPointers(blocks) && Legit(blocks, op)
    ensures DistinctPointers(Apply(blocks, op))
  {
    match op
    case Malloc(_) =>
    case Realloc(p, _) => RemoveKeepsDistinct(blocks, p);
    case Free(p) => RemoveKeepsDistinct(blocks, p);
  }

  lemma {:induction false} RemoveKeepsDistinct(blocks: seq<Block>, p: nat)
    requires DistinctPointers(blocks)
    ensures DistinctPointers(Remove(blocks, p))
  {
    if i :| 0 <= i < |blocks| && blocks[i].p == p {
      assert forall k :: 0 <= k < i ==> blocks[..i][k] == blocks[k] && blocks[k].p != p;
      RemoveAt(blocks, p, i);
    } else {
      RemoveNone(blocks, p);
    }
  }

  class Ring {
    const head: Node

    /** The nodes of the ring in order. */
    ghost var nodes: seq<Node>

    ghost predicate Valid()
      reads this, head, nodes
    {
      IsList(head, nodes) && DistinctPointers(Blocks())
    }

    ghost function Blocks(): seq<Block>
      reads this, nodes
    {
      Items(nodes)
    }

    /** ring_init_check */
    constructor ()
      ensures Valid() && Blocks() == [] && fresh(head)
    {
      head := new Node(Block(NULL, 0, "", 0, 0));
      nodes := [];
      new;
      Init(head);
    }

    /** ring_malloc: `b.p` is what malloc gave. */
    method Malloc(b: Block) returns (p: nat)
      requires Valid() && Legit(Blocks(), Op.Malloc(b))
      modifies this, head, nodes
      ensures Valid() && Blocks() == Apply(old(Blocks()), Op.Malloc(b)) && p == b.p
      ensures fresh(set n | n in nodes && n !in old(nodes))
    {
      p := b.p;
      if p == NULL {
        return;
      }
      ghost var before := Blocks();
      var mem := new Node(b);
      Add(mem, head, nodes);
      nodes := [mem] + nodes;
      assert Blocks() == [b] + before;
    }

    /** The node with pointer `p`, if there is one: the search loop of ring_free. */
    method Find(p: nat) returns (pos: Node, ghost i: nat)
      requires Valid()
      ensures i <= |nodes| && pos == Position(head, nodes, i) && Fresh(Blocks()[..i], p)
      ensures i < |nodes| ==> Blocks()[i].p == p && pos != head
      ensures pos == head <==> Fresh(Blocks(), p)
    {
      i := 0;
      Around(head, nodes, 0);
      pos := head.next;
      while pos != head
        invariant i <= |nodes| && pos == Position(head, nodes, i) && Fresh(Blocks()[..i], p)
        decreases |nodes| - i
      {
        Around(head, nodes, i);
        if pos.item.p == p {
          return;
        }
        pos := pos.next;
        i := i + 1;
      }
      if i < |nodes| {
        Around(head, nodes, i);
      }
      assert Blocks()[..|nodes|] == Blocks();
    }

    /** list_del and free of the node at place `i`. */
    method Take(pos: Node, ghost i: nat)
      requires IsList(head, nodes) && i < |nodes| && pos == nodes[i]
      modifies `nodes, head, nodes
      ensures nodes == Without(old(nodes), i) && IsList(head, nodes)
      ensures Blocks() == old(Blocks())[..i] + old(Blocks())[i + 1..]
    {
      ghost var before := Blocks();
      Del(pos, head, nodes, i);
      nodes := Without(nodes, i);
      assert Blocks() == before[..i] + before[i + 1..];
    }

    /** ring_free */
    method Free(p: nat)
      requires Valid()
      modifies this, head, nodes
      ensures Valid() && Blocks() == Apply(old(Blocks()), Op.Free(p))
    {
      hide IsList, Items, DistinctPointers, Remove;
      ApplyKeepsDistinct(Blocks(), Op.Free(p));
      if p != NULL {
        ghost var before := Blocks();
        var pos, i := Find(p);
        if pos != head {
          RemoveAt(before, p, i);
          Take(pos, i);
        } else {
          assert before[..i] == before;
          RemoveNone(before, p);
        }
      }
    }

    /** ring_realloc: `b.p` is what realloc gave. A pointer that is not tracked is let through. */
    method Realloc(p: nat, b: Block) returns (r: nat)
      requires Valid() && Legit(Blocks(), Op.Realloc(p, b))
      modifies this, head, nodes
      ensures Valid() && Blocks() == Apply(old(Blocks()), Op.Realloc(p, b))
      ensures r == if p != NULL && b.size == 0 then NULL else b.p
    {
      if p == NULL {
        r := Malloc(b);
      } else if b.size == 0 {
        Free(p);
        r := NULL;
      } else {
        r := b.p;
        ApplyKeepsDistinct(Blocks(), Op.Realloc(p, b));
        if r != NULL {
          Update(p, b);
        }
      }
    }

    /** The fields of the block at place `i` are set. */
    method SetItem(pos: Node, ghost i: nat, b: Block)
      requires IsList(head, nodes) && i < |nodes| && pos == nodes[i]
      modifies pos`item
      ensures IsList(head, nodes) && pos.item == b
      ensures forall k :: 0 <= k < |nodes| && k != i ==> nodes[k].item == old(nodes[k].item)
    {
      DistinctParts([head], nodes);
      pos.item := b;
      StillChain([head] + nodes + [head]);
    }

    /** The loop of ring_realloc over all tracked blocks. */
    method Update(p: nat, b: Block)
      requires IsList(head, nodes)
      modifies nodes
      ensures IsList(head, nodes) && Blocks() == Retarget(old(Blocks()), p, b)
    {
      ghost var before := Blocks();
      ghost var i := 0;
      Around(head, nodes, 0);
      var pos := head.next;
      while pos != head
        invariant i <= |nodes| && pos == Position(head, nodes, i) && IsList(head, nodes)
        invariant forall k :: 0 <= k < i ==> nodes[k].item == if before[k].p == p then b else before[k]
        invariant forall k :: i <= k < |nodes| ==> nodes[k].item == before[k]
        decreases |nodes| - i
      {
        Around(head, nodes, i);
        if pos.item.p == p {
          SetItem(pos, i, b);
        }
        pos := pos.next;
        i := i + 1;
      }
      if i < |nodes| {
        Around(head, nodes, i);
      }
      assert forall k :: 0 <= k < |nodes| ==> Blocks()[k] == nodes[k].item;
      RetargetIs(before, Blocks(), p, b);
    }

    /** The first block leaves the ring; `next` is where the walk goes on. */
    method TakeFirst(pos: Node) returns (item: Block, next: Node)
      requires IsList(head, nodes) && nodes != [] && pos == nodes[0]
      modifies `nodes, head, nodes
      ensures IsList(head, nodes) && nodes == old(nodes)[1..] && Blocks() == old(Blocks())[1..]
      ensures item == old(Blocks())[0] && next == Position(head, nodes, 0)
    {
      hide IsList;
      Around(head, nodes, 0);
      item, next := pos.item, pos.next;
      ghost var before := Blocks();
      Take(pos, 0);
      assert before[..0] + before[0 + 1..] == before[1..];
    }

    /** ring_clean_check: what the callback is given, in order; the ring is empty afterwards. */
    method CleanCheck(hasCallback: bool) returns (reports: seq<Block>)
      requires Valid()
      modifies this, head, nodes
      ensures Valid() && Blocks() == []
      ensures reports == if hasCallback then old(Blocks()) else []
    {
      hide IsList, Items;
      ghost var all, whole := Blocks(), nodes;
      reports := [];
      ghost var done := 0;
      Around(head, nodes, 0);
      var pos := head.next;
      while pos != head
        invariant IsList(head, nodes) && done <= |all| == |whole| && nodes == whole[done..]
        invariant pos == Position(head, nodes, 0) && Blocks() == all[done..]
        invariant reports == if hasCallback then all[..done] else []
        decreases |nodes|
      {
        Around(head, nodes, 0);
        var item;
        item, pos := TakeFirst(pos);
        if hasCallback {
          reports := reports + [item];
        }
        done := done + 1;
      }
      if nodes != [] {
        Around(head, nodes, 0);
      }
    }
  }

  // ----- whole runs against the client's own books

  /** What the client holds: each pointer with its latest size, place and data. */
  function Own(live: map<nat, Block>, op: Op): map<nat, Block> {
    match op
    case Malloc(b) => if b.p == NULL then live else live[b.p := b]
    case Realloc(p, b) =>
      if p == NULL then (if b.p == NULL then live else live[b.p := b])
      else if b.size == 0 then live - {p}
      else if b.p == NULL || p !in live then live
      else (live - {p})[b.p := b]
    case Free(p) => live - {p}
  }

  ghost predicate Represents(blocks: seq<Block>, live: map<nat, Block>) {
    && DistinctPointers(blocks)
    && (forall b :: b in blocks ==> b.p in live && live[b.p] == b && b.p != NULL)
    && (forall p :: p in live ==> live[p] in blocks && live[p].p == p)
  }

  function RingAfter(ops: seq<Op>): seq<Block> {
    if ops == [] then [] else Apply(RingAfter(ops[..|ops| - 1]), ops[|ops| - 1])
  }

  function LiveAfter(ops: seq<Op>): map<nat, Block> {
    if ops == [] then map[] else Own(LiveAfter(ops[..|ops| - 1]), ops[|ops| - 1])
  }

  predicate LegitRun(ops: seq<Op>) {
    ops == [] || (LegitRun(ops[..|ops| - 1]) && Legit(RingAfter(ops[..|ops| - 1]), ops[|ops| - 1]))
  }

  /** Main result: over any run the ring holds exactly the live blocks, each once. */
  lemma {:induction false} RingIsLive(ops: seq<Op>)
    requires LegitRun(ops)
    ensures Represents(RingAfter(ops), LiveAfter(ops))
  {
    hide Represents, Apply, Own;
    if ops == [] {
      NothingLive();
    } else {
      RingIsLive(ops[..|ops| - 1]);
      StepRepresents(RingAfter(ops[..|ops| - 1]), LiveAfter(ops[..|ops| - 1]), ops[|ops| - 1]);
    }
  }

  lemma {:induction false} NothingLive()
    ensures Represents([], map[])
  {
  }

  lemma {:induction false} StepRepresents(blocks: seq<Block>, live: map<nat, Block>, op: Op)
    requires Represents(blocks, live) && Legit(blocks, op)
    ensures Represents(Apply(blocks, op), Own(live, op))
  {
    match op
    case Malloc(b) =>
      if b.p != NULL { AllocateRepresents(blocks, live, b); }
    case Realloc(p, b) =>
      if p == NULL {
        if b.p != NULL { AllocateRepresents(blocks, live, b); }
      } else if b.size == 0 {
        RemoveRepresents(blocks, live, p);
      } else if b.p != NULL {
        RetargetRepresents(blocks, live, p, b);
      }
    case Free(p) =>
      if p != NULL {
        RemoveRepresents(blocks, live, p);
      } else {
        assert live - {p} == live;
      }
  }

  lemma {:induction false} AllocateRepresents(blocks: seq<Block>, live: map<nat, Block>, b: Block)
    requires Represents(blocks, live) && b.p != NULL && Fresh(blocks, b.p)
    ensures Represents([b] + blocks, live[b.p := b])
  {
    assert forall x :: x in blocks ==> x.p != b.p;
    assert forall x :: x in [b] + blocks <==> x == b || x in blocks;
  }

  lemma {:induction false} RemoveRepresents(blocks: seq<Block>, live: map<nat, Block>, p: nat)
    requires Represents(blocks, live)
    ensures Represents(Remove(blocks, p), live - {p})
  {
    RemoveKeepsDistinct(blocks, p);
    RemoveKeeps(blocks, p);
  }

  lemma {:induction false} RemoveKeeps(blocks: seq<Block>, p: nat)
    requires DistinctPointers(blocks)
    ensures forall x :: x in Remove(blocks, p) <==> x in blocks && x.p != p
  {
    if blocks != [] && blocks[0].p != p {
      RemoveKeeps(blocks[1..], p);
      assert blocks == [blocks[0]] + blocks[1..];
    } else if blocks != [] {
      assert forall x :: x in blocks[1..] ==> x.p != p;
      assert blocks == [blocks[0]] + blocks[1..];
    }
  }

  /** The blocks after a pointer has moved: the others, and the moved one if there was one. */
  lemma {:induction false} RetargetKeeps(blocks: seq<Block>, p: nat, b: Block)
    ensures forall x :: x in Retarget(blocks, p, b) <==> (x in blocks && x.p != p) || (x == b && !Fresh(blocks, p))
  {
    var after := Retarget(blocks, p, b);
    forall x | x in blocks && x.p != p
      ensures x in after
    {
      var k :| 0 <= k < |blocks| && blocks[k] == x;
      assert after[k] == x;
    }
    if !Fresh(blocks, p) {
      var k :| 0 <= k < |blocks| && blocks[k].p == p;
      assert after[k] == b;
    }
  }

  lemma {:induction false} RetargetDistinct(blocks: seq<Block>, p: nat, b: Block)
    requires DistinctPointers(blocks) && (b.p == p || Fresh(blocks, b.p))
    ensures DistinctPointers(Retarget(blocks, p, b))
  {
  }

  lemma {:induction false} LiveIsFound(blocks: seq<Block>, live: map<nat, Block>, p: nat)
    requires Represents(blocks, live)
    ensures p in live <==> !Fresh(blocks, p)
  {
    if p in live {
      var k :| 0 <= k < |blocks| && blocks[k] == live[p];
    } else {
      assert forall k :: 0 <= k < |blocks| ==> blocks[k] in blocks;
    }
  }

  lemma {:induction false} RetargetRepresents(blocks: seq<Block>, live: map<nat, Block>, p: nat, b: Block)
    requires Represents(blocks, live) && b.p != NULL && (b.p == p || Fresh(blocks, b.p))
    ensures Represents(Retarget(blocks, p, b), if p in live then (live - {p})[b.p := b] else live)
  {
    RetargetKeeps(blocks, p, b);
    RetargetDistinct(blocks, p, b);
    LiveIsFound(blocks, live, p);
    LiveIsFound(blocks, live, b.p);
    hide Retarget, Fresh, DistinctPointers;
  }
}
