/**
 The iterator of src/hash.c: undisturbed, it yields each key exactly once and then NULL for ever.
 */
module HashIterator {
  import opened Wrappers
  import opened HashKey
  import opened HashTable

  /** All chains, one behind the other: the order of the iterator. */
  function Flat(chains: seq<seq<Entry>>): seq<Entry> {
    if chains == [] then [] else chains[0] + Flat(chains[1..])
  }

  lemma {:induction false} FlatSplit(chains: seq<seq<Entry>>, b: nat)
    requires b <= |chains|
    ensures Flat(chains) == Flat(chains[..b]) + Flat(chains[b..])
  {
    if b > 0 {
      FlatSplit(chains[1..], b - 1);
      assert chains[..b][1..] == chains[1..][..b - 1];
      assert chains[1..][b - 1..] == chains[b..];
    }
  }

  /** The entry at place `k` of chain `b`. */
  lemma {:induction false} FlatAt(chains: seq<seq<Entry>>, b: nat, k: nat)
    requires b < |chains| && k < |chains[b]|
    ensures var i := |Flat(chains[..b])| + k;
            i < |Flat(chains)| && Flat(chains)[i] == chains[b][k]
    ensures |Flat(chains[..b + 1])| == |Flat(chains[..b])| + |chains[b]|
  {
    FlatSplit(chains, b);
    FlatSplit(chains[..b + 1], b);
    assert chains[..b + 1][..b] == chains[..b];
    assert chains[b..][0] == chains[b];
  }

  /** Empty chains in between add nothing. */
  lemma {:induction false} EmptyRun(chains: seq<seq<Entry>>, from: nat, b: nat)
    requires from <= b <= |chains| && forall i :: from <= i < b ==> chains[i] == []
    ensures |Flat(chains[..from])| == |Flat(chains[..b])|
  {
    if from < b {
      EmptyRun(chains, from, b - 1);
      FlatSplit(chains[..b], b - 1);
      var last := chains[..b][b - 1..];
      assert chains[..b][..b - 1] == chains[..b - 1] && last[0] == [] && last[1..] == [];
    }
  }

  /** Where an iterator stands that has given `given` keys: at place `k` of chain `index`. */
  ghost predicate Place(chains: seq<seq<Entry>>, entry: Entry?, index: int, k: nat, given: nat) {
    if entry == null then index == -1 && given == 0
    else
      && 0 <= index < |chains| && k < |chains[index]| && chains[index][k] == entry
      && given == |Flat(chains[..index])| + k + 1
  }

  lemma {:induction false} SameChain(chains: seq<seq<Entry>>, entry: Entry?, index: int, k: nat, given: nat)
    requires Place(chains, entry, index, k, given) && entry != null && k + 1 < |chains[index]|
    ensures Place(chains, chains[index][k + 1], index, k + 1, given + 1)
    ensures given < |Flat(chains)| && Flat(chains)[given] == chains[index][k + 1]
  {
    FlatAt(chains, index, k + 1);
  }

  lemma {:induction false} ChainEnds(chains: seq<seq<Entry>>, entry: Entry?, index: int, k: nat, given: nat)
    requires Place(chains, entry, index, k, given) && (entry != null ==> k + 1 == |chains[index]|)
    ensures -1 <= index && index + 1 <= |chains| && given == |Flat(chains[..index + 1])|
  {
    if entry != null {
      FlatAt(chains, index, k);
    } else {
      assert chains[..0] == [];
    }
  }

  lemma {:induction false} NextChain(chains: seq<seq<Entry>>, from: nat, b: nat, given: nat)
    requires from <= b <= |chains| && (forall i :: from <= i < b ==> chains[i] == []) && given == |Flat(chains[..from])|
    ensures b == |chains| ==> given == |Flat(chains)|
    ensures b < |chains| && chains[b] != [] ==>
              && Place(chains, chains[b][0], b, 0, given + 1)
              && given < |Flat(chains)| && Flat(chains)[given] == chains[b][0]
  {
    EmptyRun(chains, from, b);
    assert chains[..|chains|] == chains;
    if b < |chains| && chains[b] != [] {
      FlatAt(chains, b, 0);
    }
  }

  class Iterator {
    const table: Table
    var entry: Entry?
    var index: int

    /** History: how many keys were given, and the place in the current chain. */
    ghost var given: nat
    ghost var k: nat

    ghost predicate Valid()
      reads this, table, table.entries, table.repr
    {
      table.Valid() && Place(table.chains, entry, index, k, given)
    }

    /** hash_iter_new */
    constructor (table: Table)
      requires table.Valid()
      ensures Valid() && this.table == table && given == 0
    {
      this.table, entry, index, given := table, null, -1, 0;
    }

    /** The first bucket from `from` on that is not empty. */
    method NextBucket(from: nat) returns (b: nat, e: Entry?)
      requires table.Valid() && from <= table.entries.Length
      ensures from <= b <= |table.chains| && forall i :: from <= i < b ==> table.chains[i] == []
      ensures e == if b < |table.chains| then table.entries[b] else null
      ensures b < |table.chains| ==> table.chains[b] != [] && e == table.chains[b][0]
    {
      hide Index, InPlace, AllPlaced, AllFound;
      b, e := from, null;
      while b < table.entries.Length
        invariant from <= b <= table.entries.Length && e == null
        invariant forall i :: from <= i < b ==> table.chains[i] == []
      {
        assert table.BucketOk(b);
        e := table.entries[b];
        if e != null {
          return;
        }
        b := b + 1;
      }
    }

    /** hash_iter_next */
    method Next() returns (key: Option<Key>)
      requires Valid()
      modifies this
      ensures Valid()
      ensures var all := Flat(table.chains);
              if old(given) < |all| then
                key == Some(all[old(given)].key) && given == old(given) + 1
              else
                key == None && given == old(given)
    {
      hide Index, InPlace, AllPlaced, AllFound, Flat;
      var e: Entry? := entry;
      if e != null {
        assert table.BucketOk(index);
        e := e.next;
      }
      if e != null {
        SameChain(table.chains, entry, index, k, given);
        k := k + 1;
      } else {
        ChainEnds(table.chains, entry, index, k, given);
        var i;
        i, e := NextBucket(index + 1);
        NextChain(table.chains, index + 1, i, given);
        if e == null {
          return None;
        }
        index, k := i, 0;
      }
      entry := e;
      given := given + 1;
      key := Some(e.key);
    }
  }

  // ----- each key once

  lemma {:induction false} FlatHas(chains: seq<seq<Entry>>, e: Entry)
    ensures e in Flat(chains) <==> exists b :: 0 <= b < |chains| && e in chains[b]
  {
    if chains != [] {
      FlatHas(chains[1..], e);
      assert forall b :: 0 <= b < |chains[1..]| ==> chains[1..][b] == chains[b + 1];
      if exists b :: 0 <= b < |chains| && e in chains[b] {
        var b :| 0 <= b < |chains| && e in chains[b];
        if b > 0 {
          assert e in chains[1..][b - 1];
        }
      }
    }
  }

  ghost predicate Apart(chains: seq<seq<Entry>>) {
    && (forall b, i, j :: 0 <= b < |chains| && 0 <= i < j < |chains[b]| ==> chains[b][i] != chains[b][j])
    && (forall b, c, e :: 0 <= b < c < |chains| && e in chains[b] ==> e !in chains[c])
  }

  lemma {:induction false} FlatDistinct(chains: seq<seq<Entry>>)
    requires Apart(chains)
    ensures forall i, j :: 0 <= i < j < |Flat(chains)| ==> Flat(chains)[i] != Flat(chains)[j]
  {
    if chains != [] {
      var rest := chains[1..];
      assert forall b :: 0 <= b < |rest| ==> rest[b] == chains[b + 1];
      FlatDistinct(rest);
      var n, all := |chains[0]|, Flat(chains);
      forall i, j | 0 <= i < j < |all|
        ensures all[i] != all[j]
      {
        FlatHas(rest, all[i]);
        if i < n <= j {
          assert all[i] in chains[0] && all[j] == Flat(rest)[j - n];
        }
      }
    }
  }

  lemma {:induction false} PlacedApart(chains: seq<seq<Entry>>, node: map<Key, Entry>, length: nat)
    requires length > 0 && AllPlaced(chains, node, length)
    ensures Apart(chains)
  {
    hide Index;
    assert forall b :: 0 <= b < |chains| ==> InPlace(chains[b], b, length, node);
  }

  /** The keys in the order of the iterator. */
  function KeysOf(all: seq<Entry>): (r: seq<Key>) {
    seq(|all|, i requires 0 <= i < |all| => all[i].key)
  }

  predicate Distinct(keys: seq<Key>) {
    forall i, j :: 0 <= i < j < |keys| ==> keys[i] != keys[j]
  }

  /** Main result: every key of the map stands in it exactly once. */
  lemma {:induction false} EachKeyOnce(chains: seq<seq<Entry>>, node: map<Key, Entry>, length: nat)
    requires length > 0 && AllPlaced(chains, node, length) && AllFound(chains, node, length)
    ensures Distinct(KeysOf(Flat(chains)))
    ensures forall key :: key in KeysOf(Flat(chains)) <==> key in node
  {
    hide Index;
    var all, keys := Flat(chains), KeysOf(Flat(chains));
    forall i | 0 <= i < |all|
      ensures keys[i] in node && node[keys[i]] == all[i]
    {
      FlatHas(chains, all[i]);
      var b :| 0 <= b < |chains| && all[i] in chains[b];
      assert InPlace(chains[b], b, length, node);
    }
    forall key | key in node
      ensures key in keys
    {
      FlatHas(chains, node[key]);
      var i :| 0 <= i < |all| && all[i] == node[key];
      assert keys[i] == key;
    }
    PlacedApart(chains, node, length);
    FlatDistinct(chains);
  }

  /** A whole iteration, and one more call. */
  method IterateAll(table: Table) returns (keys: seq<Key>, after: Option<Key>)
    requires table.Valid()
    ensures Distinct(keys) && after == None
    ensures forall key :: key in keys <==> key in table.Contents()
  {
    hide Index, Flat, Place, AllPlaced, AllFound;
    ghost var all := Flat(table.chains);
    EachKeyOnce(table.chains, table.node, table.entries.Length);
    var iter := new Iterator(table);
    keys := [];
    var key := iter.Next();
    while key.Some?
      invariant iter.Valid() && iter.table == table && |keys| <= |all| && keys == KeysOf(all)[..|keys|]
      invariant if key.Some? then |keys| < |all| && key.value == all[|keys|].key && iter.given == |keys| + 1
                else |keys| == |all| == iter.given
      decreases |all| - |keys|
    {
      keys := keys + [key.value];
      key := iter.Next();
    }
    after := iter.Next();
    assert keys == KeysOf(all);
  }
}
