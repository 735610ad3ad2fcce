/**
 The chained hash table of src/hash.c on the heap, refining a finite map.
 */
module HashTable {
  import opened HashKey

  /** Values are pointers: 0 is NULL. */
  type Pointer = nat
  const NULL: Pointer := 0

  class Entry {
    const key: Key
    const value: Pointer
    var next: Entry?

    constructor (key: Key, value: Pointer, next: Entry?)
      ensures this.key == key && this.value == value && this.next == next
    {
      this.key, this.value, this.next := key, value, next;
    }
  }

  /** The entry behind place `k` of a chain. */
  function After(chain: seq<Entry>, k: nat): Entry? {
    if k + 1 < |chain| then chain[k + 1] else null
  }

  /** `entry` is in the chain, and `prev` before it. */
  ghost predicate At(chain: seq<Entry>, entry: Entry, prev: Entry?) {
    exists k :: 0 <= k < |chain| && chain[k] == entry && prev == if k > 0 then chain[k - 1] else null
  }

  /** A chain hangs together from `head` on, in the order of `chain`. */
  ghost predicate Linked(head: Entry?, chain: seq<Entry>)
    reads set e | e in chain
  {
    && head == (if chain == [] then null else chain[0])
    && forall k :: 0 <= k < |chain| ==> chain[k].next == After(chain, k)
  }

  /** Every entry of the chain is the one `node` has for its key, once, and in its bucket. */
  ghost predicate InPlace(chain: seq<Entry>, bucket: nat, length: nat, node: map<Key, Entry>)
    requires length > 0
  {
    && (forall e :: e in chain ==> e.key in node && node[e.key] == e && Index(e.key, length) == bucket)
    && (forall i, j :: 0 <= i < j < |chain| ==> chain[i] != chain[j])
  }

  function ValuesOf(node: map<Key, Entry>): map<Key, Pointer> {
    map key | key in node :: node[key].value
  }

  lemma {:induction false} ValuesWithout(node: map<Key, Entry>, key: Key)
    ensures ValuesOf(node - {key}) == ValuesOf(node) - {key}
  {
  }

  lemma {:induction false} ValuesAt(node: map<Key, Entry>, key: Key)
    ensures key in ValuesOf(node) <==> key in node
    ensures key in node ==> ValuesOf(node)[key] == node[key].value
  {
  }

  lemma {:induction false} PutAgain(m: map<Key, Pointer>, key: Key, data: Pointer)
    ensures (m - {key})[key := data] == m[key := data]
    ensures key !in m ==> m - {key} == m
  {
  }

  lemma {:induction false} ValuesWith(node: map<Key, Entry>, e: Entry)
    requires e.key !in node
    ensures ValuesOf(node[e.key := e]) == ValuesOf(node)[e.key := e.value]
  {
  }

  class Table {
    const entries: array<Entry?>
    /** Whether a free function was given, and the values handed to it so far. */
    const freeing: bool
    var numKeys: nat
    ghost var freed: seq<Pointer>

    ghost var chains: seq<seq<Entry>>
    ghost var node: map<Key, Entry>
    ghost var repr: set<Entry>

    ghost predicate Shaped()
      reads this
    {
      entries.Length > 0 && |chains| == entries.Length && numKeys == |node|
    }

    ghost predicate Valid()
      reads this, entries, repr
    {
      && Shaped()
      && AllBuckets()
      && AllPlaced(chains, node, entries.Length)
      && AllFound(chains, node, entries.Length)
      && [] !in node && (!freeing ==> node == map[])
    }

    /** The map that the table stands for. */
    ghost function Contents(): map<Key, Pointer>
      reads this
    {
      ValuesOf(node)
    }

    /** hash_new */
    constructor (size: nat, freeing: bool)
      requires size > 0
      ensures Valid() && Contents() == map[] && this.freeing == freeing && freed == [] && fresh(entries)
    {
      entries := new Entry?[size](_ => null);
      this.freeing := freeing;
      numKeys, freed := 0, [];
      chains := seq(size, _ => []);
      node, repr := map[], {};
    }

    /** The bucket of a key, and the entry with that key in it. */
    method Locate(key: Key) returns (index: int, entry: Entry?, prev: Entry?)
      requires Valid() && Names(key, entries.Length)
      ensures 0 <= index < |chains|
      ensures if key in node then entry == node[key] && entry.key == key && At(chains[index], entry, prev) else entry == null
    {
      hide Index, InPlace, Linked;
      index := ComputeIndex(key, entries.Length);
      assert BucketOk(index) && InPlace(chains[index], index, entries.Length, node);
      entry, prev := Find(entries[index], key, chains[index]);
      ChainHas(chains[index], index, entries.Length, node, key);
    }

    /** hash_get */
    method Get(key: Key) returns (value: Pointer)
      requires Valid() && Names(key, entries.Length)
      ensures value == if key in Contents() then Contents()[key] else NULL
    {
      hide AllBuckets, AllPlaced, AllFound;
      var index, entry, prev := Locate(key);
      value := if entry == null then NULL else entry.value;
    }

    /** hash_drop: the entry is unlinked, and its value freed if a free function was given. */
    method Drop(key: Key) returns (r: int)
      requires Valid() && Names(key, entries.Length)
      modifies this, entries, repr
      ensures Valid() && repr == old(repr)
      ensures r == if key in old(Contents()) then 0 else -1
      ensures Contents() == old(Contents()) - {key}
      ensures freed == old(freed) + (if freeing && key in old(Contents()) then [old(Contents())[key]] else [])
    {
      hide Index, Linked, InPlace, AllBuckets, AllPlaced, AllFound, At, Cut, ValuesOf;
      ValuesAt(node, key);
      ValuesWithout(node, key);
      PutAgain(Contents(), key, NULL);
      var index, entry, prev := Locate(key);
      if entry == null {
        return -1;
      }
      Remove(index, entry, prev);
      r := 0;
    }

    method Remove(index: nat, entry: Entry, prev: Entry?)
      requires Valid() && index < |chains| && At(chains[index], entry, prev)
      requires entry.key in node
      modifies this, entries, repr
      ensures Valid() && repr == old(repr) && node == old(node) - {entry.key}
      ensures freed == old(freed) + (if freeing then [entry.value] else [])
    {
      hide Index, Linked, InPlace, AllBuckets, AllPlaced, AllFound, At, Cut, ValuesOf;
      ghost var k := Unlink(index, entry, prev);
      DropPlaced(old(chains), node, entries.Length, index, k);
      DropFound(old(chains), node, entries.Length, index, k);
      Account(entry.key, entry.value);
    }

    /** The books after an entry is gone. */
    method Account(key: Key, value: Pointer)
      requires Shaped() && AllBuckets() && key in node && freeing
      requires AllPlaced(chains, node - {key}, entries.Length) && AllFound(chains, node - {key}, entries.Length)
      requires [] !in node
      modifies `freed, `node, `numKeys
      ensures Valid() && node == old(node) - {key}
      ensures freed == old(freed) + [value]
    {
      hide Index, Linked, AllFound, AllPlaced;
      if freeing {
        freed := freed + [value];
      }
      node := node - {key};
      numKeys := numKeys - 1;
      assert forall c :: 0 <= c < |chains| ==> old(BucketOk(c)) ==> BucketOk(c);
    }

    /**
     hash_add. With a free function the key takes the new value and the old one is freed.
     Without one, nothing is ever stored: the conflict test of line 100 refuses exactly the
     keys that are not there yet. An empty key has no copy, so it is refused too.
     */
    method Add(key: Key, data: Pointer) returns (r: int)
      requires Valid() && Names(key, entries.Length)
      modifies this, entries, repr
      ensures Valid() && fresh(repr - old(repr))
      ensures r == if freeing && key != [] then 0 else -1
      ensures Contents() == if freeing && key != [] then old(Contents())[key := data] else old(Contents())
      ensures freed == old(freed) + (if freeing && key in old(Contents()) then [old(Contents())[key]] else [])
    {
      hide Index, Linked, InPlace, AllBuckets, AllPlaced, AllFound, At, Cut, ValuesOf;
      ValuesAt(node, key);
      PutAgain(Contents(), key, data);
      var index := ComputeIndex(key, entries.Length);
      if freeing {
        var dropped := Drop(key);
      } else {
        var value := Get(key);
        if value == NULL {
          return -1;
        }
      }
      if key == [] {
        return -1;
      }
      ValuesAt(node, key);
      Insert(index, key, data);
      r := 0;
    }

    /** A new entry at the head of its chain. */
    method Insert(index: nat, key: Key, data: Pointer)
      requires Valid() && freeing && key !in node && key != [] && Names(key, entries.Length)
      requires index == Index(key, entries.Length)
      modifies this, entries
      ensures Valid() && fresh(repr - old(repr)) && freed == old(freed)
      ensures Contents() == old(Contents())[key := data]
    {
      hide Index, Linked, AllFound, ValuesOf, InPlace;
      assert BucketOk(index);
      var entry := new Entry(key, data, entries[index]);
      InsertPlaced(chains, node, entries.Length, index, entry);
      ValuesWith(node, entry);
      label Before:
      entries[index] := entry;
      chains := chains[index := [entry] + chains[index]];
      node := node[key := entry];
      numKeys := numKeys + 1;
      repr := repr + {entry};
      forall c | 0 <= c < |chains|
        ensures BucketOk(c)
      {
        assert old@Before(BucketOk(c));
        if c == index {
          LinkedFront(entry, old(chains)[index]);
        }
      }
    }

    ghost predicate AllBuckets()
      reads this, entries, repr
    {
      |chains| == entries.Length && forall b :: 0 <= b < |chains| ==> BucketOk(b)
    }

    /** The pointer to the entry is set past it; no other pointer changes. */
    method Bypass(b: nat, entry: Entry, prev: Entry?, ghost k: nat)
      requires b < |chains| == entries.Length && BucketOk(b) && k < |chains[b]|
      requires chains[b][k] == entry && prev == if k > 0 then chains[b][k - 1] else null
      requires forall i, j :: 0 <= i < j < |chains[b]| ==> chains[b][i] != chains[b][j]
      modifies entries, repr
      ensures Linked(entries[b], Cut(chains[b], k))
      ensures forall c :: 0 <= c < entries.Length && c != b ==> entries[c] == old(entries[c])
      ensures forall e :: e in repr && e !in chains[b] ==> e.next == old(e.next)
    {
      ghost var chain := chains[b];
      assert Linked(entries[b], chain);
      if prev == null {
        entries[b] := entry.next;
      } else {
        prev.next := entry.next;
      }
      Relinked(entries[b], chain, k);
    }

    /** The entry leaves its chain; every other chain stays as it is. */
    method Unlink(b: nat, entry: Entry, prev: Entry?) returns (ghost k: nat)
      requires entries.Length > 0 && AllBuckets() && AllPlaced(chains, node, entries.Length)
      requires b < |chains|
      requires At(chains[b], entry, prev)
      modifies `chains, entries, repr
      ensures k < |old(chains[b])| && old(chains[b])[k] == entry
      ensures chains == old(chains)[b := Cut(old(chains[b]), k)]
      ensures AllBuckets()
    {
      hide Index, InPlace, Cut;
      ghost var chain := chains[b];
      assert BucketOk(b);
      Different(chains, node, entries.Length, b);
      k :| 0 <= k < |chain| && chain[k] == entry && prev == if k > 0 then chain[k - 1] else null;
      Bypass(b, entry, prev, k);
      CutWithin(chain, k);
      chains := chains[b := Cut(chain, k)];
      forall c | 0 <= c < |chains| && c != b
        ensures BucketOk(c)
      {
        assert old(BucketOk(c)) && old(Linked(entries[c], chains[c]));
        OtherChain(old(chains), node, entries.Length, b, c);
        assert forall i :: 0 <= i < |chains[c]| ==> chains[c][i] in repr && chains[c][i] !in chain;
      }
    }

    /** hash_num_keys */
    method NumKeys() returns (n: nat)
      requires Valid()
      ensures n == |Contents()|
    {
      hide AllBuckets, AllPlaced, AllFound;
      assert Contents().Keys == node.Keys;
      n := numKeys;
    }

    /** The part of Valid about one bucket. */
    ghost predicate BucketOk(b: nat)
      requires b < |chains| == entries.Length
      reads this, entries, repr
    {
      (forall e :: e in chains[b] ==> e in repr) && Linked(entries[b], chains[b])
    }
  }

  function Cut(chain: seq<Entry>, k: nat): seq<Entry>
    requires k < |chain|
  {
    chain[..k] + chain[k + 1..]
  }

  ghost predicate AllPlaced(chains: seq<seq<Entry>>, node: map<Key, Entry>, length: nat)
    requires length > 0
  {
    forall b :: 0 <= b < |chains| ==> InPlace(chains[b], b, length, node)
  }

  ghost predicate AllFound(chains: seq<seq<Entry>>, node: map<Key, Entry>, length: nat)
    requires length > 0
  {
    |chains| == length
    && forall key :: key in node ==> Names(key, length) && node[key].key == key && node[key] in chains[Index(key, length)]
  }

  lemma {:induction false} Different(chains: seq<seq<Entry>>, node: map<Key, Entry>, length: nat, b: nat)
    requires length > 0 && AllPlaced(chains, node, length) && b < |chains|
    ensures forall i, j :: 0 <= i < j < |chains[b]| ==> chains[b][i] != chains[b][j]
  {
    assert InPlace(chains[b], b, length, node);
  }

  /** No entry is in two chains. */
  lemma {:induction false} OtherChain(chains: seq<seq<Entry>>, node: map<Key, Entry>, length: nat, b: nat, c: nat)
    requires length > 0 && AllPlaced(chains, node, length) && b < |chains| && c < |chains| && b != c
    ensures forall e :: e in chains[c] ==> e !in chains[b]
  {
    hide Index;
    assert InPlace(chains[b], b, length, node) && InPlace(chains[c], c, length, node);
  }

  lemma {:induction false} CutWithin(chain: seq<Entry>, k: nat)
    requires k < |chain|
    ensures forall e :: e in Cut(chain, k) ==> e in chain
  {
  }

  lemma {:induction false} LinkedFront(e: Entry, chain: seq<Entry>)
    requires Linked(e.next, chain)
    ensures Linked(e, [e] + chain)
  {
    var longer := [e] + chain;
    forall k | 0 <= k < |longer|
      ensures longer[k].next == After(longer, k)
    {
      if k > 0 {
        assert longer[k] == chain[k - 1];
      }
    }
  }

  /** A chain from which the entry at `k` was taken. */
  lemma {:induction false} Relinked(head: Entry?, chain: seq<Entry>, k: nat)
    requires k < |chain|
    requires head == if k > 0 then chain[0] else After(chain, 0)
    requires forall i, j :: 0 <= i < j < |chain| ==> chain[i] != chain[j]
    requires forall i :: 0 <= i < |chain| && i + 1 != k ==> chain[i].next == After(chain, i)
    requires k > 0 ==> chain[k - 1].next == After(chain, k)
    ensures Linked(head, Cut(chain, k))
  {
    var cut := Cut(chain, k);
    forall i | 0 <= i < |cut|
      ensures cut[i].next == After(cut, i)
    {
      if i + 1 < k {
        assert cut[i] == chain[i] && cut[i + 1] == chain[i + 1];
      } else if i + 1 == k {
        assert cut[i] == chain[k - 1];
      } else {
        assert cut[i] == chain[i + 1];
      }
    }
  }

  lemma {:induction false} FoundAt(chain: seq<Entry>, entry: Entry, prev: Entry?, k: nat)
    requires k < |chain| && chain[k] == entry && prev == if k > 0 then chain[k - 1] else null
    ensures At(chain, entry, prev)
  {
  }

  /** The walk along a chain that hash_get and hash_drop share. */
  method Find(head: Entry?, key: Key, ghost chain: seq<Entry>) returns (entry: Entry?, prev: Entry?)
    requires Linked(head, chain)
    ensures entry == null ==> forall e :: e in chain ==> e.key != key
    ensures entry != null ==> entry.key == key && At(chain, entry, prev)
  {
    ghost var k := 0;
    entry, prev := head, null;
    while entry != null
      invariant k <= |chain| && entry == if k < |chain| then chain[k] else null
      invariant prev == if k > 0 then chain[k - 1] else null
      invariant forall i :: 0 <= i < k ==> chain[i].key != key
      decreases |chain| - k
    {
      if key == entry.key {
        FoundAt(chain, entry, prev, k);
        return;
      }
      prev := entry;
      entry := entry.next;
      k := k + 1;
    }
  }

  /** In the bucket of a key, the entry with that key is the one of the map. */
  lemma {:induction false} ChainHas(chain: seq<Entry>, b: nat, length: nat, node: map<Key, Entry>, key: Key)
    requires length > 0 && InPlace(chain, b, length, node)
    requires key in node ==> node[key].key == key && node[key] in chain
    ensures key in node <==> exists e :: e in chain && e.key == key
    ensures forall e :: e in chain && e.key == key ==> key in node && node[key] == e
  {
  }

  /** A key leaves the map together with its entry. */
  lemma {:induction false} DropPlaced(chains: seq<seq<Entry>>, node: map<Key, Entry>, length: nat, b: nat, k: nat)
    requires length > 0 && AllPlaced(chains, node, length) && b < |chains| && k < |chains[b]|
    ensures AllPlaced(chains[b := Cut(chains[b], k)], node - {chains[b][k].key}, length)
  {
    hide Index;
  }

  lemma {:induction false} DropFound(chains: seq<seq<Entry>>, node: map<Key, Entry>, length: nat, b: nat, k: nat)
    requires length > 0 && AllFound(chains, node, length) && AllPlaced(chains, node, length) && b < |chains| && k < |chains[b]|
    ensures AllFound(chains[b := Cut(chains[b], k)], node - {chains[b][k].key}, length)
  {
    hide Index;
  }

  lemma {:induction false} InsertPlaced(chains: seq<seq<Entry>>, node: map<Key, Entry>, length: nat, b: nat, e: Entry)
    requires length > 0 && AllPlaced(chains, node, length) && AllFound(chains, node, length)
    requires b < length && b == Index(e.key, length) && e.key !in node
    ensures AllPlaced(chains[b := [e] + chains[b]], node[e.key := e], length)
    ensures AllFound(chains[b := [e] + chains[b]], node[e.key := e], length)
  {
    hide Index;
  }
}
