/** The generic hash table of Xext/hashtable.c: buckets of list nodes, doubled when they get too full. */
module HashTable {
  import opened Options
  import opened Powers

  const INIT_HASH_SIZE: nat := 6
  const MAX_HASH_SIZE: nat := 11

  datatype Entry<K, V> = Entry(key: K, data: V)

  /** A hash function makes a number of the requested width. */
  ghost predicate IsHash<K(!new)>(hash: (K, nat) -> nat) {
    forall k, bits :: hash(k, bits) < Pow2(bits)
  }

  // ----- one bucket -----

  /** The data of the first node with this key. */
  function FindIn<K(==), V>(bucket: seq<Entry<K, V>>, k: K): Option<V> {
    if bucket == [] then None
    else if bucket[0].key == k then Some(bucket[0].data)
    else FindIn(bucket[1..], k)
  }

  predicate DistinctKeys<K(==), V>(bucket: seq<Entry<K, V>>) {
    forall i, j :: 0 <= i < j < |bucket| ==> bucket[i].key != bucket[j].key
  }

  lemma {:induction false} FindInNone<K, V>(bucket: seq<Entry<K, V>>, k: K)
    ensures FindIn(bucket, k).None? <==> forall i :: 0 <= i < |bucket| ==> bucket[i].key != k
  {
    if bucket != [] {
      FindInNone(bucket[1..], k);
      assert forall i :: 1 <= i < |bucket| ==> bucket[i] == bucket[1..][i - 1];
    }
  }

  lemma DistinctUnlinked<K, V>(bucket: seq<Entry<K, V>>, i: nat)
    requires DistinctKeys(bucket) && i < |bucket|
    ensures DistinctKeys(bucket[..i] + bucket[i + 1..])
  {
    var u := bucket[..i] + bucket[i + 1..];
    forall a, b | 0 <= a < b < |u| ensures u[a].key != u[b].key {
      assert u[a] == bucket[if a < i then a else a + 1];
      assert u[b] == bucket[if b < i then b else b + 1];
    }
  }

  /** Unlinking the node with key k loses that key and no other. */
  lemma {:induction false} FindInUnlinked<K, V>(bucket: seq<Entry<K, V>>, i: nat, k: K)
    requires DistinctKeys(bucket) && i < |bucket|
    ensures FindIn(bucket[..i] + bucket[i + 1..], k) == if k == bucket[i].key then None else FindIn(bucket, k)
  {
    var u := bucket[..i] + bucket[i + 1..];
    if i == 0 {
      assert u == bucket[1..];
      FindInNone(bucket[1..], bucket[0].key);
    } else {
      var rest := bucket[1..];
      FindInUnlinked(rest, i - 1, k);
      assert u[0] == bucket[0] && u[1..] == rest[..i - 1] + rest[i..];
      assert rest[i - 1] == bucket[i] && bucket[0].key != bucket[i].key;
    }
  }

  // ----- all buckets -----

  function Total<K, V>(bs: seq<seq<Entry<K, V>>>): nat {
    if bs == [] then 0 else Total(bs[..|bs| - 1]) + |bs[|bs| - 1]|
  }

  lemma {:induction false} TotalUpdate<K, V>(bs: seq<seq<Entry<K, V>>>, c: nat, b: seq<Entry<K, V>>)
    requires c < |bs|
    ensures Total(bs[c := b]) == Total(bs) - |bs[c]| + |b|
  {
    var n := |bs| - 1;
    if c < n {
      TotalUpdate(bs[..n], c, b);
      assert bs[c := b][..n] == bs[..n][c := b];
    } else {
      assert bs[c := b][..n] == bs[..n];
    }
  }

  lemma {:induction false} TotalOfEmpty<K, V>(bs: seq<seq<Entry<K, V>>>)
    requires forall c :: 0 <= c < |bs| ==> bs[c] == []
    ensures Total(bs) == 0
  {
    if bs != [] {
      TotalOfEmpty(bs[..|bs| - 1]);
    }
  }

  /** Every node is in the bucket of its key, and no key occurs twice. */
  ghost predicate Placed<K, V>(bs: seq<seq<Entry<K, V>>>, hash: (K, nat) -> nat, bits: nat) {
    && |bs| == Pow2(bits)
    && (forall c, i :: 0 <= c < |bs| && 0 <= i < |bs[c]| ==> hash(bs[c][i].key, bits) == c)
    && (forall c :: 0 <= c < |bs| ==> DistinctKeys(bs[c]))
  }

  ghost function Lookup<K, V>(bs: seq<seq<Entry<K, V>>>, hash: (K, nat) -> nat, bits: nat, k: K): Option<V>
    requires |bs| == Pow2(bits) && hash(k, bits) < Pow2(bits)
  {
    FindIn(bs[hash(k, bits)], k)
  }

  ghost function Get<K, V>(m: map<K, V>, k: K): Option<V> {
    if k in m then Some(m[k]) else None
  }

  /** The buckets hold exactly the map. */
  ghost predicate Represents<K(!new), V>(bs: seq<seq<Entry<K, V>>>, hash: (K, nat) -> nat, bits: nat, m: map<K, V>)
    requires |bs| == Pow2(bits) && IsHash(hash)
  {
    forall k :: Lookup(bs, hash, bits, k) == Get(m, k)
  }

  /** Half-way through doubling: every key of the map is in the old buckets or in the new ones, not in both. */
  ghost predicate Divided<K(!new), V>(from: seq<seq<Entry<K, V>>>, to: seq<seq<Entry<K, V>>>,
      hash: (K, nat) -> nat, bits: nat, m: map<K, V>)
    requires |from| == Pow2(bits) && |to| == Pow2(bits + 1) && IsHash(hash)
  {
    forall k ::
      var a, b := Lookup(from, hash, bits, k), Lookup(to, hash, bits + 1, k);
      (a == Get(m, k) && b.None?) || (a.None? && b == Get(m, k))
  }

  lemma PlacedWithout<K, V>(bs: seq<seq<Entry<K, V>>>, hash: (K, nat) -> nat, bits: nat, c: nat, i: nat)
    requires Placed(bs, hash, bits) && c < |bs| && i < |bs[c]|
    ensures Placed(bs[c := bs[c][..i] + bs[c][i + 1..]], hash, bits)
  {
    DistinctUnlinked(bs[c], i);
  }

  lemma PlacedWith<K(!new), V>(bs: seq<seq<Entry<K, V>>>, hash: (K, nat) -> nat, bits: nat, e: Entry<K, V>)
    requires Placed(bs, hash, bits) && IsHash(hash) && Lookup(bs, hash, bits, e.key).None?
    ensures var c := hash(e.key, bits); Placed(bs[c := [e] + bs[c]], hash, bits)
    ensures var c := hash(e.key, bits); forall k ::
      Lookup(bs[c := [e] + bs[c]], hash, bits, k) == if k == e.key then Some(e.data) else Lookup(bs, hash, bits, k)
  {
    var c := hash(e.key, bits);
    FindInNone(bs[c], e.key);
    assert ([e] + bs[c])[1..] == bs[c];
  }

  /** Moving the first node of a bucket to the bucket it hashes to at the new width. */
  lemma MoveNode<K(!new), V>(from: seq<seq<Entry<K, V>>>, to: seq<seq<Entry<K, V>>>, hash: (K, nat) -> nat,
      bits: nat, m: map<K, V>, c: nat)
    requires IsHash(hash) && Placed(from, hash, bits) && Placed(to, hash, bits + 1) && Divided(from, to, hash, bits, m)
    requires c < |from| && from[c] != []
    ensures var e := from[c][0];
      var j := hash(e.key, bits + 1);
      && Placed(from[c := from[c][1..]], hash, bits) && Placed(to[j := [e] + to[j]], hash, bits + 1)
      && Divided(from[c := from[c][1..]], to[j := [e] + to[j]], hash, bits, m)
      && Total(from[c := from[c][1..]]) + Total(to[j := [e] + to[j]]) == Total(from) + Total(to)
  {
    var e := from[c][0];
    var j := hash(e.key, bits + 1);
    assert hash(e.key, bits) == c;
    assert Lookup(from, hash, bits, e.key) == Some(e.data);
    assert from[c][..0] + from[c][1..] == from[c][1..];
    PlacedWithout(from, hash, bits, c, 0);
    PlacedWith(to, hash, bits + 1, e);
    TotalUpdate(from, c, from[c][1..]);
    TotalUpdate(to, j, [e] + to[j]);
    MoveDivided(from, to, hash, bits, m, c);
  }

  lemma MoveDivided<K(!new), V>(from: seq<seq<Entry<K, V>>>, to: seq<seq<Entry<K, V>>>, hash: (K, nat) -> nat,
      bits: nat, m: map<K, V>, c: nat)
    requires IsHash(hash) && Placed(from, hash, bits) && Placed(to, hash, bits + 1) && Divided(from, to, hash, bits, m)
    requires c < |from| && from[c] != []
    requires var e := from[c][0]; hash(e.key, bits) == c && Lookup(from, hash, bits, e.key) == Some(e.data)
    ensures var e := from[c][0];
      var j := hash(e.key, bits + 1);
      Placed(from[c := from[c][1..]], hash, bits) && Placed(to[j := [e] + to[j]], hash, bits + 1) ==>
        Divided(from[c := from[c][1..]], to[j := [e] + to[j]], hash, bits, m)
  {
    var e := from[c][0];
    var j := hash(e.key, bits + 1);
    assert from[c][..0] + from[c][1..] == from[c][1..];
    var from', to' := from[c := from[c][1..]], to[j := [e] + to[j]];
    forall k | Placed(from', hash, bits) && Placed(to', hash, bits + 1)
      ensures var a, b := Lookup(from', hash, bits, k), Lookup(to', hash, bits + 1, k);
        (a == Get(m, k) && b.None?) || (a.None? && b == Get(m, k))
    {
      FindInUnlinked(from[c], 0, k);
      assert var a, b := Lookup(from, hash, bits, k), Lookup(to, hash, bits + 1, k);
        (a == Get(m, k) && b.None?) || (a.None? && b == Get(m, k));
    }
  }

  /** Doubling in progress. */
  ghost predicate Moving<K(!new), V>(from: seq<seq<Entry<K, V>>>, to: seq<seq<Entry<K, V>>>,
      hash: (K, nat) -> nat, bits: nat, m: map<K, V>, total: nat) {
    && IsHash(hash) && Placed(from, hash, bits) && Placed(to, hash, bits + 1)
    && Divided(from, to, hash, bits, m) && Total(from) + Total(to) == total
  }

  lemma MovingStarts<K(!new), V>(from: seq<seq<Entry<K, V>>>, to: seq<seq<Entry<K, V>>>, hash: (K, nat) -> nat,
      bits: nat, m: map<K, V>)
    requires IsHash(hash) && Placed(from, hash, bits) && Represents(from, hash, bits, m)
    requires |to| == Pow2(bits + 1) && forall c :: 0 <= c < |to| ==> to[c] == []
    ensures Moving(from, to, hash, bits, m, Total(from))
  {
    TotalOfEmpty(to);
    forall k
      ensures var a, b := Lookup(from, hash, bits, k), Lookup(to, hash, bits + 1, k);
        (a == Get(m, k) && b.None?) || (a.None? && b == Get(m, k))
    {
      assert Lookup(from, hash, bits, k) == Get(m, k);
    }
  }

  lemma MovingStep<K(!new), V>(from: seq<seq<Entry<K, V>>>, to: seq<seq<Entry<K, V>>>, hash: (K, nat) -> nat,
      bits: nat, m: map<K, V>, total: nat, c: nat)
    requires Moving(from, to, hash, bits, m, total) && c < |from| && from[c] != []
    ensures var e := from[c][0];
      var j := hash(e.key, bits + 1);
      j < |to| && Moving(from[c := from[c][1..]], to[j := [e] + to[j]], hash, bits, m, total)
  {
    MoveNode(from, to, hash, bits, m, c);
  }

  lemma MovingEnds<K(!new), V>(from: seq<seq<Entry<K, V>>>, to: seq<seq<Entry<K, V>>>, hash: (K, nat) -> nat,
      bits: nat, m: map<K, V>, total: nat)
    requires Moving(from, to, hash, bits, m, total) && forall c :: 0 <= c < |from| ==> from[c] == []
    ensures Placed(to, hash, bits + 1) && Represents(to, hash, bits + 1, m) && Total(to) == total
  {
    TotalOfEmpty(from);
    forall k ensures Lookup(to, hash, bits + 1, k) == Get(m, k) {
      assert Lookup(from, hash, bits, k).None?;
    }
  }

  class HashTable<K(==, !new), V> {
    const hash: (K, nat) -> nat
    var buckets: array<seq<Entry<K, V>>>
    var elements: nat
    var bucketBits: nat
    /** what the table means to its users */
    ghost var contents: map<K, V>

    /** The table holds `contents`, whatever its load. */
    ghost predicate Consistent()
      reads this, buckets
    {
      && IsHash(hash) && INIT_HASH_SIZE <= bucketBits <= MAX_HASH_SIZE
      && Placed(buckets[..], hash, bucketBits)
      && Represents(buckets[..], hash, bucketBits, contents)
      && elements == Total(buckets[..])
    }

    ghost predicate Valid()
      reads this, buckets
    {
      Consistent() && (elements <= 4 * Pow2(bucketBits) || bucketBits == MAX_HASH_SIZE)
    }

    /** ht_create */
    constructor (hash: (K, nat) -> nat)
      requires IsHash(hash)
      ensures Valid() && contents == map[] && fresh(buckets) && this.hash == hash
    {
      this.hash := hash;
      bucketBits := INIT_HASH_SIZE;
      elements := 0;
      contents := map[];
      buckets := new seq<Entry<K, V>>[Pow2(INIT_HASH_SIZE)](_ => []);
      new;
      TotalOfEmpty(buckets[..]);
    }

    /** ht_find */
    method Find(key: K) returns (data: Option<V>)
      requires Valid()
      ensures data == Get(contents, key)
    {
      var bucket := buckets[hash(key, bucketBits)];
      assert Lookup(buckets[..], hash, bucketBits, key) == FindIn(bucket, key);
      var i := 0;
      while i < |bucket|
        invariant i <= |bucket| && FindIn(bucket, key) == FindIn(bucket[i..], key)
      {
        if bucket[i].key == key {
          return Some(bucket[i].data);
        }
        i := i + 1;
      }
      return None;
    }

    /** ht_remove */
    method Remove(key: K)
      requires Valid()
      modifies this, buckets
      ensures Valid() && buckets == old(buckets) && bucketBits == old(bucketBits)
      ensures contents == old(contents) - {key}
    {
      var index := hash(key, bucketBits);
      var bucket := buckets[index];
      ghost var bs := buckets[..];
      var i := 0;
      while i < |bucket|
        invariant i <= |bucket| && forall j :: 0 <= j < i ==> bucket[j].key != key
      {
        if bucket[i].key == key {
          PlacedWithout(bs, hash, bucketBits, index, i);
          TotalUpdate(bs, index, bucket[..i] + bucket[i + 1..]);
          buckets[index] := bucket[..i] + bucket[i + 1..];
          elements := elements - 1;
          contents := contents - {key};
          assert buckets[..] == bs[index := bucket[..i] + bucket[i + 1..]];
          forall k ensures Lookup(buckets[..], hash, bucketBits, k) == Get(contents, k) {
            FindInUnlinked(bucket, i, k);
            assert Lookup(bs, hash, bucketBits, k) == Get(old(contents), k);
          }
          return;
        }
        i := i + 1;
      }
      FindInNone(bucket, key);
      assert Lookup(bs, hash, bucketBits, key) == Get(contents, key);
    }

    /** Unlinks the first node of bucket c and puts it in front of its new bucket. */
    method MoveFirst(newBuckets: array<seq<Entry<K, V>>>, c: nat, newBits: nat, ghost total: nat)
      requires newBuckets != buckets && newBits == bucketBits + 1
      requires Moving(buckets[..], newBuckets[..], hash, bucketBits, contents, total)
      requires c < buckets.Length && buckets[c] != []
      modifies buckets, newBuckets
      ensures Moving(buckets[..], newBuckets[..], hash, bucketBits, contents, total)
      ensures buckets[..] == old(buckets[..])[c := old(buckets[c])[1..]]
    {
      ghost var from, to := buckets[..], newBuckets[..];
      MovingStep(from, to, hash, bucketBits, contents, total, c);
      hide Moving;
      var e := buckets[c][0];
      var j := hash(e.key, newBits);
      buckets[c] := buckets[c][1..];
      newBuckets[j] := [e] + newBuckets[j];
      assert buckets[..] == from[c := from[c][1..]] && newBuckets[..] == to[j := [e] + to[j]];
    }

    /** double_size: every node moves to the bucket it hashes to with one more bit; fails without memory. */
    method DoubleSize(memory: bool) returns (ok: bool)
      requires IsHash(hash) && Placed(buckets[..], hash, bucketBits) && Represents(buckets[..], hash, bucketBits, contents)
      modifies this`buckets, this`bucketBits, buckets
      ensures ok == memory
      ensures !ok ==> buckets == old(buckets) && buckets[..] == old(buckets[..]) && bucketBits == old(bucketBits)
      ensures ok ==> fresh(buckets) && bucketBits == old(bucketBits) + 1
      ensures Placed(buckets[..], hash, bucketBits) && Represents(buckets[..], hash, bucketBits, contents)
      ensures Total(buckets[..]) == old(Total(buckets[..]))
    {
      if !memory {
        return false;
      }
      var newBits := bucketBits + 1;
      var newBuckets := new seq<Entry<K, V>>[Pow2(newBits)](_ => []);
      ghost var total := Total(buckets[..]);
      MovingStarts(buckets[..], newBuckets[..], hash, bucketBits, contents);
      hide Moving;
      for c := 0 to buckets.Length
        invariant buckets == old(buckets) && bucketBits == old(bucketBits) && newBits == bucketBits + 1
        invariant fresh(newBuckets) && Moving(buckets[..], newBuckets[..], hash, bucketBits, contents, total)
        invariant forall d :: 0 <= d < c ==> buckets[d] == []
      {
        while buckets[c] != []
          invariant buckets == old(buckets) && bucketBits == old(bucketBits)
          invariant Moving(buckets[..], newBuckets[..], hash, bucketBits, contents, total)
          invariant forall d :: 0 <= d < c ==> buckets[d] == []
          decreases |buckets[c]|
        {
          MoveFirst(newBuckets, c, newBits, total);
        }
      }
      MovingEnds(buckets[..], newBuckets[..], hash, bucketBits, contents, total);
      buckets, bucketBits := newBuckets, newBits;
      return true;
    }

    /** xorg_list_add of a new node */
    method LinkNode(key: K, data: V)
      requires Consistent() && key !in contents
      modifies this`elements, this`contents, buckets
      ensures Consistent() && contents == old(contents)[key := data] && elements == old(elements) + 1
      ensures var index := hash(key, bucketBits);
        index < buckets.Length && buckets[..] == old(buckets[..])[index := [Entry(key, data)] + old(buckets[index])]
    {
      ghost var bs := buckets[..];
      var index := hash(key, bucketBits);
      var e := Entry(key, data);
      assert Lookup(bs, hash, bucketBits, key) == Get(contents, key);
      PlacedWith(bs, hash, bucketBits, e);
      TotalUpdate(bs, index, [e] + bs[index]);
      buckets[index] := [e] + buckets[index];
      assert buckets[..] == bs[index := [e] + bs[index]];
      elements := elements + 1;
      contents := contents[key := data];
      forall k ensures Lookup(buckets[..], hash, bucketBits, k) == Get(contents, k) {
        assert Lookup(bs, hash, bucketBits, k) == Get(old(contents), k);
      }
    }

    /**
     * ht_add of a key that is not in the table. `nodeMemory` says whether the node can be allocated,
     * `tableMemory` whether the larger table can.
     */
    method Add(key: K, data: V, nodeMemory: bool, tableMemory: bool) returns (ok: bool)
      requires Valid() && key !in contents
      modifies this, buckets
      ensures Valid()
      ensures ok ==> contents == old(contents)[key := data]
      ensures !ok ==> contents == old(contents) && buckets == old(buckets) && buckets[..] == old(buckets[..])
                      && elements == old(elements) && bucketBits == old(bucketBits)
      ensures buckets == old(buckets) || fresh(buckets)
      ensures ok <==> nodeMemory && (tableMemory || old(elements) < 4 * Pow2(old(bucketBits)) || old(bucketBits) == MAX_HASH_SIZE)
    {
      if !nodeMemory {
        return false;
      }
      ghost var bs := buckets[..];
      var index := hash(key, bucketBits);
      LinkNode(key, data);
      if elements > 4 * Pow2(bucketBits) && bucketBits < MAX_HASH_SIZE {
        ok := DoubleSize(tableMemory);
        if !ok {
          elements := elements - 1;
          buckets[index] := buckets[index][1..];
          contents := old(contents);
          assert buckets[..] == bs;
          return;
        }
      }
      return true;
    }
  }
}
