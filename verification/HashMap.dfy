/** The chained hash map on the heap: a bucket array of linked nodes, changed in place. Each method
    is proved to follow the table functions of HashTable, and so to keep the represented map. */
module HashMap {
  import opened Basics
  import opened HashTable
  import opened HashTableRuns

  /** Where a node is linked: the bucket array's capacity, the chain's index, and the number of
      nodes from this one to the end of the chain. */
  datatype Home = Home(capacity: nat, index: nat, height: nat)

  class HashNode<K, V> {
    var key: Ptr<K>
    var value: V
    var next: HashNode?<K, V>
    ghost var home: Home

    constructor (key: Ptr<K>, value: V, next: HashNode?<K, V>, ghost home: Home)
      ensures this.key == key && this.value == value && this.next == next && this.home == home
    {
      this.key, this.value, this.next, this.home := key, value, next, home;
    }
  }

  ghost function NodeAt<K, V>(s: seq<HashNode<K, V>>, j: nat): HashNode?<K, V> {
    if j < |s| then s[j] else null
  }

  /** Node j of the list `s` holds entry `e`, links to the next node and knows its place. */
  ghost predicate Placed1<K, V>(s: seq<HashNode<K, V>>, j: nat, e: Entry<K, V>, capacity: nat, i: nat)
    requires j < |s|
    reads s[j]
  {
    && s[j].next == NodeAt(s, j + 1)
    && s[j].key == e.key && s[j].value == e.value
    && s[j].home == Home(capacity, i, |s| - j)
  }

  /** A bucket array: bucket i heads a NULL-terminated list of the nodes spine[i], which hold the
      entries chains[i]; the recorded homes make all nodes distinct. */
  ghost predicate Rack<K, V>(buckets: seq<HashNode?<K, V>>, spine: seq<seq<HashNode<K, V>>>, chains: seq<Chain<K, V>>, R: set<HashNode<K, V>>)
    reads R
  {
    && |buckets| == |spine| == |chains|
    && (forall i :: 0 <= i < |spine| ==> |spine[i]| == |chains[i]| && buckets[i] == NodeAt(spine[i], 0))
    && (forall i, j :: 0 <= i < |spine| && 0 <= j < |spine[i]| ==>
          spine[i][j] in R && Placed1(spine[i], j, chains[i][j], |spine|, i))
  }

  class HashMap<K(==, !new), V(==, !new)> {
    var buckets: array<HashNode?<K, V>>
    var capacity: nat
    var size: nat
    const hash: K -> nat
    const freesKeys: bool
    const freesValues: bool
    /** The calls made so far to the free callbacks. */
    var freed: seq<Freed<K, V>>

    ghost var spine: seq<seq<HashNode<K, V>>>
    ghost var chains: seq<Chain<K, V>>
    ghost var model: map<K, V>
    ghost var nodes: set<HashNode<K, V>>
    ghost var Repr: set<object>

    /** The heap structure. */
    ghost predicate Shape()
      reads `buckets, `capacity, `spine, `chains, `nodes, `Repr, buckets, nodes
    {
      && this in Repr && buckets in Repr && nodes <= Repr
      && capacity == buckets.Length
      && Rack(buckets[..], spine, chains, nodes)
    }

    ghost predicate Valid()
      reads this, buckets, nodes
    {
      Shape() && size == Size(chains) && InStep(chains, hash, model)
    }

    /** The map that hashmap_create returns for a positive capacity. */
    constructor (capacity: nat, hash: K -> nat, freesKeys: bool, freesValues: bool)
      requires capacity > 0
      ensures Valid() && fresh(Repr)
      ensures this.hash == hash && this.freesKeys == freesKeys && this.freesValues == freesValues
      ensures chains == Empty(capacity) && model == map[] && freed == []
    {
      this.capacity, this.hash, this.freesKeys, this.freesValues := capacity, hash, freesKeys, freesValues;
      size := 0;
      buckets := new HashNode?<K, V>[capacity](_ => null);
      freed, model := [], map[];
      chains := Empty(capacity);
      spine := seq(capacity, _ => []);
      nodes := {};
      Repr := {this, buckets};
      new;
      EmptyChains<K, V>(capacity);
    }

    /** The calls made for a list of frees: a callback that is NULL is not called. */
    ghost function Calls(log: seq<Freed<K, V>>): seq<Freed<K, V>> {
      if log == [] then [] else Call(log[0]) + Calls(log[1..])
    }

    ghost function Call(f: Freed<K, V>): seq<Freed<K, V>> {
      if (if f.FreedKey? then freesKeys else freesValues) then [f] else []
    }

    lemma CallsPair(f: Freed<K, V>, g: Freed<K, V>)
      ensures Calls([f, g]) == Call(f) + Call(g)
    {
      assert [f, g][1..] == [g] && [g][1..] == [];
      assert Calls([g]) == Call(g) + Calls([]);
    }

    lemma {:induction false} CallsAppend(a: seq<Freed<K, V>>, b: seq<Freed<K, V>>)
      ensures Calls(a + b) == Calls(a) + Calls(b)
    {
      if a == [] {
        assert a + b == b;
      } else {
        assert (a + b)[1..] == a[1..] + b;
        CallsAppend(a[1..], b);
      }
    }

    /** What a callback that is not installed would have freed is not freed, and everything else is. */
    lemma {:induction false} CallsCount(log: seq<Freed<K, V>>)
      ensures KeysIn(Calls(log)) == if freesKeys then KeysIn(log) else multiset{}
      ensures ValuesIn(Calls(log)) == if freesValues then ValuesIn(log) else multiset{}
    {
      if log != [] {
        CallsCount(log[1..]);
        LogAppend(Call(log[0]), Calls(log[1..]));
        LogOfOne(log[0]);
      }
    }

    /** The key callback, unless it is NULL. */
    method FreeKey(key: Ptr<K>)
      modifies `freed
      ensures freed == old(freed) + Call(FreedKey(key))
    {
      if freesKeys {
        freed := freed + [FreedKey(key)];
      }
    }

    /** The value callback, unless it is NULL. */
    method FreeValue(value: V)
      modifies `freed
      ensures freed == old(freed) + Call(FreedValue(value))
    {
      if freesValues {
        freed := freed + [FreedValue(value)];
      }
    }

    /** The calls for an entry that leaves the map: its key, then its value. */
    method FreeEntry(key: Ptr<K>, value: V)
      modifies `freed
      ensures freed == old(freed) + Calls([FreedKey(key), FreedValue(value)])
    {
      FreeKey(key);
      FreeValue(value);
      CallsPair(FreedKey(key), FreedValue(value));
    }

    /** Walks the chain for k as put, get and remove do. */
    method Locate(k: K) returns (idx: nat, prev: HashNode?<K, V>, node: HashNode?<K, V>)
      requires Shape() && capacity > 0
      ensures idx == hash(k) % |chains|
      ensures var j := Find(chains[idx], k);
              && node == NodeAt(spine[idx], j)
              && (node != null ==> prev == if j == 0 then null else spine[idx][j - 1])
    {
      idx := hash(k) % capacity;
      prev, node := null, buckets[idx];
      ghost var j := 0;
      assert buckets[..][idx] == buckets[idx];
      while node != null
        invariant j <= |spine[idx]| && node == NodeAt(spine[idx], j)
        invariant prev == if j == 0 then null else spine[idx][j - 1]
        invariant forall l :: 0 <= l < j ==> chains[idx][l].key.target != k
        decreases |spine[idx]| - j
      {
        assert Placed1(spine[idx], j, chains[idx][j], |spine|, idx);
        if node.key.target == k {
          return;
        }
        prev, node := node, node.next;
        j := j + 1;
      }
    }

    method Get(k: K) returns (r: Option<V>)
      requires Valid()
      ensures r == HashTable.Get(chains, hash, k) == Lookup(model, k)
    {
      var idx, prev, node := Locate(k);
      if node != null {
        assert node == spine[idx][Find(chains[idx], k)];
      }
      r := if node == null then None else Some(node.value);
      GetAgrees(chains, hash, k, model);
    }

    /** Overwrites the value of node j of chain idx. */
    method SetValue(idx: nat, node: HashNode<K, V>, v: V, ghost j: nat)
      requires Shape() && idx < |spine| && j < |spine[idx]| && node == spine[idx][j]
      modifies this`chains, node`value
      ensures Shape()
      ensures chains == old(chains)[idx := old(chains)[idx][j := old(chains)[idx][j].(value := v)]]
    {
      assert node.home == Home(|spine|, idx, |spine[idx]| - j);
      node.value := v;
      chains := chains[idx := chains[idx][j := chains[idx][j].(value := v)]];
    }

    /** Links a new node in front of chain idx. */
    method LinkFront(idx: nat, k: Ptr<K>, v: V)
      requires Shape() && idx < capacity
      modifies this`spine, this`chains, this`nodes, this`Repr, buckets
      ensures Shape() && fresh(Repr - old(Repr)) && old(Repr) <= Repr
      ensures chains == old(chains)[idx := [Entry(k, v)] + old(chains)[idx]]
    {
      assert buckets[..][idx] == buckets[idx];
      var node := new HashNode(k, v, buckets[idx], Home(capacity, idx, |spine[idx]| + 1));
      buckets[idx] := node;
      PrependRack(old(buckets[..]), spine, chains, nodes, idx, node, Entry(k, v));
      assert buckets[..] == old(buckets[..])[idx := node];
      spine := spine[idx := [node] + spine[idx]];
      chains := chains[idx := [Entry(k, v)] + chains[idx]];
      nodes := nodes + {node};
      Repr := Repr + {node};
    }

    /** Makes the predecessor of node j > 0 of chain idx skip it. */
    method Bypass(idx: nat, prev: HashNode<K, V>, node: HashNode<K, V>, ghost j: nat)
      requires Shape() && idx < |spine| && 0 < j < |spine[idx]| && node == spine[idx][j]
      requires prev == spine[idx][j - 1]
      modifies nodes`next, nodes`home
      ensures forall i, l :: 0 <= i < |spine| && 0 <= l < |spine[i]| && i != idx ==>
                Placed1(spine[i], l, chains[i][l], |spine|, i)
      ensures forall l :: 0 <= l < |spine[idx]| && l != j ==> Skips(spine[idx], l, j, chains[idx][l], |spine|, idx)
    {
      ghost var s := spine[idx];
      assert Placed1(s, j, chains[idx][j], |spine|, idx);
      assert forall l :: 0 <= l < |s| ==> s[l].home == Home(|spine|, idx, |s| - l);
      forall n | n in s[..j] ensures n.home.index == idx && n.home.height > |s| - j && n in nodes {
      }
      prev.next := node.next;
      LowerHeights(s, j);
      forall i, l | 0 <= i < |spine| && 0 <= l < |spine[i]| && i != idx
        ensures Placed1(spine[i], l, chains[i][l], |spine|, i)
      {
        assert old(Placed1(spine[i], l, chains[i][l], |spine|, i));
        assert spine[i][l] !in s[..j];
      }
      forall l | 0 <= l < |s| && l != j ensures Skips(s, l, j, chains[idx][l], |spine|, idx) {
        assert old(Placed1(s, l, chains[idx][l], |spine|, idx));
        if l > j {
          assert s[l] !in s[..j];
        }
      }
    }

    /** Records that the nodes before position j are one step closer to the end of their chain. */
    static ghost method LowerHeights(s: seq<HashNode<K, V>>, j: nat)
      requires j <= |s| && forall l :: 0 <= l < j ==> s[l].home.height == |s| - l
      modifies s[..j]`home
      ensures forall l :: 0 <= l < j ==> s[l].home == old(s[l].home).(height := |s| - l - 1)
    {
      forall n | n in s[..j] {
        n.home := n.home.(height := n.home.height - 1);
      }
    }

    /** Unlinks node j of chain idx. */
    method Unlink(idx: nat, prev: HashNode?<K, V>, node: HashNode<K, V>, ghost j: nat)
      requires Shape() && idx < |spine| && j < |spine[idx]| && node == spine[idx][j]
      requires prev == if j == 0 then null else spine[idx][j - 1]
      modifies this`spine, this`chains, buckets, nodes`next, nodes`home
      ensures Shape()
      ensures chains == old(chains)[idx := old(chains)[idx][..j] + old(chains)[idx][j + 1..]]
    {
      if prev != null {
        Bypass(idx, prev, node, j);
      } else {
        assert Placed1(spine[idx], 0, chains[idx][0], |spine|, idx);
        buckets[idx] := node.next;
      }
      assert forall i :: 0 <= i < |spine| ==> old(buckets[..])[i] == NodeAt(spine[i], 0);
      UnlinkRack(buckets[..], spine, chains, nodes, idx, j);
      spine := spine[idx := spine[idx][..j] + spine[idx][j + 1..]];
      chains := chains[idx := chains[idx][..j] + chains[idx][j + 1..]];
    }

    /** The nodes of chain i from position j on, and of all later chains, are still in place. */
    ghost predicate Waiting(i: nat, j: nat)
      requires Matched()
      reads this, nodes
    {
      forall l, k :: 0 <= l < |spine| && 0 <= k < |spine[l]| && (l > i || (l == i && k >= j)) ==>
        spine[l][k] in nodes && Placed1(spine[l], k, chains[l][k], |spine|, l)
    }

    ghost predicate Matched()
      reads this
    {
      |spine| == |chains| && forall l :: 0 <= l < |spine| ==> |spine[l]| == |chains[l]|
    }

    /** Moves one node, number j of chain i, to the front of its chain in the new bucket array. */
    method MoveNode(node: HashNode<K, V>, nb: array<HashNode?<K, V>>,
                    ghost ns: seq<seq<HashNode<K, V>>>, ghost nc: seq<Chain<K, V>>, ghost moved: set<HashNode<K, V>>,
                    ghost i: nat, ghost j: nat)
      returns (next: HashNode?<K, V>,
               ghost ns': seq<seq<HashNode<K, V>>>, ghost nc': seq<Chain<K, V>>, ghost moved': set<HashNode<K, V>>)
      requires Matched() && Waiting(i, j) && i < |spine| && j < |spine[i]| && node == spine[i][j]
      requires |nc| > 0 && nb.Length != |spine| && Rack(nb[..], ns, nc, moved)
      requires forall n :: n in moved ==> n.home.capacity == nb.Length
      modifies node`next, node`home, nb
      ensures next == NodeAt(spine[i], j + 1) && Waiting(i, j + 1)
      ensures Rack(nb[..], ns', nc', moved') && nc' == Prepend(nc, hash, chains[i][j])
      ensures moved' == moved + {node} && forall n :: n in moved' ==> n.home.capacity == nb.Length
    {
      assert Placed1(spine[i], j, chains[i][j], |spine|, i);
      next := node.next;
      var idx := hash(node.key.target) % nb.Length;
      assert nb[..][idx] == nb[idx];
      node.next := nb[idx];
      node.home := Home(nb.Length, idx, |ns[idx]| + 1);
      PrependRack(nb[..], ns, nc, moved, idx, node, chains[i][j]);
      nb[idx] := node;
      assert nb[..] == old(nb[..])[idx := node];
      ns' := ns[idx := [node] + ns[idx]];
      nc' := Prepend(nc, hash, chains[i][j]);
      moved' := moved + {node};
    }

    /** Moves all nodes of chain i, front to back. */
    method MoveChain(i: nat, nb: array<HashNode?<K, V>>,
                     ghost ns: seq<seq<HashNode<K, V>>>, ghost nc: seq<Chain<K, V>>, ghost moved: set<HashNode<K, V>>)
      returns (ghost ns': seq<seq<HashNode<K, V>>>, ghost nc': seq<Chain<K, V>>, ghost moved': set<HashNode<K, V>>)
      requires Matched() && Waiting(i, 0) && i < |spine| == buckets.Length && buckets[i] == NodeAt(spine[i], 0)
      requires |nc| > 0 && nb.Length != |spine| && nb != buckets && Rack(nb[..], ns, nc, moved)
      requires moved <= nodes && forall n :: n in moved ==> n.home.capacity == nb.Length
      modifies nodes`next, nodes`home, nb
      ensures Waiting(i + 1, 0)
      ensures Rack(nb[..], ns', nc', moved') && |nc'| == |nc|
      ensures moved' <= nodes && forall n :: n in moved' ==> n.home.capacity == nb.Length
      ensures nc' == Scatter(chains[i], hash, nc)
    {
      ns', nc', moved' := ns, nc, moved;
      var node := buckets[i];
      ghost var j := 0;
      while node != null
        invariant Waiting(i, j) && j <= |spine[i]| && node == NodeAt(spine[i], j)
        invariant Rack(nb[..], ns', nc', moved') && |nc'| == |nc|
        invariant moved' <= nodes && forall n :: n in moved' ==> n.home.capacity == nb.Length
        invariant Scatter(chains[i][j..], hash, nc') == Scatter(chains[i], hash, nc)
        decreases |spine[i]| - j
      {
        assert chains[i][j..][1..] == chains[i][j + 1..];
        node, ns', nc', moved' := MoveNode(node, nb, ns', nc', moved', i, j);
        j := j + 1;
      }
    }

    /** Moves all nodes of all chains. */
    method MoveAll(nb: array<HashNode?<K, V>>, ghost empty: seq<Chain<K, V>>)
      returns (ghost ns: seq<seq<HashNode<K, V>>>, ghost nc: seq<Chain<K, V>>, ghost moved: set<HashNode<K, V>>)
      requires Shape() && nb.Length == 2 * capacity > 0 && nb != buckets
      requires forall i :: 0 <= i < nb.Length ==> nb[i] == null
      requires |empty| == nb.Length && forall i :: 0 <= i < |empty| ==> empty[i] == []
      modifies nodes`next, nodes`home, nb
      ensures Rack(nb[..], ns, nc, moved) && |nc| == nb.Length && moved <= nodes
      ensures nc == Scatter(Flat(chains), hash, empty)
    {
      ns, nc, moved := seq(nb.Length, _ => []), empty, {};
      assert chains[0..] == chains;
      for i := 0 to capacity
        invariant Rack(nb[..], ns, nc, moved) && |nc| == nb.Length
        invariant moved <= nodes && forall n :: n in moved ==> n.home.capacity == nb.Length
        invariant Waiting(i, 0)
        invariant Scatter(Flat(chains[i..]), hash, nc) == Scatter(Flat(chains), hash, empty)
      {
        assert buckets[..][i] == buckets[i];
        ScatterAppend(chains[i], Flat(chains[i + 1..]), hash, nc);
        ns, nc, moved := MoveChain(i, nb, ns, nc, moved);
        assert chains[i..][1..] == chains[i + 1..];
      }
    }

    /** Replaces the bucket array. */
    method Install(nb: array<HashNode?<K, V>>, ghost ns: seq<seq<HashNode<K, V>>>, ghost nc: seq<Chain<K, V>>,
                   ghost moved: set<HashNode<K, V>>)
      requires Rack(nb[..], ns, nc, moved) && this in Repr && moved <= Repr
      modifies `buckets, `capacity, `spine, `chains, `nodes, `Repr
      ensures Shape() && buckets == nb && chains == nc && nodes == moved && Repr == old(Repr) + {nb}
    {
      buckets, capacity := nb, nb.Length;
      spine, chains, nodes, Repr := ns, nc, moved, Repr + {nb};
    }

    /** Records the represented map after a change. */
    ghost method Note(m: map<K, V>)
      requires Shape() && size == Size(chains) && InStep(chains, hash, m)
      modifies `model
      ensures Valid() && model == m
    {
      model := m;
    }

    /** Relinks every node into a bucket array of twice the capacity. */
    method Rehash()
      requires Shape() && capacity > 0
      modifies this`buckets, this`capacity, this`spine, this`chains, this`nodes, this`Repr, nodes`next, nodes`home
      ensures Shape() && fresh(Repr - old(Repr)) && old(Repr) <= Repr
      ensures nodes <= old(nodes) && fresh(buckets)
      ensures chains == Grow(old(chains), hash)
    {
      var nb := new HashNode?<K, V>[capacity * 2](_ => null);
      EmptyChains<K, V>(capacity * 2);
      ghost var ns, nc, moved := MoveAll(nb, Empty(capacity * 2));
      Install(nb, ns, nc, moved);
    }

    /** resize_if_needed: doubles the bucket array when one more entry would pass the load limit;
        fails only when the new array cannot be allocated. */
    method ResizeIfNeeded(memory: bool) returns (done: bool)
      requires Shape() && capacity > 0 && size == Size(chains)
      modifies `buckets, `capacity, `spine, `chains, `nodes, `Repr, nodes`next, nodes`home
      ensures Shape() && capacity > 0 && fresh(Repr - old(Repr)) && old(Repr) <= Repr
      ensures done == (4 * (old(size) + 1) <= 3 * old(capacity) || memory)
      ensures capacity == old(capacity) * if done && 4 * (old(size) + 1) > 3 * old(capacity) then 2 else 1
      ensures chains == if done then Resize(old(chains), hash) else old(chains)
      ensures nodes <= old(nodes) && (buckets == old(buckets) || fresh(buckets))
    {
      if Fits(size, capacity) {
        return true;
      }
      if !memory {
        return false;
      }
      Rehash();
      done := true;
    }

    /** The part of put after the resize: replace the value of an equal key, freeing the old value and
        the new key, or add a node. */
    method StoreNode(key: Ptr<K>, v: V, memory: bool) returns (code: int)
      requires Shape() && capacity > 0 && size == Size(chains)
      modifies `size, `spine, `chains, `nodes, `Repr, `freed, buckets, nodes`value
      ensures Shape() && fresh(Repr - old(Repr)) && size == Size(chains)
      ensures var r := Store(old(chains), hash, key, v, memory);
              code == r.code && chains == r.chains && freed == old(freed) + Calls(r.freed)
    {
      var idx, prev, node := Locate(key.target);
      ghost var before: seq<Chain<K, V>> := chains;
      ghost var j := Find(before[idx], key.target);
      if node != null {
        ReplaceValue(idx, node, key, v, j);
      } else {
        if !memory {
          return -1;
        }
        SizeUpdate(before, idx, [Entry(key, v)] + before[idx]);
        size := size + 1;
        LinkFront(idx, key, v);
      }
      code := 0;
    }

    /** The branch of put for a key that is present. */
    method ReplaceValue(idx: nat, node: HashNode<K, V>, key: Ptr<K>, v: V, ghost j: nat)
      requires Shape() && idx < |spine| && j < |spine[idx]| && node == spine[idx][j]
      modifies `chains, `freed, node`value
      ensures Shape() && Size(chains) == Size(old(chains))
      ensures chains == old(chains)[idx := old(chains)[idx][j := old(chains)[idx][j].(value := v)]]
      ensures freed == old(freed) + Calls([FreedValue(old(chains)[idx][j].value), FreedKey(key)])
    {
      ghost var e := chains[idx][j];
      assert Placed1(spine[idx], j, e, |spine|, idx);
      CallsPair(FreedValue(e.value), FreedKey(key));
      SizeUpdate(chains, idx, chains[idx][j := e.(value := v)]);
      FreeValue(node.value);
      SetValue(idx, node, v, j);
      FreeKey(key);
    }

    /** The nodes and counters part of put, without the represented map. */
    method PutNode(key: Ptr<K>, v: V, mem: Memory) returns (code: int)
      requires Shape() && size == Size(chains) && Placed(chains, hash) && 4 * size <= 3 * capacity
      modifies `buckets, `capacity, `size, `spine, `chains, `nodes, `Repr, `freed, buckets, nodes
      ensures Shape() && fresh(Repr - old(Repr)) && size == Size(chains)
      ensures var r := HashTable.Put(old(chains), hash, Some(key), v, mem);
              code == r.code && chains == r.chains && freed == old(freed) + Calls(r.freed)
    {
      ResizeEffect(chains, hash);
      var resized := ResizeIfNeeded(mem.buckets);
      if !resized {
        return -1;
      }
      code := StoreNode(key, v, mem.node);
    }

    /** hashmap_put; None is a NULL key. */
    method Put(key: Option<Ptr<K>>, v: V, mem: Memory) returns (code: int)
      requires Valid()
      modifies Repr
      ensures Valid() && fresh(Repr - old(Repr))
      ensures var r := HashTable.Put(old(chains), hash, key, v, mem); code == r.code && chains == r.chains
      ensures model == if code == 0 && key.Some? then old(model)[key.value.target := v] else old(model)
      ensures freed == old(freed) + Calls(if code == 0 && key.Some? then Replaced(old(model), key.value) else [])
      ensures KeysIn(freed) == old(KeysIn(freed)) +
                if code == 0 && key.Some? && key.value.target in old(model) && freesKeys then multiset{key.value} else multiset{}
      ensures ValuesIn(freed) == old(ValuesIn(freed)) +
                if code == 0 && key.Some? && key.value.target in old(model) && freesValues then multiset{old(model)[key.value.target]} else multiset{}
    {
      if key.None? {
        return -1;
      }
      PutKeepsModel(chains, hash, model, key.value, v, mem);
      PutCounts(freed, key.value);
      code := PutNode(key.value, v, mem);
      Note(if code == 0 then model[key.value.target := v] else model);
    }

    lemma PutCounts(log: seq<Freed<K, V>>, key: Ptr<K>)
      ensures KeysIn(log + Calls(Replaced(model, key))) == KeysIn(log) + if key.target in model && freesKeys then multiset{key} else multiset{}
      ensures ValuesIn(log + Calls(Replaced(model, key))) ==
                ValuesIn(log) + if key.target in model && freesValues then multiset{model[key.target]} else multiset{}
      ensures log + Calls([]) == log
    {
      LogAppend(log, Calls(Replaced(model, key)));
      CallsCount(Replaced(model, key));
      if key.target in model {
        LogOfPair(key, model[key.target]);
      }
    }

    /** A put of a non-NULL key whose allocations succeed. */
    method Add(key: Ptr<K>, v: V)
      requires Valid()
      modifies Repr
      ensures Valid() && fresh(Repr - old(Repr))
      ensures model == old(model)[key.target := v]
    {
      var code := Put(Some(key), v, Memory(true, true));
    }

    /** The nodes and counters part of remove. */
    method RemoveNode(k: K) returns (removed: bool)
      requires Shape() && capacity > 0 && size == Size(chains)
      modifies `size, `spine, `chains, `freed, buckets, nodes`next, nodes`home
      ensures Shape() && size == Size(chains)
      ensures var r := HashTable.Remove(old(chains), hash, k);
              removed == (r.code == 1) && chains == r.chains && freed == old(freed) + Calls(r.freed)
    {
      var idx, prev, node := Locate(k);
      if node == null {
        return false;
      }
      DropNode(idx, prev, node, Find(chains[idx], k));
      removed := true;
    }

    /** Unlinks node j of chain idx and frees what it holds. */
    method DropNode(idx: nat, prev: HashNode?<K, V>, node: HashNode<K, V>, ghost j: nat)
      requires Shape() && idx < |spine| && j < |spine[idx]| && node == spine[idx][j]
      requires prev == if j == 0 then null else spine[idx][j - 1]
      requires size == Size(chains)
      modifies `spine, `chains, `freed, `size, buckets, nodes`next, nodes`home
      ensures Shape() && size == Size(chains)
      ensures chains == old(chains)[idx := old(chains)[idx][..j] + old(chains)[idx][j + 1..]]
      ensures var e := old(chains)[idx][j]; freed == old(freed) + Calls([FreedKey(e.key), FreedValue(e.value)])
    {
      ghost var chain := chains[idx];
      assert Placed1(spine[idx], j, chain[j], |spine|, idx);
      SizeUpdate(chains, idx, chain[..j] + chain[j + 1..]);
      Unlink(idx, prev, node, j);
      FreeEntry(node.key, node.value);
      size := size - 1;
    }

    /** hashmap_remove. */
    method Remove(k: K) returns (removed: bool)
      requires Valid()
      modifies Repr
      ensures Valid() && Repr == old(Repr)
      ensures chains == HashTable.Remove(old(chains), hash, k).chains
      ensures removed == (k in old(model)) && model == old(model) - {k}
      ensures if removed then exists key: Ptr<K> :: key.target == k && FreesPair(old(freed), freed, key, old(model)[k])
              else freed == old(freed)
    {
      RemoveKeepsMap(chains, hash, model, k);
      ghost var key := RemoveFrees(chains, hash, model, k);
      if k in model {
        PairCounts(freed, key, model[k]);
      }
      removed := RemoveNode(k);
      Note(model - {k});
    }

    /** Between the two logs lies the freeing of one key and one value, each if its callback is there. */
    ghost predicate FreesPair(log: seq<Freed<K, V>>, log': seq<Freed<K, V>>, key: Ptr<K>, v: V) {
      && log' == log + Calls([FreedKey(key), FreedValue(v)])
      && KeysIn(log') == KeysIn(log) + (if freesKeys then multiset{key} else multiset{})
      && ValuesIn(log') == ValuesIn(log) + (if freesValues then multiset{v} else multiset{})
    }

    lemma PairCounts(log: seq<Freed<K, V>>, key: Ptr<K>, v: V)
      ensures FreesPair(log, log + Calls([FreedKey(key), FreedValue(v)]), key, v)
    {
      LogAppend(log, Calls([FreedKey(key), FreedValue(v)]));
      CallsCount([FreedKey(key), FreedValue(v)]);
      LogOfPair(key, v);
    }

    lemma ReleaseKeys(log: seq<Freed<K, V>>, es: Chain<K, V>)
      ensures forall p :: KeysIn(log + Calls(Release(es)))[p] == KeysIn(log)[p] + if freesKeys then Count(es, ByKey(p)) else 0
    {
      LogAppend(log, Calls(Release(es)));
      CallsCount(Release(es));
      forall p ensures KeysIn(Release(es))[p] == Count(es, ByKey(p)) {
        ReleaseFreesAll(es, ByKey(p));
      }
    }

    lemma ReleaseValues(log: seq<Freed<K, V>>, es: Chain<K, V>)
      ensures forall v :: ValuesIn(log + Calls(Release(es)))[v] == ValuesIn(log)[v] + if freesValues then Count(es, ByValue(v)) else 0
    {
      LogAppend(log, Calls(Release(es)));
      CallsCount(Release(es));
      forall v ensures ValuesIn(Release(es))[v] == Count(es, ByValue(v)) {
        ReleaseFreesAll(es, ByValue(v));
      }
    }

    /** hashmap_destroy: every key still stored goes to the key callback once, if there is one, and every
        value to the value callback. */
    method Destroy()
      requires Valid()
      modifies `freed
      ensures freed == old(freed) + Calls(Release(Flat(chains)))
      ensures forall p :: KeysIn(freed)[p] == old(KeysIn(freed))[p] + if freesKeys then Count(Flat(chains), ByKey(p)) else 0
      ensures forall v :: ValuesIn(freed)[v] == old(ValuesIn(freed))[v] + if freesValues then Count(Flat(chains), ByValue(v)) else 0
    {
      ReleaseKeys(freed, Flat(chains));
      ReleaseValues(freed, Flat(chains));
      DestroyChains();
    }

    method DestroyChains()
      requires Shape()
      modifies `freed
      ensures freed == old(freed) + Calls(Release(Flat(chains)))
    {
      assert chains[0..] == chains;
      for i := 0 to capacity
        invariant freed + Calls(Release(Flat(chains[i..]))) == old(freed) + Calls(Release(Flat(chains)))
      {
        ReleaseChain(chains, i);
        Associative(freed, Calls(Release(chains[i])), Calls(Release(Flat(chains[i + 1..]))));
        DestroyChain(i);
      }
      assert chains[capacity..] == [];
    }

    /** Releasing the chains from i on is releasing chain i, then the rest. */
    lemma ReleaseChain(chains: seq<Chain<K, V>>, i: nat)
      requires i < |chains|
      ensures Calls(Release(Flat(chains[i..]))) == Calls(Release(chains[i])) + Calls(Release(Flat(chains[i + 1..])))
    {
      assert chains[i..][1..] == chains[i + 1..];
      ReleaseAppend(chains[i], Flat(chains[i + 1..]));
      CallsAppend(Release(chains[i]), Release(Flat(chains[i + 1..])));
    }

    method DestroyChain(i: nat)
      requires Shape() && i < capacity
      modifies `freed
      ensures freed == old(freed) + Calls(Release(chains[i]))
    {
      var node := buckets[i];
      assert buckets[..][i] == buckets[i];
      ghost var s, c, j := spine[i], chains[i], 0;
      while node != null
        invariant j <= |s| == |c| && node == NodeAt(s, j)
        invariant freed + Calls(Release(c[j..])) == old(freed) + Calls(Release(c))
        decreases |s| - j
      {
        assert Placed1(spine[i], j, chains[i][j], |spine|, i);
        var next := node.next;
        ReleaseOne(freed, c, j);
        FreeEntry(node.key, node.value);
        node := next;
        j := j + 1;
      }
      assert c[j..] == [];
    }

    /** Releasing a chain from node j on is releasing node j, then the rest. */
    lemma ReleaseOne(log: seq<Freed<K, V>>, c: Chain<K, V>, j: nat)
      requires j < |c|
      ensures log + Calls(Release(c[j..])) == log + Calls([FreedKey(c[j].key), FreedValue(c[j].value)]) + Calls(Release(c[j + 1..]))
    {
      var pair := [FreedKey(c[j].key), FreedValue(c[j].value)];
      assert c[j..][1..] == c[j + 1..];
      CallsAppend(pair, Release(c[j + 1..]));
      Associative(log, Calls(pair), Calls(Release(c[j + 1..])));
    }
  }

  /** What a successful put frees, told by the represented map: nothing for a new key, the old value
      and the spare key for one that is present. */
  function Replaced<K(==), V>(m: map<K, V>, key: Ptr<K>): seq<Freed<K, V>> {
    if key.target in m then [FreedValue(m[key.target]), FreedKey(key)] else []
  }

  /** hashmap_create: NULL for a capacity of zero, otherwise an empty map. */
  method Create<K(==, !new), V(==, !new)>(capacity: nat, hash: K -> nat, freesKeys: bool, freesValues: bool)
    returns (m: HashMap?<K, V>)
    ensures m == null <==> capacity == 0
    ensures m != null ==> m.Valid() && fresh(m) && fresh(m.Repr) && m.model == map[] && m.freed == []
    ensures m != null ==> m.hash == hash && m.freesKeys == freesKeys && m.freesValues == freesValues
  {
    if capacity == 0 {
      return null;
    }
    m := new HashMap<K, V>(capacity, hash, freesKeys, freesValues);
  }

  lemma PutKeepsModel<K(!new), V(!new)>(chains: seq<Chain<K, V>>, hash: K -> nat, m: map<K, V>, key: Ptr<K>, v: V, mem: Memory)
    requires InStep(chains, hash, m)
    ensures var r := Put(chains, hash, Some(key), v, mem);
            && InStep(r.chains, hash, if r.code == 0 then m[key.target := v] else m)
            && r.freed == if r.code == 0 then Replaced(m, key) else []
  {
    if Fits(Size(chains), |chains|) || mem.buckets {
      ResizeEffect(chains, hash);
      StoreKeepsMap(Resize(chains, hash), hash, m, key, v, mem.node);
      StoreFrees(Resize(chains, hash), hash, m, key, v, mem.node);
    }
  }

  lemma StoreFrees<K(!new), V(!new)>(chains: seq<Chain<K, V>>, hash: K -> nat, m: map<K, V>, key: Ptr<K>, v: V, node: bool)
    requires InStep(chains, hash, m)
    ensures var r := Store(chains, hash, key, v, node); r.freed == if r.code == 0 then Replaced(m, key) else []
  {
    GetAgrees(chains, hash, key.target, m);
  }

  /** A remove frees the stored key and the value that the represented map holds. */
  lemma RemoveFrees<K(!new), V(!new)>(chains: seq<Chain<K, V>>, hash: K -> nat, m: map<K, V>, k: K) returns (key: Ptr<K>)
    requires InStep(chains, hash, m)
    ensures key.target == k
    ensures Remove(chains, hash, k).freed == if k in m then [FreedKey(key), FreedValue(m[k])] else []
  {
    GetAgrees(chains, hash, k, m);
    var i := Slot(hash, k, |chains|);
    var j := Find(chains[i], k);
    key := if j < |chains[i]| then chains[i][j].key else Ptr(0, k);
  }

  lemma {:induction false} ReleaseAppend<K, V>(es: Chain<K, V>, fs: Chain<K, V>)
    ensures Release(es + fs) == Release(es) + Release(fs)
  {
    if es == [] {
      assert es + fs == fs;
    } else {
      assert (es + fs)[1..] == es[1..] + fs;
      ReleaseAppend(es[1..], fs);
    }
  }

  lemma SizeUpdate<K, V>(chains: seq<Chain<K, V>>, i: nat, chain: Chain<K, V>)
    requires i < |chains|
    ensures Size(chains[i := chain]) == Size(chains) - |chains[i]| + |chain|
  {
    FlatSplit(chains, i);
    FlatUpdate(chains, i, chain);
  }

  lemma {:induction false} ScatterAppend<K(!new), V>(es: Chain<K, V>, fs: Chain<K, V>, hash: K -> nat, chains: seq<Chain<K, V>>)
    requires chains != []
    ensures Scatter(es + fs, hash, chains) == Scatter(fs, hash, Scatter(es, hash, chains))
    decreases |es|
  {
    if es == [] {
      assert es + fs == fs;
    } else {
      assert (es + fs)[1..] == es[1..] + fs;
      ScatterAppend(es[1..], fs, hash, Prepend(chains, hash, es[0]));
    }
  }

  /** Node l of the list `s` is as it should be once node j has been unlinked. */
  ghost predicate Skips<K, V>(s: seq<HashNode<K, V>>, l: nat, j: nat, e: Entry<K, V>, capacity: nat, i: nat)
    requires l < |s| && j < |s|
    reads s[l]
  {
    && s[l].next == NodeAt(s, if l + 1 == j then j + 1 else l + 1)
    && s[l].key == e.key && s[l].value == e.value
    && s[l].home == Home(capacity, i, if l < j then |s| - l - 1 else |s| - l)
  }

  lemma UnlinkRack<K, V>(buckets: seq<HashNode?<K, V>>, spine: seq<seq<HashNode<K, V>>>, chains: seq<Chain<K, V>>,
                         R: set<HashNode<K, V>>, idx: nat, j: nat)
    requires |buckets| == |spine| == |chains| && idx < |spine| && j < |spine[idx]|
    requires forall i :: 0 <= i < |spine| ==> |spine[i]| == |chains[i]|
    requires forall i :: 0 <= i < |spine| && i != idx ==> buckets[i] == NodeAt(spine[i], 0)
    requires buckets[idx] == NodeAt(spine[idx], if j == 0 then 1 else 0)
    requires forall i, l :: 0 <= i < |spine| && 0 <= l < |spine[i]| ==> spine[i][l] in R
    requires forall i, l :: 0 <= i < |spine| && 0 <= l < |spine[i]| && i != idx ==>
               Placed1(spine[i], l, chains[i][l], |spine|, i)
    requires forall l :: 0 <= l < |spine[idx]| && l != j ==> Skips(spine[idx], l, j, chains[idx][l], |spine|, idx)
    ensures Rack(buckets, spine[idx := spine[idx][..j] + spine[idx][j + 1..]],
                 chains[idx := chains[idx][..j] + chains[idx][j + 1..]], R)
  {
    var s, c := spine[idx], chains[idx];
    var s', c' := s[..j] + s[j + 1..], c[..j] + c[j + 1..];
    forall l | 0 <= l < |s'| ensures s'[l] in R && Placed1(s', l, c'[l], |spine|, idx) {
      var l' := if l < j then l else l + 1;
      assert s'[l] == s[l'] && c'[l] == c[l'];
      assert Skips(s, l', j, c[l'], |spine|, idx);
      assert NodeAt(s', l + 1) == NodeAt(s, if l' + 1 == j then j + 1 else l' + 1);
    }
  }

  /** A node that is not in the rack and points at the head of chain idx can become its new head. */
  lemma PrependRack<K, V>(buckets: seq<HashNode?<K, V>>, spine: seq<seq<HashNode<K, V>>>, chains: seq<Chain<K, V>>,
                          R: set<HashNode<K, V>>, idx: nat, node: HashNode<K, V>, e: Entry<K, V>)
    requires Rack(buckets, spine, chains, R) && idx < |spine|
    requires node.next == buckets[idx] && e == Entry(node.key, node.value)
    requires node.home == Home(|spine|, idx, |spine[idx]| + 1)
    ensures Rack(buckets[idx := node], spine[idx := [node] + spine[idx]], chains[idx := [e] + chains[idx]], R + {node})
  {
    var spine', chains' := spine[idx := [node] + spine[idx]], chains[idx := [e] + chains[idx]];
    forall i, j | 0 <= i < |spine'| && 0 <= j < |spine'[i]|
      ensures spine'[i][j] in R + {node} && Placed1(spine'[i], j, chains'[i][j], |spine'|, i)
    {
      if i != idx {
        assert spine'[i][j] == spine[i][j];
      } else if j > 0 {
        assert spine'[i][j] == spine[i][j - 1];
      }
    }
  }
}
