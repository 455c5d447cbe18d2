/** The chained hash table as a value: a sequence of chains. The class in HashMap works on linked
    nodes and is proved to follow these functions; the properties of the table over whole runs
    (agreement with a finite map, load, ownership of keys and values) are proved here. */
module HashTable {
  import opened Basics

  /** A heap allocation: two allocations with equal contents are still different pointers. */
  datatype Ptr<T> = Ptr(addr: nat, target: T)

  datatype Entry<K, V> = Entry(key: Ptr<K>, value: V)

  type Chain<K, V> = seq<Entry<K, V>>

  /** Whether the allocations a put may need succeed. */
  datatype Memory = Memory(buckets: bool, node: bool)

  /** A call of one of the map's free callbacks. */
  datatype Freed<K, V> = FreedKey(key: Ptr<K>) | FreedValue(value: V)

  datatype Outcome<K, V> = Outcome(code: int, chains: seq<Chain<K, V>>, freed: seq<Freed<K, V>>)

  function Flat<K, V>(chains: seq<Chain<K, V>>): Chain<K, V> {
    if chains == [] then [] else chains[0] + Flat(chains[1..])
  }

  function Size<K, V>(chains: seq<Chain<K, V>>): nat {
    |Flat(chains)|
  }

  function Slot<K(!new)>(hash: K -> nat, k: K, capacity: nat): (i: nat)
    requires capacity > 0
    ensures i < capacity
  {
    hash(k) % capacity
  }

  /** Position of the entry for k in a chain, or the chain's length. */
  function Find<K(==), V>(chain: Chain<K, V>, k: K): (j: nat)
    ensures j <= |chain|
    ensures j < |chain| ==> chain[j].key.target == k
    ensures forall i :: 0 <= i < j ==> chain[i].key.target != k
  {
    if chain == [] || chain[0].key.target == k then 0 else
      var j := Find(chain[1..], k) + 1;
      assert forall i :: 1 <= i < j ==> chain[i] == chain[1..][i - 1];
      j
  }

  function Get<K(==, !new), V>(chains: seq<Chain<K, V>>, hash: K -> nat, k: K): Option<V>
    requires chains != []
  {
    var chain := chains[Slot(hash, k, |chains|)];
    var j := Find(chain, k);
    if j < |chain| then Some(chain[j].value) else None
  }

  function Empty<K, V>(capacity: nat): (chains: seq<Chain<K, V>>)
    ensures |chains| == capacity
    ensures Flat(chains) == []
  {
    if capacity == 0 then [] else
      assert ([[]] + Empty<K, V>(capacity - 1))[1..] == Empty<K, V>(capacity - 1);
      [[]] + Empty(capacity - 1)
  }

  function Prepend<K(!new), V>(chains: seq<Chain<K, V>>, hash: K -> nat, e: Entry<K, V>): (r: seq<Chain<K, V>>)
    requires chains != []
    ensures |r| == |chains|
  {
    var i := Slot(hash, e.key.target, |chains|);
    chains[i := [e] + chains[i]]
  }

  /** Moves entries, in order, to the front of their chains. */
  function Scatter<K(!new), V>(es: Chain<K, V>, hash: K -> nat, chains: seq<Chain<K, V>>): (r: seq<Chain<K, V>>)
    requires chains != []
    ensures |r| == |chains|
    decreases |es|
  {
    if es == [] then chains else Scatter(es[1..], hash, Prepend(chains, hash, es[0]))
  }

  /** The load test of the source, (size + 1) / capacity <= 0.75, without floats. */
  predicate Fits(size: nat, capacity: nat) {
    4 * (size + 1) <= 3 * capacity
  }

  function Grow<K(!new), V>(chains: seq<Chain<K, V>>, hash: K -> nat): (r: seq<Chain<K, V>>)
    requires chains != []
    ensures |r| == 2 * |chains|
  {
    Scatter(Flat(chains), hash, Empty(2 * |chains|))
  }

  function Resize<K(!new), V>(chains: seq<Chain<K, V>>, hash: K -> nat): (r: seq<Chain<K, V>>)
    requires chains != []
    ensures r != []
  {
    if Fits(Size(chains), |chains|) then chains else Grow(chains, hash)
  }

  function Store<K(==, !new), V>(chains: seq<Chain<K, V>>, hash: K -> nat, k: Ptr<K>, v: V, node: bool): Outcome<K, V>
    requires chains != []
  {
    var i := Slot(hash, k.target, |chains|);
    var j := Find(chains[i], k.target);
    if j < |chains[i]| then
      var e := chains[i][j];
      Outcome(0, chains[i := chains[i][j := e.(value := v)]], [FreedValue(e.value), FreedKey(k)])
    else if node then
      Outcome(0, Prepend(chains, hash, Entry(k, v)), [])
    else
      Outcome(-1, chains, [])
  }

  function Put<K(==, !new), V>(chains: seq<Chain<K, V>>, hash: K -> nat, key: Option<Ptr<K>>, v: V, mem: Memory): Outcome<K, V>
    requires chains != []
  {
    if key.None? then
      Outcome(-1, chains, [])
    else if !Fits(Size(chains), |chains|) && !mem.buckets then
      Outcome(-1, chains, [])
    else
      Store(Resize(chains, hash), hash, key.value, v, mem.node)
  }

  function Remove<K(==, !new), V>(chains: seq<Chain<K, V>>, hash: K -> nat, k: K): Outcome<K, V>
    requires chains != []
  {
    var i := Slot(hash, k, |chains|);
    var chain := chains[i];
    var j := Find(chain, k);
    if j < |chain| then
      Outcome(1, chains[i := chain[..j] + chain[j + 1..]], [FreedKey(chain[j].key), FreedValue(chain[j].value)])
    else
      Outcome(0, chains, [])
  }

  function Release<K, V>(es: Chain<K, V>): seq<Freed<K, V>> {
    if es == [] then [] else [FreedKey(es[0].key), FreedValue(es[0].value)] + Release(es[1..])
  }

  // ---- What a table means ----

  /** Every entry lies in the chain its hash selects. */
  predicate Placed<K(!new), V(!new)>(chains: seq<Chain<K, V>>, hash: K -> nat) {
    && chains != []
    && forall i, j :: 0 <= i < |chains| && 0 <= j < |chains[i]| ==> Slot(hash, chains[i][j].key.target, |chains|) == i
  }

  /** What to count in a sequence of entries: a key's contents, a key pointer, a value or an entry. */
  datatype Query<K, V> = ByName(k: K) | ByKey(p: Ptr<K>) | ByValue(v: V) | ByEntry(e: Entry<K, V>)

  ghost predicate Matches<K, V>(e: Entry<K, V>, q: Query<K, V>) {
    match q
    case ByName(k) => e.key.target == k
    case ByKey(p) => e.key == p
    case ByValue(v) => e.value == v
    case ByEntry(f) => e == f
  }

  ghost function Count<K, V>(es: Chain<K, V>, q: Query<K, V>): nat {
    if es == [] then 0 else (if Matches(es[0], q) then 1 else 0) + Count(es[1..], q)
  }

  /** The entries are exactly the pairs of the finite map m, each key once. */
  ghost predicate Means<K(!new), V(!new)>(es: Chain<K, V>, m: map<K, V>) {
    && (forall k :: Count(es, ByName(k)) == if k in m then 1 else 0)
    && (forall e :: Count(es, ByEntry(e)) > 0 ==> Lookup(m, e.key.target) == Some(e.value))
    && |es| == |m|
  }

  function Lookup<K(==), V>(m: map<K, V>, k: K): Option<V> {
    if k in m then Some(m[k]) else None
  }

  lemma {:induction false} CountAppend<K, V>(es: Chain<K, V>, fs: Chain<K, V>, q: Query<K, V>)
    ensures Count(es + fs, q) == Count(es, q) + Count(fs, q)
  {
    if es == [] {
      assert es + fs == fs;
    } else {
      assert (es + fs)[1..] == es[1..] + fs;
      CountAppend(es[1..], fs, q);
    }
  }

  lemma CountSplice<K, V>(a: Chain<K, V>, x: Chain<K, V>, b: Chain<K, V>, q: Query<K, V>)
    ensures Count(a + x + b, q) == Count(a, q) + Count(x, q) + Count(b, q)
  {
    CountAppend(a + x, b, q);
    CountAppend(a, x, q);
  }

  lemma CountOne<K, V>(e: Entry<K, V>, q: Query<K, V>)
    ensures Count([e], q) == if Matches(e, q) then 1 else 0
  {
    assert [e][1..] == [];
  }

  lemma {:induction false} Witness<K, V>(es: Chain<K, V>, q: Query<K, V>) returns (e: Entry<K, V>)
    requires Count(es, q) > 0
    ensures e in es && Matches(e, q)
  {
    if Matches(es[0], q) {
      e := es[0];
    } else {
      e := Witness(es[1..], q);
    }
  }

  lemma {:induction false} CountMember<K, V>(es: Chain<K, V>, e: Entry<K, V>)
    requires e in es
    ensures Count(es, ByEntry(e)) > 0
  {
    if es[0] != e {
      CountMember(es[1..], e);
    }
  }

  // ---- Effect of one step on the flattened table ----

  lemma {:induction false} FlatSplit<K, V>(chains: seq<Chain<K, V>>, i: nat)
    requires i < |chains|
    ensures Flat(chains) == Flat(chains[..i]) + chains[i] + Flat(chains[i + 1..])
  {
    if i == 0 {
      assert chains[..0] == [];
    } else {
      FlatSplit(chains[1..], i - 1);
      assert chains[1..][..i - 1] == chains[..i][1..];
      assert chains[1..][i..] == chains[i + 1..];
    }
  }

  lemma FlatUpdate<K, V>(chains: seq<Chain<K, V>>, i: nat, chain: Chain<K, V>)
    requires i < |chains|
    ensures Flat(chains[i := chain]) == Flat(chains[..i]) + chain + Flat(chains[i + 1..])
  {
    FlatSplit(chains[i := chain], i);
    assert chains[i := chain][..i] == chains[..i];
    assert chains[i := chain][i + 1..] == chains[i + 1..];
  }

  lemma InFlat<K(!new), V(!new)>(chains: seq<Chain<K, V>>, hash: K -> nat, e: Entry<K, V>)
    requires Placed(chains, hash)
    ensures e in Flat(chains) <==> e in chains[Slot(hash, e.key.target, |chains|)]
  {
    var s := Slot(hash, e.key.target, |chains|);
    if e in Flat(chains) {
      var i := SomeChain(chains, e);
      var j :| 0 <= j < |chains[i]| && chains[i][j] == e;
      assert Slot(hash, chains[i][j].key.target, |chains|) == i;
    }
    FlatSplit(chains, s);
  }

  lemma {:induction false} SomeChain<K, V>(chains: seq<Chain<K, V>>, e: Entry<K, V>) returns (i: nat)
    requires e in Flat(chains)
    ensures i < |chains| && e in chains[i]
  {
    if e in chains[0] {
      i := 0;
    } else {
      i := SomeChain(chains[1..], e);
      i := i + 1;
    }
  }

  /** A get returns what the represented map holds. */
  lemma GetAgrees<K(!new), V(!new)>(chains: seq<Chain<K, V>>, hash: K -> nat, k: K, m: map<K, V>)
    requires Placed(chains, hash) && Means(Flat(chains), m)
    ensures Get(chains, hash, k) == Lookup(m, k)
  {
    var s := Slot(hash, k, |chains|);
    var j := Find(chains[s], k);
    if j < |chains[s]| {
      InFlat(chains, hash, chains[s][j]);
      CountMember(Flat(chains), chains[s][j]);
    } else if k in m {
      var e := Witness(Flat(chains), ByName(k));
      InFlat(chains, hash, e);
    }
  }

  lemma PrependEffect<K(!new), V(!new)>(chains: seq<Chain<K, V>>, hash: K -> nat, e: Entry<K, V>)
    returns (before: Chain<K, V>, after: Chain<K, V>)
    requires Placed(chains, hash)
    ensures Placed(Prepend(chains, hash, e), hash)
    ensures Flat(chains) == before + after
    ensures Flat(Prepend(chains, hash, e)) == before + [e] + after
  {
    var i := Slot(hash, e.key.target, |chains|);
    FlatSplit(chains, i);
    FlatUpdate(chains, i, [e] + chains[i]);
    before := Flat(chains[..i]);
    after := chains[i] + Flat(chains[i + 1..]);
    assert Flat(Prepend(chains, hash, e)) == before + ([e] + chains[i]) + Flat(chains[i + 1..]);
    assert before + ([e] + chains[i]) + Flat(chains[i + 1..]) == before + [e] + after;
  }

  lemma {:induction false} ScatterEffect<K(!new), V(!new)>(es: Chain<K, V>, hash: K -> nat, chains: seq<Chain<K, V>>)
    requires Placed(chains, hash)
    ensures Placed(Scatter(es, hash, chains), hash)
    ensures Size(Scatter(es, hash, chains)) == |es| + Size(chains)
    decreases |es|
  {
    if es != [] {
      var before, after := PrependEffect(chains, hash, es[0]);
      ScatterEffect(es[1..], hash, Prepend(chains, hash, es[0]));
      assert es == [es[0]] + es[1..];
    }
  }

  /** Rehashing loses, invents and duplicates nothing. */
  lemma {:induction false} ScatterCount<K(!new), V(!new)>(es: Chain<K, V>, hash: K -> nat, chains: seq<Chain<K, V>>, q: Query<K, V>)
    requires Placed(chains, hash)
    ensures Count(Flat(Scatter(es, hash, chains)), q) == Count(es, q) + Count(Flat(chains), q)
    decreases |es|
  {
    if es != [] {
      var a, b := PrependEffect(chains, hash, es[0]);
      ScatterCount(es[1..], hash, Prepend(chains, hash, es[0]), q);
      CountSplice(a, [es[0]], b, q);
      CountAppend(a, b, q);
      CountOne(es[0], q);
    }
  }

  /** Doubling rehashes every entry into place and changes neither the entries nor their number;
      afterwards one more entry fits. */
  lemma ResizeEffect<K(!new), V(!new)>(chains: seq<Chain<K, V>>, hash: K -> nat)
    requires Placed(chains, hash) && 4 * Size(chains) <= 3 * |chains|
    ensures Placed(Resize(chains, hash), hash)
    ensures Size(Resize(chains, hash)) == Size(chains)
    ensures forall q :: Count(Flat(Resize(chains, hash)), q) == Count(Flat(chains), q)
    ensures Fits(Size(chains), |Resize(chains, hash)|)
  {
    var wide := Empty<K, V>(2 * |chains|);
    assert Placed(wide, hash) by { EmptyChains<K, V>(2 * |chains|); }
    ScatterEffect(Flat(chains), hash, wide);
    if !Fits(Size(chains), |chains|) {
      forall q ensures Count(Flat(Resize(chains, hash)), q) == Count(Flat(chains), q) {
        ScatterCount(Flat(chains), hash, wide, q);
      }
    }
  }

  lemma {:induction false} EmptyChains<K, V>(capacity: nat)
    ensures forall i :: 0 <= i < capacity ==> Empty<K, V>(capacity)[i] == []
  {
    if capacity != 0 {
      EmptyChains<K, V>(capacity - 1);
    }
  }

  /** Every step replaces at most one entry `gone` of the flattened table by at most one `come`. */
  datatype Effect<K, V> = Effect(before: Chain<K, V>, gone: Chain<K, V>, come: Chain<K, V>, after: Chain<K, V>)

  ghost predicate Applies<K, V>(x: Effect<K, V>, chains: seq<Chain<K, V>>, chains': seq<Chain<K, V>>) {
    && Flat(chains) == x.before + x.gone + x.after
    && Flat(chains') == x.before + x.come + x.after
  }

  lemma Regroup<T>(a: seq<T>, b: seq<T>, c: seq<T>, d: seq<T>, e: seq<T>)
    ensures a + (b + c + d) + e == (a + b) + c + (d + e)
  {
  }

  lemma ReplaceEffect<K(!new), V(!new)>(chains: seq<Chain<K, V>>, hash: K -> nat, i: nat, j: nat, come: Chain<K, V>)
    returns (x: Effect<K, V>)
    requires Placed(chains, hash) && i < |chains| && j < |chains[i]|
    requires forall e :: e in come ==> e.key == chains[i][j].key
    ensures x.gone == [chains[i][j]] && x.come == come
    ensures Applies(x, chains, chains[i := chains[i][..j] + come + chains[i][j + 1..]])
    ensures Placed(chains[i := chains[i][..j] + come + chains[i][j + 1..]], hash)
  {
    var chain := chains[i];
    var chain' := chain[..j] + come + chain[j + 1..];
    var a, b := Flat(chains[..i]), Flat(chains[i + 1..]);
    FlatSplit(chains, i);
    FlatUpdate(chains, i, chain');
    x := Effect(a + chain[..j], [chain[j]], come, chain[j + 1..] + b);
    assert chain == chain[..j] + [chain[j]] + chain[j + 1..];
    Regroup(a, chain[..j], [chain[j]], chain[j + 1..], b);
    Regroup(a, chain[..j], come, chain[j + 1..], b);
    forall l | 0 <= l < |chain'|
      ensures Slot(hash, chain'[l].key.target, |chains|) == i
    {
      if j <= l < j + |come| {
        assert chain'[l] == come[l - j];
        assert chains[i][j].key.target == chain'[l].key.target;
      } else {
        assert chain'[l] == chains[i][if l < j then l else l - |come| + 1];
      }
    }
  }

  /** Storing replaces the value of the entry that has the key, keeping its own key pointer, or
      adds an entry, or (no entry and no memory) does nothing. */
  lemma StoreEffect<K(!new), V(!new)>(chains: seq<Chain<K, V>>, hash: K -> nat, k: Ptr<K>, v: V, node: bool)
    returns (x: Effect<K, V>)
    requires Placed(chains, hash)
    ensures var r := Store(chains, hash, k, v, node);
            && Placed(r.chains, hash) && |r.chains| == |chains|
            && Applies(x, chains, r.chains)
    ensures var r := Store(chains, hash, k, v, node);
            if Get(chains, hash, k.target).Some? then
              && r.code == 0
              && |x.gone| == 1 && x.gone[0].key.target == k.target
              && x.come == [x.gone[0].(value := v)]
              && r.freed == [FreedValue(x.gone[0].value), FreedKey(k)]
            else
              && x.gone == [] && r.freed == []
              && r.code == (if node then 0 else -1)
              && x.come == if node then [Entry(k, v)] else []
  {
    var i := Slot(hash, k.target, |chains|);
    var j := Find(chains[i], k.target);
    if j < |chains[i]| {
      var e := chains[i][j];
      x := ReplaceEffect(chains, hash, i, j, [e.(value := v)]);
      assert chains[i][..j] + [e.(value := v)] + chains[i][j + 1..] == chains[i][j := e.(value := v)];
    } else if node {
      var before, after := PrependEffect(chains, hash, Entry(k, v));
      x := Effect(before, [], [Entry(k, v)], after);
      assert before + [] + after == before + after;
    } else {
      x := Effect(Flat(chains), [], [], []);
    }
  }

  lemma RemoveEffect<K(!new), V(!new)>(chains: seq<Chain<K, V>>, hash: K -> nat, k: K)
    returns (x: Effect<K, V>)
    requires Placed(chains, hash)
    ensures var r := Remove(chains, hash, k);
            && Placed(r.chains, hash) && |r.chains| == |chains|
            && Applies(x, chains, r.chains) && x.come == []
    ensures var r := Remove(chains, hash, k);
            if Get(chains, hash, k).Some? then
              && r.code == 1
              && |x.gone| == 1 && x.gone[0].key.target == k
              && r.freed == [FreedKey(x.gone[0].key), FreedValue(x.gone[0].value)]
            else
              && r.code == 0 && x.gone == [] && r.freed == []
  {
    var i := Slot(hash, k, |chains|);
    var j := Find(chains[i], k);
    if j < |chains[i]| {
      x := ReplaceEffect(chains, hash, i, j, []);
      assert chains[i][..j] + [] + chains[i][j + 1..] == chains[i][..j] + chains[i][j + 1..];
    } else {
      x := Effect(Flat(chains), [], [], []);
    }
  }
}
