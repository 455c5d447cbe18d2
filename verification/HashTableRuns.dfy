/** Whole runs of the hash table: every sequence of puts, gets and removes, with any hash function
    and any allocation failures, ending in destroy. */
module HashTableRuns {
  import opened Basics
  import opened HashTable

  datatype Op<K, V> =
    | OpPut(key: Option<Ptr<K>>, value: V, mem: Memory)
    | OpRemove(k: K)

  /** The table beside the simple map it should behave as, and the pointers it has accepted and freed. */
  datatype Run<K, V> = Run(
    chains: seq<Chain<K, V>>,
    simple: map<K, V>,
    takenKeys: multiset<Ptr<K>>, takenValues: multiset<V>,
    freedKeys: multiset<Ptr<K>>, freedValues: multiset<V>)

  function KeysIn<K(==), V>(log: seq<Freed<K, V>>): multiset<Ptr<K>> {
    if log == [] then multiset{} else
      (if log[0].FreedKey? then multiset{log[0].key} else multiset{}) + KeysIn(log[1..])
  }

  function ValuesIn<K, V(==)>(log: seq<Freed<K, V>>): multiset<V> {
    if log == [] then multiset{} else
      (if log[0].FreedValue? then multiset{log[0].value} else multiset{}) + ValuesIn(log[1..])
  }

  /** One operation, with both free callbacks installed. */
  function Step<K(==, !new), V(==)>(s: Run<K, V>, hash: K -> nat, op: Op<K, V>): Run<K, V>
    requires s.chains != []
  {
    match op
    case OpPut(key, v, mem) =>
      var r := Put(s.chains, hash, key, v, mem);
      var s' := s.(chains := r.chains,
                   freedKeys := s.freedKeys + KeysIn(r.freed), freedValues := s.freedValues + ValuesIn(r.freed));
      if r.code == 0 && key.Some? then
        s'.(simple := s.simple[key.value.target := v],
            takenKeys := s.takenKeys + multiset{key.value}, takenValues := s.takenValues + multiset{v})
      else
        s'
    case OpRemove(k) =>
      var r := Remove(s.chains, hash, k);
      s.(chains := r.chains, simple := s.simple - {k},
         freedKeys := s.freedKeys + KeysIn(r.freed), freedValues := s.freedValues + ValuesIn(r.freed))
  }

  function Created<K(==), V(==)>(capacity: nat): Run<K, V> {
    Run(Empty(capacity), map[], multiset{}, multiset{}, multiset{}, multiset{})
  }

  ghost predicate Owned<K(!new), V(!new)>(s: Run<K, V>) {
    && (forall p :: s.takenKeys[p] == Count(Flat(s.chains), ByKey(p)) + s.freedKeys[p])
    && (forall v :: s.takenValues[v] == Count(Flat(s.chains), ByValue(v)) + s.freedValues[v])
  }

  /** What every state of every run satisfies. */
  ghost predicate Inv<K(!new), V(!new)>(s: Run<K, V>, hash: K -> nat) {
    InStep(s.chains, hash, s.simple) && Owned(s)
  }

  /** The table is well placed, within its load limit, and represents the map m. */
  ghost predicate InStep<K(!new), V(!new)>(chains: seq<Chain<K, V>>, hash: K -> nat, m: map<K, V>) {
    && Placed(chains, hash)
    && Means(Flat(chains), m)
    && 4 * Size(chains) <= 3 * |chains|
  }

  lemma LogOfPair<K, V>(k: Ptr<K>, v: V)
    ensures KeysIn([FreedKey(k), FreedValue(v)]) == KeysIn<K, V>([FreedValue(v), FreedKey(k)]) == multiset{k}
    ensures ValuesIn([FreedKey(k), FreedValue(v)]) == ValuesIn<K, V>([FreedValue(v), FreedKey(k)]) == multiset{v}
  {
    var freedKey: Freed<K, V> := FreedKey(k);
    var freedValue: Freed<K, V> := FreedValue(v);
    LogOfOne(freedKey);
    LogOfOne(freedValue);
    assert [freedKey, freedValue][1..] == [freedValue];
    assert [freedValue, freedKey][1..] == [freedKey];
  }

  lemma LogOfOne<K, V>(f: Freed<K, V>)
    ensures KeysIn([f]) == if f.FreedKey? then multiset{f.key} else multiset{}
    ensures ValuesIn([f]) == if f.FreedValue? then multiset{f.value} else multiset{}
  {
    assert [f][1..] == [];
  }

  // ---- One step against the simple map: plain sequences of entries ----

  lemma MeansAdd<K(!new), V(!new)>(a: Chain<K, V>, e: Entry<K, V>, b: Chain<K, V>, m: map<K, V>)
    requires Means(a + b, m) && e.key.target !in m
    ensures Means(a + [e] + b, m[e.key.target := e.value])
  {
    forall q ensures Count(a + [e] + b, q) == Count(a + b, q) + if Matches(e, q) then 1 else 0 {
      CountSplice(a, [e], b, q);
      CountAppend(a, b, q);
      CountOne(e, q);
    }
    forall f | Count(a + [e] + b, ByEntry(f)) > 0
      ensures Lookup(m[e.key.target := e.value], f.key.target) == Some(f.value)
    {
      if f != e {
        assert Count(a + b, ByEntry(f)) > 0;
      }
    }
  }

  lemma MeansRemove<K(!new), V(!new)>(a: Chain<K, V>, e: Entry<K, V>, b: Chain<K, V>, m: map<K, V>)
    requires Means(a + [e] + b, m)
    ensures e.key.target in m && Means(a + b, m - {e.key.target})
  {
    forall q ensures Count(a + [e] + b, q) == Count(a + b, q) + if Matches(e, q) then 1 else 0 {
      CountSplice(a, [e], b, q);
      CountAppend(a, b, q);
      CountOne(e, q);
    }
    assert Count(a + [e] + b, ByName(e.key.target)) > 0;
    forall f | Count(a + b, ByEntry(f)) > 0
      ensures Lookup(m - {e.key.target}, f.key.target) == Some(f.value)
    {
      assert Count(a + [e] + b, ByEntry(f)) > 0;
      var g := Witness(a + b, ByEntry(f));
      assert Count(a + b, ByName(f.key.target)) > 0 by { CountName(a + b, f); }
    }
    assert m.Keys == (m - {e.key.target}).Keys + {e.key.target};
  }

  lemma {:induction false} CountName<K, V>(es: Chain<K, V>, e: Entry<K, V>)
    requires e in es
    ensures Count(es, ByName(e.key.target)) > 0
  {
    if es[0] != e {
      CountName(es[1..], e);
    }
  }

  lemma MeansReplace<K(!new), V(!new)>(a: Chain<K, V>, e: Entry<K, V>, b: Chain<K, V>, m: map<K, V>, v: V)
    requires Means(a + [e] + b, m)
    ensures Means(a + [e.(value := v)] + b, m[e.key.target := v])
  {
    MeansRemove(a, e, b, m);
    MeansAdd(a, e.(value := v), b, m - {e.key.target});
    assert (m - {e.key.target})[e.key.target := v] == m[e.key.target := v];
  }

  /** Storing into a table that has room keeps the table in step with the simple map. */
  lemma StoreKeepsMap<K(!new), V(!new)>(chains: seq<Chain<K, V>>, hash: K -> nat, m: map<K, V>, k: Ptr<K>, v: V, node: bool)
    requires InStep(chains, hash, m) && Fits(Size(chains), |chains|)
    ensures var r := Store(chains, hash, k, v, node);
            if r.code == 0 then InStep(r.chains, hash, m[k.target := v]) else r.chains == chains && r.freed == []
  {
    GetAgrees(chains, hash, k.target, m);
    var x := StoreEffect(chains, hash, k, v, node);
    if k.target in m {
      assert x.gone == [x.gone[0]];
      MeansReplace(x.before, x.gone[0], x.after, m, v);
    } else if node {
      assert x.before + [] + x.after == x.before + x.after;
      MeansAdd(x.before, Entry(k, v), x.after, m);
    }
  }

  lemma EffectCount<K, V>(x: Effect<K, V>, chains: seq<Chain<K, V>>, chains': seq<Chain<K, V>>, q: Query<K, V>)
    requires Applies(x, chains, chains')
    ensures Count(Flat(chains'), q) + Count(x.gone, q) == Count(Flat(chains), q) + Count(x.come, q)
  {
    CountSplice(x.before, x.gone, x.after, q);
    CountSplice(x.before, x.come, x.after, q);
  }

  /** An accepted key and value enter the account; a replaced value and the spare key leave it as freed. */
  lemma StoreKeepsOwned<K(!new), V(!new)>(chains: seq<Chain<K, V>>, hash: K -> nat, k: Ptr<K>, v: V, node: bool, q: Query<K, V>)
    requires Placed(chains, hash) && (q.ByKey? || q.ByValue?)
    ensures var r := Store(chains, hash, k, v, node);
            r.code == 0 ==>
              Count(Flat(chains), q) + Count([Entry(k, v)], q) == Count(Flat(r.chains), q) + Logged(r.freed, q)
  {
    var x := StoreEffect(chains, hash, k, v, node);
    var r := Store(chains, hash, k, v, node);
    EffectCount(x, chains, r.chains, q);
    CountOne(Entry(k, v), q);
    if Get(chains, hash, k.target).Some? {
      var e := x.gone[0];
      assert x.gone == [e];
      CountOne(e, q);
      CountOne(e.(value := v), q);
      LogOfPair(k, e.value);
    }
  }

  /** How often a key or value pointer appears in a log of frees. */
  ghost function Logged<K, V>(log: seq<Freed<K, V>>, q: Query<K, V>): nat
    requires q.ByKey? || q.ByValue?
  {
    if q.ByKey? then KeysIn(log)[q.p] else ValuesIn(log)[q.v]
  }

  lemma ResizeKeeps<K(!new), V(!new)>(chains: seq<Chain<K, V>>, hash: K -> nat, m: map<K, V>, q: Query<K, V>)
    requires InStep(chains, hash, m)
    ensures InStep(Resize(chains, hash), hash, m) && Fits(Size(Resize(chains, hash)), |Resize(chains, hash)|)
    ensures Count(Flat(Resize(chains, hash)), q) == Count(Flat(chains), q)
  {
    ResizeEffect(chains, hash);
  }

  /** The account of one pointer across a put, which may also rehash. */
  lemma PutAccount<K(!new), V(!new)>(chains: seq<Chain<K, V>>, hash: K -> nat, m: map<K, V>, key: Ptr<K>, v: V, mem: Memory, q: Query<K, V>)
    requires InStep(chains, hash, m) && (q.ByKey? || q.ByValue?)
    ensures var r := Put(chains, hash, Some(key), v, mem);
            Count(Flat(chains), q) + (if r.code == 0 && Matches(Entry(key, v), q) then 1 else 0)
              == Count(Flat(r.chains), q) + Logged(r.freed, q)
  {
    if Fits(Size(chains), |chains|) || mem.buckets {
      var roomy := Resize(chains, hash);
      ResizeKeeps(chains, hash, m, q);
      StoreKeepsMap(roomy, hash, m, key, v, mem.node);
      StoreKeepsOwned(roomy, hash, key, v, mem.node, q);
      CountOne(Entry(key, v), q);
    }
  }

  lemma PutKeepsOwned<K(!new), V(!new)>(s: Run<K, V>, hash: K -> nat, key: Option<Ptr<K>>, v: V, mem: Memory)
    requires Inv(s, hash)
    ensures Owned(Step(s, hash, OpPut(key, v, mem)))
  {
    var s' := Step(s, hash, OpPut(key, v, mem));
    if key.Some? {
      forall p ensures s'.takenKeys[p] == Count(Flat(s'.chains), ByKey(p)) + s'.freedKeys[p] {
        PutAccount(s.chains, hash, s.simple, key.value, v, mem, ByKey(p));
      }
      forall u ensures s'.takenValues[u] == Count(Flat(s'.chains), ByValue(u)) + s'.freedValues[u] {
        PutAccount(s.chains, hash, s.simple, key.value, v, mem, ByValue(u));
      }
    }
  }

  lemma PutKeepsMap<K(!new), V(!new)>(s: Run<K, V>, hash: K -> nat, key: Option<Ptr<K>>, v: V, mem: Memory)
    requires Inv(s, hash)
    ensures var s' := Step(s, hash, OpPut(key, v, mem)); InStep(s'.chains, hash, s'.simple)
  {
    if key.Some? && (Fits(Size(s.chains), |s.chains|) || mem.buckets) {
      ResizeEffect(s.chains, hash);
      StoreKeepsMap(Resize(s.chains, hash), hash, s.simple, key.value, v, mem.node);
    }
  }

  lemma RemoveKeepsMap<K(!new), V(!new)>(chains: seq<Chain<K, V>>, hash: K -> nat, m: map<K, V>, k: K)
    requires InStep(chains, hash, m)
    ensures InStep(Remove(chains, hash, k).chains, hash, m - {k})
    ensures Remove(chains, hash, k).code == if k in m then 1 else 0
  {
    GetAgrees(chains, hash, k, m);
    var x := RemoveEffect(chains, hash, k);
    if k in m {
      assert x.gone == [x.gone[0]];
      assert x.before + [] + x.after == x.before + x.after;
      MeansRemove(x.before, x.gone[0], x.after, m);
    } else {
      assert m - {k} == m;
    }
  }

  lemma RemoveKeepsOwned<K(!new), V(!new)>(chains: seq<Chain<K, V>>, hash: K -> nat, k: K, q: Query<K, V>)
    requires Placed(chains, hash) && (q.ByKey? || q.ByValue?)
    ensures var r := Remove(chains, hash, k); Count(Flat(chains), q) == Count(Flat(r.chains), q) + Logged(r.freed, q)
  {
    var x := RemoveEffect(chains, hash, k);
    EffectCount(x, chains, Remove(chains, hash, k).chains, q);
    if Get(chains, hash, k).Some? {
      var e := x.gone[0];
      assert x.gone == [e];
      CountOne(e, q);
      LogOfPair(e.key, e.value);
    }
  }

  lemma RemoveKeepsInv<K(!new), V(!new)>(s: Run<K, V>, hash: K -> nat, k: K)
    requires Inv(s, hash)
    ensures Inv(Step(s, hash, OpRemove(k)), hash)
  {
    RemoveKeepsMap(s.chains, hash, s.simple, k);
    var s' := Step(s, hash, OpRemove(k));
    forall p ensures s'.takenKeys[p] == Count(Flat(s'.chains), ByKey(p)) + s'.freedKeys[p] {
      RemoveKeepsOwned(s.chains, hash, k, ByKey(p));
    }
    forall u ensures s'.takenValues[u] == Count(Flat(s'.chains), ByValue(u)) + s'.freedValues[u] {
      RemoveKeepsOwned(s.chains, hash, k, ByValue(u));
    }
  }

  // ---- Every run ----

  function Execute<K(==, !new), V(==)>(s: Run<K, V>, hash: K -> nat, ops: seq<Op<K, V>>): (r: Run<K, V>)
    requires s.chains != []
    ensures r.chains != []
    decreases |ops|
  {
    if ops == [] then s else
      StepKeepsBuckets(s, hash, ops[0]);
      Execute(Step(s, hash, ops[0]), hash, ops[1..])
  }

  lemma StepKeepsBuckets<K(!new), V>(s: Run<K, V>, hash: K -> nat, op: Op<K, V>)
    requires s.chains != []
    ensures Step(s, hash, op).chains != []
  {
  }

  lemma CreatedInv<K(!new), V(!new)>(capacity: nat, hash: K -> nat)
    requires capacity > 0
    ensures Inv(Created<K, V>(capacity), hash)
  {
    EmptyChains<K, V>(capacity);
  }

  lemma {:induction false} ExecuteKeepsInv<K(!new), V(!new)>(s: Run<K, V>, hash: K -> nat, ops: seq<Op<K, V>>)
    requires Inv(s, hash)
    ensures Inv(Execute(s, hash, ops), hash)
    decreases |ops|
  {
    if ops != [] {
      match ops[0] {
        case OpPut(key, v, mem) => PutKeepsMap(s, hash, key, v, mem); PutKeepsOwned(s, hash, key, v, mem);
        case OpRemove(k) => RemoveKeepsInv(s, hash, k);
      }
      ExecuteKeepsInv(Step(s, hash, ops[0]), hash, ops[1..]);
    }
  }

  /** Hash map refinement and load: after any operations on a map created with any positive
      capacity, for any hash function, every get answers as the simple map, a remove succeeds
      exactly on present keys, size is the number of keys and stays within three quarters of the
      capacity, and every node is in the chain its hash selects. */
  lemma RefinesMap<K(!new), V(!new)>(capacity: nat, hash: K -> nat, ops: seq<Op<K, V>>, k: K)
    requires capacity > 0
    ensures var s := Execute(Created(capacity), hash, ops);
            && Get(s.chains, hash, k) == Lookup(s.simple, k)
            && Remove(s.chains, hash, k).code == (if k in s.simple then 1 else 0)
            && Size(s.chains) == |s.simple| && 4 * Size(s.chains) <= 3 * |s.chains|
            && forall i, j :: 0 <= i < |s.chains| && 0 <= j < |s.chains[i]| ==> hash(s.chains[i][j].key.target) % |s.chains| == i
  {
    CreatedInv<K, V>(capacity, hash);
    ExecuteKeepsInv(Created<K, V>(capacity), hash, ops);
    var s := Execute(Created(capacity), hash, ops);
    GetAgrees(s.chains, hash, k, s.simple);
    RemoveKeepsMap(s.chains, hash, s.simple, k);
  }

  lemma {:induction false} LogAppend<K, V>(a: seq<Freed<K, V>>, b: seq<Freed<K, V>>)
    ensures KeysIn(a + b) == KeysIn(a) + KeysIn(b)
    ensures ValuesIn(a + b) == ValuesIn(a) + ValuesIn(b)
  {
    if a == [] {
      assert a + b == b;
    } else {
      assert (a + b)[1..] == a[1..] + b;
      LogAppend(a[1..], b);
    }
  }

  lemma {:induction false} ReleaseFreesAll<K, V>(es: Chain<K, V>, q: Query<K, V>)
    requires q.ByKey? || q.ByValue?
    ensures Logged(Release(es), q) == Count(es, q)
  {
    if es != [] {
      var e := es[0];
      ReleaseFreesAll(es[1..], q);
      LogOfPair(e.key, e.value);
      LogAppend([FreedKey(e.key), FreedValue(e.value)], Release(es[1..]));
    }
  }

  /** Ownership: over every run ending in destroy, the keys and values freed are exactly those
      accepted by successful puts, as often as they were accepted. */
  lemma OwnershipConserved<K(!new), V(!new)>(capacity: nat, hash: K -> nat, ops: seq<Op<K, V>>)
    requires capacity > 0
    ensures var s := Execute(Created(capacity), hash, ops);
            && s.freedKeys + KeysIn(Release(Flat(s.chains))) == s.takenKeys
            && s.freedValues + ValuesIn(Release(Flat(s.chains))) == s.takenValues
  {
    CreatedInv<K, V>(capacity, hash);
    ExecuteKeepsInv(Created<K, V>(capacity), hash, ops);
    var s := Execute(Created<K, V>(capacity), hash, ops);
    forall p ensures (s.freedKeys + KeysIn(Release(Flat(s.chains))))[p] == s.takenKeys[p] {
      ReleaseFreesAll(Flat(s.chains), ByKey(p));
    }
    forall v ensures (s.freedValues + ValuesIn(Release(Flat(s.chains))))[v] == s.takenValues[v] {
      ReleaseFreesAll(Flat(s.chains), ByValue(v));
    }
  }

  /** Every put brings a key pointer and a value of its own. */
  ghost predicate FreshPointers<K, V>(ops: seq<Op<K, V>>) {
    forall i, j :: 0 <= i < j < |ops| && ops[i].OpPut? && ops[j].OpPut? ==>
      (ops[i].key.Some? ==> ops[i].key != ops[j].key) && ops[i].value != ops[j].value
  }

  /** The put brings the pointer q. */
  ghost predicate Brings<K, V>(op: Op<K, V>, q: Query<K, V>) {
    op.OpPut? && op.key.Some? && (q.ByKey? || q.ByValue?) && Matches(Entry(op.key.value, op.value), q)
  }

  ghost function Offered<K, V>(ops: seq<Op<K, V>>, q: Query<K, V>): nat {
    if ops == [] then 0 else (if Brings(ops[0], q) then 1 else 0) + Offered(ops[1..], q)
  }

  /** How often a run has accepted the pointer q. */
  ghost function Taken<K, V>(s: Run<K, V>, q: Query<K, V>): nat
    requires q.ByKey? || q.ByValue?
  {
    if q.ByKey? then s.takenKeys[q.p] else s.takenValues[q.v]
  }

  lemma {:induction false} TakenWasOffered<K(!new), V>(s: Run<K, V>, hash: K -> nat, ops: seq<Op<K, V>>, q: Query<K, V>)
    requires s.chains != [] && (q.ByKey? || q.ByValue?)
    ensures Taken(Execute(s, hash, ops), q) <= Taken(s, q) + Offered(ops, q)
    decreases |ops|
  {
    if ops != [] {
      StepKeepsBuckets(s, hash, ops[0]);
      TakenStep(s, hash, ops[0], q);
      TakenWasOffered(Step(s, hash, ops[0]), hash, ops[1..], q);
    }
  }

  lemma TakenStep<K(!new), V>(s: Run<K, V>, hash: K -> nat, op: Op<K, V>, q: Query<K, V>)
    requires s.chains != [] && (q.ByKey? || q.ByValue?)
    ensures Taken(Step(s, hash, op), q) <= Taken(s, q) + if Brings(op, q) then 1 else 0
  {
  }

  lemma {:induction false} NeverOffered<K, V>(ops: seq<Op<K, V>>, q: Query<K, V>)
    requires forall i :: 0 <= i < |ops| ==> !Brings(ops[i], q)
    ensures Offered(ops, q) == 0
  {
    if ops != [] {
      NeverOffered(ops[1..], q);
    }
  }

  lemma {:induction false} FreshOfferedOnce<K, V>(ops: seq<Op<K, V>>, q: Query<K, V>)
    requires FreshPointers(ops)
    ensures Offered(ops, q) <= 1
  {
    if ops != [] {
      if Brings(ops[0], q) {
        NeverOffered(ops[1..], q);
      } else {
        FreshOfferedOnce(ops[1..], q);
      }
    }
  }

  /** With fresh pointers for every put, a run that ends in destroy has freed each key and each value it
      accepted exactly once, and nothing else. */
  lemma FreshPointersFreedOnce<K(!new), V(!new)>(capacity: nat, hash: K -> nat, ops: seq<Op<K, V>>, p: Ptr<K>, v: V)
    requires capacity > 0 && FreshPointers(ops)
    ensures var s := Execute(Created(capacity), hash, ops); var last := Release(Flat(s.chains));
            && (s.freedKeys + KeysIn(last))[p] == (if p in s.takenKeys then 1 else 0)
            && (s.freedValues + ValuesIn(last))[v] == (if v in s.takenValues then 1 else 0)
  {
    OwnershipConserved(capacity, hash, ops);
    FreshOfferedOnce(ops, ByKey(p));
    FreshOfferedOnce(ops, ByValue(v));
    TakenWasOffered(Created(capacity), hash, ops, ByKey(p));
    TakenWasOffered(Created(capacity), hash, ops, ByValue(v));
  }

  /** A put fails exactly when the key is NULL or memory it needs is missing. */
  lemma PutFailsIff<K(!new), V(!new)>(chains: seq<Chain<K, V>>, hash: K -> nat, m: map<K, V>, key: Option<Ptr<K>>, v: V, mem: Memory)
    requires InStep(chains, hash, m)
    ensures Put(chains, hash, key, v, mem).code == -1 <==>
              (|| key.None?
               || (4 * (Size(chains) + 1) > 3 * |chains| && !mem.buckets)
               || (key.value.target !in m && !mem.node))
  {
    if key.Some? && (Fits(Size(chains), |chains|) || mem.buckets) {
      ResizeEffect(chains, hash);
      var roomy := Resize(chains, hash);
      GetAgrees(roomy, hash, key.value.target, m);
      var x := StoreEffect(roomy, hash, key.value, v, mem.node);
    }
  }

  /** A put doubles the capacity exactly when one more entry would pass three quarters of it and there is
      memory, whether the key is new or not; otherwise the capacity stays. */
  lemma PutCapacity<K(!new), V(!new)>(chains: seq<Chain<K, V>>, hash: K -> nat, key: Ptr<K>, v: V, mem: Memory)
    requires Placed(chains, hash) && 4 * Size(chains) <= 3 * |chains|
    ensures |Put(chains, hash, Some(key), v, mem).chains| ==
              if 4 * (Size(chains) + 1) > 3 * |chains| && mem.buckets then 2 * |chains| else |chains|
  {
    if 4 * (Size(chains) + 1) <= 3 * |chains| || mem.buckets {
      ResizeEffect(chains, hash);
      var x := StoreEffect(Resize(chains, hash), hash, key, v, mem.node);
    }
  }

  /** A failed put frees nothing, accepts nothing and leaves the represented map alone; any other
      put returns 0. */
  lemma FailedPutKeeps<K(!new), V(!new)>(s: Run<K, V>, hash: K -> nat, key: Option<Ptr<K>>, v: V, mem: Memory)
    requires Inv(s, hash)
    ensures var r, s' := Put(s.chains, hash, key, v, mem), Step(s, hash, OpPut(key, v, mem));
            if r.code == -1 then
              && r.freed == [] && InStep(r.chains, hash, s.simple)
              && s'.takenKeys == s.takenKeys && s'.takenValues == s.takenValues
            else
              r.code == 0
  {
    if key.Some? && (Fits(Size(s.chains), |s.chains|) || mem.buckets) {
      ResizeEffect(s.chains, hash);
      StoreKeepsMap(Resize(s.chains, hash), hash, s.simple, key.value, v, mem.node);
    }
  }
}
