/** The code that reads the tree: linear search, climbing to the root, the subtree index of one
    propagator, and its choice of the next hop. */
module Routing {
  import opened Basics
  import opened Topology
  import opened HashTable
  import opened NodeTable
  import HashMap

  /** node_find_by_id: the first row with the id. */
  method FindById(rows: seq<Row>, id: seq<byte>) returns (r: Option<nat>)
    ensures r.None? ==> forall i :: 0 <= i < |rows| ==> rows[i].id != id
    ensures r.Some? ==> r.value < |rows| && rows[r.value].id == id
    ensures r.Some? ==> forall i :: 0 <= i < r.value ==> rows[i].id != id
    ensures UniqueIds(rows) ==> r == LastIndex(rows, |rows|, id)
  {
    for i := 0 to |rows|
      invariant forall j :: 0 <= j < i ==> rows[j].id != id
    {
      if rows[i].id == id {
        if UniqueIds(rows) {
          LastIndexUnique(rows, |rows|, i);
        }
        return Some(i);
      }
    }
    r := None;
  }

  /** find_root: the climb ends at the first node of the path. */
  method FindRoot(g: Graph, n: nat) returns (root: nat)
    requires g.Built() && Acyclic(g.parent) && n < |g.rows|
    ensures root == Root(g.parent, n)
  {
    root := n;
    while g.parent[root].Some?
      invariant root < |g.rows| && Root(g.parent, root) == Root(g.parent, n)
      decreases Depth(g.parent, root)
    {
      root := g.parent[root].value;
    }
  }

  ghost function Subtree(p: Parents, n: nat): set<nat>
    requires Acyclic(p)
  {
    set j | 0 <= j < |p| && Above(p, n, j)
  }

  /** The nodes of s and of the subtrees of the first i nodes of cs. */
  ghost function Gathered(p: Parents, s: set<nat>, cs: seq<nat>, i: nat): set<nat>
    requires Acyclic(p) && i <= |cs|
  {
    if i == 0 then s else Gathered(p, s, cs, i - 1) + Subtree(p, cs[i - 1])
  }

  lemma {:induction false} InGathered(p: Parents, s: set<nat>, cs: seq<nat>, i: nat, j: nat)
    requires Acyclic(p) && i <= |cs|
    ensures j in Gathered(p, s, cs, i) <==> j in s || (j < |p| && exists k :: 0 <= k < i && Above(p, cs[k], j))
  {
    if i != 0 {
      InGathered(p, s, cs, i - 1, j);
    }
  }

  lemma BelowSplit(p: Parents, n: nat, j: nat)
    requires Acyclic(p) && n < |p| && j < |p|
    ensures Above(p, n, j) <==> j == n || exists c :: c in Children(p, n) && Above(p, c, j)
  {
    if Above(p, n, j) && j != n {
      ClimbFindsChild(p, n, j);
    }
    forall c | c in Children(p, n) && Above(p, c, j) ensures Above(p, n, j) {
      ChildrenExact(p, n, |p|, c);
      AboveParent(p, n, c);
      AboveTransitive(p, n, c, j);
    }
  }

  /** A subtree is its top node and the subtrees of its children. */
  lemma SubtreeSplit(p: Parents, n: nat, s: set<nat>)
    requires Acyclic(p) && n < |p|
    ensures s + Subtree(p, n) == Gathered(p, s + {n}, Children(p, n), |Children(p, n)|)
  {
    var cs := Children(p, n);
    forall j: nat ensures j in s + Subtree(p, n) <==> j in Gathered(p, s + {n}, cs, |cs|) {
      InGathered(p, s + {n}, cs, |cs|, j);
      if j < |p| {
        BelowSplit(p, n, j);
      }
    }
  }

  ghost function Ids(rows: seq<Row>, s: set<nat>): set<seq<byte>> {
    set j | j in s && j < |rows| :: rows[j].id
  }

  /** The index of the nodes in s: their ids, each leading to the node that has it. */
  ghost function IndexOf(rows: seq<Row>, s: set<nat>): map<seq<byte>, nat> {
    map id | id in Ids(rows, s) :: match LastIndex(rows, |rows|, id) case Some(j) => j case None => 0
  }

  /** With unique ids, an index holds exactly the ids of its nodes, each mapped to the node that a
      linear search over all rows returns. */
  lemma IndexExact(rows: seq<Row>, s: set<nat>, id: seq<byte>)
    requires UniqueIds(rows)
    ensures var d := LastIndex(rows, |rows|, id);
            Lookup(IndexOf(rows, s), id) == if d.Some? && d.value in s then d else None
  {
    forall j: nat | j < |rows| && rows[j].id == id ensures LastIndex(rows, |rows|, id) == Some(j) {
      LastIndexUnique(rows, |rows|, j);
    }
  }

  lemma IndexAdd(rows: seq<Row>, s: set<nat>, n: nat)
    requires UniqueIds(rows) && n < |rows|
    ensures IndexOf(rows, s)[rows[n].id := n] == IndexOf(rows, s + {n})
  {
    LastIndexUnique(rows, |rows|, n);
    assert Ids(rows, s + {n}) == Ids(rows, s) + {rows[n].id};
  }

  lemma ChildDeeper(p: Parents, n: nat, i: nat)
    requires Acyclic(p) && n < |p| && i < |Children(p, n)|
    ensures var c := Children(p, n)[i]; c < |p| && Depth(p, c) == Depth(p, n) + 1
  {
    assert Children(p, n)[i] in Children(p, n);
    ChildrenExact(p, n, |p|, Children(p, n)[i]);
  }

  /** Levels of the tree below n; children have fewer. */
  ghost function LevelsBelow(p: Parents, n: nat): nat
    requires Acyclic(p) && n < |p|
  {
    Deepest(Depths(p)) - Depth(p, n)
  }

  ghost predicate Tree(g: Graph) {
    g.Built() && Acyclic(g.parent)
  }

  ghost function ChildOf(g: Graph, n: nat, i: nat): (c: nat)
    requires Tree(g) && n < |g.rows| && i < |g.children[n]|
    ensures c == g.children[n][i] < |g.rows| && LevelsBelow(g.parent, c) < LevelsBelow(g.parent, n)
  {
    ChildDeeper(g.parent, n, i);
    g.children[n][i]
  }

  /** The map after collect_subtree of n, and after its loop over the first i children. */
  ghost function Collected(g: Graph, n: nat, m: map<seq<byte>, nat>): map<seq<byte>, nat>
    requires Tree(g) && n < |g.rows|
    decreases LevelsBelow(g.parent, n), |g.children[n]| + 1
  {
    CollectedUpTo(g, n, |g.children[n]|, m[g.rows[n].id := n])
  }

  ghost function CollectedUpTo(g: Graph, n: nat, i: nat, m: map<seq<byte>, nat>): map<seq<byte>, nat>
    requires Tree(g) && n < |g.rows| && i <= |g.children[n]|
    decreases LevelsBelow(g.parent, n), i
  {
    if i == 0 then m else Collected(g, ChildOf(g, n, i - 1), CollectedUpTo(g, n, i - 1, m))
  }

  lemma CollectedNext(g: Graph, n: nat, i: nat, m: map<seq<byte>, nat>)
    requires Tree(g) && n < |g.rows| && i < |g.children[n]|
    ensures CollectedUpTo(g, n, i + 1, m) == Collected(g, ChildOf(g, n, i), CollectedUpTo(g, n, i, m))
  {
  }

  /** Collecting a child of n adds exactly its subtree to any index. */
  ghost predicate ChildrenAdd(g: Graph, n: nat)
    requires Tree(g) && n < |g.rows|
  {
    forall i: nat, s: set<nat> :: i < |g.children[n]| ==> Adds(g, ChildOf(g, n, i), s)
  }

  ghost predicate Adds(g: Graph, c: nat, s: set<nat>)
    requires Tree(g) && c < |g.rows|
  {
    Collected(g, c, IndexOf(g.rows, s)) == IndexOf(g.rows, s + Subtree(g.parent, c))
  }

  lemma {:induction false} CollectedUpToExact(g: Graph, n: nat, i: nat, s: set<nat>)
    requires Tree(g) && n < |g.rows| && i <= |g.children[n]| && ChildrenAdd(g, n)
    ensures CollectedUpTo(g, n, i, IndexOf(g.rows, s)) == IndexOf(g.rows, Gathered(g.parent, s, g.children[n], i))
    decreases i
  {
    if i > 0 {
      CollectedUpToExact(g, n, i - 1, s);
      assert Adds(g, ChildOf(g, n, i - 1), Gathered(g.parent, s, g.children[n], i - 1));
    }
  }

  /** Collecting adds exactly the subtree of n to an index. */
  lemma {:induction false} CollectedExact(g: Graph, n: nat, s: set<nat>)
    requires Tree(g) && UniqueIds(g.rows) && n < |g.rows|
    ensures Collected(g, n, IndexOf(g.rows, s)) == IndexOf(g.rows, s + Subtree(g.parent, n))
    decreases LevelsBelow(g.parent, n)
  {
    forall i: nat, t: set<nat> | i < |g.children[n]| ensures Adds(g, ChildOf(g, n, i), t) {
      CollectedExact(g, ChildOf(g, n, i), t);
    }
    IndexAdd(g.rows, s, n);
    CollectedUpToExact(g, n, |g.children[n]|, s + {n});
    SubtreeSplit(g.parent, n, s);
  }

  /** collect_subtree; the recursion ends because children lie deeper and depths are bounded. */
  method CollectSubtree(m: HashMap.HashMap<seq<byte>, nat>, g: Graph, n: nat)
    requires Tree(g) && n < |g.rows| && m.Valid()
    modifies m.Repr
    ensures m.Valid() && fresh(m.Repr - old(m.Repr))
    ensures m.model == Collected(g, n, old(m.model))
    decreases LevelsBelow(g.parent, n), 1
  {
    m.Add(Ptr(n, g.rows[n].id), n);
    CollectChildren(m, g, n);
  }

  /** The loop over the children of n. */
  method CollectChildren(m: HashMap.HashMap<seq<byte>, nat>, g: Graph, n: nat)
    requires Tree(g) && n < |g.rows| && m.Valid()
    modifies m.Repr
    ensures m.Valid() && fresh(m.Repr - old(m.Repr))
    ensures m.model == CollectedUpTo(g, n, |g.children[n]|, old(m.model))
    decreases LevelsBelow(g.parent, n), 0
  {
    for i := 0 to |g.children[n]|
      invariant m.Valid() && fresh(m.Repr - old(m.Repr))
      invariant m.model == CollectedUpTo(g, n, i, old(m.model))
    {
      CollectedNext(g, n, i, old(m.model));
      CollectSubtree(m, g, g.children[n][i]);
    }
  }

  /** What a propagator knows: the tree, its own position, and the index of its subtree. */
  class Context {
    const graph: Graph
    const me: nat
    const index: HashMap.HashMap<seq<byte>, nat>

    constructor (graph: Graph, me: nat, index: HashMap.HashMap<seq<byte>, nat>)
      ensures this.graph == graph && this.me == me && this.index == index
    {
      this.graph, this.me, this.index := graph, me, index;
    }

    ghost predicate Valid()
      reads index, index.buckets, index.nodes
    {
      && graph.Built() && Acyclic(graph.parent) && UniqueIds(graph.rows) && me < |graph.rows|
      && index.Valid() && index.model == IndexOf(graph.rows, Subtree(graph.parent, me))
    }

    /** The next-hop choice of dispatch_job_fn: the lookup, the two self-send branches and the climb
        loop together compute Hop for the node that has the id. */
    method NextHop(dest: seq<byte>) returns (hop: nat)
      requires Valid()
      ensures hop == Hop(graph.parent, me, LastIndex(graph.rows, |graph.rows|, dest))
      ensures hop < |graph.rows|
    {
      var found := index.Get(dest);
      LookupMeansBelow(graph.rows, graph.parent, me, dest);
      if found.None? {
        return me;
      }
      if found.value == me {
        return me;
      }
      hop := found.value;
      while graph.parent[hop].Some? && graph.parent[hop].value != me
        invariant hop < |graph.rows|
        invariant Climb(graph.parent, me, hop) == Climb(graph.parent, me, found.value)
        decreases Depth(graph.parent, hop)
      {
        hop := graph.parent[hop].value;
      }
    }
  }

  /** A propagator finds exactly the destinations below itself. */
  lemma LookupMeansBelow(rows: seq<Row>, p: Parents, me: nat, dest: seq<byte>)
    requires |p| == |rows| && Acyclic(p) && UniqueIds(rows)
    ensures var d := LastIndex(rows, |rows|, dest);
            Lookup(IndexOf(rows, Subtree(p, me)), dest) == if d.Some? && Above(p, me, d.value) then d else None
  {
    IndexExact(rows, Subtree(p, me), dest);
  }

  /** cp_context_create: fails exactly when the id is not in the configuration; otherwise the map
      indexes the subtree of the node with that id. */
  method CreateContext(g: Graph, id: seq<byte>) returns (ctx: Context?)
    requires g.Built() && Acyclic(g.parent) && UniqueIds(g.rows)
    ensures ctx == null <==> LastIndex(g.rows, |g.rows|, id).None?
    ensures ctx != null ==> ctx.Valid() && ctx.graph == g && Some(ctx.me) == LastIndex(g.rows, |g.rows|, id)
  {
    if |g.rows| == 0 {
      return null;
    }
    var all := Index(g.rows, |g.rows|);
    var me := all.Get(id);
    all.Destroy();
    if me.None? {
      return null;
    }
    var m := IndexSubtree(g, me.value);
    ctx := new Context(g, me.value, m);
  }

  method IndexSubtree(g: Graph, me: nat) returns (m: HashMap.HashMap<seq<byte>, nat>)
    requires g.Built() && Acyclic(g.parent) && UniqueIds(g.rows) && me < |g.rows|
    ensures m.Valid() && fresh(m) && fresh(m.Repr)
    ensures m.model == IndexOf(g.rows, Subtree(g.parent, me))
  {
    m := new HashMap.HashMap<seq<byte>, nat>(|g.rows|, HashString, true, false);
    assert m.model == IndexOf(g.rows, {});
    CollectSubtree(m, g, me);
    CollectedExact(g, me, {});
    assert {} + Subtree(g.parent, me) == Subtree(g.parent, me);
  }

  /** A warning's way through the tree: injected at the destination's root and handed on by each node
      according to the node's own context, it visits exactly the path of the destination. */
  method Route(g: Graph, d: nat) returns (visited: seq<nat>)
    requires g.Built() && Acyclic(g.parent) && UniqueIds(g.rows) && d < |g.rows|
    ensures visited == Path(g.parent, d)
  {
    ghost var p, path := g.parent, Path(g.parent, d);
    var at := FindRoot(g, d);
    visited := [at];
    ghost var k := 0;
    while at != d
      invariant k < |path| && visited == path[..k + 1] && at == path[k]
      decreases |path| - k
    {
      OnwardOnPath(p, d, k);
      at := HopFrom(g, at, d);
      visited := visited + [at];
      k := k + 1;
    }
    PathPrefix(p, d, k);
  }

  lemma OnwardOnPath(p: Parents, d: nat, k: nat)
    requires Acyclic(p) && d < |p| && k < |Path(p, d)| && Path(p, d)[k] != d
    ensures k + 1 < |Path(p, d)| && Hop(p, Path(p, d)[k], Some(d)) == Path(p, d)[k + 1]
  {
    HopOnPath(p, d, k);
  }

  /** The hop that the process at node `at` chooses, starting from the configuration. */
  method HopFrom(g: Graph, at: nat, d: nat) returns (hop: nat)
    requires g.Built() && Acyclic(g.parent) && UniqueIds(g.rows) && at < |g.rows| && d < |g.rows|
    ensures hop == Hop(g.parent, at, Some(d))
  {
    LastIndexUnique(g.rows, |g.rows|, at);
    LastIndexUnique(g.rows, |g.rows|, d);
    var ctx := CreateContext(g, g.rows[at].id);
    hop := ctx.NextHop(g.rows[d].id);
  }

  /** The nodes below position n that are destinations, in file order. */
  function DestinationsBelow(kind: seq<NodeType>, n: nat): seq<nat>
    requires n <= |kind|
  {
    if n == 0 then [] else DestinationsBelow(kind, n - 1) + if kind[n - 1] == DestinationNode then [n - 1] else []
  }

  lemma {:induction false} DestinationsPrefix(kind: seq<NodeType>, m: nat, n: nat)
    requires m <= n <= |kind|
    ensures DestinationsBelow(kind, m) <= DestinationsBelow(kind, n)
  {
    if m < n {
      DestinationsPrefix(kind, m, n - 1);
    }
  }

  /** Exactly the destinations are listed, each once and in file order. */
  lemma {:induction false} DestinationsExact(kind: seq<NodeType>, n: nat, i: nat)
    requires n <= |kind|
    ensures i in DestinationsBelow(kind, n) <==> i < n && kind[i] == DestinationNode
    ensures var ds := DestinationsBelow(kind, n); forall j, k :: 0 <= j < k < |ds| ==> ds[j] < ds[k]
  {
    if n != 0 {
      DestinationsExact(kind, n - 1, i);
      var ds := DestinationsBelow(kind, n - 1);
      forall j | 0 <= j < |ds| ensures ds[j] < n - 1 {
        DestinationsExact(kind, n - 1, ds[j]);
        assert ds[j] in ds;
      }
    }
  }

  /** The generator's counting and fill loops: the array is allocated for the counted destinations,
      every write is inside it, and it ends up holding exactly the destinations. */
  method FillDestinations(kind: seq<NodeType>) returns (dests: array<nat>)
    ensures dests[..] == DestinationsBelow(kind, |kind|)
  {
    var count := 0;
    for i := 0 to |kind|
      invariant count == |DestinationsBelow(kind, i)|
    {
      if kind[i] == DestinationNode {
        count := count + 1;
      }
    }
    dests := new nat[count];
    var di := 0;
    for i := 0 to |kind|
      invariant di <= dests.Length && dests[..di] == DestinationsBelow(kind, i)
    {
      if kind[i] == DestinationNode {
        DestinationsPrefix(kind, i + 1, |kind|);
        dests[di] := i;
        di := di + 1;
      }
    }
  }
}
