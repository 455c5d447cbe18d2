/** The tree of processes: rows of the configuration, the parent relation they define, and the
    next-hop rule, with the theorem that local hop choices compose into the path of the tree. */
module Topology {
  import opened Basics

  /** One parsed row of the configuration. */
  datatype Row = Row(id: seq<byte>, address: seq<byte>, port: uint16, parentId: Option<seq<byte>>)

  datatype NodeType = RootNode | CentralNode | DestinationNode

  /** The parent of each node, by position in the file. */
  type Parents = seq<Option<nat>>

  predicate InRange(p: Parents) {
    forall i :: 0 <= i < |p| && p[i].Some? ==> p[i].value < |p|
  }

  /** The last of the first n rows with the given id: later rows replace earlier ones in the index. */
  function LastIndex(rows: seq<Row>, n: nat, id: seq<byte>): (r: Option<nat>)
    requires n <= |rows|
    ensures r.Some? ==> r.value < n && rows[r.value].id == id
    ensures r.None? ==> forall i :: 0 <= i < n ==> rows[i].id != id
  {
    if n == 0 then None else if rows[n - 1].id == id then Some(n - 1) else LastIndex(rows, n - 1, id)
  }

  predicate UniqueIds(rows: seq<Row>) {
    forall i, j :: 0 <= i < j < |rows| ==> rows[i].id != rows[j].id
  }

  function ParentOf(rows: seq<Row>, i: nat): Option<nat>
    requires i < |rows|
  {
    match rows[i].parentId
    case None => None
    case Some(id) => LastIndex(rows, |rows|, id)
  }

  /** The parent relation of a configuration. */
  function ParentsOf(rows: seq<Row>): (p: Parents)
    ensures |p| == |rows| && InRange(p)
    ensures forall i :: 0 <= i < |rows| ==> p[i] == ParentOf(rows, i)
  {
    seq(|rows|, i requires 0 <= i < |rows| => ParentOf(rows, i))
  }

  lemma {:induction false} LastIndexIs(rows: seq<Row>, n: nat, id: seq<byte>)
    requires n <= |rows|
    ensures var r := LastIndex(rows, n, id);
            if r.Some? then r.value < n && rows[r.value].id == id && forall k :: r.value < k < n ==> rows[k].id != id
            else forall k :: 0 <= k < n ==> rows[k].id != id
  {
    if n != 0 {
      LastIndexIs(rows, n - 1, id);
    }
  }

  /** The parent of a node, by the rows alone and wherever in the file it stands: the last row that has
      the node's parent id, if the node has one and some row has it. */
  lemma ParentByRows(rows: seq<Row>, i: nat, j: nat)
    requires i < |rows| && j < |rows|
    ensures ParentsOf(rows)[i] == Some(j) <==>
              rows[i].parentId == Some(rows[j].id) && forall k :: j < k < |rows| ==> rows[k].id != rows[j].id
    ensures ParentsOf(rows)[i] == None <==>
              rows[i].parentId == None || forall k :: 0 <= k < |rows| ==> rows[i].parentId != Some(rows[k].id)
  {
    if rows[i].parentId.Some? {
      LastIndexIs(rows, |rows|, rows[i].parentId.value);
    }
  }

  /** The nodes below position n whose parent is i, in file order. */
  function ChildrenBelow(p: Parents, i: nat, n: nat): seq<nat>
    requires n <= |p|
  {
    if n == 0 then [] else ChildrenBelow(p, i, n - 1) + if p[n - 1] == Some(i) then [n - 1] else []
  }

  function Children(p: Parents, i: nat): seq<nat> {
    ChildrenBelow(p, i, |p|)
  }

  lemma {:induction false} ChildrenExact(p: Parents, i: nat, n: nat, c: nat)
    requires n <= |p|
    ensures c in ChildrenBelow(p, i, n) <==> c < n && p[c] == Some(i)
    ensures forall j, k :: 0 <= j < k < |ChildrenBelow(p, i, n)| ==> ChildrenBelow(p, i, n)[j] < ChildrenBelow(p, i, n)[k] < n
    ensures |ChildrenBelow(p, i, n)| == 1 ==> ChildrenBelow(p, i, n)[0] < n
  {
    if n != 0 {
      ChildrenExact(p, i, n - 1, c);
      var cs := ChildrenBelow(p, i, n - 1);
      forall j | 0 <= j < |cs| ensures cs[j] < n - 1 {
        ChildrenExact(p, i, n - 1, cs[j]);
        assert cs[j] in cs;
      }
    }
  }

  lemma {:induction false} ChildrenPrefix(p: Parents, i: nat, m: nat, n: nat)
    requires m <= n <= |p|
    ensures ChildrenBelow(p, i, m) <= ChildrenBelow(p, i, n)
  {
    if m < n {
      ChildrenPrefix(p, i, m, n - 1);
    }
  }

  function TypeOf(p: Parents, i: nat): NodeType
    requires i < |p|
  {
    if p[i].None? then RootNode else if Children(p, i) != [] then CentralNode else DestinationNode
  }

  /** Row j is the parent that row i names. */
  predicate Names(rows: seq<Row>, i: nat, j: nat)
    requires i < |rows| && j < |rows|
  {
    rows[i].parentId == Some(rows[j].id)
  }

  /** The type of a node, by the rows alone: a root names no row; any other node is a destination if no
      row names it, and a central node if one does. */
  lemma TypeByRows(rows: seq<Row>, i: nat)
    requires i < |rows| && forall j, k :: 0 <= j < k < |rows| ==> rows[j].id != rows[k].id
    ensures var named, naming := exists j :: 0 <= j < |rows| && Names(rows, i, j), exists k :: 0 <= k < |rows| && Names(rows, k, i);
            TypeOf(ParentsOf(rows), i) == if !named then RootNode else if naming then CentralNode else DestinationNode
  {
    var p := ParentsOf(rows);
    ParentByRows(rows, i, i);
    if p[i].Some? {
      ParentByRows(rows, i, p[i].value);
      assert Names(rows, i, p[i].value);
    }
    if k :| 0 <= k < |rows| && Names(rows, k, i) {
      ParentByRows(rows, k, i);
      ChildrenExact(p, i, |p|, k);
    }
    if Children(p, i) != [] {
      var c := Children(p, i)[0];
      assert c in Children(p, i);
      ChildrenExact(p, i, |p|, c);
      ParentByRows(rows, c, i);
      assert Names(rows, c, i);
    }
  }

  // ---- Depth and paths ----

  ghost predicate IsDepth(p: Parents, d: seq<nat>)
    requires InRange(p)
  {
    |d| == |p| && forall i :: 0 <= i < |p| ==> DepthAt(p, d, i)
  }

  ghost predicate DepthAt(p: Parents, d: seq<nat>, i: nat)
    requires InRange(p) && i < |d| == |p|
  {
    d[i] == if p[i].None? then 0 else 1 + d[p[i].value]
  }

  /** Every node is finitely many steps below a root. */
  ghost predicate Acyclic(p: Parents) {
    InRange(p) && exists d :: IsDepth(p, d)
  }

  ghost function Depths(p: Parents): (d: seq<nat>)
    requires Acyclic(p)
    ensures IsDepth(p, d)
  {
    var d :| IsDepth(p, d); d
  }

  ghost function Depth(p: Parents, i: nat): (r: nat)
    requires Acyclic(p) && i < |p|
    ensures r == if p[i].None? then 0 else 1 + Depths(p)[p[i].value]
  {
    assert DepthAt(p, Depths(p), i);
    Depths(p)[i]
  }

  ghost function Deepest(d: seq<nat>): (r: nat)
    ensures forall i :: 0 <= i < |d| ==> d[i] <= r
  {
    if d == [] then 0 else
      var r := Deepest(d[..|d| - 1]);
      if d[|d| - 1] > r then d[|d| - 1] else r
  }

  /** The nodes from the root down to i. */
  ghost function Path(p: Parents, i: nat): (path: seq<nat>)
    requires Acyclic(p) && i < |p|
    ensures |path| == Depth(p, i) + 1 && path[|path| - 1] == i
    ensures forall k :: 0 <= k < |path| ==> path[k] < |p|
    ensures p[path[0]].None?
    ensures forall k :: 0 <= k < |path| - 1 ==> p[path[k + 1]] == Some(path[k])
    decreases Depth(p, i)
  {
    if p[i].None? then [i] else Path(p, p[i].value) + [i]
  }

  /** `a` is i itself or lies above i. */
  ghost predicate Above(p: Parents, a: nat, i: nat)
    requires Acyclic(p) && i < |p|
  {
    a in Path(p, i)
  }

  ghost function Root(p: Parents, i: nat): nat
    requires Acyclic(p) && i < |p|
  {
    Path(p, i)[0]
  }

  /** Every node on a path has the path's beginning as its own path. */
  lemma {:induction false} PathPrefix(p: Parents, i: nat, k: nat)
    requires Acyclic(p) && i < |p| && k <= Depth(p, i)
    ensures Path(p, Path(p, i)[k]) == Path(p, i)[..k + 1]
    ensures Depth(p, Path(p, i)[k]) == k
    decreases Depth(p, i)
  {
    var path := Path(p, i);
    if k == Depth(p, i) {
      assert path[..k + 1] == path;
    } else {
      PathPrefix(p, p[i].value, k);
      assert path[..k + 1] == Path(p, p[i].value)[..k + 1];
    }
  }

  /** A node above i sits on i's path at its own depth. */
  lemma AboveAtDepth(p: Parents, a: nat, i: nat)
    requires Acyclic(p) && i < |p| && Above(p, a, i)
    ensures a < |p| && Depth(p, a) <= Depth(p, i) && Path(p, i)[Depth(p, a)] == a
    ensures Depth(p, a) == Depth(p, i) ==> a == i
    ensures Root(p, a) == Root(p, i)
  {
    var k :| 0 <= k < |Path(p, i)| && Path(p, i)[k] == a;
    PathPrefix(p, i, k);
  }

  lemma AboveParent(p: Parents, a: nat, i: nat)
    requires Acyclic(p) && i < |p|
    ensures Above(p, a, i) <==> a == i || (p[i].Some? && Above(p, a, p[i].value))
  {
  }

  lemma AboveTransitive(p: Parents, a: nat, b: nat, i: nat)
    requires Acyclic(p) && i < |p| && Above(p, b, i) && b < |p| && Above(p, a, b)
    ensures Above(p, a, i)
  {
    AboveAtDepth(p, b, i);
    PathPrefix(p, i, Depth(p, b));
    assert Path(p, b) <= Path(p, i);
  }

  // ---- The next hop ----

  /** The climb loop: from x up to the node whose parent is `me`, or to a root. */
  ghost function Climb(p: Parents, me: nat, x: nat): (hop: nat)
    requires Acyclic(p) && x < |p|
    ensures hop < |p|
    decreases Depth(p, x)
  {
    if p[x].Some? && p[x].value != me then Climb(p, me, p[x].value) else x
  }

  /** The hop a propagator chooses for destination d (None: not a known node). Nodes that are not
      in its own subtree are unknown to it. */
  ghost function Hop(p: Parents, me: nat, d: Option<nat>): nat
    requires Acyclic(p) && (d.Some? ==> d.value < |p|)
  {
    if d.None? || !Above(p, me, d.value) then me
    else if d.value == me then me
    else Climb(p, me, d.value)
  }

  /** Hop soundness: for a destination strictly below `me`, the climb ends at a child of `me`, which
      is the next node of the destination's path. */
  lemma {:induction false} ClimbFindsChild(p: Parents, me: nat, d: nat)
    requires Acyclic(p) && d < |p| && Above(p, me, d) && d != me
    ensures Depth(p, me) < Depth(p, d)
    ensures Climb(p, me, d) == Path(p, d)[Depth(p, me) + 1]
    ensures p[Climb(p, me, d)] == Some(me) && Climb(p, me, d) in Children(p, me)
    ensures Above(p, Climb(p, me, d), d)
    decreases Depth(p, d)
  {
    AboveAtDepth(p, me, d);
    AboveParent(p, me, d);
    var up := p[d].value;
    if up != me {
      ClimbFindsChild(p, me, up);
      assert Path(p, d)[Depth(p, me) + 1] == Path(p, up)[Depth(p, me) + 1];
      AboveParent(p, Climb(p, me, d), d);
    }
    ChildrenExact(p, me, |p|, Climb(p, me, d));
  }

  /** A propagator sends a warning back to itself exactly when the destination is unknown, is the
      propagator itself, or does not lie below it. */
  lemma SelfSendIff(p: Parents, me: nat, d: Option<nat>)
    requires Acyclic(p) && me < |p| && (d.Some? ==> d.value < |p|)
    ensures Hop(p, me, d) == me <==> d.None? || d.value == me || !Above(p, me, d.value)
  {
    if d.Some? && d.value != me && Above(p, me, d.value) {
      ClimbFindsChild(p, me, d.value);
      PathPrefix(p, d.value, Depth(p, me) + 1);
    }
  }

  /** The nodes a warning for d visits in n hops from `at`. */
  ghost function Trace(p: Parents, at: nat, d: Option<nat>, n: nat): seq<nat>
    requires Acyclic(p) && (d.Some? ==> d.value < |p|)
    decreases n
  {
    if n == 0 then [at] else [at] + Trace(p, Hop(p, at, d), d, n - 1)
  }

  /** The hop chosen by the k-th node of d's path is the next node of the path. */
  lemma HopOnPath(p: Parents, d: nat, k: nat)
    requires Acyclic(p) && d < |p| && k < Depth(p, d)
    ensures Hop(p, Path(p, d)[k], Some(d)) == Path(p, d)[k + 1]
  {
    var at := Path(p, d)[k];
    PathPrefix(p, d, k);
    assert Above(p, at, d);
    ClimbFindsChild(p, at, d);
  }

  ghost function Copies(x: nat, n: nat): seq<nat> {
    if n == 0 then [] else [x] + Copies(x, n - 1)
  }

  /** A warning that a node sends to itself is sent to itself forever. */
  lemma {:induction false} SelfSendRepeats(p: Parents, at: nat, d: Option<nat>, n: nat)
    requires Acyclic(p) && (d.Some? ==> d.value < |p|) && Hop(p, at, d) == at
    ensures Trace(p, at, d, n) == [at] + Copies(at, n)
  {
    if n != 0 {
      SelfSendRepeats(p, at, d, n - 1);
    }
  }

  /** From any node of d's path, the hops follow the path, reach d after as many hops as d lies deeper,
      and any further hops stay at d. */
  lemma {:induction false} TraceFollowsPath(p: Parents, d: nat, k: nat, more: nat)
    requires Acyclic(p) && d < |p| && k <= Depth(p, d)
    ensures Trace(p, Path(p, d)[k], Some(d), Depth(p, d) - k + more) == Path(p, d)[k..] + Copies(d, more)
    decreases Depth(p, d) - k
  {
    var path := Path(p, d);
    SliceHead(path, k);
    if k == Depth(p, d) {
      assert path[k + 1..] == [];
      SelfSendRepeats(p, d, Some(d), more);
    } else {
      HopOnPath(p, d, k);
      TraceFollowsPath(p, d, k + 1, more);
      TraceStep(p, path[k], path[k + 1], Some(d), Depth(p, d) - k + more);
      Associative([path[k]], path[k + 1..], Copies(d, more));
    }
  }

  lemma TraceStep(p: Parents, at: nat, next: nat, d: Option<nat>, n: nat)
    requires Acyclic(p) && (d.Some? ==> d.value < |p|) && n > 0 && Hop(p, at, d) == next
    ensures Trace(p, at, d, n) == [at] + Trace(p, next, d, n - 1)
  {
  }

  /** Routing correctness: injected at its root, a warning visits exactly the destination's ancestors
      from the top down and reaches it in exactly depth(d) hops. If the destination is a propagator, it
      keeps sending the warning to itself: such traffic never comes to rest. */
  lemma RoutingCorrect(p: Parents, d: nat, more: nat)
    requires Acyclic(p) && d < |p|
    ensures Trace(p, Root(p, d), Some(d), Depth(p, d)) == Path(p, d)
    ensures Trace(p, Root(p, d), Some(d), Depth(p, d) + more) == Path(p, d) + Copies(d, more)
  {
    TraceFromRoot(p, d, 0);
    TraceFromRoot(p, d, more);
    assert Path(p, d) + [] == Path(p, d);
  }

  lemma TraceFromRoot(p: Parents, d: nat, more: nat)
    requires Acyclic(p) && d < |p|
    ensures Trace(p, Root(p, d), Some(d), Depth(p, d) + more) == Path(p, d) + Copies(d, more)
  {
    TraceFollowsPath(p, d, 0, more);
    assert Path(p, d)[0..] == Path(p, d);
  }

  /** With unique ids the index and a linear search agree. */
  lemma {:induction false} LastIndexUnique(rows: seq<Row>, n: nat, i: nat)
    requires UniqueIds(rows) && i < n <= |rows|
    ensures LastIndex(rows, n, rows[i].id) == Some(i)
  {
    if i != n - 1 {
      LastIndexUnique(rows, n - 1, i);
    }
  }

  // ---- Depths exist exactly when there is no cycle ----

  /** The node k parent steps above i, if there is one. */
  ghost function Up(p: Parents, i: nat, k: nat): (r: Option<nat>)
    requires InRange(p) && i < |p|
    ensures r.Some? ==> r.value < |p|
  {
    if k == 0 then Some(i) else
      var j := Up(p, i, k - 1);
      if j.None? then None else p[j.value]
  }

  ghost predicate NoCycle(p: Parents)
    requires InRange(p)
  {
    forall i, k :: 0 <= i < |p| && k > 0 ==> Up(p, i, k) != Some(i)
  }

  lemma {:induction false} UpSplit(p: Parents, i: nat, j: nat, k: nat)
    requires InRange(p) && i < |p| && Up(p, i, j).Some?
    ensures Up(p, i, j + k) == Up(p, Up(p, i, j).value, k)
    decreases k
  {
    if k != 0 {
      UpSplit(p, i, j, k - 1);
      assert j + k - 1 == j + (k - 1);
    }
  }

  lemma {:induction false} UpLosesDepth(p: Parents, i: nat, k: nat)
    requires Acyclic(p) && i < |p| && Up(p, i, k).Some?
    ensures Depth(p, i) == Depth(p, Up(p, i, k).value) + k
    decreases k
  {
    if k != 0 {
      UpLosesDepth(p, i, k - 1);
    }
  }

  /** Steps to the root, looking at most `fuel` steps up. */
  ghost function StepsUp(p: Parents, i: nat, fuel: nat): nat
    requires InRange(p) && i < |p|
    decreases fuel
  {
    if fuel == 0 || p[i].None? then 0 else 1 + StepsUp(p, p[i].value, fuel - 1)
  }

  lemma {:induction false} EnoughFuel(p: Parents, i: nat, fuel: nat)
    requires InRange(p) && i < |p| && Up(p, i, fuel + 1).None?
    ensures StepsUp(p, i, fuel + 1) == StepsUp(p, i, fuel)
    decreases fuel
  {
    if p[i].Some? {
      UpSplit(p, i, 1, fuel);
      assert Up(p, i, 1) == (var j := Up(p, i, 0); p[j.value]);
      if fuel > 0 {
        EnoughFuel(p, p[i].value, fuel - 1);
      }
    }
  }

  lemma {:induction false} UpStaysNone(p: Parents, i: nat, j: nat, k: nat)
    requires InRange(p) && i < |p| && j <= k && Up(p, i, j).None?
    ensures Up(p, i, k).None?
    decreases k
  {
    if j < k {
      UpStaysNone(p, i, j, k - 1);
    }
  }

  lemma {:induction false} Pigeonhole(s: seq<nat>, n: nat) returns (a: nat, b: nat)
    requires |s| > n && forall i :: 0 <= i < |s| ==> s[i] < n
    ensures a < b < |s| && s[a] == s[b]
    decreases n
  {
    var last := s[|s| - 1];
    if j :| 0 <= j < |s| - 1 && s[j] == last {
      a, b := j, |s| - 1;
    } else {
      // renumber n - 1 to the value that no other element has
      var t := seq(|s| - 1, i requires 0 <= i < |s| - 1 => if s[i] == n - 1 then last else s[i]);
      a, b := Pigeonhole(t, n - 1);
    }
  }

  /** Without a cycle, climbing |p| steps passes every root. */
  lemma ClimbEnds(p: Parents, i: nat)
    requires InRange(p) && NoCycle(p) && i < |p|
    ensures Up(p, i, |p|).None?
  {
    if Up(p, i, |p|).Some? {
      forall k: nat | k <= |p| ensures Up(p, i, k).Some? {
        if Up(p, i, k).None? {
          UpStaysNone(p, i, k, |p|);
        }
      }
      var visited := seq(|p| + 1, k requires 0 <= k <= |p| => Up(p, i, k).value);
      var a, b := Pigeonhole(visited, |p|);
      UpSplit(p, i, a, b - a);
    }
  }

  /** The parent relation has depths exactly when it has no cycle. */
  lemma AcyclicIffNoCycle(p: Parents)
    requires InRange(p)
    ensures Acyclic(p) <==> NoCycle(p)
  {
    if Acyclic(p) {
      forall i, k | 0 <= i < |p| && k > 0 ensures Up(p, i, k) != Some(i) {
        if Up(p, i, k).Some? {
          UpLosesDepth(p, i, k);
        }
      }
    }
    if NoCycle(p) {
      var d := seq(|p|, i requires 0 <= i < |p| => StepsUp(p, i, |p|));
      forall i | 0 <= i < |p| ensures DepthAt(p, d, i) {
        if p[i].Some? {
          var up := p[i].value;
          ClimbEnds(p, up);
          EnoughFuel(p, up, |p| - 1);
        }
      }
      assert IsDepth(p, d);
    }
  }
}
