/** node_load_all after parsing: index, link parents and count children, allocate and reset, fill,
    classify. The passes work in place on arrays; a node pointer is the node's position. */
module NodeTable {
  import opened Basics
  import opened Topology
  import opened HashTable
  import HashMap

  /** The string hash: h = h * 33 + c on 64 bits, starting at 5381. */
  function HashFrom(h: uint64, s: seq<byte>): uint64
    decreases |s|
  {
    if s == [] then h else HashFrom((h * 33 + s[0]) % 0x1_0000_0000_0000_0000, s[1..])
  }

  function HashString(s: seq<byte>): nat {
    HashFrom(5381, s)
  }

  class NodeTable {
    const rows: seq<Row>
    const parent: array<Option<nat>>
    const childCount: array<nat>
    /** Allocated child slots; None is a slot not written yet. */
    const children: array<seq<Option<nat>>>
    const kind: array<NodeType>

    /** The rows as the parse loop leaves them. */
    constructor (rows: seq<Row>)
      ensures Sized() && this.rows == rows && fresh(parent) && fresh(childCount) && fresh(children) && fresh(kind)
      ensures forall i :: 0 <= i < |rows| ==> parent[i] == None && childCount[i] == 0 && children[i] == []
    {
      this.rows := rows;
      parent := new Option<nat>[|rows|](_ => None);
      childCount := new nat[|rows|](_ => 0);
      children := new seq<Option<nat>>[|rows|](_ => []);
      kind := new NodeType[|rows|](_ => DestinationNode);
    }

    ghost predicate Sized() {
      parent.Length == childCount.Length == children.Length == kind.Length == |rows|
    }

    /** The finished table: parents as the rows say, children their exact inverse in file order,
        every allocated slot written, and types by adjacency. */
    ghost predicate Loaded()
      reads parent, childCount, children, kind
    {
      && Sized()
      && parent[..] == ParentsOf(rows)
      && forall i :: 0 <= i < |rows| ==>
           && childCount[i] == |Children(ParentsOf(rows), i)|
           && children[i] == Slots(Children(ParentsOf(rows), i))
           && kind[i] == TypeOf(ParentsOf(rows), i)
    }

    /** Link pass: parent pointers as the index finds them, and one count per child. */
    method Link(m: HashMap.HashMap<seq<byte>, nat>)
      requires Sized() && m.Valid() && parent !in m.Repr && childCount !in m.Repr
      requires forall id :: Lookup(m.model, id) == LastIndex(rows, |rows|, id)
      requires forall i :: 0 <= i < |rows| ==> childCount[i] == 0 && parent[i] == None
      modifies parent, childCount
      ensures parent[..] == ParentsOf(rows)
      ensures forall k :: 0 <= k < |rows| ==> childCount[k] == |Children(ParentsOf(rows), k)|
    {
      for i := 0 to |rows|
        invariant m.Valid() && LinkedTo(i)
      {
        LinkRow(m, i);
      }
    }

    /** The first n rows have been linked and counted. */
    ghost predicate LinkedTo(n: nat)
      requires Sized() && n <= |rows|
      reads parent, childCount
    {
      && (forall j :: 0 <= j < |rows| ==> parent[j] == if j < n then ParentsOf(rows)[j] else None)
      && (forall k :: 0 <= k < |rows| ==> childCount[k] == |ChildrenBelow(ParentsOf(rows), k, n)|)
    }

    /** The body of the link pass for row i. */
    method LinkRow(m: HashMap.HashMap<seq<byte>, nat>, i: nat)
      requires Sized() && m.Valid() && parent !in m.Repr && childCount !in m.Repr
      requires forall id :: Lookup(m.model, id) == LastIndex(rows, |rows|, id)
      requires i < |rows| && LinkedTo(i)
      modifies parent, childCount
      ensures m.Valid() && LinkedTo(i + 1)
    {
      if rows[i].parentId.Some? {
        var par := m.Get(rows[i].parentId.value);
        SetParent(i, par);
      } else {
        SkipRow(i);
      }
    }

    lemma SkipRow(i: nat)
      requires Sized() && i < |rows| && ParentsOf(rows)[i] == None && LinkedTo(i)
      ensures LinkedTo(i + 1)
    {
    }

    /** Sets the parent of row i and counts it there. */
    method SetParent(i: nat, par: Option<nat>)
      requires Sized() && i < |rows| && par == ParentsOf(rows)[i] && LinkedTo(i)
      modifies parent, childCount
      ensures LinkedTo(i + 1)
    {
      parent[i] := par;
      if par.Some? {
        childCount[par.value] := childCount[par.value] + 1;
      }
    }

    /** Allocation pass: one slot per counted child, and the counter back to zero. */
    method Allocate()
      requires Sized() && parent[..] == ParentsOf(rows)
      requires forall i :: 0 <= i < |rows| ==> childCount[i] == |Children(parent[..], i)| && children[i] == []
      modifies childCount, children
      ensures forall i :: 0 <= i < |rows| ==> childCount[i] == 0 && |children[i]| == |Children(parent[..], i)|
    {
      for i := 0 to |rows|
        invariant forall j :: 0 <= j < i ==> childCount[j] == 0 && |children[j]| == |Children(parent[..], j)|
        invariant forall j :: i <= j < |rows| ==> childCount[j] == |Children(parent[..], j)| && children[j] == []
      {
        if childCount[i] > 0 {
          children[i] := seq(childCount[i], _ => None);
          childCount[i] := 0;
        }
      }
    }

    /** Fill pass: every write is inside the allocated slots, and every slot gets written. */
    method Fill()
      requires Sized() && parent[..] == ParentsOf(rows)
      requires forall i :: 0 <= i < |rows| ==> childCount[i] == 0 && |children[i]| == |Children(parent[..], i)|
      modifies childCount, children
      ensures forall i :: 0 <= i < |rows| ==>
                childCount[i] == |Children(parent[..], i)| && children[i] == Slots(Children(parent[..], i))
    {
      for i := 0 to |rows|
        invariant FilledTo(i)
      {
        FillRow(i);
      }
      forall k | 0 <= k < |rows| ensures children[k] == Slots(Children(parent[..], k)) {
        AllFilled(children[k], childCount[k], parent[..], k);
      }
    }

    ghost predicate FilledTo(n: nat)
      requires Sized() && n <= |rows|
      reads parent, childCount, children
    {
      forall k :: 0 <= k < |rows| ==> Filled(children[k], childCount[k], parent[..], k, n)
    }

    /** Writes row i into the next free slot of its parent, if it has one. */
    method FillRow(i: nat)
      requires Sized() && i < |rows| && FilledTo(i) && InRange(parent[..])
      modifies childCount, children
      ensures FilledTo(i + 1)
    {
      ghost var p := parent[..];
      assert p[i] == parent[i];
      if parent[i].Some? {
        var par := parent[i].value;
        ChildrenPrefix(p, par, i + 1, |p|);
        assert Filled(children[par], childCount[par], p, par, i);
        children[par] := children[par][childCount[par] := Some(i)];
        childCount[par] := childCount[par] + 1;
      }
    }

    /** The finished table as a value. */
    method Read() returns (g: Graph)
      requires Loaded()
      ensures g.rows == rows && g.Built()
    {
      ghost var p := ParentsOf(rows);
      var kids: seq<seq<nat>> := [];
      for i := 0 to |rows|
        invariant |kids| == i && forall j :: 0 <= j < i ==> kids[j] == Children(p, j)
      {
        var cs := ReadSlots(children[i], Children(p, i));
        kids := kids + [cs];
      }
      g := Graph(rows, parent[..], kids, kind[..]);
    }

    /** Type pass. */
    method Classify()
      requires Sized() && parent[..] == ParentsOf(rows)
      requires forall i :: 0 <= i < |rows| ==> childCount[i] == |Children(parent[..], i)|
      modifies kind
      ensures forall i :: 0 <= i < |rows| ==> kind[i] == TypeOf(parent[..], i)
    {
      ghost var p := parent[..];
      for i := 0 to |rows|
        invariant forall j :: 0 <= j < i ==> kind[j] == TypeOf(p, j)
      {
        assert p[i] == parent[i];
        if parent[i].None? {
          kind[i] := RootNode;
        } else if childCount[i] != 0 {
          kind[i] := CentralNode;
        } else {
          kind[i] := DestinationNode;
        }
      }
    }
  }

  /** Reads the children through their slots, all of which have been written. */
  method ReadSlots(slots: seq<Option<nat>>, ghost cs: seq<nat>) returns (r: seq<nat>)
    requires slots == Slots(cs)
    ensures r == cs
  {
    r := [];
    for k := 0 to |slots|
      invariant r == cs[..k]
    {
      r := r + [slots[k].value];
    }
  }

  /** The finished table, which no later code changes. */
  datatype Graph = Graph(rows: seq<Row>, parent: Parents, children: seq<seq<nat>>, kind: seq<NodeType>) {
    /** Parents as the rows say, children their exact inverse in file order, types by adjacency. */
    ghost predicate Built() {
      && parent == ParentsOf(rows)
      && |children| == |kind| == |rows|
      && forall i :: 0 <= i < |rows| ==> children[i] == Children(parent, i) && kind[i] == TypeOf(parent, i)
    }
  }

  /** A finished table, by its rows alone and in whatever order the file lists them: with unique ids a
      node's parent is the row it names, its children are the rows that name it, and its type follows
      from both. */
  lemma BuiltByRows(g: Graph, i: nat)
    requires g.Built() && forall j, k :: 0 <= j < k < |g.rows| ==> g.rows[j].id != g.rows[k].id
    requires i < |g.rows|
    ensures |g.parent| == |g.children| == |g.kind| == |g.rows|
    ensures forall j :: 0 <= j < |g.rows| ==> (g.parent[i] == Some(j) <==> Names(g.rows, i, j))
    ensures g.parent[i] == None <==> forall j :: 0 <= j < |g.rows| ==> !Names(g.rows, i, j)
    ensures forall j :: 0 <= j < |g.rows| ==> (j in g.children[i] <==> Names(g.rows, j, i))
    ensures g.kind[i] == RootNode <==> forall j :: 0 <= j < |g.rows| ==> !Names(g.rows, i, j)
    ensures g.kind[i] == DestinationNode <==>
              (exists j :: 0 <= j < |g.rows| && Names(g.rows, i, j)) && forall k :: 0 <= k < |g.rows| ==> !Names(g.rows, k, i)
  {
    forall j | 0 <= j < |g.rows|
      ensures g.parent[i] == Some(j) <==> Names(g.rows, i, j)
      ensures j in g.children[i] <==> Names(g.rows, j, i)
    {
      ParentByRows(g.rows, i, j);
      ParentByRows(g.rows, j, i);
      ChildrenExact(g.parent, i, |g.parent|, j);
    }
    ParentByRows(g.rows, i, i);
    TypeByRows(g.rows, i);
  }

  ghost function Slots(cs: seq<nat>): seq<Option<nat>> {
    seq(|cs|, i requires 0 <= i < |cs| => Some(cs[i]))
  }

  /** After the first n rows, the slots of node k hold its children among them, in order. */
  ghost predicate Filled(slots: seq<Option<nat>>, count: nat, p: Parents, k: nat, n: nat)
    requires n <= |p|
  {
    && |slots| == |Children(p, k)|
    && count == |ChildrenBelow(p, k, n)| <= |slots|
    && forall c :: 0 <= c < count ==> slots[c] == Some(ChildrenBelow(p, k, n)[c])
  }

  lemma AllFilled(slots: seq<Option<nat>>, count: nat, p: Parents, k: nat)
    requires Filled(slots, count, p, k, |p|)
    ensures slots == Slots(Children(p, k))
  {
  }

  /** Index pass: afterwards a lookup finds the last row with an id. */
  method Index(rows: seq<Row>, capacity: nat) returns (m: HashMap.HashMap<seq<byte>, nat>)
    requires capacity > 0
    ensures m.Valid() && fresh(m) && fresh(m.Repr)
    ensures forall id :: Lookup(m.model, id) == LastIndex(rows, |rows|, id)
  {
    m := new HashMap.HashMap<seq<byte>, nat>(capacity, HashString, true, false);
    for i := 0 to |rows|
      invariant m.Valid() && fresh(m) && fresh(m.Repr)
      invariant forall id :: Lookup(m.model, id) == LastIndex(rows, i, id)
    {
      m.Add(Ptr(i, rows[i].id), i);
    }
  }

  /** Tree build: for every list of rows, the loader produces the finished table. */
  method LoadNodes(rows: seq<Row>, capacity: nat) returns (g: Graph)
    requires capacity > 0
    ensures g.rows == rows && g.Built()
  {
    var t := LinkedTable(rows, capacity);
    t.Allocate();
    t.Fill();
    t.Classify();
    g := t.Read();
  }

  /** The index and link passes, and the destruction of the index. */
  method LinkedTable(rows: seq<Row>, capacity: nat) returns (t: NodeTable)
    requires capacity > 0
    ensures fresh(t) && fresh(t.parent) && fresh(t.childCount) && fresh(t.children) && fresh(t.kind)
    ensures t.Sized() && t.rows == rows && t.parent[..] == ParentsOf(rows)
    ensures forall i :: 0 <= i < |rows| ==> t.childCount[i] == |Children(ParentsOf(rows), i)| && t.children[i] == []
  {
    var m := Index(rows, capacity);
    t := new NodeTable(rows);
    t.Link(m);
    m.Destroy();
  }
}
