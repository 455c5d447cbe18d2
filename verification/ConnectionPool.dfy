/** The connection pool and the sender as code: sockets live in the hash map, which closes them through
    its value callback. Each method is proved to be the step of Connections it models. */
module ConnectionPool {
  import opened Basics
  import opened WireFormat
  import opened HashTable
  import HashTableRuns
  import HashMap
  import Transport
  import C = Connections

  /** hash_conn_key: h = h * 33 + c on 64 bits over the (signed) characters of the address, then the port. */
  function HashEndpoint(e: C.Endpoint): nat {
    (HashAddress(5381, e.address) * 33 + e.port) % 0x1_0000_0000_0000_0000
  }

  function HashAddress(h: uint64, s: seq<byte>): uint64
    decreases |s|
  {
    if s == [] then h else HashAddress((h * 33 + SignedChar(s[0])) % 0x1_0000_0000_0000_0000, s[1..])
  }

  function SignedChar(b: byte): int {
    if b < 128 then b else b as int - 256
  }

  // ---- What the map's log of frees says about sockets ----

  /** The sockets closed by free_socket, in order. */
  function Closes<K>(log: seq<Freed<K, nat>>): seq<nat> {
    if log == [] then [] else (if log[0].FreedValue? then [log[0].value] else []) + Closes(log[1..])
  }

  ghost function Range(s: seq<nat>): set<nat> {
    set k | k in s
  }

  lemma {:induction false} ClosesAppend<K>(a: seq<Freed<K, nat>>, b: seq<Freed<K, nat>>)
    ensures Closes(a + b) == Closes(a) + Closes(b)
  {
    if a == [] {
      assert a + b == b;
    } else {
      assert (a + b)[0] == a[0] && (a + b)[1..] == a[1..] + b;
      ClosesAppend(a[1..], b);
      Associative(if a[0].FreedValue? then [a[0].value] else [], Closes(a[1..]), Closes(b));
    }
  }

  lemma ClosesPair<K>(key: Ptr<K>, k: nat)
    ensures Closes([FreedKey(key), FreedValue(k)]) == [k]
  {
    var log: seq<Freed<K, nat>> := [FreedKey(key), FreedValue(k)];
    assert log[1..] == [FreedValue(k)] && log[1..][1..] == [];
    assert Closes(log[1..]) == [k] + Closes(log[1..][1..]);
  }

  /** Destroying the chains closes the value of every entry. */
  lemma {:induction false} ClosesRelease<K>(es: Chain<K, nat>, k: nat)
    ensures |Closes(Release(es))| == |es|
    ensures k in Closes(Release(es)) <==> exists i :: 0 <= i < |es| && es[i].value == k
  {
    if es != [] {
      var log: seq<Freed<K, nat>> := [FreedKey(es[0].key), FreedValue(es[0].value)];
      ClosesRelease(es[1..], k);
      ClosesAppend(log, Release(es[1..]));
      ClosesPair(es[0].key, es[0].value);
      assert forall i :: 1 <= i < |es| ==> es[i] == es[1..][i - 1];
    }
  }

  /** The values of the entries are those of the represented map. */
  lemma ValuesOfEntries<K(!new)>(es: Chain<K, nat>, m: map<K, nat>, k: nat)
    requires Means(es, m)
    ensures (exists i :: 0 <= i < |es| && es[i].value == k) <==> k in m.Values
  {
    if i :| 0 <= i < |es| && es[i].value == k {
      CountMember(es, es[i]);
    }
    if k in m.Values {
      var name :| name in m && m[name] == k;
      var e := Witness(es, ByName(name));
      CountMember(es, e);
    }
  }

  lemma DestroyCloses<K(!new)>(es: Chain<K, nat>, m: map<K, nat>)
    requires Means(es, m)
    ensures Range(Closes(Release(es))) == m.Values && |Closes(Release(es))| == |m|
  {
    forall k ensures k in Closes(Release(es)) <==> k in m.Values {
      ClosesRelease(es, k);
      ValuesOfEntries(es, m, k);
    }
    ClosesRelease(es, 0);
  }

  // ---- The pool ----

  /** What may fail in get_or_create_connection: the allocation of the temporary key, socket(), connect(),
      the allocations of the stored key and socket, and those of the hash map. */
  datatype Resources = Resources(tempKey: bool, socket: bool, connect: bool, entry: bool, mem: Memory)

  function OutcomeOf(r: Resources, stored: bool): C.Outcome {
    if !r.tempKey then C.NoMemory
    else if !r.socket then C.SocketFails
    else if !r.connect then C.ConnectFails
    else if !r.entry || !stored then C.StoreFails
    else C.Succeeds
  }

  type SocketMap = HashMap.HashMap<C.Endpoint, nat>

  /** hashmap_put of a new socket. */
  method StoreSocket(m: SocketMap, e: C.Endpoint, s: nat, mem: Memory) returns (stored: bool)
    requires m.Valid() && e !in m.model
    modifies m.Repr
    ensures m.Valid() && fresh(m.Repr - old(m.Repr)) && m.freed == old(m.freed)
    ensures m.model == if stored then old(m.model)[e := s] else old(m.model)
    ensures mem == Memory(true, true) ==> stored
  {
    HashTableRuns.PutFailsIff(m.chains, m.hash, m.model, Some(Ptr(s, e)), s, mem);
    var code := m.Put(Some(Ptr(s, e)), s, mem);
    stored := code == 0;
  }

  /** hashmap_remove: closes the socket of the endpoint, if it has one. */
  method RemoveSocket(m: SocketMap, e: C.Endpoint)
    requires m.Valid() && m.freesKeys && m.freesValues
    modifies m.Repr
    ensures m.Valid() && m.Repr == old(m.Repr) && m.model == old(m.model) - {e}
    ensures Closes(m.freed) == Closes(old(m.freed)) + if e in old(m.model) then [old(m.model)[e]] else []
  {
    ghost var was, log := m.model, m.freed;
    var removed := m.Remove(e);
    if removed {
      ghost var key: Ptr<C.Endpoint> :| key.target == e && m.FreesPair(log, m.freed, key, was[e]);
      CallsAll(m, [FreedKey(key), FreedValue(was[e])]);
      ClosesAppend(log, [FreedKey(key), FreedValue(was[e])]);
      ClosesPair(key, was[e]);
    }
  }

  /** With both callbacks installed every free is a call. */
  lemma {:induction false} CallsAll(m: SocketMap, log: seq<Freed<C.Endpoint, nat>>)
    requires m.freesKeys && m.freesValues
    ensures m.Calls(log) == log
  {
    if log != [] {
      CallsAll(m, log[1..]);
    }
  }

  /** hashmap_destroy: closes every stored socket once. */
  method DestroySockets(m: SocketMap) returns (ghost more: seq<nat>)
    requires m.Valid() && m.freesKeys && m.freesValues
    modifies m`freed
    ensures m.Valid()
    ensures Closes(m.freed) == Closes(old(m.freed)) + more && Range(more) == m.model.Values && |more| == |m.model|
  {
    ghost var log := m.freed;
    m.Destroy();
    more := Closes(Release(Flat(m.chains)));
    CallsAll(m, Release(Flat(m.chains)));
    ClosesAppend(log, Release(Flat(m.chains)));
    DestroyCloses(Flat(m.chains), m.model);
  }

  /** What get_or_create_connection does as its resources allow: without a temporary key or, for a new
      endpoint, without a socket, nothing; otherwise one socket is opened, which is stored and returned
      if it connects and everything for the entry is there, and closed again if not. */
  lemma OutcomeLaw(s: C.State, e: C.Endpoint, r: Resources, stored: bool)
    requires s.live.Some?
    ensures var s', got := C.GetOrCreate(s, e, OutcomeOf(r, stored)).0, C.GetOrCreate(s, e, OutcomeOf(r, stored)).1;
            if !r.tempKey then s' == s && got == None
            else if e in s.live.value then s' == s && got == Some(s.live.value[e])
            else if !r.socket then s' == s && got == None
            else if r.connect && r.entry && stored then
              s' == C.State(Some(s.live.value[e := s.created]), s.created + 1, s.closed) && got == Some(s.created)
            else s' == C.State(s.live, s.created + 1, s.closed + {s.created}) && got == None
  {
    C.GetLaw(s, e, OutcomeOf(r, stored));
  }

  /** No socket is closed twice: there were as many calls to closesocket as sockets closed. */
  ghost predicate OnceEach(aborted: set<nat>, closes: seq<nat>) {
    |aborted| + |closes| == |aborted + Range(closes)|
  }

  lemma OnceMore(aborted: set<nat>, closes: seq<nat>, k: nat)
    requires OnceEach(aborted, closes) && k !in aborted + Range(closes)
    ensures OnceEach(aborted + {k}, closes) && OnceEach(aborted, closes + [k])
    ensures aborted + {k} + Range(closes) == aborted + Range(closes + [k]) == aborted + Range(closes) + {k}
  {
    assert aborted + {k} + Range(closes) == aborted + Range(closes) + {k};
    assert aborted + Range(closes + [k]) == aborted + Range(closes) + {k};
  }

  lemma OnceAll(aborted: set<nat>, closes: seq<nat>, more: seq<nat>)
    requires OnceEach(aborted, closes) && |Range(more)| == |more| && aborted + Range(closes) !! Range(more)
    ensures OnceEach(aborted, closes + more)
    ensures aborted + Range(closes + more) == aborted + Range(closes) + Range(more)
  {
    assert aborted + Range(closes + more) == aborted + Range(closes) + Range(more);
  }

  /** What the pool should be after a history of lock sections, with the sockets its failure paths and
      its map have closed. */
  ghost predicate Sound(history: seq<C.Step>, live: Option<map<C.Endpoint, nat>>, created: nat, aborted: set<nat>, closes: seq<nat>) {
    && C.After(C.Init(), history) == C.State(live, created, aborted + Range(closes))
    && OnceEach(aborted, closes)
  }

  lemma {:induction false} AfterAppend(s: C.State, steps: seq<C.Step>, step: C.Step)
    ensures C.After(s, steps + [step]) == C.Next(C.After(s, steps), step)
    decreases |steps|
  {
    if steps == [] {
      assert steps + [step] == [step] && [step][1..] == [];
    } else {
      assert (steps + [step])[1..] == steps[1..] + [step];
      AfterAppend(C.Next(s, steps[0]), steps[1..], step);
    }
  }

  /** Without a successful socket() the pool stays as it is and answers with what is stored. */
  lemma FoundIs(history: seq<C.Step>, live: Option<map<C.Endpoint, nat>>, created: nat, aborted: set<nat>, closes: seq<nat>,
                e: C.Endpoint, o: C.Outcome)
    requires Sound(history, live, created, aborted, closes)
    requires live.None? || e in live.value || o.NoMemory? || o.SocketFails?
    ensures Sound(history + [C.StepGet(e, o)], live, created, aborted, closes)
    ensures C.GetOrCreate(C.After(C.Init(), history), e, o).1 == if live.None? || o.NoMemory? then None else Lookup(live.value, e)
  {
    AfterAppend(C.Init(), history, C.StepGet(e, o));
  }

  /** Opening and storing a connection for a new endpoint is a step of the pool. */
  lemma StoredIs(history: seq<C.Step>, live: map<C.Endpoint, nat>, created: nat, aborted: set<nat>, closes: seq<nat>, e: C.Endpoint)
    requires Sound(history, Some(live), created, aborted, closes) && e !in live
    ensures Sound(history + [C.StepGet(e, C.Succeeds)], Some(live[e := created]), created + 1, aborted, closes)
    ensures C.GetOrCreate(C.After(C.Init(), history), e, C.Succeeds).1 == Some(created)
  {
    AfterAppend(C.Init(), history, C.StepGet(e, C.Succeeds));
  }

  /** So is opening one and closing it again. */
  lemma AbortedIs(history: seq<C.Step>, live: map<C.Endpoint, nat>, created: nat, aborted: set<nat>, closes: seq<nat>, e: C.Endpoint, o: C.Outcome)
    requires Sound(history, Some(live), created, aborted, closes) && e !in live && (o.ConnectFails? || o.StoreFails?)
    ensures Sound(history + [C.StepGet(e, o)], Some(live), created + 1, aborted + {created}, closes)
    ensures C.GetOrCreate(C.After(C.Init(), history), e, o).1 == None
  {
    AfterAppend(C.Init(), history, C.StepGet(e, o));
    assert created !in aborted + Range(closes) by { C.PoolInvariant(C.Init(), history); }
    OnceMore(aborted, closes, created);
  }

  /** Removing an endpoint through the map is a step of the pool. */
  lemma RemovedIs(history: seq<C.Step>, live: map<C.Endpoint, nat>, created: nat, aborted: set<nat>, closes: seq<nat>, e: C.Endpoint)
    requires Sound(history, Some(live), created, aborted, closes)
    ensures Sound(history + [C.StepClose(e)], Some(live - {e}), created, aborted, closes + if e in live then [live[e]] else [])
  {
    AfterAppend(C.Init(), history, C.StepClose(e));
    if e in live {
      assert live[e] !in aborted + Range(closes) by { C.PoolInvariant(C.Init(), history); }
      OnceMore(aborted, closes, live[e]);
    } else {
      assert live - {e} == live && closes + [] == closes;
    }
  }

  /** So is destroying the map. */
  lemma DestroyedIs(history: seq<C.Step>, live: map<C.Endpoint, nat>, created: nat, aborted: set<nat>, closes: seq<nat>, more: seq<nat>)
    requires Sound(history, Some(live), created, aborted, closes) && Range(more) == live.Values && |more| == |live|
    ensures Sound(history + [C.StepCleanup], None, created, aborted, closes + more)
  {
    AfterAppend(C.Init(), history, C.StepCleanup);
    C.PoolInvariant(C.Init(), history);
    C.InjectiveValues(live);
    OnceAll(aborted, closes, more);
  }

  class ConnectionPool {
    /** connections_map; NULL after cleanup. */
    var connections: HashMap.HashMap?<C.Endpoint, nat>
    /** The map that connections_init made. */
    ghost const table: SocketMap
    /** Successful socket() calls; the sockets are numbered in that order. */
    var created: nat
    /** The sockets closed on the failure paths, which were never stored. */
    var aborted: set<nat>
    /** The lock sections so far. */
    ghost var history: seq<C.Step>

    ghost predicate Wired()
      reads `connections, table, table.buckets, table.nodes
    {
      && this !in table.Repr && table.Valid() && table.freesKeys && table.freesValues
      && (connections == null || connections == table)
    }

    /** The stored sockets, and those that the failure paths and the map's callback have closed, are as
        the history of the pool says, and none was closed twice. */
    ghost predicate Valid()
      reads this, table, table.buckets, table.nodes
    {
      Wired() && Sound(history, Live(), created, aborted, Closes(table.freed))
    }

    ghost function Live(): Option<map<C.Endpoint, nat>>
      reads `connections, table
    {
      if connections == null then None else Some(table.model)
    }

    ghost function View(): C.State
      reads `history
    {
      C.After(C.Init(), history)
    }

    /** connections_init. */
    constructor ()
      ensures Valid() && fresh(table.Repr) && history == []
    {
      var m := new HashMap.HashMap<C.Endpoint, nat>(16, HashEndpoint, true, true);
      table, connections, created, aborted, history := m, m, 0, {}, [];
    }

    /** Adds a lock section to the history. */
    ghost method Record(step: C.Step)
      requires Wired() && Sound(history + [step], Live(), created, aborted, Closes(table.freed))
      modifies `history
      ensures Valid() && history == old(history) + [step]
    {
      history := history + [step];
    }

    /** get_or_create_connection. */
    method GetOrCreateConnection(e: C.Endpoint, r: Resources) returns (socket: Option<nat>, ghost o: C.Outcome)
      requires Valid()
      modifies this, table.Repr
      ensures Valid() && fresh(table.Repr - old(table.Repr))
      ensures history == old(history) + [C.StepGet(e, o)] && socket == C.GetOrCreate(old(View()), e, o).1
      ensures o == OutcomeOf(r, o.Succeeds?) && (r.mem == Memory(true, true) ==> o == OutcomeOf(r, true))
    {
      o := OutcomeOf(r, true);
      socket := Reuse(e, r.tempKey);
      if connections != null && r.tempKey && socket.None? && r.socket {
        socket, o := OpenConnection(e, r);
      } else {
        FoundIs(history, Live(), created, aborted, Closes(table.freed), e, o);
        Record(C.StepGet(e, o));
      }
    }

    /** The lookup with a temporary key. */
    method Reuse(e: C.Endpoint, tempKey: bool) returns (socket: Option<nat>)
      requires Wired()
      ensures socket == if connections == null || !tempKey then None else Lookup(table.model, e)
    {
      socket := None;
      if connections != null && tempKey {
        socket := connections.Get(e);
      }
    }

    /** The part of get_or_create_connection from a successful socket() on. */
    method OpenConnection(e: C.Endpoint, r: Resources) returns (socket: Option<nat>, ghost o: C.Outcome)
      requires Valid() && connections != null && e !in table.model && r.tempKey && r.socket
      modifies `created, `aborted, `history, table.Repr
      ensures Valid() && fresh(table.Repr - old(table.Repr))
      ensures history == old(history) + [C.StepGet(e, o)] && socket == C.GetOrCreate(old(View()), e, o).1
      ensures o == OutcomeOf(r, o.Succeeds?) && (r.mem == Memory(true, true) ==> o == OutcomeOf(r, true))
    {
      ghost var live, s, closed := table.model, created, aborted;
      var stored := Connect(e, r);
      RecordOpened(e, r, stored, live, s, closed);
      o := OutcomeOf(r, stored);
      socket := if stored then Some(created - 1) else None;
    }

    /** Adds the lock section that opened a socket to the history. */
    ghost method RecordOpened(e: C.Endpoint, r: Resources, stored: bool, live: map<C.Endpoint, nat>, s: nat, closed: set<nat>)
      requires Wired() && connections != null && e !in live && r.tempKey && r.socket
      requires Sound(history, Some(live), s, closed, Closes(table.freed))
      requires created == s + 1 && (stored ==> r.connect && r.entry)
      requires table.model == (if stored then live[e := s] else live) && aborted == if stored then closed else closed + {s}
      modifies `history
      ensures Valid() && history == old(history) + [C.StepGet(e, OutcomeOf(r, stored))]
      ensures C.GetOrCreate(old(View()), e, OutcomeOf(r, stored)).1 == if stored then Some(s) else None
    {
      if stored {
        StoredIs(history, live, s, closed, Closes(table.freed), e);
      } else {
        AbortedIs(history, live, s, closed, Closes(table.freed), e, OutcomeOf(r, stored));
      }
      Record(C.StepGet(e, OutcomeOf(r, stored)));
    }

    /** Connects the new socket and stores it, or closes it again. */
    method Connect(e: C.Endpoint, r: Resources) returns (stored: bool)
      requires Wired() && connections != null && e !in table.model
      modifies `created, `aborted, table.Repr
      ensures Wired() && fresh(table.Repr - old(table.Repr)) && table.freed == old(table.freed)
      ensures table.model == if stored then old(table.model)[e := old(created)] else old(table.model)
      ensures aborted == if stored then old(aborted) else old(aborted) + {old(created)}
      ensures created == old(created) + 1
      ensures stored ==> r.connect && r.entry
      ensures r.connect && r.entry && r.mem == Memory(true, true) ==> stored
    {
      var s := created;
      created := created + 1;
      stored := false;
      if r.connect && r.entry {
        stored := StoreSocket(connections, e, s, r.mem);
      }
      if !stored {
        aborted := aborted + {s};
      }
    }

    /** close_connection: removes the endpoint's entry, and the map's callback closes its socket. */
    method CloseConnection(e: C.Endpoint)
      requires Valid()
      modifies `history, table.Repr
      ensures Valid() && table.Repr == old(table.Repr) && history == old(history) + [C.StepClose(e)]
      ensures Closes(table.freed) ==
                old(Closes(table.freed)) + if connections != null && e in old(table.model) then [old(table.model)[e]] else []
      ensures connections != null ==> e !in table.model
    {
      ghost var before := history;
      history := history + [C.StepClose(e)];
      if connections != null {
        RemovedIs(before, table.model, created, aborted, Closes(table.freed), e);
        RemoveSocket(connections, e);
      } else {
        AfterAppend(C.Init(), before, C.StepClose(e));
        assert Closes(table.freed) + [] == Closes(table.freed);
      }
    }

    /** connections_cleanup: destroying the map closes every stored socket; then all are closed. */
    method CleanUp()
      requires Valid()
      modifies `connections, `history, table
      ensures Valid() && history == old(history) + [C.StepCleanup]
      ensures connections == null && |aborted| + |Closes(table.freed)| == created
    {
      if connections != null {
        DestroyMap();
      } else {
        AfterAppend(C.Init(), history, C.StepCleanup);
        Record(C.StepCleanup);
      }
      C.PoolInvariant(C.Init(), history);
    }

    method DestroyMap()
      requires Valid() && connections != null
      modifies `connections, `history, table
      ensures Valid() && history == old(history) + [C.StepCleanup] && connections == null
    {
      ghost var closes := Closes(table.freed);
      ghost var more := DestroySockets(connections);
      DestroyedIs(history, table.model, created, aborted, closes, more);
      connections, history := null, history + [C.StepCleanup];
    }
  }

  // ---- The sender ----

  /** A thread's send, from what getting the connection gave. */
  lemma SendIs(c: C.Client, t: nat, e: C.Endpoint, w: Warning, a: C.Attempt, c': C.Client, socket: Option<nat>)
    requires t !in c.due && Sendable(w) && a.accepted <= FrameSize(w)
    requires c' == c.(pool := C.GetOrCreate(c.pool, e, a.connect).0) && socket == C.GetOrCreate(c.pool, e, a.connect).1
    ensures C.ClientNext(c, C.ClientSend(t, e, w, a)) ==
              if socket.None? || !a.buffer then c' else C.Transmit(c', t, e, socket.value, w, a.accepted)
  {
  }

  /** The buffer handed to send. */
  method Frame(w: Warning) returns (bytes: seq<byte>)
    requires Sendable(w)
    ensures bytes == Encode(w)
  {
    var buf := Transport.BuildFrame(w);
    bytes := buf[..];
  }

  class Client {
    const pool: ConnectionPool
    /** The bytes that each socket's sends have accepted. */
    var wire: map<nat, seq<byte>>
    /** The warnings reported as sent on each socket, what a short send has left on it, and the threads
        that have a close before them. */
    ghost var sent: map<nat, seq<Warning>>
    ghost var tail: map<nat, seq<byte>>
    ghost var due: map<nat, C.Endpoint>

    ghost predicate Valid()
      reads this, pool, pool.table, pool.table.buckets, pool.table.nodes
    {
      this !in pool.table.Repr && pool.Valid()
    }

    ghost function View(): C.Client
      reads this, pool`history
    {
      C.Client(pool.View(), wire, sent, tail, due)
    }

    constructor ()
      ensures Valid() && View() == C.InitClient() && fresh(pool) && fresh(pool.table.Repr)
    {
      pool := new ConnectionPool();
      wire, sent, tail, due := map[], map[], map[], map[];
    }

    /** send_warning_to, called by thread t: of the frame, `accepted` bytes reach the connection. After a
        short send the thread closes the connection; the two are separate steps of the process. */
    method SendWarningTo(t: nat, e: C.Endpoint, w: Warning, r: Resources, buffer: bool, accepted: nat)
      returns (ok: bool, ghost o: C.Outcome)
      requires Valid() && t !in due && Sendable(w) && accepted <= FrameSize(w)
      modifies this, pool, pool.table.Repr
      ensures Valid() && fresh(pool.table.Repr - old(pool.table.Repr))
      ensures var step := C.ClientSend(t, e, w, C.Attempt(o, buffer, accepted)); var c := C.ClientNext(old(View()), step);
              && ok == C.Reported(old(View()), step)
              && View() == (if t in c.due then C.ClientNext(c, C.ClientDisconnect(t)) else c)
              && (t in c.due && pool.connections != null ==> e !in pool.table.model)
      ensures o == OutcomeOf(r, o.Succeeds?)
    {
      var short;
      ok, short, o := SendFrame(t, e, w, r, buffer, accepted);
      if short {
        CloseAfter(t, e);
      }
    }

    /** The lookup of the connection and the send call. */
    method SendFrame(t: nat, e: C.Endpoint, w: Warning, r: Resources, buffer: bool, accepted: nat)
      returns (ok: bool, short: bool, ghost o: C.Outcome)
      requires Valid() && t !in due && Sendable(w) && accepted <= FrameSize(w)
      modifies this, pool, pool.table.Repr
      ensures Valid() && fresh(pool.table.Repr - old(pool.table.Repr))
      ensures var step := C.ClientSend(t, e, w, C.Attempt(o, buffer, accepted));
              View() == C.ClientNext(old(View()), step) && ok == C.Reported(old(View()), step)
      ensures short == (t in due) && (short ==> due[t] == e)
      ensures o == OutcomeOf(r, o.Succeeds?)
    {
      ghost var was, h := View(), pool.history;
      var socket;
      socket, o := pool.GetOrCreateConnection(e, r);
      AfterAppend(C.Init(), h, C.StepGet(e, o));
      SendIs(was, t, e, w, C.Attempt(o, buffer, accepted), View(), socket);
      ok, short := false, false;
      if socket.Some? && buffer {
        ok := Transmit(t, e, socket.value, w, accepted);
        short := !ok;
      }
    }

    /** The frame and the send call on socket k. */
    method Transmit(t: nat, e: C.Endpoint, k: nat, w: Warning, accepted: nat) returns (ok: bool)
      requires Valid() && t !in due && Sendable(w) && accepted <= FrameSize(w)
      modifies this
      ensures Valid() && pool.history == old(pool.history)
      ensures View() == C.Transmit(old(View()), t, e, k, w, accepted) && ok == (accepted == FrameSize(w))
    {
      var bytes := Frame(w);
      wire := wire[k := C.On(wire, k) + bytes[..accepted]];
      ok := accepted == |bytes|;
      if ok {
        sent, tail := sent[k := C.On(sent, k) + [w]], tail[k := []];
      } else {
        due, tail := due[t := e], if accepted == 0 then tail else tail[k := bytes[..accepted]];
      }
    }

    /** close_connection after a short send. */
    method CloseAfter(t: nat, e: C.Endpoint)
      requires Valid() && t in due && due[t] == e
      modifies `due, pool, pool.table.Repr
      ensures Valid() && pool.table.Repr == old(pool.table.Repr)
      ensures View() == C.ClientNext(old(View()), C.ClientDisconnect(t))
      ensures pool.connections == old(pool.connections) && (pool.connections != null ==> e !in pool.table.model)
      ensures Closes(pool.table.freed) == old(Closes(pool.table.freed)) +
                if pool.connections != null && e in old(pool.table.model) then [old(pool.table.model)[e]] else []
    {
      AfterAppend(C.Init(), pool.history, C.StepClose(e));
      due := due - {t};
      pool.CloseConnection(e);
    }
  }
}
