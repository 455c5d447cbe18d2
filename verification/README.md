# Propagator early-warning system: a verified model

The system moves warnings down a tree of processes. A data source generates warnings for the leaves
and injects each one at the root of its leaf; central propagators read frames from a byte stream,
hand them to a worker pool, and forward them to the next hop; data destinations count what arrives.
This project models that system in Dafny and proves what it promises: every warning generated reaches
its destination, the local hop choices compose into the path of the tree, frames survive any chunking
of the stream, queues lose neither items nor wakeups, shutdown drains the right jobs, and the hash
map, the queue and the connection pool keep what they own.

`dafny verify dfyconfig.toml` checks the whole project.

## Layout

| file | models |
|---|---|
| `Basics.dfy` | optional values, bytes, fixed-width integers |
| `WireFormat.dfy` | the frame of a warning, byte order, streams of frames, relaying |
| `Transport.dfy` | the sender's buffer, `recv_all`, the deserializer and the receive loop as code |
| `HashTable.dfy`, `HashTableRuns.dfy` | the chained hash table as a value; whole runs of it |
| `HashMap.dfy` | the hash map on the heap: bucket array and linked nodes changed in place |
| `Topology.dfy` | rows, parent relation, depth, paths, the next-hop rule and the routing theorem |
| `NodeTable.dfy` | the loader's passes over arrays |
| `Routing.dfy` | linear search, `find_root`, subtree index, next hop and a whole route as code |
| `Queue.dfy`, `TSQueue.dfy` | the linked FIFO; the blocking queue as a step system and as code |
| `Mailbox.dfy` | the unbounded blocking queue as its users see it |
| `ThreadPool.dfy` | workers, submitters and shutdown as a step system over the blocking queue |
| `Destination.dfy` | listener, processor and ordered teardown of a data destination over the blocking queue |
| `Streams.dfy` | connections that carry frames, one after another, to a listener |
| `CutFrames.dfy` | what a receiver makes of a cut frame that another frame follows |
| `Connections.dfy` | the connection pool and the sender that uses it, as values and runs |
| `ConnectionPool.dfy` | the pool and the sender as code, with the sockets in the hash map |
| `SystemModel.dfy`, `Accounting.dfy`, `Delivery.dfy`, `Progress.dfy` | the whole system over blocking queues and shared connections: steps, accounting, delivery, termination |
| `SystemLaws.dfy` | what each step of the whole system needs and does, field by field; delivery warning by warning |
| `Overlap.dfy`, `SharedConnection.dfy` | when a send can fall between a short send and its close, and what happens then |

A class follows one C object; its methods are proved equal to functions on values, and the properties
that speak of whole runs are lemmas about those functions. Concurrent code is a machine whose steps
are the stays inside a critical section. Beside each machine stand laws (`SystemLaws`, and the members named
`...Law` of the other modules) that say, by the fields of the state, when a step is possible and what it
changes.

## Main results

- **Delivery** (`Delivery.EveryWarningDelivered`, `Progress.RunsWithoutShortSendsRest`): every run of
  generator, sender, listeners, workers and processors in which no send is short, in any interleaving
  and with any number of workers, has a bounded number of steps besides spurious wakes; when no other
  step is left and no send failed, all 10000 warnings have been generated and each destination has
  counted exactly those generated for it, content by content, and each as often as it was generated
  (`SystemLaws.EveryWarningDeliveredEach`); the generator can generate every warning for every leaf until then
  (`SystemLaws.CanGenerate`, `GenerateLaw`). Channels carry bytes, not messages, and the threads sleep on
  blocking queues: that none sleeps beside a queued warning is part of the proof.
- **Failed sends** (`Delivery.MissingIsLost`, `Progress.CleanRunsComeToRest`, `SharedConnection.ConservesIffSolo`,
  `SharedConnection.RestsIffSolo`): the workers of a propagator share its connections, and a worker whose
  send was short closes the connection only later. In every clean run, one in which no send falls
  between a short send on its connection and the close, what is missing at a destination is exactly
  what the failed sends dropped, one warning each, and the run comes to rest. This is false of other
  runs: `LostArrivesAndSentIsLost` delivers a warning given up as lost and loses one reported as sent, and
  `NeverRests` has runs of any length, because a destination id cut short is sent to the same node for
  ever. Conservation, and the bound on runs, hold in all runs of all configurations if and only if a
  propagator has one worker; the repository has four (`RepositoryPoolBreaks`).
- **Routing** (`Topology.RoutingCorrect`, `Routing.Route`): from the root of a destination, the choices
  each node makes from its own subtree index visit exactly the destination's path, in depth(d) hops.
- **Blocking queue** (`TSQueue`): FIFO and no lost wakeup in every run. For producers the second is
  false when `tsqueue_try_dequeue` removes a NULL item; there is a run that shows it
  (`NullTryDequeueLosesWakeup`) and the exact condition for every step and every run
  (`ProducersServedIff`, `NoLostProducerWakeupIff`). The critical sections, with their condition
  variables, are code proved to make these steps.
- **Pool shutdown** (`ThreadPool.ShutdownDrains`, `ShutdownTerminates`, `DestroyedIffNotLate`,
  `ShutdownMayLeakIff`): after the joins exactly the jobs ahead of the last sentinel have been
  completed, once each. The queue is created with plain `free` as destructor, so a job behind the last
  sentinel is released without its warning: the warnings never destroyed are exactly the submits on
  their way when the last sentinel was enqueued, and a shutdown can leak a warning if and only if it
  begins with a submit of it on its way. `LateSubmitLeaks` is such a run. In every run a submit is
  accepted if and only if no shutdown has begun (`SubmitLaw`).
- **Streams** (`WireFormat.StreamRoundTrip`, `Transport.ReceiveStream`, `Connections.FramedIffNoOverlap`,
  `Connections.SentIsReceived`): for any chunking and any cut-off last frame the receiver gets exactly the
  complete warnings. With any number of threads, short writes and reconnections, every connection
  carries exactly the frames reported as sent and at most a part of one more, if and only if no send
  falls between a short send and its close; then each connection's receiver gets exactly the warnings
  whose send reported success. The close that follows a short send ends the overlap
  (`Connections.DisconnectEndsOverlap`), so a single sending thread never leaves the frame
  (`OneThreadStaysInFrame`).
- **Hash map** (`HashTableRuns.RefinesMap`, `FreshPointersFreedOnce`, `HashMap.HashMap.Put`): agreement
  with a finite map over every run, any hash function and any allocation failure; load; and every
  pointer accepted is freed exactly once. The code on linked nodes makes exactly these callback calls, counted
  pointer by pointer for each combination of installed callbacks.
- **Connection pool** (`Connections.PoolInvariant`, `ConnectionPool.ConnectionPool.CleanUp`,
  `ConnectionPool.Client.SendWarningTo`): the pool over the hash map is always in a state that the
  history of its lock sections gives, no socket is closed twice, and cleanup closes all of them.

## Where the code and its documentation differ

- README.md:51 of the repository says a propagator terminates a warning for itself locally. The code
  sends it back to its own address (cp_dispatcher.c:22-27, 39). The model does what the code does;
  `Delivery.HopStaysOnRoute` shows that traffic for a leaf never takes those branches,
  `Topology.SelfSendIff` says exactly when they are taken, for unknown ids too, and
  `Topology.RoutingCorrect` that a warning for an inner node reaches it and is then sent to itself
  for every number of hops.
- README.md:14 promises leak-free operation. CentralPropagator/main.c:105-108 shuts the pool down
  without joining the listener; `ShutdownMayLeakIff` says exactly when that can leak a warning, and
  `NoLeakWhenQuiet` that it cannot once the listener has been joined.

## Assumptions

- Ids are unique, (address, port) pairs are unique, and the parent relation has no cycle. The loader
  checks none of this. `Topology.AcyclicIffNoCycle` shows that the depth table used in the proofs
  exists exactly when there is no cycle.
- Ids are C strings shorter than the 512-byte line buffer; a whole frame is shorter than 2^31 bytes.
- The host is little-endian; a `double` is its 64-bit pattern.
- The load test of the hash map is written without floats, as 4 * (size + 1) <= 3 * capacity; this is
  the float comparison on sizes that a float represents exactly.
- Allocation succeeds, except where a member has a parameter for its failure.
- A send call puts the bytes it accepts on the connection in one piece, also when several workers use
  the same connection, and a listener accepts connections in the order in which they were opened.
- The pool outlives a submit that has passed the flag check.

## Model

| member | source | states |
|---|---|---|
| `WireFormat.BigEndianRoundTrip` | README.md:36-42 | network-order bytes of a number read back to the number |
| `WireFormat.NetworkOrder4` | README.md:36-42 | four bytes in network order are the most significant first |
| `WireFormat.HostOrder4` | Propagator_Solution/Common/propagator_client.c:35-36 | the host stores the least significant byte first |
| `WireFormat.FrameLayout` | Propagator_Solution/Common/propagator_client.c:35-52 | where each field of a frame lies, and in which order its bytes stand |
| `WireFormat.HtonlWritesNetworkOrder` | Propagator_Solution/Common/propagator_client.c:35-36 | storing `htonl(x)` on a little-endian host writes x in network order |
| `WireFormat.HostToNetwork64WritesNetworkOrder` | Propagator_Solution/Common/propagator_client.c:9-15 | storing `host_to_network64(x)` writes x in network order |
| `WireFormat.NetworkToHost64Inverse` | Propagator_Solution/Common/utils.c:27-33 | the receiver's 64-bit conversion undoes the sender's |
| `WireFormat.NtohlReadsNetworkOrder` | Propagator_Solution/CentralPropagator/cp_listener.c:28-29 | four received bytes read through memory and `ntohl` give their network-order value |
| `WireFormat.NetworkToHost64ReadsNetworkOrder` | Propagator_Solution/CentralPropagator/cp_listener.c:56-61 | the same for eight bytes and `network_to_host64` |
| `WireFormat.DecodeRawExact` | Propagator_Solution/CentralPropagator/cp_listener.c:26-69 | whatever the deserializer accepts is exactly the frame of the fields it read |
| `WireFormat.ReencodeIffNoNul` | Propagator_Solution/CentralPropagator/cp_listener.c:71-74 | re-encoding a received warning reproduces the bytes if and only if neither string held a zero byte, because the copy stops there |
| `WireFormat.UpToNulLaw` | Propagator_Solution/CentralPropagator/cp_listener.c:71 | the copied string is the longest part of the received one without a zero byte |
| `WireFormat.DecodeEncode` | Propagator_Solution/CentralPropagator/cp_listener.c:26-75 | decoding a frame yields the warning and leaves the rest of the stream |
| `WireFormat.DecodePartialFails` | Propagator_Solution/CentralPropagator/cp_listener.c:26-69 | no proper prefix of a frame is accepted |
| `WireFormat.StreamRoundTrip` | Propagator_Solution/CentralPropagator/cp_listener.c:93-104 | a stream of frames with a cut-off last frame yields exactly the complete warnings, in order |
| `WireFormat.RelayInvariance` | Propagator_Solution/CentralPropagator/cp_dispatcher.c:39-44 | through any number of propagators every field of every warning arrives unchanged |
| `Transport.BuildFrame` | Propagator_Solution/Common/propagator_client.c:23-52 | every write lands in the buffer, which is filled exactly and holds the reference frame |
| `Transport.Socket.Recv` | Propagator_Solution/CentralPropagator/cp_listener.c:19 | one `recv`: at least one byte and at most n, or the end code |
| `Transport.RecvAll` | Propagator_Solution/CentralPropagator/cp_listener.c:16-24 | exactly n bytes whatever the chunking, failure at the end of the stream, nothing for a negative n |
| `Transport.DeserializeWarning` | Propagator_Solution/CentralPropagator/cp_listener.c:26-75 | agrees with the reference decoder on every stream and chunking |
| `Transport.ReceiveLoop` | Propagator_Solution/CentralPropagator/cp_listener.c:93-104 | hands on exactly the warnings of the stream up to the first failure |
| `Transport.ReceiveStream` | Propagator_Solution/DataDestination/data_destination.c:91-96 | for any warnings, any partial last frame and any chunking, exactly those warnings are received |
| `HashTable.GetAgrees` | Propagator_Solution/Common/hashmap.c:98-108 | a get on a well-placed table returns what the represented map holds |
| `HashTable.ResizeEffect` | Propagator_Solution/Common/hashmap.c:22-45 | doubling keeps every entry exactly once, in its place, and makes room for one more |
| `HashTable.StoreEffect` | Propagator_Solution/Common/hashmap.c:74-95 | a store replaces one value and frees the old value and the new key, or adds one entry, or fails for lack of memory |
| `HashTable.RemoveEffect` | Propagator_Solution/Common/hashmap.c:110-134 | a remove takes out exactly the entry with the key and frees its key and value |
| `HashTableRuns.RefinesMap` | Propagator_Solution/Common/hashmap.c:70-134 | over every run and any hash: gets and removes answer as the simple map, size is its size, load is at most 3/4, nodes are in place |
| `HashTableRuns.ExecuteKeepsInv` | Propagator_Solution/Common/hashmap.c:70-134 | every operation keeps agreement, load and the account of owned pointers |
| `HashTableRuns.OwnershipConserved` | Propagator_Solution/Common/hashmap.c:144-160 | over every run ending in destroy, what was freed is exactly what was accepted |
| `HashTableRuns.FreshPointersFreedOnce` | Propagator_Solution/Common/hashmap.c:70-96 | when every put brings its own key and value pointer, each accepted key and each accepted value is freed exactly once, and nothing else |
| `HashTableRuns.PutFailsIff` | Propagator_Solution/Common/hashmap.c:71-89 | a put fails if and only if the key is NULL or memory it needs is missing |
| `HashTableRuns.PutCapacity` | Propagator_Solution/Common/hashmap.c:22-45 | after a put the capacity has doubled if and only if one more entry would exceed three quarters of it and memory was there |
| `HashTableRuns.FailedPutKeeps` | Propagator_Solution/Common/hashmap.c:71-89 | a failed put frees nothing, accepts nothing and leaves the map alone |
| `HashMap.Create` | Propagator_Solution/Common/hashmap.c:47-68 | NULL exactly for a capacity of zero, otherwise a valid empty map with the given callbacks |
| `HashMap.HashMap.Locate` | Propagator_Solution/Common/hashmap.c:112-132 | the chain walk stops at the node with the key, with its predecessor, or at NULL |
| `HashMap.HashMap.Get` | Propagator_Solution/Common/hashmap.c:98-108 | the walk over linked nodes returns what the represented map holds |
| `HashMap.HashMap.Rehash` | Propagator_Solution/Common/hashmap.c:26-44 | relinking all nodes into twice the buckets follows the table function, with distinct, NULL-terminated chains |
| `HashMap.HashMap.ResizeIfNeeded` | Propagator_Solution/Common/hashmap.c:22-45 | grows exactly when the load test fails, and fails only without memory |
| `HashMap.HashMap.Put` | Propagator_Solution/Common/hashmap.c:70-96 | updates the represented map on success only; for a replaced entry the log gains the spare key if the key callback is installed, and the old value if the value callback is, and otherwise nothing |
| `HashMap.HashMap.Remove` | Propagator_Solution/Common/hashmap.c:110-134 | unlinks in place, reports presence, and frees one key equal to the given one if the key callback is installed, and the value that the map held if the value callback is, or nothing |
| `HashMap.HashMap.Destroy` | Propagator_Solution/Common/hashmap.c:144-160 | each key pointer is freed as often as it is stored if the key callback is installed, and otherwise never; the same for each value and the value callback |
| `Topology.ChildrenExact` | Propagator_Solution/Common/node.c:106-111 | children and parent are inverse, children in file order without repetition |
| `Topology.ParentByRows` | Propagator_Solution/Common/node.c:84-95 | over the rows alone: the parent of a node is the last row with its parent id, wherever in the file it stands, and none if and only if there is no such row |
| `Topology.TypeByRows` | Propagator_Solution/Common/node.c:113-117 | over the rows alone: root, central node or destination by whether the node names a row and whether a row names it |
| `Topology.AcyclicIffNoCycle` | Propagator_Solution/Common/utils.c:20-25 | depths exist if and only if no node is its own ancestor |
| `Topology.ClimbFindsChild` | Propagator_Solution/CentralPropagator/cp_dispatcher.c:28-34 | below `me`, the climb ends because the parent is `me`, at a child of `me` on the destination's path |
| `Topology.SelfSendIff` | Propagator_Solution/CentralPropagator/cp_dispatcher.c:22-27 | the hop is the node itself if and only if the destination is unknown, is the node, or is not below it |
| `Topology.SelfSendRepeats` | Propagator_Solution/CentralPropagator/cp_dispatcher.c:22-39 | a warning that a node sends to itself stays there for every number of hops |
| `Topology.TraceFollowsPath` | Propagator_Solution/CentralPropagator/cp_dispatcher.c:19-34 | from any node of the path the hops follow it, one level per hop, and then stay at its end |
| `Topology.RoutingCorrect` | Propagator_Solution/Common/utils.c:20-25 | from the root the hops visit exactly the destination's ancestors, reach it in depth(d) hops, and never leave an inner destination |
| `NodeTable.Index` | Propagator_Solution/Common/node.c:84-87 | after the index pass a lookup finds the last row with an id |
| `NodeTable.NodeTable.Link` | Propagator_Solution/Common/node.c:89-95 | looking up each parent id in the index gives the parent pointers and child counts of the rows |
| `NodeTable.NodeTable.Allocate` | Propagator_Solution/Common/node.c:97-104 | as many slots as counted children, counters reset |
| `NodeTable.NodeTable.Fill` | Propagator_Solution/Common/node.c:106-111 | every write is in bounds and every slot ends up with its child, in file order |
| `NodeTable.NodeTable.Classify` | Propagator_Solution/Common/node.c:113-117 | types by adjacency: destination exactly with a resolved parent and no children |
| `NodeTable.LoadNodes` | Propagator_Solution/Common/node.c:84-127 | for every list of rows the passes produce parents, children and types as the rows say |
| `NodeTable.BuiltByRows` | Propagator_Solution/Common/node.c:84-117 | of every table so built with unique ids, over the rows alone: j is the parent of i, and i among the children of j, if and only if i names j; the type of i follows from who names whom |
| `Routing.FindById` | Propagator_Solution/Common/utils.c:11-18 | the first row with the id; with unique ids the same as the index |
| `Routing.FindRoot` | Propagator_Solution/Common/utils.c:20-25 | terminates at the first node of the path |
| `Routing.IndexExact` | Propagator_Solution/CentralPropagator/cp_context.c:18-23 | an index holds exactly the ids of its nodes, each mapped as a search over all rows would |
| `Routing.SubtreeSplit` | Propagator_Solution/CentralPropagator/cp_context.c:20-22 | a subtree is its top node and the subtrees of its children |
| `Routing.CollectSubtree` | Propagator_Solution/CentralPropagator/cp_context.c:18-23 | recursion and loop over the heap map compute the collected map, and terminate |
| `Routing.CollectedExact` | Propagator_Solution/CentralPropagator/cp_context.c:18-23 | collecting adds exactly the subtree of the node to an index |
| `Routing.CreateContext` | Propagator_Solution/CentralPropagator/cp_context.c:25-70 | fails exactly for an unknown id, otherwise indexes the subtree of the node; the index of all nodes is destroyed |
| `Routing.Context.NextHop` | Propagator_Solution/CentralPropagator/cp_dispatcher.c:19-34 | lookup, branches and climb loop compute the hop of the node with the id |
| `Routing.Route` | Propagator_Solution/CentralPropagator/cp_dispatcher.c:19-39 | handed on by each node's own context, a warning visits exactly the destination's path |
| `Routing.FillDestinations` | Propagator_Solution/DataSource/data_generator.c:17-31 | the array is filled exactly, in bounds, with the destinations in file order |
| `Routing.DestinationsExact` | Propagator_Solution/DataSource/data_generator.c:27-31 | a node is listed if and only if it is a destination |
| `Queue.Queue.Enqueue` | Propagator_Solution/Common/queue.c:14-29 | appends one item; front, rear and size keep describing one acyclic list |
| `Queue.Queue.Dequeue` | Propagator_Solution/Common/queue.c:31-40 | removes the first item; NULL on the empty queue |
| `Queue.Queue.Peek` | Propagator_Solution/Common/queue.c:42-44 | the first item or NULL, without a change |
| `Queue.Queue.Destroy` | Propagator_Solution/Common/queue.c:54-66 | the destructor gets every non-NULL item once, in order |
| `TSQueue.FifoInEveryRun` | Propagator_Solution/Common/tsqueue.c:16-34 | in every run, enqueued equals dequeued followed by the contents, and the bound holds |
| `TSQueue.NoLostConsumerWakeup` | Propagator_Solution/Common/tsqueue.c:16-34 | in every run, while a consumer sleeps the awake ones number at least the items |
| `TSQueue.NoLostProducerWakeup` | Propagator_Solution/Common/tsqueue.c:16-42 | the same for producers and free slots when try-dequeue never removes NULL |
| `TSQueue.NoLostProducerWakeupIff` | Propagator_Solution/Common/tsqueue.c:16-42 | producers are served after every step of a run if and only if no step is a try-dequeue of NULL that skips a needed wake |
| `TSQueue.ProducersServedIff` | Propagator_Solution/Common/tsqueue.c:36-42 | a step keeps the producers served if and only if it does not skip a needed wake |
| `TSQueue.NullTryDequeueLosesWakeup` | Propagator_Solution/Common/tsqueue.c:38-39 | a run after which a producer sleeps beside a free slot, and stays asleep whatever follows until it wakes spuriously or another thread enqueues |
| `TSQueue.TSQueue.EnqueueSection` | Propagator_Solution/Common/tsqueue.c:16-24 | one stay in the critical section, with its sleep or its signal on the condition variable, is one step of the machine |
| `TSQueue.TSQueue.DequeueSection` | Propagator_Solution/Common/tsqueue.c:26-34 | one stay: sleep on the empty queue, or the first item and a signal; again one step of the machine |
| `TSQueue.TSQueue.TryDequeueSection` | Propagator_Solution/Common/tsqueue.c:36-42 | NULL on the empty queue or for a NULL item, else the first item; signals exactly for a non-NULL item, as the machine's step demands |
| `TSQueue.EnqueueLaw` | Propagator_Solution/Common/tsqueue.c:16-24 | an awake producer can always run, sleeps if and only if the queue is bounded and full, and otherwise its item becomes the last and one sleeping consumer wakes |
| `TSQueue.DequeueLaw` | Propagator_Solution/Common/tsqueue.c:26-34 | an awake consumer can always run, sleeps if and only if the queue is empty, and otherwise takes the first item and one sleeping producer wakes |
| `Mailbox.SomeTake` | Propagator_Solution/Common/tsqueue.c:26-34 | on an unbounded queue with an item, some waiting thread is awake and can take it |
| `ThreadPool.StepKeepsInv` | Propagator_Solution/CentralPropagator/thread_pool.c:18-59 | every step keeps the accounts of sentinels, jobs and submits and the sets of waiting workers |
| `ThreadPool.SubmitLaw` | Propagator_Solution/CentralPropagator/thread_pool.c:51-59 | in every run, for every thread outside a call: accepting its submit is possible if and only if no shutdown has begun, refusing it if and only if one has; none has been refused before the shutdown |
| `ThreadPool.DequeueLaw` | Propagator_Solution/CentralPropagator/thread_pool.c:20-22 | an awake worker can always go on: it sleeps, takes the first job, or exits at a sentinel |
| `ThreadPool.ShutdownDrains` | Propagator_Solution/CentralPropagator/thread_pool.c:61-78 | after the joins each worker took one sentinel, the jobs completed are, as a multiset, those ahead of the last one, and only later ones remain |
| `ThreadPool.ShutdownProgress` | Propagator_Solution/CentralPropagator/thread_pool.c:18-28 | with all sentinels queued and a worker alive, some worker can move |
| `ThreadPool.ShutdownTerminates` | Propagator_Solution/CentralPropagator/thread_pool.c:61-72 | runs are bounded by a falling measure, late and refused submits and spurious wakes, and where neither a worker nor the shutting-down thread can move all workers have exited and been joined |
| `ThreadPool.DestroyedIffNotLate` | Propagator_Solution/CentralPropagator/cp_dispatcher.c:62-77 | in every completed shutdown, a warning is destroyed as often as handed in if and only if no submit of it was on its way when the last sentinel was enqueued; otherwise exactly those submits leak it |
| `ThreadPool.SendsLastSentinel` | Propagator_Solution/CentralPropagator/thread_pool.c:65-67 | every completed shutdown has a state in which the last sentinel has just been enqueued |
| `ThreadPool.ShutdownMayLeakIff` | Propagator_Solution/CentralPropagator/main.c:105-108 | some completion of a shutdown leaks a warning if and only if a submit of it is on its way when the shutdown begins |
| `ThreadPool.NoLeakWhenQuiet` | Propagator_Solution/CentralPropagator/main.c:105-108 | a shutdown that begins with no submit on its way leaks nothing |
| `ThreadPool.LateSubmitLeaks` | Propagator_Solution/CentralPropagator/thread_pool.c:51-78 | a run with one worker that leaks a warning |
| `Destination.CountAccounts` | Propagator_Solution/DataDestination/data_destination.c:91-117 | enqueued is counted plus at most one in hand plus queued, at every state |
| `Destination.TeardownDrains` | Propagator_Solution/DataDestination/data_destination.c:170-181 | after the processor's join the count is all warnings enqueued, in order, and the queue is empty |
| `Destination.TeardownProgress` | Propagator_Solution/DataDestination/data_destination.c:170-186 | before the teardown has ended the destination has a step; the processor never sleeps beside its sentinel |
| `Destination.TeardownTerminates` | Propagator_Solution/DataDestination/data_destination.c:170-186 | runs are bounded by a falling measure, received warnings and spurious wakes, and end with the processor joined |
| `Destination.TeardownLaw` | Propagator_Solution/DataDestination/data_destination.c:170-181 | when each step of the teardown is possible and what it leaves unchanged: the sentinel is enqueued only after the listener is gone |
| `Connections.PoolInvariant` | Propagator_Solution/Common/propagator_connections.c:49-169 | in every run stored sockets are open, under one key each, and opened equals closed plus stored |
| `Connections.CleanupClosesAll` | Propagator_Solution/Common/propagator_connections.c:162-169 | a run ending in cleanup has closed every socket it opened |
| `Connections.GetIsStable` | Propagator_Solution/Common/propagator_connections.c:72-80 | repeated gets return the same socket until a close or cleanup |
| `Connections.GetLaw` | Propagator_Solution/Common/propagator_connections.c:49-150 | a get returns the stored socket, or opens, stores and returns a new one, or fails; a socket opened in vain is closed |
| `Connections.CloseLaw` | Propagator_Solution/Common/propagator_connections.c:152-160 | a close takes exactly the stored socket of the endpoint out of the pool and closes it |
| `ConnectionPool.ConnectionPool.GetOrCreateConnection` | Propagator_Solution/Common/propagator_connections.c:49-150 | over the hash map, every outcome of the allocations, socket, connect and put is the corresponding step of the pool |
| `ConnectionPool.OutcomeLaw` | Propagator_Solution/Common/propagator_connections.c:58-149 | which failure leads to which result: before the socket nothing changes, after it the new socket is closed |
| `ConnectionPool.ConnectionPool.CloseConnection` | Propagator_Solution/Common/propagator_connections.c:152-160 | removing the entry closes, through the map's callback, exactly the endpoint's socket, which was not closed before |
| `ConnectionPool.ConnectionPool.CleanUp` | Propagator_Solution/Common/propagator_connections.c:162-169 | destroying the map closes every stored socket; then as many closes as sockets opened, none twice |
| `Connections.FramedIffNoOverlap` | Propagator_Solution/Common/propagator_client.c:54-60 | with any threads, every connection stays in frame through a run if and only if no send falls between a short send on it and its close |
| `Connections.SentIsReceived` | Propagator_Solution/Common/propagator_client.c:17-64 | in such a run, with any failures and reconnections, each connection's receiver decodes exactly the warnings reported as sent |
| `Connections.OverlapSwapsWarnings` | Propagator_Solution/Common/propagator_client.c:54-60 | a send between a short send and its close is reported as sent and not received, and the failed one is received |
| `Connections.DisconnectEndsOverlap` | Propagator_Solution/Common/propagator_client.c:56-60 | in every run, after the close that follows a short send the endpoint is not stored, its socket is closed, and the next get returns a new connection with nothing on it |
| `Connections.OneThreadStaysInFrame` | Propagator_Solution/Common/propagator_client.c:54-63 | a run whose steps belong to one thread never overlaps, so every connection stays in frame |
| `ConnectionPool.Client.SendWarningTo` | Propagator_Solution/Common/propagator_client.c:17-64 | the code over pool, frame buffer and send call makes the sender's step and, after a short send, the step of the close: the endpoint is then not stored and its socket is among those closed |
| `Streams.SentArrives` | Propagator_Solution/Common/propagator_client.c:54-63 | on a connection on which no close is due, a complete send adds exactly its warning to what the listener will read, a partial one nothing |
| `CutFrames.CutBeforeLastByte` | Propagator_Solution/CentralPropagator/cp_listener.c:26-75 | a frame without its last byte, followed by another frame, is read as complete when that byte was zero |
| `CutFrames.ShiftedFails` | Propagator_Solution/CentralPropagator/cp_listener.c:26-39 | the frame that follows, one byte short, is refused |
| `CutFrames.CutInsideDest` | Propagator_Solution/CentralPropagator/cp_listener.c:41-74 | a frame cut inside its destination, followed by another frame, is read as a warning for the part that arrived |
| `Streams.NothingArrives` | Propagator_Solution/CentralPropagator/cp_listener.c:93-106 | with no frame to read and no connection at its end, nothing is on its way |
| `Delivery.HopStaysOnRoute` | Propagator_Solution/CentralPropagator/cp_dispatcher.c:19-39 | leaf-addressed traffic goes to a child nearer the leaf and never back to the node |
| `Delivery.StepKeepsInv` | Propagator_Solution/CentralPropagator/cp_dispatcher.c:14-46 | every step except a send between a short send and its close keeps all warnings on their routes, streams in frame and the sentinel last |
| `Delivery.ConservationInCleanRuns` | Propagator_Solution/DataSource/network_sender.c:9-28 | in every clean interleaving each warning generated is in exactly one place |
| `Delivery.NoShortSendIsClean` | Propagator_Solution/Common/propagator_client.c:54-63 | a run in which sends succeed or are refused is clean |
| `Delivery.QuiescentQueue` | Propagator_Solution/CentralPropagator/thread_pool.c:18-28 | at rest every queue is empty, although its threads may sleep |
| `Delivery.QuiescentDelivers` | Propagator_Solution/DataDestination/data_destination.c:103-117 | where a clean run is at rest all warnings for a node are counted there or lost to a failed send |
| `Delivery.EveryWarningDelivered` | README.md:140 | at rest without failed sends each destination has counted exactly the warnings generated for it, of 10000 in all, for every weight on their contents |
| `SystemLaws.CanGenerate` | Propagator_Solution/DataSource/data_generator.c:37-46 | while fewer than 10000 warnings have been generated, every destination, type, value and time can be generated next |
| `SystemLaws.GenerateLaw` | Propagator_Solution/DataSource/data_generator.c:41-55 | the new warning has the destination's id as city and destination and the given type, value and time, and becomes the last item of the queue |
| `SystemLaws.EndGenerationLaw` | Propagator_Solution/DataSource/data_generator.c:21-58 | the generator ends after exactly 10000 warnings with the sentinel, or at once without destinations |
| `SystemLaws.SourceSendLaw` | Propagator_Solution/DataSource/network_sender.c:14-27 | the sender sends to the root above the destination: a complete send adds the warning to what is on its way there, any other adds nothing and loses it |
| `SystemLaws.ForwardLaw` | Propagator_Solution/CentralPropagator/cp_dispatcher.c:14-46 | a worker sends to the next node on the way down, with the same account |
| `SystemLaws.CountLaw` | Propagator_Solution/DataDestination/data_destination.c:105-115 | a destination counts exactly the warning in hand |
| `SystemLaws.ReceiveLaw` | Propagator_Solution/CentralPropagator/cp_listener.c:93-104 | a listener moves the first warning on the connection it reads to the end of the queue |
| `SystemLaws.DisconnectLaw` | Propagator_Solution/Common/propagator_client.c:56-60 | the close leaves the process without an open connection to the node and touches no warning |
| `SystemLaws.EveryWarningDeliveredEach` | README.md:140 | at rest without failed sends every destination has counted each warning for it exactly as often as it was generated, and nothing else |
| `SystemLaws.MissingIsLostEach` | Propagator_Solution/CentralPropagator/cp_dispatcher.c:39-44 | in every clean run at rest, each warning for a node was counted there or lost as often as it was generated |
| `Delivery.MissingIsLost` | Propagator_Solution/CentralPropagator/cp_dispatcher.c:39-44 | in every clean run, short sends included, what is missing at a destination is exactly what was lost, content by content, one warning per failed send |
| `Progress.StepShrinks` | Propagator_Solution/DataSource/data_generator.c:37-58 | every step that overlaps no short send lowers the remaining work, except a spurious wake, which adds one |
| `Progress.CleanRunsComeToRest` | Propagator_Solution/Common/propagator_client.c:54-63 | besides spurious wakes no clean run has more steps than a bound linear in the warnings and the levels |
| `Progress.RunsWithoutShortSendsRest` | Propagator_Solution/DataSource/data_generator.c:9 | the same for every run in which no send is short, whatever else fails |
| `Progress.RestIsReachable` | Propagator_Solution/DataSource/network_sender.c:9-28 | from every state of a clean run the system can come to rest cleanly, without a failed send or a spurious wake |
| `Overlap.StepKeepsOwned` | Propagator_Solution/Common/propagator_client.c:54-60 | whenever a frame has been cut on an open connection, some thread of the sending process has the close before it |
| `Overlap.SoloIsClean` | Propagator_Solution/CentralPropagator/thread_pool.c:44-46 | with one worker per pool every run is clean, short sends included |
| `SharedConnection.LostArrivesAndSentIsLost` | Propagator_Solution/CentralPropagator/cp_dispatcher.c:39-44 | with two or more workers, a run after which a warning given up as lost is on its way and one reported as sent is nowhere |
| `SharedConnection.NeverRests` | Propagator_Solution/CentralPropagator/cp_dispatcher.c:22-39 | with two or more workers there are runs of any length, a cut destination id being sent to the same node for ever |
| `SharedConnection.ConservesIffSolo` | Propagator_Solution/CentralPropagator/main.c:26 | conservation holds in all runs of all configurations if and only if a propagator has one worker |
| `SharedConnection.RepositoryPoolBreaks` | Propagator_Solution/CentralPropagator/main.c:26 | so neither holds with the four workers of the repository |
| `SharedConnection.RestsIffSolo` | Propagator_Solution/CentralPropagator/main.c:26 | every configuration has a bound on its runs if and only if a propagator has one worker |

## Left out

- Text parsing with `fgets`, `strtok`, `atoi` and `trim`: the model starts from parsed rows.
- Socket set-up, accept, bind, connect details and Winsock start-up: a connection is a byte stream that succeeds, fails or takes part of a frame.
- Process launching, job objects, window messages, named events and the stop event: the system model runs until it comes to rest.
- Formatting of warnings and times, console output and memory reports: presentation.
- Random choice in the generator: any destination, type, value and time may be chosen.
- Use of a socket after another thread has closed it: the lookup of a connection and the send call are one step of the model, the close after a short send another.
- Order of warnings across a propagator: several workers send concurrently, and no order is claimed.
- The count file written at exit: it is read before the drain; only the count after the join is stated.
- Liveness of blocked `accept` and `recv` calls: it depends on the operating system.
- Shutdown inside the system model: shutdown is modelled for one pool and one destination, not for the tree as a whole.
- NULL map and NULL key arguments of get, remove and destroy: only put has its NULL-key branch.
- The heap cells that hold a stored endpoint key and a socket handle: an entry of the pool holds the endpoint and the socket's number, so freeing those cells on the failure paths is not modelled.
- Aliasing of node pointers: a node is named by its position in the file, and the finished table is read as a value.
- The pool and the destination as code: their threads exist only as steps of a machine; only the queue sections are written as methods.
- The 32-bit width of the destination's counter: at most 10000 warnings are generated.
- Propagator fields that nothing reads (the copied children array of a context).
