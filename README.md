# Plugin client hook-event delivery, modelled in Dafny

The scheduler's plugin client (`plugin::PluginClient`) buffers job-lifecycle
hook events in a queue and forwards them, one RPC at a time, to the plugin
daemon. Producers (`StartHookAsync`, `EndHookAsync`, `JobMonitorHookAsync`)
build a typed request and enqueue exactly one event. A single delivery thread
(`AsyncSendThread_`) runs iterations. Each iteration checks the stop flag and
polls the channel, tracking the previous connection state. If it sees queued
events, it bulk-dequeues them into a working list. It then sends that list
front to back through the type-indexed dispatch table `s_hook_dispatch_funcs_`:

- an event answered OK is delivered and discarded;
- an event answered with any other error except UNAVAILABLE is dropped;
- at the first UNAVAILABLE, the current event and the rest of the working
  list are pushed back onto the queue, in order, and the pass ends.

The destructor raises the stop flag and joins the thread.

The model is sequential Dafny:

- `hooks.dfy` (module `Hooks`) holds the data: task records, the three
  request shapes, the hook event, gRPC status codes (OK = 0, UNAVAILABLE = 14),
  the RPC calls the daemon receives, and `Answers`. `Answers` is the daemon's
  reply to each RPC, by call number.
- `dispatch.dfy` (module `Dispatch`) holds the dispatch table, which is
  indexed by the numeric value of the hook type.
- `delivery.dfy` (module `Delivery`) describes one send pass as a value:
  - the retry point, which is the first UNAVAILABLE;
  - the calls issued;
  - the delivered, dropped and re-enqueued events.

  It also holds the lemmas about a pass: the retry split, conservation, and
  which event ends where.
- `plugin_client.dfy` (module `Plugin`) holds the imperative model:
  - class `PluginStub`, the daemon seen through the stub, which records every
    RPC it receives;
  - class `PluginClient`, with the event queue as a `seq` field and the stop
    flag, the producers, the typed send entries, the bulk dequeue, the inner
    send loop, one iteration of the thread and the thread over a run of polls;
  - `Run`, a pure description of such a run, with lemmas about it: the
    "connected" log marks exactly the connection edges, no event is lost or
    duplicated, and the daemon's calls only grow;
  - a verified outage scenario.

Connectivity, the observed queue size, the daemon's answers and the wall
clock are inputs. Every gRPC status code is kept (0..16). The delivery loop
distinguishes only OK, UNAVAILABLE and the rest.

## Model

| member | source | states |
|---|---|---|
| Dispatch.TypeIndex | src/Utilities/PluginClient/PluginClient.cpp:100 | `size_t(e.type)` always indexes inside the three-entry table |
| Dispatch.Lookup | src/Utilities/PluginClient/PluginClient.cpp:100 | the table entry selected for a hook type accepts exactly that type, and it is the only such entry |
| Dispatch.DispatchFollowsType | src/Utilities/PluginClient/PluginClient.cpp:100-101 | a well-typed event is sent with the RPC of its own payload type and the payload unchanged; two events use the same RPC exactly when their types agree |
| Delivery.RetryPoint | src/Utilities/PluginClient/PluginClient.cpp:96-124 | the pass stops at index k: no send before k was answered UNAVAILABLE, and the send of k was, unless k is the end of the list |
| Delivery.RetryPointFirst | src/Utilities/PluginClient/PluginClient.cpp:110-117 | any UNAVAILABLE at j puts the retry point at j or earlier |
| Delivery.DispatchCalls | src/Utilities/PluginClient/PluginClient.cpp:96-101 | sending n events issues exactly n RPCs, the i-th being the dispatch of event i |
| Delivery.PassStart | src/Utilities/PluginClient/PluginClient.cpp:96 | before the first send nothing is sent, delivered or dropped |
| Delivery.PassStep | src/Utilities/PluginClient/PluginClient.cpp:103-123 | an event not answered UNAVAILABLE is sent once, then delivered when OK and dropped otherwise, and the pass goes on |
| Delivery.PassSettled | src/Utilities/PluginClient/PluginClient.cpp:110-117 | a pass that has reached its retry point has delivered and dropped exactly the pass's events, and the tail from there goes back |
| Delivery.PassStop | src/Utilities/PluginClient/PluginClient.cpp:110-117 | at the first UNAVAILABLE the pass has sent events 0..i and re-enqueues exactly the tail from i |
| Delivery.PassEnd | src/Utilities/PluginClient/PluginClient.cpp:96-124 | a pass that runs off the end has sent every event and re-enqueues nothing |
| Delivery.AnsweredMembers | src/Utilities/PluginClient/PluginClient.cpp:103-123 | an event is among the accepted (or rejected) events of a prefix exactly when some position holds it and its send was answered that way |
| Delivery.AnsweredCounts | src/Utilities/PluginClient/PluginClient.cpp:103-123 | each event occurs in a sent prefix as often as among its delivered and dropped events together |
| Delivery.AnsweredPartition | src/Utilities/PluginClient/PluginClient.cpp:103-123 | the delivered and the dropped events of a prefix together form exactly that prefix as a multiset |
| Delivery.AnsweredUniform | src/Utilities/PluginClient/PluginClient.cpp:120-123 | when every answer of a prefix is OK (or every one is an error), the whole prefix lands on that side, in order |
| Delivery.PassOutcomes | src/Utilities/PluginClient/PluginClient.cpp:103-123 | before the retry point, an event is delivered exactly when it was answered OK, and dropped exactly when it was answered with an error other than UNAVAILABLE |
| Delivery.PassConservation | src/Utilities/PluginClient/PluginClient.cpp:103-123 | every event of the working list is delivered, dropped or re-enqueued, exactly once, with none invented |
| Delivery.IterationConservation | src/Utilities/PluginClient/PluginClient.cpp:81-124 | over a whole iteration, the queue before equals the queue after plus the delivered and the dropped events, as multisets |
| Delivery.RetrySplit | src/Utilities/PluginClient/PluginClient.cpp:110-117 | when the first UNAVAILABLE is at index k, the pass sends exactly events 0..k and re-enqueues exactly working[k..] in order; the events before k are the delivered and dropped ones |
| Delivery.AllOkDeliversAll | src/Utilities/PluginClient/PluginClient.cpp:120-123 | when every answer is OK, the pass delivers the whole list in order and re-enqueues nothing |
| Delivery.RejectionsAreNeverRetried | src/Utilities/PluginClient/PluginClient.cpp:103-123 | when every answer is a non-UNAVAILABLE error, every event is sent once and dropped, and none is re-enqueued |
| Plugin.PluginStub.Invoke | src/Utilities/PluginClient/PluginClient.cpp:137 | a unary RPC: the daemon receives exactly this call, and the call returns the daemon's answer for its number |
| Plugin.PluginClient.constructor | src/Utilities/PluginClient/PluginClient.cpp:53-58 | the client starts with an empty queue, the stop flag down and a joinable delivery thread |
| Plugin.PluginClient.Shutdown | src/Utilities/PluginClient/PluginClient.cpp:46-50 | the destructor raises the stop flag and leaves the thread joined |
| Plugin.PluginClient.StartHookAsync | src/Utilities/PluginClient/PluginClient.cpp:164-175 | appends exactly one START event, at the back, carrying the whole task list in input order |
| Plugin.PluginClient.EndHookAsync | src/Utilities/PluginClient/PluginClient.cpp:177-192 | appends exactly one END event, at the back. Its task list has the input's length, ids and start times, and each elapsed time is now − start time for the one `now` of the call |
| Plugin.PluginClient.JobMonitorHookAsync | src/Utilities/PluginClient/PluginClient.cpp:194-204 | appends exactly one JOB_MONITOR event, at the back, with exactly the given task id and cgroup path |
| Plugin.PluginClient.SendStartHook | src/Utilities/PluginClient/PluginClient.cpp:128-138 | accepts only a START request and issues exactly one StartHook RPC with it |
| Plugin.PluginClient.SendEndHook | src/Utilities/PluginClient/PluginClient.cpp:140-150 | accepts only an END request and issues exactly one EndHook RPC with it |
| Plugin.PluginClient.SendJobMonitorHook | src/Utilities/PluginClient/PluginClient.cpp:152-162 | accepts only a JOB_MONITOR request and issues exactly one JobMonitorHook RPC with it |
| Plugin.PluginClient.CallDispatchFunc | src/Utilities/PluginClient/PluginClient.cpp:101 | calling a table entry with a payload of the type it accepts issues that entry's RPC once |
| Plugin.PluginClient.Dispatch | src/Utilities/PluginClient/PluginClient.cpp:100-101 | sending an event through the entry selected by its type issues exactly its dispatch RPC |
| Plugin.PluginClient.TryDequeueBulk | src/Utilities/PluginClient/PluginClient.cpp:87-93 | removes min(approx_size, queue length) events from the front and returns them in queue order; the rest of the queue is unchanged |
| Plugin.PluginClient.SendEvents | src/Utilities/PluginClient/PluginClient.cpp:96-124 | the inner loop: the queue gains exactly the re-enqueued tail, the daemon receives the dispatch RPCs of the events up to and including the retry point, in order, and the delivered and dropped events are those of the pass |
| Plugin.PluginClient.AsyncSendIteration | src/Utilities/PluginClient/PluginClient.cpp:63-124 | one iteration. A stopped, disconnected or empty-looking iteration changes neither the queue nor the daemon. The previous connection state becomes the poll result, and "connected" is logged exactly on a false-to-true edge. An active iteration bulk-dequeues and runs one pass |
| Plugin.PluginClient.AsyncSendThread | src/Utilities/PluginClient/PluginClient.cpp:60-126 | with the stop flag up, the thread ends before any dequeue or send and changes nothing. Otherwise the final log, delivered and dropped lists, queue and daemon calls are exactly those of `Run` over the polls, starting from prev_conn_state false |
| Plugin.RunLog | src/Utilities/PluginClient/PluginClient.cpp:70-73 | a run extends its "connected" log by exactly the log of its polls, given the connection state before them |
| Plugin.ConnectedLogEdges | src/Utilities/PluginClient/PluginClient.cpp:70-73 | the log of a run of polls has one entry per poll, and entry i is true exactly when poll i is connected and the state before it was not |
| Plugin.RunLogsEdges | src/Utilities/PluginClient/PluginClient.cpp:61-73 | with prev_conn_state starting false, "connected" is logged at poll i exactly when poll i is connected and either i is the first poll or poll i − 1 was not connected |
| Plugin.RunConserves | src/Utilities/PluginClient/PluginClient.cpp:63-124 | each iteration of a run keeps the multiset of queued, delivered and dropped events unchanged |
| Plugin.RunConservation | src/Utilities/PluginClient/PluginClient.cpp:60-126 | over a whole run, the events queued at the start are, as a multiset, those still queued plus those delivered plus those dropped: none lost, none duplicated |
| Plugin.RunExtendsCalls | src/Utilities/PluginClient/PluginClient.cpp:96-101 | a run only appends RPCs: the calls the daemon had received before the run stay, in order, at the front |
| Plugin.OutageFirstPass | src/Utilities/PluginClient/PluginClient.cpp:110-117 | a one-event pass whose send is answered UNAVAILABLE sends it once and puts it back |
| Plugin.OutageSecondPass | src/Utilities/PluginClient/PluginClient.cpp:120-123 | a one-event pass whose send is answered OK sends it once and delivers it |
| Plugin.OutageScenario | src/Utilities/PluginClient/PluginClient.cpp:60-124 | a START event survives an outage. After the first iteration it is back in the queue after one StartHook RPC. After the disconnected iteration the queue and the calls are unchanged. After the third iteration it is delivered, the queue is empty, and the daemon has received two StartHook RPCs, each with the original task list |

## Left out

- Channel and stub construction (`InitChannelAndStub` creating the Unix-socket
  channel): the constructor takes the stub as given.
- Threads, the atomic stop flag and `join`: the model is sequential. The flag
  is a field that the thread reads before each iteration, so the destructor
  cannot interleave with a running iteration.
- Plugin.PluginClient.AsyncSendThread: runs over a finite sequence of polls
  instead of `while (true)`, and the flag cannot change during the run.
- The lock-free concurrency of the event queue: the queue is a `seq`, and
  `size_approx` is an input that may have any value. The dequeue takes
  `min(approx_size, queue length)` events.
- `WaitForConnected` with its 3000 ms deadline, and the sleeps: the poll result
  is an input, and a sleep is an iteration that does nothing.
- Log text. `connectedLogged` and the delivered and dropped lists stand for
  the "connected", "sent" and "failed" lines. The "not connected" line and the
  error line printed before an UNAVAILABLE retry are not modelled separately.
- Plugin.PluginStub.Invoke: the daemon's answer depends only on the call's
  number. Its answers are a finite script followed by one repeated status,
  which covers any finite run.
- Protobuf internals: a task record keeps only its id, start time and elapsed
  time in seconds. The nanosecond parts are not modelled, and the other
  fields are copied through unchanged.
- Plugin.PluginClient.EndHookAsync: does not model signed 64-bit overflow of
  `now - start_time`, because the integers are unbounded.
- `absl::Now()`: `now` is a parameter of `EndHookAsync`, so one value is used
  for the whole call.
- The enumerator order of `HookType` (START, END, JOB_MONITOR) and the layout
  of `s_hook_dispatch_funcs_` are inferred from their use in the source. The
  header that declares them is not part of this model, and neither is the
  header that defines `task_id_t`, which is taken as an unsigned 32-bit id.
- `dynamic_cast` of the payload is replaced by the request datatype's
  variant. Each send entry requires its own variant, and the dispatch table
  guarantees that this holds.
- `GrpcHelper.h` (channel and server plumbing) is not part of this model.
