/**
 * The plugin client: producers append hook events to a queue, and a single
 * delivery thread forwards them one at a time to the plugin daemon.
 */
module Plugin {
  import opened Hooks
  import opened Dispatch
  import opened Delivery

  /**
   * The daemon's side of the channel, seen through the stub: it records the
   * RPCs it receives, and answers its n-th RPC with answers.At(n).
   */
  class PluginStub {
    const answers: Answers
    var calls: seq<RpcCall>

    constructor (answers: Answers)
      ensures this.answers == answers && calls == []
    {
      this.answers := answers;
      calls := [];
    }

    /** A unary RPC: the daemon receives the request and the call returns its status. */
    method Invoke(rpc: Rpc, request: HookRequest) returns (status: Status)
      modifies this
      ensures calls == old(calls) + [RpcCall(rpc, request)]
      ensures status == answers.At(|old(calls)|)
    {
      status := answers.At(|calls|);
      calls := calls + [RpcCall(rpc, request)];
    }
  }

  /** What the delivery thread observes in one iteration: the connection poll and size_approx. */
  datatype Poll = Poll(connected: bool, approxSize: nat)

  class PluginClient {
    const stub: PluginStub
    var eventQueue: seq<HookEvent>
    var threadStop: bool
    var sendThreadJoinable: bool

    /** Every queued event's tag agrees with its payload. */
    ghost predicate Valid()
      reads this
    {
      forall e | e in eventQueue :: e.WellTyped()
    }

    /** The client once its stub is bound and its delivery thread started. */
    constructor (stub: PluginStub)
      ensures this.stub == stub
      ensures eventQueue == [] && !threadStop && sendThreadJoinable
      ensures Valid()
    {
      this.stub := stub;
      eventQueue := [];
      threadStop := false;
      sendThreadJoinable := true;
    }

    /** The destructor: raise the stop flag, then join the delivery thread. */
    method Shutdown()
      modifies this`threadStop, this`sendThreadJoinable
      ensures threadStop && !sendThreadJoinable
    {
      threadStop := true;
      if sendThreadJoinable {
        sendThreadJoinable := false;
      }
    }

    /** Queues a START event carrying a copy of the given tasks. */
    method StartHookAsync(tasks: seq<TaskInfo>)
      requires Valid()
      modifies this`eventQueue
      ensures Valid()
      ensures eventQueue == old(eventQueue) + [HookEvent(Start, StartHookRequest(tasks))]
    {
      var taskList: seq<TaskInfo> := [];
      for i := 0 to |tasks|
        invariant taskList == tasks[..i]
      {
        taskList := taskList + [tasks[i]];
      }
      assert taskList == tasks;
      eventQueue := eventQueue + [HookEvent(Start, StartHookRequest(taskList))];
    }

    /**
     * Queues an END event carrying a copy of the given tasks in which each
     * task's elapsed time is now minus its start time, now being sampled
     * once for the whole call.
     */
    method EndHookAsync(tasks: seq<TaskInfo>, now: int)
      requires Valid()
      modifies this`eventQueue
      ensures Valid()
      ensures |eventQueue| == |old(eventQueue)| + 1
      ensures eventQueue[..|old(eventQueue)|] == old(eventQueue)
      ensures var e := eventQueue[|eventQueue| - 1];
        && e.hookType == End && e.msg.EndHookRequest?
        && |e.msg.taskInfoList| == |tasks|
        && forall i | 0 <= i < |tasks| ::
             && e.msg.taskInfoList[i].taskId == tasks[i].taskId
             && e.msg.taskInfoList[i].startTime == tasks[i].startTime
             && e.msg.taskInfoList[i].elapsedTime == now - tasks[i].startTime
    {
      var taskList: seq<TaskInfo> := [];
      for i := 0 to |tasks|
        invariant |taskList| == i
        invariant forall j | 0 <= j < i ::
          taskList[j] == tasks[j].(elapsedTime := now - tasks[j].startTime)
      {
        var task := tasks[i];
        taskList := taskList + [task.(elapsedTime := now - task.startTime)];
      }
      eventQueue := eventQueue + [HookEvent(End, EndHookRequest(taskList))];
    }

    /** Queues a JOB_MONITOR event for one task and its cgroup path. */
    method JobMonitorHookAsync(taskId: TaskId, cgroupPath: string)
      requires Valid()
      modifies this`eventQueue
      ensures Valid()
      ensures eventQueue == old(eventQueue) + [HookEvent(JobMonitor, JobMonitorHookRequest(taskId, cgroupPath))]
    {
      var request := JobMonitorHookRequest(taskId, cgroupPath);
      eventQueue := eventQueue + [HookEvent(JobMonitor, request)];
    }

    method SendStartHook(msg: HookRequest) returns (status: Status)
      requires msg.StartHookRequest?
      modifies stub
      ensures stub.calls == old(stub.calls) + [RpcCall(StartHook, msg)]
      ensures status == stub.answers.At(|old(stub.calls)|)
    {
      status := stub.Invoke(StartHook, msg);
    }

    method SendEndHook(msg: HookRequest) returns (status: Status)
      requires msg.EndHookRequest?
      modifies stub
      ensures stub.calls == old(stub.calls) + [RpcCall(EndHook, msg)]
      ensures status == stub.answers.At(|old(stub.calls)|)
    {
      status := stub.Invoke(EndHook, msg);
    }

    method SendJobMonitorHook(msg: HookRequest) returns (status: Status)
      requires msg.JobMonitorHookRequest?
      modifies stub
      ensures stub.calls == old(stub.calls) + [RpcCall(JobMonitorHook, msg)]
      ensures status == stub.answers.At(|old(stub.calls)|)
    {
      status := stub.Invoke(JobMonitorHook, msg);
    }

    /** (this->*f)(&context, msg): a call through a dispatch-table entry. */
    method CallDispatchFunc(f: HookDispatchFunc, msg: HookRequest) returns (status: Status)
      requires RequestType(msg) == AcceptedType(f)
      modifies stub
      ensures stub.calls == old(stub.calls) + [RpcCall(RpcOf(f), msg)]
      ensures status == stub.answers.At(|old(stub.calls)|)
    {
      match f
      case SendStartHookFn => status := SendStartHook(msg);
      case SendEndHookFn => status := SendEndHook(msg);
      case SendJobMonitorHookFn => status := SendJobMonitorHook(msg);
    }

    /** Sends one event through the dispatch-table entry its type selects. */
    method Dispatch(e: HookEvent) returns (status: Status)
      requires e.WellTyped()
      modifies stub
      ensures stub.calls == old(stub.calls) + [CallFor(e)]
      ensures status == stub.answers.At(|old(stub.calls)|)
    {
      var f := Lookup(e.hookType);
      status := CallDispatchFunc(f, e.msg);
    }

    /** try_dequeue_bulk: moves up to maxCount events from the front of the queue. */
    method TryDequeueBulk(maxCount: nat) returns (events: seq<HookEvent>)
      modifies this`eventQueue
      ensures |events| == Min(maxCount, |old(eventQueue)|)
      ensures events + eventQueue == old(eventQueue)
    {
      var actualSize := Min(maxCount, |eventQueue|);
      events := eventQueue[..actualSize];
      eventQueue := eventQueue[actualSize..];
    }

    /**
     * The inner loop of an iteration: sends the working list front to back.
     * An event answered OK is delivered, one answered with another error is
     * logged and dropped; at the first UNAVAILABLE the current event and the
     * rest of the list go back onto the queue, in order, and the pass ends.
     */
    method SendEvents(working: seq<HookEvent>) returns (delivered: seq<HookEvent>, dropped: seq<HookEvent>)
      requires forall e | e in working :: e.WellTyped()
      modifies this`eventQueue, stub
      ensures eventQueue == old(eventQueue) + Requeued(working, stub.answers, |old(stub.calls)|)
      ensures stub.calls == old(stub.calls) + DispatchCalls(working, SentCount(working, stub.answers, |old(stub.calls)|))
      ensures delivered == Delivered(working, stub.answers, |old(stub.calls)|)
      ensures dropped == Dropped(working, stub.answers, |old(stub.calls)|)
    {
      delivered, dropped := [], [];
      var events := working;
      ghost var answers, calls0, queue0 := stub.answers, stub.calls, eventQueue;
      ghost var base, i, sent := |calls0|, 0, [];
      PassStart(working, answers, base);

      while events != []
        invariant i <= |working| && events == working[i..]
        invariant PassInvariant(working, answers, base, i, sent, delivered, dropped)
        invariant eventQueue == queue0
        invariant stub.calls == calls0 + sent
        decreases |events|
      {
        var e := events[0];
        assert e == working[i] && e in working;
        var status := Dispatch(e);
        assert status == answers.At(base + i);
        assert stub.calls == calls0 + (sent + [CallFor(e)]);
        if !status.IsOk() {
          if status.IsUnavailable() {
            PassStop(working, answers, base, i, sent, delivered, dropped);
            // put the current event and everything after it back
            if events != [] {
              eventQueue := eventQueue + events;
            }
            return;
          }
          PassStep(working, answers, base, i, sent, delivered, dropped);
          dropped := dropped + [e];
        } else {
          PassStep(working, answers, base, i, sent, delivered, dropped);
          delivered := delivered + [e];
        }
        sent := sent + [CallFor(e)];
        events := events[1..];
        i := i + 1;
      }
      PassEnd(working, answers, base, sent, delivered, dropped);
    }

    /**
     * One iteration of the delivery thread. prevConnState is the thread's
     * previous connection state, connected the result of this iteration's
     * poll and approxSize the queue size it observes. connState is the new
     * previous state, connectedLogged whether the "connected" line is
     * logged, delivered and dropped the events sent OK and the events
     * logged and discarded after a non-transient error.
     */
    method AsyncSendIteration(prevConnState: bool, connected: bool, approxSize: nat)
      returns (stopped: bool, connState: bool, connectedLogged: bool,
               delivered: seq<HookEvent>, dropped: seq<HookEvent>)
      requires Valid()
      modifies this`eventQueue, stub
      ensures Valid()
      ensures stopped == threadStop
      ensures stopped ==> connState == prevConnState && !connectedLogged
      ensures !stopped ==> connState == connected && connectedLogged == (!prevConnState && connected)
      // quiet iterations: no dequeue, no send
      ensures stopped || !connected || approxSize == 0 ==>
        && eventQueue == old(eventQueue) && stub.calls == old(stub.calls)
        && delivered == [] && dropped == []
      // an active iteration: bulk dequeue, then one send pass over the working list
      ensures !stopped && connected && approxSize > 0 ==>
        var working := old(eventQueue)[..Min(approxSize, |old(eventQueue)|)];
        var base := |old(stub.calls)|;
        && eventQueue == old(eventQueue)[|working|..] + Requeued(working, stub.answers, base)
        && stub.calls == old(stub.calls) + DispatchCalls(working, SentCount(working, stub.answers, base))
        && delivered == Delivered(working, stub.answers, base)
        && dropped == Dropped(working, stub.answers, base)
    {
      delivered, dropped := [], [];
      stopped := threadStop;
      if stopped {
        connState, connectedLogged := prevConnState, false;
        return;
      }

      connectedLogged := !prevConnState && connected;
      connState := connected;
      if !connected {
        return;
      }
      if approxSize == 0 {
        return;
      }

      var events := TryDequeueBulk(approxSize);
      ghost var rest := eventQueue;
      assert old(eventQueue) == events + rest;
      assert forall e | e in events :: e in old(eventQueue);
      delivered, dropped := SendEvents(events);
      assert forall e | e in eventQueue :: e in rest || e in events;
    }

    /**
     * The delivery thread's body over a run of iterations, one per poll,
     * with prev_conn_state starting false. connectedLogged has one entry
     * per polled iteration; delivered and dropped collect, in order, the
     * events each iteration delivered and dropped. Unless the stop flag is
     * up, the run ends in the state Run computes.
     */
    method AsyncSendThread(polls: seq<Poll>)
      returns (connectedLogged: seq<bool>, delivered: seq<HookEvent>, dropped: seq<HookEvent>)
      requires Valid()
      modifies this`eventQueue, stub
      ensures Valid()
      ensures threadStop ==>
        && connectedLogged == [] && delivered == [] && dropped == []
        && eventQueue == old(eventQueue) && stub.calls == old(stub.calls)
      ensures !threadStop ==>
        var r := Run(polls, Started(old(eventQueue), old(stub.calls)), stub.answers);
        && connectedLogged == r.connectedLog && delivered == r.delivered && dropped == r.dropped
        && eventQueue == r.queue && stub.calls == r.calls
    {
      var prevConnState := false;
      connectedLogged, delivered, dropped := [], [], [];
      ghost var start := Started(eventQueue, stub.calls);
      var i := 0;
      while i < |polls|
        invariant 0 <= i <= |polls|
        invariant Valid()
        invariant threadStop ==>
          && i == 0 && connectedLogged == [] && delivered == [] && dropped == []
          && eventQueue == old(eventQueue) && stub.calls == old(stub.calls)
        invariant Run(polls[i..], RunState(prevConnState, connectedLogged, eventQueue, stub.calls, delivered, dropped), stub.answers)
               == Run(polls, start, stub.answers)
      {
        var poll := polls[i];
        ghost var before := RunState(prevConnState, connectedLogged, eventQueue, stub.calls, delivered, dropped);
        var stopped, connState, logged, d, dr := AsyncSendIteration(prevConnState, poll.connected, poll.approxSize);
        if stopped {
          break;
        }
        prevConnState := connState;
        connectedLogged, delivered, dropped := connectedLogged + [logged], delivered + d, dropped + dr;
        assert RunState(prevConnState, connectedLogged, eventQueue, stub.calls, delivered, dropped)
            == NextState(before, poll, stub.answers);
        assert polls[i..][1..] == polls[i + 1..];
        i := i + 1;
      }
      if !threadStop {
        assert polls[i..] == [];
      }
    }
  }

  /**
   * Whether poll i of a run starts a connected stretch: it is connected and
   * either it is the first poll (prev_conn_state starts false) or the poll
   * before it was not connected.
   */
  ghost predicate ConnectedEdge(polls: seq<Poll>, i: nat)
    requires i < |polls|
  {
    polls[i].connected && (i == 0 || !polls[i - 1].connected)
  }

  /**
   * What a run of the delivery thread has produced so far: the previous
   * connection state, the "connected" log, the event queue, the RPCs the
   * daemon has received, and the events delivered and dropped.
   */
  datatype RunState = RunState(prevConnState: bool, connectedLog: seq<bool>, queue: seq<HookEvent>,
                               calls: seq<RpcCall>, delivered: seq<HookEvent>, dropped: seq<HookEvent>)

  /** The state of a run before its first iteration. */
  function Started(queue: seq<HookEvent>, calls: seq<RpcCall>): RunState
  {
    RunState(false, [], queue, calls, [], [])
  }

  /**
   * One iteration with the flag down: the connection state becomes the
   * poll's and the edge is logged; a connected poll that sees events
   * bulk-dequeues them and sends one pass.
   */
  function NextState(s: RunState, poll: Poll, answers: Answers): RunState
  {
    var log := s.connectedLog + [!s.prevConnState && poll.connected];
    if !poll.connected || poll.approxSize == 0 then
      s.(prevConnState := poll.connected, connectedLog := log)
    else
      var working := s.queue[..Min(poll.approxSize, |s.queue|)];
      var base := |s.calls|;
      RunState(poll.connected, log,
               s.queue[|working|..] + Requeued(working, answers, base),
               s.calls + DispatchCalls(working, SentCount(working, answers, base)),
               s.delivered + Delivered(working, answers, base),
               s.dropped + Dropped(working, answers, base))
  }

  /** A run of iterations, one per poll. */
  function Run(polls: seq<Poll>, s: RunState, answers: Answers): RunState
    decreases |polls|
  {
    if polls == [] then s else Run(polls[1..], NextState(s, polls[0], answers), answers)
  }

  /** The "connected" log of a run of polls, prev being the connection state before the first one. */
  function ConnectedLog(polls: seq<Poll>, prev: bool): seq<bool>
    decreases |polls|
  {
    if polls == [] then []
    else [!prev && polls[0].connected] + ConnectedLog(polls[1..], polls[0].connected)
  }

  /** A run's log extends with exactly the connected log of its polls. */
  lemma {:induction false} RunLog(polls: seq<Poll>, s: RunState, answers: Answers)
    ensures Run(polls, s, answers).connectedLog == s.connectedLog + ConnectedLog(polls, s.prevConnState)
    decreases |polls|
  {
    if polls != [] {
      var s' := NextState(s, polls[0], answers);
      RunLog(polls[1..], s', answers);
      assert s'.connectedLog + ConnectedLog(polls[1..], s'.prevConnState)
          == s.connectedLog + ConnectedLog(polls, s.prevConnState);
    }
  }

  /** The connection state before poll i of a run, prev being the one before the first poll. */
  function PrevConnState(polls: seq<Poll>, prev: bool, i: nat): bool
    requires i < |polls|
  {
    if i == 0 then prev else polls[i - 1].connected
  }

  /** The log has one entry per poll, and entry i is the edge at poll i. */
  lemma {:induction false} ConnectedLogEdges(polls: seq<Poll>, prev: bool)
    ensures |ConnectedLog(polls, prev)| == |polls|
    ensures forall i | 0 <= i < |polls| ::
      ConnectedLog(polls, prev)[i] == (polls[i].connected && !PrevConnState(polls, prev, i))
    decreases |polls|
  {
    if polls != [] {
      var tail := polls[1..];
      ConnectedLogEdges(tail, polls[0].connected);
      var log := ConnectedLog(polls, prev);
      assert log == [!prev && polls[0].connected] + ConnectedLog(tail, polls[0].connected);
      forall i | 0 <= i < |polls|
        ensures log[i] == (polls[i].connected && !PrevConnState(polls, prev, i))
      {
        if i > 0 {
          assert log[i] == ConnectedLog(tail, polls[0].connected)[i - 1];
          assert tail[i - 1] == polls[i];
          assert PrevConnState(tail, polls[0].connected, i - 1) == PrevConnState(polls, prev, i);
        }
      }
    }
  }

  /**
   * prev_conn_state starts false, so a run logs "connected" at exactly the
   * polls that start a connected stretch.
   */
  lemma RunLogsEdges(polls: seq<Poll>, queue: seq<HookEvent>, calls: seq<RpcCall>, answers: Answers)
    ensures var log := Run(polls, Started(queue, calls), answers).connectedLog;
      && |log| == |polls|
      && forall i | 0 <= i < |polls| :: log[i] == ConnectedEdge(polls, i)
  {
    RunLog(polls, Started(queue, calls), answers);
    ConnectedLogEdges(polls, false);
    var log := Run(polls, Started(queue, calls), answers).connectedLog;
    assert log == ConnectedLog(polls, false);
    forall i | 0 <= i < |polls|
      ensures log[i] == ConnectedEdge(polls, i)
    {
      assert log[i] == (polls[i].connected && !PrevConnState(polls, false, i));
    }
  }

  /**
   * Conservation over a run: the queued events, as a multiset, are at every
   * step those still queued plus those delivered and those dropped.
   */
  lemma {:induction false} RunConserves(polls: seq<Poll>, s: RunState, answers: Answers)
    ensures var r := Run(polls, s, answers);
      multiset(s.queue) + multiset(s.delivered) + multiset(s.dropped)
      == multiset(r.queue) + multiset(r.delivered) + multiset(r.dropped)
    decreases |polls|
  {
    if polls != [] {
      var s' := NextState(s, polls[0], answers);
      if polls[0].connected && polls[0].approxSize > 0 {
        IterationConservation(s.queue, polls[0].approxSize, answers, |s.calls|);
      }
      assert multiset(s.queue) + multiset(s.delivered) + multiset(s.dropped)
          == multiset(s'.queue) + multiset(s'.delivered) + multiset(s'.dropped);
      RunConserves(polls[1..], s', answers);
    }
  }

  /** No event is lost or duplicated by a run: what was queued is what is queued, delivered or dropped. */
  lemma RunConservation(polls: seq<Poll>, queue: seq<HookEvent>, calls: seq<RpcCall>, answers: Answers)
    ensures var r := Run(polls, Started(queue, calls), answers);
      multiset(queue) == multiset(r.queue) + multiset(r.delivered) + multiset(r.dropped)
  {
    RunConserves(polls, Started(queue, calls), answers);
  }

  /** A run only adds RPCs: what the daemon had received before stays, in order, at the front. */
  lemma {:induction false} RunExtendsCalls(polls: seq<Poll>, s: RunState, answers: Answers)
    ensures var r := Run(polls, s, answers);
      |s.calls| <= |r.calls| && r.calls[..|s.calls|] == s.calls
    decreases |polls|
  {
    if polls != [] {
      var s' := NextState(s, polls[0], answers);
      RunExtendsCalls(polls[1..], s', answers);
      var r := Run(polls, s, answers);
      assert s'.calls[..|s.calls|] == s.calls;
      assert r.calls[..|s.calls|] == r.calls[..|s'.calls|][..|s.calls|];
    }
  }

  /** The daemon of the outage scenario: its first RPC finds it unreachable, every later one succeeds. */
  const Outage := Answers([Status(UNAVAILABLE, "")], Status(OK, ""))

  /** The outage daemon's verdict on a one-event pass starting at its first RPC: retry all of it. */
  lemma OutageFirstPass(e: HookEvent)
    ensures SentCount([e], Outage, 0) == 1
    ensures DispatchCalls([e], 1) == [CallFor(e)]
    ensures Requeued([e], Outage, 0) == [e]
    ensures Delivered([e], Outage, 0) == [] && Dropped([e], Outage, 0) == []
  {
    RetrySplit([e], Outage, 0, 0);
  }

  /** The outage daemon's verdict on a one-event pass after its first RPC: deliver it. */
  lemma OutageSecondPass(e: HookEvent)
    ensures SentCount([e], Outage, 1) == 1
    ensures DispatchCalls([e], 1) == [CallFor(e)]
    ensures Requeued([e], Outage, 1) == []
    ensures Delivered([e], Outage, 1) == [e] && Dropped([e], Outage, 1) == []
  {
    AllOkDeliversAll([e], Outage, 1);
  }

  /**
   * A START event for one task survives an outage: the daemon answers the
   * first send UNAVAILABLE and the next one OK. The event is sent on the
   * first connected iteration and put back (queue1, calls1), held while the
   * channel is down (queue2, calls2), and delivered once the channel is
   * back, with its task list intact.
   */
  method OutageScenario(task: TaskInfo)
    returns (queue1: seq<HookEvent>, calls1: seq<RpcCall>, queue2: seq<HookEvent>, calls2: seq<RpcCall>,
             calls: seq<RpcCall>, delivered: seq<HookEvent>, queue: seq<HookEvent>)
    ensures queue1 == [HookEvent(Start, StartHookRequest([task]))]
    ensures calls1 == [RpcCall(StartHook, StartHookRequest([task]))]
    ensures queue2 == queue1 && calls2 == calls1
    ensures calls == [RpcCall(StartHook, StartHookRequest([task])), RpcCall(StartHook, StartHookRequest([task]))]
    ensures delivered == [HookEvent(Start, StartHookRequest([task]))]
    ensures queue == []
  {
    var stub := new PluginStub(Outage);
    var client := new PluginClient(stub);
    client.StartHookAsync([task]);
    var e := HookEvent(Start, StartHookRequest([task]));
    assert client.eventQueue == [e] && [e][..Min(1, 1)] == [e] && [e][1..] == [];
    OutageFirstPass(e);
    OutageSecondPass(e);

    // connected, but the send fails UNAVAILABLE: the event goes back
    var stopped, conn, logged, d, dr := client.AsyncSendIteration(false, true, 1);
    queue1, calls1 := client.eventQueue, stub.calls;

    // the channel is down: nothing is dequeued or sent
    stopped, conn, logged, d, dr := client.AsyncSendIteration(conn, false, 1);
    queue2, calls2 := client.eventQueue, stub.calls;

    // the channel is back and the daemon answers OK
    stopped, conn, logged, d, dr := client.AsyncSendIteration(conn, true, 1);
    calls, delivered, queue := stub.calls, d, client.eventQueue;
  }
}
