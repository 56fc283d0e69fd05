/**
 * Hook events of the plugin client: the typed request payloads the scheduler
 * hands to the plugin daemon, the event record that carries one of them
 * through the event queue, and the gRPC status an RPC returns.
 */
module Hooks {

  /** task_id_t: an unsigned 32-bit task id. */
  type TaskId = x: int | 0 <= x < 0x1_0000_0000

  /**
   * The part of a task record (crane.grpc.TaskInfo) the producers touch:
   * its id, its start time and its elapsed time, both in Unix seconds.
   */
  datatype TaskInfo = TaskInfo(taskId: TaskId, startTime: int, elapsedTime: int)

  /** The three kinds of hook event. */
  datatype HookType = Start | End | JobMonitor

  /** The request message of each hook RPC. */
  datatype HookRequest =
    | StartHookRequest(taskInfoList: seq<TaskInfo>)
    | EndHookRequest(taskInfoList: seq<TaskInfo>)
    | JobMonitorHookRequest(taskId: TaskId, cgroup: string)

  /** The hook type a request message belongs to (its dynamic type). */
  function RequestType(msg: HookRequest): HookType
  {
    match msg
    case StartHookRequest(_) => Start
    case EndHookRequest(_) => End
    case JobMonitorHookRequest(_, _) => JobMonitor
  }

  /** One queued event: a type tag and the payload it owns. */
  datatype HookEvent = HookEvent(hookType: HookType, msg: HookRequest)
  {
    /** The tag agrees with the payload's dynamic type. */
    predicate WellTyped()
    {
      hookType == RequestType(msg)
    }
  }

  /** A gRPC status code, 0 (OK) to 16 (UNAUTHENTICATED). */
  type StatusCode = c: int | 0 <= c <= 16

  const OK: StatusCode := 0
  const UNAVAILABLE: StatusCode := 14

  /** grpc::Status: an error code and an error message. */
  datatype Status = Status(errorCode: StatusCode, errorMessage: string)
  {
    predicate IsOk()
    {
      errorCode == OK
    }

    /** The one failure the delivery loop treats as transient. */
    predicate IsUnavailable()
    {
      errorCode == UNAVAILABLE
    }
  }

  /** The unary RPCs of the plugin daemon's service. */
  datatype Rpc = StartHook | EndHook | JobMonitorHook

  /** One RPC as the daemon receives it. */
  datatype RpcCall = RpcCall(rpc: Rpc, request: HookRequest)

  /**
   * How the plugin daemon answers the RPCs it receives, numbered from 0:
   * the first |first| of them get the statuses of first, in order, and
   * every later one gets afterwards.
   */
  datatype Answers = Answers(first: seq<Status>, afterwards: Status)
  {
    function At(n: nat): Status
    {
      if n < |first| then first[n] else afterwards
    }
  }
}
