/**
 * The dispatch table: one send entry per hook type, selected by the
 * numeric value of the event's type tag.
 */
module Dispatch {
  import opened Hooks

  /** The send entries (member functions) stored in the table. */
  datatype HookDispatchFunc = SendStartHookFn | SendEndHookFn | SendJobMonitorHookFn

  /** size_t(e.type): the enumerator value of a hook type. */
  function TypeIndex(t: HookType): (i: nat)
    ensures i < |HookDispatchFuncs|
  {
    match t
    case Start => 0
    case End => 1
    case JobMonitor => 2
  }

  /** s_hook_dispatch_funcs_, indexed by TypeIndex. */
  const HookDispatchFuncs: seq<HookDispatchFunc> := [SendStartHookFn, SendEndHookFn, SendJobMonitorHookFn]

  /** The request type an entry casts its payload to. */
  function AcceptedType(f: HookDispatchFunc): HookType
  {
    match f
    case SendStartHookFn => Start
    case SendEndHookFn => End
    case SendJobMonitorHookFn => JobMonitor
  }

  /** The stub RPC an entry issues. */
  function RpcOf(f: HookDispatchFunc): Rpc
  {
    match f
    case SendStartHookFn => StartHook
    case SendEndHookFn => EndHook
    case SendJobMonitorHookFn => JobMonitorHook
  }

  /** The table lookup: the entry selected for type t accepts exactly t. */
  function Lookup(t: HookType): (f: HookDispatchFunc)
    ensures AcceptedType(f) == t
    ensures forall g: HookDispatchFunc :: AcceptedType(g) == t ==> g == f
  {
    HookDispatchFuncs[TypeIndex(t)]
  }

  /** The RPC the daemon receives when event e is dispatched. */
  function CallFor(e: HookEvent): RpcCall
  {
    RpcCall(RpcOf(Lookup(e.hookType)), e.msg)
  }

  /**
   * No cross-type corruption: dispatching a well-typed event issues the RPC
   * of its payload's own type, carrying that payload unchanged, and two
   * events issue the same RPC exactly when they have the same type.
   */
  lemma DispatchFollowsType(e: HookEvent, e': HookEvent)
    requires e.WellTyped() && e'.WellTyped()
    ensures AcceptedType(Lookup(e.hookType)) == RequestType(CallFor(e).request)
    ensures CallFor(e).request == e.msg
    ensures CallFor(e).rpc == CallFor(e').rpc <==> e.hookType == e'.hookType
  {
  }
}
