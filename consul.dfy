/**
 * What the scheduler exchanges with the Consul agent client. The client
 * itself is not modelled: each call it would make is recorded in a trace,
 * and what the call returns or throws is an input.
 */
module Consul {
  import opened Wrappers

  /** The registration payload of one instance, replayed verbatim on re-registration. */
  datatype NewService = NewService(
    id: string,
    name: string,
    address: string,
    port: int,
    tags: seq<string>,
    meta: map<string, string>)

  /** The client's exception for a request the agent answered with an error status. */
  datatype OperationException = OperationException(statusCode: int, statusMessage: string, statusContent: string)

  /** What a client call may throw: an `OperationException`, or any other runtime exception. */
  datatype Failure =
    | OperationFailure(exception: OperationException)
    | OtherFailure(message: string)

  /** How a client call ends: it returns, or it throws. */
  datatype Response = Returned | Threw(failure: Failure)

  /**
   * One interaction a heartbeat tick has with its collaborators, in order:
   * the two Consul client calls, and `IsEligible`, which is not a client call
   * but the consultation of the scheduler's re-registration predicate.
   */
  datatype Call =
    | AgentCheckPass(checkId: string, note: Option<string>, token: Option<string>)
    | IsEligible(exception: OperationException)
    | AgentServiceRegister(service: NewService, token: Option<string>)
}
