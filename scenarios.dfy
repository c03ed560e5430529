/**
 * Client-side scenarios: what a caller of the scheduler can conclude from
 * the contracts alone, for the situations the scheduler exists to handle.
 */
module PatchTtlScenarios {
  import opened Wrappers
  import opened CheckIds
  import opened Consul
  import opened Scheduling
  import opened PatchTtl

  /** Adding the same instance twice leaves one live timer, and the first one cancelled. */
  method ReAddLeavesOneLiveTimer(heartbeatProperties: HeartbeatProperties, instanceId: string)
    returns (live: nat, firstCancelled: bool)
    ensures live == 1 && firstCancelled
  {
    var s := new PatchTtlScheduler(heartbeatProperties, DiscoveryProperties(None), AlwaysEligible);
    s.Add(instanceId);
    var first := s.serviceHeartbeats[instanceId];
    s.Add(instanceId);
    live := LiveCount(s.scheduler.tasks, instanceId);
    firstCancelled := s.scheduler.tasks[first].cancelled;
  }

  /** A rejected heartbeat of a registered instance replays its payload once and raises nothing. */
  method RejectedHeartbeatReregisters(ttlSeconds: int, intervalRatio: real, token: Option<string>,
                                      service: NewService, e: OperationException)
    returns (outcome: TickOutcome, calls: seq<Call>)
    ensures outcome == Reregistered(service)
    ensures calls == [AgentCheckPass(CheckId(service.id), None, token), IsEligible(e), AgentServiceRegister(service, token)]
  {
    var s := new PatchTtlScheduler(HeartbeatProperties(ttlSeconds, intervalRatio, true), DiscoveryProperties(token),
                                   AlwaysEligible);
    s.AddService(service);
    outcome, calls := s.Run(NewHeartbeatTask(service.id), Threw(OperationFailure(e)), Returned, Returned);
  }

  /** After `remove`, a tick that still fired finds no payload to re-register. */
  method TickAfterRemoveFindsNoTarget(ttlSeconds: int, intervalRatio: real, service: NewService, e: OperationException)
    returns (outcome: TickOutcome, calls: seq<Call>)
    ensures outcome == ReregistrationTargetNotFound
    ensures forall k | 0 <= k < |calls| :: !calls[k].AgentServiceRegister?
  {
    var s := new PatchTtlScheduler(HeartbeatProperties(ttlSeconds, intervalRatio, true), DiscoveryProperties(None),
                                   AlwaysEligible);
    s.AddService(service);
    s.Remove(service.id);
    outcome, calls := s.Run(NewHeartbeatTask(service.id), Threw(OperationFailure(e)), Returned, Returned);
  }

  /** With re-registration disabled the rejection is raised and the predicate is never asked. */
  method DisabledReregistrationRaises(ttlSeconds: int, intervalRatio: real, token: Option<string>,
                                      service: NewService, e: OperationException)
    returns (outcome: TickOutcome, calls: seq<Call>)
    ensures outcome == Raised(OperationFailure(e))
    ensures calls == [AgentCheckPass(CheckId(service.id), None, token)]
  {
    var s := new PatchTtlScheduler(HeartbeatProperties(ttlSeconds, intervalRatio, false), DiscoveryProperties(token),
                                   AlwaysEligible);
    s.AddService(service);
    outcome, calls := s.Run(NewHeartbeatTask(service.id), Threw(OperationFailure(e)), Returned, Returned);
  }
}
