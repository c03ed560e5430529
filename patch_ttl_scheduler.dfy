/**
 * The patched TTL scheduler: one repeating heartbeat timer per registered
 * instance, the registration payloads kept for re-registration, and the
 * decision a heartbeat tick takes when Consul rejects the heartbeat.
 */
module PatchTtl {
  import opened Wrappers
  import opened HeartbeatInterval
  import opened CheckIds
  import opened Consul
  import opened Scheduling

  /** The heartbeat settings the scheduler reads; the TTL is in whole seconds. */
  datatype HeartbeatProperties = HeartbeatProperties(ttlSeconds: int, intervalRatio: real, reregisterServiceOnFailure: bool)

  /** The discovery settings the scheduler reads: the ACL token, possibly absent. */
  datatype DiscoveryProperties = DiscoveryProperties(aclToken: Option<string>)

  /** The re-registration predicate that accepts every failure. */
  function AlwaysEligible(e: OperationException): bool
  {
    true
  }

  /** How one heartbeat tick ends. */
  datatype TickOutcome =
    | HeartbeatSent
    | Reregistered(service: NewService)
    | ReregistrationTargetNotFound
    | Raised(failure: Failure)

  class PatchTtlScheduler {
    /** Instance id to the handle of its heartbeat timer. */
    var serviceHeartbeats: map<string, Handle>
    /** Instance id to the payload it was registered with. */
    var registeredServices: map<string, NewService>
    const scheduler: TaskScheduler
    const heartbeatProperties: HeartbeatProperties
    const discoveryProperties: DiscoveryProperties
    const reregistrationPredicate: OperationException -> bool

    /** The period every timer of this scheduler runs at. */
    function HeartbeatIntervalMs(): int
    {
      ComputeHeartbeatIntervalMs(heartbeatProperties.ttlSeconds, heartbeatProperties.intervalRatio)
    }

    /**
     * The timer table agrees with the facility (see `TableInvariant`); a
     * payload is kept only for an instance that has a timer, under its own id.
     */
    ghost predicate Valid()
      reads this, scheduler
    {
      TableInvariant(scheduler.tasks, serviceHeartbeats, HeartbeatIntervalMs())
      && registeredServices.Keys <= serviceHeartbeats.Keys
      && (forall id | id in registeredServices :: registeredServices[id].id == id)
    }

    constructor (heartbeatProperties: HeartbeatProperties, discoveryProperties: DiscoveryProperties,
                 reregistrationPredicate: OperationException -> bool)
      ensures Valid() && fresh(scheduler)
      ensures this.heartbeatProperties == heartbeatProperties
      ensures this.discoveryProperties == discoveryProperties
      ensures this.reregistrationPredicate == reregistrationPredicate
      ensures serviceHeartbeats == map[] && registeredServices == map[] && scheduler.tasks == []
    {
      this.heartbeatProperties := heartbeatProperties;
      this.discoveryProperties := discoveryProperties;
      this.reregistrationPredicate := reregistrationPredicate;
      serviceHeartbeats := map[];
      registeredServices := map[];
      scheduler := new TaskScheduler();
    }

    /**
     * Starts a fresh timer for `instanceId` at the computed interval and
     * installs it, cancelling the timer it displaces.
     */
    method Add(instanceId: string)
      requires Valid()
      modifies this, scheduler
      ensures Valid()
      ensures registeredServices == old(registeredServices)
      ensures serviceHeartbeats == old(serviceHeartbeats)[instanceId := |old(scheduler.tasks)|]
      ensures scheduler.tasks == AddedTasks(old(scheduler.tasks), old(serviceHeartbeats), HeartbeatIntervalMs(), instanceId)
      ensures LiveCount(scheduler.tasks, instanceId) == 1
      ensures forall id | id != instanceId :: LiveCount(scheduler.tasks, id) == LiveCount(old(scheduler.tasks), id)
    {
      AddKeepsInvariant(scheduler.tasks, serviceHeartbeats, HeartbeatIntervalMs(), instanceId);
      if instanceId in serviceHeartbeats {
        assert EntryOk(scheduler.tasks, serviceHeartbeats, instanceId);
      }
      var task := scheduler.ScheduleAtFixedRate(NewHeartbeatTask(instanceId), HeartbeatIntervalMs());
      var previousTask := if instanceId in serviceHeartbeats then Some(serviceHeartbeats[instanceId]) else None;
      serviceHeartbeats := serviceHeartbeats[instanceId := task];
      if previousTask.Some? {
        CancelBeforeAppend(old(scheduler.tasks), previousTask.value,
                           ScheduledTask(NewHeartbeatTask(instanceId), HeartbeatIntervalMs(), false));
        scheduler.Cancel(previousTask.value);
      }
      LiveCountsAgree(old(scheduler.tasks), old(serviceHeartbeats), scheduler.tasks, serviceHeartbeats,
                      HeartbeatIntervalMs(), instanceId);
    }

    /** Stores `service` under its id and starts its timer, replacing both the payload and the timer. */
    method AddService(service: NewService)
      requires Valid()
      modifies this, scheduler
      ensures Valid()
      ensures registeredServices == old(registeredServices)[service.id := service]
      ensures serviceHeartbeats == old(serviceHeartbeats)[service.id := |old(scheduler.tasks)|]
      ensures scheduler.tasks == AddedTasks(old(scheduler.tasks), old(serviceHeartbeats), HeartbeatIntervalMs(), service.id)
      ensures LiveCount(scheduler.tasks, service.id) == 1
      ensures forall id | id != service.id :: LiveCount(scheduler.tasks, id) == LiveCount(old(scheduler.tasks), id)
    {
      Add(service.id);
      registeredServices := registeredServices[service.id := service];
    }

    /** Cancels the timer of `instanceId`, if any, and forgets both its timer and its payload. */
    method Remove(instanceId: string)
      requires Valid()
      modifies this, scheduler
      ensures Valid()
      ensures serviceHeartbeats == old(serviceHeartbeats) - {instanceId}
      ensures registeredServices == old(registeredServices) - {instanceId}
      ensures scheduler.tasks == CancelMapped(old(scheduler.tasks), old(serviceHeartbeats), instanceId)
      ensures instanceId !in old(serviceHeartbeats) ==>
                serviceHeartbeats == old(serviceHeartbeats) && registeredServices == old(registeredServices)
                && scheduler.tasks == old(scheduler.tasks)
      ensures LiveCount(scheduler.tasks, instanceId) == 0
      ensures forall id | id != instanceId :: LiveCount(scheduler.tasks, id) == LiveCount(old(scheduler.tasks), id)
    {
      ghost var tasks0, heartbeats0 := scheduler.tasks, serviceHeartbeats;
      RemoveKeepsInvariant(tasks0, heartbeats0, HeartbeatIntervalMs(), instanceId);
      if instanceId in serviceHeartbeats {
        assert EntryOk(scheduler.tasks, serviceHeartbeats, instanceId);
        scheduler.Cancel(serviceHeartbeats[instanceId]);
      } else {
        assert serviceHeartbeats - {instanceId} == serviceHeartbeats;
        assert registeredServices - {instanceId} == registeredServices;
      }
      assert scheduler.tasks == CancelMapped(tasks0, heartbeats0, instanceId);
      serviceHeartbeats := serviceHeartbeats - {instanceId};
      registeredServices := registeredServices - {instanceId};
      LiveCountsAgree(tasks0, heartbeats0, scheduler.tasks, serviceHeartbeats, HeartbeatIntervalMs(), instanceId);
    }

    /**
     * One tick of the heartbeat task `task`: renew its check; if the client
     * throws an `OperationException` and re-registration applies, replay the
     * stored payload. `checkPass` and `register` are what the two client
     * calls do; `eligibility` is whether asking the predicate returns its
     * answer or throws; `calls` is the sequence of calls the tick makes.
     */
    method Run(task: HeartbeatTask, checkPass: Response, eligibility: Response, register: Response)
      returns (outcome: TickOutcome, calls: seq<Call>)
      ensures |calls| >= 1 && calls[0] == AgentCheckPass(task.checkId, None, discoveryProperties.aclToken)
      ensures checkPass.Returned? ==> calls == [calls[0]] && outcome == HeartbeatSent
      ensures checkPass.Threw? && checkPass.failure.OtherFailure? ==>
                calls == [calls[0]] && outcome == Raised(checkPass.failure)
      ensures checkPass.Threw? && checkPass.failure.OperationFailure? ==>
                var e := checkPass.failure.exception;
                var enabled := heartbeatProperties.reregisterServiceOnFailure;
                var token := discoveryProperties.aclToken;
                (!enabled ==> calls == [calls[0]] && outcome == Raised(checkPass.failure))
                && (enabled && eligibility.Threw? ==>
                      calls == [calls[0], IsEligible(e)] && outcome == Raised(eligibility.failure))
                && (enabled && eligibility.Returned? && !reregistrationPredicate(e) ==>
                      calls == [calls[0], IsEligible(e)] && outcome == Raised(checkPass.failure))
                && (enabled && eligibility.Returned? && reregistrationPredicate(e) && task.serviceId !in registeredServices ==>
                      calls == [calls[0], IsEligible(e)] && outcome == ReregistrationTargetNotFound)
                && (enabled && eligibility.Returned? && reregistrationPredicate(e) && task.serviceId in registeredServices ==>
                      calls == [calls[0], IsEligible(e), AgentServiceRegister(registeredServices[task.serviceId], token)]
                      && outcome == if register.Threw? then Raised(register.failure)
                                    else Reregistered(registeredServices[task.serviceId]))
      ensures forall k | 0 <= k < |calls| && calls[k].AgentServiceRegister? ::
                checkPass.Threw? && task.serviceId in registeredServices
                && calls[k] == AgentServiceRegister(registeredServices[task.serviceId], discoveryProperties.aclToken)
    {
      var token := discoveryProperties.aclToken;
      calls := [AgentCheckPass(task.checkId, None, token)];
      match checkPass
      case Returned =>
        outcome := HeartbeatSent;
      case Threw(OtherFailure(_)) =>
        outcome := Raised(checkPass.failure);
      case Threw(OperationFailure(e)) =>
        var eligible := false;
        if heartbeatProperties.reregisterServiceOnFailure {
          calls := calls + [IsEligible(e)];
          if eligibility.Threw? {
            outcome := Raised(eligibility.failure);
            return;
          }
          eligible := reregistrationPredicate(e);
        }
        if eligible {
          if task.serviceId in registeredServices {
            var registeredService := registeredServices[task.serviceId];
            calls := calls + [AgentServiceRegister(registeredService, token)];
            outcome := if register.Threw? then Raised(register.failure) else Reregistered(registeredService);
          } else {
            outcome := ReregistrationTargetNotFound;
          }
        } else {
          outcome := Raised(checkPass.failure);
        }
    }
  }
}
