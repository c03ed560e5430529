# Patched Consul TTL scheduler, modelled in Dafny

This project models `PatchTtlScheduler`, the component of the Spring Cloud
Consul discovery patch that keeps Consul TTL health checks alive. For every
registered service instance it runs one repeating heartbeat timer. Each tick
renews the instance's TTL check (`agentCheckPass`). When Consul rejects the
renewal with an `OperationException`, the tick may re-register the instance
from the payload (`NewService`) stored when it was added.

The model has four parts:

- **Heartbeat interval policy** (`heartbeat_interval.dfy`, module `HeartbeatInterval`):
  the period is `ttl * ratio`, raised to at least 1 s, then lowered to at most
  `ttl - 1` s, then rounded to the millisecond.
  The ceiling is applied last, so a TTL of 1 s gives 0 ms.
  Java's `double` is modelled as an exact `real`, and `Math.round` as `floor(x + 0.5)`.
- **Check-id derivation** (`check_ids.dfy`, module `CheckIds`): the check id is the
  instance id with `service:` prepended, unless the id already starts with it.
- **Timer and payload tables** (`scheduling.dfy`, `patch_ttl_scheduler.dfy`): the class
  `PatchTtl.PatchTtlScheduler` holds the two maps `serviceHeartbeats`
  (instance id to timer handle) and `registeredServices` (instance id to payload).
  Its methods `Add`, `AddService` and `Remove` update those maps in place.
  The Spring `TaskScheduler` is the class `Scheduling.TaskScheduler`. It keeps one record per
  handle it hands out: the task, its period, and whether it was cancelled.
  A handle is the position of its record. `ScheduledFuture.cancel` becomes `TaskScheduler.Cancel`.
  The object invariant `Valid()` says four things: every mapped handle is live
  and runs its own instance's task; every live handle is the mapped one; every
  record, live or cancelled, runs `NewHeartbeatTask(serviceId)` (so its check id is
  the one derived from its instance id) at the computed period; every stored payload
  belongs to an instance that has a timer and sits under its own id.
  `Scheduling.AtMostOneLiveHandle` turns this into the count: one live handle for an
  instance that is in the table, none otherwise.
- **Heartbeat tick** (`PatchTtl.PatchTtlScheduler.Run`): the body of
  `ConsulHeartbeatTask.run`. The results of the two client calls are inputs,
  since each call either returns or throws. The method returns how the tick ends
  and the ordered trace of calls it made. Besides the two client calls, the trace
  records each consultation of the re-registration predicate (`IsEligible`), so it
  shows that `&&` short-circuits. Whether that consultation returns the predicate's
  answer or throws is a third input.

`scenarios.dfy` holds client methods built from the contracts alone. They
cover: adding an instance twice, a rejected heartbeat that re-registers, a
tick after `remove`, and a tick with re-registration disabled.
They pass `PatchTtl.AlwaysEligible`, the counterpart of `AlwaysReregistrationPredicate`,
as the re-registration predicate.

Java's two `add` overloads are `Add(instanceId)` and `AddService(service)`.
Three behaviours of the code are easy to misread, and the model follows the code in each:

- `agentServiceRegister` is called inside the `catch` block, so an exception it
  throws leaves `run` (`Raised(failure)` in the model); it is not swallowed.
- Only `OperationException` is caught. Any other exception from `agentCheckPass`
  (`OtherFailure`) leaves `run` unchanged.
- For a TTL of at most 1 s the interval is `(ttl - 1) * 1000` ms: 0 ms, or less.

## Model

| member | source | states |
|---|---|---|
| `HeartbeatInterval.Round` | src/main/java/com/github/hetianyi/spring/cloud/consul/patch/PatchTtlScheduler.java:162 | `Math.round` gives the integer within half a unit of its argument, halves going up |
| `HeartbeatInterval.ComputeHeartbeatIntervalMs` | src/main/java/com/github/hetianyi/spring/cloud/consul/patch/PatchTtlScheduler.java:155-165 | for every TTL and ratio the interval is at most `(ttl-1)*1000` ms; with `ttl >= 2` it is at least 1000 ms (the ceiling wins over the floor) |
| `HeartbeatInterval.IntervalRegimes` | src/main/java/com/github/hetianyi/spring/cloud/consul/patch/PatchTtlScheduler.java:158-162 | exact value in every regime: `(ttl-1)*1000` when `ttl*ratio > ttl-1` or `ttl <= 1`; `round(1000*ttl*ratio)` when `1 <= ttl*ratio <= ttl-1`; 1000 when `ttl >= 2` and `ttl*ratio < 1` |
| `HeartbeatInterval.IntervalExamples` | src/main/java/com/github/hetianyi/spring/cloud/consul/patch/PatchTtlScheduler.java:158-162 | (10, 0.5) gives 5000 ms, (5, 0.9) gives 4000, (2, 0.5) gives 1000, and TTL 1 gives 0 for any ratio |
| `CheckIds.CheckId` | src/main/java/com/github/hetianyi/spring/cloud/consul/patch/PatchTtlScheduler.java:113-117 | the check id starts with `service:`, ends with the instance id, and is at most the prefix longer |
| `CheckIds.CheckIdCases` | src/main/java/com/github/hetianyi/spring/cloud/consul/patch/PatchTtlScheduler.java:113-117 | an id that has the prefix is its own check id; any other id gets `service:` prepended |
| `CheckIds.CheckIdIdempotent` | src/main/java/com/github/hetianyi/spring/cloud/consul/patch/PatchTtlScheduler.java:113-117 | deriving a check id from a check id leaves it unchanged |
| `CheckIds.SameCheckId` | src/main/java/com/github/hetianyi/spring/cloud/consul/patch/PatchTtlScheduler.java:113-117 | two instance ids share a check exactly when they are equal, or one is the other with the prefix added to an id that lacked it |
| `CheckIds.CheckIdExamples` | src/main/java/com/github/hetianyi/spring/cloud/consul/patch/PatchTtlScheduler.java:113-117 | `abc-1` gives `service:abc-1`; `service:abc-1` is kept unchanged |
| `Scheduling.NewHeartbeatTask` | src/main/java/com/github/hetianyi/spring/cloud/consul/patch/PatchTtlScheduler.java:111-119 | a task is bound to its instance id, and its check id carries the prefix |
| `Scheduling.TaskScheduler.ScheduleAtFixedRate` | src/main/java/com/github/hetianyi/spring/cloud/consul/patch/PatchTtlScheduler.java:86-87 | hands out a fresh handle whose record is live and holds the task and its period; earlier records are unchanged |
| `Scheduling.TaskScheduler.Cancel` | src/main/java/com/github/hetianyi/spring/cloud/consul/patch/PatchTtlScheduler.java:90 | marks exactly that handle cancelled |
| `Scheduling.AtMostOneLiveHandle` | src/main/java/com/github/hetianyi/spring/cloud/consul/patch/PatchTtlScheduler.java:85-101 | under the table invariant an instance has exactly one live handle if it is in the timer map, and none otherwise |
| `Scheduling.AddKeepsInvariant` | src/main/java/com/github/hetianyi/spring/cloud/consul/patch/PatchTtlScheduler.java:85-92 | scheduling a fresh handle, installing it and cancelling the displaced one keeps the table invariant |
| `Scheduling.RemoveKeepsInvariant` | src/main/java/com/github/hetianyi/spring/cloud/consul/patch/PatchTtlScheduler.java:94-101 | cancelling the mapped handle and dropping the entry keeps the table invariant |
| `Scheduling.LiveCountsAgree` | src/main/java/com/github/hetianyi/spring/cloud/consul/patch/PatchTtlScheduler.java:85-101 | an operation on one id leaves every other id's live count unchanged; that id has one live handle exactly when it stays in the table |
| `PatchTtl.PatchTtlScheduler.constructor` | src/main/java/com/github/hetianyi/spring/cloud/consul/patch/PatchTtlScheduler.java:48-73 | the configuration is kept; both maps and the owned task scheduler start empty; the invariant holds |
| `PatchTtl.PatchTtlScheduler.Add` | src/main/java/com/github/hetianyi/spring/cloud/consul/patch/PatchTtlScheduler.java:85-92 | the id maps to a fresh live handle with the computed period and a task whose check id is derived from the id; the previous handle is cancelled; other ids and the payload map are unchanged; the id has exactly one live timer |
| `PatchTtl.PatchTtlScheduler.AddService` | src/main/java/com/github/hetianyi/spring/cloud/consul/patch/PatchTtlScheduler.java:75-78 | as `Add(service.id)`, and the exact payload is stored under `service.id`, replacing any earlier one |
| `PatchTtl.PatchTtlScheduler.Remove` | src/main/java/com/github/hetianyi/spring/cloud/consul/patch/PatchTtlScheduler.java:94-101 | the mapped handle, if any, is cancelled; the id leaves both maps; an unknown id changes nothing; other ids are untouched; the id has no live timer |
| `PatchTtl.PatchTtlScheduler.Run` | src/main/java/com/github/hetianyi/spring/cloud/consul/patch/PatchTtlScheduler.java:122-150 | the first call is always `agentCheckPass(checkId, null, token)`. On success nothing else happens. A non-`OperationException` is raised. An `OperationException` is raised when re-registration is disabled, and then the predicate is not consulted, or when the predicate rejects it. If asking the predicate throws, that exception is raised instead. Otherwise the stored payload is re-registered with the token, or "not found" when none is stored. A register call only ever replays the stored payload |
| `PatchTtlScenarios.ReAddLeavesOneLiveTimer` | src/main/java/com/github/hetianyi/spring/cloud/consul/patch/PatchTtlScheduler.java:85-92 | adding an id twice leaves one live timer, and the first timer is cancelled |
| `PatchTtlScenarios.RejectedHeartbeatReregisters` | src/main/java/com/github/hetianyi/spring/cloud/consul/patch/PatchTtlScheduler.java:132-145 | after `add(service)`, an eligible rejection re-registers exactly that payload with the token, and raises nothing |
| `PatchTtlScenarios.TickAfterRemoveFindsNoTarget` | src/main/java/com/github/hetianyi/spring/cloud/consul/patch/PatchTtlScheduler.java:136-144 | after `add(service)` then `remove`, a rejected tick takes the "not found" path and registers nothing |
| `PatchTtlScenarios.DisabledReregistrationRaises` | src/main/java/com/github/hetianyi/spring/cloud/consul/patch/PatchTtlScheduler.java:133-148 | with re-registration disabled, the rejection is rethrown after one check-pass call |

## Left out

- Concurrency is left out: `ConcurrentHashMap` atomicity, the single-threaded executor, and interruption by `cancel(true)`. Every operation is treated as atomic and sequential. This also hides two windows: the non-atomic get-then-remove in `remove`, and the moment in `add(NewService)` when the timer exists but the payload is not yet stored.
- The Consul client is not modelled. `agentCheckPass` and `agentServiceRegister` appear only as entries in the call trace. What they return or throw is an input to `Run`, and the value `agentServiceRegister` returns is ignored, as in the source.
- The executor's own behaviour is not modelled: when the first tick fires, whether ticks continue after a tick throws, and its rejection of a non-positive period (which a TTL of 1 s produces). It is library code of Spring and the JDK. The model's facility accepts any period and only records it.
- `HeartbeatInterval.ComputeHeartbeatIntervalMs` uses exact reals, not IEEE doubles, and does not model `Math.round` saturating at 64 bits. `Duration.getSeconds()` becomes an integer TTL input.
- Logging is left out, and so is the superclass `TtlScheduler`, whose constructor is not part of this model.
- Null is not modelled. `NewService.id` and the instance id are always strings; in Java a null id fails with a `NullPointerException`: on the `add` paths in `startsWith` (line 113), and in `remove` already in `ConcurrentHashMap.get` (line 95). The ACL token and the note of `agentCheckPass` are `Option`s, and the note is always `None`.
- The configuration is frozen at construction. `HeartbeatProperties` and `DiscoveryProperties` are values held in `const` fields, read once. Java holds references to the two property beans (lines 52-54, 69-70) and reads them again on every call: the TTL and ratio on each `add` (lines 158, 160), the re-registration flag on each tick (line 133), and the ACL token on each check-pass and register call (lines 127, 142). If the beans changed, timers with different periods could coexist and later ticks would use the new flag and token. The model, and the one-period clause of its table invariant, do not cover that.
- The re-registration predicate is a pure function of the exception, plus an input saying whether asking it throws. Any other effect a pluggable predicate might have is not modelled.
- `NewService` is a value. Java stores the caller's mutable object at line 77 and sends that same object at line 141, so changes the caller makes after `add` would be re-registered. The model replays the payload exactly as it was at `add` time.
- Thrown exceptions travel as values: only `OperationException`'s status code, message and content are kept, and the predicate sees that value.
- `NewService` keeps id, name, address, port, tags and metadata; the check definition and other fields are not modelled, since the scheduler only stores and replays the payload.
- `PatchAutoConfiguration.java` is Spring bean wiring and is not part of this model.
