/**
 * The periodic-execution facility the scheduler drives, abstracted as a
 * generator of fresh handles that records, per handle, the task, its period
 * and whether it has been cancelled. A handle is the position of its record.
 */
module Scheduling {
  import opened CheckIds

  type Handle = nat

  /** A heartbeat task: the instance it renews and the check id derived once, at construction. */
  datatype HeartbeatTask = HeartbeatTask(serviceId: string, checkId: string)

  /** The task the scheduler builds for an instance id. */
  function NewHeartbeatTask(serviceId: string): (t: HeartbeatTask)
    ensures t.serviceId == serviceId
    ensures ServicePrefix <= t.checkId
    ensures ServicePrefix <= serviceId ==> t.checkId == serviceId
  {
    HeartbeatTask(serviceId, CheckId(serviceId))
  }

  datatype ScheduledTask = ScheduledTask(task: HeartbeatTask, periodMs: int, cancelled: bool)

  /** The records with the one at `h` marked cancelled. */
  function CancelAt(tasks: seq<ScheduledTask>, h: Handle): (r: seq<ScheduledTask>)
    requires h < |tasks|
    ensures |r| == |tasks| && r[h].cancelled && r[h].task == tasks[h].task
    ensures forall k | 0 <= k < |tasks| && k != h :: r[k] == tasks[k]
  {
    tasks[h := tasks[h].(cancelled := true)]
  }

  /** The records after cancelling the handle mapped for `id`, if there is one. */
  function CancelMapped(tasks: seq<ScheduledTask>, heartbeats: map<string, Handle>, id: string): (r: seq<ScheduledTask>)
    ensures |r| == |tasks|
  {
    if id in heartbeats && heartbeats[id] < |tasks| then CancelAt(tasks, heartbeats[id]) else tasks
  }

  /** How many handles are still live (not cancelled) for the instance `id`. */
  function LiveCount(tasks: seq<ScheduledTask>, id: string): nat
  {
    if tasks == [] then 0
    else
      var last := tasks[|tasks| - 1];
      LiveCount(tasks[..|tasks| - 1], id) + (if !last.cancelled && last.task.serviceId == id then 1 else 0)
  }

  /** The handle mapped for `id` exists, is live and runs `id`'s task. */
  ghost predicate EntryOk(tasks: seq<ScheduledTask>, heartbeats: map<string, Handle>, id: string)
    requires id in heartbeats
  {
    heartbeats[id] < |tasks| && tasks[heartbeats[id]].task.serviceId == id && !tasks[heartbeats[id]].cancelled
  }

  /**
   * Handle `h` runs the task derived for its instance at `periodMs`, and if
   * it is live it is the handle mapped for that instance.
   */
  ghost predicate SlotOk(tasks: seq<ScheduledTask>, heartbeats: map<string, Handle>, periodMs: int, h: int)
    requires 0 <= h < |tasks|
  {
    var t := tasks[h];
    t.task == NewHeartbeatTask(t.task.serviceId) && t.periodMs == periodMs
    && (!t.cancelled ==> t.task.serviceId in heartbeats && heartbeats[t.task.serviceId] == h)
  }

  /**
   * The timer table `heartbeats` (instance id to handle) agrees with the
   * facility's records: every entry is `EntryOk`, every record `SlotOk`.
   * The triggers keep the two halves from feeding each other.
   */
  ghost predicate TableInvariant(tasks: seq<ScheduledTask>, heartbeats: map<string, Handle>, periodMs: int)
  {
    (forall id {:trigger EntryOk(tasks, heartbeats, id)} | id in heartbeats :: EntryOk(tasks, heartbeats, id))
    && (forall h {:trigger SlotOk(tasks, heartbeats, periodMs, h)} | 0 <= h < |tasks| ::
          SlotOk(tasks, heartbeats, periodMs, h))
  }

  /** Counting live handles over a prefix of the records. */
  lemma {:induction false} LiveCountPrefix(tasks: seq<ScheduledTask>, heartbeats: map<string, Handle>, periodMs: int,
                                           id: string, n: nat)
    requires TableInvariant(tasks, heartbeats, periodMs)
    requires n <= |tasks|
    ensures LiveCount(tasks[..n], id) == if id in heartbeats && heartbeats[id] < n then 1 else 0
  {
    if n > 0 {
      LiveCountPrefix(tasks, heartbeats, periodMs, id, n - 1);
      assert tasks[..n][..n - 1] == tasks[..n - 1];
      assert tasks[..n][n - 1] == tasks[n - 1];
      assert SlotOk(tasks, heartbeats, periodMs, n - 1);
      if id in heartbeats {
        assert EntryOk(tasks, heartbeats, id);
      }
    }
  }

  /** Under the table invariant an instance has one live handle if it is in the table, and none otherwise. */
  lemma AtMostOneLiveHandle(tasks: seq<ScheduledTask>, heartbeats: map<string, Handle>, periodMs: int, id: string)
    requires TableInvariant(tasks, heartbeats, periodMs)
    ensures LiveCount(tasks, id) == if id in heartbeats then 1 else 0
  {
    LiveCountPrefix(tasks, heartbeats, periodMs, id, |tasks|);
    assert tasks[..|tasks|] == tasks;
    if id in heartbeats {
      assert EntryOk(tasks, heartbeats, id);
    }
  }

  /** Cancelling an earlier handle commutes with appending a record. */
  lemma CancelBeforeAppend(tasks: seq<ScheduledTask>, h: Handle, t: ScheduledTask)
    requires h < |tasks|
    ensures CancelAt(tasks + [t], h) == CancelAt(tasks, h) + [t]
  {
  }

  /** The records after `add(id)`: the displaced handle cancelled, a fresh live handle appended. */
  function AddedTasks(tasks: seq<ScheduledTask>, heartbeats: map<string, Handle>, periodMs: int, id: string)
    : (r: seq<ScheduledTask>)
    ensures |r| == |tasks| + 1
    ensures r[|tasks|] == ScheduledTask(NewHeartbeatTask(id), periodMs, false)
  {
    CancelMapped(tasks, heartbeats, id) + [ScheduledTask(NewHeartbeatTask(id), periodMs, false)]
  }

  /** Installing a fresh handle for `id` and cancelling the displaced one keeps the table invariant. */
  lemma AddKeepsInvariant(tasks: seq<ScheduledTask>, heartbeats: map<string, Handle>, periodMs: int, id: string)
    requires TableInvariant(tasks, heartbeats, periodMs)
    ensures TableInvariant(AddedTasks(tasks, heartbeats, periodMs, id), heartbeats[id := |tasks|], periodMs)
  {
    var cancelled := CancelMapped(tasks, heartbeats, id);
    var added := ScheduledTask(NewHeartbeatTask(id), periodMs, false);
    var after := AddedTasks(tasks, heartbeats, periodMs, id);
    var table := heartbeats[id := |tasks|];
    assert after == cancelled + [added];
    var mapped := id in heartbeats;
    if mapped {
      assert EntryOk(tasks, heartbeats, id);
    }
    forall x | x in table
      ensures EntryOk(after, table, x)
    {
      if x != id {
        assert EntryOk(tasks, heartbeats, x);
        assert after[heartbeats[x]] == tasks[heartbeats[x]];
      }
    }
    forall h | 0 <= h < |after|
      ensures SlotOk(after, table, periodMs, h)
    {
      if h == |tasks| {
        assert after[h] == added;
      } else if mapped && h == heartbeats[id] {
        assert SlotOk(tasks, heartbeats, periodMs, h);
        assert after[h] == tasks[h].(cancelled := true);
      } else {
        assert SlotOk(tasks, heartbeats, periodMs, h);
        assert after[h] == tasks[h];
      }
    }
  }

  /** Cancelling the handle of `id` and dropping its entry keeps the table invariant. */
  lemma RemoveKeepsInvariant(tasks: seq<ScheduledTask>, heartbeats: map<string, Handle>, periodMs: int, id: string)
    requires TableInvariant(tasks, heartbeats, periodMs)
    ensures TableInvariant(CancelMapped(tasks, heartbeats, id), heartbeats - {id}, periodMs)
  {
    var after := CancelMapped(tasks, heartbeats, id);
    var table := heartbeats - {id};
    if id in heartbeats {
      assert EntryOk(tasks, heartbeats, id);
    }
    forall x | x in table
      ensures EntryOk(after, table, x)
    {
      assert EntryOk(tasks, heartbeats, x);
    }
    forall h | 0 <= h < |after|
      ensures SlotOk(after, table, periodMs, h)
    {
      assert SlotOk(tasks, heartbeats, periodMs, h);
    }
  }

  /**
   * Two tables that both keep the invariant and agree on every key but `id`
   * give every other instance the same live count.
   */
  lemma LiveCountsAgree(before: seq<ScheduledTask>, beforeHeartbeats: map<string, Handle>,
                        after: seq<ScheduledTask>, afterHeartbeats: map<string, Handle>, periodMs: int, id: string)
    requires TableInvariant(before, beforeHeartbeats, periodMs)
    requires TableInvariant(after, afterHeartbeats, periodMs)
    requires afterHeartbeats.Keys - {id} == beforeHeartbeats.Keys - {id}
    ensures LiveCount(after, id) == if id in afterHeartbeats then 1 else 0
    ensures forall other | other != id :: LiveCount(after, other) == LiveCount(before, other)
  {
    AllLiveCounts(before, beforeHeartbeats, periodMs);
    AllLiveCounts(after, afterHeartbeats, periodMs);
    SameMembership(beforeHeartbeats, afterHeartbeats, id);
  }

  lemma SameMembership(a: map<string, Handle>, b: map<string, Handle>, id: string)
    requires b.Keys - {id} == a.Keys - {id}
    ensures forall other | other != id :: other in a <==> other in b
  {
    forall other | other != id
      ensures other in a <==> other in b
    {
      assert other in a <==> other in a.Keys - {id};
      assert other in b <==> other in b.Keys - {id};
    }
  }

  /** Every instance's live count, at once. */
  lemma AllLiveCounts(tasks: seq<ScheduledTask>, heartbeats: map<string, Handle>, periodMs: int)
    requires TableInvariant(tasks, heartbeats, periodMs)
    ensures forall id :: LiveCount(tasks, id) == if id in heartbeats then 1 else 0
  {
    forall id
      ensures LiveCount(tasks, id) == if id in heartbeats then 1 else 0
    {
      AtMostOneLiveHandle(tasks, heartbeats, periodMs, id);
    }
  }

  /** The facility: `ScheduleAtFixedRate` hands out a fresh handle, a handle can be cancelled. */
  class TaskScheduler {
    var tasks: seq<ScheduledTask>

    constructor ()
      ensures tasks == []
    {
      tasks := [];
    }

    method ScheduleAtFixedRate(task: HeartbeatTask, periodMs: int) returns (h: Handle)
      modifies this
      ensures h == |old(tasks)|
      ensures tasks == old(tasks) + [ScheduledTask(task, periodMs, false)]
    {
      h := |tasks|;
      tasks := tasks + [ScheduledTask(task, periodMs, false)];
    }

    method Cancel(h: Handle)
      requires h < |tasks|
      modifies this
      ensures tasks == CancelAt(old(tasks), h)
    {
      tasks := CancelAt(tasks, h);
    }
  }
}
