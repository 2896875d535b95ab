/**
 * The scheduler: for each chosen reminder interval of a document, one delayed
 * "send_reminder" task is put on the task queue, due at the expiration instant
 * minus the interval's lead time, unless that instant has already passed.
 *
 * The queue client is a `TaskQueue` object; whether the queue accepts the
 * enqueue for the interval at position `i` of a call is an input
 * (`accepts(i)`; a skipped interval leaves its position unused), and the clock
 * is read as the single instant `now`.
 */
module Jobs {
  import opened Wrappers
  import opened Models
  import CivilTime

  /** The task type the executor is registered under. */
  const SendReminder: string := "send_reminder"

  /** The JSON object a reminder task carries: user_id, document_id, interval_id. */
  datatype ReminderPayload = ReminderPayload(userId: Uuid, documentId: Uuid, intervalId: int)

  /**
   * A task's payload bytes: either the encoding of a reminder payload, or
   * bytes that do not decode into one (never produced by the scheduler).
   */
  datatype TaskPayload = Encoded(fields: ReminderPayload) | Undecodable

  datatype Task = Task(taskType: string, payload: TaskPayload, processAt: Instant)

  /** The pending tasks of the queue, in the order they were accepted. */
  class TaskQueue {
    var pending: seq<Task>

    constructor ()
      ensures pending == []
    {
      pending := [];
    }

    /** Hands `task` to the queue; `accepted` is the queue's answer. */
    method Enqueue(task: Task, accepted: bool) returns (ok: bool)
      modifies this
      ensures ok == accepted
      ensures pending == if accepted then old(pending) + [task] else old(pending)
    {
      ok := accepted;
      if accepted {
        pending := pending + [task];
      }
    }

    /**
     * One delivery step: some task due at `now` leaves the queue and is
     * returned; which one, when several are due, is not determined.
     */
    method Deliver(now: Instant) returns (delivered: Option<Task>)
      modifies this
      ensures delivered.None? <==> forall t :: t in old(pending) ==> t.processAt > now
      ensures delivered.None? ==> pending == old(pending)
      ensures delivered.Some? ==> delivered.value.processAt <= now
      ensures delivered.Some? ==> exists i :: 0 <= i < |old(pending)| && old(pending)[i] == delivered.value
                                               && pending == old(pending)[..i] + old(pending)[i + 1..]
    {
      if i :| 0 <= i < |pending| && pending[i].processAt <= now {
        delivered := Some(pending[i]);
        pending := pending[..i] + pending[i + 1..];
      } else {
        delivered := None;
      }
    }
  }

  /**
   * When the reminder for a lead time of `daysBefore` days fires: that many
   * civil days before the expiration instant. The model assumes a local zone
   * without daylight-saving transitions, in which a civil day is 86400 seconds.
   */
  function FireTime(expiration: Instant, daysBefore: int): (r: Instant)
    ensures r == expiration - daysBefore * CivilTime.SecondsPerDay
    ensures CivilTime.DayNumber(r) == CivilTime.DayNumber(expiration) - daysBefore
  {
    CivilTime.AddDays(expiration, -daysBefore)
  }

  /** A fire time strictly before `now` is skipped; one equal to `now` is kept. */
  predicate Skipped(expiration: Instant, daysBefore: int, now: Instant)
  {
    FireTime(expiration, daysBefore) < now
  }

  /** The task the scheduler builds for `interval` of `doc`, owned by `userId`. */
  function ReminderTask(doc: Document, userId: Uuid, interval: ReminderInterval): Task
  {
    Task(SendReminder, Encoded(ReminderPayload(userId, doc.id, interval.id)), FireTime(doc.expirationDate, interval.daysBefore))
  }

  /** Whether the scheduler enqueues the `i`-th interval, and the queue takes it. */
  predicate Lands(doc: Document, intervals: seq<ReminderInterval>, i: int, now: Instant, accepts: nat -> bool)
  {
    0 <= i < |intervals| && !Skipped(doc.expirationDate, intervals[i].daysBefore, now) && accepts(i)
  }

  /** The tasks one scheduling call adds to the queue, in order. */
  function Scheduled(doc: Document, userId: Uuid, intervals: seq<ReminderInterval>, now: Instant, accepts: nat -> bool): seq<Task>
  {
    if intervals == [] then []
    else
      var k := |intervals| - 1;
      var earlier := Scheduled(doc, userId, intervals[..k], now, accepts);
      if Skipped(doc.expirationDate, intervals[k].daysBefore, now) || !accepts(k) then earlier
      else earlier + [ReminderTask(doc, userId, intervals[k])]
  }

  /** The positions, in `intervals`, of the intervals whose task lands, in increasing order. */
  function Landed(doc: Document, intervals: seq<ReminderInterval>, now: Instant, accepts: nat -> bool): (r: seq<nat>)
    ensures forall j :: 0 <= j < |r| ==> r[j] < |intervals|
  {
    if intervals == [] then []
    else
      var k := |intervals| - 1;
      var earlier := Landed(doc, intervals[..k], now, accepts);
      if Skipped(doc.expirationDate, intervals[k].daysBefore, now) || !accepts(k) then earlier
      else earlier + [k]
  }

  /** Builds the task's payload and hands it to the queue, due at `runAt`. */
  method EnqueueDelayedTask(queue: TaskQueue, taskType: string, payload: ReminderPayload, runAt: Instant, accepted: bool)
    returns (ok: bool)
    modifies queue
    ensures ok == accepted
    ensures queue.pending == if accepted then old(queue.pending) + [Task(taskType, Encoded(payload), runAt)] else old(queue.pending)
  {
    ok := queue.Enqueue(Task(taskType, Encoded(payload), runAt), accepted);
  }

  /**
   * Schedules one reminder per interval of `intervals`, in order. A skipped
   * interval and a refused enqueue add nothing; the loop goes on either way.
   */
  method ScheduleReminders(queue: TaskQueue, doc: Document, userId: Uuid, intervals: seq<ReminderInterval>,
                           now: Instant, accepts: nat -> bool)
    modifies queue
    ensures queue.pending == old(queue.pending) + Scheduled(doc, userId, intervals, now, accepts)
  {
    var i := 0;
    while i < |intervals|
      invariant 0 <= i <= |intervals|
      invariant queue.pending == old(queue.pending) + Scheduled(doc, userId, intervals[..i], now, accepts)
    {
      var interval := intervals[i];
      var reminderTime := FireTime(doc.expirationDate, interval.daysBefore);
      assert intervals[..i + 1][..i] == intervals[..i];
      if reminderTime < now {
        i := i + 1;
        continue;
      }
      var payload := ReminderPayload(userId, doc.id, interval.id);
      var ok := EnqueueDelayedTask(queue, SendReminder, payload, reminderTime, accepts(i));
      i := i + 1;
    }
    assert intervals[..i] == intervals;
  }

  /** A longer lead time fires no later. */
  lemma FireTimeAntitone(expiration: Instant, d1: int, d2: int)
    requires d1 <= d2
    ensures FireTime(expiration, d2) <= FireTime(expiration, d1)
    ensures FireTime(expiration, d2) == FireTime(expiration, d1) <==> d1 == d2
  {
  }

  /**
   * The tasks of one call are exactly the tasks of the intervals that land,
   * one each, in the order of `intervals`; an interval lands iff its fire time
   * is not before `now` and the queue accepts it, whatever happened to the
   * other intervals.
   */
  lemma {:induction false} ScheduledShape(doc: Document, userId: Uuid, intervals: seq<ReminderInterval>, now: Instant, accepts: nat -> bool)
    ensures var tasks := Scheduled(doc, userId, intervals, now, accepts);
      var landed := Landed(doc, intervals, now, accepts);
      && |tasks| == |landed|
      && (forall j :: 0 <= j < |tasks| ==> tasks[j] == ReminderTask(doc, userId, intervals[landed[j]]))
      && (forall j, j' :: 0 <= j < j' < |landed| ==> landed[j] < landed[j'])
      && (forall i :: i in landed <==> Lands(doc, intervals, i, now, accepts))
  {
    if intervals != [] {
      var k := |intervals| - 1;
      var prefix := intervals[..k];
      ScheduledShape(doc, userId, prefix, now, accepts);
      var landed := Landed(doc, prefix, now, accepts);
      forall i
        ensures Lands(doc, prefix, i, now, accepts) <==> 0 <= i < k && Lands(doc, intervals, i, now, accepts)
      {
        if 0 <= i < k {
          assert prefix[i] == intervals[i];
        }
      }
    }
  }

  /** Every scheduled task is a "send_reminder" for this user, document and interval, due not before `now`. */
  lemma ScheduledTasksWellFormed(doc: Document, userId: Uuid, intervals: seq<ReminderInterval>, now: Instant, accepts: nat -> bool)
    ensures forall t :: t in Scheduled(doc, userId, intervals, now, accepts) ==>
      && t.taskType == SendReminder
      && now <= t.processAt
      && exists i :: Lands(doc, intervals, i, now, accepts)
                     && t.payload == Encoded(ReminderPayload(userId, doc.id, intervals[i].id))
                     && t.processAt == doc.expirationDate - intervals[i].daysBefore * CivilTime.SecondsPerDay
  {
    ScheduledShape(doc, userId, intervals, now, accepts);
    var tasks := Scheduled(doc, userId, intervals, now, accepts);
    var landed := Landed(doc, intervals, now, accepts);
    forall t | t in tasks
      ensures t.taskType == SendReminder && now <= t.processAt
      ensures exists i :: Lands(doc, intervals, i, now, accepts)
                          && t.payload == Encoded(ReminderPayload(userId, doc.id, intervals[i].id))
                          && t.processAt == doc.expirationDate - intervals[i].daysBefore * CivilTime.SecondsPerDay
    {
      var j :| 0 <= j < |tasks| && tasks[j] == t;
      assert landed[j] in landed;
    }
  }

  /** When the queue accepts everything, every interval whose fire time has not passed yields one task. */
  lemma AllDueScheduled(doc: Document, userId: Uuid, intervals: seq<ReminderInterval>, now: Instant, accepts: nat -> bool)
    requires forall n :: accepts(n)
    ensures forall i :: 0 <= i < |intervals| && !Skipped(doc.expirationDate, intervals[i].daysBefore, now) ==>
      ReminderTask(doc, userId, intervals[i]) in Scheduled(doc, userId, intervals, now, accepts)
  {
    ScheduledShape(doc, userId, intervals, now, accepts);
    var tasks := Scheduled(doc, userId, intervals, now, accepts);
    var landed := Landed(doc, intervals, now, accepts);
    forall i | 0 <= i < |intervals| && !Skipped(doc.expirationDate, intervals[i].daysBefore, now)
      ensures ReminderTask(doc, userId, intervals[i]) in tasks
    {
      assert Lands(doc, intervals, i, now, accepts);
      var j :| 0 <= j < |landed| && landed[j] == i;
      assert tasks[j] == ReminderTask(doc, userId, intervals[i]);
    }
  }

  /** There is no de-duplication: scheduling the same input twice queues every task twice. */
  method ScheduleTwice(queue: TaskQueue, doc: Document, userId: Uuid, intervals: seq<ReminderInterval>,
                       now: Instant, accepts: nat -> bool)
    modifies queue
    ensures var tasks := Scheduled(doc, userId, intervals, now, accepts);
      queue.pending == old(queue.pending) + tasks + tasks
  {
    ScheduleReminders(queue, doc, userId, intervals, now, accepts);
    ScheduleReminders(queue, doc, userId, intervals, now, accepts);
  }
}
