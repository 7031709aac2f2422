/** Task creation and status transition over the in-memory tables. */
module TaskStore {
  import opened Wrappers
  import opened Model

  /** The row `create_task` inserts: pending, deadline one timeout window after creation. */
  function NewTask(userId: string, timeStr: string, slotId: string, clock: Clock, timeoutMinutes: int): Task
  {
    Task(userId, clock.today, timeStr, slotId, Pending, clock.now, clock.now + timeoutMinutes * 60, None)
  }

  /**
    `create_task`: inserts one pending task under the freshly generated id
    `id`; every other task and the event log stay as they were.
   */
  function CreateTask(s: Store, id: string, userId: string, timeStr: string, slotId: string,
                      clock: Clock, timeoutMinutes: int): (r: Store)
    requires id !in s.tasks
    ensures r.tasks.Keys == s.tasks.Keys + {id}
    ensures |r.tasks| == |s.tasks| + 1
    ensures forall k :: k in s.tasks ==> r.tasks[k] == s.tasks[k]
    ensures r.events == s.events
    ensures r.tasks[id].status == Pending && r.tasks[id].clickedAt == None
    ensures r.tasks[id].userId == userId && r.tasks[id].time == timeStr && r.tasks[id].slotId == slotId
    ensures r.tasks[id].date == clock.today && r.tasks[id].createdAt == clock.now
    ensures r.tasks[id].timeoutAt - r.tasks[id].createdAt == timeoutMinutes * 60
    ensures timeoutMinutes > 0 <==> r.tasks[id].timeoutAt > r.tasks[id].createdAt
  {
    Store(s.tasks[id := NewTask(userId, timeStr, slotId, clock, timeoutMinutes)], s.events)
  }

  /**
    `update_task_status`: overwrites the status and the action time of task
    `id` whatever its current status, and logs one event for `id` even when
    no such task exists.
   */
  function UpdateTaskStatus(s: Store, id: string, status: Status, now: int): (r: Store)
    ensures r.tasks.Keys == s.tasks.Keys
    ensures forall k :: k in s.tasks && k != id ==> r.tasks[k] == s.tasks[k]
    ensures id in s.tasks ==> r.tasks[id] == s.tasks[id].(status := status, clickedAt := Some(now))
    ensures id !in s.tasks ==> r.tasks == s.tasks
    ensures |r.events| == |s.events| + 1 && r.events[..|s.events|] == s.events
    ensures r.events[|s.events|] == Event(id, None, status, now)
  {
    var tasks := if id in s.tasks then s.tasks[id := s.tasks[id].(status := status, clickedAt := Some(now))] else s.tasks;
    Store(tasks, s.events + [Event(id, None, status, now)])
  }

  /**
    Repeating a transition leaves the tasks as after the first one (the
    status is stable) while the log records both.
   */
  lemma UpdateRepeated(s: Store, id: string, status: Status, now: int, later: int)
    requires id in s.tasks
    ensures var once := UpdateTaskStatus(s, id, status, now);
            var twice := UpdateTaskStatus(once, id, status, later);
            && twice.tasks[id].status == once.tasks[id].status == status
            && (forall k :: k in twice.tasks ==> twice.tasks[k].status == once.tasks[k].status)
            && |twice.events| == |s.events| + 2
  {
  }
}
