/**
  End-to-end runs of the lifecycle: one recipient, one slot `A1` at 10:40,
  a 60-minute timeout, from reminder to sweep to weekly counts.
 */
module Scenarios {
  import opened Wrappers
  import opened Model
  import Slots
  import Callback
  import Reminders
  import Webhook
  import Sweep
  import Report
  import TaskStore

  function OneUserConfig(): Config
  {
    Config([User("u1")], map["A1" := Slots.Slot("A1", "Slot A1", "push-ups", "10", None)], 60, 10, 0)
  }

  /** The 10:40 batch on an empty store creates the one recipient's task. */
  lemma FirstReminder(created: int, today: string, id: string)
    ensures Reminders.SendRemindersBatch(Store(map[], []), OneUserConfig(), "10:40", "A1", Clock(created, today), [id]).store
         == Store(map[id := TaskStore.NewTask("u1", "10:40", "A1", Clock(created, today), 60)], [])
  {
    var cfg := OneUserConfig();
    var s0 := Store(map[], []);
    Reminders.SendBatchKnownSlot(s0, cfg, cfg.users, "10:40", "A1", Clock(created, today), [id]);
    var d := Reminders.SendRemindersBatch(s0, cfg, "10:40", "A1", Clock(created, today), [id]);
    assert d.store.tasks.Keys == {id};
  }

  /** A store holding one task of `u1` dated inside the window counts that task alone. */
  lemma OnlyTaskCounted(s: Store, id: string, today: string, start: string, end: string)
    requires s.tasks.Keys == {id} && s.tasks[id].userId == "u1" && s.tasks[id].date == today
    requires Report.TextLe(start, today) && Report.TextLe(today, end)
    ensures Report.Selected(s, "u1", start, end) == {id}
    ensures forall st :: Report.SelectedWith(s, "u1", start, end, st) == (if s.tasks[id].status == st then {id} else {})
  {
  }

  /** Pressing `done` on the only task marks it done and creates nothing. */
  lemma PressDoneOnFirst(s1: Store, created: int, today: string, id: string, other: string)
    requires id != other
    requires s1 == Store(map[id := TaskStore.NewTask("u1", "10:40", "A1", Clock(created, today), 60)], [])
    ensures var s2 := Webhook.HandleCallback(s1, OneUserConfig(), Callback.Encode(Callback.Done, id), "u1",
                                             Clock(created + 5 * 60, today), [other]).store;
      s2.tasks.Keys == {id} && s2.tasks[id].status == Done && s2.tasks[id].userId == "u1" && s2.tasks[id].date == today
  {
    var cfg := OneUserConfig();
    Webhook.PressSetsStatus(s1, cfg, Callback.Done, id, "u1", Clock(created + 5 * 60, today), [other]);
    Webhook.PressDoneOrSkipCreatesNothing(s1, cfg, Callback.Done, id, "u1", Clock(created + 5 * 60, today), [other]);
  }

  /**
    The reminder creates a pending task due an hour later; pressing `done`
    marks it done; a sweep 61 minutes after creation leaves it done; the
    week's counts show one task, done.
   */
  lemma DoneSurvivesSweep(created: int, today: string, start: string, end: string, id: string, other: string)
    requires id != other
    requires Report.TextLe(start, today) && Report.TextLe(today, end)
    ensures
      var cfg := OneUserConfig();
      var s1 := Reminders.SendRemindersBatch(Store(map[], []), cfg, "10:40", "A1", Clock(created, today), [id]).store;
      var s2 := Webhook.HandleCallback(s1, cfg, Callback.Encode(Callback.Done, id), "u1",
                                       Clock(created + 5 * 60, today), [other]).store;
      var s3 := Sweep.TimeoutScan(s2, created + 61 * 60);
      && s1.tasks[id].status == Pending && s1.tasks[id].timeoutAt == created + 60 * 60
      && s3.tasks[id].status == Done
      && |Report.Selected(s3, "u1", start, end)| == 1
      && |Report.SelectedWith(s3, "u1", start, end, Done)| == 1
  {
    FirstReminder(created, today, id);
    var s1 := Store(map[id := TaskStore.NewTask("u1", "10:40", "A1", Clock(created, today), 60)], []);
    PressDoneOnFirst(s1, created, today, id, other);
    var s2 := Webhook.HandleCallback(s1, OneUserConfig(), Callback.Encode(Callback.Done, id), "u1",
                                     Clock(created + 5 * 60, today), [other]).store;
    var s3 := Sweep.TimeoutScan(s2, created + 61 * 60);
    assert s3.tasks[id] == s2.tasks[id];
    OnlyTaskCounted(s3, id, today, start, end);
  }

  /**
    Without any press, the sweep 61 minutes after creation times the task
    out; the week's counts show one task, timed out, none done.
   */
  lemma UnansweredTimesOut(created: int, today: string, start: string, end: string, id: string)
    requires Report.TextLe(start, today) && Report.TextLe(today, end)
    ensures
      var cfg := OneUserConfig();
      var s1 := Reminders.SendRemindersBatch(Store(map[], []), cfg, "10:40", "A1", Clock(created, today), [id]).store;
      var s3 := Sweep.TimeoutScan(s1, created + 61 * 60);
      && s3.tasks[id].status == Timeout && s3.tasks[id].clickedAt == Some(created + 61 * 60)
      && |Report.Selected(s3, "u1", start, end)| == 1
      && |Report.SelectedWith(s3, "u1", start, end, Timeout)| == 1
      && |Report.SelectedWith(s3, "u1", start, end, Done)| == 0
  {
    FirstReminder(created, today, id);
    var s1 := Store(map[id := TaskStore.NewTask("u1", "10:40", "A1", Clock(created, today), 60)], []);
    var s3 := Sweep.TimeoutScan(s1, created + 61 * 60);
    OnlyTaskCounted(s3, id, today, start, end);
  }

  /**
    Last write wins: a `done` pressed after the sweep timed the task out
    overwrites the timeout, since the transition does not check the
    current status.
   */
  lemma LatePressOverwritesTimeout(s: Store, cfg: Config, id: string, chat: string, swept: int,
                                   clock: Clock, ids: seq<string>)
    requires id in s.tasks && Sweep.Expired(s.tasks[id], swept)
    requires |ids| == |cfg.users| && FreshIds(s, ids)
    ensures var t := Sweep.TimeoutScan(s, swept);
      && t.tasks[id].status == Timeout
      && Webhook.HandleCallback(t, cfg, Callback.Encode(Callback.Done, id), chat, clock, ids).store.tasks[id].status == Done
  {
    var t := Sweep.TimeoutScan(s, swept);
    assert FreshIds(t, ids);
    Webhook.PressSetsStatus(t, cfg, Callback.Done, id, chat, clock, ids);
  }
}
