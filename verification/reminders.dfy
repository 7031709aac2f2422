/**
  Sending reminders: each reminder creates a task and hands the transport a
  message whose buttons carry that task's callback data.
 */
module Reminders {
  import opened Wrappers
  import opened Model
  import opened TaskStore
  import Slots
  import Text
  import Callback

  /** A reminder handed to the transport (the message text is not modelled). */
  datatype Reminder = Reminder(chatId: string, timeStr: string, slot: Slots.Slot, buttons: seq<string>)

  /**
    What a run of reminder sends leaves behind: the tables, the reminders
    handed to the transport in order, and whether the run completed. A run
    stops early when a slot id is missing from the catalog: the lookup fails
    after the task was already inserted.
   */
  datatype Delivery = Delivery(store: Store, sent: seq<Reminder>, ok: bool)

  /** The pending task created under `id` for `chatId`, as it must appear in a store. */
  predicate HasNewTask(s: Store, id: string, chatId: string, timeStr: string, slotId: string,
                       clock: Clock, timeoutMinutes: int)
  {
    id in s.tasks && s.tasks[id] == NewTask(chatId, timeStr, slotId, clock, timeoutMinutes)
  }

  /** Each button of `r` decodes to an action on task `id`. */
  predicate ButtonsFor(r: Reminder, id: string)
  {
    forall b :: b in r.buttons ==> Text.Split(b).Some? && Text.Split(b).value.1 == id
  }

  /**
    `send_reminder_for_user`: creates the task first, then looks the slot up;
    when the slot is known the reminder goes to the user's chat with three
    buttons that all decode to the new task.
   */
  function SendReminder(s: Store, cfg: Config, user: User, timeStr: string, slotId: string,
                        id: string, clock: Clock): (d: Delivery)
    requires id !in s.tasks
    ensures d.store == CreateTask(s, id, user.chatId, timeStr, slotId, clock, cfg.timeoutMinutes)
    ensures d.ok <==> slotId in cfg.slots
    ensures d.ok ==> |d.sent| == 1 && d.sent[0].chatId == user.chatId && d.sent[0].timeStr == timeStr
                     && d.sent[0].slot == cfg.slots[slotId] && ButtonsFor(d.sent[0], id)
    ensures !d.ok ==> d.sent == []
  {
    var created := CreateTask(s, id, user.chatId, timeStr, slotId, clock, cfg.timeoutMinutes);
    if slotId in cfg.slots then
      Delivery(created, [Reminder(user.chatId, timeStr, cfg.slots[slotId], Callback.Buttons(id))], true)
    else
      Delivery(created, [], false)
  }

  /**
    `send_reminders_batch` over `users`, with `ids[i]` the id generated for
    `users[i]`: existing tasks and the log are untouched and only ids of the
    supply are added.
   */
  function SendBatch(s: Store, cfg: Config, users: seq<User>, timeStr: string, slotId: string,
                     clock: Clock, ids: seq<string>): (d: Delivery)
    requires |ids| == |users| && FreshIds(s, ids)
    ensures d.store.events == s.events
    ensures forall k :: k in s.tasks ==> k in d.store.tasks && d.store.tasks[k] == s.tasks[k]
    ensures forall k :: k in d.store.tasks ==> k in s.tasks || k in ids
    decreases |users|
  {
    if users == [] then Delivery(s, [], true)
    else
      var first := SendReminder(s, cfg, users[0], timeStr, slotId, ids[0], clock);
      if !first.ok then first
      else
        var rest := SendBatch(first.store, cfg, users[1..], timeStr, slotId, clock, ids[1..]);
        Delivery(rest.store, first.sent + rest.sent, rest.ok)
  }

  /**
    With a known slot the batch completes: every user gets one pending task
    under their own id and one reminder, in user order, whose buttons decode
    to that task.
   */
  lemma {:induction false} SendBatchKnownSlot(s: Store, cfg: Config, users: seq<User>, timeStr: string,
                                              slotId: string, clock: Clock, ids: seq<string>)
    requires |ids| == |users| && FreshIds(s, ids)
    requires slotId in cfg.slots
    ensures var d := SendBatch(s, cfg, users, timeStr, slotId, clock, ids);
      && d.ok && |d.sent| == |users|
      && forall i :: 0 <= i < |users| ==>
           && HasNewTask(d.store, ids[i], users[i].chatId, timeStr, slotId, clock, cfg.timeoutMinutes)
           && d.sent[i].chatId == users[i].chatId && ButtonsFor(d.sent[i], ids[i])
    decreases |users|
  {
    if users != [] {
      var first := SendReminder(s, cfg, users[0], timeStr, slotId, ids[0], clock);
      SendBatchKnownSlot(first.store, cfg, users[1..], timeStr, slotId, clock, ids[1..]);
      var rest := SendBatch(first.store, cfg, users[1..], timeStr, slotId, clock, ids[1..]);
      var d := SendBatch(s, cfg, users, timeStr, slotId, clock, ids);
      assert d == Delivery(rest.store, first.sent + rest.sent, rest.ok);
      forall i | 0 <= i < |users|
        ensures HasNewTask(d.store, ids[i], users[i].chatId, timeStr, slotId, clock, cfg.timeoutMinutes)
        ensures d.sent[i].chatId == users[i].chatId && ButtonsFor(d.sent[i], ids[i])
      {
        if i > 0 {
          assert users[1..][i - 1] == users[i] && ids[1..][i - 1] == ids[i];
          assert d.sent[i] == rest.sent[i - 1];
        }
      }
    }
  }

  /** With a known slot the batch adds exactly one task per user. */
  lemma SendBatchGrowth(s: Store, cfg: Config, users: seq<User>, timeStr: string,
                        slotId: string, clock: Clock, ids: seq<string>)
    requires |ids| == |users| && FreshIds(s, ids)
    requires slotId in cfg.slots
    ensures var d := SendBatch(s, cfg, users, timeStr, slotId, clock, ids);
      d.ok && |d.store.tasks| == |s.tasks| + |users|
  {
    var d := SendBatch(s, cfg, users, timeStr, slotId, clock, ids);
    SendBatchKnownSlot(s, cfg, users, timeStr, slotId, clock, ids);
    assert forall i :: 0 <= i < |ids| ==> ids[i] in d.store.tasks && ids[i] !in s.tasks;
    GainedKeysCard(s.tasks, d.store.tasks, ids);
  }

  /** With an unknown slot the first user's task is inserted and the batch stops. */
  lemma SendBatchUnknownSlot(s: Store, cfg: Config, users: seq<User>, timeStr: string,
                             slotId: string, clock: Clock, ids: seq<string>)
    requires |ids| == |users| && FreshIds(s, ids)
    requires slotId !in cfg.slots && users != []
    ensures var d := SendBatch(s, cfg, users, timeStr, slotId, clock, ids);
      && !d.ok && d.sent == [] && d.store.tasks.Keys == s.tasks.Keys + {ids[0]}
      && HasNewTask(d.store, ids[0], users[0].chatId, timeStr, slotId, clock, cfg.timeoutMinutes)
  {
  }

  /** `send_reminders_batch`: the batch over the configured users. */
  function SendRemindersBatch(s: Store, cfg: Config, timeStr: string, slotId: string,
                              clock: Clock, ids: seq<string>): (d: Delivery)
    requires |ids| == |cfg.users| && FreshIds(s, ids)
    ensures slotId in cfg.slots ==> d.ok && |d.store.tasks| == |s.tasks| + |cfg.users|
  {
    if slotId in cfg.slots then
      SendBatchGrowth(s, cfg, cfg.users, timeStr, slotId, clock, ids);
      SendBatch(s, cfg, cfg.users, timeStr, slotId, clock, ids)
    else
      SendBatch(s, cfg, cfg.users, timeStr, slotId, clock, ids)
  }
}
