/**
  Handling a button press: the callback data is split at its first colon,
  the action tag picks the new status, and a snooze also chains a fresh
  reminder for the same slot to every configured user of the pressing chat.
 */
module Webhook {
  import opened Wrappers
  import opened Model
  import opened TaskStore
  import opened Reminders
  import Text
  import Callback
  import ClockText

  /**
    The status a button press writes: never `pending`, and stored as the
    button's own tag except that `snooze10` is stored as `snoozed`.
   */
  function ActionStatus(a: Callback.Action): (st: Status)
    ensures st != Pending
    ensures StatusText(st) == if a == Callback.Snooze10 then "snoozed" else Callback.Tag(a)
  {
    match a
    case Done => Status.Done
    case Skip => Status.Skip
    case Snooze10 => Snoozed
  }

  /** The number of users in `users` whose chat is `chat`. */
  function CountChat(users: seq<User>, chat: string): nat
  {
    if users == [] then 0 else (if users[0].chatId == chat then 1 else 0) + CountChat(users[1..], chat)
  }

  /**
    The snooze loop over `users`: for every user of chat `chat`, look the
    snoozed task's slot up again and, when the task exists, send that user a
    reminder for it (`ids[i]` is the id generated for `users[i]`). Existing
    tasks and the log are untouched, only ids of the supply are added, and
    nothing at all happens when the snoozed task does not exist.
   */
  function SnoozeChain(s: Store, cfg: Config, users: seq<User>, ids: seq<string>, chat: string,
                       taskId: string, timeStr: string, clock: Clock): (d: Delivery)
    requires |ids| == |users| && FreshIds(s, ids)
    ensures d.store.events == s.events
    ensures forall k :: k in s.tasks ==> k in d.store.tasks && d.store.tasks[k] == s.tasks[k]
    ensures forall k :: k in d.store.tasks ==> k in s.tasks || k in ids
    ensures taskId !in s.tasks ==> d == Delivery(s, [], true)
    decreases |users|
  {
    if users == [] then Delivery(s, [], true)
    else if users[0].chatId != chat || taskId !in s.tasks then
      SnoozeChain(s, cfg, users[1..], ids[1..], chat, taskId, timeStr, clock)
    else
      var first := SendReminder(s, cfg, users[0], timeStr, s.tasks[taskId].slotId, ids[0], clock);
      if !first.ok then first
      else
        var rest := SnoozeChain(first.store, cfg, users[1..], ids[1..], chat, taskId, timeStr, clock);
        Delivery(rest.store, first.sent + rest.sent, rest.ok)
  }

  /**
    Snoozing an existing task whose slot is known: the loop completes and
    exactly the users of the pressing chat get a new pending task for the
    snoozed task's slot at the given time of day.
   */
  lemma {:induction false} SnoozeChainKnownSlot(s: Store, cfg: Config, users: seq<User>, ids: seq<string>,
                                                chat: string, taskId: string, timeStr: string, clock: Clock)
    requires |ids| == |users| && FreshIds(s, ids)
    requires taskId in s.tasks && s.tasks[taskId].slotId in cfg.slots
    ensures var d := SnoozeChain(s, cfg, users, ids, chat, taskId, timeStr, clock);
      && d.ok
      && |d.store.tasks| == |s.tasks| + CountChat(users, chat)
      && forall i :: 0 <= i < |users| ==>
           && (ids[i] in d.store.tasks <==> users[i].chatId == chat)
           && (users[i].chatId == chat ==>
                 HasNewTask(d.store, ids[i], users[i].chatId, timeStr, s.tasks[taskId].slotId, clock, cfg.timeoutMinutes))
    decreases |users|
  {
    if users != [] {
      var slotId := s.tasks[taskId].slotId;
      var d := SnoozeChain(s, cfg, users, ids, chat, taskId, timeStr, clock);
      var next, rest;
      if users[0].chatId != chat {
        next := s;
        SnoozeChainKnownSlot(s, cfg, users[1..], ids[1..], chat, taskId, timeStr, clock);
        rest := SnoozeChain(s, cfg, users[1..], ids[1..], chat, taskId, timeStr, clock);
        assert d == rest;
        assert ids[0] !in d.store.tasks by {
          assert ids[0] !in ids[1..];
        }
      } else {
        var first := SendReminder(s, cfg, users[0], timeStr, slotId, ids[0], clock);
        next := first.store;
        SnoozeChainKnownSlot(next, cfg, users[1..], ids[1..], chat, taskId, timeStr, clock);
        rest := SnoozeChain(next, cfg, users[1..], ids[1..], chat, taskId, timeStr, clock);
        assert d.store == rest.store && d.ok == rest.ok;
      }
      forall i | 0 < i < |users|
        ensures ids[i] in d.store.tasks <==> users[i].chatId == chat
        ensures users[i].chatId == chat ==>
          HasNewTask(d.store, ids[i], users[i].chatId, timeStr, slotId, clock, cfg.timeoutMinutes)
      {
        assert users[1..][i - 1] == users[i] && ids[1..][i - 1] == ids[i];
      }
    }
  }

  /**
    The time of day of the snoozed reminder: `snooze_minutes` after now, as
    HH:MM in the configured zone; reading it back gives that minute of the day.
   */
  function SnoozeTime(cfg: Config, clock: Clock): (r: string)
    ensures var m := ClockText.MinuteOfDay(clock.now + cfg.snoozeMinutes * 60, cfg.utcOffset);
      ClockText.ParseHhMm(r) == Some((m / 60, m % 60))
  {
    ClockText.FormatHhMm(clock.now + cfg.snoozeMinutes * 60, cfg.utcOffset)
  }

  /**
    The callback branch of the webhook, for callback data `data` pressed in
    chat `chat`. Data without a colon and unknown action tags change nothing;
    `done`, `skip` and `snooze10` overwrite the task's status (logging one
    event); a snooze then chains new reminders `snooze_minutes` later.
   */
  function HandleCallback(s: Store, cfg: Config, data: string, chat: string, clock: Clock,
                          ids: seq<string>): (d: Delivery)
    requires |ids| == |cfg.users| && FreshIds(s, ids)
    ensures ':' !in data ==> d == Delivery(s, [], true)
    ensures Text.Split(data).Some? && Callback.ParseTag(Text.Split(data).value.0).None? ==> d == Delivery(s, [], true)
    ensures d.store.tasks.Keys >= s.tasks.Keys
  {
    match Text.Split(data)
    case None => Delivery(s, [], true)
    case Some((action, taskId)) =>
      match Callback.ParseTag(action)
      case None => Delivery(s, [], true)
      case Some(a) =>
        var marked := UpdateTaskStatus(s, taskId, ActionStatus(a), clock.now);
        if a != Callback.Snooze10 then Delivery(marked, [], true)
        else
          SnoozeChain(marked, cfg, cfg.users, ids, chat, taskId, SnoozeTime(cfg, clock), clock)
  }

  /**
    Pressing any button of a task writes that button's status over the
    task's current one (even a final one) with action time now, leaves every
    other existing task alone, and logs exactly one event.
   */
  lemma PressSetsStatus(s: Store, cfg: Config, a: Callback.Action, id: string, chat: string,
                        clock: Clock, ids: seq<string>)
    requires |ids| == |cfg.users| && FreshIds(s, ids)
    ensures var d := HandleCallback(s, cfg, Callback.Encode(a, id), chat, clock, ids);
      && (id in s.tasks ==> d.store.tasks[id] == s.tasks[id].(status := ActionStatus(a), clickedAt := Some(clock.now)))
      && (forall k :: k in s.tasks && k != id ==> d.store.tasks[k] == s.tasks[k])
      && d.store.events == s.events + [Event(id, None, ActionStatus(a), clock.now)]
  {
    Callback.TagRoundTrip(a);
  }

  /** `done` and `skip` touch nothing but the pressed task: no task is created. */
  lemma PressDoneOrSkipCreatesNothing(s: Store, cfg: Config, a: Callback.Action, id: string, chat: string,
                                      clock: Clock, ids: seq<string>)
    requires |ids| == |cfg.users| && FreshIds(s, ids)
    requires a != Callback.Snooze10
    ensures var d := HandleCallback(s, cfg, Callback.Encode(a, id), chat, clock, ids);
      d.store.tasks.Keys == s.tasks.Keys && d.sent == []
  {
    Callback.TagRoundTrip(a);
  }

  /**
    Snoozing an existing task T whose slot is known: T becomes `Snoozed`, and
    each configured user of the pressing chat, and only those, gets one new
    pending task for T's slot, timed `snooze_minutes` after now as HH:MM.
   */
  lemma PressSnoozeChains(s: Store, cfg: Config, id: string, chat: string, clock: Clock, ids: seq<string>)
    requires |ids| == |cfg.users| && FreshIds(s, ids)
    requires id in s.tasks && s.tasks[id].slotId in cfg.slots
    ensures var d := HandleCallback(s, cfg, Callback.Encode(Callback.Snooze10, id), chat, clock, ids);
      var timeStr := SnoozeTime(cfg, clock);
      && d.ok
      && d.store.tasks[id].status == Snoozed
      && |d.store.tasks| == |s.tasks| + CountChat(cfg.users, chat)
      && forall i :: 0 <= i < |cfg.users| ==>
           && (ids[i] in d.store.tasks <==> cfg.users[i].chatId == chat)
           && (cfg.users[i].chatId == chat ==>
                 HasNewTask(d.store, ids[i], chat, timeStr, s.tasks[id].slotId, clock, cfg.timeoutMinutes))
  {
    Callback.TagRoundTrip(Callback.Snooze10);
    var marked := UpdateTaskStatus(s, id, Snoozed, clock.now);
    var timeStr := SnoozeTime(cfg, clock);
    assert marked.tasks[id].slotId == s.tasks[id].slotId && |marked.tasks| == |s.tasks|;
    assert FreshIds(marked, ids);
    SnoozeChainKnownSlot(marked, cfg, cfg.users, ids, chat, id, timeStr, clock);
    var d := SnoozeChain(marked, cfg, cfg.users, ids, chat, id, timeStr, clock);
    assert HandleCallback(s, cfg, Callback.Encode(Callback.Snooze10, id), chat, clock, ids) == d;
    assert d.store.tasks[id] == marked.tasks[id];
  }

  /** Snoozing a task id that does not exist logs the event and creates no task. */
  lemma PressSnoozeMissingTask(s: Store, cfg: Config, id: string, chat: string, clock: Clock, ids: seq<string>)
    requires |ids| == |cfg.users| && FreshIds(s, ids)
    requires id !in s.tasks
    ensures var d := HandleCallback(s, cfg, Callback.Encode(Callback.Snooze10, id), chat, clock, ids);
      && d.store.tasks == s.tasks && d.sent == [] && d.ok
      && d.store.events == s.events + [Event(id, None, Snoozed, clock.now)]
  {
    Callback.TagRoundTrip(Callback.Snooze10);
  }
}
