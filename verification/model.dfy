/**
  The data of the task lifecycle: the `tasks` and `events` tables held as an
  in-memory store, the configuration values the lifecycle reads, and the
  moment an operation runs at.
 */
module Model {
  import opened Wrappers
  import Slots

  /** The values of the `status` column. A task starts `Pending`. */
  datatype Status = Pending | Done | Skip | Timeout | Snoozed

  /** The text stored in the `status` and `event_type` columns. */
  function StatusText(s: Status): string
  {
    match s
    case Pending => "pending"
    case Done => "done"
    case Skip => "skip"
    case Timeout => "timeout"
    case Snoozed => "snoozed"
  }

  /** Reads a stored status text back; any other text is no known status. */
  function ParseStatus(t: string): (r: Option<Status>)
    ensures r.Some? ==> StatusText(r.value) == t
  {
    if t == "pending" then Some(Pending)
    else if t == "done" then Some(Done)
    else if t == "skip" then Some(Skip)
    else if t == "timeout" then Some(Timeout)
    else if t == "snoozed" then Some(Snoozed)
    else None
  }

  /** Every status is stored under its own text and read back as itself. */
  lemma StatusTextRoundTrip(s: Status)
    ensures ParseStatus(StatusText(s)) == Some(s)
  {
  }

  /** One row of the `tasks` table, without its key. Times are epoch seconds. */
  datatype Task = Task(
    userId: string,
    date: string,          // local calendar date, YYYY-MM-DD
    time: string,          // scheduled time of day, HH:MM
    slotId: string,
    status: Status,
    createdAt: int,
    timeoutAt: int,
    clickedAt: Option<int>)

  /** One row of the `events` audit table (its autoincrement id is its position). */
  datatype Event = Event(taskId: string, userId: Option<string>, eventType: Status, createdAt: int)

  /** Both tables: tasks keyed by task id, and the append-only event log. */
  datatype Store = Store(tasks: map<string, Task>, events: seq<Event>)

  /** A configured recipient; only the chat id is used. */
  datatype User = User(chatId: string)

  /**
    The configuration values the lifecycle reads: the recipients, the
    flattened slot catalog, the reminder windows in minutes, and the
    configured time zone as a fixed offset from UTC in seconds.
   */
  datatype Config = Config(
    users: seq<User>,
    slots: map<string, Slots.Slot>,
    timeoutMinutes: int,
    snoozeMinutes: int,
    utcOffset: int)

  /** The moment an operation runs at: epoch seconds and the local date. */
  datatype Clock = Clock(now: int, today: string)

  /**
    A supply of task ids for the ids generated during one operation: pairwise
    distinct and none already in the store.
   */
  predicate FreshIds(s: Store, ids: seq<string>)
  {
    && Distinct(ids)
    && (forall i :: 0 <= i < |ids| ==> ids[i] !in s.tasks)
  }

  predicate Distinct(ids: seq<string>)
  {
    forall i, j :: 0 <= i < j < |ids| ==> ids[i] != ids[j]
  }

  lemma DistinctSnoc(ids: seq<string>, k: string)
    requires Distinct(ids) && k !in ids
    ensures Distinct(ids + [k])
  {
  }

  /** Pairwise distinct ids are as many as the set they form. */
  lemma {:induction false} DistinctCard(ids: seq<string>)
    requires Distinct(ids)
    ensures |set k | k in ids| == |ids|
  {
    if ids != [] {
      var n := |ids| - 1;
      DistinctCard(ids[..n]);
      assert ids == ids[..n] + [ids[n]];
      assert (set k | k in ids) == (set k | k in ids[..n]) + {ids[n]};
      assert ids[n] !in ids[..n];
    }
  }

  /**
    A table that keeps every old key and gains exactly the (distinct, new)
    ids of a supply has grown by the length of the supply.
   */
  lemma GainedKeysCard(before: map<string, Task>, after: map<string, Task>, ids: seq<string>)
    requires Distinct(ids)
    requires before.Keys <= after.Keys
    requires forall k :: k in after ==> k in before || k in ids
    requires forall i :: 0 <= i < |ids| ==> ids[i] in after && ids[i] !in before
    ensures |after| == |before| + |ids|
  {
    var gained := set k | k in ids;
    assert after.Keys == before.Keys + gained;
    assert before.Keys !! gained;
    DistinctCard(ids);
  }
}
