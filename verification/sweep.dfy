/** The timeout sweep run every minute (`timeout_scan`). */
module Sweep {
  import opened Wrappers
  import opened Model

  /** The rows the sweep selects: still pending and past their deadline. */
  predicate Expired(t: Task, now: int)
  {
    t.status == Pending && t.timeoutAt <= now
  }

  /** What the sweep does to one row. */
  function Swept(t: Task, now: int): Task
  {
    if Expired(t, now) then t.(status := Timeout, clickedAt := Some(now)) else t
  }

  /**
    The effect of one sweep at `now`: every expired pending task becomes
    `Timeout` with action time `now`, every other task (in particular every
    task already out of `Pending`) is unchanged, no expired pending task is
    left, and nothing is logged.
   */
  function TimeoutScan(s: Store, now: int): (r: Store)
    ensures r.tasks.Keys == s.tasks.Keys
    ensures r.events == s.events
    ensures forall k :: k in s.tasks && Expired(s.tasks[k], now) ==>
      r.tasks[k] == s.tasks[k].(status := Timeout, clickedAt := Some(now))
    ensures forall k :: k in s.tasks && !Expired(s.tasks[k], now) ==> r.tasks[k] == s.tasks[k]
    ensures forall k :: k in r.tasks ==> !Expired(r.tasks[k], now)
  {
    Store(map k | k in s.tasks :: Swept(s.tasks[k], now), s.events)
  }

  /** The ids the sweep's query returns: exactly the rows the sweep changes. */
  function ExpiredIds(s: Store, now: int): (ids: set<string>)
    ensures forall k :: k in ids <==> k in s.tasks && TimeoutScan(s, now).tasks[k] != s.tasks[k]
  {
    set k | k in s.tasks && Expired(s.tasks[k], now)
  }

  /**
    The sweep as the program runs it: first select the expired pending ids,
    then update each selected row in turn. The result is the sweep's effect.
   */
  method TimeoutScanRows(s: Store, now: int) returns (r: Store)
    ensures r == TimeoutScan(s, now)
  {
    var rows := ExpiredIds(s, now);
    var tasks := s.tasks;
    var todo := rows;
    while todo != {}
      invariant todo <= rows
      invariant tasks.Keys == s.tasks.Keys
      invariant forall k :: k in tasks && k !in todo ==> tasks[k] == Swept(s.tasks[k], now)
      invariant forall k :: k in todo ==> tasks[k] == s.tasks[k]
      decreases todo
    {
      var k :| k in todo;
      tasks := tasks[k := tasks[k].(status := Timeout, clickedAt := Some(now))];
      todo := todo - {k};
    }
    r := Store(tasks, s.events);
  }

  /** Sweeping twice at the same moment is the same as sweeping once. */
  lemma TimeoutScanIdempotent(s: Store, now: int)
    ensures TimeoutScan(TimeoutScan(s, now), now) == TimeoutScan(s, now)
  {
    var once := TimeoutScan(s, now);
    var twice := TimeoutScan(once, now);
    assert twice.tasks == once.tasks by {
      forall k | k in once.tasks ensures twice.tasks[k] == once.tasks[k] {
        assert !Expired(once.tasks[k], now);
      }
    }
  }
}
