/**
  The weekly summary counts: per user, the tasks dated inside the report
  window grouped by status, and their total.
 */
module Report {
  import opened Wrappers
  import opened Model
  import Sweep
  import TaskStore

  /**
    The order SQLite's default collation puts TEXT values in: character by
    character, a proper prefix first. `BETWEEN` on the `date` column uses it.
   */
  predicate TextLe(a: string, b: string)
    decreases |a|
  {
    a == [] || (b != [] && (a[0] < b[0] || (a[0] == b[0] && TextLe(a[1..], b[1..]))))
  }

  /** Every text is within a window it bounds, so both window ends are included. */
  lemma {:induction false} TextLeReflexive(a: string)
    ensures TextLe(a, a)
    decreases |a|
  {
    if a != [] {
      TextLeReflexive(a[1..]);
    }
  }

  /** Any two texts are ordered one way or the other. */
  lemma {:induction false} TextLeTotal(a: string, b: string)
    ensures TextLe(a, b) || TextLe(b, a)
    decreases |a|
  {
    if a != [] && b != [] && a[0] == b[0] {
      TextLeTotal(a[1..], b[1..]);
    }
  }

  /** Two texts ordered both ways are equal. */
  lemma {:induction false} TextLeAntisymmetric(a: string, b: string)
    requires TextLe(a, b) && TextLe(b, a)
    ensures a == b
    decreases |a|
  {
    if a != [] {
      TextLeAntisymmetric(a[1..], b[1..]);
      assert a == [a[0]] + a[1..] && b == [b[0]] + b[1..];
    }
  }

  /** Texts are ordered the same way both ends of a `BETWEEN` compose: transitively. */
  lemma {:induction false} TextLeTransitive(a: string, b: string, c: string)
    requires TextLe(a, b) && TextLe(b, c)
    ensures TextLe(a, c)
    decreases |a|
  {
    if a != [] && a[0] == b[0] && b[0] == c[0] {
      TextLeTransitive(a[1..], b[1..], c[1..]);
    }
  }

  /**
    Lexicographic order spelt out: `a` is a prefix of `b`, or at the first
    position where they differ `a` has the smaller character.
   */
  predicate Lexicographic(a: string, b: string)
  {
    a <= b || exists i :: 0 <= i < |a| && i < |b| && a[..i] == b[..i] && a[i] < b[i]
  }

  /** The text comparison is exactly lexicographic order. */
  lemma {:induction false} TextLeLexicographic(a: string, b: string)
    ensures TextLe(a, b) <==> Lexicographic(a, b)
    decreases |a|
  {
    if a != [] && b != [] {
      TextLeLexicographic(a[1..], b[1..]);
      if a[0] < b[0] {
        assert a[..0] == b[..0];
      } else if a[0] == b[0] {
        assert a <= b <==> a[1..] <= b[1..] by {
          assert a == [a[0]] + a[1..] && b == [b[0]] + b[1..];
        }
        if Lexicographic(a[1..], b[1..]) && !(a[1..] <= b[1..]) {
          var j :| 0 <= j < |a[1..]| && j < |b[1..]| && a[1..][..j] == b[1..][..j] && a[1..][j] < b[1..][j];
          assert a[..j + 1] == [a[0]] + a[1..][..j];
          assert b[..j + 1] == [b[0]] + b[1..][..j];
        }
        if Lexicographic(a, b) && !(a <= b) {
          var i :| 0 <= i < |a| && i < |b| && a[..i] == b[..i] && a[i] < b[i];
          assert a[1..][..i - 1] == a[..i][1..];
          assert b[1..][..i - 1] == b[..i][1..];
          assert a[1..][i - 1] == a[i];
        }
      }
    }
  }

  /** `user_id = ? AND date BETWEEN ? AND ?`. */
  predicate InWindow(t: Task, user: string, start: string, end: string)
  {
    t.userId == user && TextLe(start, t.date) && TextLe(t.date, end)
  }

  /** The ids of the user's tasks dated in the window. */
  function Selected(s: Store, user: string, start: string, end: string): set<string>
  {
    set k | k in s.tasks && InWindow(s.tasks[k], user, start, end)
  }

  /** The ids of the user's tasks dated in the window with status `st`. */
  function SelectedWith(s: Store, user: string, start: string, end: string, st: Status): set<string>
  {
    set k | k in s.tasks && InWindow(s.tasks[k], user, start, end) && s.tasks[k].status == st
  }

  /** A wider window counts every task a narrower one counts. */
  lemma WindowNested(s: Store, user: string, start: string, end: string, start': string, end': string)
    requires TextLe(start', start) && TextLe(end, end')
    ensures Selected(s, user, start, end) <= Selected(s, user, start', end')
  {
    forall k | k in Selected(s, user, start, end) ensures k in Selected(s, user, start', end') {
      TextLeTransitive(start', start, s.tasks[k].date);
      TextLeTransitive(s.tasks[k].date, end, end');
    }
  }

  /** One row per status of `GROUP BY status`, a missing group read as 0. */
  datatype StatusCounts = StatusCounts(pending: nat, done: nat, skip: nat, timeout: nat, snoozed: nat)
  {
    function Get(st: Status): nat
    {
      match st
      case Pending => pending
      case Done => done
      case Skip => skip
      case Timeout => timeout
      case Snoozed => snoozed
    }

    /** `sum(counts.values())`. */
    function Total(): nat
    {
      pending + done + skip + timeout + snoozed
    }

    function Add(st: Status): (r: StatusCounts)
      ensures r.Get(st) == Get(st) + 1
      ensures forall o :: o != st ==> r.Get(o) == Get(o)
      ensures r.Total() == Total() + 1
    {
      match st
      case Pending => this.(pending := pending + 1)
      case Done => this.(done := done + 1)
      case Skip => this.(skip := skip + 1)
      case Timeout => this.(timeout := timeout + 1)
      case Snoozed => this.(snoozed := snoozed + 1)
    }
  }

  /** Whether task `t` is counted in the group `st`, or in the total when `st` is `None`. */
  predicate Counted(t: Task, user: string, start: string, end: string, st: Option<Status>)
  {
    InWindow(t, user, start, end) && (st.None? || t.status == st.value)
  }

  /** How many of the ids `ks`, visited in this order, name a counted task. */
  function Tally(s: Store, ks: seq<string>, user: string, start: string, end: string, st: Option<Status>): nat
  {
    if ks == [] then 0
    else
      var k := ks[|ks| - 1];
      Tally(s, ks[..|ks| - 1], user, start, end, st)
        + (if k in s.tasks && Counted(s.tasks[k], user, start, end, st) then 1 else 0)
  }

  lemma TallySnoc(s: Store, ks: seq<string>, k: string, user: string, start: string, end: string, st: Option<Status>)
    ensures Tally(s, ks + [k], user, start, end, st)
         == Tally(s, ks, user, start, end, st) + (if k in s.tasks && Counted(s.tasks[k], user, start, end, st) then 1 else 0)
  {
    assert (ks + [k])[..|ks|] == ks;
  }

  /** Over distinct ids, the tally is the number of counted tasks among them. */
  lemma {:induction false} TallyIsCard(s: Store, ks: seq<string>, user: string, start: string, end: string, st: Option<Status>)
    requires Distinct(ks)
    ensures Tally(s, ks, user, start, end, st)
         == |set k | k in ks && k in s.tasks && Counted(s.tasks[k], user, start, end, st)|
  {
    if ks != [] {
      var n := |ks| - 1;
      var init := ks[..n];
      assert Distinct(init);
      TallyIsCard(s, init, user, start, end, st);
      var before := set k | k in init && k in s.tasks && Counted(s.tasks[k], user, start, end, st);
      var after := set k | k in ks && k in s.tasks && Counted(s.tasks[k], user, start, end, st);
      assert ks == init + [ks[n]];
      assert ks[n] !in init;
      if ks[n] in s.tasks && Counted(s.tasks[ks[n]], user, start, end, st) {
        assert after == before + {ks[n]};
      } else {
        assert after == before;
      }
    }
  }

  /** `c` counts exactly the tasks named by `order`, per status and in total. */
  predicate Tallies(s: Store, user: string, start: string, end: string, order: seq<string>, c: StatusCounts)
  {
    && (forall st :: c.Get(st) == Tally(s, order, user, start, end, Some(st)))
    && c.Total() == Tally(s, order, user, start, end, None)
  }

  /** Counting one row: it adds to its status's group when it is in the window. */
  function CountRow(c: StatusCounts, t: Task, user: string, start: string, end: string): StatusCounts
  {
    if InWindow(t, user, start, end) then c.Add(t.status) else c
  }

  lemma CountRowStep(s: Store, user: string, start: string, end: string, order: seq<string>, k: string, c: StatusCounts)
    requires k in s.tasks
    requires Tallies(s, user, start, end, order, c)
    ensures Tallies(s, user, start, end, order + [k], CountRow(c, s.tasks[k], user, start, end))
  {
    TallySnoc(s, order, k, user, start, end, None);
    forall st ensures CountRow(c, s.tasks[k], user, start, end).Get(st) == Tally(s, order + [k], user, start, end, Some(st)) {
      TallySnoc(s, order, k, user, start, end, Some(st));
    }
  }

  /** Having visited every id once, the tallies are the sizes of the window's groups. */
  lemma TalliesAll(s: Store, user: string, start: string, end: string, order: seq<string>, c: StatusCounts)
    requires Distinct(order) && (forall k :: k in order <==> k in s.tasks)
    requires Tallies(s, user, start, end, order, c)
    ensures forall st :: c.Get(st) == |SelectedWith(s, user, start, end, st)|
    ensures c.Total() == |Selected(s, user, start, end)|
  {
    forall st ensures c.Get(st) == |SelectedWith(s, user, start, end, st)| {
      TallyIsCard(s, order, user, start, end, Some(st));
      assert (set k | k in order && k in s.tasks && Counted(s.tasks[k], user, start, end, Some(st)))
          == SelectedWith(s, user, start, end, st);
    }
    TallyIsCard(s, order, user, start, end, None);
    assert (set k | k in order && k in s.tasks && Counted(s.tasks[k], user, start, end, None))
        == Selected(s, user, start, end);
  }

  /**
    The counts `weekly_report` reads for one user: each status's count is the
    number of that user's tasks in the window with that status, and the total
    is the number of that user's tasks in the window, so the reported
    done, skip, timeout and snoozed counts never exceed it.
   */
  method WeeklyCounts(s: Store, user: string, start: string, end: string) returns (c: StatusCounts)
    ensures forall st :: c.Get(st) == |SelectedWith(s, user, start, end, st)|
    ensures c.Total() == |Selected(s, user, start, end)|
    ensures c.done + c.skip + c.timeout + c.snoozed <= c.Total()
  {
    c := StatusCounts(0, 0, 0, 0, 0);
    var todo := s.tasks.Keys;
    ghost var order: seq<string> := [];
    while todo != {}
      invariant todo <= s.tasks.Keys
      invariant forall k :: k in order <==> k in s.tasks && k !in todo
      invariant Distinct(order)
      invariant Tallies(s, user, start, end, order, c)
      decreases todo
    {
      var k :| k in todo;
      CountRowStep(s, user, start, end, order, k, c);
      DistinctSnoc(order, k);
      c := CountRow(c, s.tasks[k], user, start, end);
      todo := todo - {k};
      order := order + [k];
    }
    TalliesAll(s, user, start, end, order, c);
  }

  /**
    The completion figure of the report: absent when the total is 0 (the
    report then shows "0%"), otherwise the done count over the total, which
    is at most one.
   */
  function Completion(c: StatusCounts): (r: Option<(nat, nat)>)
    ensures r.None? <==> c.Total() == 0
    ensures r.Some? ==> r.value.0 == c.done && r.value.1 == c.Total() && r.value.0 <= r.value.1
  {
    if c.Total() == 0 then None else Some((c.done, c.Total()))
  }

  /**
    `weekly_report`'s counting for every configured user, in configuration
    order, for the window from `start` to `end` (both included).
   */
  method WeeklyReport(s: Store, cfg: Config, start: string, end: string) returns (rows: seq<StatusCounts>)
    ensures |rows| == |cfg.users|
    ensures forall i :: 0 <= i < |rows| ==> rows[i].Total() == |Selected(s, cfg.users[i].chatId, start, end)|
    ensures forall i, st :: 0 <= i < |rows| ==> rows[i].Get(st) == |SelectedWith(s, cfg.users[i].chatId, start, end, st)|
  {
    rows := [];
    var i := 0;
    while i < |cfg.users|
      invariant 0 <= i <= |cfg.users| && |rows| == i
      invariant forall j :: 0 <= j < i ==> rows[j].Total() == |Selected(s, cfg.users[j].chatId, start, end)|
      invariant forall j, st :: 0 <= j < i ==> rows[j].Get(st) == |SelectedWith(s, cfg.users[j].chatId, start, end, st)|
    {
      var c := WeeklyCounts(s, cfg.users[i].chatId, start, end);
      rows := rows + [c];
      i := i + 1;
    }
  }

  /** The sweep changes statuses only, so it keeps the set of tasks a report counts. */
  lemma SweepKeepsWindow(s: Store, now: int, user: string, start: string, end: string)
    ensures Selected(Sweep.TimeoutScan(s, now), user, start, end) == Selected(s, user, start, end)
  {
    var r := Sweep.TimeoutScan(s, now);
    forall k | k in s.tasks ensures InWindow(r.tasks[k], user, start, end) <==> InWindow(s.tasks[k], user, start, end) {
      assert r.tasks[k].userId == s.tasks[k].userId && r.tasks[k].date == s.tasks[k].date;
    }
  }

  /** A status transition likewise keeps the set of tasks a report counts. */
  lemma UpdateKeepsWindow(s: Store, id: string, st: Status, now: int, user: string, start: string, end: string)
    ensures Selected(TaskStore.UpdateTaskStatus(s, id, st, now), user, start, end) == Selected(s, user, start, end)
  {
    var r := TaskStore.UpdateTaskStatus(s, id, st, now);
    forall k | k in s.tasks ensures InWindow(r.tasks[k], user, start, end) <==> InWindow(s.tasks[k], user, start, end) {
    }
  }
}
