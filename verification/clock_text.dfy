/**
  Time-of-day text: the `%H:%M` rendering of a moment in the configured zone
  (used for the snoozed reminder's time) and the `hour, minute` reading of
  such a text (used when registering the daily reminders).
 */
module ClockText {
  import opened Wrappers
  import opened Text

  predicate IsDigit(c: char)
  {
    '0' <= c <= '9'
  }

  predicate AllDigits(s: string)
  {
    forall i :: 0 <= i < |s| ==> IsDigit(s[i])
  }

  function Digit(n: nat): (c: char)
    requires n < 10
    ensures IsDigit(c) && c as int - '0' as int == n
  {
    (n + '0' as int) as char
  }

  /** The decimal value of a run of digits. */
  function Decimal(s: string): nat
    requires AllDigits(s)
  {
    if s == [] then 0 else Decimal(s[..|s| - 1]) * 10 + (s[|s| - 1] as int - '0' as int)
  }

  /** Zero-padded two-digit rendering, as `%H` and `%M` print. */
  function TwoDigits(n: nat): (r: string)
    requires n < 100
    ensures |r| == 2 && AllDigits(r) && ':' !in r
    ensures Decimal(r) == n
  {
    var r := [Digit(n / 10), Digit(n % 10)];
    assert r[..1] == [Digit(n / 10)];
    assert Decimal(r[..1]) == n / 10 by {
      assert r[..1][..0] == [];
    }
    r
  }

  /** The minute of the local day at epoch second `t` in a zone `offset` seconds east of UTC. */
  function MinuteOfDay(t: int, offset: int): (m: nat)
    ensures m < 24 * 60
  {
    ((t + offset) / 60) % (24 * 60)
  }

  /**
    `hour, minute = map(int, time_str.split(":"))`: exactly two colon-separated
    parts, each a non-empty run of digits; anything else is an error.
   */
  function ParseHhMm(t: string): (r: Option<(nat, nat)>)
    ensures r.Some? ==> exists hh, mm :: t == hh + ":" + mm && |hh| > 0 && |mm| > 0
                                          && AllDigits(hh) && AllDigits(mm)
                                          && r.value == (Decimal(hh), Decimal(mm))
  {
    match Split(t)
    case None => None
    case Some((hh, mm)) =>
      if ':' in mm || hh == [] || mm == [] || !AllDigits(hh) || !AllDigits(mm) then None
      else Some((Decimal(hh), Decimal(mm)))
  }

  /** Every pair of non-empty digit runs joined by one colon is read as their decimal values. */
  lemma ParseHhMmDigits(hh: string, mm: string)
    requires |hh| > 0 && |mm| > 0 && AllDigits(hh) && AllDigits(mm)
    ensures ParseHhMm(hh + ":" + mm) == Some((Decimal(hh), Decimal(mm)))
  {
    assert ':' !in hh by {
      forall i | 0 <= i < |hh| ensures hh[i] != ':' {
        assert IsDigit(hh[i]);
      }
    }
    assert ':' !in mm by {
      forall i | 0 <= i < |mm| ensures mm[i] != ':' {
        assert IsDigit(mm[i]);
      }
    }
    SplitJoin(hh, mm);
  }

  /**
    `strftime("%H:%M")` of epoch second `t`: five characters, and reading it
    back gives the hour and minute of the local day.
   */
  function FormatHhMm(t: int, offset: int): (r: string)
    ensures |r| == 5 && r[2] == ':'
    ensures ParseHhMm(r) == Some((MinuteOfDay(t, offset) / 60, MinuteOfDay(t, offset) % 60))
  {
    var m := MinuteOfDay(t, offset);
    var hh := TwoDigits(m / 60);
    var mm := TwoDigits(m % 60);
    SplitJoin(hh, mm);
    hh + ":" + mm
  }
}
