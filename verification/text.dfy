/** Splitting text at its first colon, as Python's `str.split(":", 1)` does. */
module Text {
  import opened Wrappers

  /** The position of the first colon of `s`, if any. */
  function FirstColon(s: string): (r: Option<nat>)
    ensures r.None? ==> ':' !in s
    ensures r.Some? ==> r.value < |s| && s[r.value] == ':' && ':' !in s[..r.value]
  {
    if |s| == 0 then None
    else if s[0] == ':' then Some(0)
    else match FirstColon(s[1..])
      case None => None
      case Some(i) =>
        assert s[..i + 1] == [s[0]] + s[1..][..i];
        Some(i + 1)
  }

  /**
    `s.split(":", 1)` where `s` holds a colon: the text before the first colon
    and everything after it; no result when there is no colon.
   */
  function Split(s: string): (r: Option<(string, string)>)
    ensures r.None? <==> ':' !in s
    ensures r.Some? ==> s == r.value.0 + ":" + r.value.1 && ':' !in r.value.0
  {
    match FirstColon(s)
    case None => None
    case Some(i) =>
      assert s == s[..i] + ":" + s[i + 1..];
      Some((s[..i], s[i + 1..]))
  }

  /**
    Splitting at the first colon takes apart any text joined at a colon
    whose left part has no colon, whatever the right part holds.
   */
  lemma SplitJoin(p: string, q: string)
    requires ':' !in p
    ensures Split(p + ":" + q) == Some((p, q))
  {
    var s := p + ":" + q;
    assert s[|p|] == ':';
    var i := FirstColon(s).value;
    assert s[..i] == p;
    assert s[i + 1..] == q;
  }

}
