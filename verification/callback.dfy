/**
  The callback data carried by the reminder's three buttons: an action tag
  and a task id joined by a colon, read back by splitting at the first colon.
 */
module Callback {
  import opened Wrappers
  import opened Text

  /** The three button actions of a reminder. */
  datatype Action = Done | Skip | Snooze10

  /** The tag written before the colon. */
  function Tag(a: Action): string
  {
    match a
    case Done => "done"
    case Skip => "skip"
    case Snooze10 => "snooze10"
  }

  /** Recognises an action tag; any other text names no action. */
  function ParseTag(t: string): (r: Option<Action>)
    ensures r.Some? ==> Tag(r.value) == t
  {
    if t == "done" then Some(Done)
    else if t == "skip" then Some(Skip)
    else if t == "snooze10" then Some(Snooze10)
    else None
  }

  /** Every tag is recognised as the action it was written for. */
  lemma TagRoundTrip(a: Action)
    ensures ParseTag(Tag(a)) == Some(a)
  {
  }

  /**
    The callback data of the button for action `a` on task `id`: splitting it
    at the first colon gives back the tag, recognised as `a`, and the id,
    whatever colons the id holds.
   */
  function Encode(a: Action, id: string): (r: string)
    ensures Split(r) == Some((Tag(a), id))
    ensures ParseTag(Split(r).value.0) == Some(a)
  {
    SplitJoin(Tag(a), id);
    Tag(a) + ":" + id
  }

  /** Different buttons carry different data: the action and the id are both recoverable. */
  lemma EncodeInjective(a: Action, id: string, b: Action, id': string)
    requires Encode(a, id) == Encode(b, id')
    ensures a == b && id == id'
  {
  }

  /** The callback data of a reminder's buttons, in display order. */
  function Buttons(id: string): (r: seq<string>)
    ensures |r| == 3
    ensures forall b :: b in r ==> Split(b).Some? && Split(b).value.1 == id
    ensures ParseTag(Split(r[0]).value.0) == Some(Done)
    ensures ParseTag(Split(r[1]).value.0) == Some(Skip)
    ensures ParseTag(Split(r[2]).value.0) == Some(Snooze10)
  {
    [Encode(Done, id), Encode(Skip, id), Encode(Snooze10, id)]
  }
}
