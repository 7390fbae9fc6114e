/** The part of the host application's plugin API (`utt.api._v1`) that the
    balance handler uses. Its implementation is not part of this model: the
    definitions below are the ASSUMED behaviour of entries, activities,
    `Activity.clip` and `Activity.duration`, stated as plain interval
    operations on integer microseconds. */
module Api {

  /** The activity type of the host API. */
  datatype ActivityType = Work | Break | Ignored

  /** An entry's name. `kind` is the activity type that the host derives from
      the name when it builds an activity; how it is derived is not modelled. */
  datatype Name = Name(name: string, kind: ActivityType)

  /** One line of the time log: a name and the instant it was written,
      in microseconds. */
  datatype Entry = Entry(name: Name, datetime: int)

  /** A span of time between two instants, named after the entry that closed it. */
  datatype Activity = Activity(name: Name, kind: ActivityType, start: int, end: int)

  /** The name of the entry that opens a day; the span it closes is not work. */
  const HELLO_ENTRY_NAME: string := "hello"

  function Max(a: int, b: int): int { if a < b then b else a }

  function Min(a: int, b: int): int { if a < b then a else b }

  /** Builds an activity the way the host's constructor does: its type comes
      from its name. */
  function NewActivity(name: Name, start: int, end: int): Activity
  {
    Activity(name, name.kind, start, end)
  }

  /** Assumed `Activity.clip(s, e)`: the same activity with its start raised to
      `s` and its end lowered to `e`. The result may have negative duration. */
  function Clip(a: Activity, s: int, e: int): Activity
  {
    a.(start := Max(a.start, s), end := Min(a.end, e))
  }

  /** Assumed `Activity.duration`: end minus start, in microseconds. */
  function Duration(a: Activity): int
  {
    a.end - a.start
  }
}
