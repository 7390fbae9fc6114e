# utt-balance: the balance engine in Dafny

This project models the `balance` command of the utt-balance plugin for the
`utt` time tracker (`src/utt/plugins/balance.py`, class `BalanceHandler`).
The command reads the time log and works out how much has been worked today
and since the start of the week. It subtracts each figure from its target and
picks the colour each figure is shown in.

The log is a list of entries. Each entry has a name and the instant it was
written. Each pair of consecutive entries makes one activity, which is named
after the later entry. Activities are clipped to the days of a window, and
those with no time left are dropped. Worked time is the total duration of the
WORK activities, leaving out the span closed by the day's `hello` entry.

Modules:

- `Api` (`api.dfy`): the host API types the handler uses. These are entries,
  names, activities and their types, `Activity.clip`, `Activity.duration`
  and `HELLO_ENTRY_NAME`. The host's code is not part of this model, so
  `clip(s, e)` is ASSUMED to be `(max(start, s), min(end, e))` and `duration`
  to be `end - start`.
- `Calendar` (`calendar.dfy`): dates are Python day ordinals, and
  `Weekday(d) = (d + 6) % 7` as in `date.weekday()`. Datetimes and
  timedeltas are integer microseconds. The window for days `d0..d1` is
  `[d0 00:00:00, d1 23:59:59.999999]`.
- `Decimal` (`decimal.dfy`): `str(n)`, the `02d` format, and a reader for
  digit strings that serves as their inverse.
- `Balance` (`balance.dfy`): the handler itself. `BalanceHandler` is a class
  whose fields `args`, `now` and `entries` are set once in the constructor.
  The loops of `_entries_to_activities` and `_filter_and_clip_activities` are
  methods proved against the functions `PairEntries` and `FilterAndClip`.
  `_calculate_worked_time` is proved equal to an independent reference:
  `OverlapSum`, the sum over work activities of
  `max(0, min(end, we) - max(start, ws))`.

Three facts about the code shape the model:

- A window ends at 23:59:59.999999 of the last day of the range, not at the
  current instant (balance.py:123-128).
- Activities are the spans between consecutive entries, each named after the
  later entry (balance.py:103-114).
- The span closed by the `hello` entry is not counted as work
  (balance.py:87-91).

## Model

| member | source | states |
|---|---|---|
| `Balance.BalanceHandler.constructor` | src/utt/plugins/balance.py:21-31 | the handler keeps the arguments, the current instant and the entries it is given |
| `Balance.BalanceHandler.Call` | src/utt/plugins/balance.py:33-52 | worked today and worked this week are the summed work overlaps with `[today]` and `[week start .. today]`; `0 <= worked today <= worked week`; remaining is target minus worked for each period, with no clamping, so overtime gives a negative remaining |
| `Balance.BalanceHandler.GetWeekStartDate` | src/utt/plugins/balance.py:54-64 | the week start is 0 to 6 days before today; its weekday is the configured day (the day's name is `args.weekStart`); it is today exactly when today has that weekday; no day after it, up to today, has that weekday |
| `Balance.WeekStartOnOrBefore` | src/utt/plugins/balance.py:61-64 | stepping back `(today.weekday() - w) % 7` days gives the latest day on or before today whose weekday is `w`, at most 6 days back |
| `Balance.WeekdayStart` | src/utt/plugins/balance.py:63-64 | the `% 7` difference lies in 0..6, lands on weekday `w`, and skips no day of weekday `w` |
| `Balance.IndexOf` | src/utt/plugins/balance.py:56-60 | `day_names.index(name)`: a position holding the name, with no earlier occurrence |
| `Calendar.Weekday` | src/utt/plugins/balance.py:61 | `date.weekday()` lies in 0..6 |
| `Calendar.WeekdayAdvance` | src/utt/plugins/balance.py:61-64 | moving `j` days moves the weekday `j` places modulo 7 |
| `Calendar.DateOf` | src/utt/plugins/balance.py:34 | `now.date()` is the day whose midnight-to-last-microsecond span contains `now` |
| `Calendar.EndOfDay` | src/utt/plugins/balance.py:126-128 | 23:59:59.999999 is after midnight and is the last microsecond before the next midnight |
| `Calendar.MidnightMonotone` | src/utt/plugins/balance.py:123-128 | a later start date gives a later window start and a later window end |
| `Balance.PairEntries` | src/utt/plugins/balance.py:103-114 | n entries give max(n-1, 0) activities; activity i runs from entry i's instant to entry i+1's, with entry i+1's name and type |
| `Balance.BalanceHandler.EntriesToActivities` | src/utt/plugins/balance.py:103-114 | the index loop over consecutive entries yields exactly `PairEntries(entries)` |
| `Balance.FilterAndClip` | src/utt/plugins/balance.py:116-135 | every activity kept has strictly positive duration and lies inside the window; no more activities come out than go in |
| `Balance.FilterAndClipAppend` | src/utt/plugins/balance.py:130-135 | clipping a concatenation gives the concatenation of the clipped parts, so input order is kept |
| `Balance.FilterAndClipMembers` | src/utt/plugins/balance.py:130-135 | every activity kept is the clip of an input activity, and every input whose clip has positive duration is kept |
| `Balance.BalanceHandler.FilterAndClipActivities` | src/utt/plugins/balance.py:116-135 | the append loop over the activities returns exactly `FilterAndClip` over `[start_date 00:00, end_date 23:59:59.999999]` |
| `Balance.BalanceHandler.GetActivitiesForRange` | src/utt/plugins/balance.py:94-101 | the activities for a range are the paired entries, clipped and filtered to that range |
| `Balance.WorkActivities` | src/utt/plugins/balance.py:87-91 | an activity is selected iff it is in the input, has type WORK, and is not named `hello` |
| `Balance.WorkActivitiesAppend` | src/utt/plugins/balance.py:87-91 | the selection of a concatenation is the concatenation of the selections |
| `Balance.TotalDurationAppend` | src/utt/plugins/balance.py:92 | the summed duration of a concatenation is the sum of the two totals |
| `Balance.WorkedTotalAppend` | src/utt/plugins/balance.py:86-92 | worked time adds up over a concatenation |
| `Balance.NoWorkActivities` | src/utt/plugins/balance.py:87-91 | a list with no work activity selects nothing |
| `Balance.NonWorkIgnored` | src/utt/plugins/balance.py:86-92 | inserting non-WORK or `hello` activities anywhere never changes the worked time |
| `Balance.WorkedTotalPositive` | src/utt/plugins/balance.py:86-92 | over activities of positive duration, worked time is at least 0, and above 0 when any of them is work |
| `Balance.Overlap` | src/utt/plugins/balance.py:86-92 | one activity's share of the window is never negative |
| `Balance.OverlapSum` | src/utt/plugins/balance.py:86-92 | the reference worked time is never negative |
| `Balance.WorkedTotalClipOne` | src/utt/plugins/balance.py:130-135 | one activity, clipped and filtered, contributes exactly its overlap with the window if it is work, else nothing |
| `Balance.WorkedTotalIsOverlapSum` | src/utt/plugins/balance.py:86-135 | clip, filter, select work and sum equals the sum of the work activities' overlaps with the window |
| `Balance.OverlapSumMonotone` | src/utt/plugins/balance.py:34-38 | a window inside another collects no more worked time, so worked today is at most worked this week |
| `Balance.WorkedRangeMonotone` | src/utt/plugins/balance.py:34-38 | for the same entries, a range of days inside another (later or equal start, earlier or equal end) collects no more worked time; the week from its start to today therefore holds at least today's work |
| `Balance.BalanceHandler.CalculateWorkedTime` | src/utt/plugins/balance.py:66-92 | the worked time for `start_date..end_date` is the sum of the work overlaps with that window, and it is at least 0 |
| `Balance.WorkedDayExample` | src/utt/plugins/balance.py:86-135 | a day with hello at 09:00, work to 12:30, a break to 13:00 and work to 16:00 holds 6h30; the overnight span closed by hello does not count |
| `Balance.TotalSeconds` | src/utt/plugins/balance.py:192 | `int(td.total_seconds())` truncates toward zero: its magnitude is the whole seconds of the duration's magnitude, and its sign is the duration's sign |
| `Balance.FormatTimedelta` | src/utt/plugins/balance.py:189-200 | the text has at least four characters and starts with `-` iff the truncated seconds are negative |
| `Balance.FormatTimedeltaMeaning` | src/utt/plugins/balance.py:189-200 | read back, the text gives the sign of the truncated seconds, the whole hours, and the minutes in 0..59; `hours*3600 + minutes*60` is within a minute below the truncated seconds' magnitude |
| `Balance.ParseRendered` | src/utt/plugins/balance.py:196-200 | `[-]<hours>h<mm>` reads back to its sign, hours and minutes |
| `Balance.ParseUnsignedRendered` | src/utt/plugins/balance.py:199 | `<hours>h<mm>` reads back to its hours and minutes; the reader accepts only an hours field without leading zeros, so the read-back pins the exact `str(hours)` text |
| `Balance.FormatTimedeltaExamples` | src/utt/plugins/balance.py:191 | 6h30 renders as `6h30`, and minus 1h15 renders as `-1h15` |
| `Balance.FormatTimedeltaNegativeZero` | src/utt/plugins/balance.py:192-200 | -30 s renders as `-0h00`, and -0.5 s renders as `0h00` |
| `Balance.FormatRemaining` | src/utt/plugins/balance.py:179-187 | the remaining figure is yellow3 iff zero, red iff negative, green iff positive, and its text is the formatted duration |
| `Balance.FormatWorked` | src/utt/plugins/balance.py:168-177 | the worked figure is shown as the formatted duration, in the same colour as `target - worked` gets |
| `Decimal.Str` | src/utt/plugins/balance.py:199 | `str(hours)` is a non-empty digit string with no leading zero; the only numeral starting with `0` is `"0"` itself |
| `Decimal.ValueOfStr` | src/utt/plugins/balance.py:199 | reading `str(n)` back gives `n` |
| `Decimal.Pad2` | src/utt/plugins/balance.py:199 | `f"{m:02d}"` for `m < 100` is two digits that read back as `m` |

## Left out

- `_display_table` and the `rich` `Console`, `Table` and `Text` rendering are
  terminal output (balance.py:137-166). Only the text and style tag of each
  cell are modelled (`FormatWorked`, `FormatRemaining`). `Call` returns the
  four figures and the week-start name instead of printing them. The row
  label `Since <Day>`, with its `capitalize()`, is not built.
- `add_args`, argparse, `_v1.Command` and `register_command` are plugin
  wiring (balance.py:203-236). The argparse `choices` are what make
  `week_start` one of the seven lower-case day names. The model therefore
  takes `args.weekStart in DAY_NAMES` as a precondition, and `.lower()` is
  the identity on those names. A name outside the list would raise
  `ValueError` in `list.index`, and that is not modelled.
- `timedelta(hours=float)` for `--daily-hrs` and `--weekly-hrs` is floating
  point. Targets are taken as integer microseconds.
- Balance.TotalSeconds: `td.total_seconds()` is a float division. The model
  truncates the exact quotient. The two agree for durations below 2^33
  seconds (about 272 years), because below that bound a float's rounding
  error is less than one microsecond's worth of seconds.
- The internals of `_v1.Activity`, `_v1.Entries` and `_v1.Now` are not part
  of this model:
  - `clip` and `duration` are the assumed interval operations above.
  - The activity type that the host derives from an entry's name is carried
    in `Name.kind`.
  - A name is reduced to its `name` string; project and task are not
    modelled.
  - The `is_current_entry` flag, always `False` here, is dropped.
  - `HELLO_ENTRY_NAME` is taken to be `"hello"`.
- Time zones, and the conversion between year/month/day and day numbers,
  are not modelled. Dates are day numbers.
- Python's `date` and `timedelta` range limits, with their `OverflowError`,
  are not modelled. Integers are unbounded.
- The `_output` stream is not modelled, since nothing is printed.
- `src/utt_balance/__init__.py` holds package metadata only.
