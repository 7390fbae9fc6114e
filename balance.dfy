/** The balance command: worked time today and this week, the time remaining
    to the daily and weekly targets, and the colour each figure is shown in.

    Instants are microseconds and dates are day numbers (module Calendar);
    entries, activities, `clip` and `duration` are the host's (module Api). */
module Balance {
  import opened Api
  import opened Calendar
  import opened Decimal

  // ---------------------------------------------------------------------
  // Configuration

  /** The parsed command line. Targets are durations in microseconds;
      `weekStart` is one of DAY_NAMES. */
  datatype Args = Args(dailyTarget: int, weeklyTarget: int, weekStart: string)

  const DAY_NAMES: seq<string> :=
    ["monday", "tuesday", "wednesday", "thursday", "friday", "saturday", "sunday"]

  /** `list.index`: the position of the first occurrence of `x` in `s`. */
  function IndexOf<T(==)>(s: seq<T>, x: T): (i: nat)
    requires x in s
    ensures i < |s| && s[i] == x
    ensures x !in s[..i]
  {
    if s[0] == x then 0 else 1 + IndexOf(s[1..], x)
  }

  // ---------------------------------------------------------------------
  // Pairing entries into activities

  /** The activity between two consecutive entries: it runs from the first
      entry's instant to the second's and carries the second entry's name. */
  function Span(prev: Entry, next: Entry): Activity
  {
    NewActivity(next.name, prev.datetime, next.datetime)
  }

  /** The activities between consecutive entries, in order. */
  function PairEntries(entries: seq<Entry>): (r: seq<Activity>)
    ensures |r| == if |entries| == 0 then 0 else |entries| - 1
    ensures forall i :: 0 <= i < |r| ==> r[i] == Span(entries[i], entries[i + 1])
  {
    if |entries| < 2 then []
    else PairEntries(entries[..|entries| - 1]) + [Span(entries[|entries| - 2], entries[|entries| - 1])]
  }

  // ---------------------------------------------------------------------
  // Clipping to a window

  /** What one activity contributes to the clipped list: its clipped copy
      when that has positive duration, nothing otherwise. */
  function ClipOne(a: Activity, ws: int, we: int): seq<Activity>
  {
    var c := Clip(a, ws, we);
    if Duration(c) > 0 then [c] else []
  }

  /** The activities clipped to `[ws, we]`, keeping those of positive duration. */
  function FilterAndClip(acts: seq<Activity>, ws: int, we: int): (r: seq<Activity>)
    ensures |r| <= |acts|
    ensures forall a :: a in r ==> Duration(a) > 0 && ws <= a.start && a.end <= we
  {
    if acts == [] then []
    else FilterAndClip(acts[..|acts| - 1], ws, we) + ClipOne(acts[|acts| - 1], ws, we)
  }

  /** Clipping works activity by activity: the output for a concatenation is
      the concatenation of the outputs, so input order is kept. */
  lemma {:induction false} FilterAndClipAppend(a: seq<Activity>, b: seq<Activity>, ws: int, we: int)
    ensures FilterAndClip(a + b, ws, we) == FilterAndClip(a, ws, we) + FilterAndClip(b, ws, we)
    decreases |b|
  {
    if b == [] {
      assert a + b == a;
    } else {
      var b', last := b[..|b| - 1], b[|b| - 1];
      assert (a + b)[..|a + b| - 1] == a + b';
      assert (a + b)[|a + b| - 1] == last;
      FilterAndClipAppend(a, b', ws, we);
      calc {
        FilterAndClip(a + b, ws, we);
        FilterAndClip(a + b', ws, we) + ClipOne(last, ws, we);
        FilterAndClip(a, ws, we) + FilterAndClip(b', ws, we) + ClipOne(last, ws, we);
        FilterAndClip(a, ws, we) + (FilterAndClip(b', ws, we) + ClipOne(last, ws, we));
        FilterAndClip(a, ws, we) + FilterAndClip(b, ws, we);
      }
    }
  }

  /** Every activity kept is the clipped copy of some input activity, and
      every input whose clipped copy has positive duration is kept. */
  lemma {:induction false} FilterAndClipMembers(acts: seq<Activity>, ws: int, we: int)
    ensures forall c :: c in FilterAndClip(acts, ws, we) ==> exists a :: a in acts && c == Clip(a, ws, we)
    ensures forall a :: a in acts && Duration(Clip(a, ws, we)) > 0 ==> Clip(a, ws, we) in FilterAndClip(acts, ws, we)
    decreases |acts|
  {
    if acts != [] {
      var init, last := acts[..|acts| - 1], acts[|acts| - 1];
      FilterAndClipMembers(init, ws, we);
      assert acts == init + [last];
      forall c | c in FilterAndClip(acts, ws, we)
        ensures exists a :: a in acts && c == Clip(a, ws, we)
      {
        if c in FilterAndClip(init, ws, we) {
          var a :| a in init && c == Clip(a, ws, we);
          assert a in acts;
        } else {
          assert c == Clip(last, ws, we) && last in acts;
        }
      }
    }
  }

  // ---------------------------------------------------------------------
  // Worked time

  /** An activity counts as work when its type is WORK and it is not the
      span closed by the day's hello entry. */
  predicate IsWork(a: Activity)
  {
    a.kind == Work && a.name.name != HELLO_ENTRY_NAME
  }

  /** The work activities, in order (the list comprehension). */
  function WorkActivities(acts: seq<Activity>): (r: seq<Activity>)
    ensures forall a :: a in r <==> a in acts && IsWork(a)
  {
    if acts == [] then []
    else
      var init, last := acts[..|acts| - 1], acts[|acts| - 1];
      assert acts == init + [last];
      WorkActivities(init) + (if IsWork(last) then [last] else [])
  }

  /** The sum of the activities' durations, starting from a zero timedelta. */
  function TotalDuration(acts: seq<Activity>): int
  {
    if acts == [] then 0 else TotalDuration(acts[..|acts| - 1]) + Duration(acts[|acts| - 1])
  }

  /** Worked time of a list of clipped activities: the durations of its work
      activities, summed. */
  function WorkedTotal(acts: seq<Activity>): int
  {
    TotalDuration(WorkActivities(acts))
  }

  lemma {:induction false} WorkActivitiesAppend(a: seq<Activity>, b: seq<Activity>)
    ensures WorkActivities(a + b) == WorkActivities(a) + WorkActivities(b)
    decreases |b|
  {
    if b == [] {
      assert a + b == a;
    } else {
      var b' := b[..|b| - 1];
      assert (a + b)[..|a + b| - 1] == a + b';
      assert (a + b)[|a + b| - 1] == b[|b| - 1];
      WorkActivitiesAppend(a, b');
    }
  }

  lemma {:induction false} TotalDurationAppend(a: seq<Activity>, b: seq<Activity>)
    ensures TotalDuration(a + b) == TotalDuration(a) + TotalDuration(b)
    decreases |b|
  {
    if b == [] {
      assert a + b == a;
    } else {
      var b' := b[..|b| - 1];
      assert (a + b)[..|a + b| - 1] == a + b';
      assert (a + b)[|a + b| - 1] == b[|b| - 1];
      TotalDurationAppend(a, b');
    }
  }

  /** Worked time adds up over a concatenation. */
  lemma WorkedTotalAppend(a: seq<Activity>, b: seq<Activity>)
    ensures WorkedTotal(a + b) == WorkedTotal(a) + WorkedTotal(b)
  {
    WorkActivitiesAppend(a, b);
    TotalDurationAppend(WorkActivities(a), WorkActivities(b));
  }

  /** Inserting activities that are not work, or that are the hello span,
      anywhere in the list never changes the worked time. */
  lemma NonWorkIgnored(a: seq<Activity>, b: seq<Activity>, c: seq<Activity>)
    requires forall x :: x in b ==> !IsWork(x)
    ensures WorkedTotal(a + b + c) == WorkedTotal(a + c)
  {
    WorkedTotalAppend(a + b, c);
    WorkedTotalAppend(a, b);
    WorkedTotalAppend(a, c);
    NoWorkActivities(b);
  }

  lemma {:induction false} NoWorkActivities(b: seq<Activity>)
    requires forall x :: x in b ==> !IsWork(x)
    ensures WorkActivities(b) == []
    decreases |b|
  {
    if b != [] {
      var init := b[..|b| - 1];
      assert forall x :: x in init ==> x in b;
      NoWorkActivities(init);
      assert b[|b| - 1] in b;
    }
  }

  /** A list of activities of positive duration has a non-negative total,
      positive as soon as one of them is work. */
  lemma {:induction false} WorkedTotalPositive(acts: seq<Activity>)
    requires forall a :: a in acts ==> Duration(a) > 0
    ensures WorkedTotal(acts) >= 0
    ensures (exists a :: a in acts && IsWork(a)) ==> WorkedTotal(acts) > 0
    decreases |acts|
  {
    if acts != [] {
      var init, last := acts[..|acts| - 1], acts[|acts| - 1];
      assert acts == init + [last];
      WorkedTotalAppend(init, [last]);
      assert forall a :: a in init ==> a in acts;
      WorkedTotalPositive(init);
      assert WorkActivities([last]) == if IsWork(last) then [last] else [];
    }
  }

  // ---------------------------------------------------------------------
  // Reference definition: overlap of each work activity with the window

  /** The part of a work activity that lies in `[ws, we]`, or zero. */
  function Overlap(a: Activity, ws: int, we: int): (d: int)
    ensures d >= 0
  {
    if IsWork(a) then Max(0, Min(a.end, we) - Max(a.start, ws)) else 0
  }

  /** Worked time in a window, computed directly from the unclipped
      activities as the sum of their overlaps with it. */
  function OverlapSum(acts: seq<Activity>, ws: int, we: int): (r: int)
    ensures r >= 0
  {
    if acts == [] then 0 else OverlapSum(acts[..|acts| - 1], ws, we) + Overlap(acts[|acts| - 1], ws, we)
  }

  /** Clipping, filtering and summing the work activities gives the sum of the
      overlaps of the work activities with the window. */
  lemma {:induction false} WorkedTotalIsOverlapSum(acts: seq<Activity>, ws: int, we: int)
    ensures WorkedTotal(FilterAndClip(acts, ws, we)) == OverlapSum(acts, ws, we)
    decreases |acts|
  {
    if acts != [] {
      var init, last := acts[..|acts| - 1], acts[|acts| - 1];
      WorkedTotalIsOverlapSum(init, ws, we);
      assert FilterAndClip(acts, ws, we) == FilterAndClip(init, ws, we) + ClipOne(last, ws, we);
      WorkedTotalAppend(FilterAndClip(init, ws, we), ClipOne(last, ws, we));
      WorkedTotalClipOne(last, ws, we);
    }
  }

  /** One activity, clipped and filtered, contributes exactly its overlap. */
  lemma WorkedTotalClipOne(a: Activity, ws: int, we: int)
    ensures WorkedTotal(ClipOne(a, ws, we)) == Overlap(a, ws, we)
  {
    var c := Clip(a, ws, we);
    if Duration(c) > 0 {
      assert [c][..0] == [];
      assert WorkActivities([c]) == if IsWork(c) then [c] else [];
      assert TotalDuration([c]) == Duration(c);
    }
  }

  /** A window inside another collects no more worked time. */
  lemma {:induction false} OverlapSumMonotone(acts: seq<Activity>, ws0: int, we0: int, ws1: int, we1: int)
    requires ws0 <= ws1 && we1 <= we0
    ensures OverlapSum(acts, ws1, we1) <= OverlapSum(acts, ws0, we0)
    decreases |acts|
  {
    if acts != [] {
      OverlapSumMonotone(acts[..|acts| - 1], ws0, we0, ws1, we1);
    }
  }

  /** A day's log: work until 18:00 the day before, hello at 09:00, work
      until 12:30, a lunch break until 13:00, work until 16:00. The overnight
      span closed by hello and the break do not count; the day holds 6h30. */
  lemma WorkedDayExample(day: int)
    ensures var m, minute := Midnight(day), 60 * MICROS_PER_SECOND;
      var entries := [
        Entry(Name("project", Work), m - 360 * minute),
        Entry(Name(HELLO_ENTRY_NAME, Work), m + 540 * minute),
        Entry(Name("project", Work), m + 750 * minute),
        Entry(Name("lunch **", Break), m + 780 * minute),
        Entry(Name("project", Work), m + 960 * minute)];
      OverlapSum(PairEntries(entries), Midnight(day), EndOfDay(day)) == 390 * minute
  {
    var m, minute := Midnight(day), 60 * MICROS_PER_SECOND;
    var entries := [
      Entry(Name("project", Work), m - 360 * minute),
      Entry(Name(HELLO_ENTRY_NAME, Work), m + 540 * minute),
      Entry(Name("project", Work), m + 750 * minute),
      Entry(Name("lunch **", Break), m + 780 * minute),
      Entry(Name("project", Work), m + 960 * minute)];
    var acts := PairEntries(entries);
    var ws, we := Midnight(day), EndOfDay(day);
    assert acts[..1][..0] == [];
    assert "project"[0] != HELLO_ENTRY_NAME[0];
    assert acts[0] == Span(entries[0], entries[1]);
    assert acts[1] == Span(entries[1], entries[2]);
    assert acts[2] == Span(entries[2], entries[3]);
    assert acts[3] == Span(entries[3], entries[4]);
    assert Overlap(acts[0], ws, we) == 0;
    assert Overlap(acts[1], ws, we) == 210 * minute;
    assert Overlap(acts[2], ws, we) == 0;
    assert Overlap(acts[3], ws, we) == 180 * minute;
    assert acts[..3][..2] == acts[..2] && acts[..2][..1] == acts[..1];
    assert OverlapSum(acts[..1], ws, we) == 0;
    assert OverlapSum(acts[..2], ws, we) == 210 * minute;
    assert OverlapSum(acts[..3], ws, we) == 210 * minute;
  }

  /** Widening a range of days never lowers the worked time collected in it:
      the days `s1..e1` inside `s0..e0` hold no more work. */
  lemma {:induction false} WorkedRangeMonotone(entries: seq<Entry>, s0: int, e0: int, s1: int, e1: int)
    requires s0 <= s1 && e1 <= e0
    ensures OverlapSum(PairEntries(entries), Midnight(s1), EndOfDay(e1))
         <= OverlapSum(PairEntries(entries), Midnight(s0), EndOfDay(e0))
  {
    MidnightMonotone(s0, s1);
    MidnightMonotone(e1, e0);
    OverlapSumMonotone(PairEntries(entries), Midnight(s0), EndOfDay(e0), Midnight(s1), EndOfDay(e1));
  }

  // ---------------------------------------------------------------------
  // Formatting

  function Abs(x: int): nat
  {
    if x < 0 then -x else x
  }

  /** `int(td.total_seconds())`: whole seconds, truncated toward zero. */
  function TotalSeconds(td: int): (s: int)
    ensures Abs(s) * MICROS_PER_SECOND <= Abs(td) < (Abs(s) + 1) * MICROS_PER_SECOND
    ensures (s > 0 ==> td > 0) && (s < 0 ==> td < 0)
  {
    if td >= 0 then td / MICROS_PER_SECOND else -((-td) / MICROS_PER_SECOND)
  }

  /** A rendered duration read back: its sign, hours and minutes. */
  datatype Clock = Clock(negative: bool, hours: nat, minutes: nat)

  datatype Option<T> = None | Some(value: T)

  /** `_format_timedelta`: `XhYY`, preceded by `-` when the whole seconds are negative. */
  function FormatTimedelta(td: int): (r: string)
    ensures |r| >= 4
    ensures r[0] == '-' <==> TotalSeconds(td) < 0
  {
    var seconds := TotalSeconds(td);
    var magnitude := Abs(seconds);
    var hours, remainder := magnitude / 3600, magnitude % 3600;
    var minutes := remainder / 60;
    var result := Str(hours) + "h" + Pad2(minutes);
    if seconds < 0 then "-" + result else result
  }

  /** Reads a string of the form `[-]<digits>h<two digits>`. */
  function ParseClock(s: string): Option<Clock>
  {
    if |s| > 0 && s[0] == '-' then ParseUnsigned(true, s[1..]) else ParseUnsigned(false, s)
  }

  /** Reads `<digits>h<two digits>`. */
  function ParseUnsigned(negative: bool, body: string): Option<Clock>
  {
    var n := |body|;
    if n >= 4 && body[n - 3] == 'h' && (body[0] != '0' || n == 4)
       && AllDigits(body[..n - 3]) && AllDigits(body[n - 2..])
    then Some(Clock(negative, Value(body[..n - 3]), Value(body[n - 2..])))
    else None
  }

  /** What a rendered duration says: the sign of the truncated seconds, and
      the whole hours and whole minutes of their magnitude, minutes in 0..59. */
  lemma FormatTimedeltaMeaning(td: int)
    ensures ParseClock(FormatTimedelta(td)).Some?
    ensures var c := ParseClock(FormatTimedelta(td)).value;
      var s := Abs(TotalSeconds(td));
      && c.negative == (TotalSeconds(td) < 0)
      && c.minutes < 60
      && c.hours * 3600 + c.minutes * 60 <= s < c.hours * 3600 + c.minutes * 60 + 60
  {
    var seconds := TotalSeconds(td);
    var magnitude := Abs(seconds);
    var hours, minutes := magnitude / 3600, (magnitude % 3600) / 60;
    ParseRendered(seconds < 0, hours, minutes);
    assert hours * 3600 + magnitude % 3600 == magnitude;
  }

  /** Reading back `[-]<hours>h<minutes>` gives the sign, hours and minutes. */
  lemma ParseRendered(negative: bool, hours: nat, minutes: nat)
    requires minutes < 60
    ensures var result := Str(hours) + "h" + Pad2(minutes);
      ParseClock(if negative then "-" + result else result) == Some(Clock(negative, hours, minutes))
  {
    var result := Str(hours) + "h" + Pad2(minutes);
    ParseUnsignedRendered(negative, hours, minutes);
    if negative {
      assert ("-" + result)[1..] == result;
    } else {
      assert result[0] == Str(hours)[0];
    }
  }

  lemma ParseUnsignedRendered(negative: bool, hours: nat, minutes: nat)
    requires minutes < 60
    ensures ParseUnsigned(negative, Str(hours) + "h" + Pad2(minutes)) == Some(Clock(negative, hours, minutes))
  {
    var result := Str(hours) + "h" + Pad2(minutes);
    var n := |result|;
    assert result[..n - 3] == Str(hours);
    assert result[n - 2..] == Pad2(minutes);
    assert result[n - 3] == 'h';
    assert result[0] == Str(hours)[0];
    if result[0] == '0' {
      assert Str(hours) == "0";
      assert n == 4;
    }
    ValueOfStr(hours);
  }

  /** The renderings given as examples in the source's docstring. */
  lemma FormatTimedeltaExamples()
    ensures FormatTimedelta((6 * 3600 + 30 * 60) * MICROS_PER_SECOND) == "6h30"
    ensures FormatTimedelta(-(1 * 3600 + 15 * 60) * MICROS_PER_SECOND) == "-1h15"
  {
    FormatExample((6 * 3600 + 30 * 60) * MICROS_PER_SECOND, 6 * 3600 + 30 * 60, 6, 30);
    assert Str(6) == "6" && Pad2(30) == "30";
    FormatExample(-(1 * 3600 + 15 * 60) * MICROS_PER_SECOND, -(1 * 3600 + 15 * 60), 1, 15);
    assert Str(1) == "1" && Pad2(15) == "15";
  }

  /** Less than a minute renders as zero, signed only when the whole seconds
      are negative: -30 seconds is `-0h00`, -0.5 seconds is `0h00`. */
  lemma FormatTimedeltaNegativeZero()
    ensures FormatTimedelta(-30 * MICROS_PER_SECOND) == "-0h00"
    ensures FormatTimedelta(-MICROS_PER_SECOND / 2) == "0h00"
  {
    FormatExample(-30 * MICROS_PER_SECOND, -30, 0, 0);
    FormatExample(-MICROS_PER_SECOND / 2, 0, 0, 0);
    assert Str(0) == "0" && Pad2(0) == "00";
  }

  /** Unfolds FormatTimedelta once its truncated seconds, hours and minutes are known. */
  lemma FormatExample(td: int, seconds: int, hours: nat, minutes: nat)
    requires TotalSeconds(td) == seconds && minutes < 60
    requires Abs(seconds) / 3600 == hours && (Abs(seconds) % 3600) / 60 == minutes
    ensures var result := Str(hours) + "h" + Pad2(minutes);
      FormatTimedelta(td) == if seconds < 0 then "-" + result else result
  {
  }

  /** The colour a figure is shown in. */
  datatype Style = Yellow3 | Red | Green

  /** A rendered cell: the text and its colour. */
  datatype Text = Text(text: string, style: Style)

  /** `_format_remaining`: yellow when nothing remains, red when overdone,
      green otherwise. */
  function FormatRemaining(remaining: int): (t: Text)
    ensures t.text == FormatTimedelta(remaining)
    ensures t.style == Yellow3 <==> remaining == 0
    ensures t.style == Red <==> remaining < 0
    ensures t.style == Green <==> remaining > 0
  {
    var text := FormatTimedelta(remaining);
    if remaining == 0 then Text(text, Yellow3)
    else if remaining < 0 then Text(text, Red)
    else Text(text, Green)
  }

  /** `_format_worked`: yellow at the target, red above it, green below; always
      the colour of the time remaining to the target. */
  function FormatWorked(worked: int, target: int): (t: Text)
    ensures t.text == FormatTimedelta(worked)
    ensures t.style == FormatRemaining(target - worked).style
  {
    var text := FormatTimedelta(worked);
    if worked == target then Text(text, Yellow3)
    else if worked > target then Text(text, Red)
    else Text(text, Green)
  }

  // ---------------------------------------------------------------------
  // The handler

  /** What one run of the command computes and hands to the table. */
  datatype Report = Report(
    workedToday: int, remainingToday: int,
    workedWeek: int, remainingWeek: int,
    weekStartDay: string)

  class BalanceHandler {
    const args: Args
    const now: int
    const entries: seq<Entry>

    constructor (args: Args, now: int, entries: seq<Entry>)
      ensures this.args == args && this.now == now && this.entries == entries
    {
      this.args := args;
      this.now := now;
      this.entries := entries;
    }

    /** `_get_week_start_date`: the latest day on or before `today` whose
        weekday is the configured first day of the week. */
    function GetWeekStartDate(today: int): (d: int)
      requires args.weekStart in DAY_NAMES
      ensures today - 6 <= d <= today
      ensures Weekday(d) == IndexOf(DAY_NAMES, args.weekStart) && DAY_NAMES[Weekday(d)] == args.weekStart
      ensures d == today <==> Weekday(today) == IndexOf(DAY_NAMES, args.weekStart)
      ensures forall d' :: d < d' <= today ==> Weekday(d') != IndexOf(DAY_NAMES, args.weekStart)
    {
      var weekStartIndex := IndexOf(DAY_NAMES, args.weekStart);
      WeekStartOnOrBefore(today, weekStartIndex)
    }

    /** `_entries_to_activities`: one activity per pair of consecutive entries. */
    method EntriesToActivities() returns (activities: seq<Activity>)
      ensures activities == PairEntries(entries)
    {
      activities := [];
      var n := if |entries| == 0 then 0 else |entries| - 1;
      for i := 0 to n
        invariant |activities| == i
        invariant forall k :: 0 <= k < i ==> activities[k] == Span(entries[k], entries[k + 1])
      {
        var prevEntry, nextEntry := entries[i], entries[i + 1];
        activities := activities + [NewActivity(nextEntry.name, prevEntry.datetime, nextEntry.datetime)];
      }
      var pairs := PairEntries(entries);
      assert |pairs| == |activities|;
      forall k | 0 <= k < |activities|
        ensures activities[k] == pairs[k]
      {
        assert activities[k] == Span(entries[k], entries[k + 1]);
        assert pairs[k] == Span(entries[k], entries[k + 1]);
      }
    }

    /** `_filter_and_clip_activities`: clip each activity to the days from
        `startDate` to `endDate` inclusive and keep those with time left. */
    method FilterAndClipActivities(activities: seq<Activity>, startDate: int, endDate: int)
      returns (result: seq<Activity>)
      ensures result == FilterAndClip(activities, Midnight(startDate), EndOfDay(endDate))
    {
      var startDt, endDt := Midnight(startDate), EndOfDay(endDate);
      result := [];
      for i := 0 to |activities|
        invariant result == FilterAndClip(activities[..i], startDt, endDt)
      {
        var clipped := Clip(activities[i], startDt, endDt);
        if Duration(clipped) > 0 {
          result := result + [clipped];
        }
        assert activities[..i + 1][..i] == activities[..i];
      }
      assert activities[..|activities|] == activities;
    }

    /** `_get_activities_for_range`. */
    method GetActivitiesForRange(startDate: int, endDate: int) returns (activities: seq<Activity>)
      ensures activities == FilterAndClip(PairEntries(entries), Midnight(startDate), EndOfDay(endDate))
    {
      activities := EntriesToActivities();
      activities := FilterAndClipActivities(activities, startDate, endDate);
    }

    /** `_calculate_worked_time`: the work logged between `startDate` and
        `endDate` inclusive, as the overlap of each work span with those days. */
    method CalculateWorkedTime(startDate: int, endDate: int) returns (worked: int)
      ensures worked == OverlapSum(PairEntries(entries), Midnight(startDate), EndOfDay(endDate))
      ensures worked >= 0
    {
      var activities := GetActivitiesForRange(startDate, endDate);
      worked := WorkedTotal(activities);
      WorkedTotalIsOverlapSum(PairEntries(entries), Midnight(startDate), EndOfDay(endDate));
    }

    /** `__call__`: the figures for today and for the week so far. */
    method Call() returns (report: Report)
      requires args.weekStart in DAY_NAMES
      ensures var today := DateOf(now);
        report.workedToday == OverlapSum(PairEntries(entries), Midnight(today), EndOfDay(today))
      ensures var today := DateOf(now);
        report.workedWeek == OverlapSum(PairEntries(entries), Midnight(GetWeekStartDate(today)), EndOfDay(today))
      ensures 0 <= report.workedToday <= report.workedWeek
      ensures report.remainingToday == args.dailyTarget - report.workedToday
      ensures report.remainingWeek == args.weeklyTarget - report.workedWeek
      ensures report.weekStartDay == args.weekStart
    {
      var today := DateOf(now);
      var weekStart := GetWeekStartDate(today);

      var workedToday := CalculateWorkedTime(today, today);
      var workedWeek := CalculateWorkedTime(weekStart, today);
      WorkedRangeMonotone(entries, weekStart, today, today, today);

      var remainingToday := args.dailyTarget - workedToday;
      var remainingWeek := args.weeklyTarget - workedWeek;

      report := Report(workedToday, remainingToday, workedWeek, remainingWeek, args.weekStart);
    }
  }

  /** The day `today - (today.weekday() - w) % 7`: the latest day on or
      before `today` whose weekday is `w`. */
  function WeekStartOnOrBefore(today: int, w: int): (d: int)
    requires 0 <= w < 7
    ensures today - 6 <= d <= today
    ensures Weekday(d) == w
    ensures d == today <==> Weekday(today) == w
    ensures forall d' :: d < d' <= today ==> Weekday(d') != w
  {
    var todayIndex := Weekday(today);
    var daysSinceWeekStart := (todayIndex - w) % 7;
    WeekdayStart(today, w, daysSinceWeekStart);
    today - daysSinceWeekStart
  }

  /** The arithmetic behind the week start: stepping back
      `(Weekday(today) - w) % 7` days lands on the latest day of weekday `w`. */
  lemma WeekdayStart(today: int, w: int, k: int)
    requires 0 <= w < 7 && k == (Weekday(today) - w) % 7
    ensures 0 <= k < 7
    ensures Weekday(today - k) == w
    ensures forall d :: today - k < d <= today ==> Weekday(d) != w
  {
    WeekdayAdvance(today, -k);
    forall d | today - k < d <= today
      ensures Weekday(d) != w
    {
      WeekdayAdvance(today - k, d - (today - k));
    }
  }
}
