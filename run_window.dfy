/**
 * The time-window part of app.py: the date-range filter of
 * `get_log_content_for_date_range`, the per-day buckets of
 * `get_bulletin_details_summary`, and the latest-timestamp search of
 * `_get_latest_timestamp_from_log_content`.
 *
 * The filter and the buckets follow one rule: a line whose leading date
 * "opens" (a valid date in the range, or the day's date string) is kept, a
 * line with some other leading date is dropped, and a line without a leading
 * date is kept only once some earlier line has opened.  `Collect` states that
 * rule per line; the two loops are proved to compute it.
 */
module RunWindow {
  import opened Wrappers
  import opened Text
  import opened Calendar

  /** The `(success, output, error)` triple the remote session returns for a command. */
  datatype FetchResult = FetchResult(success: bool, output: string, error: string)

  /** What the range fetch returns when the session is not active. */
  const InactiveMessage: string := "SSH_ERROR: Backend SSH client inactive."

  /** What the range fetch returns when the remote `tail` command failed. */
  function FetchErrorText(logPath: string, error: string): string
  {
    "Error fetching log file '" + logPath + "': " + error
  }

  /** Which dated lines start (or belong to) a collection. */
  datatype Opener =
    | InRange(start: Date, end: Date)   // a valid leading date within [start, end]
    | OnDay(prefix: string)             // a line starting with the day's `YYYY-MM-DD`

  predicate Opens(o: Opener, line: string)
  {
    match o
    case InRange(start, end) =>
      HasDatePrefix(line) && ValidDate(DateOf(line)) &&
      DateLe(start, DateOf(line)) && DateLe(DateOf(line), end)
    case OnDay(prefix) => IsPrefix(prefix, line)
  }

  /** Line `i` is collected: it opens, or it is undated and some earlier line opened. */
  ghost predicate Kept(lines: seq<string>, o: Opener, i: int)
    requires 0 <= i < |lines|
  {
    Opens(o, lines[i]) ||
    (!HasDatePrefix(lines[i]) && exists j :: 0 <= j < i && Opens(o, lines[j]))
  }

  /** The collected lines among the first `k`, in their original order. */
  ghost function CollectUpTo(lines: seq<string>, o: Opener, k: int): seq<string>
    requires 0 <= k <= |lines|
  {
    if k == 0 then []
    else CollectUpTo(lines, o, k - 1) + (if Kept(lines, o, k - 1) then [lines[k - 1]] else [])
  }

  ghost function Collect(lines: seq<string>, o: Opener): seq<string>
  {
    CollectUpTo(lines, o, |lines|)
  }

  /** Every collected line is one of the input lines, and it opens or carries no leading date. */
  lemma {:induction false} CollectMembers(lines: seq<string>, o: Opener, k: int)
    requires 0 <= k <= |lines|
    ensures forall x :: x in CollectUpTo(lines, o, k) ==> x in lines && (Opens(o, x) || !HasDatePrefix(x))
  {
    if k > 0 {
      CollectMembers(lines, o, k - 1);
    }
  }

  /** A non-empty collection starts with an opening line: undated lines before it are dropped. */
  lemma {:induction false} CollectStartsWithOpener(lines: seq<string>, o: Opener, k: int)
    requires 0 <= k <= |lines|
    ensures CollectUpTo(lines, o, k) == [] <==> forall j :: 0 <= j < k ==> !Opens(o, lines[j])
    ensures CollectUpTo(lines, o, k) != [] ==> Opens(o, CollectUpTo(lines, o, k)[0])
  {
    if k > 0 {
      CollectStartsWithOpener(lines, o, k - 1);
      var prev := CollectUpTo(lines, o, k - 1);
      if prev != [] {
        assert CollectUpTo(lines, o, k)[0] == prev[0];
      }
    }
  }

  /** Every opening line is collected. */
  lemma {:induction false} CollectKeepsOpeners(lines: seq<string>, o: Opener, k: int)
    requires 0 <= k <= |lines|
    ensures forall i :: 0 <= i < k && Opens(o, lines[i]) ==> lines[i] in CollectUpTo(lines, o, k)
  {
    if k > 0 {
      CollectKeepsOpeners(lines, o, k - 1);
    }
  }

  /**
   * The date-range filter keeps a dated line only when its date is a real
   * calendar date inside the range: a lexically matching but invalid date
   * (month 13, February 30) is dropped.
   */
  lemma FilterKeepsValidDatesInRange(lines: seq<string>, start: Date, end: Date)
    ensures forall x :: x in Collect(lines, InRange(start, end)) && HasDatePrefix(x) ==>
              ValidDate(DateOf(x)) && DateLe(start, DateOf(x)) && DateLe(DateOf(x), end)
  {
    CollectMembers(lines, InRange(start, end), |lines|);
  }

  /** One step of the collecting loops: the first `k + 1` lines from the first `k`. */
  lemma CollectStep(lines: seq<string>, o: Opener, k: int, started: bool)
    requires 0 <= k < |lines|
    requires started <==> exists j :: 0 <= j < k && Opens(o, lines[j])
    ensures CollectUpTo(lines, o, k + 1) ==
              CollectUpTo(lines, o, k) +
              (if Opens(o, lines[k]) || (started && !HasDatePrefix(lines[k])) then [lines[k]] else [])
    ensures (Opens(o, lines[k]) || started) <==> exists j :: 0 <= j < k + 1 && Opens(o, lines[j])
  {
  }

  /**
   * The loop of `get_log_content_for_date_range` over the fetched lines: it
   * keeps exactly the collected lines of the date range.
   */
  method FilterDateRange(output: string, start: Date, end: Date) returns (filtered: seq<string>)
    ensures filtered == Collect(SplitLines(output), InRange(start, end))
  {
    var lines := SplitLines(output);
    ghost var o := InRange(start, end);
    filtered := [];
    for i := 0 to |lines|
      invariant filtered == CollectUpTo(lines, o, i)
      invariant filtered != [] <==> exists j :: 0 <= j < i && Opens(o, lines[j])
    {
      var line := lines[i];
      CollectStep(lines, o, i, filtered != []);
      if HasDatePrefix(line) {
        var logDate := DateOf(line);
        if ValidDate(logDate) {
          if DateLe(start, logDate) && DateLe(logDate, end) {
            filtered := filtered + [line];
          }
        }
      } else if filtered != [] {
        filtered := filtered + [line];
      }
    }
  }

  /** The text `get_log_content_for_date_range` returns. */
  ghost function RangeContent(active: bool, logPath: string, fetch: FetchResult, start: Date, end: Date): string
  {
    if !active then InactiveMessage
    else if !fetch.success then FetchErrorText(logPath, fetch.error)
    else JoinLines(Collect(SplitLines(fetch.output), InRange(start, end)))
  }

  /**
   * `get_log_content_for_date_range`, with the session's liveness and the
   * result of `tail -n 1000 <log>` given as inputs.
   */
  method GetLogContentForDateRange(active: bool, logPath: string, fetch: FetchResult, start: Date, end: Date)
    returns (content: string)
    ensures content == RangeContent(active, logPath, fetch, start, end)
    ensures !active ==> Contains(content, "SSH_ERROR")
  {
    if !active {
      content := InactiveMessage;
      assert OccursAt("SSH_ERROR", content, 0);
      return;
    }
    if !fetch.success {
      content := FetchErrorText(logPath, fetch.error);
      return;
    }
    var filtered := FilterDateRange(fetch.output, start, end);
    content := JoinLines(filtered);
  }

  /**
   * The bucket loop of `get_bulletin_details_summary` for one day: it keeps
   * exactly the collected lines of that day's date string.
   */
  method DayBucket(content: string, day: Date) returns (bucket: seq<string>)
    requires ValidDate(day)
    ensures bucket == Collect(SplitLines(content), OnDay(FormatDate(day)))
  {
    var dayStr := FormatDate(day);
    var lines := SplitLines(content);
    ghost var o := OnDay(dayStr);
    bucket := [];
    for i := 0 to |lines|
      invariant bucket == CollectUpTo(lines, o, i)
      invariant bucket != [] <==> exists j :: 0 <= j < i && Opens(o, lines[j])
    {
      var line := lines[i];
      CollectStep(lines, o, i, bucket != []);
      if IsPrefix(dayStr, line) {
        bucket := bucket + [line];
      } else if bucket != [] && !HasDatePrefix(line) {
        bucket := bucket + [line];
      }
    }
  }

  /**
   * A day's bucket starts with a line carrying that day's date, and every
   * other line in it carries that date too or has no leading date at all.
   */
  lemma DayBucketShape(lines: seq<string>, day: Date)
    requires ValidDate(day)
    ensures var b := Collect(lines, OnDay(FormatDate(day)));
            (b != [] ==> IsPrefix(FormatDate(day), b[0])) &&
            forall x :: x in b ==> IsPrefix(FormatDate(day), x) || !HasDatePrefix(x)
  {
    CollectStartsWithOpener(lines, OnDay(FormatDate(day)), |lines|);
    CollectMembers(lines, OnDay(FormatDate(day)), |lines|);
  }

  // ----- latest timestamp -----

  /**
   * A line counted as a run: it starts with `YYYY-MM-DD HH:MM:SS`, the
   * date-time exists, and it falls on the filter date when there is one.
   */
  predicate Qualifies(line: string, filter: Option<Date>)
  {
    HasTimestampPrefix(line) && ValidDateTime(TimestampOf(line)) &&
    (filter.Some? ==> TimestampOf(line).date == filter.value)
  }

  /** The 19-character timestamp of a line is itself a timestamp with the same value. */
  lemma TimestampPrefix(line: string)
    requires HasTimestampPrefix(line)
    ensures HasTimestampPrefix(line[..19]) && TimestampOf(line[..19]) == TimestampOf(line)
  {
  }

  /**
   * The latest qualifying timestamp of `lines`, the way the source finds it:
   * scanning from the end and replacing the candidate only by a strictly later
   * date-time.  `LatestOfSpec` states what this yields.
   */
  function LatestOf(lines: seq<string>, filter: Option<Date>): (r: Option<string>)
    ensures r.Some? ==> |r.value| == 19 && Qualifies(r.value, filter)
  {
    if lines == [] then
      None
    else
      var rest := LatestOf(lines[1..], filter);
      if Qualifies(lines[0], filter) &&
         (rest.None? || DateTimeBefore(TimestampOf(rest.value), TimestampOf(lines[0])))
      then
        TimestampPrefix(lines[0]);
        Some(lines[0][..19])
      else
        rest
  }

  /** The latest timestamp is `None` exactly when no line qualifies. */
  ghost predicate IsLatest(lines: seq<string>, filter: Option<Date>, r: Option<string>)
  {
    (r.None? <==> forall i :: 0 <= i < |lines| ==> !Qualifies(lines[i], filter)) &&
    (r.Some? ==> |r.value| == 19 && Qualifies(r.value, filter)) &&
    (r.Some? ==> exists i :: 0 <= i < |lines| && Qualifies(lines[i], filter) && lines[i][..19] == r.value) &&
    (r.Some? ==> forall i :: 0 <= i < |lines| && Qualifies(lines[i], filter) ==>
                   DateTimeLe(TimestampOf(lines[i]), TimestampOf(r.value)))
  }

  /**
   * What the search yields: `None` when no line qualifies; otherwise a
   * qualifying 19-character timestamp taken from one of the lines, and no
   * qualifying line is later than it.
   */
  lemma {:induction false} LatestOfSpec(lines: seq<string>, filter: Option<Date>)
    ensures IsLatest(lines, filter, LatestOf(lines, filter))
  {
    if lines != [] {
      LatestOfSpec(lines[1..], filter);
      var rest := LatestOf(lines[1..], filter);
      if Qualifies(lines[0], filter) &&
         (rest.None? || DateTimeBefore(TimestampOf(rest.value), TimestampOf(lines[0])))
      {
        LatestTakesHead(lines, filter, rest);
      } else {
        LatestKeepsRest(lines, filter, rest);
      }
    }
  }

  /** The step where the first line is later than everything after it. */
  lemma LatestTakesHead(lines: seq<string>, filter: Option<Date>, rest: Option<string>)
    requires lines != [] && IsLatest(lines[1..], filter, rest)
    requires Qualifies(lines[0], filter)
    requires rest.None? || DateTimeBefore(TimestampOf(rest.value), TimestampOf(lines[0]))
    ensures IsLatest(lines, filter, Some(lines[0][..19]))
  {
    var tail := lines[1..];
    var r := lines[0][..19];
    TimestampPrefix(lines[0]);
    assert Qualifies(lines[0], filter) && lines[0][..19] == r;
    forall i | 0 <= i < |lines| && Qualifies(lines[i], filter)
      ensures DateTimeLe(TimestampOf(lines[i]), TimestampOf(r))
    {
      if i > 0 {
        assert lines[i] == tail[i - 1];
        DateTimeOrder(TimestampOf(lines[i]), TimestampOf(rest.value), TimestampOf(lines[0]));
      }
    }
  }

  /** The step where the candidate found after the first line stays. */
  lemma LatestKeepsRest(lines: seq<string>, filter: Option<Date>, rest: Option<string>)
    requires lines != [] && IsLatest(lines[1..], filter, rest)
    requires !(Qualifies(lines[0], filter) &&
               (rest.None? || DateTimeBefore(TimestampOf(rest.value), TimestampOf(lines[0]))))
    ensures IsLatest(lines, filter, rest)
  {
    var tail := lines[1..];
    if rest.None? {
      forall i | 0 <= i < |lines|
        ensures !Qualifies(lines[i], filter)
      {
        if i > 0 {
          assert lines[i] == tail[i - 1];
        }
      }
    } else {
      var j :| 0 <= j < |tail| && Qualifies(tail[j], filter) && tail[j][..19] == rest.value;
      assert lines[j + 1] == tail[j];
      forall i | 0 <= i < |lines| && Qualifies(lines[i], filter)
        ensures DateTimeLe(TimestampOf(lines[i]), TimestampOf(rest.value))
      {
        if i > 0 {
          assert lines[i] == tail[i - 1];
        }
      }
    }
  }

  /**
   * `_get_latest_timestamp_from_log_content`: the loop over the lines in
   * reverse, keeping the latest date-time seen so far.
   */
  method LatestTimestamp(content: string, filter: Option<Date>) returns (latest: Option<string>)
    ensures latest == LatestOf(SplitLines(content), filter)
  {
    var lines := SplitLines(content);
    var latestDt: Option<DateTime> := None;
    latest := None;
    var i := |lines|;
    while i > 0
      invariant 0 <= i <= |lines|
      invariant latest == LatestOf(lines[i..], filter)
      invariant IsLatest(lines[i..], filter, latest)
      invariant latest.None? ==> latestDt.None?
      invariant latest.Some? ==> latestDt == Some(TimestampOf(latest.value))
    {
      i := i - 1;
      LatestOfSpec(lines[i..], filter);
      var line := lines[i];
      assert lines[i..][0] == line && lines[i..][1..] == lines[i + 1..];
      if HasTimestampPrefix(line) {
        var current := TimestampOf(line);
        if ValidDateTime(current) && !(filter.Some? && current.date != filter.value) {
          if latestDt.None? || DateTimeBefore(latestDt.value, current) {
            latestDt := Some(current);
            latest := Some(line[..19]);
            TimestampPrefix(line);
          }
        }
      }
    }
    assert lines[0..] == lines;
  }
}
