/**
 * The per-bulletin summary of app.py (`get_bulletin_details_summary` and
 * the `/api/bulletins` route that runs it for every configured bulletin)
 * and the request checks of the product-download route.
 *
 * The remote session is an oracle: whether it is active, what `tail` on a
 * log returned, and whether a remote file exists are inputs.  The current
 * time `now` is an input too.
 */
module BulletinStatus {
  import opened Wrappers
  import opened Text
  import opened Calendar
  import opened LogClassifier
  import opened PathTemplate
  import opened RunWindow

  /** One entry of a bulletin's `product_paths`; a missing name reads as "Product". */
  datatype ProductConfig = ProductConfig(name: Option<string>, template: string)

  datatype BulletinConfig = BulletinConfig(
    id: string, name: string, logPath: string, productPaths: seq<ProductConfig>)

  /** One entry of a summary's `product_info`. */
  datatype ProductInfo = ProductInfo(name: string, available: bool, remotePath: Option<string>)

  /** The dictionary a summary returns. */
  datatype RunRecord = RunRecord(
    id: string, name: string, status: Status, lastRun: string, hasWarnings: bool,
    productInfo: seq<ProductInfo>)

  function ProductName(p: ProductConfig): string
  {
    if p.name.Some? then p.name.value else "Product"
  }

  /** A path Python treats as true: resolved and not the empty string. */
  predicate UsablePath(path: Option<string>)
  {
    path.Some? && path.value != []
  }

  // ----- the run verdict -----

  /** The status, last-run text and warnings flag of one bulletin. */
  datatype Verdict = Verdict(status: Status, lastRun: string, hasWarnings: bool)

  /** The lines of `content` bucketed under `day`, joined back into one text. */
  ghost function DayText(content: string, day: Date): string
    requires ValidDate(day)
  {
    JoinLines(Collect(SplitLines(content), OnDay(FormatDate(day))))
  }

  /**
   * The source joins a day's bucket and splits it again before searching it.
   * That gives the bucket back unless it ends with an empty line, which the
   * join and re-split drop.
   */
  lemma DayLinesAreBucket(content: string, day: Date)
    requires ValidDate(day)
    requires var b := Collect(SplitLines(content), OnDay(FormatDate(day)));
             b == [] || b[|b| - 1] != []
    ensures SplitLines(DayText(content, day)) == Collect(SplitLines(content), OnDay(FormatDate(day)))
  {
    var lines := SplitLines(content);
    var b := Collect(lines, OnDay(FormatDate(day)));
    if b != [] {
      CollectMembers(lines, OnDay(FormatDate(day)), |lines|);
      forall k | 0 <= k < |b|
        ensures Newline !in b[k]
      {
        assert b[k] in lines;
      }
      SplitLinesJoin(b);
    }
  }

  /** The text fetched for yesterday and today. */
  ghost function WindowContent(logPath: string, tail: FetchResult, now: DateTime): string
    requires ValidDateTime(now) && now.date != MinDate
  {
    RangeContent(true, logPath, tail, PrevDay(now.date), now.date)
  }

  /**
   * The decision chain of the summary over its inputs: an inactive session,
   * then a fetched text mentioning SSH_ERROR, then a run today (classified by
   * today's lines), then a run yesterday (PENDING), and otherwise no recent run.
   */
  function Decide(active: bool, fetchMentionsSshError: bool, latestToday: Option<string>,
                  today: Classification, latestYesterday: Option<string>): (v: Verdict)
    ensures v.status == SshError <==>
              !active || fetchMentionsSshError || (latestToday.Some? && today.status == SshError)
    ensures v.status == Pending <==>
              active && !fetchMentionsSshError &&
              ((latestToday.Some? && today.status == Pending) || (latestToday.None? && latestYesterday.Some?))
    ensures v.status == NoRecentRun <==>
              active && !fetchMentionsSshError &&
              ((latestToday.Some? && today.status == NoRecentRun) || (latestToday.None? && latestYesterday.None?))
    ensures v.hasWarnings ==> active && latestToday.Some? && v.hasWarnings == today.hasWarnings
    ensures active && !fetchMentionsSshError && latestToday.Some? ==>
              v == Verdict(today.status, latestToday.value, today.hasWarnings)
    ensures active && fetchMentionsSshError ==> v == Verdict(SshError, "N/A (Log fetch error)", false)
    ensures active && !fetchMentionsSshError && latestToday.None? && latestYesterday.Some? ==>
              v == Verdict(Pending, "N/A (Last run: " + latestYesterday.value + " - Yesterday)", false)
    ensures active && !fetchMentionsSshError && latestToday.None? && latestYesterday.None? ==>
              v == Verdict(NoRecentRun, "N/A (No recent runs today or yesterday)", false)
  {
    if !active then Verdict(SshError, "N/A", false)
    else if fetchMentionsSshError then Verdict(SshError, "N/A (Log fetch error)", false)
    else if latestToday.Some? then Verdict(today.status, latestToday.value, today.hasWarnings)
    else if latestYesterday.Some? then
      Verdict(Pending, "N/A (Last run: " + latestYesterday.value + " - Yesterday)", false)
    else Verdict(NoRecentRun, "N/A (No recent runs today or yesterday)", false)
  }

  /** Today's bucket of the fetched window. */
  ghost function TodayLines(logPath: string, tail: FetchResult, now: DateTime): seq<string>
    requires ValidDateTime(now) && now.date != MinDate
  {
    SplitLines(DayText(WindowContent(logPath, tail, now), now.date))
  }

  /** Yesterday's bucket of the fetched window. */
  ghost function YesterdayLines(logPath: string, tail: FetchResult, now: DateTime): seq<string>
    requires ValidDateTime(now) && now.date != MinDate
  {
    SplitLines(DayText(WindowContent(logPath, tail, now), PrevDay(now.date)))
  }

  /** The verdict of one bulletin: `Decide` applied to what the fetched window holds. */
  ghost function RunVerdict(active: bool, logPath: string, tail: FetchResult, now: DateTime): Verdict
    requires ValidDateTime(now) && now.date != MinDate
  {
    Decide(active, Contains(WindowContent(logPath, tail, now), "SSH_ERROR"),
           LatestOf(TodayLines(logPath, tail, now), Some(now.date)),
           ParseLogStatus(DayText(WindowContent(logPath, tail, now), now.date)),
           LatestOf(YesterdayLines(logPath, tail, now), Some(PrevDay(now.date))))
  }

  /**
   * One product entry: its name, today's resolved path, and whether the file
   * exists, asked only when the session is up and the path resolved to
   * non-empty text.
   */
  ghost function ProductEntry(p: ProductConfig, active: bool, fileExists: string -> bool,
                              now: DateTime): ProductInfo
    requires ValidDateTime(now)
  {
    var path := Resolve(p.template, now);
    ProductInfo(ProductName(p), active && UsablePath(path) && fileExists(path.value), path)
  }

  ghost function ProductEntries(paths: seq<ProductConfig>, active: bool, fileExists: string -> bool,
                                now: DateTime): seq<ProductInfo>
    requires ValidDateTime(now)
  {
    seq(|paths|, i requires 0 <= i < |paths| => ProductEntry(paths[i], active, fileExists, now))
  }

  /** The summary of bulletin `b`. */
  ghost function Summary(b: BulletinConfig, active: bool, tail: FetchResult,
                         fileExists: string -> bool, now: DateTime): RunRecord
    requires ValidDateTime(now) && now.date != MinDate
  {
    var v := RunVerdict(active, b.logPath, tail, now);
    RunRecord(b.id, b.name, v.status, v.lastRun, v.hasWarnings,
              ProductEntries(b.productPaths, active, fileExists, now))
  }

  /** An inactive session's summary: SSH_ERROR, "N/A", no warnings, nothing available. */
  predicate InactiveRecord(rec: RunRecord)
  {
    rec.status == SshError && rec.lastRun == "N/A" && !rec.hasWarnings &&
    forall k :: 0 <= k < |rec.productInfo| ==> !rec.productInfo[k].available
  }

  /** The product loop of the inactive branch: paths are resolved for display, nothing is checked. */
  method ListProductsUnchecked(paths: seq<ProductConfig>, fileExists: string -> bool, now: DateTime)
    returns (infos: seq<ProductInfo>)
    requires ValidDateTime(now)
    ensures infos == ProductEntries(paths, false, fileExists, now)
  {
    infos := [];
    for i := 0 to |paths|
      invariant |infos| == i
      invariant forall k :: 0 <= k < i ==> infos[k] == ProductEntry(paths[k], false, fileExists, now)
    {
      var p := paths[i];
      infos := infos + [ProductInfo(ProductName(p), false, Resolve(p.template, now))];
    }
  }

  /** The product loop of the active branch: a path that resolves to non-empty text is checked. */
  method CheckProducts(paths: seq<ProductConfig>, fileExists: string -> bool, now: DateTime)
    returns (infos: seq<ProductInfo>)
    requires ValidDateTime(now)
    ensures infos == ProductEntries(paths, true, fileExists, now)
  {
    infos := [];
    for i := 0 to |paths|
      invariant |infos| == i
      invariant forall k :: 0 <= k < i ==> infos[k] == ProductEntry(paths[k], true, fileExists, now)
    {
      var p := paths[i];
      var remotePath := Resolve(p.template, now);
      var isAvailable := false;
      if UsablePath(remotePath) {
        isAvailable := fileExists(remotePath.value);
      }
      infos := infos + [ProductInfo(ProductName(p), isAvailable, remotePath)];
    }
  }

  /** Steps 1 and 2 of the summary with the session up: fetch the window, bucket it, decide. */
  method ResolveRun(logPath: string, tail: FetchResult, now: DateTime) returns (v: Verdict)
    requires ValidDateTime(now) && now.date != MinDate
    ensures v == RunVerdict(true, logPath, tail, now)
  {
    var yesterday := PrevDay(now.date);
    var content := GetLogContentForDateRange(true, logPath, tail, yesterday, now.date);
    if Contains(content, "SSH_ERROR") {
      return Verdict(SshError, "N/A (Log fetch error)", false);
    }
    var todayLines := DayBucket(content, now.date);
    var todayContent := JoinLines(todayLines);
    var latestRunToday := LatestTimestamp(todayContent, Some(now.date));
    if latestRunToday.Some? {
      var c := ParseLogStatus(todayContent);
      return Verdict(c.status, latestRunToday.value, c.hasWarnings);
    }
    var yesterdayLines := DayBucket(content, yesterday);
    var yesterdayContent := JoinLines(yesterdayLines);
    var latestRunYesterday := LatestTimestamp(yesterdayContent, Some(yesterday));
    if latestRunYesterday.Some? {
      v := Verdict(Pending, "N/A (Last run: " + latestRunYesterday.value + " - Yesterday)", false);
    } else {
      v := Verdict(NoRecentRun, "N/A (No recent runs today or yesterday)", false);
    }
  }

  /**
   * `get_bulletin_details_summary`: `tail` is what the session returned for
   * the bulletin's log, `fileExists` answers the session's file check.
   */
  method GetBulletinDetailsSummary(b: BulletinConfig, active: bool, tail: FetchResult,
                                   fileExists: string -> bool, now: DateTime)
    returns (rec: RunRecord)
    requires ValidDateTime(now) && now.date != MinDate
    ensures rec == Summary(b, active, tail, fileExists, now)
  {
    if !active {
      var infos := ListProductsUnchecked(b.productPaths, fileExists, now);
      return RunRecord(b.id, b.name, SshError, "N/A", false, infos);
    }
    var v := ResolveRun(b.logPath, tail, now);
    var infos := CheckProducts(b.productPaths, fileExists, now);
    rec := RunRecord(b.id, b.name, v.status, v.lastRun, v.hasWarnings, infos);
  }

  /** The summaries of `bulletins`, in order. */
  ghost function Summaries(bulletins: seq<BulletinConfig>, active: bool,
                           fetchTail: string -> FetchResult, fileExists: string -> bool,
                           now: DateTime): seq<RunRecord>
    requires ValidDateTime(now) && now.date != MinDate
    decreases |bulletins|
  {
    if bulletins == [] then []
    else
      var last := bulletins[|bulletins| - 1];
      Summaries(bulletins[..|bulletins| - 1], active, fetchTail, fileExists, now) +
        [Summary(last, active, fetchTail(last.logPath), fileExists, now)]
  }

  /**
   * The loop of the `/api/bulletins` route (app.py:349-351), once the request
   * hook has let the request through: one summary per configured bulletin, in
   * configuration order.  `fetchTail` gives what the session returns for a
   * log path.
   */
  method GetAllBulletinsStatus(bulletins: seq<BulletinConfig>, active: bool,
                               fetchTail: string -> FetchResult, fileExists: string -> bool,
                               now: DateTime)
    returns (results: seq<RunRecord>)
    requires ValidDateTime(now) && now.date != MinDate
    ensures results == Summaries(bulletins, active, fetchTail, fileExists, now)
  {
    results := [];
    for i := 0 to |bulletins|
      invariant results == Summaries(bulletins[..i], active, fetchTail, fileExists, now)
    {
      var rec := GetBulletinDetailsSummary(bulletins[i], active, fetchTail(bulletins[i].logPath),
                                           fileExists, now);
      SummariesSnoc(bulletins, i, active, fetchTail, fileExists, now);
      results := results + [rec];
    }
    assert bulletins[..|bulletins|] == bulletins;
  }

  /** The listing of one more bulletin appends that bulletin's summary. */
  lemma SummariesSnoc(bulletins: seq<BulletinConfig>, i: int, active: bool,
                      fetchTail: string -> FetchResult, fileExists: string -> bool, now: DateTime)
    requires ValidDateTime(now) && now.date != MinDate
    requires 0 <= i < |bulletins|
    ensures Summaries(bulletins[..i + 1], active, fetchTail, fileExists, now) ==
            Summaries(bulletins[..i], active, fetchTail, fileExists, now) +
              [Summary(bulletins[i], active, fetchTail(bulletins[i].logPath), fileExists, now)]
  {
    var prefix := bulletins[..i + 1];
    assert prefix[..|prefix| - 1] == bulletins[..i];
    assert prefix[|prefix| - 1] == bulletins[i];
  }

  /** The listing has one entry per configured bulletin. */
  lemma {:induction false} SummariesLength(bulletins: seq<BulletinConfig>, active: bool,
                                           fetchTail: string -> FetchResult, fileExists: string -> bool,
                                           now: DateTime)
    requires ValidDateTime(now) && now.date != MinDate
    ensures |Summaries(bulletins, active, fetchTail, fileExists, now)| == |bulletins|
    decreases |bulletins|
  {
    if bulletins != [] {
      SummariesLength(bulletins[..|bulletins| - 1], active, fetchTail, fileExists, now);
    }
  }

  /** The listing holds, at position `i`, the summary of the bulletin configured there. */
  lemma {:induction false} SummaryAt(bulletins: seq<BulletinConfig>, i: int, active: bool,
                                     fetchTail: string -> FetchResult, fileExists: string -> bool,
                                     now: DateTime)
    requires ValidDateTime(now) && now.date != MinDate
    requires 0 <= i < |bulletins|
    ensures |Summaries(bulletins, active, fetchTail, fileExists, now)| == |bulletins|
    ensures Summaries(bulletins, active, fetchTail, fileExists, now)[i] ==
            Summary(bulletins[i], active, fetchTail(bulletins[i].logPath), fileExists, now)
    decreases |bulletins|
  {
    SummariesLength(bulletins, active, fetchTail, fileExists, now);
    var n := |bulletins| - 1;
    var init := bulletins[..n];
    if i < n {
      SummaryAt(init, i, active, fetchTail, fileExists, now);
      assert init[i] == bulletins[i];
    }
  }

  // ----- what the summary holds -----

  /**
   * One product entry per configured product, in order: the configured name
   * (or "Product"), the path resolved for `now`, and availability exactly
   * when the session is up, the path is non-empty text and the file exists.
   */
  lemma SummaryProducts(b: BulletinConfig, active: bool, tail: FetchResult,
                        fileExists: string -> bool, now: DateTime)
    requires ValidDateTime(now) && now.date != MinDate
    ensures var rec := Summary(b, active, tail, fileExists, now);
            rec.id == b.id && rec.name == b.name &&
            |rec.productInfo| == |b.productPaths| &&
            forall i :: 0 <= i < |b.productPaths| ==>
              var p, info := b.productPaths[i], rec.productInfo[i];
              info.name == (if p.name.Some? then p.name.value else "Product") &&
              info.remotePath == Resolve(p.template, now) &&
              (info.remotePath.None? ==> !info.available) &&
              (info.available <==> active && info.remotePath.Some? && info.remotePath.value != [] &&
                                   fileExists(info.remotePath.value))
  {
  }

  /** With the session down, every summary reports SSH_ERROR and no product as available. */
  lemma InactiveSummary(b: BulletinConfig, tail: FetchResult, fileExists: string -> bool, now: DateTime)
    requires ValidDateTime(now) && now.date != MinDate
    ensures InactiveRecord(Summary(b, false, tail, fileExists, now))
  {
  }

  /** With the session down, the whole listing reports SSH_ERROR and no product as available. */
  lemma InactiveListing(bulletins: seq<BulletinConfig>, fetchTail: string -> FetchResult,
                        fileExists: string -> bool, now: DateTime)
    requires ValidDateTime(now) && now.date != MinDate
    ensures var results := Summaries(bulletins, false, fetchTail, fileExists, now);
            forall i :: 0 <= i < |results| ==> InactiveRecord(results[i])
  {
    SummariesLength(bulletins, false, fetchTail, fileExists, now);
    var results := Summaries(bulletins, false, fetchTail, fileExists, now);
    forall i | 0 <= i < |results|
      ensures InactiveRecord(results[i])
    {
      SummaryAt(bulletins, i, false, fetchTail, fileExists, now);
      InactiveSummary(bulletins[i], fetchTail(bulletins[i].logPath), fileExists, now);
    }
  }

  // ----- what the verdict means -----

  /** The classifier never yields one of the statuses reserved to the run resolver. */
  lemma ClassifierStatus(text: string)
    ensures ParseLogStatus(text).status !in {Pending, NoRecentRun, SshError}
  {
    var r := ParseLogStatus(text);
    assert Rank(r.status) > 0 || r.status == Unknown;
  }

  /** The status is SSH_ERROR exactly when the session is down or the fetched text mentions SSH_ERROR. */
  lemma SshErrorVerdict(active: bool, logPath: string, tail: FetchResult, now: DateTime)
    requires ValidDateTime(now) && now.date != MinDate
    ensures RunVerdict(active, logPath, tail, now).status == SshError <==>
            !active || Contains(WindowContent(logPath, tail, now), "SSH_ERROR")
  {
    ClassifierStatus(DayText(WindowContent(logPath, tail, now), now.date));
  }

  /**
   * A run today decides the verdict: the last-run text is the latest
   * qualifying timestamp of today's bucket, and status and warnings are
   * the classification of that bucket.
   */
  lemma TodayRunVerdict(logPath: string, tail: FetchResult, now: DateTime)
    requires ValidDateTime(now) && now.date != MinDate
    requires !Contains(WindowContent(logPath, tail, now), "SSH_ERROR")
    requires exists i :: 0 <= i < |TodayLines(logPath, tail, now)| &&
                         Qualifies(TodayLines(logPath, tail, now)[i], Some(now.date))
    ensures var v := RunVerdict(true, logPath, tail, now);
            IsLatest(TodayLines(logPath, tail, now), Some(now.date), Some(v.lastRun)) &&
            Classification(v.status, v.hasWarnings) ==
              ParseLogStatus(DayText(WindowContent(logPath, tail, now), now.date))
  {
    LatestOfSpec(TodayLines(logPath, tail, now), Some(now.date));
  }

  /**
   * PENDING means: the session is up, the fetch is clean, no line of
   * today's bucket is a run of today, and yesterday's bucket holds a run of
   * yesterday.
   */
  lemma PendingVerdict(active: bool, logPath: string, tail: FetchResult, now: DateTime)
    requires ValidDateTime(now) && now.date != MinDate
    ensures RunVerdict(active, logPath, tail, now).status == Pending <==>
              active && !Contains(WindowContent(logPath, tail, now), "SSH_ERROR") &&
              (forall i :: 0 <= i < |TodayLines(logPath, tail, now)| ==>
                 !Qualifies(TodayLines(logPath, tail, now)[i], Some(now.date))) &&
              (exists i :: 0 <= i < |YesterdayLines(logPath, tail, now)| &&
                 Qualifies(YesterdayLines(logPath, tail, now)[i], Some(PrevDay(now.date))))
    ensures var v := RunVerdict(active, logPath, tail, now);
            v.status == Pending ==>
              exists ts :: IsLatest(YesterdayLines(logPath, tail, now), Some(PrevDay(now.date)), Some(ts)) &&
                           v.lastRun == "N/A (Last run: " + ts + " - Yesterday)"
  {
    LatestOfSpec(TodayLines(logPath, tail, now), Some(now.date));
    LatestOfSpec(YesterdayLines(logPath, tail, now), Some(PrevDay(now.date)));
    ClassifierStatus(DayText(WindowContent(logPath, tail, now), now.date));
  }

  /** NO_RECENT_RUN means neither bucket holds a run of its own day. */
  lemma NoRecentRunVerdict(active: bool, logPath: string, tail: FetchResult, now: DateTime)
    requires ValidDateTime(now) && now.date != MinDate
    ensures RunVerdict(active, logPath, tail, now).status == NoRecentRun <==>
              active && !Contains(WindowContent(logPath, tail, now), "SSH_ERROR") &&
              (forall i :: 0 <= i < |TodayLines(logPath, tail, now)| ==>
                 !Qualifies(TodayLines(logPath, tail, now)[i], Some(now.date))) &&
              (forall i :: 0 <= i < |YesterdayLines(logPath, tail, now)| ==>
                 !Qualifies(YesterdayLines(logPath, tail, now)[i], Some(PrevDay(now.date))))
  {
    LatestOfSpec(TodayLines(logPath, tail, now), Some(now.date));
    LatestOfSpec(YesterdayLines(logPath, tail, now), Some(PrevDay(now.date)));
    ClassifierStatus(DayText(WindowContent(logPath, tail, now), now.date));
  }

  /** Warnings are only ever reported alongside SUCCESS. */
  lemma WarningsOnlyWithSuccess(active: bool, logPath: string, tail: FetchResult, now: DateTime)
    requires ValidDateTime(now) && now.date != MinDate
    ensures var v := RunVerdict(active, logPath, tail, now);
            v.hasWarnings ==> v.status == Success
  {
  }

  /** A line that starts with a day's date string starts with a date. */
  lemma DayPrefixIsDated(day: Date, line: string)
    requires ValidDate(day) && IsPrefix(FormatDate(day), line)
    ensures HasDatePrefix(line)
  {
    var ds := FormatDate(day);
    assert line[..10] == ds;
    assert forall k :: 0 <= k < 10 ==> line[k] == ds[k];
  }

  /**
   * A failed fetch does not yield SSH_ERROR: its message starts with
   * "Error fetching log file", so (when it is a single line that does not
   * mention SSH_ERROR) neither day's bucket collects anything and the
   * verdict is NO_RECENT_RUN.
   */
  lemma FailedFetchIsNoRecentRun(logPath: string, tail: FetchResult, now: DateTime)
    requires ValidDateTime(now) && now.date != MinDate
    requires !tail.success
    requires Newline !in logPath && Newline !in tail.error
    requires !Contains(FetchErrorText(logPath, tail.error), "SSH_ERROR")
    ensures RunVerdict(true, logPath, tail, now) ==
            Verdict(NoRecentRun, "N/A (No recent runs today or yesterday)", false)
  {
    var msg := FetchErrorText(logPath, tail.error);
    assert WindowContent(logPath, tail, now) == msg;
    assert msg[0] == 'E';
    assert Newline !in msg by {
      assert msg == "Error fetching log file '" + logPath + "': " + tail.error;
    }
    SplitOnFree(msg);
    assert SplitLines(msg) == [msg];
    NothingCollected(msg, now.date);
    NothingCollected(msg, PrevDay(now.date));
  }

  /** A one-line text starting with 'E' opens no day's bucket. */
  lemma NothingCollected(msg: string, day: Date)
    requires ValidDate(day)
    requires msg != [] && msg[0] == 'E' && SplitLines(msg) == [msg]
    ensures LatestOf(SplitLines(DayText(msg, day)), Some(day)).None?
  {
    var o := OnDay(FormatDate(day));
    if Opens(o, msg) {
      DayPrefixIsDated(day, msg);
      assert false;
    }
    CollectStartsWithOpener([msg], o, 1);
    assert DayText(msg, day) == [];
  }

  // ----- product download -----

  /** The `index` query parameter: absent, not an integer, or an integer. */
  datatype IndexArg = Missing | Malformed | Given(index: int)

  /** How the download route answers before it transfers anything. */
  datatype DownloadDecision =
    | SessionInactive           // 503
    | UnknownBulletin           // 404
    | MissingIndex              // 400
    | InvalidIndexFormat        // 400
    | NoProductAtIndex          // 400
    | UnresolvedPath            // 500
    | ProductNotFound           // 404
    | Download(remotePath: string)

  /** The first configured bulletin with the given id, if any. */
  function FindBulletin(bulletins: seq<BulletinConfig>, id: string): (r: Option<BulletinConfig>)
    ensures r.None? <==> forall i :: 0 <= i < |bulletins| ==> bulletins[i].id != id
    ensures r.Some? ==> exists i :: 0 <= i < |bulletins| && bulletins[i] == r.value &&
                         r.value.id == id && forall j :: 0 <= j < i ==> bulletins[j].id != id
  {
    if bulletins == [] then None
    else if bulletins[0].id == id then Some(bulletins[0])
    else
      var r := FindBulletin(bulletins[1..], id);
      if r.Some? then
        ghost var i :| 0 <= i < |bulletins[1..]| && bulletins[1..][i] == r.value &&
                       r.value.id == id && forall j :: 0 <= j < i ==> bulletins[1..][j].id != id;
        assert bulletins[i + 1] == r.value;
        assert forall j :: 0 <= j < i + 1 ==> bulletins[j].id != id by {
          forall j | 0 <= j < i + 1 ensures bulletins[j].id != id {
            if j > 0 { assert bulletins[j] == bulletins[1..][j - 1]; }
          }
        }
        r
      else
        assert forall j :: 1 <= j < |bulletins| ==> bulletins[j] == bulletins[1..][j - 1];
        r
  }

  /** The index check of the download route: the list is non-empty and the index lies within it. */
  function ValidProductIndex(productPaths: seq<ProductConfig>, index: int): (ok: bool)
    ensures ok <==> 0 <= index < |productPaths|
    ensures ok ==> productPaths != []
  {
    !(productPaths == [] || index < 0 || index >= |productPaths|)
  }

  /** The checks of `download_bulletin_product`, in the order the route makes them. */
  function DownloadPreflight(active: bool, bulletins: seq<BulletinConfig>, id: string,
                             index: IndexArg, fileExists: string -> bool, now: DateTime)
    : (d: DownloadDecision)
    requires ValidDateTime(now)
    ensures d.Download? ==>
              active && FindBulletin(bulletins, id).Some? && index.Given? &&
              (var paths := FindBulletin(bulletins, id).value.productPaths;
               0 <= index.index < |paths| &&
               Resolve(paths[index.index].template, now) == Some(d.remotePath) &&
               d.remotePath != [] && fileExists(d.remotePath))
    ensures active && FindBulletin(bulletins, id).Some? && index.Given? &&
            !(0 <= index.index < |FindBulletin(bulletins, id).value.productPaths|) ==>
              d == NoProductAtIndex
  {
    if !active then SessionInactive
    else
      var found := FindBulletin(bulletins, id);
      if found.None? then UnknownBulletin
      else if index.Missing? then MissingIndex
      else if index.Malformed? then InvalidIndexFormat
      else
        var paths := found.value.productPaths;
        if !ValidProductIndex(paths, index.index) then NoProductAtIndex
        else
          var remotePath := Resolve(paths[index.index].template, now);
          if !UsablePath(remotePath) then UnresolvedPath
          else if !fileExists(remotePath.value) then ProductNotFound
          else Download(remotePath.value)
  }

  /**
   * The download route serves exactly the path the summary reports as
   * available for the same product, with the session up and the same `now`.
   */
  lemma DownloadMatchesSummary(bulletins: seq<BulletinConfig>, id: string, i: int,
                               tail: FetchResult, fileExists: string -> bool, now: DateTime)
    requires ValidDateTime(now) && now.date != MinDate
    requires FindBulletin(bulletins, id).Some?
    requires 0 <= i < |FindBulletin(bulletins, id).value.productPaths|
    ensures var info := Summary(FindBulletin(bulletins, id).value, true, tail, fileExists, now).productInfo[i];
            var d := DownloadPreflight(true, bulletins, id, Given(i), fileExists, now);
            (d.Download? <==> info.available) &&
            (info.available ==> d == Download(info.remotePath.value))
  {
  }
}
