# bulletin_monitor core, modelled in Dafny

bulletin_monitor is a small web dashboard. It watches scheduled bulletin-production
jobs on a remote host over SSH. For every configured bulletin it reads the tail of
the job's log and keeps the lines of yesterday and today. From those lines it
decides the bulletin's status: CRITICAL, FAILED, SUCCESS, WARNING or UNKNOWN from
the log keywords; PENDING when the job ran yesterday but not today; NO_RECENT_RUN
when it ran on neither day; SSH_ERROR when the session is down. It also resolves
each product's date-templated remote path and asks the host whether that file
exists. It serves full logs with keyword highlighting, and it checks download
requests before serving a product file.

This project models that decision logic of `app.py`, using the keyword lists of
`config.py`:

- `wrappers.dfy`: the `Option` type.
- `text.dfy`: what the Python code relies on from `str`: upper-casing, `in`,
  `splitlines` and `"\n".join`.
- `calendar.dfy`: dates and date-times, with the validity rules of `strptime`.
  It also parses the `YYYY-MM-DD` and `YYYY-MM-DD HH:MM:SS` line prefixes,
  formats zero-padded fields, and computes the day before a date.
- `log_classifier.dfy`: `parse_log_status` (a function) and
  `format_full_log_with_styles` (a method with its loop).
- `path_template.dfy`: `_resolve_dynamic_path`, covering the subset of
  `str.format` that templates use.
- `run_window.dfy` covers three parts of `get_bulletin_details_summary`:
  - the line filter of `get_log_content_for_date_range`;
  - the per-day bucket loops;
  - the latest-timestamp search of `_get_latest_timestamp_from_log_content`.

  Each loop is a method proved against a specification function: `Collect` for
  the filter and the buckets, `LatestOf` for the search.
- `bulletin_status.dfy`:
  - the summary of one bulletin and the `/api/bulletins` listing;
  - the checks the download route makes before it transfers a file;
  - the `RunVerdict` decision chain, with lemmas characterising each outcome.

The remote session is an oracle. Whether it is active is a boolean. What `tail`
returned is a `FetchResult(success, output, error)`. Whether a remote file
exists is a function `string -> bool`. The current time `now` is a parameter.

## Model

| member | source | states |
|---|---|---|
| Text.Upper | app.py:47 | upper-casing keeps the length, leaves no ASCII lower-case letter, and keeps every character that is not one in place |
| Text.UpperIdempotent | app.py:47 | upper-casing already upper-cased text changes nothing |
| Text.UpperConcat | app.py:47 | upper-casing distributes over concatenation |
| Text.Contains | app.py:48-51 | `sub in s` holds exactly when `sub` occurs at some index of `s` |
| Text.SplitLines | app.py:161 | no lines for the empty text, no line contains a newline, and joining the lines (plus a final newline when the text ended with one) gives the text back |
| Text.SplitLinesJoin | app.py:177 | splitting the join of newline-free lines whose last line is non-empty gives those lines back |
| Calendar.FormatDate | app.py:251 | `strftime('%Y-%m-%d')` is a 10-character date prefix that reads back as the same date |
| Calendar.PrevDay | app.py:213 | `now - timedelta(days=1)` is a valid date before `now`, with no valid date strictly between them |
| Calendar.DateTimeOrder | app.py:197 | the date-time order used to compare timestamps is irreflexive, transitive and total |
| LogClassifier.AnyKeyword | app.py:48-51 | `any(kw in text for kw in keywords)` holds exactly when some keyword of the list occurs in the text |
| LogClassifier.ParseLogStatus | app.py:36-70 | empty text or text with the fetch-error marker is (UNKNOWN, false); otherwise the status is one the text mentions (or UNKNOWN) and no status the text mentions ranks higher in CRITICAL > FAILED > SUCCESS > WARNING; `has_warnings` holds exactly when the status is SUCCESS and a warning keyword occurs |
| LogClassifier.StatusMonotone | app.py:56-67 | a text mentioning at least the keyword classes of another never gets a lower-ranked status |
| LogClassifier.ClassificationIgnoresCase | app.py:47 | two texts with equal upper-case forms get the same classification |
| LogClassifier.LineSeverity | app.py:85-92 | a line's highlight class is critical, error, warning or none; it is one the line mentions, and no class the line mentions ranks higher |
| LogClassifier.HighlightLine | app.py:85-92 | the keyword chain of one line yields exactly its styled form: the line wrapped in the span of its highest-ranked class, or unchanged |
| LogClassifier.StyleLineRoundTrip | app.py:86-92 | removing the highlight wrapper from a styled line gives the original line |
| LogClassifier.StyleLineNoNewline | app.py:86-92 | styling a newline-free line adds no newline |
| LogClassifier.FormatFullLogWithStyles | app.py:73-94 | empty input gives ""; otherwise the result is the styled lines, one per input line in order, joined by newlines |
| LogClassifier.StyledLogRoundTrip | app.py:73-94 | the styled log splits into exactly as many lines as the input, and each un-styles back to its input line |
| PathTemplate.ComponentText | app.py:106-123 | each date variable has its fixed width (4 for `%Y`, 2 otherwise) and reads back as the year, two-digit year, month, day, hour, minute or second |
| PathTemplate.Resolve | app.py:125-134 | `template.format(**date_vars)` with every exception turned into None; brace-free text resolves to itself. The lemmas below state the rest of what it means |
| PathTemplate.ResolveLiteral | app.py:126 | brace-free text is copied through unchanged in front of whatever the rest resolves to |
| PathTemplate.ResolveKnownField | app.py:126 | a `{name}` field of a known variable is replaced by that variable's text |
| PathTemplate.ResolveConcat | app.py:126 | a template that resolves, followed by any text, resolves to its own result in front of what the text resolves to; if the text fails, the whole fails |
| PathTemplate.UnknownPlaceholderFailsClosed | app.py:126-131 | a field whose plain name (no `:`, `!`, `.` or `[`) is not a variable makes the whole template resolve to None, whatever resolvable template precedes it and whatever follows; never a partial string |
| PathTemplate.UnknownAfterKnownField | app.py:126-131 | a known field, brace-free text, then an unknown field (as in `{year}/{bogus}`) resolves to None |
| PathTemplate.ResolveThreeFields | app.py:126 | three known fields joined by a brace-free separator resolve to their three texts joined by that separator |
| PathTemplate.ResolveDateExample | app.py:99-126 | `"{year}-{month}-{day}"` resolves to the date in `YYYY-MM-DD` form, for every date-time |
| PathTemplate.ResolveShortYearExample | app.py:108 | `"{year_short}"` in 2024 resolves to "24" |
| PathTemplate.ResolveUnknownExample | app.py:126-131 | `"{bogus}"` resolves to None |
| RunWindow.CollectMembers | app.py:161-174 | every kept line is one of the input lines, and it either opens the window or has no leading date |
| RunWindow.CollectStartsWithOpener | app.py:173 | nothing is kept until a line opens the window, and the first kept line is such a line |
| RunWindow.CollectKeepsOpeners | app.py:163-168 | every line that opens the window is kept |
| RunWindow.FilterKeepsValidDatesInRange | app.py:163-168 | every kept dated line carries a real date within [start, end] |
| RunWindow.FilterDateRange | app.py:157-174 | the filter loop yields exactly the `Collect` of the split output for the date range |
| RunWindow.GetLogContentForDateRange | app.py:139-177 | the text is the inactive-session message, the fetch-error message, or the joined filtered lines; with the session down it mentions SSH_ERROR |
| RunWindow.DayBucket | app.py:250-259 | a day's bucket loop yields exactly the `Collect` of the lines for that day's date string |
| RunWindow.DayBucketShape | app.py:252-258 | a non-empty bucket starts with a line of that day, and every line in it has that day's date or no leading date |
| RunWindow.LatestOf | app.py:180-203 | a found timestamp is 19 characters long and qualifies: a real date-time, on the filter date when one is given |
| RunWindow.LatestOfSpec | app.py:180-203 | the result is None exactly when no line qualifies; otherwise it is the timestamp prefix of a qualifying line and no qualifying line is later |
| RunWindow.LatestTimestamp | app.py:185-203 | the reverse scan returns exactly `LatestOf` of the lines |
| BulletinStatus.Decide | app.py:221-295 | SSH_ERROR exactly when the session is down, the fetch mentions SSH_ERROR or the classification says so; PENDING and NO_RECENT_RUN exactly in their branches. With a run today, the verdict is that run's timestamp with the classification's status and warnings. Otherwise the last-run text is "N/A (Log fetch error)", "N/A (Last run: <yesterday's timestamp> - Yesterday)" or "N/A (No recent runs today or yesterday)"; warnings are reported only with a run today |
| BulletinStatus.DayLinesAreBucket | app.py:259-264 | joining a day's bucket and splitting it again gives the bucket back, unless its last line is empty |
| BulletinStatus.ResolveRun | app.py:241-295 | with the session up, fetching the window, bucketing today and yesterday and searching each for its latest run yields exactly `RunVerdict` |
| BulletinStatus.ListProductsUnchecked | app.py:224-230 | with the session down, one entry per product, in order, with its name and resolved path, and none available |
| BulletinStatus.CheckProducts | app.py:298-313 | with the session up, one entry per product, in order, available exactly when its path resolved to non-empty text and the file exists |
| BulletinStatus.GetBulletinDetailsSummary | app.py:206-322 | the record returned is exactly `Summary`: the verdict of the fetched window and the product entries for the session's state |
| BulletinStatus.SummaryProducts | app.py:224-313 | id and name are copied; one product entry per configured product, in order, with its name (default "Product"), the path resolved for `now`, and availability exactly when the session is up, the path resolved to non-empty text and the file exists |
| BulletinStatus.InactiveSummary | app.py:221-239 | with the session down, the summary is SSH_ERROR with last run "N/A", no warnings and no product available |
| BulletinStatus.GetAllBulletinsStatus | app.py:346-352 | the listing loop returns exactly `Summaries`, the summaries of the configured bulletins |
| BulletinStatus.SummariesLength | app.py:349-351 | the listing has one record per configured bulletin |
| BulletinStatus.SummaryAt | app.py:349-351 | position i of the listing is the summary of the i-th configured bulletin, fetched from its own log |
| BulletinStatus.InactiveListing | app.py:221-352 | with the session down, every record of the listing is SSH_ERROR with last run "N/A", no warnings and nothing available |
| BulletinStatus.ClassifierStatus | app.py:36-70 | the log classifier never yields PENDING, NO_RECENT_RUN or SSH_ERROR, so those come only from the decision chain |
| BulletinStatus.SshErrorVerdict | app.py:221-246 | the status is SSH_ERROR exactly when the session is down or the fetched window text mentions SSH_ERROR |
| BulletinStatus.TodayRunVerdict | app.py:264-269 | when today's bucket has a run of today, the last run is its latest timestamp and the status and warnings are the classification of today's bucket |
| BulletinStatus.PendingVerdict | app.py:271-290 | PENDING holds exactly when the session is up, the fetch is clean, today's bucket has no run of today and yesterday's bucket has a run of yesterday; its last-run text then names the latest timestamp of yesterday's bucket |
| BulletinStatus.NoRecentRunVerdict | app.py:271-294 | NO_RECENT_RUN holds exactly when the session is up, the fetch is clean and neither bucket has a run of its own day |
| BulletinStatus.WarningsOnlyWithSuccess | app.py:60-63 | the summary only ever reports warnings alongside SUCCESS |
| BulletinStatus.FailedFetchIsNoRecentRun | app.py:153-155 | a failed fetch whose single-line message does not mention SSH_ERROR ends as NO_RECENT_RUN, not SSH_ERROR |
| BulletinStatus.FindBulletin | app.py:409 | the result is the first configured bulletin with that id, and None exactly when no bulletin has it |
| BulletinStatus.ValidProductIndex | app.py:426-428 | an index is accepted exactly when 0 <= index < number of products, which implies the list is non-empty |
| BulletinStatus.DownloadPreflight | app.py:401-446 | a download proceeds only with the session up, a known bulletin, an in-range index, a template resolving to a non-empty path and an existing file, and it serves that path; an out-of-range index is a 400 |
| BulletinStatus.DownloadMatchesSummary | app.py:298-313 | with the session up and the same `now`, the download route serves a product exactly when the summary reports it available, and it serves the path the summary shows |

Some definitions model a source construct directly and have no contract of their own. Each is used by the members above:

- `Calendar.HasDatePrefix` and `Calendar.DateOf`: the `^\d{4}-\d{2}-\d{2}` match (app.py:159, app.py:257) and the `strptime` read of the date (app.py:166).
- `Calendar.HasTimestampPrefix`, `Calendar.TimestampOf` and `RunWindow.Qualifies`: the timestamp match and parse of app.py:185-195.
- `BulletinStatus.UsablePath`: the truth test `if remote_path:` (app.py:301, app.py:437), under which an empty path counts as missing.

## Behaviour of the code worth knowing

The model follows the code in each case below.

- A failed `tail` fetch does not give SSH_ERROR. `get_log_content_for_date_range`
  returns "Error fetching log file '...': ...", and that text does not contain
  "SSH_ERROR" (app.py:155, app.py:244). So the summary goes on to the day buckets.
  Those buckets find no dated line, and the status ends as NO_RECENT_RUN.
  `BulletinStatus.FailedFetchIsNoRecentRun` states this. Only an inactive session,
  a log that itself mentions SSH_ERROR, or a failed fetch whose log path or error
  text contains "SSH_ERROR" gives SSH_ERROR.
- Invalid dates are dropped. A line whose leading `YYYY-MM-DD` is not a real date
  (say 2024-02-30) is dropped by the date-range filter (app.py:165-171), not kept
  as a continuation line. A following undated line is still kept once an earlier
  line has opened the window.
- A session that is down when an `/api` request arrives never reaches the routes.
  The request hook `check_global_ssh_client_status` (app.py:481-496) answers
  503 with status SYSTEM_ERROR when the client was never created, or when it is
  inactive and one re-connection attempt fails. So the all-SSH_ERROR listing of
  `BulletinStatus.InactiveListing`, and the `SessionInactive` answer of
  `BulletinStatus.DownloadPreflight`, are reached only when the session drops
  after the hook has let the request through.
- Day buckets ignore other days' dates when deciding continuations. An undated
  line joins a day's bucket whenever that bucket is already non-empty
  (app.py:257-258), even if a line dated another day came in between.

## Left out

- The SSH layer (`ssh_utils.py`) is not part of this model: connecting, re-connecting, command execution, SFTP. Its answers are inputs.
- The Flask routes are left out beyond their decision logic. That covers JSON encoding, `send_file`, the temporary download directory and its clean-up, the re-run route and the full-log route's fetch.
- `get_full_log_content` and the shell command strings are left out, because they only build text sent to the remote host.
- Logging is left out.
- `datetime.now()` is not modelled. The current time is the parameter `now`, and one `now` serves a whole listing, whereas the source reads the clock once per bulletin.
- The request hook `check_global_ssh_client_status` (app.py:481-496) is not modelled. It may answer 503 SYSTEM_ERROR before any route runs, and it may re-connect. The route members describe what happens once it has let a request through, so their `active` is the session state the route itself sees.
- Session liveness is one boolean per request, because a connection that drops midway through a request cannot be observed in the model.
- Text.SplitLines: only "\n" breaks lines, because the logs are Unix text; Python's `splitlines` also breaks on "\r", "\x0b", "\x0c", "\x1c"-"\x1e", "\x85", "\u2028" and "\u2029".
- Text.Upper: only ASCII letters are upper-cased. Python's `upper` also maps non-ASCII letters and can change a string's length: 'ı' becomes 'I', 'ſ' becomes 'S', 'ﬁ' becomes "FI". So a log reading "ſuccess" or "ﬁnished" counts as SUCCESS in the source (app.py:47-50) but UNKNOWN in the model. Full Unicode case mapping is not modelled.
- Calendar.HasDatePrefix: `\d` matches ASCII digits only, whereas Python's `re` also matches other Unicode decimal digits.
- Calendar.FormatDate and PathTemplate.ComponentText: years below 1000 are padded to four digits, in the date prefix and in the `{year}`, `{YYYY}` and `{Year}` fields. Python's `%Y` may print them unpadded, depending on the platform. The clock never yields such a year.
- Calendar.PrevDay: requires `now` to be after 0001-01-01, because the source would raise `OverflowError` there.
- PathTemplate.Resolve: format specs (`{year:>4}`), conversions (`{year!r}`), attribute and index access, and positional fields are treated as unknown names, so they fail closed with None. Python would format some of these and raise on others; the source returns None for every exception.
- BulletinStatus.DownloadPreflight: the parse of the `index` parameter by `int()` is an input (`IndexArg`), not a model of Python's integer syntax.
- BulletinStatus.FailedFetchIsNoRecentRun: assumes the log path and the error text contain no newline and that the message does not mention SSH_ERROR. A multi-line error whose later lines start with today's date could still form a bucket.
- Configuration loading (`config.py` credentials and the bulletin list) is left out; bulletins are a parameter.
