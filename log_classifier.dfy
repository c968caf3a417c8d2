/**
 * The log-status classifier of app.py: the whole-text status of a log
 * (`parse_log_status`) and the per-line highlighting of a full log
 * (`format_full_log_with_styles`).  Both search the upper-cased text for the
 * four keyword lists of config.py.
 */
module LogClassifier {
  import opened Text

  /**
   * The statuses a bulletin is reported with.  The classifier produces the first
   * five; `Pending`, `NoRecentRun` and `SshError` come only from the run resolver.
   */
  datatype Status = Critical | Failed | Success | Warning | Unknown | Pending | NoRecentRun | SshError

  const SuccessKeywords: seq<string> := ["SUCCESS", "COMPLETED", "FINISHED"]
  const ErrorKeywords: seq<string> := ["ERROR", "FAILURE", "FAILED", "EXCEPTION"]
  const WarningKeywords: seq<string> := ["WARNING", "WARN"]
  const CriticalKeywords: seq<string> := ["CRITICAL", "FATAL", "SEVERE"]

  /** The text the log fetcher returns when the remote command failed. */
  const FetchErrorMarker: string := "Error fetching log file"

  /** The keyword list whose presence indicates a status (none for the other statuses). */
  function KeywordsOf(s: Status): seq<string>
  {
    match s
    case Critical => CriticalKeywords
    case Failed => ErrorKeywords
    case Success => SuccessKeywords
    case Warning => WarningKeywords
    case _ => []
  }

  /** The priority table: CRITICAL > FAILED > SUCCESS > WARNING > UNKNOWN. */
  function Rank(s: Status): nat
  {
    match s
    case Critical => 4
    case Failed => 3
    case Success => 2
    case Warning => 1
    case _ => 0
  }

  /** Python's `any(kw in text for kw in keywords)`. */
  function AnyKeyword(text: string, keywords: seq<string>): (r: bool)
    ensures r <==> exists k :: k in keywords && Contains(text, k)
  {
    if keywords == [] then
      false
    else
      var rest := AnyKeyword(text, keywords[1..]);
      if Contains(text, keywords[0]) then
        assert keywords[0] in keywords;
        true
      else if rest then
        var k :| k in keywords[1..] && Contains(text, k);
        assert k in keywords;
        true
      else
        assert forall k :: k in keywords ==> k == keywords[0] || k in keywords[1..];
        false
  }

  /** Some keyword of status `s` occurs in `text`, ignoring (ASCII) case. */
  ghost predicate Mentions(text: string, s: Status)
  {
    exists k :: k in KeywordsOf(s) && Contains(Upper(text), k)
  }

  datatype Classification = Classification(status: Status, hasWarnings: bool)

  /** Text the classifier looks into: not empty, and not a fetch-error message. */
  predicate Classifiable(text: string)
  {
    text != [] && !Contains(text, FetchErrorMarker)
  }

  /**
   * `parse_log_status`: empty text and fetch errors are UNKNOWN; otherwise the
   * status is the highest-ranked one whose keywords occur (UNKNOWN when none
   * does), and `hasWarnings` is set only on a SUCCESS that also mentions a
   * warning keyword.
   */
  function ParseLogStatus(text: string): (r: Classification)
    ensures !Classifiable(text) ==> r == Classification(Unknown, false)
    ensures Rank(r.status) > 0 || r.status == Unknown
    ensures Classifiable(text) ==> r.status == Unknown || Mentions(text, r.status)
    ensures Classifiable(text) ==> forall s :: Mentions(text, s) ==> Rank(s) <= Rank(r.status)
    ensures r.hasWarnings <==> Classifiable(text) && r.status == Success && Mentions(text, Warning)
  {
    if text == [] || Contains(text, FetchErrorMarker) then
      Classification(Unknown, false)
    else
      var upper := Upper(text);
      var isCritical := AnyKeyword(upper, CriticalKeywords);
      var isFailed := AnyKeyword(upper, ErrorKeywords);
      var isSuccess := AnyKeyword(upper, SuccessKeywords);
      var isWarning := AnyKeyword(upper, WarningKeywords);
      if isCritical then Classification(Critical, false)
      else if isFailed then Classification(Failed, false)
      else if isSuccess then Classification(Success, isWarning)
      else if isWarning then Classification(Warning, false)
      else Classification(Unknown, false)
  }

  /**
   * More keyword classes never lower the status: if every class `a` mentions is
   * mentioned by `b`, then `b` ranks at least as high.  In particular a warning
   * keyword added to a SUCCESS log leaves it SUCCESS.
   */
  lemma StatusMonotone(a: string, b: string)
    requires Classifiable(a) && Classifiable(b)
    requires forall s :: Mentions(a, s) ==> Mentions(b, s)
    ensures Rank(ParseLogStatus(a).status) <= Rank(ParseLogStatus(b).status)
  {
  }

  /** Two texts that agree once upper-cased get the same classification. */
  lemma ClassificationIgnoresCase(a: string, b: string)
    requires Classifiable(a) && Classifiable(b) && Upper(a) == Upper(b)
    ensures ParseLogStatus(a) == ParseLogStatus(b)
  {
  }

  // ----- per-line highlighting -----

  const CriticalOpen: string := "<span class=\"log-critical\">"
  const ErrorOpen: string := "<span class=\"log-error\">"
  const WarningOpen: string := "<span class=\"log-warning\">"
  const SpanClose: string := "</span>"

  /**
   * The highlight class of one line: the highest-ranked of critical, error and
   * warning whose keywords occur in it, `Unknown` for a line left plain.
   * Success keywords play no part.
   */
  function LineSeverity(line: string): (r: Status)
    ensures r == Critical || r == Failed || r == Warning || r == Unknown
    ensures r == Unknown || Mentions(line, r)
    ensures forall s :: s != Success && Mentions(line, s) ==> Rank(s) <= Rank(r)
  {
    var upper := Upper(line);
    if AnyKeyword(upper, CriticalKeywords) then Critical
    else if AnyKeyword(upper, ErrorKeywords) then Failed
    else if AnyKeyword(upper, WarningKeywords) then Warning
    else Unknown
  }

  function OpenTag(s: Status): string
  {
    match s
    case Critical => CriticalOpen
    case Failed => ErrorOpen
    case Warning => WarningOpen
    case _ => []
  }

  /** One display line: the line inside the span of its severity, or the line itself. */
  function StyleLine(line: string): string
  {
    var s := LineSeverity(line);
    if s == Unknown then line else OpenTag(s) + line + SpanClose
  }

  predicate IsWrapped(open: string, s: string)
  {
    |open| + |SpanClose| <= |s| && s[..|open|] == open && s[|s| - |SpanClose|..] == SpanClose
  }

  /** Reads a display line back: strips a highlight span if there is one. */
  function Unstyle(styled: string): string
  {
    if IsWrapped(CriticalOpen, styled) then styled[|CriticalOpen|..|styled| - |SpanClose|]
    else if IsWrapped(ErrorOpen, styled) then styled[|ErrorOpen|..|styled| - |SpanClose|]
    else if IsWrapped(WarningOpen, styled) then styled[|WarningOpen|..|styled| - |SpanClose|]
    else styled
  }

  /** The upper-cased text of `line` holds `kw` at `at` when `line` holds it in any case. */
  lemma UpperOccurs(line: string, at: nat, kw: string)
    requires at + |kw| <= |line|
    requires forall i :: 0 <= i < |kw| ==> UpperChar(line[at + i]) == kw[i]
    ensures Contains(Upper(line), kw)
  {
    var upper := Upper(line);
    assert upper[at..at + |kw|] == kw;
    assert OccursAt(kw, upper, at);
  }

  /**
   * A line that starts like a highlight span mentions that span's keyword
   * itself ("log-critical", "log-error", "log-warning"), so a plain line can
   * never be mistaken for a highlighted one.
   */
  lemma OpenTagMentions(line: string, s: Status)
    requires s == Critical || s == Failed || s == Warning
    requires IsPrefix(OpenTag(s), line)
    ensures Mentions(line, s)
  {
    var open := OpenTag(s);
    assert forall i :: 0 <= i < |open| ==> line[i] == open[i];
    if s == Critical {
      UpperOccurs(line, 17, "CRITICAL");
      assert "CRITICAL" in KeywordsOf(s);
    } else if s == Failed {
      UpperOccurs(line, 17, "ERROR");
      assert "ERROR" in KeywordsOf(s);
    } else {
      UpperOccurs(line, 17, "WARNING");
      assert "WARNING" in KeywordsOf(s);
    }
  }

  /** A plain line is read back as itself. */
  lemma PlainLineRoundTrip(line: string)
    requires LineSeverity(line) == Unknown
    ensures Unstyle(line) == line
  {
    if IsWrapped(CriticalOpen, line) {
      OpenTagMentions(line, Critical);
    } else if IsWrapped(ErrorOpen, line) {
      OpenTagMentions(line, Failed);
    } else if IsWrapped(WarningOpen, line) {
      OpenTagMentions(line, Warning);
    }
  }

  /** A line that opens with one span tag is not wrapped in another whose class differs. */
  lemma OtherTagNotWrapped(open: string, other: string, s: string)
    requires 18 <= |open| && 18 <= |other| && open[17] != other[17]
    requires |open| <= |s| && s[..|open|] == open
    ensures !IsWrapped(other, s)
  {
    assert s[17] == open[17];
  }

  /** A highlighted line is read back as the line inside the span. */
  lemma WrappedLineRoundTrip(open: string, line: string)
    requires open == CriticalOpen || open == ErrorOpen || open == WarningOpen
    ensures Unstyle(open + line + SpanClose) == line
  {
    var styled := open + line + SpanClose;
    assert styled[..|open|] == open;
    assert styled[|styled| - |SpanClose|..] == SpanClose;
    assert styled[|open|..|styled| - |SpanClose|] == line;
    assert IsWrapped(open, styled);
    if open != CriticalOpen {
      OtherTagNotWrapped(open, CriticalOpen, styled);
      if open != ErrorOpen {
        OtherTagNotWrapped(open, ErrorOpen, styled);
      }
    }
  }

  /** Highlighting loses nothing: stripping the span gives the line back. */
  lemma StyleLineRoundTrip(line: string)
    ensures Unstyle(StyleLine(line)) == line
  {
    var s := LineSeverity(line);
    if s == Unknown {
      PlainLineRoundTrip(line);
    } else {
      WrappedLineRoundTrip(OpenTag(s), line);
    }
  }

  /** A line without a newline is still one line once highlighted. */
  lemma StyleLineNoNewline(line: string)
    requires Newline !in line
    ensures Newline !in StyleLine(line)
  {
    var s := LineSeverity(line);
    if s != Unknown {
      assert Newline !in OpenTag(s) by {
        assert s == Critical || s == Failed || s == Warning;
      }
      assert Newline !in SpanClose;
      assert StyleLine(line) == OpenTag(s) + line + SpanClose;
    }
  }

  /** The display lines of a log, one per input line, in order. */
  function StyledLines(lines: seq<string>): (r: seq<string>)
    ensures |r| == |lines|
    ensures forall i :: 0 <= i < |lines| ==> r[i] == StyleLine(lines[i])
  {
    seq(|lines|, i requires 0 <= i < |lines| => StyleLine(lines[i]))
  }

  /** Styling one more line appends its display line. */
  lemma StyledLinesSnoc(lines: seq<string>, i: int)
    requires 0 <= i < |lines|
    ensures StyledLines(lines[..i + 1]) == StyledLines(lines[..i]) + [StyleLine(lines[i])]
  {
    var a, b := StyledLines(lines[..i + 1]), StyledLines(lines[..i]) + [StyleLine(lines[i])];
    assert |a| == |b|;
    forall k | 0 <= k < |a|
      ensures a[k] == b[k]
    {
      assert lines[..i + 1][k] == lines[k];
      if k < i {
        assert lines[..i][k] == lines[k];
        assert a[k] == StyleLine(lines[k]) == b[k];
      } else {
        assert a[k] == StyleLine(lines[i]) == b[k];
      }
    }
  }

  /** The loop body of `format_full_log_with_styles` for one line: the first matching class wins. */
  method HighlightLine(line: string) returns (styledLine: string)
    ensures styledLine == StyleLine(line)
  {
    var upper := Upper(line);
    if AnyKeyword(upper, CriticalKeywords) {
      styledLine := CriticalOpen + line + SpanClose;
    } else if AnyKeyword(upper, ErrorKeywords) {
      styledLine := ErrorOpen + line + SpanClose;
    } else if AnyKeyword(upper, WarningKeywords) {
      styledLine := WarningOpen + line + SpanClose;
    } else {
      styledLine := line;
    }
  }

  /**
   * `format_full_log_with_styles`: "" for an empty log; otherwise each line of
   * the log, highlighted, joined with newlines.
   */
  method FormatFullLogWithStyles(raw: string) returns (styled: string)
    ensures raw == [] ==> styled == []
    ensures styled == JoinLines(StyledLines(SplitLines(raw)))
  {
    if raw == [] {
      return [];
    }
    var lines := SplitLines(raw);
    var styledLines: seq<string> := [];
    for i := 0 to |lines|
      invariant styledLines == StyledLines(lines[..i])
    {
      var styledLine := HighlightLine(lines[i]);
      StyledLinesSnoc(lines, i);
      styledLines := styledLines + [styledLine];
    }
    assert lines[..|lines|] == lines;
    styled := JoinLines(styledLines);
  }

  /**
   * The styled log read back: splitting it at newlines gives one display line
   * per log line, and stripping each span gives the log's lines in order.
   */
  lemma StyledLogRoundTrip(raw: string)
    requires raw != []
    ensures var lines := SplitLines(raw);
            var back := SplitOn(JoinLines(StyledLines(lines)));
            |back| == |lines| && forall i :: 0 <= i < |lines| ==> Unstyle(back[i]) == lines[i]
  {
    var lines := SplitLines(raw);
    var out := StyledLines(lines);
    forall k | 0 <= k < |out|
      ensures Newline !in out[k]
    {
      StyleLineNoNewline(lines[k]);
    }
    SplitOnJoin(out);
    forall i | 0 <= i < |lines|
      ensures Unstyle(out[i]) == lines[i]
    {
      StyleLineRoundTrip(lines[i]);
    }
  }
}
