// The older rule-based insights service: UTC-only timeliness, growth with messages, editing
// patterns, and the overall assessment (flags, risk indicators, confidence and summary).
module HeuristicInsights {
  import opened Wrappers
  import opened Base
  import opened PyMath
  import opened AnalysisModels
  import Text
  import IS = InsightsService

  /** The configured `MIN_DOCUMENT_WORDS` default. */
  const DefaultMinDocumentWords: nat := 50

  // ---------------------------------------------------------------- timeliness (UTC only)

  /** `_format_time_difference` of this copy: plural units always, ", " between units. */
  function FormatTimeDifference(total: int): string
  {
    match IS.SpanOf(total)
    case Seconds(s) => Text.IntToString(s) + " seconds"
    case Minutes(m) => Text.IntToString(m) + " minutes"
    case HoursMinutes(h, m) =>
      if m > 0 then Text.IntToString(h) + " hours, " + Text.IntToString(m) + " minutes"
      else Text.IntToString(h) + " hours"
    case DaysHours(d, h) =>
      if h > 0 then Text.IntToString(d) + " days, " + Text.IntToString(h) + " hours"
      else Text.IntToString(d) + " days"
  }

  /** The two copies word the same span differently: no singular here, a comma instead of "and". */
  lemma FormatDiffersFromService()
    ensures FormatTimeDifference(3660) == "1 hours, 1 minutes"
    ensures IS.FormatTimeDifference(3660) == "1 hour and 1 minute"
  {
    assert IS.SpanOf(3660) == IS.HoursMinutes(1, 1);
    assert Text.IntToString(1) == "1";
  }

  function TimelinessMessage(c: TimelinessClassification, diff: int): string
  {
    match c
    case LastMinuteRush => "Last-minute submission (submitted " + FormatTimeDifference(-diff) + " before deadline)"
    case OnTime => "On-time submission (submitted " + FormatTimeDifference(-diff) + " before deadline)"
    case Late => "Late submission (submitted " + FormatTimeDifference(diff) + " after deadline)"
    case NoDeadline => "No deadline set for this submission"
  }

  /**
   * `evaluate_submission_timeliness` of this copy: a naive deadline is always read as UTC and
   * the deadline's own timezone is ignored.
   */
  function EvaluateTimeliness(sub: IS.SubmissionView, deadline: Option<IS.DeadlineView>,
                              parse: IS.IsoParser): (r: IS.TimelinessResult)
    ensures deadline.None? ==> r == IS.TimelinessResult(NoDeadline, "No deadline set for this submission", None)
    ensures r.details.None? <==> deadline.None? || IS.SubmissionInstant(sub, parse).Err?
    ensures r.details.None? ==> r.classification == NoDeadline
    ensures r.details.Some? ==>
      var d := r.details.value;
      var diff := d.submissionTime - d.deadlineTime;
      d.submissionTime == IS.SubmissionInstant(sub, parse).value
      && d.deadlineTime == deadline.value.deadlineDatetime.Utc()
      && r.classification == IS.Classify(diff)
      && (d.isLate <==> r.classification == Late)
      && (d.isLastMinute <==> r.classification == LastMinuteRush)
      && d.timeDifferenceMinutes == TruncDiv(diff, 60)
  {
    match deadline
    case None => IS.TimelinessResult(NoDeadline, "No deadline set for this submission", None)
    case Some(dl) =>
      match IS.SubmissionInstant(sub, parse)
      case Err(e) => IS.TimelinessResult(NoDeadline, "Error evaluating timeliness: " + e, None)
      case Ok(subTime) =>
        var deadlineTime := dl.deadlineDatetime.Utc();
        var diff := subTime - deadlineTime;
        var c := IS.Classify(diff);
        IS.TimelinessResult(c, TimelinessMessage(c, diff),
          Some(IS.TimelinessDetails(subTime, deadlineTime, TruncDiv(diff, 60),
                                    diff > 0, diff <= 0 && Abs(diff) <= IS.LastMinuteThreshold)))
  }

  /**
   * The two copies classify alike unless the live one reads a naive deadline in its own zone:
   * with no zone, 'UTC', or an aware deadline the classification and details coincide.
   */
  lemma TimelinessAgreesWithoutZone(sub: IS.SubmissionView, deadline: Option<IS.DeadlineView>,
                                    parse: IS.IsoParser, zones: ZoneTable)
    requires deadline.Some? ==> !IS.UsesOwnZone(deadline.value)
    ensures EvaluateTimeliness(sub, deadline, parse).classification
         == IS.EvaluateSubmissionTimeliness(sub, deadline, parse, zones).classification
    ensures EvaluateTimeliness(sub, deadline, parse).details
         == IS.EvaluateSubmissionTimeliness(sub, deadline, parse, zones).details
  {
    if deadline.Some? {
      assert IS.DeadlineInstant(deadline.value, zones) == deadline.value.deadlineDatetime.Utc();
    }
  }

  /**
   * A naive midnight deadline in a zone one hour east of UTC, and a submission half an hour
   * before midnight UTC: this copy calls it a last-minute rush, the live copy calls it late.
   */
  lemma TimelinessDiffersWithZone(parse: IS.IsoParser, zones: ZoneTable)
    requires zones("Europe/Paris", 0) == Some(3600)
    ensures
      var sub := IS.SubmissionView(DateTime(-1800, None), None);
      var dl := Some(IS.DeadlineView(DateTime(0, None), Some("Europe/Paris")));
      EvaluateTimeliness(sub, dl, parse).classification == LastMinuteRush
      && IS.EvaluateSubmissionTimeliness(sub, dl, parse, zones).classification == Late
  {
    var dl := IS.DeadlineView(DateTime(0, None), Some("Europe/Paris"));
    assert IS.UsesOwnZone(dl);
    assert IS.DeadlineInstant(dl, zones) == -3600;
  }

  // ---------------------------------------------------------------- contribution growth

  /** The growth message this copy picks, with the numbers it shows. */
  datatype GrowthMessage =
    | NoVersionHistory | NoPriorVersion
    | MajorAddition(words: int, percent: real) | ContentAdded(words: int, percent: real)
    | MajorReduction(words: int, percent: real) | ContentReduced(words: int, percent: real)
    | NoSignificantChange

  /** `f"{opening}{words} words ({percent:.1f}{closing}"`: the change with its sign, the percentage to one decimal. */
  function ChangeText(opening: string, words: int, percent: real, closing: string): string
  {
    opening + Text.IntToString(words) + " words (" + Fixed1(percent) + closing
  }

  /** The message text. */
  function MessageText(m: GrowthMessage): string
  {
    match m
    case NoVersionHistory => IS.NoHistoryMessage
    case NoPriorVersion => IS.NoPriorMessage
    case MajorAddition(w, p) => ChangeText("Major content addition: +", w, p, "% increase)")
    case ContentAdded(w, p) => ChangeText("Content added: +", w, p, "% increase)")
    case MajorReduction(w, p) => ChangeText("Major content reduction: ", w, p, "% decrease)")
    case ContentReduced(w, p) => ChangeText("Content reduced: ", w, p, "% decrease)")
    case NoSignificantChange => "No significant word count change detected"
  }

  /**
   * The shown text of a change tells its kind: it opens with "Major" exactly when the change
   * is major, and closes with "% increase)" for a gain and "% decrease)" for a loss.
   */
  lemma ChangeMessageText(change: int, pct: real, major: bool)
    requires change != 0
    ensures var t := MessageText(GrowthMessageOf(change, pct, major));
      |t| >= 16 && (t[..5] == "Major" <==> major)
      && (change > 0 ==> t[|t| - 11..] == "% increase)")
      && (change < 0 ==> t[|t| - 11..] == "% decrease)")
  {
    var m := GrowthMessageOf(change, pct, major);
    if change > 0 && major {
      Shown("Major content addition: +", change, pct, "% increase)");
      Opens(MessageText(m), "Major content addition: +");
    } else if change > 0 {
      Shown("Content added: +", change, pct, "% increase)");
      Opens(MessageText(m), "Content added: +");
    } else if major {
      Shown("Major content reduction: ", change, pct, "% decrease)");
      Opens(MessageText(m), "Major content reduction: ");
    } else {
      Shown("Content reduced: ", change, pct, "% decrease)");
      Opens(MessageText(m), "Content reduced: ");
    }
  }

  /** A text that opens with `a` opens with "Major" exactly when `a` does. */
  lemma Opens(t: string, a: string)
    requires 5 <= |a| <= |t| && t[..|a|] == a
    ensures t[..5] == "Major" <==> a[0] == 'M' && a[1] == 'a' && a[2] == 'j' && a[3] == 'o' && a[4] == 'r'
  {
    assert t[..5] == a[..5];
    if t[..5] == "Major" {
      assert a[..5][0] == 'M' && a[..5][1] == 'a' && a[..5][2] == 'j' && a[..5][3] == 'o' && a[..5][4] == 'r';
    }
  }

  /** A change message: its opening, the shown numbers, its closing. */
  lemma Shown(a: string, w: int, p: real, b: string)
    ensures var t := ChangeText(a, w, p, b);
      |t| >= |a| + |b| && t[..|a|] == a && t[|t| - |b|..] == b
  {
    Framed(a, Text.IntToString(w) + " words (" + Fixed1(p), b);
  }

  /** A text framed by `a` and `b` opens with `a` and closes with `b`. */
  lemma Framed(a: string, mid: string, b: string)
    ensures a + mid + b == a + (mid + b)
    ensures (a + mid + b)[..|a|] == a && (a + mid + b)[|a| + |mid|..] == b
  {
  }

  datatype Growth = Growth(
    hasComparison: bool,
    message: GrowthMessage,
    currentWordCount: nat,
    previousWordCount: Option<nat>,
    changePercentage: Option<real>,
    wordCountChange: Option<int>,
    isMajorContribution: bool,
    /** `_format_time_difference(current.created_at - previous.created_at)`. */
    comparisonTimespan: Option<string>)

  /** The growth message for a change with a comparison, carrying the change and the exact percentage. */
  function GrowthMessageOf(change: int, pct: real, major: bool): (m: GrowthMessage)
    ensures (m.MajorAddition? || m.ContentAdded?) <==> change > 0
    ensures (m.MajorReduction? || m.ContentReduced?) <==> change < 0
    ensures m.NoSignificantChange? <==> change == 0
    ensures (m.MajorAddition? || m.MajorReduction?) <==> (major && change != 0)
    ensures change != 0 ==> m.words == change && m.percent == pct
  {
    if change > 0 then (if major then MajorAddition(change, pct) else ContentAdded(change, pct))
    else if change < 0 then (if major then MajorReduction(change, pct) else ContentReduced(change, pct))
    else NoSignificantChange
  }

  /**
   * `compute_contribution_growth` of this copy: the major flag is decided on the exact
   * percentage and shown in the message, the stored percentage is rounded to two places.
   */
  function ComputeContributionGrowth(log: SnapshotLog, submissionId: string): (r: Growth)
    ensures LatestOfSubmission(log, submissionId).None? ==>
      r == Growth(false, NoVersionHistory, 0, None, None, None, false, None)
    ensures LatestOfSubmission(log, submissionId).Some? ==>
      var cur := log[LatestOfSubmission(log, submissionId).value];
      var prev := LatestOfFile(log, cur.fileId, Some(cur.id));
      (prev.None? ==> r == Growth(false, NoPriorVersion, cur.wordCount, None, None, None, false, None))
      && (prev.Some? ==>
            var p := log[prev.value];
            var pct := IS.ChangePercentage(cur.wordCount, p.wordCount);
            r.hasComparison && r.currentWordCount == cur.wordCount
            && r.previousWordCount == Some(p.wordCount)
            && r.wordCountChange == Some(cur.wordCount - p.wordCount)
            && r.changePercentage == Some(RoundHundredth(pct))
            && (r.isMajorContribution <==> IS.IsMajorChange(pct))
            && r.message == GrowthMessageOf(cur.wordCount - p.wordCount, pct, r.isMajorContribution)
            && r.comparisonTimespan == Some(FormatTimeDifference(cur.createdAt - p.createdAt)))
  {
    match LatestOfSubmission(log, submissionId)
    case None => Growth(false, NoVersionHistory, 0, None, None, None, false, None)
    case Some(i) =>
      var cur := log[i];
      match LatestOfFile(log, cur.fileId, Some(cur.id))
      case None => Growth(false, NoPriorVersion, cur.wordCount, None, None, None, false, None)
      case Some(j) =>
        var prev := log[j];
        var change := cur.wordCount - prev.wordCount;
        var pct := IS.ChangePercentage(cur.wordCount, prev.wordCount);
        var major := IS.IsMajorChange(pct);
        Growth(true, GrowthMessageOf(change, pct, major), cur.wordCount, Some(prev.wordCount),
               Some(RoundHundredth(pct)), Some(change), major,
               Some(FormatTimeDifference(cur.createdAt - prev.createdAt)))
  }

  /**
   * The "Substantial content changes" test reads the rounded percentage: going from 30000 to
   * 60001 words is a change of 100.0033...%, which is stored as 100.0 and so is not above 100.
   */
  lemma RoundedPercentageAtHundred()
    ensures IS.ChangePercentage(60001, 30000) > 100.0
    ensures RoundHundredth(IS.ChangePercentage(60001, 30000)) == 100.0
  {
    var pct := IS.ChangePercentage(60001, 30000);
    assert pct == 30001.0 / 300.0;
    assert (100.0 * pct).Floor == 10000;
  }

  /**
   * This copy and the live service compare the same two snapshots: they agree on whether there
   * is a comparison, on the counts, the percentage and the major flag.
   */
  lemma GrowthAgreesWithService(log: SnapshotLog, submissionId: string)
    ensures
      var g := ComputeContributionGrowth(log, submissionId);
      var s := IS.ComputeContributionGrowth(log, submissionId);
      g.hasComparison == s.hasComparison
      && g.currentWordCount == s.currentWordCount
      && g.previousWordCount == s.previousWordCount
      && g.changePercentage == s.changePercentage
      && g.wordCountChange == s.wordCountChange
      && g.isMajorContribution == s.isMajorContribution
  {
  }

  /** Without a comparison there is no percentage and nothing is major. */
  lemma GrowthWithoutComparison(log: SnapshotLog, submissionId: string)
    ensures
      var g := ComputeContributionGrowth(log, submissionId);
      !g.hasComparison ==>
        g.changePercentage.None? && !g.isMajorContribution && g.message in {NoVersionHistory, NoPriorVersion}
  {
  }

  // ---------------------------------------------------------------- editing patterns

  datatype Pattern = Pattern(pattern: string, description: string, implication: string)

  datatype PatternResult = PatternResult(patternsDetected: seq<Pattern>, message: string)

  /** The pattern names, in order. */
  function Names(ps: seq<Pattern>): (r: seq<string>)
    ensures |r| == |ps|
    ensures forall i :: 0 <= i < |ps| ==> r[i] == ps[i].pattern
  {
    if ps == [] then [] else [ps[0].pattern] + Names(ps[1..])
  }

  /** The revision-count pattern, if any. */
  function RevisionPattern(revisionCount: int): (r: seq<Pattern>)
    ensures |r| <= 1
    ensures Names(r) == ["high_revision_count"] <==> revisionCount > 10
    ensures Names(r) == ["minimal_revisions"] <==> revisionCount == 0 || revisionCount == 1
    ensures r == [] <==> revisionCount < 0 || 2 <= revisionCount <= 10
  {
    if revisionCount > 10 then
      [Pattern("high_revision_count",
               "High revision count detected (" + Text.IntToString(revisionCount) + " revisions)",
               "Document underwent extensive editing")]
    else if revisionCount == 1 || revisionCount == 0 then
      [Pattern("minimal_revisions",
               "Minimal revisions detected (" + Text.IntToString(revisionCount) + " revisions)",
               "Document may have been written in one session")]
    else []
  }

  /**
   * The creation-to-modification span in seconds, when both dates are set and parse. Subtracting
   * a naive from an aware datetime raises, which the source swallows: no span then.
   */
  function EditingSpan(created: Option<string>, modified: Option<string>, parse: IS.IsoParser): (r: Option<int>)
    ensures r.Some? ==> Truthy(created) && Truthy(modified)
  {
    if Truthy(created) && Truthy(modified) then
      match (parse(Text.ReplaceChar(created.value, 'Z', "+00:00")),
             parse(Text.ReplaceChar(modified.value, 'Z', "+00:00")))
      case (Some(c), Some(m)) =>
        if c.IsNaive() == m.IsNaive() then Some(m.Utc() - c.Utc()) else None
      case _ => None
    else None
  }

  const TwoHours: int := 7200
  const SevenDays: int := 604800

  /** The span pattern, if any: a short window (a negative span included) or an extended period. */
  function SpanPattern(span: Option<int>): (r: seq<Pattern>)
    ensures |r| <= 1
    ensures Names(r) == ["short_editing_window"] <==> span.Some? && span.value <= TwoHours
    ensures Names(r) == ["extended_editing_period"] <==> span.Some? && span.value >= SevenDays
  {
    match span
    case None => []
    case Some(t) =>
      if t <= TwoHours then
        [Pattern("short_editing_window",
                 "Document created and finalized within " + FormatTimeDifference(t),
                 "Concentrated writing session or minimal editing")]
      else if t >= SevenDays then
        [Pattern("extended_editing_period", "Document edited over " + FormatTimeDifference(t),
                 "Extended development and refinement process")]
      else []
  }

  /** `detect_editing_patterns`: the revision pattern, then the span pattern, then the message. */
  method DetectEditingPatterns(metadata: Option<DocumentMetadata>, parse: IS.IsoParser)
    returns (r: PatternResult)
    ensures metadata.None? ==> r == PatternResult([], "Insufficient metadata for pattern analysis")
    ensures metadata.Some? ==>
      r.patternsDetected
        == RevisionPattern(metadata.value.revisionCount)
           + SpanPattern(EditingSpan(metadata.value.creationDate, metadata.value.lastModifiedDate, parse))
    ensures metadata.Some? ==>
      r.message == if r.patternsDetected == [] then "No notable editing patterns detected"
                   else Text.IntToString(|r.patternsDetected|) + " editing patterns identified"
    ensures |r.patternsDetected| <= 2
  {
    if metadata.None? {
      return PatternResult([], "Insufficient metadata for pattern analysis");
    }
    var md := metadata.value;
    var patterns: seq<Pattern> := [];
    patterns := patterns + RevisionPattern(md.revisionCount);
    assert patterns == RevisionPattern(md.revisionCount);
    var span := EditingSpan(md.creationDate, md.lastModifiedDate, parse);
    patterns := patterns + SpanPattern(span);
    var message := if patterns != [] then Text.IntToString(|patterns|) + " editing patterns identified"
                   else "No notable editing patterns detected";
    r := PatternResult(patterns, message);
  }

  /** The short window and the extended period never occur together. */
  lemma SpanPatternsExclusive(span: Option<int>)
    ensures !("short_editing_window" in Names(SpanPattern(span))
              && "extended_editing_period" in Names(SpanPattern(span)))
  {
  }

  // ---------------------------------------------------------------- overall assessment

  /** The assessment flags, by their names in the source. */
  datatype Flag = LastMinuteSubmission | LateSubmission | MajorChanges | IncompleteContent | ValidationWarnings

  function FlagName(f: Flag): string
  {
    match f
    case LastMinuteSubmission => "last_minute_submission"
    case LateSubmission => "late_submission"
    case MajorChanges => "major_changes"
    case IncompleteContent => "incomplete_content"
    case ValidationWarnings => "validation_warnings"
  }

  /** The risk indicators; each is raised together with the flag of the same check. */
  datatype Risk = RushedWork | TimeManagement | SubstantialChanges | IncompleteByWordCount | FailedValidation

  function RiskText(r: Risk): string
  {
    match r
    case RushedWork => "Potential rushed work due to last-minute submission"
    case TimeManagement => "Late submission may indicate time management issues"
    case SubstantialChanges => "Substantial content changes may indicate significant revisions"
    case IncompleteByWordCount => "Document appears incomplete based on word count"
    case FailedValidation => "Document failed completeness validation"
  }

  /** Flags and the risk indicators that accompany some of them. */
  datatype Assessment = Assessment(flags: seq<Flag>, riskIndicators: seq<Risk>)

  /** The flags and risk indicators the timeliness classification contributes. */
  function TimelinessPart(c: TimelinessClassification): Assessment
  {
    if c == LastMinuteRush then Assessment([LastMinuteSubmission], [RushedWork])
    else if c == Late then Assessment([LateSubmission], [TimeManagement])
    else Assessment([], [])
  }

  /** Raise a flag, with its risk indicator when there is one, if the check fires. */
  function Raise(a: Assessment, fires: bool, f: Flag, risk: Option<Risk>): Assessment
  {
    if !fires then a
    else Assessment(a.flags + [f], a.riskIndicators + (if risk.Some? then [risk.value] else []))
  }

  /**
   * The assessment of the three checks, in the order the source raises them; a major change
   * carries a risk indicator only beyond 100%, and the content checks need an analysis result.
   */
  function Assess(timeliness: IS.TimelinessResult, growth: Growth, analysis: Option<AnalysisResult>,
                  minWords: nat): Assessment
  {
    var t := TimelinessPart(timeliness.classification);
    var g := Raise(t, growth.isMajorContribution, MajorChanges,
                   if growth.changePercentage.GetOr(0.0) > 100.0 then Some(SubstantialChanges) else None);
    match analysis
    case None => g
    case Some(ar) =>
      Raise(Raise(g, WordCountOf(ar) < minWords, IncompleteContent, Some(IncompleteByWordCount)),
            !ar.isCompleteDocument, ValidationWarnings, Some(FailedValidation))
  }

  /** The timeliness flags: at most one of them, each exactly for its classification. */
  lemma AssessTimelinessFlags(timeliness: IS.TimelinessResult, growth: Growth, analysis: Option<AnalysisResult>,
                              minWords: nat)
    ensures var a := Assess(timeliness, growth, analysis, minWords);
      LastMinuteSubmission in a.flags <==> timeliness.classification == LastMinuteRush
    ensures var a := Assess(timeliness, growth, analysis, minWords);
      LateSubmission in a.flags <==> timeliness.classification == Late
  {
    AssessFlagsFacts(timeliness, growth, analysis, minWords);
  }

  /** The contribution flag, and its risk indicator only beyond a 100% change. */
  lemma AssessGrowthFlags(timeliness: IS.TimelinessResult, growth: Growth, analysis: Option<AnalysisResult>,
                          minWords: nat)
    ensures var a := Assess(timeliness, growth, analysis, minWords);
      MajorChanges in a.flags <==> growth.isMajorContribution
    ensures var a := Assess(timeliness, growth, analysis, minWords);
      SubstantialChanges in a.riskIndicators <==>
        growth.isMajorContribution && growth.changePercentage.GetOr(0.0) > 100.0
  {
    AssessFlagsFacts(timeliness, growth, analysis, minWords);
  }

  /** The two content flags, which need an analysis result. */
  lemma AssessContentFlags(timeliness: IS.TimelinessResult, growth: Growth, analysis: Option<AnalysisResult>,
                           minWords: nat)
    ensures var a := Assess(timeliness, growth, analysis, minWords);
      IncompleteContent in a.flags <==> analysis.Some? && WordCountOf(analysis.value) < minWords
    ensures var a := Assess(timeliness, growth, analysis, minWords);
      ValidationWarnings in a.flags <==> analysis.Some? && !analysis.value.isCompleteDocument
  {
    AssessFlagsFacts(timeliness, growth, analysis, minWords);
  }

  /** Every risk indicator accompanies a flag, and there are at most four flags. */
  lemma AssessCounts(timeliness: IS.TimelinessResult, growth: Growth, analysis: Option<AnalysisResult>,
                     minWords: nat)
    ensures var a := Assess(timeliness, growth, analysis, minWords);
      |a.riskIndicators| <= |a.flags| <= 4
  {
    AssessFlagsFacts(timeliness, growth, analysis, minWords);
  }

  /** Membership in the assessment, one check at a time. */
  lemma AssessFlagsFacts(timeliness: IS.TimelinessResult, growth: Growth, analysis: Option<AnalysisResult>,
                         minWords: nat)
    ensures var t := TimelinessPart(timeliness.classification);
      var g := Raise(t, growth.isMajorContribution, MajorChanges,
                     if growth.changePercentage.GetOr(0.0) > 100.0 then Some(SubstantialChanges) else None);
      var a := Assess(timeliness, growth, analysis, minWords);
      (forall x :: x in a.flags <==> x in g.flags || (analysis.Some? && ContentFires(analysis.value, minWords, x)))
      && (forall x :: x in a.riskIndicators <==> x in g.riskIndicators || (analysis.Some? && ContentRisk(analysis.value, minWords, x)))
      && (forall x :: x in g.flags <==> x in t.flags || (growth.isMajorContribution && x == MajorChanges))
      && |t.riskIndicators| == |t.flags| <= 1
      && |g.riskIndicators| <= |g.flags| <= 2
      && |a.riskIndicators| - |g.riskIndicators| <= |a.flags| - |g.flags| <= 2
  {
    var t := TimelinessPart(timeliness.classification);
    var risk := if growth.changePercentage.GetOr(0.0) > 100.0 then Some(SubstantialChanges) else None;
    var g := Raise(t, growth.isMajorContribution, MajorChanges, risk);
    RaiseFacts(t, growth.isMajorContribution, MajorChanges, risk);
    if analysis.Some? {
      var ar := analysis.value;
      var w := Raise(g, WordCountOf(ar) < minWords, IncompleteContent, Some(IncompleteByWordCount));
      RaiseFacts(g, WordCountOf(ar) < minWords, IncompleteContent, Some(IncompleteByWordCount));
      RaiseFacts(w, !ar.isCompleteDocument, ValidationWarnings, Some(FailedValidation));
    }
  }

  /** The content checks that fire for a flag. */
  predicate ContentFires(ar: AnalysisResult, minWords: nat, x: Flag)
  {
    (x == IncompleteContent && WordCountOf(ar) < minWords) || (x == ValidationWarnings && !ar.isCompleteDocument)
  }

  predicate ContentRisk(ar: AnalysisResult, minWords: nat, x: Risk)
  {
    (x == IncompleteByWordCount && WordCountOf(ar) < minWords) || (x == FailedValidation && !ar.isCompleteDocument)
  }

  /** Raising adds exactly the one flag, and at most one indicator. */
  lemma RaiseFacts(a: Assessment, fires: bool, f: Flag, risk: Option<Risk>)
    ensures forall x :: x in Raise(a, fires, f, risk).flags <==> x in a.flags || (fires && x == f)
    ensures forall x :: x in Raise(a, fires, f, risk).riskIndicators
                       <==> x in a.riskIndicators || (fires && risk == Some(x))
    ensures |Raise(a, fires, f, risk).flags| == |a.flags| + (if fires then 1 else 0)
    ensures |Raise(a, fires, f, risk).riskIndicators| <= |a.riskIndicators| + (if fires then 1 else 0)
  {
  }

  /**
   * The flags and risk indicators of `generate_heuristic_insights`, appended check by check.
   * The analysis is the submission's analysis result.
   */
  method AssessFlags(timeliness: IS.TimelinessResult, growth: Growth,
                     analysis: Option<AnalysisResult>, minWords: nat)
    returns (a: Assessment)
    ensures a == Assess(timeliness, growth, analysis, minWords)
  {
    var flags: seq<Flag> := [];
    var risks: seq<Risk> := [];
    if timeliness.classification == LastMinuteRush {
      flags := flags + [LastMinuteSubmission];
      risks := risks + [RushedWork];
    } else if timeliness.classification == Late {
      flags := flags + [LateSubmission];
      risks := risks + [TimeManagement];
    }
    ghost var t := Assessment(flags, risks);
    assert t == TimelinessPart(timeliness.classification);
    if growth.isMajorContribution {
      flags := flags + [MajorChanges];
      if growth.changePercentage.GetOr(0.0) > 100.0 {
        risks := risks + [SubstantialChanges];
      }
    }
    ghost var g := Assessment(flags, risks);
    assert g == Raise(t, growth.isMajorContribution, MajorChanges,
                      if growth.changePercentage.GetOr(0.0) > 100.0 then Some(SubstantialChanges) else None);
    if analysis.Some? {
      if WordCountOf(analysis.value) < minWords {
        flags := flags + [IncompleteContent];
        risks := risks + [IncompleteByWordCount];
      }
      ghost var w := Assessment(flags, risks);
      assert w == Raise(g, WordCountOf(analysis.value) < minWords, IncompleteContent, Some(IncompleteByWordCount));
      if !analysis.value.isCompleteDocument {
        flags := flags + [ValidationWarnings];
        risks := risks + [FailedValidation];
      }
    }
    a := Assessment(flags, risks);
  }

  /** `content_statistics.get('word_count', 0)`, with absent statistics read as `{}`. */
  function WordCountOf(analysis: AnalysisResult): nat
  {
    match analysis.contentStatistics
    case None => 0
    case Some(st) => st.wordCount
  }

  /** `_calculate_confidence_level`: the share of the three evidence factors that are present. */
  method CalculateConfidenceLevel(timeliness: IS.TimelinessResult, growth: Growth, patterns: PatternResult)
    returns (level: string)
    ensures level == "high" <==>
      timeliness.details.Some? && growth.hasComparison && patterns.patternsDetected != []
    ensures level == "medium" <==> FactorCount(timeliness, growth, patterns) == 2
    ensures level == "low" <==> FactorCount(timeliness, growth, patterns) <= 1
  {
    var factors: seq<string> := [];
    if timeliness.details.Some? {
      factors := factors + ["timeliness_data_available"];
    }
    if growth.hasComparison {
      factors := factors + ["version_comparison_available"];
    }
    if patterns.patternsDetected != [] {
      factors := factors + ["editing_patterns_detected"];
    }
    assert |factors| == FactorCount(timeliness, growth, patterns);
    var score := |factors| as real / 3.0;
    if score >= 0.8 {
      level := "high";
    } else if score >= 0.5 {
      level := "medium";
    } else {
      level := "low";
    }
  }

  /** How many of the three evidence factors are present. */
  function FactorCount(timeliness: IS.TimelinessResult, growth: Growth, patterns: PatternResult): (n: nat)
    ensures n <= 3
  {
    (if timeliness.details.Some? then 1 else 0)
    + (if growth.hasComparison then 1 else 0)
    + (if patterns.patternsDetected != [] then 1 else 0)
  }

  /** The opening sentence of the summary for a classification. */
  function BaseMessage(c: TimelinessClassification): string
  {
    match c
    case OnTime => "Submission appears to be well-planned and timely"
    case LastMinuteRush => "Submission shows signs of last-minute preparation"
    case Late => "Late submission detected"
    case NoDeadline => "Submission analyzed without deadline context"
  }

  const DevelopmentSuffix: string := " with significant content development"
  const CompletenessSuffix: string := ", but content completeness issues were detected"

  /** `_generate_summary_message`: the base sentence grown by the two optional clauses, in order. */
  method GenerateSummaryMessage(c: TimelinessClassification, flags: seq<Flag>) returns (msg: string)
    ensures Text.IsPrefix(BaseMessage(c), msg)
    ensures msg == BaseMessage(c)
                   + (if MajorChanges in flags then DevelopmentSuffix else "")
                   + (if IncompleteContent in flags || ValidationWarnings in flags
                      then CompletenessSuffix else "")
  {
    msg := BaseMessage(c);
    if MajorChanges in flags {
      msg := msg + DevelopmentSuffix;
    }
    if IncompleteContent in flags || ValidationWarnings in flags {
      msg := msg + CompletenessSuffix;
    }
  }

  /**
   * The `overall_assessment` part of `generate_heuristic_insights`: the flags and risk indicators
   * of the checks, the confidence level of the three factors and the summary of the flags.
   */
  method OverallAssessment(timeliness: IS.TimelinessResult, growth: Growth, patterns: PatternResult,
                           analysis: Option<AnalysisResult>, minWords: nat)
    returns (a: Assessment, level: string, summary: string)
    ensures a == Assess(timeliness, growth, analysis, minWords)
    ensures |a.riskIndicators| <= |a.flags|
    ensures !(LateSubmission in a.flags && LastMinuteSubmission in a.flags)
    ensures level == "high" <==>
      timeliness.details.Some? && growth.hasComparison && patterns.patternsDetected != []
    ensures level == "medium" <==> FactorCount(timeliness, growth, patterns) == 2
    ensures level == "low" <==> FactorCount(timeliness, growth, patterns) <= 1
    ensures summary == BaseMessage(timeliness.classification)
                       + (if MajorChanges in a.flags then DevelopmentSuffix else "")
                       + (if IncompleteContent in a.flags || ValidationWarnings in a.flags
                          then CompletenessSuffix else "")
  {
    a := AssessFlags(timeliness, growth, analysis, minWords);
    level := CalculateConfidenceLevel(timeliness, growth, patterns);
    summary := GenerateSummaryMessage(timeliness.classification, a.flags);
    AssessTimelinessFlags(timeliness, growth, analysis, minWords);
    AssessCounts(timeliness, growth, analysis, minWords);
  }

  datatype Insights = Insights(
    timeliness: IS.TimelinessResult,
    contributionAnalysis: Growth,
    editingPatterns: PatternResult,
    flags: seq<Flag>,
    riskIndicators: seq<Risk>,
    confidenceLevel: string,
    summary: string)

  /**
   * `generate_heuristic_insights` for a submission (its creation time, analysis result and id),
   * its deadline and the snapshot table. The analysis timestamp (wall clock) is left out.
   */
  method GenerateHeuristicInsights(createdAt: DateTime, analysis: Option<AnalysisResult>, submissionId: string,
                                   deadline: Option<IS.DeadlineView>, log: SnapshotLog,
                                   parse: IS.IsoParser, minWords: nat)
    returns (ins: Insights)
    ensures ins.timeliness == EvaluateTimeliness(SubmissionViewOf(createdAt, analysis), deadline, parse)
    ensures ins.contributionAnalysis == ComputeContributionGrowth(log, submissionId)
    ensures analysis.None? || analysis.value.documentMetadata.None? ==>
      ins.editingPatterns == PatternResult([], "Insufficient metadata for pattern analysis")
    ensures analysis.Some? && analysis.value.documentMetadata.Some? ==>
      var md := analysis.value.documentMetadata.value;
      ins.editingPatterns.patternsDetected
        == RevisionPattern(md.revisionCount) + SpanPattern(EditingSpan(md.creationDate, md.lastModifiedDate, parse))
    ensures Assessment(ins.flags, ins.riskIndicators)
         == Assess(ins.timeliness, ins.contributionAnalysis, analysis, minWords)
    ensures |ins.riskIndicators| <= |ins.flags|
    ensures !(LateSubmission in ins.flags && LastMinuteSubmission in ins.flags)
    ensures ins.confidenceLevel == "high" <==>
      ins.timeliness.details.Some? && ins.contributionAnalysis.hasComparison
      && ins.editingPatterns.patternsDetected != []
    ensures ins.confidenceLevel == "medium"
        <==> FactorCount(ins.timeliness, ins.contributionAnalysis, ins.editingPatterns) == 2
    ensures ins.confidenceLevel == "low"
        <==> FactorCount(ins.timeliness, ins.contributionAnalysis, ins.editingPatterns) <= 1
    ensures ins.summary == BaseMessage(ins.timeliness.classification)
                           + (if MajorChanges in ins.flags then DevelopmentSuffix else "")
                           + (if IncompleteContent in ins.flags || ValidationWarnings in ins.flags
                              then CompletenessSuffix else "")
  {
    var metadata := if analysis.Some? then analysis.value.documentMetadata else None;
    var timeliness := EvaluateTimeliness(SubmissionViewOf(createdAt, analysis), deadline, parse);
    var growth := ComputeContributionGrowth(log, submissionId);
    var patterns := DetectEditingPatterns(metadata, parse);
    var a, level, summary := OverallAssessment(timeliness, growth, patterns, analysis, minWords);
    ins := Insights(timeliness, growth, patterns, a.flags, a.riskIndicators, level, summary);
  }

  /** What timeliness reads from the submission: its creation time and the metadata modification date. */
  function SubmissionViewOf(createdAt: DateTime, analysis: Option<AnalysisResult>): (v: IS.SubmissionView)
    ensures v.lastModifiedDate.Some? ==>
      analysis.Some? && analysis.value.documentMetadata.Some?
      && v.lastModifiedDate == analysis.value.documentMetadata.value.lastModifiedDate
  {
    var lm := if analysis.Some? && analysis.value.documentMetadata.Some?
              then analysis.value.documentMetadata.value.lastModifiedDate else None;
    IS.SubmissionView(createdAt, lm)
  }
}
