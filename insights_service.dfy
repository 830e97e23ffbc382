// Deadline timeliness and contribution growth (the live insights service).
module InsightsService {
  import opened Wrappers
  import opened Base
  import opened PyMath
  import opened AnalysisModels
  import Text

  /** `last_minute_threshold_hours = 1`, in seconds. */
  const LastMinuteThreshold: int := 3600
  /** `major_contribution_threshold = 50` (percent). */
  const MajorContributionThreshold: real := 50.0

  /** What timeliness reads from a submission. */
  datatype SubmissionView = SubmissionView(
    createdAt: DateTime,
    /** `analysis_result.document_metadata['last_modified_date']`; None without a result or metadata. */
    lastModifiedDate: Option<string>)

  /** What timeliness reads from a deadline row. */
  datatype DeadlineView = DeadlineView(deadlineDatetime: DateTime, timezone: Option<string>)

  /** `datetime.fromisoformat`, which may reject its input. */
  type IsoParser = string -> Option<DateTime>

  datatype TimelinessDetails = TimelinessDetails(
    submissionTime: int,
    deadlineTime: int,
    timeDifferenceMinutes: int,
    isLate: bool,
    isLastMinute: bool)

  datatype TimelinessResult = TimelinessResult(
    classification: TimelinessClassification,
    message: string,
    details: Option<TimelinessDetails>)

  // ---------------------------------------------------------------- classification

  /** The classification of a signed lateness `diff = submission - deadline` in seconds. */
  function Classify(diff: int): (c: TimelinessClassification)
    ensures c != NoDeadline
    ensures c == Late <==> diff > 0
    ensures c == LastMinuteRush <==> -LastMinuteThreshold <= diff <= 0
  {
    if diff <= 0 then
      if -diff <= LastMinuteThreshold then LastMinuteRush else OnTime
    else Late
  }

  /** Position of a classification on the early-to-late scale. */
  function Lateness(c: TimelinessClassification): nat
  {
    match c
    case OnTime => 0
    case LastMinuteRush => 1
    case Late => 2
    case NoDeadline => 0
  }

  /** Submitting later never gives an earlier classification. */
  lemma ClassifyMonotone(d1: int, d2: int)
    requires d1 <= d2
    ensures Lateness(Classify(d1)) <= Lateness(Classify(d2))
  {
  }

  // ---------------------------------------------------------------- the two instants

  /**
   * The effective submission instant in UTC seconds: the metadata last-modified date when it is
   * set (with 'Z' read as +00:00, and a naive value read as UTC), else `created_at`.
   */
  function SubmissionInstant(sub: SubmissionView, parse: IsoParser): (r: Result<int>)
    ensures !Truthy(sub.lastModifiedDate) ==> r == Ok(sub.createdAt.Utc())
    ensures Truthy(sub.lastModifiedDate) ==>
      var iso := Text.ReplaceChar(sub.lastModifiedDate.value, 'Z', "+00:00");
      (r.Ok? <==> parse(iso).Some?) && (r.Ok? ==> r.value == parse(iso).value.Utc())
  {
    if Truthy(sub.lastModifiedDate) then
      var iso := Text.ReplaceChar(sub.lastModifiedDate.value, 'Z', "+00:00");
      match parse(iso)
      case None => Err("Invalid isoformat string: '" + iso + "'")
      case Some(t) => Ok(t.Utc())
    else Ok(sub.createdAt.Utc())
  }

  /** Whether a deadline's own zone is used to read its naive datetime. */
  predicate UsesOwnZone(d: DeadlineView)
  {
    d.deadlineDatetime.IsNaive() && Truthy(d.timezone) && d.timezone.value != "UTC"
  }

  /**
   * The deadline instant in UTC seconds. A naive deadline is read in its own zone when that is
   * set, not 'UTC' and known to the zone table; otherwise (and for an unknown zone) as UTC.
   */
  function DeadlineInstant(d: DeadlineView, zones: ZoneTable): (r: int)
    ensures !UsesOwnZone(d) ==> r == d.deadlineDatetime.Utc()
    ensures UsesOwnZone(d) ==>
      r == d.deadlineDatetime.wall - zones(d.timezone.value, d.deadlineDatetime.wall).GetOr(0)
  {
    var t := d.deadlineDatetime;
    if UsesOwnZone(d) then
      match zones(d.timezone.value, t.wall)
      case Some(off) => t.wall - off
      case None => t.wall
    else t.Utc()
  }

  // ---------------------------------------------------------------- evaluation

  /** The human-readable message for a classified difference. */
  function TimelinessMessage(c: TimelinessClassification, diff: int): string
  {
    match c
    case LastMinuteRush => "Last-minute submission (submitted " + FormatTimeDifference(-diff) + " before deadline)"
    case OnTime => "On-time submission (submitted " + FormatTimeDifference(-diff) + " before deadline)"
    case Late => "Late submission (submitted " + FormatTimeDifference(diff) + " after deadline)"
    case NoDeadline => "No deadline set for this submission"
  }

  /** `evaluate_submission_timeliness`: classification, message and details, never an exception. */
  function EvaluateSubmissionTimeliness(sub: SubmissionView, deadline: Option<DeadlineView>,
                                        parse: IsoParser, zones: ZoneTable): (r: TimelinessResult)
    ensures deadline.None? ==> r == TimelinessResult(NoDeadline, "No deadline set for this submission", None)
    ensures r.details.None? <==> deadline.None? || SubmissionInstant(sub, parse).Err?
    ensures r.details.None? ==> r.classification == NoDeadline
    ensures r.details.Some? ==>
      var d := r.details.value;
      var diff := d.submissionTime - d.deadlineTime;
      d.submissionTime == SubmissionInstant(sub, parse).value
      && d.deadlineTime == DeadlineInstant(deadline.value, zones)
      && r.classification == Classify(diff)
      && (d.isLate <==> r.classification == Late)
      && (d.isLastMinute <==> r.classification == LastMinuteRush)
      && d.timeDifferenceMinutes == TruncDiv(diff, 60)
      && r.message == TimelinessMessage(r.classification, diff)
  {
    match deadline
    case None => TimelinessResult(NoDeadline, "No deadline set for this submission", None)
    case Some(dl) =>
      match SubmissionInstant(sub, parse)
      case Err(e) => TimelinessResult(NoDeadline, "Error evaluating timeliness: " + e, None)
      case Ok(subTime) =>
        var deadlineTime := DeadlineInstant(dl, zones);
        var diff := subTime - deadlineTime;
        var c := Classify(diff);
        TimelinessResult(c, TimelinessMessage(c, diff),
          Some(TimelinessDetails(subTime, deadlineTime, TruncDiv(diff, 60),
                                 diff > 0, diff <= 0 && Abs(diff) <= LastMinuteThreshold)))
  }

  // ---------------------------------------------------------------- contribution growth

  /** The percentage change from `prev` to `cur` words, with the source's zero-baseline rule. */
  function ChangePercentage(cur: nat, prev: nat): (p: real)
    ensures prev == 0 ==> p == (if cur > 0 then 100.0 else 0.0)
  {
    if prev > 0 then (cur - prev) as real / prev as real * 100.0
    else if cur > 0 then 100.0 else 0.0
  }

  predicate IsMajorChange(pct: real)
  {
    RealAbs(pct) >= MajorContributionThreshold
  }

  /**
   * Against a non-empty baseline, a change is major exactly when the word count moved by at
   * least half the baseline, in either direction.
   */
  lemma MajorChangeIffHalfBaseline(cur: nat, prev: nat)
    requires prev > 0
    ensures IsMajorChange(ChangePercentage(cur, prev)) <==> 2 * Abs(cur - prev) >= prev
  {
    var p := prev as real;
    var x := (cur - prev) as real;
    assert ChangePercentage(cur, prev) == x / p * 100.0;
    QuotientAtLeastHalf(RealAbs(x), p);
    if x >= 0.0 {
      assert RealAbs(x / p * 100.0) == RealAbs(x) / p * 100.0;
    } else {
      assert x / p * 100.0 == -(RealAbs(x) / p * 100.0);
    }
    assert (RealAbs(x) / p * 100.0 >= 50.0) <==> (2.0 * RealAbs(x) >= p);
    assert RealAbs(x) == Abs(cur - prev) as real;
  }

  /** Scaling by a positive baseline: `y / p` is at least one half exactly when `2y >= p`. */
  lemma QuotientAtLeastHalf(y: real, p: real)
    requires p > 0.0
    ensures (y / p * 100.0 >= 50.0) <==> (2.0 * y >= p)
  {
    var q := y / p;
    assert q * p == y;
    if q >= 0.5 {
      assert q * p >= 0.5 * p;
    } else {
      assert q * p < 0.5 * p;
    }
  }

  datatype GrowthResult = GrowthResult(
    hasComparison: bool,
    message: string,
    currentWordCount: nat,
    previousWordCount: Option<nat>,
    wordCountChange: Option<int>,
    changePercentage: Option<real>,
    isMajorContribution: bool,
    contributionType: Option<string>)

  const NoHistoryMessage := "No version history available"
  const NoPriorMessage := "No prior version available for comparison"

  /**
   * `compute_contribution_growth` over the snapshot table. The major flag and the contribution
   * type are decided on the exact percentage; the stored percentage is rounded to two places
   * and the message shows it with one decimal.
   */
  function ComputeContributionGrowth(log: SnapshotLog, submissionId: string): (r: GrowthResult)
    ensures LatestOfSubmission(log, submissionId).None? ==>
      r == GrowthResult(false, NoHistoryMessage, 0, None, None, None, false, None)
    ensures LatestOfSubmission(log, submissionId).Some? ==>
      var cur := log[LatestOfSubmission(log, submissionId).value];
      var prev := LatestOfFile(log, cur.fileId, Some(cur.id));
      r.currentWordCount == cur.wordCount
      && (r.hasComparison <==> prev.Some?)
      && (prev.None? ==> r == GrowthResult(false, NoPriorMessage, cur.wordCount, None, None, None, false, None))
      && (prev.Some? ==>
            var p := log[prev.value];
            var pct := ChangePercentage(cur.wordCount, p.wordCount);
            r.previousWordCount == Some(p.wordCount)
            && r.wordCountChange == Some(cur.wordCount - p.wordCount)
            && r.changePercentage == Some(RoundHundredth(pct))
            && r.message == "Document changed by " + Fixed1(pct) + "%"
            && (r.isMajorContribution <==> IsMajorChange(pct))
            && r.contributionType == Some(ClassifyContributionType(pct)))
  {
    match LatestOfSubmission(log, submissionId)
    case None => GrowthResult(false, NoHistoryMessage, 0, None, None, None, false, None)
    case Some(i) =>
      var cur := log[i];
      match LatestOfFile(log, cur.fileId, Some(cur.id))
      case None => GrowthResult(false, NoPriorMessage, cur.wordCount, None, None, None, false, None)
      case Some(j) =>
        var prev := log[j];
        var pct := ChangePercentage(cur.wordCount, prev.wordCount);
        GrowthResult(true, "Document changed by " + Fixed1(pct) + "%", cur.wordCount, Some(prev.wordCount),
                     Some(cur.wordCount - prev.wordCount), Some(RoundHundredth(pct)), IsMajorChange(pct),
                     Some(ClassifyContributionType(pct)))
  }

  /**
   * The stored percentage is within half a hundredth of the exact change, and a change that is
   * a whole number of percent is stored exactly.
   */
  lemma StoredPercentageClose(log: SnapshotLog, submissionId: string)
    ensures
      var r := ComputeContributionGrowth(log, submissionId);
      r.hasComparison ==>
        var cur := log[LatestOfSubmission(log, submissionId).value];
        var p := log[LatestOfFile(log, cur.fileId, Some(cur.id)).value];
        var pct := ChangePercentage(cur.wordCount, p.wordCount);
        r.changePercentage.Some?
        && -0.005 <= r.changePercentage.value - pct <= 0.005
        && (pct == pct.Floor as real ==> r.changePercentage.value == pct)
  {
    var r := ComputeContributionGrowth(log, submissionId);
    if r.hasComparison {
      var cur := log[LatestOfSubmission(log, submissionId).value];
      var p := log[LatestOfFile(log, cur.fileId, Some(cur.id)).value];
      var pct := ChangePercentage(cur.wordCount, p.wordCount);
      if pct == pct.Floor as real {
        RoundHundredthWhole(pct.Floor);
      }
    }
  }

  // ---------------------------------------------------------------- labels

  /** `_classify_contribution_type`: bands on the magnitude of the change. */
  function ClassifyContributionType(pct: real): string
  {
    var a := RealAbs(pct);
    if a >= 100.0 then "Complete Rewrite"
    else if a >= 50.0 then "Major Revision"
    else if a >= 20.0 then "Significant Changes"
    else if a >= 10.0 then "Moderate Changes"
    else if a >= 5.0 then "Minor Changes"
    else "Minimal Changes"
  }

  /** Rank of a contribution label, smallest change first. */
  function ContributionRank(name: string): nat
  {
    if name == "Complete Rewrite" then 5
    else if name == "Major Revision" then 4
    else if name == "Significant Changes" then 3
    else if name == "Moderate Changes" then 2
    else if name == "Minor Changes" then 1
    else 0
  }

  /** A larger change never gets a smaller label, and the sign of the change does not matter. */
  lemma ContributionTypeMonotone(p1: real, p2: real)
    requires RealAbs(p1) <= RealAbs(p2)
    ensures ContributionRank(ClassifyContributionType(p1)) <= ContributionRank(ClassifyContributionType(p2))
    ensures ClassifyContributionType(-p1) == ClassifyContributionType(p1)
  {
  }

  /** The growth's major flag and its label agree: major exactly for the two top bands. */
  lemma MajorIffTopBands(pct: real)
    ensures IsMajorChange(pct) <==> ContributionRank(ClassifyContributionType(pct)) >= 4
  {
  }

  // ---------------------------------------------------------------- time formatting

  /** A non-negative span split into the unit pair `_format_time_difference` reports. */
  datatype Span = Seconds(s: int) | Minutes(m: nat) | HoursMinutes(h: nat, m: nat) | DaysHours(d: nat, h: nat)

  /** The band and the (floored) unit counts of a span of `total` whole seconds. */
  function SpanOf(total: int): (sp: Span)
    ensures total < 60 <==> sp.Seconds?
    ensures sp.Seconds? ==> sp.s == total
    ensures sp.Minutes? ==> 1 <= sp.m < 60 && sp.m * 60 <= total < (sp.m + 1) * 60
    ensures sp.HoursMinutes? ==> 1 <= sp.h < 24 && sp.m < 60
                                 && sp.h * 3600 + sp.m * 60 <= total < sp.h * 3600 + (sp.m + 1) * 60
    ensures sp.DaysHours? ==> 1 <= sp.d && sp.h < 24
                              && sp.d * 86400 + sp.h * 3600 <= total < sp.d * 86400 + (sp.h + 1) * 3600
  {
    if total < 60 then Seconds(total)
    else if total < 3600 then
      DivMod(total, 60);
      Minutes(total / 60)
    else if total < 86400 then
      DivMod(total, 3600);
      DivMod(total % 3600, 60);
      HoursMinutes(total / 3600, (total % 3600) / 60)
    else
      DivMod(total, 86400);
      DivMod(total % 86400, 3600);
      DaysHours(total / 86400, (total % 86400) / 3600)
  }

  /** `n unit` with the plural 's' unless n is 1. */
  function Counted(n: int, unit: string): string
  {
    Text.IntToString(n) + " " + unit + (if n == 1 then "" else "s")
  }

  /** `_format_time_difference` of this service: singular units for 1, "and" between units. */
  function FormatTimeDifference(total: int): string
  {
    match SpanOf(total)
    case Seconds(s) => Text.IntToString(s) + " seconds"
    case Minutes(m) => Counted(m, "minute")
    case HoursMinutes(h, m) => if m > 0 then Counted(h, "hour") + " and " + Counted(m, "minute") else Counted(h, "hour")
    case DaysHours(d, h) => if h > 0 then Counted(d, "day") + " and " + Counted(h, "hour") else Counted(d, "day")
  }

  lemma FormatOneHourOneMinute()
    ensures FormatTimeDifference(3660) == "1 hour and 1 minute"
  {
    assert SpanOf(3660) == HoursMinutes(1, 1);
    assert Text.IntToString(1) == "1";
  }

  lemma FormatTwoDays()
    ensures FormatTimeDifference(172800) == "2 days"
  {
    assert SpanOf(172800) == DaysHours(2, 0);
    assert Text.IntToString(2) == "2";
  }
}
