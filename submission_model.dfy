// The `Submission` and `SubmissionToken` model rules: lateness against the linked deadline,
// the last-modified time, the analysis summary, timestamp suffixing and token validity.
// `created_at` is stored naive and means UTC.
module SubmissionModel {
  import opened Wrappers
  import opened Base
  import opened AnalysisModels
  import Text

  /** The deadline row `is_late` looks up. */
  datatype DeadlineRow = DeadlineRow(deadlineDatetime: DateTime, timezone: Option<string>)

  /**
   * The deadline in UTC seconds when it is read in its own zone: the zone is set and not
   * 'UTC', the stored datetime is naive (`localize` rejects an aware one) and the zone is known.
   */
  function LocalisedDeadline(d: DeadlineRow, zones: ZoneTable): Option<int>
  {
    var t := d.deadlineDatetime;
    if Truthy(d.timezone) && d.timezone.value != "UTC" && t.IsNaive() then
      match zones(d.timezone.value, t.wall)
      case Some(off) => Some(t.wall - off)
      case None => None
    else None
  }

  /**
   * `is_late`: strictly after the localised deadline when there is one, else strictly after
   * the stored wall-clock deadline. Comparing the naive `created_at` with an aware deadline
   * raises, and every exception reads as not late.
   */
  function IsLate(deadlineId: Option<string>, deadline: Option<DeadlineRow>, createdAt: int, zones: ZoneTable)
    : (late: bool)
    ensures !Truthy(deadlineId) || deadline.None? ==> !late
    ensures Truthy(deadlineId) && deadline.Some? && LocalisedDeadline(deadline.value, zones).Some? ==>
      (late <==> createdAt > LocalisedDeadline(deadline.value, zones).value)
    ensures Truthy(deadlineId) && deadline.Some? && LocalisedDeadline(deadline.value, zones).None? ==>
      (late <==> deadline.value.deadlineDatetime.IsNaive() && createdAt > deadline.value.deadlineDatetime.wall)
  {
    if !Truthy(deadlineId) then false
    else match deadline
      case None => false
      case Some(d) =>
        match LocalisedDeadline(d, zones)
        case Some(utc) => createdAt > utc
        case None => d.deadlineDatetime.IsNaive() && createdAt > d.deadlineDatetime.wall
  }

  /** Submitting exactly at the deadline instant is never late, in either branch. */
  lemma AtDeadlineNotLate(deadlineId: Option<string>, d: DeadlineRow, createdAt: int, zones: ZoneTable)
    requires LocalisedDeadline(d, zones).Some? ==> createdAt == LocalisedDeadline(d, zones).value
    requires LocalisedDeadline(d, zones).None? ==> createdAt == d.deadlineDatetime.wall
    ensures !IsLate(deadlineId, Some(d), createdAt, zones)
  {
  }

  /** A later submission is late whenever an earlier one is. */
  lemma LateIsMonotone(deadlineId: Option<string>, deadline: Option<DeadlineRow>, t1: int, t2: int, zones: ZoneTable)
    requires t1 <= t2 && IsLate(deadlineId, deadline, t1, zones)
    ensures IsLate(deadlineId, deadline, t2, zones)
  {
  }

  /** A 'UTC' or unset zone never consults the zone table. */
  lemma UtcZoneIgnoresTable(deadlineId: Option<string>, d: DeadlineRow, createdAt: int, z1: ZoneTable, z2: ZoneTable)
    requires !Truthy(d.timezone) || d.timezone.value == "UTC"
    ensures IsLate(deadlineId, Some(d), createdAt, z1) == IsLate(deadlineId, Some(d), createdAt, z2)
  {
  }

  /** `last_modified`: `updated_at` when set, else `created_at`. */
  function LastModified(updatedAt: Option<DateTime>, createdAt: DateTime): (t: DateTime)
    ensures updatedAt.Some? ==> t == updatedAt.value
    ensures updatedAt.None? ==> t == createdAt
  {
    updatedAt.GetOr(createdAt)
  }

  datatype AnalysisSummary = AnalysisSummary(wordCount: Option<nat>, readabilityScore: Option<real>, isComplete: bool)

  /** `analysis_summary`: None without a result; the word count only when statistics exist. */
  function AnalysisSummaryOf(result: Option<AnalysisResult>): (r: Option<AnalysisSummary>)
    ensures r.None? <==> result.None?
    ensures r.Some? ==>
      (r.value.wordCount.Some? <==> result.value.contentStatistics.Some?)
      && (r.value.wordCount.Some? ==> r.value.wordCount.value == result.value.contentStatistics.value.wordCount)
      && r.value.readabilityScore == result.value.fleschKincaidScore
      && r.value.isComplete == result.value.isCompleteDocument
  {
    match result
    case None => None
    case Some(a) =>
      var wc := match a.contentStatistics
        case None => None
        case Some(st) => Some(st.wordCount);
      Some(AnalysisSummary(wc, a.fleschKincaidScore, a.isCompleteDocument))
  }

  /** Whether an ISO string already says it is UTC or carries an offset. */
  predicate HasZone(iso: string)
  {
    Text.EndsWith(iso, "Z") || '+' in iso
  }

  /** The `to_dict` suffixing of one ISO timestamp: 'Z' unless it already has a zone. */
  function WithZ(iso: string): (r: string)
    ensures HasZone(r)
    ensures HasZone(iso) ==> r == iso
    ensures Text.IsPrefix(iso, r) && |r| <= |iso| + 1
  {
    if HasZone(iso) then iso
    else
      var r := iso + "Z";
      assert r[|r| - 1..] == "Z";
      assert r[..|iso|] == iso;
      r
  }

  lemma WithZIdempotent(iso: string)
    ensures WithZ(WithZ(iso)) == WithZ(iso)
  {
  }

  /** An optional timestamp: absent stays null; an empty one is falsy and left alone. */
  function OptWithZ(iso: Option<string>): (r: Option<string>)
    ensures r.None? <==> iso.None?
    ensures iso.Some? && iso.value != [] ==> r == Some(WithZ(iso.value))
    ensures iso.Some? && iso.value == [] ==> r == iso
  {
    match iso
    case None => None
    case Some(s) => if s == [] then iso else Some(WithZ(s))
  }

  datatype Timestamps = Timestamps(
    createdAt: string,
    lastModified: string,
    processingStartedAt: Option<string>,
    processingCompletedAt: Option<string>)

  /** The timestamp keys of `to_dict`, from the `isoformat()` of each stored datetime. */
  function TimestampsOf(createdIso: string, updatedIso: Option<string>, startedIso: Option<string>,
                        completedIso: Option<string>): (r: Timestamps)
    ensures HasZone(r.createdAt) && Text.IsPrefix(createdIso, r.createdAt)
    ensures r.lastModified == OptWithZ(Some(updatedIso.GetOr(createdIso))).value
    ensures r.processingStartedAt == OptWithZ(startedIso)
    ensures r.processingCompletedAt == OptWithZ(completedIso)
  {
    Timestamps(WithZ(createdIso), OptWithZ(Some(updatedIso.GetOr(createdIso))).value,
      OptWithZ(startedIso), OptWithZ(completedIso))
  }

  /** A `SubmissionToken` row; `maxUsage` None or 0 means unlimited. */
  datatype SubmissionToken = SubmissionToken(
    token: string,
    isActive: bool,
    expiresAt: int,
    usageCount: int,
    maxUsage: Option<int>)

  /** `max_usage` is truthy: set and non-zero. */
  predicate Limited(t: SubmissionToken)
  {
    t.maxUsage.Some? && t.maxUsage.value != 0
  }

  /** `is_valid`: active, not expired before `now`, and under a set usage limit. */
  function IsValid(t: SubmissionToken, now: int): (ok: bool)
    ensures !t.isActive ==> !ok
    ensures t.expiresAt < now ==> !ok
    ensures Limited(t) && t.usageCount >= t.maxUsage.value ==> !ok
    ensures t.isActive && now <= t.expiresAt && !Limited(t) ==> ok
    ensures t.isActive && now <= t.expiresAt && Limited(t) ==> (ok <==> t.usageCount < t.maxUsage.value)
  {
    if !t.isActive then false
    else if t.expiresAt < now then false
    else if Limited(t) && t.usageCount >= t.maxUsage.value then false
    else true
  }

  /** Time and use only ever invalidate a token. */
  lemma ValidityOnlyDecays(t: SubmissionToken, now: int, later: int, uses: int)
    requires now <= later && t.usageCount <= uses && IsValid(t.(usageCount := uses), later)
    ensures IsValid(t, now)
  {
  }
}
