// The submission serialisers: the standard view with its optional keys, the minimal list view
// and the detail view that nests the analysis result and the deadline.
module SubmissionDto {
  import Wrappers
  import opened Json
  import opened Base
  import SubmissionModel
  import AnalysisDto
  import DeadlineDto

  /**
   * The submission columns and properties the serialisers read. Columns copied as they are
   * stored are values; the datetimes are their `isoformat()` text; `analysisSummary` is the
   * model's `analysis_summary` property; `analysis` and `deadline` are the linked rows.
   */
  datatype SubmissionRecord = SubmissionRecord(
    id: Value,
    jobId: Value,
    fileName: Value,
    originalFilename: Value,
    filePath: Value,
    fileSize: Value,
    fileHash: Value,
    mimeType: Value,
    submissionType: Value,
    googleDriveLink: Value,
    studentId: Value,
    studentName: Value,
    errorMessage: Value,
    professorId: Value,
    deadlineId: Value,
    status: SubmissionStatus,
    isLate: bool,
    createdIso: string,
    updatedIso: Wrappers.Option<string>,
    startedIso: Wrappers.Option<string>,
    completedIso: Wrappers.Option<string>,
    analysisSummary: Value,
    analysis: Wrappers.Option<AnalysisDto.AnalysisRow>,
    deadline: Wrappers.Option<DeadlineDto.DeadlineRecord>)

  /** The timestamp texts every view shares, suffixed as the model's `to_dict` suffixes them. */
  function Times(s: SubmissionRecord): SubmissionModel.Timestamps
  {
    SubmissionModel.TimestampsOf(s.createdIso, s.updatedIso, s.startedIso, s.completedIso)
  }

  function OptText(t: Wrappers.Option<string>): Value
  {
    match t
    case Some(x) => Str(x)
    case None => Null
  }

  /** A key written only when its value is truthy. */
  function IfTruthy(k: string, v: Value): (r: seq<(string, Value)>)
    ensures Keys(r) == if Truthy(v) then [k] else []
    ensures Truthy(v) ==> r == [(k, v)]
  {
    if Truthy(v) then [(k, v)] else []
  }

  // ---------------------------------------------------------------- the standard view

  const StandardKeys: seq<string> := [
    "id", "job_id", "file_name", "original_filename", "file_size", "mime_type", "submission_type",
    "student_id", "student_name", "status", "is_late", "created_at", "last_modified"]

  /** The entries every standard view has, in order. */
  function StandardEntries(s: SubmissionRecord): (r: seq<(string, Value)>)
    ensures Keys(r) == StandardKeys
  {
    var t := Times(s);
    var vs := [s.id, s.jobId, s.fileName, s.originalFilename, s.fileSize, s.mimeType, s.submissionType,
               s.studentId, s.studentName, Str(StatusValue(s.status)), Bool(s.isLate), Str(t.createdAt),
               Str(t.lastModified)];
    seq(|StandardKeys|, i requires 0 <= i < |StandardKeys| => (StandardKeys[i], vs[i]))
  }

  /** The keys added after the fixed ones: three only when truthy, the summary only on request. */
  function StandardExtras(s: SubmissionRecord, includeAnalysis: bool): (r: seq<(string, Value)>)
    ensures Keys(r) ==
      (if Truthy(s.googleDriveLink) then ["google_drive_link"] else [])
      + (if Truthy(s.deadlineId) then ["deadline_id"] else [])
      + (if Truthy(s.errorMessage) then ["error_message"] else [])
      + (if includeAnalysis then ["analysis_summary"] else [])
  {
    var a := IfTruthy("google_drive_link", s.googleDriveLink);
    var b := IfTruthy("deadline_id", s.deadlineId);
    var c := IfTruthy("error_message", s.errorMessage);
    var d := if includeAnalysis then [("analysis_summary", s.analysisSummary)] else [];
    KeysAppend(a, b);
    KeysAppend(a + b, c);
    KeysAppend(a + b + c, d);
    a + b + c + d
  }

  /** `SubmissionDTO.serialize` of a submission. */
  function Standard(s: SubmissionRecord, includeAnalysis: bool): (r: Value)
    ensures r.Obj? && Keys(r.fields) == StandardKeys + Keys(StandardExtras(s, includeAnalysis))
    ensures |r.fields| >= |StandardKeys| && r.fields[..|StandardKeys|] == StandardEntries(s)
    ensures r.fields[|StandardKeys|..] == StandardExtras(s, includeAnalysis)
  {
    var base := StandardEntries(s);
    var extra := StandardExtras(s, includeAnalysis);
    KeysAppend(base, extra);
    Obj(base + extra)
  }

  /** `SubmissionDTO.serialize`: None gives None. */
  function Serialize(s: Wrappers.Option<SubmissionRecord>, includeAnalysis: bool): (r: Wrappers.Option<Value>)
    ensures r.None? <==> s.None?
    ensures r.Some? ==> r.value == Standard(s.value, includeAnalysis)
  {
    MapOption(x => Standard(x, includeAnalysis), s)
  }

  /** None of the optional keys is a fixed key of the standard view. */
  lemma OptionalKeysNotFixed()
    ensures "google_drive_link" !in StandardKeys && "deadline_id" !in StandardKeys
    ensures "error_message" !in StandardKeys && "analysis_summary" !in StandardKeys
  {
  }

  /** The optional keys of the standard view appear exactly when their values are truthy or asked for. */
  lemma StandardOptionalKeys(s: SubmissionRecord, includeAnalysis: bool)
    ensures "google_drive_link" in Keys(Standard(s, includeAnalysis).fields) <==> Truthy(s.googleDriveLink)
    ensures "deadline_id" in Keys(Standard(s, includeAnalysis).fields) <==> Truthy(s.deadlineId)
    ensures "error_message" in Keys(Standard(s, includeAnalysis).fields) <==> Truthy(s.errorMessage)
    ensures "analysis_summary" in Keys(Standard(s, includeAnalysis).fields) <==> includeAnalysis
  {
    OptionalKeysNotFixed();
    var ks := Keys(Standard(s, includeAnalysis).fields);
    assert ks == StandardKeys + Keys(StandardExtras(s, includeAnalysis));
  }

  /**
   * Both timestamps carry a zone, and without an update time the last-modified one is the
   * creation time (an `isoformat()` text is never empty).
   */
  lemma StandardTimestamps(s: SubmissionRecord)
    requires s.createdIso != [] && (s.updatedIso.Some? ==> s.updatedIso.value != [])
    ensures SubmissionModel.HasZone(Times(s).createdAt) && SubmissionModel.HasZone(Times(s).lastModified)
    ensures s.updatedIso.None? ==> Times(s).lastModified == Times(s).createdAt
  {
  }

  /** `SubmissionDTO.serialize_list`: every submission in order, without the summary. */
  function SerializeList(ss: seq<SubmissionRecord>): (r: seq<Value>)
    ensures |r| == |ss| && forall i :: 0 <= i < |ss| ==> r[i] == Standard(ss[i], false)
  {
    MapList(s => Standard(s, false), ss)
  }

  // ---------------------------------------------------------------- the list view

  const ListKeys: seq<string> := [
    "id", "job_id", "file_name", "original_filename", "student_id", "student_name", "status", "is_late",
    "created_at", "file_size", "submission_type"]

  /**
   * The list view's word count: `content_statistics.get('word_count')` when there is an
   * analysis with truthy statistics, else None (Null).
   */
  function WordCount(a: Wrappers.Option<AnalysisDto.AnalysisRow>): (w: Value)
    ensures a.None? || !Truthy(a.value.contentStatistics) ==> w == Null
    ensures a.Some? && a.value.contentStatistics.Obj? ==> w == Get(a.value.contentStatistics, "word_count")
  {
    match a
    case None => Null
    case Some(row) =>
      if Truthy(row.contentStatistics) && row.contentStatistics.Obj? then Get(row.contentStatistics, "word_count")
      else Null
  }

  /** `SubmissionListDTO.serialize` of a submission. */
  function ListRecord(s: SubmissionRecord): (r: Value)
    ensures r.Obj? && Keys(r.fields) == ListKeys + (if WordCount(s.analysis) != Null then ["analysis_summary"] else [])
    ensures WordCount(s.analysis) != Null ==>
      r.fields[|ListKeys|] == ("analysis_summary", Obj([("word_count", WordCount(s.analysis))]))
  {
    var vs := [s.id, s.jobId, s.fileName, s.originalFilename, s.studentId, s.studentName,
               Str(StatusValue(s.status)), Bool(s.isLate), Str(Times(s).createdAt), s.fileSize, s.submissionType];
    var base := seq(|ListKeys|, i requires 0 <= i < |ListKeys| => (ListKeys[i], vs[i]));
    var w := WordCount(s.analysis);
    if w != Null then
      var extra := [("analysis_summary", Obj([("word_count", w)]))];
      KeysAppend(base, extra);
      Obj(base + extra)
    else Obj(base)
  }

  /** `SubmissionListDTO.serialize`: None gives None. */
  function SerializeListView(s: Wrappers.Option<SubmissionRecord>): (r: Wrappers.Option<Value>)
    ensures r.None? <==> s.None?
    ensures r.Some? ==> r.value == ListRecord(s.value)
  {
    MapOption(ListRecord, s)
  }

  /** `SubmissionListDTO.serialize_list`. */
  function SerializeListViews(ss: seq<SubmissionRecord>): (r: seq<Value>)
    ensures |r| == |ss| && forall i :: 0 <= i < |ss| ==> r[i] == ListRecord(ss[i])
  {
    MapList(ListRecord, ss)
  }

  /** A submission without an analysis lists without a summary; one whose statistics count words lists it. */
  lemma ListSummaryOnlyWithWordCount(s: SubmissionRecord)
    ensures s.analysis.None? ==> "analysis_summary" !in Keys(ListRecord(s).fields)
    ensures s.analysis.Some? && Has(s.analysis.value.contentStatistics, "word_count")
            && Get(s.analysis.value.contentStatistics, "word_count").Int? ==>
      "analysis_summary" in Keys(ListRecord(s).fields)
  {
    assert "analysis_summary" !in ListKeys;
  }

  // ---------------------------------------------------------------- the detail view

  const DetailKeys: seq<string> := [
    "id", "job_id", "file_name", "original_filename", "file_path", "file_size", "file_hash", "mime_type",
    "submission_type", "google_drive_link", "student_id", "student_name", "status", "is_late", "created_at",
    "last_modified", "processing_started_at", "processing_completed_at", "error_message", "professor_id",
    "deadline_id", "analysis_summary"]

  /** The entries every detail view has, in order; the summary is always among them. */
  function DetailEntries(s: SubmissionRecord): (r: seq<(string, Value)>)
    ensures Keys(r) == DetailKeys
  {
    var t := Times(s);
    var vs := [s.id, s.jobId, s.fileName, s.originalFilename, s.filePath, s.fileSize, s.fileHash, s.mimeType,
               s.submissionType, s.googleDriveLink, s.studentId, s.studentName, Str(StatusValue(s.status)),
               Bool(s.isLate), Str(t.createdAt), Str(t.lastModified), OptText(t.processingStartedAt),
               OptText(t.processingCompletedAt), s.errorMessage, s.professorId, s.deadlineId, s.analysisSummary];
    seq(|DetailKeys|, i requires 0 <= i < |DetailKeys| => (DetailKeys[i], vs[i]))
  }

  /** The nested rows: the analysis result (without its text) and the deadline, each when linked. */
  function DetailExtras(s: SubmissionRecord): (r: seq<(string, Value)>)
    ensures Keys(r) ==
      (if s.analysis.Some? then ["analysis_result"] else []) + (if s.deadline.Some? then ["deadline"] else [])
    ensures s.analysis.Some? ==> r[0] == ("analysis_result", AnalysisDto.SerializeResult(s.analysis, false).value)
    ensures s.deadline.Some? ==> r[|r| - 1] == ("deadline", DeadlineDto.Record(s.deadline.value, false))
  {
    var a := if s.analysis.Some? then [("analysis_result", AnalysisDto.SerializeResult(s.analysis, false).value)] else [];
    var d := if s.deadline.Some? then [("deadline", DeadlineDto.Record(s.deadline.value, false))] else [];
    KeysAppend(a, d);
    a + d
  }

  /** `SubmissionDetailDTO.serialize` of a submission. */
  function Detail(s: SubmissionRecord): (r: Value)
    ensures r.Obj? && Keys(r.fields) == DetailKeys + Keys(DetailExtras(s))
    ensures |r.fields| >= |DetailKeys| && r.fields[..|DetailKeys|] == DetailEntries(s)
    ensures r.fields[|DetailKeys|..] == DetailExtras(s)
  {
    var base := DetailEntries(s);
    var extra := DetailExtras(s);
    KeysAppend(base, extra);
    Obj(base + extra)
  }

  /** `SubmissionDetailDTO.serialize`: None gives None. */
  function SerializeDetail(s: Wrappers.Option<SubmissionRecord>): (r: Wrappers.Option<Value>)
    ensures r.None? <==> s.None?
    ensures r.Some? ==> r.value == Detail(s.value)
  {
    MapOption(Detail, s)
  }

  /** Every fixed or optional key of the standard view is a fixed key of the detail view. */
  lemma StandardKeysInDetail(k: string)
    requires k in StandardKeys || k in ["google_drive_link", "deadline_id", "error_message", "analysis_summary"]
    ensures k in DetailKeys
  {
  }

  /** The detail view has every key the standard view can have, whatever the values. */
  lemma DetailCoversStandard(s: SubmissionRecord, includeAnalysis: bool, k: string)
    requires k in Keys(Standard(s, includeAnalysis).fields)
    ensures k in Keys(Detail(s).fields)
  {
    var extras := Keys(StandardExtras(s, includeAnalysis));
    assert k in StandardKeys + extras;
    assert forall e :: e in extras ==> e in ["google_drive_link", "deadline_id", "error_message", "analysis_summary"];
    StandardKeysInDetail(k);
    assert Keys(Detail(s).fields) == DetailKeys + Keys(DetailExtras(s));
  }

  /** Neither nested key is a fixed key of the detail view. */
  lemma NestedKeysNotFixed()
    ensures "analysis_result" !in DetailKeys && "deadline" !in DetailKeys
  {
  }

  /** The nested keys appear exactly when the linked rows exist. */
  lemma DetailNestsLinkedRows(s: SubmissionRecord)
    ensures "analysis_result" in Keys(Detail(s).fields) <==> s.analysis.Some?
    ensures "deadline" in Keys(Detail(s).fields) <==> s.deadline.Some?
  {
    NestedKeysNotFixed();
    var ks := Keys(Detail(s).fields);
    assert ks == DetailKeys + Keys(DetailExtras(s));
  }
}
