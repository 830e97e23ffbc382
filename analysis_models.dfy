// The analysis records (`AnalysisResult`, `DocumentSnapshot`) and the snapshot-table lookups.
module AnalysisModels {
  import opened Wrappers
  import opened Base

  datatype Contributor = Contributor(name: string, role: string, date: Option<string>)

  /** The metadata dict the live extractor stores in `AnalysisResult.document_metadata`. */
  datatype DocumentMetadata = DocumentMetadata(
    author: string,
    creationDate: Option<string>,
    lastModifiedDate: Option<string>,
    lastEditor: string,
    fileSize: nat,
    wordCount: int,
    revisionCount: int,
    application: string,
    contributors: seq<Contributor>)

  /**
   * The statistics dict. The two averages are Python floats rounded to two decimals, kept
   * here as the exact reals `round(x, 2)` gives. `pageCount` is absent from the all-zero dict
   * of an empty text.
   */
  datatype ContentStatistics = ContentStatistics(
    wordCount: nat,
    characterCount: nat,
    characterCountNoSpaces: nat,
    sentenceCount: nat,
    paragraphCount: nat,
    estimatedPages: nat,
    pageCount: Option<nat>,
    averageWordsPerSentence: real,
    averageSentenceLength: real)

  datatype AnalysisResult = AnalysisResult(
    documentMetadata: Option<DocumentMetadata>,
    contentStatistics: Option<ContentStatistics>,
    documentText: Option<string>,
    isCompleteDocument: bool,
    validationWarnings: seq<string>,
    timelinessClassification: Option<TimelinessClassification>,
    contributionGrowthPercentage: Option<real>,
    fleschKincaidScore: Option<real>,
    readabilityGrade: Option<string>,
    aiSummary: Option<string>)

  /** A `DocumentSnapshot` row; `id` is the row key, `createdAt` its insertion time in seconds. */
  datatype Snapshot = Snapshot(
    id: nat,
    fileId: string,
    submissionId: string,
    wordCount: nat,
    fileHash: string,
    createdAt: int,
    majorChanges: bool,
    changePercentage: Option<real>)

  /**
   * The snapshot table, oldest row first. Rows are only ever appended, so "ordered by
   * created_at descending, first" is the last matching row.
   */
  type SnapshotLog = seq<Snapshot>

  /** The latest snapshot of a submission: `filter_by(submission_id=…).order_by(created_at desc).first()`. */
  function LatestOfSubmission(log: SnapshotLog, submissionId: string): (r: Option<nat>)
    ensures r.Some? ==> r.value < |log| && log[r.value].submissionId == submissionId
    ensures r.Some? ==> forall j :: r.value < j < |log| ==> log[j].submissionId != submissionId
    ensures r.None? ==> forall j :: 0 <= j < |log| ==> log[j].submissionId != submissionId
  {
    if log == [] then None
    else if log[|log| - 1].submissionId == submissionId then Some(|log| - 1)
    else LatestOfSubmission(log[..|log| - 1], submissionId)
  }

  /** Whether a row has the given file key and is not the excluded row. */
  predicate FileMatch(s: Snapshot, fileId: string, except: Option<nat>)
  {
    s.fileId == fileId && (except.None? || s.id != except.value)
  }

  /** The latest snapshot with a file key, optionally skipping one row id. */
  function LatestOfFile(log: SnapshotLog, fileId: string, except: Option<nat>): (r: Option<nat>)
    ensures r.Some? ==> r.value < |log| && FileMatch(log[r.value], fileId, except)
    ensures r.Some? ==> forall j :: r.value < j < |log| ==> !FileMatch(log[j], fileId, except)
    ensures r.None? ==> forall j :: 0 <= j < |log| ==> !FileMatch(log[j], fileId, except)
  {
    if log == [] then None
    else if FileMatch(log[|log| - 1], fileId, except) then Some(|log| - 1)
    else LatestOfFile(log[..|log| - 1], fileId, except)
  }

  /** Appending a row never changes which earlier row is latest unless the new row matches. */
  lemma LatestOfFileAppend(log: SnapshotLog, s: Snapshot, fileId: string, except: Option<nat>)
    ensures LatestOfFile(log + [s], fileId, except)
         == if FileMatch(s, fileId, except) then Some(|log|) else LatestOfFile(log, fileId, except)
  {
    assert (log + [s])[..|log|] == log;
  }
}
