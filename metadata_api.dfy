// The processing state machine of the analysis endpoint: PENDING -> PROCESSING -> one of
// FAILED, WARNING or COMPLETED, and the reprocess reset that re-enters it.
module MetadataApi {
  import opened Wrappers
  import opened Base
  import opened AnalysisModels
  import MS = MetadataService

  /** The processing fields of a `Submission` row and its analysis result, if any. */
  datatype Record = Record(
    status: SubmissionStatus,
    processingStartedAt: Option<int>,
    processingCompletedAt: Option<int>,
    errorMessage: Option<string>,
    analysis: Option<AnalysisResult>)

  /** What the endpoint answers: a refusal, a failure with its message, or the final status. */
  datatype Outcome = Rejected | FailedWith(error: string) | Done(status: SubmissionStatus)

  /** The statistics and validator the endpoint calls. */
  datatype Pipeline = Pipeline(
    statsOf: string -> ContentStatistics,
    validate: (ContentStatistics, string) -> (bool, seq<string>))

  /** The live service's statistics and its disabled validator. */
  function LivePipeline(): Pipeline
  {
    Pipeline(MS.ComputeContentStatistics, (st, t) => MS.ValidateDocumentCompleteness(st, t))
  }

  /** A freshly created `AnalysisResult`: every field empty, `is_complete_document` true. */
  const NewAnalysis: AnalysisResult := AnalysisResult(None, None, None, true, [], None, None, None, None, None)

  /** The analysis result after storing: the existing row (or a new one) with the five fields set. */
  function Stored(existing: Option<AnalysisResult>, md: DocumentMetadata, st: ContentStatistics, text: string,
                  isComplete: bool, warnings: seq<string>): (a: AnalysisResult)
    ensures a.documentMetadata == Some(md) && a.contentStatistics == Some(st) && a.documentText == Some(text)
    ensures a.isCompleteDocument == isComplete && a.validationWarnings == warnings
    ensures existing.Some? ==> (a.timelinessClassification == existing.value.timelinessClassification
      && a.aiSummary == existing.value.aiSummary)
  {
    existing.GetOr(NewAnalysis).(documentMetadata := Some(md), contentStatistics := Some(st),
      documentText := Some(text), isCompleteDocument := isComplete, validationWarnings := warnings)
  }

  /**
   * `analyze_submission` on the submission row. `storeError` is an exception raised by the final
   * commit, after the completion time was set, which the outer handler turns into a failure
   * that keeps that time; an exception earlier in the storing, such as in the query for an
   * existing analysis, would leave the completion time unset and is not modelled. The auto-triggered NLP
   * block never changes the row: its call to `generate_ai_summary` passes an unknown
   * keyword argument, and the resulting error is caught and logged.
   */
  function AnalyzeStep(r: Record, now: int, md: Result<DocumentMetadata>, text: Result<string>, p: Pipeline,
                       storeError: Option<string>): (Record, Outcome)
  {
    if r.status != Pending then (r, Rejected)
    else
      var started := r.(status := Processing, processingStartedAt := Some(now));
      if md.Err? then (started.(status := Failed, errorMessage := Some(md.error)), FailedWith(md.error))
      else if text.Err? then (started.(status := Failed, errorMessage := Some(text.error)), FailedWith(text.error))
      else
        var st := p.statsOf(text.value);
        var (ok, ws) := p.validate(st, text.value);
        var final := if ws != [] then Warning else Completed;
        match storeError
        case Some(e) =>
          var msg := "Processing error: " + e;
          (started.(status := Failed, errorMessage := Some(msg), processingCompletedAt := Some(now)), FailedWith(msg))
        case None =>
          (started.(status := final, processingCompletedAt := Some(now),
                    analysis := Some(Stored(r.analysis, md.value, st, text.value, ok, ws))),
           Done(final))
  }

  /** Analysis only starts from PENDING; any other status is refused and nothing changes. */
  lemma OnlyFromPending(r: Record, now: int, md: Result<DocumentMetadata>, text: Result<string>, p: Pipeline,
                        storeError: Option<string>)
    ensures AnalyzeStep(r, now, md, text, p, storeError).1 == Rejected <==> r.status != Pending
    ensures r.status != Pending ==> AnalyzeStep(r, now, md, text, p, storeError).0 == r
  {
  }

  /** A started run never leaves the submission PENDING or PROCESSING, and records its start. */
  lemma RunsEndTerminal(r: Record, now: int, md: Result<DocumentMetadata>, text: Result<string>, p: Pipeline,
                        storeError: Option<string>)
    requires r.status == Pending
    ensures var (r2, o) := AnalyzeStep(r, now, md, text, p, storeError);
      r2.status in {Failed, Warning, Completed} && r2.processingStartedAt == Some(now)
      && (o.FailedWith? <==> r2.status == Failed)
      && (o.Done? ==> o.status == r2.status)
  {
  }

  /** An extraction error fails the run with that error as the message, storing nothing. */
  lemma ExtractionErrorFails(r: Record, now: int, md: Result<DocumentMetadata>, text: Result<string>, p: Pipeline,
                             storeError: Option<string>)
    requires r.status == Pending && (md.Err? || text.Err?)
    ensures var (r2, o) := AnalyzeStep(r, now, md, text, p, storeError);
      var e := if md.Err? then md.error else text.error;
      r2.status == Failed && r2.errorMessage == Some(e) && o == FailedWith(e)
      && r2.analysis == r.analysis && r2.processingCompletedAt == r.processingCompletedAt
  {
  }

  /** A stored run ends WARNING exactly when the validator returned warnings, else COMPLETED. */
  lemma FinalStatusFollowsWarnings(r: Record, now: int, md: Result<DocumentMetadata>, text: Result<string>,
                                   p: Pipeline)
    requires r.status == Pending && md.Ok? && text.Ok?
    ensures var (r2, o) := AnalyzeStep(r, now, md, text, p, None);
      var ws := p.validate(p.statsOf(text.value), text.value).1;
      (r2.status == Warning <==> ws != []) && (r2.status == Completed <==> ws == [])
      && r2.processingCompletedAt == Some(now) && r2.errorMessage == r.errorMessage
      && r2.analysis.Some? && r2.analysis.value.validationWarnings == ws
  {
  }

  /** With the live service's validator a stored run always ends COMPLETED, never WARNING. */
  lemma LiveRunNeverWarns(r: Record, now: int, md: Result<DocumentMetadata>, text: Result<string>,
                          storeError: Option<string>)
    ensures AnalyzeStep(r, now, md, text, LivePipeline(), storeError).0.status != Warning || r.status == Warning
  {
  }

  /** An exception while storing gives FAILED with a "Processing error" message. */
  lemma StoreErrorFails(r: Record, now: int, md: Result<DocumentMetadata>, text: Result<string>, p: Pipeline,
                        e: string)
    requires r.status == Pending && md.Ok? && text.Ok?
    ensures var (r2, o) := AnalyzeStep(r, now, md, text, p, Some(e));
      r2.status == Failed && r2.errorMessage == Some("Processing error: " + e) && r2.analysis == r.analysis
  {
  }

  /** `reprocess_submission`'s reset: PENDING, no times, no error, no analysis result. */
  function Reset(r: Record): (r2: Record)
    ensures r2.status == Pending && r2.processingStartedAt.None? && r2.processingCompletedAt.None?
    ensures r2.errorMessage.None? && r2.analysis.None?
  {
    Record(Pending, None, None, None, None)
  }

  /** Reprocessing is never refused, and a stored run builds a fresh analysis result. */
  lemma ReprocessStartsAfresh(r: Record, now: int, md: Result<DocumentMetadata>, text: Result<string>, p: Pipeline,
                              storeError: Option<string>)
    ensures var (r2, o) := AnalyzeStep(Reset(r), now, md, text, p, storeError);
      o != Rejected && r2.processingStartedAt == Some(now)
      && (o.Done? ==> r2.analysis == Some(Stored(None, md.value, p.statsOf(text.value), text.value,
                                                  p.validate(p.statsOf(text.value), text.value).0,
                                                  p.validate(p.statsOf(text.value), text.value).1)))
      && (o.FailedWith? ==> r2.analysis.None?)
  {
  }

  /** A submission row; the methods change it as the endpoint does. */
  class Submission {
    const id: string
    const originalFilename: string
    const fileHash: Option<string>
    var status: SubmissionStatus
    var processingStartedAt: Option<int>
    var processingCompletedAt: Option<int>
    var errorMessage: Option<string>
    var analysis: Option<AnalysisResult>

    function Current(): Record
      reads this
    {
      Record(status, processingStartedAt, processingCompletedAt, errorMessage, analysis)
    }

    constructor (id: string, originalFilename: string, fileHash: Option<string>)
      ensures this.id == id && this.originalFilename == originalFilename && this.fileHash == fileHash
      ensures Current() == Record(Pending, None, None, None, None)
    {
      this.id := id;
      this.originalFilename := originalFilename;
      this.fileHash := fileHash;
      status := Pending;
      processingStartedAt := None;
      processingCompletedAt := None;
      errorMessage := None;
      analysis := None;
    }

    /**
     * `analyze_submission`: the row moves as `AnalyzeStep` says. Once both extractions succeed
     * a snapshot is attempted; its failure is only logged. `now` is the clock reading.
     */
    method Analyze(now: int, md: Result<DocumentMetadata>, text: Result<string>, p: Pipeline,
                   table: MS.SnapshotTable, storeError: Option<string>)
      returns (o: Outcome)
      requires table.Valid()
      modifies this, table
      ensures table.Valid()
      ensures (Current(), o) == AnalyzeStep(old(Current()), now, md, text, p, storeError)
      ensures (old(status) != Pending || md.Err? || text.Err? || fileHash.None?) ==> table.rows == old(table.rows)
      ensures old(status) == Pending && md.Ok? && text.Ok? && fileHash.Some? ==>
        table.rows == old(table.rows)
                      + [MS.NewSnapshot(old(table.rows), id, originalFilename, fileHash.value,
                                        p.statsOf(text.value).wordCount, now)]
    {
      if status != Pending {
        return Rejected;
      }
      status := Processing;
      processingStartedAt := Some(now);
      if md.Err? {
        status := Failed;
        errorMessage := Some(md.error);
        return FailedWith(md.error);
      }
      if text.Err? {
        status := Failed;
        errorMessage := Some(text.error);
        return FailedWith(text.error);
      }
      var st := p.statsOf(text.value);
      var (ok, ws) := p.validate(st, text.value);
      var snapshot := table.CreateAnalysisSnapshot(id, originalFilename, fileHash, st.wordCount, now);
      var stored := Stored(analysis, md.value, st, text.value, ok, ws);
      status := if ws != [] then Warning else Completed;
      processingCompletedAt := Some(now);
      if storeError.Some? {
        status := Failed;
        errorMessage := Some("Processing error: " + storeError.value);
        return FailedWith("Processing error: " + storeError.value);
      }
      analysis := Some(stored);
      o := Done(status);
    }

    /** `reprocess_submission`: reset the row and drop its analysis, keep the snapshots, re-run. */
    method Reprocess(now: int, md: Result<DocumentMetadata>, text: Result<string>, p: Pipeline,
                     table: MS.SnapshotTable, storeError: Option<string>)
      returns (o: Outcome)
      requires table.Valid()
      modifies this, table
      ensures table.Valid()
      ensures (Current(), o) == AnalyzeStep(Reset(old(Current())), now, md, text, p, storeError)
      ensures (md.Err? || text.Err? || fileHash.None?) ==> table.rows == old(table.rows)
      ensures md.Ok? && text.Ok? && fileHash.Some? ==>
        table.rows == old(table.rows)
                      + [MS.NewSnapshot(old(table.rows), id, originalFilename, fileHash.value,
                                        p.statsOf(text.value).wordCount, now)]
    {
      status := Pending;
      processingStartedAt := None;
      processingCompletedAt := None;
      errorMessage := None;
      analysis := None;
      o := Analyze(now, md, text, p, table, storeError);
    }
  }
}
