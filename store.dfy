// The database tables the dashboard operations read and change, keyed by their string ids.
module Store {
  import opened Wrappers
  import opened Base

  /** A `deadlines` row. */
  datatype Deadline = Deadline(
    professorId: string,
    title: string,
    description: Option<string>,
    deadlineDatetime: DateTime,
    timezone: Option<string>,
    courseCode: Option<string>,
    assignmentType: Option<string>,
    rubricId: Option<string>,
    updatedAt: int)

  /**
   * The keys an update request supplies: None for an absent key, Some(v) for a key with value v.
   * The datetime is still the ISO text the request carried.
   */
  datatype DeadlinePatch = DeadlinePatch(
    title: Option<string>,
    description: Option<Option<string>>,
    deadlineDatetime: Option<string>,
    timezone: Option<Option<string>>,
    courseCode: Option<Option<string>>,
    assignmentType: Option<Option<string>>,
    rubricId: Option<Option<string>>)

  const NoChange := DeadlinePatch(None, None, None, None, None, None, None)

  /** `datetime.fromisoformat`: the parsed value, or the text of the error it raises. */
  type IsoParser = string -> Result<DateTime>

  /** The columns of a `submissions` row the dashboard operations use. */
  datatype SubmissionRow = SubmissionRow(
    professorId: string,
    deadlineId: Option<string>,
    status: SubmissionStatus,
    originalFilename: string)

  /** A `document_snapshots` row, by the submission it belongs to. */
  datatype Snapshot = Snapshot(submissionId: string, wordCount: nat)

  /** An `audit_logs` row; most events belong to no submission. */
  datatype AuditEntry = AuditEntry(submissionId: Option<string>, eventType: string)

  /** The tables. `analyses` maps a submission id to the timeliness of its analysis result. */
  class Database {
    var deadlines: map<string, Deadline>
    var submissions: map<string, SubmissionRow>
    var analyses: map<string, Option<TimelinessClassification>>
    var snapshots: seq<Snapshot>
    var auditLogs: seq<AuditEntry>

    constructor ()
      ensures deadlines == map[] && submissions == map[] && analyses == map[]
      ensures snapshots == [] && auditLogs == []
    {
      deadlines := map[];
      submissions := map[];
      analyses := map[];
      snapshots := [];
      auditLogs := [];
    }
  }

  /** `Deadline.query.filter_by(id=..., professor_id=...).first()` finds a row. */
  predicate OwnsDeadline(deadlines: map<string, Deadline>, id: string, user: string)
  {
    id in deadlines && deadlines[id].professorId == user
  }

  /** `Submission.query.filter_by(id=..., professor_id=...).first()` finds a row. */
  predicate OwnsSubmission(submissions: map<string, SubmissionRow>, id: string, user: string)
  {
    id in submissions && submissions[id].professorId == user
  }

  /** The ids of the submissions linked to a deadline, whoever owns them. */
  function Linked(submissions: map<string, SubmissionRow>, deadlineId: string): (ids: set<string>)
    ensures forall s :: s in ids <==> s in submissions && submissions[s].deadlineId == Some(deadlineId)
  {
    set s | s in submissions && submissions[s].deadlineId == Some(deadlineId)
  }

  /**
   * The count the grouped timeliness query reports for `c`. The loops over its rows assign the
   * count of each row to its key, so the last row for `c` wins; without one the key keeps 0.
   */
  function CountOf(results: seq<(TimelinessClassification, nat)>, c: TimelinessClassification): nat
  {
    if results == [] then 0
    else if results[|results| - 1].0 == c then results[|results| - 1].1
    else CountOf(results[..|results| - 1], c)
  }

  /** `group_by` yields each classification at most once, so its row is the count. */
  lemma {:induction false} CountOfGrouped(results: seq<(TimelinessClassification, nat)>, c: TimelinessClassification)
    requires forall i, j :: 0 <= i < j < |results| ==> results[i].0 != results[j].0
    ensures forall i :: 0 <= i < |results| && results[i].0 == c ==> CountOf(results, c) == results[i].1
    ensures (forall i :: 0 <= i < |results| ==> results[i].0 != c) ==> CountOf(results, c) == 0
  {
    if results != [] {
      var init := results[..|results| - 1];
      CountOfGrouped(init, c);
      forall i | 0 <= i < |results| && results[i].0 == c
        ensures CountOf(results, c) == results[i].1
      {
        if i < |init| {
          assert init[i] == results[i];
        }
      }
      if forall i :: 0 <= i < |results| ==> results[i].0 != c {
        assert results[|results| - 1].0 != c;
        assert forall i :: 0 <= i < |init| ==> init[i] == results[i];
      }
    }
  }
}
