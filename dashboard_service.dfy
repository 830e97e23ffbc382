// The dashboard service: the timeliness counts, the status filter of the submission list, and
// the deadline and submission changes a professor makes from the dashboard.
module DashboardService {
  import opened Wrappers
  import opened Base
  import opened Store
  import Text

  // ---------------------------------------------------------------- timeliness counts

  /** The key each classification is counted under. */
  function ServiceKey(c: TimelinessClassification): string
  {
    match c
    case OnTime => "on_time"
    case Late => "late"
    case LastMinuteRush => "last_minute"
    case NoDeadline => "no_deadline"
  }

  const ServiceKeys: set<string> := {"on_time", "late", "last_minute", "no_deadline"}

  /** Each classification has its own key, and the keys are exactly the four. */
  lemma ServiceKeysAreOnePerClass(a: TimelinessClassification, b: TimelinessClassification)
    ensures ServiceKey(a) == ServiceKey(b) <==> a == b
    ensures ServiceKey(a) in ServiceKeys
    ensures forall k :: k in ServiceKeys ==> exists c :: ServiceKey(c) == k
  {
    assert ServiceKey(OnTime) == "on_time" && ServiceKey(Late) == "late";
    assert ServiceKey(LastMinuteRush) == "last_minute" && ServiceKey(NoDeadline) == "no_deadline";
  }

  /**
   * `_get_timeliness_statistics`: the four keys start at 0 and each row of the grouped query
   * assigns its count to the key of its classification.
   */
  method TimelinessStatistics(results: seq<(TimelinessClassification, nat)>) returns (stats: map<string, nat>)
    ensures stats.Keys == ServiceKeys
    ensures forall c :: stats[ServiceKey(c)] == CountOf(results, c)
  {
    stats := map["on_time" := 0, "late" := 0, "last_minute" := 0, "no_deadline" := 0];
    for i := 0 to |results|
      invariant stats.Keys == ServiceKeys
      invariant forall c :: stats[ServiceKey(c)] == CountOf(results[..i], c)
    {
      assert results[..i + 1][..i] == results[..i];
      var (classification, count) := results[i];
      if classification == OnTime {
        stats := stats["on_time" := count];
      } else if classification == Late {
        stats := stats["late" := count];
      } else if classification == LastMinuteRush {
        stats := stats["last_minute" := count];
      } else {
        stats := stats["no_deadline" := count];
      }
    }
    assert results[..|results|] == results;
  }

  // ---------------------------------------------------------------- status filter

  /** The enum member name of a status. */
  function StatusName(s: SubmissionStatus): string
  {
    match s
    case Pending => "PENDING"
    case Processing => "PROCESSING"
    case Completed => "COMPLETED"
    case Failed => "FAILED"
    case Warning => "WARNING"
  }

  /** Upper-casing `s` character by character gives `t`. */
  lemma UpperIs(s: string, t: string)
    requires |s| == |t| && forall i :: 0 <= i < |s| ==> Text.UpperChar(s[i]) == t[i]
    ensures Text.Upper(s) == t
  {
  }

  /** Each member is named by its value in upper case. */
  lemma StatusNameIsUpperValue(s: SubmissionStatus)
    ensures StatusName(s) == Text.Upper(StatusValue(s))
  {
    match s
    case Pending => UpperIs("pending", "PENDING");
    case Processing => UpperIs("processing", "PROCESSING");
    case Completed => UpperIs("completed", "COMPLETED");
    case Failed => UpperIs("failed", "FAILED");
    case Warning => UpperIs("warning", "WARNING");
  }

  /** `SubmissionStatus[name]`: the member of that exact name. */
  function StatusByName(name: string): (r: Option<SubmissionStatus>)
    ensures r.Some? ==> StatusName(r.value) == name
    ensures r.None? ==> forall s :: StatusName(s) != name
  {
    if name == "PENDING" then Some(Pending)
    else if name == "PROCESSING" then Some(Processing)
    else if name == "COMPLETED" then Some(Completed)
    else if name == "FAILED" then Some(Failed)
    else if name == "WARNING" then Some(Warning)
    else None
  }

  /**
   * The status filter of `get_submissions_list`: no filter for a missing or empty value, else
   * the member named by the upper-cased value. An unknown name raises `KeyError`, whose text
   * is the quoted name, and the listing returns that text as its error.
   */
  function StatusFilter(status: Option<string>): (r: Result<Option<SubmissionStatus>>)
    ensures !Truthy(status) ==> r == Ok(None)
    ensures Truthy(status) && r.Ok? ==> r.value.Some? && StatusName(r.value.value) == Text.Upper(status.value)
    ensures Truthy(status) && r.Err? ==>
      r.error == "'" + Text.Upper(status.value) + "'" && forall s :: StatusName(s) != Text.Upper(status.value)
  {
    if !Truthy(status) then Ok(None)
    else
      var name := Text.Upper(status.value);
      match StatusByName(name)
      case Some(s) => Ok(Some(s))
      case None => Err("'" + name + "'")
  }

  /** Every status value, in any letter case, selects that status. */
  lemma FilterAcceptsEveryValue(s: SubmissionStatus, x: string)
    requires Text.Upper(x) == Text.Upper(StatusValue(s))
    ensures StatusFilter(Some(x)) == Ok(Some(s))
  {
    StatusNameIsUpperValue(s);
    assert |x| == |StatusValue(s)| > 0;
    assert StatusByName(StatusName(s)) == Some(s);
  }

  // ---------------------------------------------------------------- deadline update

  const DeadlineNotFound := "Deadline not found"
  const SubmissionNotFound := "Submission not found"

  /**
   * The fields `update_deadline` assigns: each supplied key replaces its field, the rest keep
   * their values. A supplied datetime that does not parse raises and nothing is stored. The
   * commit writes the row only when some column changed, and the `onupdate` default of
   * `updated_at` (models/base.py:36) then sets it to `now`.
   */
  function ApplyPatch(d: Deadline, p: DeadlinePatch, parse: IsoParser, now: int): (r: Result<Deadline>)
    ensures r.Err? <==> p.deadlineDatetime.Some? && parse(p.deadlineDatetime.value).Err?
    ensures r.Err? ==> r.error == parse(p.deadlineDatetime.value).error
    ensures r.Ok? ==>
      var e := r.value;
      e.professorId == d.professorId
      && (e.(updatedAt := d.updatedAt) == d ==> e == d)
      && (e.(updatedAt := d.updatedAt) != d ==> e.updatedAt == now)
      && e.title == p.title.GetOr(d.title)
      && e.description == p.description.GetOr(d.description)
      && (p.deadlineDatetime.None? ==> e.deadlineDatetime == d.deadlineDatetime)
      && (p.deadlineDatetime.Some? ==> Ok(e.deadlineDatetime) == parse(p.deadlineDatetime.value))
      && e.timezone == p.timezone.GetOr(d.timezone)
      && e.courseCode == p.courseCode.GetOr(d.courseCode)
      && e.assignmentType == p.assignmentType.GetOr(d.assignmentType)
      && e.rubricId == p.rubricId.GetOr(d.rubricId)
  {
    if p.deadlineDatetime.Some? && parse(p.deadlineDatetime.value).Err? then
      Err(parse(p.deadlineDatetime.value).error)
    else
      var when := if p.deadlineDatetime.Some? then parse(p.deadlineDatetime.value).value else d.deadlineDatetime;
      var e := d.(title := p.title.GetOr(d.title),
                  description := p.description.GetOr(d.description),
                  deadlineDatetime := when,
                  timezone := p.timezone.GetOr(d.timezone),
                  courseCode := p.courseCode.GetOr(d.courseCode),
                  assignmentType := p.assignmentType.GetOr(d.assignmentType),
                  rubricId := p.rubricId.GetOr(d.rubricId));
      if e == d then Ok(d) else Ok(e.(updatedAt := now))
  }

  /** A request with none of the keys leaves the deadline as it was, `updated_at` included. */
  lemma EmptyPatchIsIdentity(d: Deadline, parse: IsoParser, now: int)
    ensures ApplyPatch(d, NoChange, parse, now) == Ok(d)
  {
  }

  /** Sending the same update twice at one time stores what sending it once does. */
  lemma PatchIdempotent(d: Deadline, p: DeadlinePatch, parse: IsoParser, now: int)
    requires ApplyPatch(d, p, parse, now).Ok?
    ensures ApplyPatch(ApplyPatch(d, p, parse, now).value, p, parse, now) == ApplyPatch(d, p, parse, now)
  {
  }

  /**
   * `update_deadline`: a deadline the user does not own is "Deadline not found"; otherwise the
   * supplied fields are assigned one by one and committed at time `now`, or rolled back when
   * the datetime does not parse.
   */
  method UpdateDeadline(db: Database, deadlineId: string, user: string, p: DeadlinePatch, parse: IsoParser, now: int)
    returns (r: Result<Deadline>)
    modifies db`deadlines
    ensures !OwnsDeadline(old(db.deadlines), deadlineId, user) ==>
      r == Err(DeadlineNotFound) && db.deadlines == old(db.deadlines)
    ensures OwnsDeadline(old(db.deadlines), deadlineId, user) ==>
      r == ApplyPatch(old(db.deadlines)[deadlineId], p, parse, now)
      && db.deadlines == if r.Ok? then old(db.deadlines)[deadlineId := r.value] else old(db.deadlines)
  {
    if !(deadlineId in db.deadlines && db.deadlines[deadlineId].professorId == user) {
      return Err(DeadlineNotFound);
    }
    var d := db.deadlines[deadlineId];
    if p.title.Some? {
      d := d.(title := p.title.value);
    }
    if p.description.Some? {
      d := d.(description := p.description.value);
    }
    if p.deadlineDatetime.Some? {
      var parsed := parse(p.deadlineDatetime.value);
      if parsed.Err? {
        return Err(parsed.error);
      }
      d := d.(deadlineDatetime := parsed.value);
    }
    if p.timezone.Some? {
      d := d.(timezone := p.timezone.value);
    }
    if p.courseCode.Some? {
      d := d.(courseCode := p.courseCode.value);
    }
    if p.assignmentType.Some? {
      d := d.(assignmentType := p.assignmentType.value);
    }
    if p.rubricId.Some? {
      d := d.(rubricId := p.rubricId.value);
    }
    if d != db.deadlines[deadlineId] {
      d := d.(updatedAt := now);
    }
    db.deadlines := db.deadlines[deadlineId := d];
    r := Ok(d);
  }

  // ---------------------------------------------------------------- deletions

  /** The audit entry belongs to one of the submissions `ids`. */
  predicate BelongsTo(x: AuditEntry, ids: set<string>)
  {
    x.submissionId.Some? && x.submissionId.value in ids
  }

  /**
   * The audit log once the submissions `ids` are deleted. `Submission.audit_logs` is a
   * relationship without a cascade (models/submission.py:42), so the flush keeps their entries
   * and sets their `submission_id` to NULL.
   */
  function Detached(logs: seq<AuditEntry>, ids: set<string>): (r: seq<AuditEntry>)
    ensures |r| == |logs|
    ensures forall i :: 0 <= i < |r| ==> r[i].eventType == logs[i].eventType && !BelongsTo(r[i], ids)
    ensures forall i :: 0 <= i < |r| ==> r[i].submissionId == logs[i].submissionId || r[i].submissionId.None?
    ensures forall i :: 0 <= i < |r| && !BelongsTo(logs[i], ids) ==> r[i] == logs[i]
  {
    if logs == [] then []
    else
      var x := logs[0];
      [if BelongsTo(x, ids) then x.(submissionId := None) else x] + Detached(logs[1..], ids)
  }

  /** The submissions table once every submission linked to the deadline is gone. */
  function Cascaded(submissions: map<string, SubmissionRow>, deadlineId: string): (r: map<string, SubmissionRow>)
    ensures forall s :: s in r ==> s in submissions && r[s] == submissions[s] && r[s].deadlineId != Some(deadlineId)
    ensures forall s :: s in submissions && submissions[s].deadlineId != Some(deadlineId) ==> s in r
  {
    submissions - Linked(submissions, deadlineId)
  }

  /**
   * `delete_deadline`: a deadline the user does not own is "Deadline not found"; otherwise every
   * submission linked to it, whoever owns it, is deleted with its analysis result, and then
   * the deadline; the commit detaches the audit entries of the deleted submissions.
   */
  method DeleteDeadline(db: Database, deadlineId: string, user: string) returns (deleted: bool, error: Option<string>)
    modifies db`deadlines, db`submissions, db`analyses, db`auditLogs
    ensures !OwnsDeadline(old(db.deadlines), deadlineId, user) ==>
      !deleted && error == Some(DeadlineNotFound)
      && db.deadlines == old(db.deadlines) && db.submissions == old(db.submissions) && db.analyses == old(db.analyses)
      && db.auditLogs == old(db.auditLogs)
    ensures OwnsDeadline(old(db.deadlines), deadlineId, user) ==>
      deleted && error.None?
      && db.deadlines == old(db.deadlines) - {deadlineId}
      && db.submissions == Cascaded(old(db.submissions), deadlineId)
      && db.analyses == old(db.analyses) - Linked(old(db.submissions), deadlineId)
      && db.auditLogs == Detached(old(db.auditLogs), Linked(old(db.submissions), deadlineId))
  {
    if !(deadlineId in db.deadlines && db.deadlines[deadlineId].professorId == user) {
      return false, Some(DeadlineNotFound);
    }
    var linked := Linked(db.submissions, deadlineId);
    var todo := linked;
    ghost var subs0, analyses0 := db.submissions, db.analyses;
    while todo != {}
      invariant todo <= linked
      invariant db.submissions == subs0 - (linked - todo)
      invariant db.analyses == analyses0 - (linked - todo)
      invariant db.deadlines == old(db.deadlines) && db.auditLogs == old(db.auditLogs)
      decreases |todo|
    {
      var s :| s in todo;
      db.analyses := db.analyses - {s};
      db.submissions := db.submissions - {s};
      todo := todo - {s};
    }
    db.auditLogs := Detached(db.auditLogs, linked);
    db.deadlines := db.deadlines - {deadlineId};
    return true, None;
  }

  /**
   * `delete_submission`: a submission the user does not own is "Submission not found";
   * otherwise its analysis result is deleted, then the submission, and the commit detaches
   * the submission's audit entries.
   */
  method DeleteSubmission(db: Database, submissionId: string, user: string) returns (deleted: bool, error: Option<string>)
    modifies db`submissions, db`analyses, db`auditLogs
    ensures !OwnsSubmission(old(db.submissions), submissionId, user) ==>
      !deleted && error == Some(SubmissionNotFound)
      && db.submissions == old(db.submissions) && db.analyses == old(db.analyses)
      && db.auditLogs == old(db.auditLogs)
    ensures OwnsSubmission(old(db.submissions), submissionId, user) ==>
      deleted && error.None?
      && db.submissions == old(db.submissions) - {submissionId}
      && db.analyses == old(db.analyses) - {submissionId}
      && db.auditLogs == Detached(old(db.auditLogs), {submissionId})
  {
    if !(submissionId in db.submissions && db.submissions[submissionId].professorId == user) {
      return false, Some(SubmissionNotFound);
    }
    if submissionId in db.analyses {
      db.analyses := db.analyses - {submissionId};
    }
    db.submissions := db.submissions - {submissionId};
    db.auditLogs := Detached(db.auditLogs, {submissionId});
    return true, None;
  }
}
