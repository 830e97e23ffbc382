// The older dashboard module: the completion rate and timeliness shares of the overview, the
// page-size caps of the submission list, and its own deadline and submission changes.
module DashboardModule {
  import opened Wrappers
  import opened Base
  import opened Store
  import PyMath
  import C = Counter

  // ---------------------------------------------------------------- overview figures

  function Max1(n: nat): (r: nat)
    ensures r >= 1 && r >= n
  {
    if n < 1 then 1 else n
  }

  /** The share of one count in per cent, to one decimal: `round(count / max(total, 1) * 100, 1)`. */
  function Share(count: nat, total: nat): real
  {
    PyMath.RoundTenth(count as real / Max1(total) as real * 100.0)
  }

  /** A share is within rounding of the exact share, lies in [0, 100], is 0 for 0 and 100 for all. */
  lemma ShareFacts(count: nat, total: nat)
    ensures -0.05 <= Share(count, total) - count as real / Max1(total) as real * 100.0 <= 0.05
    ensures count == 0 ==> Share(count, total) == 0.0
    ensures count <= total ==> 0.0 <= Share(count, total) <= 100.0
    ensures 0 < total == count ==> Share(count, total) == 100.0
  {
    var m := Max1(total) as real;
    if count == 0 {
      assert count as real / m * 100.0 == 0.0;
      PyMath.RoundTenthWhole(0);
    } else if count <= total {
      assert m == total as real;
      if count == total {
        assert count as real / m == 1.0;
        PyMath.RoundTenthWhole(100);
      } else {
        assert count as real / m <= 1.0;
        PyMath.RoundTenthWithin(count as real / m * 100.0, 0, 100);
      }
    }
  }

  /** `completion_rate`: the share of completed submissions among all of them. */
  function CompletionRate(completed: nat, total: nat): (r: real)
    ensures -0.05 <= r - completed as real / Max1(total) as real * 100.0 <= 0.05
    ensures completed == 0 ==> r == 0.0
    ensures completed <= total ==> 0.0 <= r <= 100.0
    ensures 0 < total == completed ==> r == 100.0
  {
    ShareFacts(completed, total);
    Share(completed, total)
  }

  /** The key each classification is counted under in this copy. */
  function ModuleKey(c: TimelinessClassification): string
  {
    match c
    case OnTime => "on_time"
    case Late => "late"
    case LastMinuteRush => "last_minute_rush"
    case NoDeadline => "no_deadline"
  }

  const ModuleKeys: set<string> := {"on_time", "late", "last_minute_rush", "no_deadline"}

  /** `total_analyzed`, the sum of the four counts. */
  function Total(results: seq<(TimelinessClassification, nat)>): nat
  {
    CountOf(results, OnTime) + CountOf(results, Late) + CountOf(results, LastMinuteRush) + CountOf(results, NoDeadline)
  }

  /** The percentages dict: every key of the counts with its share. */
  function Percentages(counts: map<string, nat>, total: nat): (r: map<string, real>)
    ensures r.Keys == counts.Keys
  {
    map k | k in counts :: Share(counts[k], total)
  }

  /**
   * `_get_timeliness_statistics` of this copy: the counts as the loop fills them, their total
   * and the share of each.
   */
  method TimelinessStatistics(results: seq<(TimelinessClassification, nat)>)
    returns (counts: map<string, nat>, percentages: map<string, real>, total: nat)
    ensures counts.Keys == ModuleKeys
    ensures forall c :: counts[ModuleKey(c)] == CountOf(results, c)
    ensures total == Total(results)
    ensures percentages == Percentages(counts, total)
  {
    counts := map["on_time" := 0, "late" := 0, "last_minute_rush" := 0, "no_deadline" := 0];
    for i := 0 to |results|
      invariant counts.Keys == ModuleKeys
      invariant forall c :: counts[ModuleKey(c)] == CountOf(results[..i], c)
    {
      assert results[..i + 1][..i] == results[..i];
      var (classification, count) := results[i];
      if classification == OnTime {
        counts := counts["on_time" := count];
      } else if classification == Late {
        counts := counts["late" := count];
      } else if classification == LastMinuteRush {
        counts := counts["last_minute_rush" := count];
      } else {
        counts := counts["no_deadline" := count];
      }
    }
    assert results[..|results|] == results;
    assert counts["on_time"] == CountOf(results, OnTime) && counts["late"] == CountOf(results, Late);
    assert counts["last_minute_rush"] == CountOf(results, LastMinuteRush);
    assert counts["no_deadline"] == CountOf(results, NoDeadline);
    total := counts["on_time"] + counts["late"] + counts["last_minute_rush"] + counts["no_deadline"];
    percentages := Percentages(counts, total);
  }

  /** When something was analysed the four shares add up to 100 up to the rounding of each. */
  lemma SharesSumTo100(a: nat, b: nat, c: nat, d: nat)
    requires a + b + c + d > 0
    ensures var t := a + b + c + d;
      -0.2 <= Share(a, t) + Share(b, t) + Share(c, t) + Share(d, t) - 100.0 <= 0.2
  {
    var t := (a + b + c + d) as real;
    assert a as real / t + b as real / t + c as real / t + d as real / t == 1.0;
  }

  // ---------------------------------------------------------------- listing limits

  const MaxPerPage := 100
  const DefaultPerPage := 20

  /** The pagination arguments of the listing; absent keys are None. */
  datatype Paging = Paging(page: Option<int>, perPage: Option<int>)

  /** `min(pagination.get('per_page', 20), 100)`. */
  function PerPage(p: Paging): (n: int)
    ensures n <= MaxPerPage
    ensures p.perPage.None? ==> n == DefaultPerPage
    ensures p.perPage.Some? && p.perPage.value <= MaxPerPage ==> n == p.perPage.value
    ensures p.perPage.Some? && p.perPage.value > MaxPerPage ==> n == MaxPerPage
  {
    var asked := p.perPage.GetOr(DefaultPerPage);
    if asked < MaxPerPage then asked else MaxPerPage
  }

  /** `pagination.get('page', 1)`. */
  function Page(p: Paging): (n: int)
    ensures p.page.Some? ==> n == p.page.value
    ensures p.page.None? ==> n == 1
  {
    p.page.GetOr(1)
  }

  /** Without pagination the listing is `query.limit(100)`: the first 100 rows. */
  function Unpaginated<T>(rows: seq<T>): (r: seq<T>)
    ensures |r| <= MaxPerPage && |r| <= |rows| && r == rows[..|r|]
    ensures |rows| <= MaxPerPage ==> r == rows
    ensures |rows| > MaxPerPage ==> |r| == MaxPerPage
  {
    if |rows| <= MaxPerPage then rows else rows[..MaxPerPage]
  }

  // ---------------------------------------------------------------- deadline creation

  /** The keys of a creation request; an absent key is None. */
  datatype DeadlineRequest = DeadlineRequest(
    title: Option<string>,
    description: Option<string>,
    deadlineDatetime: Option<string>,
    timezone: Option<Option<string>>,
    courseCode: Option<string>,
    assignmentType: Option<string>)

  /** Whether the professor already has a deadline with this title. */
  predicate TitleTaken(deadlines: map<string, Deadline>, user: string, title: string)
  {
    exists k :: k in deadlines && deadlines[k].professorId == user && deadlines[k].title == title
  }

  /** No professor has two deadlines with the same title. */
  predicate UniqueTitles(deadlines: map<string, Deadline>)
  {
    forall a, b :: a in deadlines && b in deadlines && a != b && deadlines[a].professorId == deadlines[b].professorId ==>
      deadlines[a].title != deadlines[b].title
  }

  function DuplicateTitle(title: string): string
  {
    "A deadline with the title '" + title + "' already exists. Please use a unique title."
  }

  function CreationError(e: string): string
  {
    "Error creating deadline: " + e
  }

  /** The request carries a datetime that parses. */
  predicate Parses(req: DeadlineRequest, parse: IsoParser)
  {
    req.deadlineDatetime.Some? && parse(req.deadlineDatetime.value).Ok?
  }

  /**
   * What `create_deadline` makes of a request: the datetime is read first, then the title is
   * checked against the professor's deadlines; a missing key raises `KeyError` with the quoted
   * key. The timezone defaults to 'UTC' only when its key is absent.
   */
  function NewDeadline(deadlines: map<string, Deadline>, user: string, req: DeadlineRequest, parse: IsoParser, now: int)
    : (r: Result<Deadline>)
    ensures req.deadlineDatetime.None? ==> r == Err(CreationError("'deadline_datetime'"))
    ensures req.deadlineDatetime.Some? && parse(req.deadlineDatetime.value).Err? ==>
      r == Err(CreationError(parse(req.deadlineDatetime.value).error))
    ensures r.Ok? ==>
      req.title.Some? && !TitleTaken(deadlines, user, req.title.value)
      && Ok(r.value.deadlineDatetime) == parse(req.deadlineDatetime.value)
      && r.value.professorId == user && r.value.title == req.title.value
      && r.value.timezone == req.timezone.GetOr(Some("UTC"))
      && r.value.rubricId.None? && r.value.updatedAt == now
    ensures Parses(req, parse) && req.title.Some? ==>
      (r.Ok? <==> !TitleTaken(deadlines, user, req.title.value))
    ensures Parses(req, parse) && req.title.Some? && TitleTaken(deadlines, user, req.title.value) ==>
      r == Err(DuplicateTitle(req.title.value))
  {
    if req.deadlineDatetime.None? then Err(CreationError("'deadline_datetime'"))
    else match parse(req.deadlineDatetime.value)
      case Err(e) => Err(CreationError(e))
      case Ok(when) =>
        if req.title.None? then Err(CreationError("'title'"))
        else if TitleTaken(deadlines, user, req.title.value) then Err(DuplicateTitle(req.title.value))
        else Ok(Deadline(user, req.title.value, req.description, when, req.timezone.GetOr(Some("UTC")),
          req.courseCode, req.assignmentType, None, now))
  }

  /** Creating a deadline keeps the professors' titles unique. */
  lemma CreationKeepsTitlesUnique(deadlines: map<string, Deadline>, user: string, req: DeadlineRequest,
                                  parse: IsoParser, now: int, newId: string)
    requires UniqueTitles(deadlines) && newId !in deadlines
    requires NewDeadline(deadlines, user, req, parse, now).Ok?
    ensures UniqueTitles(deadlines[newId := NewDeadline(deadlines, user, req, parse, now).value])
  {
    var d := NewDeadline(deadlines, user, req, parse, now).value;
    var after := deadlines[newId := d];
    forall a, b | a in after && b in after && a != b && after[a].professorId == after[b].professorId
      ensures after[a].title != after[b].title
    {
      if a == newId {
        assert !(b in deadlines && deadlines[b].professorId == user && deadlines[b].title == d.title);
      } else if b == newId {
        assert !(a in deadlines && deadlines[a].professorId == user && deadlines[a].title == d.title);
      }
    }
  }

  /** `create_deadline`: the new row is stored under the id the database assigns it. */
  method CreateDeadline(db: Database, user: string, req: DeadlineRequest, parse: IsoParser, now: int, newId: string)
    returns (r: Result<Deadline>)
    requires newId !in db.deadlines
    modifies db`deadlines
    ensures r == NewDeadline(old(db.deadlines), user, req, parse, now)
    ensures db.deadlines == if r.Ok? then old(db.deadlines)[newId := r.value] else old(db.deadlines)
    ensures UniqueTitles(old(db.deadlines)) ==> UniqueTitles(db.deadlines)
  {
    r := NewDeadline(db.deadlines, user, req, parse, now);
    if r.Ok? {
      if UniqueTitles(db.deadlines) {
        CreationKeepsTitlesUnique(db.deadlines, user, req, parse, now, newId);
      }
      db.deadlines := db.deadlines[newId := r.value];
    }
  }

  // ---------------------------------------------------------------- deadline update

  const DeadlineNotFound := "Deadline not found or access denied"
  const SubmissionNotFound := "Submission not found or access denied"

  function UpdateError(e: string): string
  {
    "Error updating deadline: " + e
  }

  /**
   * The fields `update_deadline` of this copy assigns: the supplied keys except `rubric_id`,
   * which this copy ignores, and `updated_at`, which it always sets.
   */
  function ApplyPatch(d: Deadline, p: DeadlinePatch, parse: IsoParser, now: int): (r: Result<Deadline>)
    ensures r.Err? <==> p.deadlineDatetime.Some? && parse(p.deadlineDatetime.value).Err?
    ensures r.Err? ==> r.error == UpdateError(parse(p.deadlineDatetime.value).error)
    ensures r.Ok? ==>
      var e := r.value;
      e.professorId == d.professorId && e.rubricId == d.rubricId && e.updatedAt == now
      && e.title == p.title.GetOr(d.title)
      && e.description == p.description.GetOr(d.description)
      && (p.deadlineDatetime.None? ==> e.deadlineDatetime == d.deadlineDatetime)
      && (p.deadlineDatetime.Some? ==> Ok(e.deadlineDatetime) == parse(p.deadlineDatetime.value))
      && e.timezone == p.timezone.GetOr(d.timezone)
      && e.courseCode == p.courseCode.GetOr(d.courseCode)
      && e.assignmentType == p.assignmentType.GetOr(d.assignmentType)
  {
    if p.deadlineDatetime.Some? && parse(p.deadlineDatetime.value).Err? then
      Err(UpdateError(parse(p.deadlineDatetime.value).error))
    else
      var when := if p.deadlineDatetime.Some? then parse(p.deadlineDatetime.value).value else d.deadlineDatetime;
      Ok(d.(title := p.title.GetOr(d.title),
            description := p.description.GetOr(d.description),
            deadlineDatetime := when,
            timezone := p.timezone.GetOr(d.timezone),
            courseCode := p.courseCode.GetOr(d.courseCode),
            assignmentType := p.assignmentType.GetOr(d.assignmentType),
            updatedAt := now))
  }

  /** An update with no keys only refreshes `updated_at`. */
  lemma EmptyPatchTouches(d: Deadline, parse: IsoParser, now: int)
    ensures ApplyPatch(d, NoChange, parse, now) == Ok(d.(updatedAt := now))
  {
  }

  /**
   * `update_deadline`: a deadline the user does not own is refused; otherwise the supplied
   * fields and `updated_at` are assigned and committed, or rolled back when the datetime does
   * not parse.
   */
  method UpdateDeadline(db: Database, deadlineId: string, user: string, p: DeadlinePatch, parse: IsoParser, now: int)
    returns (r: Result<Deadline>)
    modifies db`deadlines
    ensures !OwnsDeadline(old(db.deadlines), deadlineId, user) ==>
      r == Err(DeadlineNotFound) && db.deadlines == old(db.deadlines)
    ensures OwnsDeadline(old(db.deadlines), deadlineId, user) ==>
      r == ApplyPatch(old(db.deadlines)[deadlineId], p, parse, now)
      && db.deadlines == if r.Ok? then old(db.deadlines)[deadlineId := r.value] else old(db.deadlines)
  {
    if !(deadlineId in db.deadlines && db.deadlines[deadlineId].professorId == user) {
      return Err(DeadlineNotFound);
    }
    var d := db.deadlines[deadlineId];
    if p.title.Some? {
      d := d.(title := p.title.value);
    }
    if p.description.Some? {
      d := d.(description := p.description.value);
    }
    if p.deadlineDatetime.Some? {
      var parsed := parse(p.deadlineDatetime.value);
      if parsed.Err? {
        return Err(UpdateError(parsed.error));
      }
      d := d.(deadlineDatetime := parsed.value);
    }
    if p.timezone.Some? {
      d := d.(timezone := p.timezone.value);
    }
    if p.courseCode.Some? {
      d := d.(courseCode := p.courseCode.value);
    }
    if p.assignmentType.Some? {
      d := d.(assignmentType := p.assignmentType.value);
    }
    d := d.(updatedAt := now);
    db.deadlines := db.deadlines[deadlineId := d];
    r := Ok(d);
  }

  // ---------------------------------------------------------------- deletions

  /** The submissions table after the bulk `deadline_id = None` update. */
  function Unlinked(submissions: map<string, SubmissionRow>, deadlineId: string): (r: map<string, SubmissionRow>)
    ensures r.Keys == submissions.Keys
    ensures forall s :: s in r ==> r[s].deadlineId != Some(deadlineId)
    ensures forall s :: s in r && submissions[s].deadlineId != Some(deadlineId) ==> r[s] == submissions[s]
    ensures forall s :: s in r ==> r[s] == submissions[s].(deadlineId := r[s].deadlineId)
  {
    map s | s in submissions ::
      if submissions[s].deadlineId == Some(deadlineId) then submissions[s].(deadlineId := None) else submissions[s]
  }

  /**
   * `delete_deadline` of this copy: its submissions stay and lose their link, then the
   * deadline is deleted.
   */
  method DeleteDeadline(db: Database, deadlineId: string, user: string) returns (deleted: bool, error: Option<string>)
    modifies db`deadlines, db`submissions
    ensures !OwnsDeadline(old(db.deadlines), deadlineId, user) ==>
      !deleted && error == Some(DeadlineNotFound)
      && db.deadlines == old(db.deadlines) && db.submissions == old(db.submissions)
    ensures OwnsDeadline(old(db.deadlines), deadlineId, user) ==>
      deleted && error.None?
      && db.deadlines == old(db.deadlines) - {deadlineId}
      && db.submissions == Unlinked(old(db.submissions), deadlineId)
  {
    if !(deadlineId in db.deadlines && db.deadlines[deadlineId].professorId == user) {
      return false, Some(DeadlineNotFound);
    }
    if |Linked(db.submissions, deadlineId)| > 0 {
      db.submissions := Unlinked(db.submissions, deadlineId);
    } else {
      assert Unlinked(db.submissions, deadlineId) == db.submissions;
    }
    db.deadlines := db.deadlines - {deadlineId};
    return true, None;
  }

  /** Whether a snapshot belongs to some other submission. */
  predicate KeepSnapshot(id: string, x: Snapshot)
  {
    x.submissionId != id
  }

  /** Whether an audit entry belongs to some other submission, or to none. */
  predicate KeepEntry(id: string, x: AuditEntry)
  {
    x.submissionId != Some(id)
  }

  /** `DocumentSnapshot.query.filter_by(submission_id=...).delete()`. */
  function OtherSnapshots(snapshots: seq<Snapshot>, id: string): (r: seq<Snapshot>)
    ensures forall x :: x in r ==> KeepSnapshot(id, x)
    ensures forall x :: C.Count(r, x) == if KeepSnapshot(id, x) then C.Count(snapshots, x) else 0
  {
    var r := C.Filter(snapshots, x => KeepSnapshot(id, x));
    forall x
      ensures C.Count(r, x) == if KeepSnapshot(id, x) then C.Count(snapshots, x) else 0
    {
      C.FilterCount(snapshots, x => KeepSnapshot(id, x), x);
    }
    r
  }

  /** `AuditLog.query.filter_by(submission_id=...).delete()`. */
  function OtherEntries(logs: seq<AuditEntry>, id: string): (r: seq<AuditEntry>)
    ensures forall x :: x in r ==> KeepEntry(id, x)
    ensures forall x :: C.Count(r, x) == if KeepEntry(id, x) then C.Count(logs, x) else 0
  {
    var r := C.Filter(logs, x => KeepEntry(id, x));
    forall x
      ensures C.Count(r, x) == if KeepEntry(id, x) then C.Count(logs, x) else 0
    {
      C.FilterCount(logs, x => KeepEntry(id, x), x);
    }
    r
  }

  /**
   * `delete_submission` of this copy: a submission the user does not own is refused; otherwise
   * its analysis result, its snapshots and its audit entries are deleted, then the submission.
   */
  method DeleteSubmission(db: Database, submissionId: string, user: string) returns (deleted: bool, error: Option<string>)
    modifies db`submissions, db`analyses, db`snapshots, db`auditLogs
    ensures !OwnsSubmission(old(db.submissions), submissionId, user) ==>
      !deleted && error == Some(SubmissionNotFound)
      && db.submissions == old(db.submissions) && db.analyses == old(db.analyses)
      && db.snapshots == old(db.snapshots) && db.auditLogs == old(db.auditLogs)
    ensures OwnsSubmission(old(db.submissions), submissionId, user) ==>
      deleted && error.None?
      && db.submissions == old(db.submissions) - {submissionId}
      && db.analyses == old(db.analyses) - {submissionId}
      && db.snapshots == OtherSnapshots(old(db.snapshots), submissionId)
      && db.auditLogs == OtherEntries(old(db.auditLogs), submissionId)
  {
    if !(submissionId in db.submissions && db.submissions[submissionId].professorId == user) {
      return false, Some(SubmissionNotFound);
    }
    if submissionId in db.analyses {
      db.analyses := db.analyses - {submissionId};
    }
    db.snapshots := OtherSnapshots(db.snapshots, submissionId);
    db.auditLogs := OtherEntries(db.auditLogs, submissionId);
    db.submissions := db.submissions - {submissionId};
    return true, None;
  }
}
