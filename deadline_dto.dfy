// The deadline serialisers: the full view, which on request counts the linked submissions and
// splits them into on-time and late, and the list view, which always carries the count.
module DeadlineDto {
  import Wrappers
  import opened Json

  /**
   * The deadline columns the serialisers read. Columns copied as they are stored are values;
   * the datetimes are their `isoformat()` text; each linked submission is given by its
   * `is_late` property.
   */
  datatype DeadlineRecord = DeadlineRecord(
    id: Value,
    title: Value,
    description: Value,
    deadlineIso: Wrappers.Option<string>,
    timezone: Value,
    courseCode: Value,
    assignmentType: Value,
    professorId: Value,
    createdIso: string,
    lateness: seq<bool>)

  // ---------------------------------------------------------------- counting

  /** `sum(1 for sub in submissions if sub.is_late)`. */
  function Late(lateness: seq<bool>): (n: nat)
    ensures n <= |lateness|
  {
    if lateness == [] then 0 else (if lateness[0] then 1 else 0) + Late(lateness[1..])
  }

  /** `sum(1 for sub in submissions if not sub.is_late)`. */
  function OnTime(lateness: seq<bool>): (n: nat)
    ensures n <= |lateness|
  {
    if lateness == [] then 0 else (if lateness[0] then 0 else 1) + OnTime(lateness[1..])
  }

  /** Every submission is counted once, as on time or as late. */
  lemma {:induction false} OnTimePlusLate(lateness: seq<bool>)
    ensures OnTime(lateness) + Late(lateness) == |lateness|
  {
    if lateness != [] {
      OnTimePlusLate(lateness[1..]);
    }
  }

  /** No submission is late exactly when all of them are on time. */
  lemma {:induction false} NoneLate(lateness: seq<bool>)
    ensures Late(lateness) == 0 <==> forall i :: 0 <= i < |lateness| ==> !lateness[i]
  {
    if lateness != [] {
      NoneLate(lateness[1..]);
      if Late(lateness) == 0 {
        forall i | 0 <= i < |lateness| ensures !lateness[i] {
          if i > 0 {
            assert lateness[i] == lateness[1..][i - 1];
          }
        }
      }
      if forall i :: 0 <= i < |lateness| ==> !lateness[i] {
        forall i | 0 <= i < |lateness| - 1 ensures !lateness[1..][i] {
          assert lateness[1..][i] == lateness[i + 1];
        }
      }
    }
  }

  /** `submissions_summary`: the total and its split; the two parts always add up to the total. */
  function Summary(lateness: seq<bool>): (r: Value)
    ensures r.Obj? && Keys(r.fields) == ["total", "on_time", "late"]
    ensures r.fields[0].1 == Int(|lateness|)
    ensures r.fields[1].1.Int? && r.fields[2].1.Int?
    ensures r.fields[1].1.i + r.fields[2].1.i == |lateness|
    ensures r.fields[2].1.i == 0 <==> forall i :: 0 <= i < |lateness| ==> !lateness[i]
  {
    OnTimePlusLate(lateness);
    NoneLate(lateness);
    Obj([("total", Int(|lateness|)), ("on_time", Int(OnTime(lateness))), ("late", Int(Late(lateness)))])
  }

  // ---------------------------------------------------------------- the full view

  function IsoOrNull(iso: Wrappers.Option<string>): Value
  {
    match iso
    case Some(s) => Str(s)
    case None => Null
  }

  const DeadlineKeys: seq<string> := [
    "id", "title", "description", "deadline_datetime", "timezone", "course_code", "assignment_type",
    "professor_id", "created_at"]

  /** The entries every serialised deadline has, in order. */
  function DeadlineEntries(d: DeadlineRecord): (r: seq<(string, Value)>)
    ensures Keys(r) == DeadlineKeys
  {
    var vs := [d.id, d.title, d.description, IsoOrNull(d.deadlineIso), d.timezone, d.courseCode,
               d.assignmentType, d.professorId, Str(d.createdIso)];
    seq(|DeadlineKeys|, i requires 0 <= i < |DeadlineKeys| => (DeadlineKeys[i], vs[i]))
  }

  /** The keys `include_submissions` adds: the count always, the summary for a non-empty list. */
  function SubmissionEntries(lateness: seq<bool>): (r: seq<(string, Value)>)
    ensures Keys(r) == ["submission_count"] + (if lateness == [] then [] else ["submissions_summary"])
    ensures r[0] == ("submission_count", Int(|lateness|))
    ensures lateness != [] ==> r[1] == ("submissions_summary", Summary(lateness))
  {
    var count := [("submission_count", Int(|lateness|))];
    if lateness == [] then count else count + [("submissions_summary", Summary(lateness))]
  }

  /** `DeadlineDTO.serialize` of a deadline. */
  function Record(d: DeadlineRecord, includeSubmissions: bool): (r: Value)
    ensures r.Obj? && Keys(r.fields) == DeadlineKeys + (if includeSubmissions then Keys(SubmissionEntries(d.lateness)) else [])
    ensures |r.fields| >= |DeadlineKeys| && r.fields[..|DeadlineKeys|] == DeadlineEntries(d)
    ensures includeSubmissions ==> r.fields[|DeadlineKeys|..] == SubmissionEntries(d.lateness)
  {
    var base := DeadlineEntries(d);
    if includeSubmissions then
      var extra := SubmissionEntries(d.lateness);
      assert Keys(base + extra) == Keys(base) + Keys(extra);
      Obj(base + extra)
    else Obj(base)
  }

  /** `DeadlineDTO.serialize`: None gives None. */
  function Serialize(d: Wrappers.Option<DeadlineRecord>, includeSubmissions: bool): (r: Wrappers.Option<Value>)
    ensures r.None? <==> d.None?
    ensures r.Some? ==> r.value == Record(d.value, includeSubmissions)
  {
    MapOption(x => Record(x, includeSubmissions), d)
  }

  /** Without `include_submissions` neither the count nor the summary appears. */
  lemma CountOnlyOnRequest(d: DeadlineRecord, includeSubmissions: bool)
    ensures "submission_count" in Keys(Record(d, includeSubmissions).fields) <==> includeSubmissions
    ensures "submissions_summary" in Keys(Record(d, includeSubmissions).fields) <==> includeSubmissions && d.lateness != []
  {
    assert "submission_count" !in DeadlineKeys && "submissions_summary" !in DeadlineKeys;
  }

  /** `DeadlineDTO.serialize_list`: every deadline in order, without submissions. */
  function SerializeList(ds: seq<DeadlineRecord>): (r: seq<Value>)
    ensures |r| == |ds| && forall i :: 0 <= i < |ds| ==> r[i] == Record(ds[i], false)
  {
    MapList(d => Record(d, false), ds)
  }

  // ---------------------------------------------------------------- the list view

  const ListKeys: seq<string> := [
    "id", "title", "deadline_datetime", "timezone", "course_code", "assignment_type", "created_at",
    "submission_count"]

  /** `DeadlineListDTO.serialize` of a deadline: no description or owner, always the count. */
  function ListRecord(d: DeadlineRecord): (r: Value)
    ensures r.Obj? && Keys(r.fields) == ListKeys
    ensures r.fields[7] == ("submission_count", Int(|d.lateness|))
  {
    var vs := [d.id, d.title, IsoOrNull(d.deadlineIso), d.timezone, d.courseCode, d.assignmentType,
               Str(d.createdIso), Int(|d.lateness|)];
    Obj(seq(|ListKeys|, i requires 0 <= i < |ListKeys| => (ListKeys[i], vs[i])))
  }

  /** `DeadlineListDTO.serialize`: None gives None. */
  function SerializeListView(d: Wrappers.Option<DeadlineRecord>): (r: Wrappers.Option<Value>)
    ensures r.None? <==> d.None?
    ensures r.Some? ==> r.value == ListRecord(d.value)
  {
    MapOption(ListRecord, d)
  }

  /** `DeadlineListDTO.serialize_list`. */
  function SerializeListViews(ds: seq<DeadlineRecord>): (r: seq<Value>)
    ensures |r| == |ds| && forall i :: 0 <= i < |ds| ==> r[i] == ListRecord(ds[i])
  {
    MapList(ListRecord, ds)
  }

  /** The list view's count agrees with the full view's count. */
  lemma ListCountMatchesFull(d: DeadlineRecord)
    ensures ListRecord(d).fields[7].1 == Record(d, true).fields[|DeadlineKeys|].1
  {
  }
}
