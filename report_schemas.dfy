// The report export request schema: an export type of pdf or csv in any letter case, and an
// optional status filter naming one of the submission statuses.
module ReportSchemas {
  import Wrappers
  import Text
  import opened Json
  import opened Schemas
  import opened Base

  const ExportRequired: seq<string> := ["export_type"]
  const ExportTypes: seq<string> := ["pdf", "csv"]
  const StatusTexts: seq<string> := ["pending", "processing", "completed", "failed", "warning"]

  const BadExportType := "export_type must be either 'pdf' or 'csv'"
  const BadStatus := "Invalid status. Must be one of: " + Text.Join(StatusTexts, ", ")

  /** The status filter's allowed texts are exactly the stored values of the statuses. */
  lemma StatusTextsAreStatuses(t: string)
    ensures t in StatusTexts <==> exists s :: StatusValue(s) == t
  {
    if t in StatusTexts {
      var i :| 0 <= i < |StatusTexts| && StatusTexts[i] == t;
      var s := [Pending, Processing, Completed, Failed, Warning][i];
      assert StatusValue(s) == t;
    }
  }

  /** A status filter the schema accepts: a text equal to one of the allowed ones. */
  predicate KnownStatus(v: Value)
  {
    v.Str? && v.s in StatusTexts
  }

  /** The checks on the export type and the optional status, once the export type is present. */
  function ExportValues(exportType: Value, status: Wrappers.Option<Value>): (r: Verdict)
    ensures r == Valid <==>
      exportType.Str? && Text.Lower(exportType.s) in ExportTypes && (status.Some? ==> KnownStatus(status.value))
    ensures r == Raises <==> !exportType.Str?
    ensures exportType.Str? && Text.Lower(exportType.s) !in ExportTypes ==> r == Invalid(BadExportType)
    ensures exportType.Str? && Text.Lower(exportType.s) in ExportTypes && status.Some? && !KnownStatus(status.value) ==>
      r == Invalid(BadStatus)
  {
    if !exportType.Str? then Raises
    else if Text.Lower(exportType.s) !in ExportTypes then Invalid(BadExportType)
    else if status.Some? && !KnownStatus(status.value) then Invalid(BadStatus)
    else Valid
  }

  /** The status under its key, None when the body has none. */
  function StatusField(data: Value): (r: Wrappers.Option<Value>)
    requires Body(data)
    ensures r.Some? <==> Has(data, "status")
    ensures r.Some? ==> r.value == Get(data, "status")
  {
    if Has(data, "status") then Wrappers.Some(Get(data, "status")) else Wrappers.None
  }

  /** `ReportExportSchema.validate`. */
  function ValidateExport(data: Value): (r: Verdict)
    requires Body(data)
    ensures !Truthy(data) ==> r == Invalid(BodyRequired)
    ensures Truthy(data) && !Has(data, "export_type") ==> r == Invalid(MissingMessage(["export_type"]))
    ensures Truthy(data) && Has(data, "export_type") ==> r == ExportValues(Get(data, "export_type"), StatusField(data))
  {
    if !Truthy(data) then Invalid(BodyRequired)
    else
      var missing := Missing(data, ExportRequired);
      MissingNone(data, ExportRequired);
      if missing != [] then
        assert missing == ["export_type"] by {
          MissingMembers(data, ExportRequired, "export_type");
        }
        Invalid(MissingMessage(missing))
      else ExportValues(Get(data, "export_type"), StatusField(data))
  }

  /** The export type is read in any letter case: lowering is idempotent, so a lowered type passes too. */
  lemma LoweredExportTypePasses(t: string, status: Wrappers.Option<Value>)
    requires ExportValues(Str(t), status) == Valid
    ensures ExportValues(Str(Text.Lower(t)), status) == Valid
  {
    assert Text.Lower(Text.Lower(t)) == Text.Lower(t);
  }

  /** Every submission status, written as its stored value, is an accepted filter. */
  lemma EveryStatusFilterAccepted(t: string, s: SubmissionStatus)
    requires Text.Lower(t) in ExportTypes
    ensures ExportValues(Str(t), Wrappers.Some(Str(StatusValue(s)))) == Valid
  {
    StatusTextsAreStatuses(StatusValue(s));
  }
}
