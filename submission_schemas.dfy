// The submission request schemas: a file upload with optional student fields, and a Google
// Drive link submission.
module SubmissionSchemas {
  import Text
  import opened Json
  import opened Schemas
  import V = ValidationService
  import S = SubmissionService

  // ---------------------------------------------------------------- file upload

  const NoFile := "No file provided in request"
  const StudentIdEmpty := "student_id cannot be empty if provided"
  const StudentNameEmpty := "student_name cannot be empty if provided"

  /** The body has the key, its value is truthy, and `str(value).strip()` is empty. */
  predicate BlankGiven(data: Value, k: string)
    requires Body(data)
  {
    Has(data, k) && Truthy(Get(data, k)) && BlankAsText(Get(data, k))
  }

  /**
   * `SubmissionUploadSchema.validate`: a file is required; None counts as an empty body; a
   * truthy student id or name may not be blank.
   */
  function ValidateUpload(data: Value, filePresent: bool): (r: Verdict)
    requires Body(data)
    ensures r == Valid <==> filePresent && !BlankGiven(data, "student_id") && !BlankGiven(data, "student_name")
    ensures !filePresent ==> r == Invalid(NoFile)
    ensures filePresent && BlankGiven(data, "student_id") ==> r == Invalid(StudentIdEmpty)
    ensures filePresent && !BlankGiven(data, "student_id") && BlankGiven(data, "student_name") ==> r == Invalid(StudentNameEmpty)
    ensures r != Raises
  {
    if !filePresent then Invalid(NoFile)
    else if BlankGiven(data, "student_id") then Invalid(StudentIdEmpty)
    else if BlankGiven(data, "student_name") then Invalid(StudentNameEmpty)
    else Valid
  }

  /** With a file, an empty or absent body always passes. */
  lemma EmptyUploadPasses(data: Value)
    requires data.Null? || data == Obj([])
    ensures ValidateUpload(data, true) == Valid
  {
  }

  // ---------------------------------------------------------------- Drive link

  const DriveRequired: seq<string> := ["drive_link"]
  const LinkEmpty := "drive_link cannot be empty"

  /** The host check on the stripped link: it names the Drive or the Docs host anywhere. */
  predicate NamesGoogleHost(link: string)
  {
    Text.Contains(link, S.DriveHost) || Text.Contains(link, S.DocsHost)
  }

  /** The checks on the link value: a text, not blank once stripped, naming a Google host. */
  function LinkValue(v: Value): (r: Verdict)
    ensures r == Valid <==> v.Str? && Text.Strip(v.s) != [] && NamesGoogleHost(Text.Strip(v.s))
    ensures r == Raises <==> !v.Str?
    ensures v.Str? && Text.Strip(v.s) == [] ==> r == Invalid(LinkEmpty)
    ensures v.Str? && Text.Strip(v.s) != [] && !NamesGoogleHost(Text.Strip(v.s)) ==> r == Invalid(V.InvalidUrl)
  {
    if !v.Str? then Raises
    else
      var link := Text.Strip(v.s);
      if link == [] then Invalid(LinkEmpty)
      else if !NamesGoogleHost(link) then Invalid(V.InvalidUrl)
      else Valid
  }

  /** `DriveLinkSchema.validate`. */
  function ValidateDriveLink(data: Value): (r: Verdict)
    requires Body(data)
    ensures !Truthy(data) ==> r == Invalid(BodyRequired)
    ensures Truthy(data) && !Has(data, "drive_link") ==> r == Invalid(MissingMessage(["drive_link"]))
    ensures Truthy(data) && Has(data, "drive_link") ==> r == LinkValue(Get(data, "drive_link"))
  {
    if !Truthy(data) then Invalid(BodyRequired)
    else
      var missing := Missing(data, DriveRequired);
      MissingNone(data, DriveRequired);
      if missing != [] then
        assert missing == ["drive_link"] by {
          MissingMembers(data, DriveRequired, "drive_link");
        }
        Invalid(MissingMessage(missing))
      else LinkValue(Get(data, "drive_link"))
  }

  /** The middle part of a prefix occurs right after the first part. */
  lemma MiddleOccurs(url: string, a: string, b: string, c: string)
    requires Text.IsPrefix(a + b + c, url)
    ensures Text.Contains(url, b)
  {
    var p := a + b + c;
    assert url[|a|..|a| + |b|] == p[|a|..|a| + |b|] == b;
    assert Text.OccursAt(url, b, |a|);
    Text.ContainsAt(url, b);
  }

  /** A link whose stripped text the validation service's URL check accepts also passes the schema. */
  lemma AcceptedUrlPassesSchema(link: string)
    requires V.ValidateGoogleDriveUrl(Text.Strip(link)).None?
    ensures LinkValue(Str(link)) == Valid
  {
    var url := Text.Strip(link);
    var k :| 0 <= k < |S.DrivePrefixes| && S.MatchAt(url, S.DrivePrefixes[k], 0);
    assert Text.IsPrefix(S.DrivePrefixes[k], url);
    if k == 0 {
      MiddleOccurs(url, "https://", S.DriveHost, "/file/d/");
    } else if k == 1 {
      MiddleOccurs(url, "https://", S.DocsHost, "/document/d/");
    } else {
      MiddleOccurs(url, "https://", S.DriveHost, "/open?id=");
    }
  }

  /** The URL check refuses every text shorter than its shortest pattern. */
  lemma ShortUrlRefused(url: string)
    requires |url| < 32
    ensures V.ValidateGoogleDriveUrl(url).Some?
  {
    var p := S.DrivePrefixes;
    assert |p[0]| == 32 && |p[1]| == 35 && |p[2]| == 33;
  }

  /**
   * The schema only looks for a host name anywhere, the URL check for a whole pattern at the
   * start: an unpadded link naming a host in fewer than 32 characters (the bare text
   * `drive.google.com`, say) passes the schema and is refused by the URL check.
   */
  lemma ShortLinkPassesSchemaOnly(link: string)
    requires Text.Strip(link) == link && NamesGoogleHost(link) && |link| < 32
    ensures LinkValue(Str(link)) == Valid
    ensures V.ValidateGoogleDriveUrl(link).Some?
  {
    UnpaddedHostPasses(link);
    ShortUrlRefused(link);
  }

  /** An unpadded link naming a Google host passes the schema. */
  lemma UnpaddedHostPasses(link: string)
    requires Text.Strip(link) == link && NamesGoogleHost(link)
    ensures LinkValue(Str(link)) == Valid
  {
    if link == [] {
      NothingNamesHost();
      assert false;
    }
  }

  /** The empty text names no host. */
  lemma NothingNamesHost()
    ensures !NamesGoogleHost([])
  {
    assert !Text.IsPrefix(S.DriveHost, []) && !Text.IsPrefix(S.DocsHost, []);
  }
}
