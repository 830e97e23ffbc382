// The submission service: the checks an uploaded file must pass, the file id of a Google
// Drive link, and the duplicate check before a new submission is stored.
module SubmissionService {
  import opened Wrappers
  import Text

  // ---------------------------------------------------------------- file checks

  const AllowedExtensions: set<string> := {"docx", "doc"}

  const DocxMime := "application/vnd.openxmlformats-officedocument.wordprocessingml.document"
  const ZipMime := "application/zip"

  /** The MIME types this copy accepts: the document types and, since DOCX is a ZIP archive, ZIP. */
  const AllowedMimeTypes: set<string> := {DocxMime, "application/msword", "application/vnd.google-apps.document", ZipMime}

  /** The `MAX_CONTENT_LENGTH` default, 50 MB. */
  const DefaultMaxSize := 52428800

  /** The name has a '.' and the lower-cased text after the last one is an allowed extension. */
  predicate ExtensionOk(filename: string)
  {
    '.' in filename && Text.Lower(Text.AfterLast(filename, '.')) in AllowedExtensions
  }

  function SizeError(maxSize: nat): string
  {
    "File size exceeds maximum limit of " + Text.NatToString(maxSize / 1048576) + "MB"
  }

  const ExtensionError := "Unsupported file type. " + "Only DOCX and DOC files are allowed."

  function MimeError(mime: string): string
  {
    "Invalid file format. Detected: " + mime
  }

  /**
   * Whether the MIME check rejects the file: the type was detected (a failed detection is
   * skipped), is not allowed, and is not a ZIP archive with a '.docx' name.
   */
  predicate MimeRejected(mime: Result<string>, filename: string)
  {
    mime.Ok? && mime.value !in AllowedMimeTypes && !(mime.value == ZipMime && Text.EndsWith(filename, ".docx"))
  }

  /** The ZIP exemption never applies: ZIP is already an allowed type. */
  lemma ZipExemptionIsRedundant(mime: Result<string>, filename: string)
    ensures MimeRejected(mime, filename) <==> mime.Ok? && mime.value !in AllowedMimeTypes
  {
  }

  /**
   * `validate_file`: the size, extension and MIME checks in that order, each adding its
   * message. `filename` is the name after `secure_filename`; `mime` is what detection gives.
   */
  method ValidateFile(size: nat, maxSize: nat, filename: string, mime: Result<string>) returns (errors: seq<string>)
    ensures SizeError(maxSize) in errors <==> size > maxSize
    ensures ExtensionError in errors <==> !ExtensionOk(filename)
    ensures MimeRejected(mime, filename) <==> mime.Ok? && MimeError(mime.value) in errors
    ensures errors == [] <==> size <= maxSize && ExtensionOk(filename) && !MimeRejected(mime, filename)
    ensures size > maxSize ==> errors[0] == SizeError(maxSize)
    ensures MimeRejected(mime, filename) ==> errors[|errors| - 1] == MimeError(mime.value)
    ensures |errors| <= 3
    ensures errors == (if size > maxSize then [SizeError(maxSize)] else [])
                      + (if ExtensionOk(filename) then [] else [ExtensionError])
                      + (if MimeRejected(mime, filename) then [MimeError(mime.value)] else [])
  {
    MessagesDiffer(maxSize, mime);
    errors := [];
    if size > maxSize {
      errors := errors + [SizeError(maxSize)];
    }
    if !ExtensionOk(filename) {
      errors := errors + [ExtensionError];
    }
    if mime.Ok? {
      if mime.value !in AllowedMimeTypes {
        if mime.value == ZipMime && Text.EndsWith(filename, ".docx") {
        } else {
          errors := errors + [MimeError(mime.value)];
        }
      }
    }
  }

  /** The three messages are different texts. */
  lemma MessagesDiffer(maxSize: nat, mime: Result<string>)
    ensures SizeError(maxSize) != ExtensionError
    ensures mime.Ok? ==> MimeError(mime.value) != ExtensionError && MimeError(mime.value) != SizeError(maxSize)
  {
    assert SizeError(maxSize)[0] == 'F';
    assert ExtensionError[0] == 'U';
    if mime.Ok? {
      assert MimeError(mime.value)[0] == 'I';
    }
  }

  // ---------------------------------------------------------------- Drive links

  /** A character of `[a-zA-Z0-9-_]`. */
  predicate IdChar(c: char)
  {
    Text.IsLetter(c) || Text.IsDigit(c) || c == '-' || c == '_'
  }

  /** The longest run of id characters at the start of `s` (the greedy `+`). */
  function IdRun(s: string): (r: string)
    ensures |r| <= |s| && r == s[..|r|]
    ensures forall i :: 0 <= i < |r| ==> IdChar(r[i])
    ensures |r| < |s| ==> !IdChar(s[|r|])
  {
    if s != [] && IdChar(s[0]) then
      var r := [s[0]] + IdRun(s[1..]);
      assert s[..|r|] == [s[0]] + s[1..][..|r| - 1];
      r
    else []
  }

  const DriveHost := "drive.google.com"
  const DocsHost := "docs.google.com"

  /** The text each of the three patterns matches before its id group. */
  const DrivePrefixes: seq<string> := [
    "https://" + DriveHost + "/file/d/",
    "https://" + DocsHost + "/document/d/",
    "https://" + DriveHost + "/open?id="]

  const InvalidLink := "Invalid Google Drive link format"

  /** The pattern matches at `i`: its prefix occurs there and at least one id character follows. */
  predicate MatchAt(link: string, prefix: string, i: int)
  {
    Text.OccursAt(link, prefix, i) && i + |prefix| < |link| && IdChar(link[i + |prefix|])
  }

  /** The leftmost match at or after `from`, as `re.search` finds it. */
  function FirstMatchFrom(link: string, prefix: string, from: nat): (r: Option<nat>)
    ensures r.Some? ==>
      from <= r.value && MatchAt(link, prefix, r.value)
      && forall j :: from <= j < r.value ==> !MatchAt(link, prefix, j)
    ensures r.None? ==> forall j :: from <= j ==> !MatchAt(link, prefix, j)
    decreases |link| - from
  {
    if from + |prefix| >= |link| then None
    else if MatchAt(link, prefix, from) then Some(from)
    else FirstMatchFrom(link, prefix, from + 1)
  }

  /** `re.search(pattern, link).group(1)`: the id after the leftmost match, if any. */
  function Search(link: string, prefix: string): (r: Option<string>)
    ensures r.None? <==> forall j :: 0 <= j ==> !MatchAt(link, prefix, j)
    ensures r.Some? ==>
      exists i ::
        0 <= i && MatchAt(link, prefix, i)
        && (forall j :: 0 <= j < i ==> !MatchAt(link, prefix, j))
        && r.value == IdRun(link[i + |prefix|..])
    ensures r.Some? ==> r.value != [] && forall k :: 0 <= k < |r.value| ==> IdChar(r.value[k])
  {
    match FirstMatchFrom(link, prefix, 0)
    case None => None
    case Some(i) => Some(IdRun(link[i + |prefix|..]))
  }

  /** The run of an id followed by a non-id character is that id. */
  lemma {:induction false} IdRunOf(id: string, rest: string)
    requires forall k :: 0 <= k < |id| ==> IdChar(id[k])
    requires rest == [] || !IdChar(rest[0])
    ensures IdRun(id + rest) == id
  {
    if id != [] {
      assert (id + rest)[1..] == id[1..] + rest;
      IdRunOf(id[1..], rest);
    } else {
      assert id + rest == rest;
    }
  }

  /** A link made of a pattern's prefix, an id and a tail that does not extend it gives back the id. */
  lemma SearchFindsId(prefix: string, id: string, rest: string)
    requires id != [] && forall k :: 0 <= k < |id| ==> IdChar(id[k])
    requires rest == [] || !IdChar(rest[0])
    ensures Search(prefix + id + rest, prefix) == Some(id)
  {
    var link := prefix + id + rest;
    assert link[0..|prefix|] == prefix;
    assert link[|prefix|] == id[0];
    assert MatchAt(link, prefix, 0);
    assert link[|prefix|..] == id + rest;
    IdRunOf(id, rest);
  }

  /**
   * `validate_drive_link`: the id from the first of the three patterns that matches anywhere
   * in the link, or the format error when none does.
   */
  method ValidateDriveLink(link: string) returns (id: Option<string>, error: Option<string>)
    ensures id.Some? <==> error.None?
    ensures error.Some? ==> error.value == InvalidLink && forall k :: 0 <= k < |DrivePrefixes| ==> Search(link, DrivePrefixes[k]).None?
    ensures id.Some? ==>
      exists k ::
        0 <= k < |DrivePrefixes| && id == Search(link, DrivePrefixes[k])
        && forall j :: 0 <= j < k ==> Search(link, DrivePrefixes[j]).None?
  {
    for k := 0 to |DrivePrefixes|
      invariant forall j :: 0 <= j < k ==> Search(link, DrivePrefixes[j]).None?
    {
      var found := Search(link, DrivePrefixes[k]);
      if found.Some? {
        return found, None;
      }
    }
    return None, Some(InvalidLink);
  }

  // ---------------------------------------------------------------- duplicates

  /** The columns of a stored submission the duplicate check filters on. */
  datatype StoredSubmission = StoredSubmission(
    fileHash: Option<string>,
    googleDriveLink: Option<string>,
    professorId: string,
    deadlineId: Option<string>)

  /** The professor and deadline filters, each applied only when its argument is truthy. */
  predicate InScope(s: StoredSubmission, professorId: Option<string>, deadlineId: Option<string>)
  {
    (!Truthy(professorId) || s.professorId == professorId.value)
    && (!Truthy(deadlineId) || s.deadlineId == deadlineId)
  }

  predicate DriveMatch(s: StoredSubmission, link: string, professorId: Option<string>, deadlineId: Option<string>)
  {
    s.googleDriveLink == Some(link) && InScope(s, professorId, deadlineId)
  }

  predicate HashMatch(s: StoredSubmission, hash: string, professorId: Option<string>, deadlineId: Option<string>)
  {
    s.fileHash == Some(hash) && InScope(s, professorId, deadlineId)
  }

  /** `query.first()`: the index of the first row that passes the filter. */
  function First(rows: seq<StoredSubmission>, keep: StoredSubmission -> bool): (r: Option<nat>)
    ensures r.Some? ==> r.value < |rows| && keep(rows[r.value]) && forall j :: 0 <= j < r.value ==> !keep(rows[j])
    ensures r.None? ==> forall j :: 0 <= j < |rows| ==> !keep(rows[j])
  {
    if rows == [] then None
    else if keep(rows[0]) then Some(0)
    else match First(rows[1..], keep)
      case None =>
        assert forall j :: 1 <= j < |rows| ==> rows[j] == rows[1..][j - 1];
        None
      case Some(i) =>
        assert forall j :: 1 <= j <= i + 1 ==> rows[j] == rows[1..][j - 1];
        Some(i + 1)
  }

  /** The first stored submission with the same Drive link, in scope. */
  function FirstDrive(rows: seq<StoredSubmission>, link: string, professorId: Option<string>, deadlineId: Option<string>)
    : Option<nat>
  {
    First(rows, s => DriveMatch(s, link, professorId, deadlineId))
  }

  /** The first stored submission with the same hash, in scope. */
  function FirstHash(rows: seq<StoredSubmission>, hash: string, professorId: Option<string>, deadlineId: Option<string>)
    : Option<nat>
  {
    First(rows, s => HashMatch(s, hash, professorId, deadlineId))
  }

  /**
   * `check_duplicate_submission`: the Drive-link match when a truthy link finds one, else the
   * hash match when a truthy hash finds one, else (False, None).
   */
  function CheckDuplicate(rows: seq<StoredSubmission>, fileHash: Option<string>, driveLink: Option<string>,
                          professorId: Option<string>, deadlineId: Option<string>)
    : (r: (bool, Option<StoredSubmission>))
    ensures r.0 <==> r.1.Some?
    ensures !Truthy(fileHash) && !Truthy(driveLink) ==> r == (false, None)
    ensures Truthy(driveLink) && FirstDrive(rows, driveLink.value, professorId, deadlineId).Some? ==>
      r.1 == Some(rows[FirstDrive(rows, driveLink.value, professorId, deadlineId).value])
    ensures r.1.Some? ==>
      (Truthy(driveLink) && DriveMatch(r.1.value, driveLink.value, professorId, deadlineId))
      || (Truthy(fileHash) && HashMatch(r.1.value, fileHash.value, professorId, deadlineId))
    ensures r.1.None? ==>
      (Truthy(driveLink) ==> forall j :: 0 <= j < |rows| ==> !DriveMatch(rows[j], driveLink.value, professorId, deadlineId))
      && (Truthy(fileHash) ==> forall j :: 0 <= j < |rows| ==> !HashMatch(rows[j], fileHash.value, professorId, deadlineId))
  {
    var byDrive := if Truthy(driveLink) then FirstDrive(rows, driveLink.value, professorId, deadlineId) else None;
    if byDrive.Some? then (true, Some(rows[byDrive.value]))
    else
      var byHash := if Truthy(fileHash) then FirstHash(rows, fileHash.value, professorId, deadlineId) else None;
      if byHash.Some? then (true, Some(rows[byHash.value]))
      else (false, None)
  }
}
