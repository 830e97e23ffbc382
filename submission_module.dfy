// The upload module's own checks: its copy of the file check, the submission token a student's
// link carries, the minimum content of a readable document, and the folder a deadline's files
// are stored under.
module SubmissionModule {
  import opened Wrappers
  import opened Base
  import Text
  import S = SubmissionService
  import SubmissionModel
  import Store

  // ---------------------------------------------------------------- file check

  /** The MIME types this copy accepts: the three document types, without ZIP. */
  const ModuleMimeTypes: set<string> := {S.DocxMime, "application/msword", "application/vnd.google-apps.document"}

  /** Whether this copy's MIME check rejects the file: the type was detected and is not allowed. */
  predicate MimeRejected(mime: Result<string>)
  {
    mime.Ok? && mime.value !in ModuleMimeTypes
  }

  /** The two copies disagree only on a detected ZIP archive, which this one rejects. */
  lemma CopiesDifferOnZip(mime: Result<string>, filename: string)
    ensures MimeRejected(mime) <==> S.MimeRejected(mime, filename) || mime == Ok(S.ZipMime)
  {
    S.ZipExemptionIsRedundant(mime, filename);
  }

  /**
   * `validate_file`: the size, extension and MIME checks in that order, with the service's
   * messages. `filename` is the name after `secure_filename`; `mime` is what detection gives.
   */
  method ValidateFile(size: nat, maxSize: nat, filename: string, mime: Result<string>) returns (errors: seq<string>)
    ensures S.SizeError(maxSize) in errors <==> size > maxSize
    ensures S.ExtensionError in errors <==> !S.ExtensionOk(filename)
    ensures MimeRejected(mime) <==> mime.Ok? && S.MimeError(mime.value) in errors
    ensures errors == [] <==> size <= maxSize && S.ExtensionOk(filename) && !MimeRejected(mime)
    ensures size > maxSize ==> errors[0] == S.SizeError(maxSize)
    ensures MimeRejected(mime) ==> errors[|errors| - 1] == S.MimeError(mime.value)
    ensures |errors| <= 3
    ensures errors == (if size > maxSize then [S.SizeError(maxSize)] else [])
                      + (if S.ExtensionOk(filename) then [] else [S.ExtensionError])
                      + (if MimeRejected(mime) then [S.MimeError(mime.value)] else [])
  {
    S.MessagesDiffer(maxSize, mime);
    errors := [];
    if size > maxSize {
      errors := errors + [S.SizeError(maxSize)];
    }
    if !S.ExtensionOk(filename) {
      errors := errors + [S.ExtensionError];
    }
    if mime.Ok? && mime.value !in ModuleMimeTypes {
      errors := errors + [S.MimeError(mime.value)];
    }
  }

  // ---------------------------------------------------------------- submission tokens

  /** A `submission_tokens` row: the validity fields, the owner and the optional deadline. */
  datatype TokenRow = TokenRow(
    record: SubmissionModel.SubmissionToken,
    professorId: string,
    deadlineId: Option<string>)

  /** The token handed back, with the deadline's title and time when its deadline exists. */
  datatype TokenView = TokenView(
    row: TokenRow,
    deadlineTitle: Option<string>,
    deadlineDatetime: Option<DateTime>)

  const NoToken := "No submission token provided"
  const InvalidToken := "Invalid submission token"
  const ExpiredToken := "Submission token has expired " + "or reached usage limit"

  /** The row after one more use. */
  function Used(row: TokenRow): (r: TokenRow)
    ensures r.record.usageCount == row.record.usageCount + 1
    ensures r.record == row.record.(usageCount := r.record.usageCount)
    ensures r.professorId == row.professorId && r.deadlineId == row.deadlineId
  {
    row.(record := row.record.(usageCount := row.record.usageCount + 1))
  }

  /** A limited token has not been used more often than its limit. */
  predicate WithinLimit(row: TokenRow)
  {
    SubmissionModel.Limited(row.record) ==> row.record.usageCount <= row.record.maxUsage.value
  }

  /** A use the check lets through keeps the token within its limit. */
  lemma UseKeepsLimit(row: TokenRow, now: int)
    requires SubmissionModel.IsValid(row.record, now)
    ensures WithinLimit(Used(row))
  {
  }

  /** The use that reaches a token's limit is the last one that passes. */
  lemma LastUseExhausts(row: TokenRow, now: int)
    requires SubmissionModel.IsValid(row.record, now) && SubmissionModel.Limited(row.record)
    requires row.record.usageCount + 1 == row.record.maxUsage.value
    ensures !SubmissionModel.IsValid(Used(row).record, now)
  {
  }

  /** The deadline a token names, when the id is set, non-empty and found. */
  function DeadlineOf(row: TokenRow, deadlines: map<string, Store.Deadline>): (d: Option<Store.Deadline>)
    ensures d.Some? <==> row.deadlineId.Some? && row.deadlineId.value != "" && row.deadlineId.value in deadlines
    ensures d.Some? ==> d.value == deadlines[row.deadlineId.value]
  {
    if row.deadlineId.Some? && row.deadlineId.value != "" && row.deadlineId.value in deadlines then
      Some(deadlines[row.deadlineId.value])
    else None
  }

  /** The `submission_tokens` table, keyed by the token text (the column is unique). */
  class TokenTable {
    var tokens: map<string, TokenRow>

    constructor (rows: map<string, TokenRow>)
      ensures tokens == rows
    {
      tokens := rows;
    }

    /**
     * `validate_submission_token`: a missing or empty token, an unknown one and one that is no
     * longer valid at `now` are refused, in that order, and change nothing; otherwise the token
     * is used once and handed back with its deadline's title and time.
     */
    method ValidateSubmissionToken(token: Option<string>, deadlines: map<string, Store.Deadline>, now: int)
      returns (r: Result<TokenView>)
      modifies this`tokens
      ensures token.None? || token.value == "" ==> r == Err(NoToken) && tokens == old(tokens)
      ensures token.Some? && token.value != "" && token.value !in old(tokens) ==>
        r == Err(InvalidToken) && tokens == old(tokens)
      ensures token.Some? && token.value != "" && token.value in old(tokens) ==>
        !SubmissionModel.IsValid(old(tokens)[token.value].record, now) ==>
          r == Err(ExpiredToken) && tokens == old(tokens)
      ensures r.Ok? <==>
        token.Some? && token.value != "" && token.value in old(tokens) && SubmissionModel.IsValid(old(tokens)[token.value].record, now)
      ensures r.Ok? ==>
        tokens == old(tokens)[token.value := Used(old(tokens)[token.value])]
        && r.value.row == Used(old(tokens)[token.value])
        && var d := DeadlineOf(old(tokens)[token.value], deadlines);
           r.value.deadlineTitle == (if d.Some? then Some(d.value.title) else None)
           && r.value.deadlineDatetime == (if d.Some? then Some(d.value.deadlineDatetime) else None)
      ensures forall t :: t in old(tokens) && WithinLimit(old(tokens)[t]) ==> t in tokens && WithinLimit(tokens[t])
    {
      if token.None? || token.value == "" {
        return Err(NoToken);
      }
      var t := token.value;
      if t !in tokens {
        return Err(InvalidToken);
      }
      var row := tokens[t];
      if !SubmissionModel.IsValid(row.record, now) {
        return Err(ExpiredToken);
      }
      var title: Option<string> := None;
      var when: Option<DateTime> := None;
      var d := DeadlineOf(row, deadlines);
      if d.Some? {
        title := Some(d.value.title);
        when := Some(d.value.deadlineDatetime);
      }
      UseKeepsLimit(row, now);
      var used := Used(row);
      tokens := tokens[t := used];
      r := Ok(TokenView(used, title, when));
    }
  }

  // ---------------------------------------------------------------- document content

  const InsufficientContent := "Document appears to be empty " + "or has insufficient content"

  /** The minimum number of characters left after stripping. */
  const MinContent := 10

  /** `not test_text or len(test_text.strip()) < 10` fails: the text must strip to 10 characters. */
  predicate HasContent(text: Option<string>)
  {
    text.Some? && |Text.Strip(text.value)| >= MinContent
  }

  /** Text that is blank, or shorter than 10 characters before stripping, is refused. */
  lemma ShortOrBlankRefused(text: string)
    requires |text| < MinContent || Text.AllSpace(text)
    ensures !HasContent(Some(text))
  {
  }

  /** Text of 10 or more characters with no whitespace at either end is accepted as it is. */
  lemma {:induction false} UnpaddedAccepted(text: string)
    requires |text| >= MinContent && !Text.IsSpace(text[0]) && !Text.IsSpace(text[|text| - 1])
    ensures HasContent(Some(text))
  {
    assert Text.LStrip(text) == text;
    assert Text.RStrip(text) == text;
  }

  // ---------------------------------------------------------------- deadline folders

  /** The characters `<>:"/\|?*` a folder name may not hold. */
  const Forbidden: set<char> := {'<', '>', ':', '"', '/', '\\', '|', '?', '*'}

  /** The longest folder name kept. */
  const MaxFolderName := 100

  /** Every forbidden character replaced by '_'. */
  function Sanitised(title: string): (r: string)
    ensures |r| == |title|
    ensures forall i :: 0 <= i < |r| ==> r[i] == (if title[i] in Forbidden then '_' else title[i])
  {
    seq(|title|, i requires 0 <= i < |title| => if title[i] in Forbidden then '_' else title[i])
  }

  /** Every character of `s` is allowed in a folder and comes from `title` or is '_'. */
  predicate FolderChars(s: string, title: string)
  {
    forall i :: 0 <= i < |s| ==> s[i] !in Forbidden && (s[i] in title || s[i] == '_')
  }

  lemma SanitisedChars(title: string)
    ensures FolderChars(Sanitised(title), title)
  {
    var r := Sanitised(title);
    forall i | 0 <= i < |r|
      ensures r[i] !in Forbidden && (r[i] in title || r[i] == '_')
    {
      if title[i] !in Forbidden {
        assert r[i] == title[i];
      }
    }
  }

  /** Stripping and cutting keep the characters allowed. */
  lemma {:induction false} SliceChars(s: string, title: string, k: nat, n: nat)
    requires FolderChars(s, title) && k + n <= |s|
    ensures FolderChars(s[k..k + n], title)
  {
    var t := s[k..k + n];
    forall i | 0 <= i < |t|
      ensures t[i] !in Forbidden && (t[i] in title || t[i] == '_')
    {
      assert t[i] == s[k + i];
    }
  }

  /** The first 100 characters. */
  function Cut(s: string): (r: string)
    ensures |r| <= MaxFolderName && |r| <= |s| && r == s[..|r|]
    ensures |s| <= MaxFolderName ==> r == s
  {
    if |s| <= MaxFolderName then s else s[..MaxFolderName]
  }

  /**
   * The folder for a deadline's files: the title with forbidden characters replaced by '_',
   * stripped, and cut to 100 characters.
   */
  function FolderName(title: string): (r: string)
    ensures |r| <= MaxFolderName
  {
    Cut(Text.Strip(Sanitised(title)))
  }

  /** A folder name holds no forbidden character, and only characters of the title or '_'. */
  lemma FolderNameChars(title: string)
    ensures FolderChars(FolderName(title), title)
  {
    var clean := Sanitised(title);
    var stripped := Text.Strip(clean);
    SanitisedChars(title);
    Text.StripSlice(clean);
    SliceChars(clean, title, Text.StripStart(clean), |stripped|);
    SliceChars(stripped, title, 0, |Cut(stripped)|);
    assert Cut(stripped) == stripped[0..|Cut(stripped)|];
  }

  /** A title that is already a valid folder name is kept unchanged. */
  lemma {:induction false} CleanTitleKept(title: string)
    requires |title| <= MaxFolderName
    requires forall i :: 0 <= i < |title| ==> title[i] !in Forbidden
    requires title != [] ==> !Text.IsSpace(title[0]) && !Text.IsSpace(title[|title| - 1])
    ensures FolderName(title) == title
  {
    assert Sanitised(title) == title;
    assert Text.LStrip(title) == title;
    assert Text.RStrip(title) == title;
  }
}
