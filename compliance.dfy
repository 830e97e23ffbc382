// The security service's deterministic parts: data retention periods and expiry, the guards
// around encryption and anonymisation, and the file security check.
module Compliance {
  import opened Wrappers
  import Text
  import V = ValidationService

  // ---------------------------------------------------------------- retention

  const SecondsPerDay := 86400

  /** The retention period of a data type, in seconds; unknown types keep data for a year. */
  function RetentionPeriod(dataType: string): (secs: nat)
    ensures dataType in {"submissions", "analysis_results", "audit_logs"} ==> secs == 2555 * SecondsPerDay
    ensures dataType == "user_sessions" ==> secs == 30 * SecondsPerDay
    ensures dataType == "report_exports" ==> secs == 7 * SecondsPerDay
    ensures dataType == "temp_files" ==> secs == 24 * 3600
    ensures dataType !in {"submissions", "analysis_results", "audit_logs", "user_sessions", "report_exports", "temp_files"}
      ==> secs == 365 * SecondsPerDay
  {
    match dataType
    case "submissions" => 2555 * SecondsPerDay
    case "analysis_results" => 2555 * SecondsPerDay
    case "audit_logs" => 2555 * SecondsPerDay
    case "user_sessions" => 30 * SecondsPerDay
    case "report_exports" => 7 * SecondsPerDay
    case "temp_files" => 24 * 3600
    case _ => 365 * SecondsPerDay
  }

  /** The result of the retention check; times are seconds on the UTC clock. */
  datatype RetentionStatus = RetentionStatus(isExpired: bool, expiresOn: int, retentionPeriodDays: nat)

  /** `validate_data_retention_policy` at time `now`; a period's `days` are whole days. */
  function RetentionCheck(dataType: string, createdDate: int, now: int): (r: RetentionStatus)
    ensures r.expiresOn == createdDate + RetentionPeriod(dataType)
    ensures r.isExpired <==> now > r.expiresOn
    ensures r.retentionPeriodDays * SecondsPerDay <= RetentionPeriod(dataType) < (r.retentionPeriodDays + 1) * SecondsPerDay
  {
    var period := RetentionPeriod(dataType);
    var expiry := createdDate + period;
    RetentionStatus(now > expiry, expiry, period / SecondsPerDay)
  }

  /** Once expired, data stays expired. */
  lemma ExpiryIsPermanent(dataType: string, createdDate: int, now: int, later: int)
    requires now <= later && RetentionCheck(dataType, createdDate, now).isExpired
    ensures RetentionCheck(dataType, createdDate, later).isExpired
  {
  }

  /** Data is never expired within a day of its creation, and temporary files last one day. */
  lemma EveryPeriodAtLeastADay(dataType: string, createdDate: int, now: int)
    requires createdDate <= now <= createdDate + SecondsPerDay
    ensures !RetentionCheck(dataType, createdDate, now).isExpired
    ensures RetentionCheck("temp_files", createdDate, now).retentionPeriodDays == 1
  {
  }

  /** Submissions, analysis results and audit logs are kept longest. */
  lemma RecordsKeptLongest(dataType: string)
    ensures RetentionPeriod(dataType) <= RetentionPeriod("submissions")
  {
  }

  // ---------------------------------------------------------------- encryption

  /** The Fernet suite, as its encrypt and decrypt functions; either can fail with an error. */
  datatype Cipher = Cipher(encrypt: string -> Result<string>, decrypt: string -> Result<string>)

  /** `encrypt_sensitive_data`: the input back without a cipher, for empty input, or on failure. */
  function Encrypt(cipher: Option<Cipher>, data: Option<string>): (r: Option<string>)
    ensures cipher.None? || !Truthy(data) ==> r == data
    ensures cipher.Some? && Truthy(data) ==>
      r == Some(if cipher.value.encrypt(data.value).Ok? then cipher.value.encrypt(data.value).value else data.value)
  {
    if cipher.None? || !Truthy(data) then data
    else match cipher.value.encrypt(data.value)
      case Ok(e) => Some(e)
      case Err(_) => data
  }

  /** `decrypt_sensitive_data`: the input back without a cipher, for empty input, or on failure. */
  function Decrypt(cipher: Option<Cipher>, data: Option<string>): (r: Option<string>)
    ensures cipher.None? || !Truthy(data) ==> r == data
    ensures cipher.Some? && Truthy(data) ==>
      r == Some(if cipher.value.decrypt(data.value).Ok? then cipher.value.decrypt(data.value).value else data.value)
  {
    if cipher.None? || !Truthy(data) then data
    else match cipher.value.decrypt(data.value)
      case Ok(d) => Some(d)
      case Err(_) => data
  }

  /** A suite whose encryption never fails, gives non-empty tokens, and decrypts them back. */
  ghost predicate Sound(c: Cipher)
  {
    forall x :: c.encrypt(x).Ok? && c.encrypt(x).value != "" && c.decrypt(c.encrypt(x).value) == Ok(x)
  }

  /** With a sound suite, or with none, decryption undoes encryption. */
  lemma DecryptUndoesEncrypt(cipher: Option<Cipher>, data: Option<string>)
    requires cipher.Some? ==> Sound(cipher.value)
    ensures Decrypt(cipher, Encrypt(cipher, data)) == data
  {
    if cipher.Some? && Truthy(data) {
      var c := cipher.value;
      assert c.encrypt(data.value).Ok? && c.encrypt(data.value).value != "";
      assert c.decrypt(c.encrypt(data.value).value) == Ok(data.value);
    }
  }

  // ---------------------------------------------------------------- anonymisation

  /**
   * `anonymize_text_for_processing`: empty or absent text comes back unchanged; otherwise the
   * redaction substitutions, given as `redact`, are applied.
   */
  function Anonymize(text: Option<string>, redact: string -> string): (r: Option<string>)
    ensures !Truthy(text) ==> r == text
    ensures Truthy(text) ==> r == Some(redact(text.value))
  {
    if !Truthy(text) then text else Some(redact(text.value))
  }

  // ---------------------------------------------------------------- file security

  /** Nothing but dots. */
  predicate AllDots(s: string)
  {
    forall i :: 0 <= i < |s| ==> s[i] == '.'
  }

  /** A suffix of a text without `c` has no `c` either. */
  lemma SuffixLacks(s: string, k: nat, c: char)
    requires k <= |s| && c !in s
    ensures c !in s[k..]
  {
  }

  /** The extension of a path component: from its last '.', unless only dots precede that. */
  function NameExt(base: string): (ext: string)
    ensures ext == [] || (ext[0] == '.' && ext[1..] == Text.AfterLast(base, '.'))
  {
    if '.' !in base then []
    else
      var tail := Text.AfterLast(base, '.');
      if AllDots(base[..|base| - |tail| - 1]) then [] else "." + tail
  }

  /** `os.path.splitext(path)[1]`: the extension of the last path component. */
  function SplitExt(path: string): (ext: string)
    ensures ext == [] || (ext[0] == '.' && '.' !in ext[1..] && '/' !in ext[1..])
  {
    var base := Text.AfterLast(path, '/');
    var ext := NameExt(base);
    if ext != [] then SuffixLacks(base, |base| - |ext| + 1, '/'); ext else ext
  }

  /** A name with a stem and one extension splits at its '.'. */
  lemma SplitExtOf(stem: string, ext: string)
    requires stem != [] && stem[0] != '.' && '/' !in stem && '.' !in ext && '/' !in ext
    ensures SplitExt(stem + "." + ext) == "." + ext
  {
    var path := stem + "." + ext;
    assert path == stem + ['.'] + ext;
    assert '/' !in path;
    Text.AfterLastOf(stem, '.', ext);
    assert path[..|path| - |ext| - 1] == stem;
    assert !AllDots(stem);
    assert NameExt(path) == "." + ext;
  }

  /** A dot file such as '.docx' has no extension. */
  lemma DotFileHasNoExt(ext: string)
    requires '.' !in ext && '/' !in ext
    ensures SplitExt("." + ext) == []
  {
    var path := "." + ext;
    assert path == [] + ['.'] + ext;
    assert '/' !in path;
    Text.AfterLastOf([], '.', ext);
    assert path[..|path| - |ext| - 1] == [];
    assert NameExt(path) == [];
  }

  const AllowedSuffixes: set<string> := {".docx", ".doc"}

  /** The extension, lower-cased, is one of the allowed suffixes. */
  predicate AllowedExt(ext: string)
  {
    Text.Lower(ext) in AllowedSuffixes
  }
  const TooLarge := "File too large"
  const Disallowed := "Disallowed file type"

  /**
   * `validate_file_security`: the size (or the error reading it) is checked against the
   * configured limit first, then the lower-cased extension. None means the file passes.
   */
  function ValidateFileSecurity(path: string, size: Result<nat>, configured: Option<nat>): (r: Option<string>)
    ensures size.Err? ==> r == Some("Security validation error: " + size.error)
    ensures size.Ok? && size.value > V.SizeLimit(None, configured) ==> r == Some(TooLarge)
    ensures size.Ok? && size.value <= V.SizeLimit(None, configured) ==>
      r == if AllowedExt(SplitExt(path)) then None else Some(Disallowed)
  {
    match size
    case Err(e) => Some("Security validation error: " + e)
    case Ok(n) =>
      if n > V.SizeLimit(None, configured) then Some(TooLarge)
      else if !AllowedExt(SplitExt(path)) then Some(Disallowed)
      else None
  }

  /** A name with a stem and a '.docx' or '.doc' extension, in any case, passes when small enough. */
  lemma DocumentPasses(stem: string, ext: string, size: nat, configured: Option<nat>)
    requires stem != [] && stem[0] != '.' && '/' !in stem
    requires '.' !in ext && '/' !in ext && Text.Lower(ext) in {"docx", "doc"}
    requires size <= V.SizeLimit(None, configured)
    ensures ValidateFileSecurity(stem + "." + ext, Ok(size), configured).None?
  {
    SplitExtOf(stem, ext);
    LowerDot(ext);
    DotSuffix(Text.Lower(ext));
  }

  /** The allowed suffixes are the allowed extensions behind a '.'. */
  lemma DotSuffix(x: string)
    ensures "." + x in AllowedSuffixes <==> x in {"docx", "doc"}
  {
    var d := "." + x;
    if d == ".docx" {
      assert x == d[1..] == ".docx"[1..];
    } else if d == ".doc" {
      assert x == d[1..] == ".doc"[1..];
    }
  }

  /** Lower-casing keeps the leading '.'. */
  lemma LowerDot(ext: string)
    ensures Text.Lower("." + ext) == "." + Text.Lower(ext)
  {
    var s := "." + ext;
    assert forall i :: 0 < i < |s| ==> s[i] == ext[i - 1];
  }

  /** A dot file such as '.docx' has no extension, so it is refused. */
  lemma HiddenFileRefused(ext: string, size: nat, configured: Option<nat>)
    requires '.' !in ext && '/' !in ext && size <= V.SizeLimit(None, configured)
    ensures ValidateFileSecurity("." + ext, Ok(size), configured) == Some(Disallowed)
  {
    DotFileHasNoExt(ext);
    NothingIsNotAllowed();
  }

  /** An empty extension is not an allowed one. */
  lemma NothingIsNotAllowed()
    ensures !AllowedExt([])
  {
    assert Text.Lower([]) == [];
    assert |".docx"| == 5 && |".doc"| == 4;
  }
}
