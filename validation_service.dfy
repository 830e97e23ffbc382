// The static checks of the validation service: file extension, MIME type, file size, e-mail
// address and Google Drive URL, each giving an error message when it fails.
module ValidationService {
  import opened Wrappers
  import Text
  import S = SubmissionService

  const AllowedMimeTypes: set<string> := {S.DocxMime, "application/msword", "application/vnd.google-apps.document"}

  // ---------------------------------------------------------------- extension

  const NoExtension := "No file extension found"

  /** `validate_file_extension`: None when accepted, else the error. */
  function ValidateFileExtension(filename: string): (r: Option<string>)
    ensures r.None? <==> S.ExtensionOk(filename)
    ensures '.' !in filename ==> r == Some(NoExtension)
    ensures '.' in filename && r.Some? ==>
      r.value == "Unsupported extension: ." + Text.Lower(Text.AfterLast(filename, '.'))
  {
    if '.' !in filename then Some(NoExtension)
    else
      var extension := Text.Lower(Text.AfterLast(filename, '.'));
      if extension !in S.AllowedExtensions then Some("Unsupported extension: ." + extension)
      else None
  }

  /** The extension check does not look at anything before the last '.'. */
  lemma ExtensionIsLastSuffix(name: string, ext: string)
    requires '.' !in ext
    ensures ValidateFileExtension(name + "." + ext).None? <==> Text.Lower(ext) in S.AllowedExtensions
  {
    var f := name + "." + ext;
    Text.AfterLastOf(name, '.', ext);
    assert '.' == f[|name|];
  }

  // ---------------------------------------------------------------- MIME type

  /** `validate_mime_type`: the detected type when allowed, else the error. */
  function ValidateMimeType(detected: Result<string>): (r: Result<string>)
    ensures r.Ok? <==> detected.Ok? && detected.value in AllowedMimeTypes
    ensures r.Ok? ==> r == detected
    ensures detected.Err? ==> r == Err("MIME type detection failed: " + detected.error)
    ensures detected.Ok? && r.Err? ==> r.error == "Unsupported MIME type: " + detected.value
  {
    match detected
    case Err(e) => Err("MIME type detection failed: " + e)
    case Ok(m) => if m !in AllowedMimeTypes then Err("Unsupported MIME type: " + m) else Ok(m)
  }

  // ---------------------------------------------------------------- size

  /** The limit used: the argument, else the configured `MAX_CONTENT_LENGTH`, else 50 MB. */
  function SizeLimit(maxSize: Option<nat>, configured: Option<nat>): (m: nat)
    ensures maxSize.Some? ==> m == maxSize.value
    ensures maxSize.None? && configured.Some? ==> m == configured.value
    ensures maxSize.None? && configured.None? ==> m == S.DefaultMaxSize
  {
    maxSize.GetOr(configured.GetOr(S.DefaultMaxSize))
  }

  /** `validate_file_size`: a size above the limit is refused; one equal to it passes. */
  function ValidateFileSize(size: nat, maxSize: Option<nat>, configured: Option<nat>): (r: Option<string>)
    ensures r.None? <==> size <= SizeLimit(maxSize, configured)
    ensures r.Some? ==>
      r.value == "File size (" + Text.NatToString(size) + " bytes) exceeds limit ("
        + Text.NatToString(SizeLimit(maxSize, configured)) + " bytes)"
  {
    var m := SizeLimit(maxSize, configured);
    if size > m then
      Some("File size (" + Text.NatToString(size) + " bytes) exceeds limit (" + Text.NatToString(m) + " bytes)")
    else None
  }

  /** Raising the limit never refuses a size that passed. */
  lemma SizeCheckMonotone(size: nat, m1: nat, m2: nat)
    requires m1 <= m2 && ValidateFileSize(size, Some(m1), None).None?
    ensures ValidateFileSize(size, Some(m2), None).None?
  {
  }

  // ---------------------------------------------------------------- e-mail

  const InvalidEmail := "Invalid email format"

  /** `[a-zA-Z0-9._%+-]` */
  predicate LocalChar(c: char)
  {
    Text.IsLetter(c) || Text.IsDigit(c) || c == '.' || c == '_' || c == '%' || c == '+' || c == '-'
  }

  /** `[a-zA-Z0-9.-]` */
  predicate DomainChar(c: char)
  {
    Text.IsLetter(c) || Text.IsDigit(c) || c == '.' || c == '-'
  }

  /** `[a-zA-Z0-9._%+-]+`: the part before the '@'. */
  predicate LocalPart(l: string)
  {
    l != [] && forall i :: 0 <= i < |l| ==> LocalChar(l[i])
  }

  /** `[a-zA-Z0-9.-]+\.[a-zA-Z]{2,}`: a name, a '.', and at least two letters. */
  predicate DomainPart(d: string)
  {
    '.' in d
    && var tld := Text.AfterLast(d, '.');
       var name := d[..|d| - |tld| - 1];
       name != [] && (forall i :: 0 <= i < |name| ==> DomainChar(name[i]))
       && |tld| >= 2 && forall i :: 0 <= i < |tld| ==> Text.IsLetter(tld[i])
  }

  /**
   * The whole text matches `[a-zA-Z0-9._%+-]+@[a-zA-Z0-9.-]+\.[a-zA-Z]{2,}`. Neither part may
   * hold an '@', so the address splits at its last '@'; the letters after the final '.' of the
   * domain are the `{2,}` run, since the other '.' characters belong to the domain name.
   */
  predicate FullMatch(e: string)
  {
    '@' in e
    && var d := Text.AfterLast(e, '@');
       LocalPart(e[..|e| - |d| - 1]) && DomainPart(d)
  }

  /**
   * What `re.match` with the pattern anchored by `^` and `$` accepts: Python's `$` also
   * matches just before a final newline, so one trailing '\n' is let through.
   */
  predicate EmailMatchesAsWritten(e: string)
  {
    FullMatch(e) || (e != [] && e[|e| - 1] == '\n' && FullMatch(e[..|e| - 1]))
  }

  /** A valid address followed by a newline passes the pattern as written but is not an address. */
  lemma TrailingNewlineAccepted(e: string)
    requires FullMatch(e)
    ensures EmailMatchesAsWritten(e + "\n")
    ensures !FullMatch(e + "\n")
  {
    var f := e + "\n";
    assert f[..|f| - 1] == e;
    if FullMatch(f) {
      MatchShape(f);
      assert false;
    }
  }

  /** A domain name, '.' and two or more letters make a domain. */
  lemma DomainOfParts(name: string, tld: string)
    requires name != [] && forall i :: 0 <= i < |name| ==> DomainChar(name[i])
    requires |tld| >= 2 && forall i :: 0 <= i < |tld| ==> Text.IsLetter(tld[i])
    ensures DomainPart(name + "." + tld)
  {
    var d := name + "." + tld;
    assert d == name + ['.'] + tld;
    Text.AfterLastOf(name, '.', tld);
    assert d[..|d| - |tld| - 1] == name;
  }

  /** A domain holds no '@'. */
  lemma DomainHasNoAt(d: string)
    requires DomainPart(d)
    ensures '@' !in d
  {
    var tld := Text.AfterLast(d, '.');
    var name := d[..|d| - |tld| - 1];
    assert d == name + ['.'] + tld;
  }

  /** A local part, '@' and a domain make a matching address. */
  lemma AddressOf(local: string, d: string)
    requires LocalPart(local) && DomainPart(d)
    ensures FullMatch(local + "@" + d)
  {
    var e := local + "@" + d;
    assert e[..|local|] == local;
    assert e[|local| + 1..] == d;
    FullMatchAt(e, |local|);
  }

  /** An '@' with a local part before it and a domain after it makes a matching address. */
  lemma FullMatchAt(e: string, p: int)
    requires 0 <= p < |e| && e[p] == '@'
    requires LocalPart(e[..p]) && DomainPart(e[p + 1..])
    ensures FullMatch(e)
  {
    var d := e[p + 1..];
    DomainHasNoAt(d);
    assert e == e[..p] + ['@'] + d;
    Text.AfterLastOf(e[..p], '@', d);
  }


  /** An address made of a local part, '@', a domain name, '.' and two or more letters matches. */
  lemma AddressOfParts(local: string, name: string, tld: string)
    requires LocalPart(local) && name != [] && forall i :: 0 <= i < |name| ==> DomainChar(name[i])
    requires |tld| >= 2 && forall i :: 0 <= i < |tld| ==> Text.IsLetter(tld[i])
    ensures FullMatch(local + "@" + (name + "." + tld))
  {
    DomainOfParts(name, tld);
    AddressOf(local, name + "." + tld);
  }

  /** A matching address is at least `a@b.cd` long, has one '@', and ends in a letter. */
  lemma MatchShape(e: string)
    requires FullMatch(e)
    ensures |e| >= 6 && Text.IsLetter(e[|e| - 1])
    ensures forall i, j :: 0 <= i < j < |e| && e[i] == '@' ==> e[j] != '@'
  {
    var p := |e| - |Text.AfterLast(e, '@')| - 1;
    assert |e| >= 6 && Text.IsLetter(e[|e| - 1]) by {
      var d := Text.AfterLast(e, '@');
      DomainShape(d);
      assert e[|e| - 1] == d[|d| - 1];
    }
    assert forall k :: 0 <= k < |e| && k != p ==> e[k] != '@' by {
      AtOnlyBeforeDomain(e, p);
    }
  }

  /** An address has its '@' only where the domain starts: not in the local part, not after. */
  lemma AtOnlyBeforeDomain(e: string, p: int)
    requires '@' in e && p == |e| - |Text.AfterLast(e, '@')| - 1
    requires LocalPart(e[..p])
    ensures forall k :: 0 <= k < |e| && k != p ==> e[k] != '@'
  {
    var d := Text.AfterLast(e, '@');
    forall k | p < k < |e|
      ensures e[k] != '@'
    {
      assert e[k] == d[k - p - 1];
    }
    forall k | 0 <= k < p
      ensures e[k] != '@'
    {
      assert e[k] == e[..p][k];
    }
  }

  /** A domain has at least four characters and ends in a letter. */
  lemma DomainShape(d: string)
    requires DomainPart(d)
    ensures |d| >= 4 && Text.IsLetter(d[|d| - 1])
  {
    var tld := Text.AfterLast(d, '.');
    assert d[|d| - 1] == tld[|tld| - 1];
  }


  /** `validate_email`: an absent or empty address passes (it is optional); otherwise it must match. */
  function ValidateEmail(email: Option<string>): (r: Option<string>)
    ensures r.None? <==> !Truthy(email) || FullMatch(email.value)
    ensures r.Some? ==> r.value == InvalidEmail
  {
    if !Truthy(email) then None
    else if FullMatch(email.value) then None
    else Some(InvalidEmail)
  }

  // ---------------------------------------------------------------- Drive URL

  const InvalidUrl := "Invalid Google Drive URL format"

  /** `validate_google_drive_url`: one of the patterns matches at the start; anything may follow. */
  function ValidateGoogleDriveUrl(url: string): (r: Option<string>)
    ensures r.None? <==> exists k :: 0 <= k < |S.DrivePrefixes| && S.MatchAt(url, S.DrivePrefixes[k], 0)
    ensures r.Some? ==> r.value == InvalidUrl
  {
    if S.MatchAt(url, S.DrivePrefixes[0], 0) || S.MatchAt(url, S.DrivePrefixes[1], 0)
       || S.MatchAt(url, S.DrivePrefixes[2], 0)
    then None
    else Some(InvalidUrl)
  }

  /** Every URL this check accepts also yields a file id from the service's link check. */
  lemma AcceptedUrlHasId(url: string)
    requires ValidateGoogleDriveUrl(url).None?
    ensures exists k :: 0 <= k < |S.DrivePrefixes| && S.Search(url, S.DrivePrefixes[k]).Some?
  {
    var k :| 0 <= k < |S.DrivePrefixes| && S.MatchAt(url, S.DrivePrefixes[k], 0);
    assert S.Search(url, S.DrivePrefixes[k]).Some?;
  }

  /** A link made of a pattern, an id and any tail is accepted. */
  lemma LinkOfIdAccepted(k: nat, id: string, rest: string)
    requires k < |S.DrivePrefixes| && id != [] && S.IdChar(id[0])
    ensures ValidateGoogleDriveUrl(S.DrivePrefixes[k] + id + rest).None?
  {
    var p := S.DrivePrefixes[k];
    var url := p + id + rest;
    assert url[0..|p|] == p;
    assert url[|p|] == id[0];
    assert S.MatchAt(url, p, 0);
  }
}
