// The live metadata service: the three-layer metadata merge, content statistics, the
// (disabled) completeness validator, the snapshot table and the preliminary report's verdict.
module MetadataService {
  import opened Wrappers
  import opened PyMath
  import opened AnalysisModels
  import Text

  const Unavailable: string := "Unavailable"
  const PlaceholderEditor: string := "python-docx"
  /** The configured `MIN_DOCUMENT_WORDS` and `MAX_DOCUMENT_WORDS` defaults. */
  const DefaultMinWords: nat := 50
  const DefaultMaxWords: nat := 15000
  const WordsPerPage: nat := 250

  // ---------------------------------------------------------------- the three layers

  /**
   * What python-docx reports as core properties. Dates are already rendered by `isoformat()`.
   * `revision` is the value of `int(core_props.revision)`, or None when that raises.
   */
  datatype CoreProps = CoreProps(
    author: Option<string>,
    created: Option<string>,
    modified: Option<string>,
    lastModifiedBy: Option<string>,
    revision: Option<int>)

  /** One element of an `ElementTree` walk (`root.iter()` order): its tag and its text. */
  datatype XmlElem = XmlElem(tag: string, text: Option<string>)

  /** A `docProps` XML part (`app.xml` or `core.xml`): absent from the archive, not parseable, or its elements. */
  datatype XmlPart = Missing | Malformed | Parsed(elems: seq<XmlElem>)

  /** The archive as `zipfile` sees it; `readable` is false when it cannot be opened. */
  datatype Package = Package(readable: bool, app: XmlPart, core: XmlPart)

  /** Python `int(s)`, which may reject its input. */
  type IntParser = string -> Option<int>

  /** The metadata dict while it is being filled; `lastEditor` is None once core.xml stored a null. */
  datatype Draft = Draft(
    author: string,
    creationDate: Option<string>,
    lastModifiedDate: Option<string>,
    lastEditor: Option<string>,
    fileSize: nat,
    wordCount: int,
    revisionCount: int,
    application: string)

  /** The initial dict, with the file size already read. */
  function Defaults(fileSize: nat): Draft
  {
    Draft(Unavailable, None, None, Some(Unavailable), fileSize, 0, 0, "Unknown")
  }

  /** Layer 1: every truthy structured property overwrites its field; a bad revision counts 0. */
  function ApplyProps(d: Draft, p: CoreProps): (r: Draft)
    ensures r.author == if Truthy(p.author) then p.author.value else d.author
    ensures r.creationDate == if Truthy(p.created) then p.created else d.creationDate
    ensures r.lastModifiedDate == if Truthy(p.modified) then p.modified else d.lastModifiedDate
    ensures r.lastEditor == if Truthy(p.lastModifiedBy) then p.lastModifiedBy else d.lastEditor
    ensures r.revisionCount == if p.revision == Some(0) then d.revisionCount else p.revision.GetOr(0)
    ensures r.fileSize == d.fileSize && r.wordCount == d.wordCount && r.application == d.application
  {
    var a := if Truthy(p.author) then d.(author := p.author.value) else d;
    var b := if Truthy(p.created) then a.(creationDate := p.created) else a;
    var c := if Truthy(p.modified) then b.(lastModifiedDate := p.modified) else b;
    var e := if Truthy(p.lastModifiedBy) then c.(lastEditor := p.lastModifiedBy) else c;
    match p.revision
    case Some(n) => if n != 0 then e.(revisionCount := n) else e
    case None => e.(revisionCount := 0)
  }

  /** The index of the first element whose tag ends with `suffix` (the loops that `break`). */
  function FirstTagged(elems: seq<XmlElem>, suffix: string): (r: Option<nat>)
    ensures r.Some? ==> r.value < |elems| && Text.EndsWith(elems[r.value].tag, suffix)
    ensures r.Some? ==> forall k :: 0 <= k < r.value ==> !Text.EndsWith(elems[k].tag, suffix)
    ensures r.None? ==> forall k :: 0 <= k < |elems| ==> !Text.EndsWith(elems[k].tag, suffix)
  {
    if elems == [] then None
    else if Text.EndsWith(elems[0].tag, suffix) then Some(0)
    else match FirstTagged(elems[1..], suffix)
         case None => None
         case Some(i) => Some(i + 1)
  }

  /** `app.xml`: the first `Application` element names the application, the first `Words` the count. */
  function ApplyApp(d: Draft, elems: seq<XmlElem>, parseInt: IntParser): (r: Draft)
    ensures r == d.(application := r.application, wordCount := r.wordCount)
    ensures (match FirstTagged(elems, "Application")
      case None => r.application == d.application
      case Some(i) => r.application == if Truthy(elems[i].text) then elems[i].text.value else "Unknown")
    ensures (match FirstTagged(elems, "Words")
      case None => r.wordCount == d.wordCount
      case Some(j) => r.wordCount == if Truthy(elems[j].text) then parseInt(elems[j].text.value).GetOr(0) else 0)
  {
    var a := match FirstTagged(elems, "Application")
             case None => d
             case Some(i) =>
               d.(application := if Truthy(elems[i].text) then elems[i].text.value else "Unknown");
    match FirstTagged(elems, "Words")
    case None => a
    case Some(j) =>
      var t := elems[j].text;
      a.(wordCount := if Truthy(t) then parseInt(t.value).GetOr(0) else 0)
  }

  /**
   * One iteration of the `core.xml` loop as written: `created` and `modified` fill a missing
   * date, `lastModifiedBy` fills an unavailable editor, each with the element's text (possibly null).
   */
  function CoreStep(d: Draft, e: XmlElem): Draft
  {
    if Text.EndsWith(e.tag, "created") && !Truthy(d.creationDate) then d.(creationDate := e.text)
    else if Text.EndsWith(e.tag, "modified") && !Truthy(d.lastModifiedDate) then d.(lastModifiedDate := e.text)
    else if Text.EndsWith(e.tag, "lastModifiedBy") && d.lastEditor == Some(Unavailable) then d.(lastEditor := e.text)
    else d
  }

  /** Layer 2: the `core.xml` loop over the first `|elems|` elements. */
  function ApplyCore(d: Draft, elems: seq<XmlElem>): Draft
  {
    if elems == [] then d else CoreStep(ApplyCore(d, elems[..|elems| - 1]), elems[|elems| - 1])
  }

  /**
   * The extended block. A malformed `app.xml` raises before `core.xml` is read, so neither
   * applies; a malformed `core.xml` keeps what `app.xml` gave.
   */
  function ApplyExtended(d: Draft, pkg: Package, parseInt: IntParser): Draft
  {
    if !pkg.readable || pkg.app.Malformed? then d
    else
      var a := if pkg.app.Parsed? then ApplyApp(d, pkg.app.elems, parseInt) else d;
      if pkg.core.Parsed? then ApplyCore(a, pkg.core.elems) else a
  }

  /** `'python-docx' in None` raises this `TypeError`, which the outer handler reports. */
  const NoneEditorError: string := "Metadata extraction error: argument of type 'NoneType' is not iterable"

  /**
   * Layer 3 and the contributors: an unavailable editor defaults to a known author, then an
   * editor naming python-docx is screened out. The author is never screened.
   */
  function Finish(d: Draft): (r: Result<DocumentMetadata>)
    ensures r.Err? <==> d.lastEditor.None?
    ensures r.Err? ==> r.error == NoneEditorError
    ensures r.Ok? ==> (r.value.author == d.author && r.value.creationDate == d.creationDate
      && r.value.lastModifiedDate == d.lastModifiedDate && r.value.fileSize == d.fileSize
      && r.value.wordCount == d.wordCount && r.value.revisionCount == d.revisionCount
      && r.value.application == d.application)
    ensures r.Ok? ==> !Text.Contains(r.value.lastEditor, PlaceholderEditor)
  {
    var le := if d.lastEditor == Some(Unavailable) && d.author != Unavailable then Some(d.author) else d.lastEditor;
    match le
    case None => Err(NoneEditorError)
    case Some(e) =>
      var editor := if Text.Contains(e, PlaceholderEditor) then Unavailable else e;
      NotContainsPlaceholder();
      Ok(DocumentMetadata(d.author, d.creationDate, d.lastModifiedDate, editor, d.fileSize,
                          d.wordCount, d.revisionCount, d.application,
                          Contributors(d.author, d.creationDate, editor, d.lastModifiedDate)))
  }

  lemma NotContainsPlaceholder()
    ensures !Text.Contains(Unavailable, PlaceholderEditor)
  {
    assert Unavailable[..|PlaceholderEditor|] != PlaceholderEditor by {
      assert Unavailable[0] != PlaceholderEditor[0];
    }
    ShorterNeverContains(Unavailable[1..], PlaceholderEditor);
  }

  lemma {:induction false} ShorterNeverContains(s: string, sub: string)
    requires |s| < |sub|
    ensures !Text.Contains(s, sub)
    decreases |s|
  {
    if s != [] { ShorterNeverContains(s[1..], sub); }
  }

  /** The contributors list: the owner when known, then a different, known last editor. */
  function Contributors(author: string, created: Option<string>, editor: string, modified: Option<string>)
    : (cs: seq<Contributor>)
    ensures |cs| <= 2
    ensures (author != [] && author != Unavailable) <==> (cs != [] && cs[0] == Contributor(author, "Owner and Writer", created))
    ensures |cs| == 2 ==> cs[0].name != cs[1].name
    ensures forall k :: 0 <= k < |cs| ==> cs[k].name != [] && cs[k].name != Unavailable
    ensures (exists k :: 0 <= k < |cs| && cs[k].name == editor) <==> editor != [] && editor != Unavailable
  {
    var owner := if author != [] && author != Unavailable then [Contributor(author, "Owner and Writer", created)] else [];
    if editor != [] && editor != Unavailable && (owner == [] || owner[0].name != editor) then
      owner + [Contributor(editor, "Last Editor", modified)]
    else owner
  }

  /** `extract_docx_metadata` as a function of its layers; None properties mean the file is not a package. */
  function Extract(fileSize: nat, props: Option<CoreProps>, pkg: Package, parseInt: IntParser)
    : (r: Result<DocumentMetadata>)
    ensures props.None? ==> r == Err("Invalid DOCX file format")
  {
    match props
    case None => Err("Invalid DOCX file format")
    case Some(p) => Finish(ApplyExtended(ApplyProps(Defaults(fileSize), p), pkg, parseInt))
  }

  /** One more element of `core.xml` is one more `CoreStep`. */
  lemma CoreLoopStep(start: Draft, elems: seq<XmlElem>, i: nat)
    requires i < |elems|
    ensures ApplyCore(start, elems[..i + 1]) == CoreStep(ApplyCore(start, elems[..i]), elems[i])
  {
    assert elems[..i + 1][..i] == elems[..i];
  }

  /** `extract_docx_metadata`, filling the dict step by step as the source does. */
  method ExtractDocxMetadata(fileSize: nat, props: Option<CoreProps>, pkg: Package, parseInt: IntParser)
    returns (r: Result<DocumentMetadata>)
    ensures r == Extract(fileSize, props, pkg, parseInt)
  {
    if props.None? {
      return Err("Invalid DOCX file format");
    }
    var md := ApplyProps(Defaults(fileSize), props.value);
    ghost var afterProps := md;
    if pkg.readable && !pkg.app.Malformed? {
      if pkg.app.Parsed? {
        md := ApplyApp(md, pkg.app.elems, parseInt);
      }
      if pkg.core.Parsed? {
        var elems := pkg.core.elems;
        ghost var start := md;
        var i := 0;
        while i < |elems|
          invariant 0 <= i <= |elems|
          invariant md == ApplyCore(start, elems[..i])
        {
          CoreLoopStep(start, elems, i);
          md := CoreStep(md, elems[i]);
          i := i + 1;
        }
        assert elems[..|elems|] == elems;
      }
    }
    assert md == ApplyExtended(afterProps, pkg, parseInt);
    r := Finish(md);
  }

  // ---------------------------------------------------------------- merge properties

  /** `core.xml` never overwrites a value an earlier layer set, and touches only the three fields. */
  lemma {:induction false} CoreNeverOverwrites(d: Draft, elems: seq<XmlElem>)
    ensures var r := ApplyCore(d, elems);
      (Truthy(d.creationDate) ==> r.creationDate == d.creationDate)
      && (Truthy(d.lastModifiedDate) ==> r.lastModifiedDate == d.lastModifiedDate)
      && (d.lastEditor != Some(Unavailable) ==> r.lastEditor == d.lastEditor)
      && r.author == d.author && r.fileSize == d.fileSize && r.wordCount == d.wordCount
      && r.revisionCount == d.revisionCount && r.application == d.application
    decreases |elems|
  {
    if elems != [] {
      CoreNeverOverwrites(d, elems[..|elems| - 1]);
    }
  }

  /** With no properties and an unreadable archive the result is the defaults and no contributors. */
  lemma DefaultsWhenNothingKnown(fileSize: nat, parseInt: IntParser)
    ensures Extract(fileSize, Some(CoreProps(None, None, None, None, None)), Package(false, Missing, Missing), parseInt)
         == Ok(DocumentMetadata(Unavailable, None, None, Unavailable, fileSize, 0, 0, "Unknown", []))
  {
    NotContainsPlaceholder();
  }

  /** Unless core.xml stored a null editor, an unavailable editor becomes the known author. */
  lemma EditorFallsBackToAuthor(d: Draft)
    requires d.lastEditor == Some(Unavailable) && d.author != Unavailable
    requires !Text.Contains(d.author, PlaceholderEditor)
    ensures Finish(d).Ok? && Finish(d).value.lastEditor == d.author
  {
  }

  /** An author naming python-docx is kept, while the same name as editor is screened. */
  lemma OnlyEditorIsScreened(d: Draft)
    requires d.lastEditor.Some? && Text.Contains(d.lastEditor.value, PlaceholderEditor)
    requires d.lastEditor.value != Unavailable
    ensures Finish(d).Ok? && Finish(d).value.lastEditor == Unavailable
    ensures Finish(d).value.author == d.author
  {
  }

  // ---------------------------------------------------------------- the null-editor defect

  /**
   * A `lastModifiedBy` element without text, in a document whose properties give no editor:
   * the loop stores None, the screen then raises, and the whole extraction fails.
   */
  lemma NullEditorFailsExtraction(parseInt: IntParser)
    ensures Extract(0, Some(CoreProps(None, None, None, None, None)),
                    Package(true, Missing, Parsed([XmlElem("cp:lastModifiedBy", None)])), parseInt)
         == Err(NoneEditorError)
  {
    var d := ApplyProps(Defaults(0), CoreProps(None, None, None, None, None));
    var es := [XmlElem("cp:lastModifiedBy", None)];
    assert es[..0] == [];
    assert Text.EndsWith("cp:lastModifiedBy", "lastModifiedBy");
    assert !Text.EndsWith("cp:lastModifiedBy", "created");
    assert !Text.EndsWith("cp:lastModifiedBy", "modified");
    assert ApplyCore(d, es) == CoreStep(d, es[0]);
  }

  /** The evidently intended loop step: a `lastModifiedBy` element without text is skipped. */
  function CoreStepFixed(d: Draft, e: XmlElem): Draft
  {
    if Text.EndsWith(e.tag, "created") && !Truthy(d.creationDate) then d.(creationDate := e.text)
    else if Text.EndsWith(e.tag, "modified") && !Truthy(d.lastModifiedDate) then d.(lastModifiedDate := e.text)
    else if Text.EndsWith(e.tag, "lastModifiedBy") && d.lastEditor == Some(Unavailable) && e.text.Some? then
      d.(lastEditor := e.text)
    else d
  }

  function ApplyCoreFixed(d: Draft, elems: seq<XmlElem>): Draft
  {
    if elems == [] then d else CoreStepFixed(ApplyCoreFixed(d, elems[..|elems| - 1]), elems[|elems| - 1])
  }

  function ApplyExtendedFixed(d: Draft, pkg: Package, parseInt: IntParser): Draft
  {
    if !pkg.readable || pkg.app.Malformed? then d
    else
      var a := if pkg.app.Parsed? then ApplyApp(d, pkg.app.elems, parseInt) else d;
      if pkg.core.Parsed? then ApplyCoreFixed(a, pkg.core.elems) else a
  }

  /** The extraction with the fixed loop step. */
  function ExtractFixed(fileSize: nat, props: Option<CoreProps>, pkg: Package, parseInt: IntParser)
    : (r: Result<DocumentMetadata>)
    ensures r.Err? <==> props.None?
  {
    match props
    case None => Err("Invalid DOCX file format")
    case Some(p) =>
      var d := ApplyProps(Defaults(fileSize), p);
      FixedKeepsEditor(ApplyApp(d, if pkg.app.Parsed? then pkg.app.elems else [], parseInt),
                       if pkg.core.Parsed? then pkg.core.elems else []);
      FixedKeepsEditor(d, if pkg.core.Parsed? then pkg.core.elems else []);
      Finish(ApplyExtendedFixed(d, pkg, parseInt))
  }

  /** The fixed loop never loses the editor. */
  lemma {:induction false} FixedKeepsEditor(d: Draft, elems: seq<XmlElem>)
    requires d.lastEditor.Some?
    ensures ApplyCoreFixed(d, elems).lastEditor.Some?
    decreases |elems|
  {
    if elems != [] {
      FixedKeepsEditor(d, elems[..|elems| - 1]);
    }
  }

  /** Wherever the source succeeds, the fixed extraction gives the same metadata. */
  lemma FixedAgreesWhenSourceSucceeds(fileSize: nat, props: Option<CoreProps>, pkg: Package, parseInt: IntParser)
    requires Extract(fileSize, props, pkg, parseInt).Ok?
    ensures ExtractFixed(fileSize, props, pkg, parseInt) == Extract(fileSize, props, pkg, parseInt)
  {
    var d := ApplyProps(Defaults(fileSize), props.value);
    if pkg.readable && !pkg.app.Malformed? && pkg.core.Parsed? {
      var a := if pkg.app.Parsed? then ApplyApp(d, pkg.app.elems, parseInt) else d;
      CoreFixedAgrees(a, pkg.core.elems);
    }
  }

  /** A null stored as the editor stays null for the rest of the loop. */
  lemma {:induction false} CoreNullEditorSticks(d: Draft, elems: seq<XmlElem>)
    requires d.lastEditor.None?
    ensures ApplyCore(d, elems).lastEditor.None?
    decreases |elems|
  {
    if elems != [] {
      CoreNullEditorSticks(d, elems[..|elems| - 1]);
    }
  }

  lemma {:induction false} CoreFixedAgrees(d: Draft, elems: seq<XmlElem>)
    requires d.lastEditor.Some?
    requires ApplyCore(d, elems).lastEditor.Some?
    ensures ApplyCoreFixed(d, elems) == ApplyCore(d, elems)
    decreases |elems|
  {
    if elems != [] {
      var init := elems[..|elems| - 1];
      // A null editor before the last step would survive it, against the precondition.
      if ApplyCore(d, init).lastEditor.Some? {
        CoreFixedAgrees(d, init);
      }
    }
  }

  // ---------------------------------------------------------------- content statistics

  const SentenceEnds: set<char> := {'.', '!', '?'}

  /**
   * `compute_content_statistics`. An empty text gives zeros and no page count; the two
   * averages are rounded to two decimals.
   */
  function ComputeContentStatistics(text: string): (st: ContentStatistics)
    ensures text == [] ==> st == ContentStatistics(0, 0, 0, 0, 0, 0, None, 0.0, 0.0)
    ensures text != [] ==> (
      st.wordCount == |Text.Words(text)|
      && st.characterCount == |text|
      && st.sentenceCount == Text.CountNonBlank(Text.SplitOnRuns(text, SentenceEnds))
      && st.paragraphCount == Text.CountNonBlank(Text.SplitOn(text, {'\n'}))
      && st.estimatedPages == EstimatedPages(st.wordCount)
      && st.pageCount == Some(st.estimatedPages)
      && st.averageWordsPerSentence == RoundHundredth(PerSentence(st.wordCount, st.sentenceCount))
      && st.averageSentenceLength == RoundHundredth(PerSentence(st.characterCount, st.sentenceCount)))
    ensures text != [] ==> st.characterCountNoSpaces == |text| - multiset(text)[' ']
    ensures st.wordCount <= st.characterCountNoSpaces <= st.characterCount
  {
    if text == [] then ContentStatistics(0, 0, 0, 0, 0, 0, None, 0.0, 0.0)
    else
      var wc := |Text.Words(text)|;
      Text.WordCountBound(text);
      var sc := Text.CountNonBlank(Text.SplitOnRuns(text, SentenceEnds));
      var pc := Text.CountNonBlank(Text.SplitOn(text, {'\n'}));
      var pages := EstimatedPages(wc);
      ContentStatistics(wc, |text|, |Text.ReplaceChar(text, ' ', "")|, sc, pc, pages, Some(pages),
                        RoundHundredth(PerSentence(wc, sc)), RoundHundredth(PerSentence(|text|, sc)))
  }

  /** `max(1, round(words / 250))`: at least one page, otherwise the nearest page count. */
  function EstimatedPages(words: nat): (p: nat)
    ensures p >= 1
    ensures p == 1 || 2 * Abs(p * WordsPerPage - words) <= WordsPerPage
    ensures words * 2 <= WordsPerPage ==> p == 1
  {
    Max1(RoundHalfEven(words, WordsPerPage))
  }

  /** `max(1, n)`. */
  function Max1(n: nat): (r: nat)
    ensures r >= 1 && r >= n && (n >= 1 ==> r == n)
  {
    if n >= 1 then n else 1
  }

  /** `x / max(sentences, 1)`, an exact quotient. */
  function PerSentence(x: nat, sentences: nat): (r: real)
    ensures r * Max1(sentences) as real == x as real
    ensures r >= 0.0
  {
    x as real / Max1(sentences) as real
  }

  /** `estimated_pages` rounds half to even: 375 words are 2 pages, 625 words also 2. */
  lemma PagesRoundHalfToEven()
    ensures EstimatedPages(375) == 2
    ensures EstimatedPages(625) == 2
    ensures EstimatedPages(100) == 1
  {
    assert RoundHalfEven(375, 250) == 2;
    assert RoundHalfEven(625, 250) == 2;
  }

  /** Whitespace-only (but non-empty) text has no words, sentences or paragraphs, yet one page. */
  lemma BlankTextStatistics(text: string)
    requires text != [] && Text.AllSpace(text)
    ensures ComputeContentStatistics(text).wordCount == 0
    ensures ComputeContentStatistics(text).estimatedPages == 1
  {
    Text.WordsOfBlank(text);
  }

  // ---------------------------------------------------------------- validation and report

  /** `validate_document_completeness` of this service: every check is disabled. */
  function ValidateDocumentCompleteness(stats: ContentStatistics, text: string): (r: (bool, seq<string>))
    ensures r.0 && r.1 == []
  {
    (true, [])
  }

  /** The `validation` part of `generate_preliminary_report`. */
  datatype ReportValidation = ReportValidation(isComplete: bool, warnings: seq<string>, meetsRequirements: bool)

  function PreliminaryValidation(isComplete: bool, warnings: seq<string>, stats: ContentStatistics, minWords: nat)
    : (v: ReportValidation)
    ensures v.meetsRequirements <==> isComplete && stats.wordCount >= minWords
    ensures v.isComplete == isComplete && v.warnings == warnings
  {
    ReportValidation(isComplete, warnings, isComplete && stats.wordCount >= minWords)
  }

  /** With this service's validator, a document meets the requirements exactly on word count. */
  lemma MeetsRequirementsOnWordCount(text: string, minWords: nat)
    ensures var st := ComputeContentStatistics(text);
      var (ok, ws) := ValidateDocumentCompleteness(st, text);
      PreliminaryValidation(ok, ws, st, minWords).meetsRequirements <==> |Text.Words(text)| >= minWords
  {
  }

  // ---------------------------------------------------------------- snapshots

  /** `f"{original_filename}_{file_hash[:8]}"`. */
  function SnapshotKey(originalFilename: string, fileHash: string): (k: string)
    ensures Text.IsPrefix(originalFilename + "_", k)
    ensures |k| == |originalFilename| + 1 + (if |fileHash| < 8 then |fileHash| else 8)
  {
    originalFilename + "_" + fileHash[..if |fileHash| < 8 then |fileHash| else 8]
  }

  /** Files with the same name and the same hash share a key. */
  lemma SameFileSameKey(name: string, h1: string, h2: string)
    requires |h1| >= 8 && |h2| >= 8 && h1[..8] == h2[..8]
    ensures SnapshotKey(name, h1) == SnapshotKey(name, h2)
  {
  }

  /**
   * The change fields of a new snapshot against its predecessor's word count: the percentage
   * is stored rounded to two places, the major flag is decided on the exact one.
   */
  function SnapshotChange(wordCount: nat, previous: Option<nat>): (r: (Option<real>, bool))
    ensures r.0.Some? <==> previous.Some? && previous.value > 0
    ensures r.0.Some? ==> r.0.value == RoundHundredth((wordCount - previous.value) as real / previous.value as real * 100.0)
    ensures r.1 <==> previous.Some? && previous.value > 0
                     && RealAbs((wordCount - previous.value) as real / previous.value as real * 100.0) >= 50.0
  {
    match previous
    case Some(p) =>
      if p > 0 then
        var pct := (wordCount - p) as real / p as real * 100.0;
        (Some(RoundHundredth(pct)), RealAbs(pct) >= 50.0)
      else (None, false)
    case None => (None, false)
  }

  /**
   * The row `create_analysis_snapshot` appends to the table `rows` for a submission with a hash:
   * the next id, the file key, and the change against the latest row with that key, if any.
   */
  function NewSnapshot(rows: SnapshotLog, submissionId: string, originalFilename: string, hash: string,
                       wordCount: nat, now: int): (s: Snapshot)
    ensures s.id == |rows| && s.fileId == SnapshotKey(originalFilename, hash)
    ensures s.submissionId == submissionId && s.wordCount == wordCount && s.fileHash == hash && s.createdAt == now
    ensures LatestOfFile(rows, s.fileId, None).None? ==> s.changePercentage.None? && !s.majorChanges
  {
    var key := SnapshotKey(originalFilename, hash);
    var prev := LatestOfFile(rows, key, None);
    var change := SnapshotChange(wordCount, if prev.Some? then Some(rows[prev.value].wordCount) else None);
    Snapshot(|rows|, key, submissionId, wordCount, hash, now, change.1, change.0)
  }

  /**
   * The snapshot table, oldest row first. Row ids are positions, so an id identifies a row.
   * `created_at` is the caller's clock reading.
   */
  class SnapshotTable {
    var rows: SnapshotLog

    ghost predicate Valid()
      reads this
    {
      forall i :: 0 <= i < |rows| ==> rows[i].id == i
    }

    constructor ()
      ensures Valid() && rows == []
    {
      rows := [];
    }

    /**
     * `create_analysis_snapshot`: the predecessor is the latest row with the same key; a new
     * row is always appended. A submission without a hash makes `[:8]` fail before anything is added.
     */
    method CreateAnalysisSnapshot(submissionId: string, originalFilename: string, fileHash: Option<string>,
                                  wordCount: nat, now: int)
      returns (r: Result<Snapshot>)
      requires Valid()
      modifies this
      ensures Valid()
      ensures fileHash.None? ==> rows == old(rows) && r.Err?
      ensures fileHash.Some? ==>
        var key := SnapshotKey(originalFilename, fileHash.value);
        var prev := LatestOfFile(old(rows), key, None);
        var change := SnapshotChange(wordCount, if prev.Some? then Some(old(rows)[prev.value].wordCount) else None);
        r.Ok? && rows == old(rows) + [r.value]
        && r.value == Snapshot(|old(rows)|, key, submissionId, wordCount, fileHash.value, now, change.1, change.0)
        && r.value == NewSnapshot(old(rows), submissionId, originalFilename, fileHash.value, wordCount, now)
    {
      if fileHash.None? {
        return Err("Snapshot creation error: 'NoneType' object is not subscriptable");
      }
      var key := SnapshotKey(originalFilename, fileHash.value);
      var prev := LatestOfFile(rows, key, None);
      var previousCount := if prev.Some? then Some(rows[prev.value].wordCount) else None;
      var change := SnapshotChange(wordCount, previousCount);
      var snapshot := Snapshot(|rows|, key, submissionId, wordCount, fileHash.value, now, change.1, change.0);
      rows := rows + [snapshot];
      r := Ok(snapshot);
    }
  }

  /**
   * The growth of a submission right after its snapshot was appended compares against the row
   * that was the predecessor at creation time (ids are positions, so excluding the new row's id
   * excludes exactly the new row).
   */
  lemma {:induction false} NewSnapshotComparesWithPredecessor(log: SnapshotLog, s: Snapshot)
    requires forall i :: 0 <= i < |log| ==> log[i].id == i
    requires s.id == |log|
    ensures LatestOfFile(log + [s], s.fileId, Some(s.id)) == LatestOfFile(log, s.fileId, None)
  {
    assert (log + [s])[..|log|] == log;
    ExcludingAbsentId(log, s.fileId, |log|);
  }

  lemma {:induction false} ExcludingAbsentId(log: SnapshotLog, fileId: string, id: nat)
    requires forall i :: 0 <= i < |log| ==> log[i].id == i
    requires id >= |log|
    ensures LatestOfFile(log, fileId, Some(id)) == LatestOfFile(log, fileId, None)
    decreases |log|
  {
    if log != [] {
      ExcludingAbsentId(log[..|log| - 1], fileId, id);
    }
  }
}
