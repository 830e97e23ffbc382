// The older, unregistered copy of the metadata service: an extractor without the editor rules,
// statistics without `page_count`, and the completeness validator whose checks are still live.
module MetadataModule {
  import opened Wrappers
  import opened AnalysisModels
  import Text
  import MS = MetadataService
  import Api = MetadataApi

  // ---------------------------------------------------------------- extraction

  /** This copy's `core.xml` loop fills only missing dates; `lastModifiedBy` is never read. */
  function CoreStep(d: MS.Draft, e: MS.XmlElem): MS.Draft
  {
    if Text.EndsWith(e.tag, "created") && !Truthy(d.creationDate) then d.(creationDate := e.text)
    else if Text.EndsWith(e.tag, "modified") && !Truthy(d.lastModifiedDate) then d.(lastModifiedDate := e.text)
    else d
  }

  function ApplyCore(d: MS.Draft, elems: seq<MS.XmlElem>): (r: MS.Draft)
    ensures r.lastEditor == d.lastEditor && r.author == d.author
  {
    if elems == [] then d else CoreStep(ApplyCore(d, elems[..|elems| - 1]), elems[|elems| - 1])
  }

  /**
   * `extract_docx_metadata` of this copy: the same first two layers, then nothing. The result
   * dict has no `contributors` key; it is rendered here with an empty contributors list.
   */
  function Extract(fileSize: nat, props: Option<MS.CoreProps>, pkg: MS.Package, parseInt: MS.IntParser)
    : (r: Result<DocumentMetadata>)
    ensures props.None? <==> r.Err?
    ensures r.Ok? ==> r.value.contributors == []
    ensures r.Ok? ==> (r.value.lastEditor == if Truthy(props.value.lastModifiedBy) then props.value.lastModifiedBy.value else MS.Unavailable)
    ensures r.Ok? ==> (r.value.author == if Truthy(props.value.author) then props.value.author.value else MS.Unavailable)
  {
    match props
    case None => Err("Invalid DOCX file format")
    case Some(p) =>
      var d0 := MS.ApplyProps(MS.Defaults(fileSize), p);
      var d1 := if !pkg.readable || pkg.app.Malformed? then d0
                else
                  var a := if pkg.app.Parsed? then MS.ApplyApp(d0, pkg.app.elems, parseInt) else d0;
                  if pkg.core.Parsed? then ApplyCore(a, pkg.core.elems) else a;
      Ok(DocumentMetadata(d1.author, d1.creationDate, d1.lastModifiedDate, d1.lastEditor.GetOr(MS.Unavailable),
                          d1.fileSize, d1.wordCount, d1.revisionCount, d1.application, []))
  }

  /**
   * Where the two extractors part: a document whose properties name an author but no editor keeps
   * "Unavailable" as editor here, while the live service names the author.
   */
  lemma NoEditorFallback(fileSize: nat, author: string, parseInt: MS.IntParser)
    requires author != [] && author != MS.Unavailable && !Text.Contains(author, MS.PlaceholderEditor)
    ensures var props := Some(MS.CoreProps(Some(author), None, None, None, None));
      var pkg := MS.Package(false, MS.Missing, MS.Missing);
      Extract(fileSize, props, pkg, parseInt).value.lastEditor == MS.Unavailable
      && MS.Extract(fileSize, props, pkg, parseInt).value.lastEditor == author
  {
  }

  /** An editor naming python-docx is kept by this copy. */
  lemma NoPlaceholderScreen(fileSize: nat, parseInt: MS.IntParser)
    ensures Extract(fileSize, Some(MS.CoreProps(None, None, None, Some(MS.PlaceholderEditor), None)),
                    MS.Package(false, MS.Missing, MS.Missing), parseInt).value.lastEditor == MS.PlaceholderEditor
  {
  }

  // ---------------------------------------------------------------- statistics

  /** This copy's statistics are the live ones without the `page_count` alias. */
  function ComputeContentStatistics(text: string): (st: ContentStatistics)
    ensures st.pageCount.None?
    ensures st == MS.ComputeContentStatistics(text).(pageCount := None)
  {
    MS.ComputeContentStatistics(text).(pageCount := None)
  }

  // ---------------------------------------------------------------- the checked validator

  /** The warnings the validator can raise, in the order it checks them. */
  datatype Warning =
    | TooFewWords(count: nat, minimum: nat)
    | TooManyWords(count: nat, maximum: nat)
    | FewSentences
    | PlaceholderText
    | RepeatedContent

  function Rank(w: Warning): nat
  {
    match w
    case TooFewWords(_, _) => 0
    case TooManyWords(_, _) => 1
    case FewSentences => 2
    case PlaceholderText => 3
    case RepeatedContent => 4
  }

  function Message(w: Warning): string
  {
    match w
    case TooFewWords(c, m) =>
      "Document appears incomplete: only " + Text.NatToString(c) + " words (minimum: " + Text.NatToString(m) + ")"
    case TooManyWords(c, m) =>
      "Document exceeds maximum length: " + Text.NatToString(c) + " words (maximum: " + Text.NatToString(m) + ")"
    case FewSentences => "Document has very few sentences"
    case PlaceholderText => "Document may contain placeholder text"
    case RepeatedContent => "Document may contain repeated content"
  }

  function Messages(ws: seq<Warning>): (ms: seq<string>)
    ensures |ms| == |ws|
    ensures forall k :: 0 <= k < |ws| ==> ms[k] == Message(ws[k])
  {
    if ws == [] then [] else [Message(ws[0])] + Messages(ws[1..])
  }

  /**
   * A placeholder pattern: a literal phrase, or `a.*b` — `a`, then `b` later on the same
   * line (`.` does not match a newline).
   */
  datatype Pattern = Literal(phrase: string) | Spanning(first: string, last: string)

  /** `[.*]`, `lorem ipsum`, `placeholder`, `insert.*here`, `add.*content`, `write.*here`. */
  const Placeholders: seq<Pattern> := [
    Spanning("[", "]"), Literal("lorem ipsum"), Literal("placeholder"),
    Spanning("insert", "here"), Spanning("add", "content"), Spanning("write", "here")]

  /** The text up to its first newline. */
  function FirstLine(s: string): (l: string)
    ensures Text.IsPrefix(l, s) && Text.Avoids(l, {'\n'})
  {
    s[..Text.FirstIn(s, {'\n'})]
  }

  /** `re.search(a + '.*' + b, t)`: some occurrence of `a` is followed by `b` on its line. */
  function SearchSpan(t: string, a: string, b: string): bool
    decreases |t|
  {
    (Text.IsPrefix(a, t) && Text.Contains(FirstLine(t[|a|..]), b)) || (t != [] && SearchSpan(t[1..], a, b))
  }

  function Search(t: string, p: Pattern): bool
  {
    match p
    case Literal(s) => Text.Contains(t, s)
    case Spanning(a, b) => SearchSpan(t, a, b)
  }

  /** `a` at `i`, then `b` at `j`, with no newline from the end of `a` to the end of `b`. */
  ghost predicate SpanAt(t: string, a: string, b: string, i: int, j: int)
  {
    Text.OccursAt(t, a, i) && i + |a| <= j && Text.OccursAt(t, b, j)
    && Text.Avoids(t[i + |a|..j + |b|], {'\n'})
  }

  /** `b` occurs in the first line exactly when it occurs with no newline before its end. */
  lemma FirstLineContains(s: string, b: string)
    ensures Text.Contains(FirstLine(s), b)
        <==> exists k :: Text.OccursAt(s, b, k) && Text.Avoids(s[..k + |b|], {'\n'})
  {
    Text.ContainsAt(FirstLine(s), b);
    if exists k :: Text.OccursAt(FirstLine(s), b, k) {
      var k :| Text.OccursAt(FirstLine(s), b, k);
      OnFirstLineOccurs(s, b, k);
    }
    if exists k :: Text.OccursAt(s, b, k) && Text.Avoids(s[..k + |b|], {'\n'}) {
      var k :| Text.OccursAt(s, b, k) && Text.Avoids(s[..k + |b|], {'\n'});
      OccursOnFirstLine(s, b, k);
    }
  }

  /** An occurrence inside the first line is an occurrence in `s` with no line break before its end. */
  lemma OnFirstLineOccurs(s: string, b: string, k: int)
    requires Text.OccursAt(FirstLine(s), b, k)
    ensures Text.OccursAt(s, b, k) && Text.Avoids(s[..k + |b|], {'\n'})
  {
    var l := FirstLine(s);
    assert forall j :: k <= j < k + |b| ==> s[j] == l[j];
    assert s[k..k + |b|] == l[k..k + |b|];
    assert forall j :: 0 <= j < k + |b| ==> s[..k + |b|][j] == l[j];
  }

  /** An occurrence in `s` with no line break before its end lies inside the first line. */
  lemma OccursOnFirstLine(s: string, b: string, k: int)
    requires Text.OccursAt(s, b, k) && Text.Avoids(s[..k + |b|], {'\n'})
    ensures Text.OccursAt(FirstLine(s), b, k)
  {
    var l := FirstLine(s);
    Text.AvoidsBeforeFirst(s, k + |b|, {'\n'});
    assert forall j :: k <= j < k + |b| ==> s[j] == l[j];
    assert l[k..k + |b|] == s[k..k + |b|];
  }


  /** A match of the search at the start of `t` is a span starting at 0. */
  lemma SpanAtStartSound(t: string, a: string, b: string)
    requires Text.IsPrefix(a, t) && Text.Contains(FirstLine(t[|a|..]), b)
    ensures exists j :: SpanAt(t, a, b, 0, j)
  {
    var s := t[|a|..];
    FirstLineContains(s, b);
    var k :| Text.OccursAt(s, b, k) && Text.Avoids(s[..k + |b|], {'\n'});
    assert t[|a| + k..|a| + k + |b|] == s[k..k + |b|];
    assert t[|a|..|a| + k + |b|] == s[..k + |b|];
    assert SpanAt(t, a, b, 0, |a| + k);
  }

  /** A span starting at 0 is found by the search at the start of `t`. */
  lemma SpanAtStartComplete(t: string, a: string, b: string, j: int)
    requires SpanAt(t, a, b, 0, j)
    ensures Text.IsPrefix(a, t) && Text.Contains(FirstLine(t[|a|..]), b)
  {
    var s := t[|a|..];
    var k := j - |a|;
    assert s[k..k + |b|] == t[j..j + |b|];
    assert s[..k + |b|] == t[|a|..j + |b|];
    assert Text.OccursAt(s, b, k) && Text.Avoids(s[..k + |b|], {'\n'});
    FirstLineContains(s, b);
  }

  /** A span in `t[1..]` is a span in `t` one place further on, and back. */
  lemma SpanShift(t: string, a: string, b: string, i: int, j: int)
    requires t != [] && i >= 0
    ensures SpanAt(t[1..], a, b, i, j) <==> SpanAt(t, a, b, i + 1, j + 1)
  {
    if 0 <= i && i + |a| <= j && j + |b| <= |t| - 1 {
      assert t[1..][i..i + |a|] == t[i + 1..i + 1 + |a|];
      assert t[1..][j..j + |b|] == t[j + 1..j + 1 + |b|];
      assert t[1..][i + |a|..j + |b|] == t[i + 1 + |a|..j + 1 + |b|];
    }
  }

  /** The search means what the regular expression means. */
  lemma SearchSpanMeans(t: string, a: string, b: string)
    ensures SearchSpan(t, a, b) <==> exists i, j :: SpanAt(t, a, b, i, j)
  {
    if SearchSpan(t, a, b) {
      SearchSpanSound(t, a, b);
    }
    if exists i, j :: SpanAt(t, a, b, i, j) {
      var i, j :| SpanAt(t, a, b, i, j);
      SearchSpanComplete(t, a, b, i, j);
    }
  }

  /** A match of the search is a span of `t`. */
  lemma {:induction false} SearchSpanSound(t: string, a: string, b: string)
    requires SearchSpan(t, a, b)
    ensures exists i, j :: SpanAt(t, a, b, i, j)
    decreases |t|
  {
    if Text.IsPrefix(a, t) && Text.Contains(FirstLine(t[|a|..]), b) {
      SpanAtStartSound(t, a, b);
    } else {
      SearchSpanSound(t[1..], a, b);
      var i, j :| SpanAt(t[1..], a, b, i, j);
      SpanShift(t, a, b, i, j);
    }
  }

  /** Every span of `t` is found by the search. */
  lemma {:induction false} SearchSpanComplete(t: string, a: string, b: string, i: int, j: int)
    requires SpanAt(t, a, b, i, j)
    ensures SearchSpan(t, a, b)
    decreases i
  {
    if i == 0 {
      SpanAtStartComplete(t, a, b, j);
    } else {
      SpanShift(t, a, b, i - 1, j - 1);
      SearchSpanComplete(t[1..], a, b, i - 1, j - 1);
    }
  }


  /** Whether any placeholder pattern matches. */
  predicate AnyPlaceholder(lowered: string)
  {
    exists k :: 0 <= k < |Placeholders| && Search(lowered, Placeholders[k])
  }

  /** The stripped lines longer than 20 characters. */
  function LongLines(text: string): seq<string>
  {
    Text.StrippedLongerThan(Text.SplitOn(text, {'\n'}), 20)
  }

  /** `len(paragraphs) != len(set(paragraphs)) and len(paragraphs) > 1`. */
  predicate Repeated(ps: seq<string>)
  {
    |set p | p in ps| != |ps| && |ps| > 1
  }

  /** `warnings.append(w)` when the check fires. */
  function Raise(ws: seq<Warning>, fires: bool, w: Warning): (r: seq<Warning>)
    ensures r == if fires then ws + [w] else ws
    ensures forall x :: x in r <==> x in ws || (fires && x == w)
  {
    if fires then ws + [w] else ws
  }

  /** The five checks, given the outcomes of the two text searches. */
  function Checks(wordCount: nat, sentenceCount: nat, minWords: nat, maxWords: nat,
                  placeholder: bool, repeated: bool): (r: (bool, seq<Warning>))
    ensures |r.1| <= 5
  {
    var w1 := Raise([], wordCount < minWords, TooFewWords(wordCount, minWords));
    var w2 := Raise(w1, wordCount > maxWords, TooManyWords(wordCount, maxWords));
    var w3 := Raise(w2, sentenceCount < 3, FewSentences);
    var w4 := Raise(w3, placeholder, PlaceholderText);
    var w5 := Raise(w4, repeated, RepeatedContent);
    (wordCount >= minWords && sentenceCount >= 3, w5)
  }

  /**
   * `validate_document_completeness`: five checks in a fixed order; only the word minimum and
   * the sentence count make a document incomplete.
   */
  function Validate(st: ContentStatistics, text: string, minWords: nat, maxWords: nat)
    : (r: (bool, seq<Warning>))
    ensures |r.1| <= 5
  {
    Checks(st.wordCount, st.sentenceCount, minWords, maxWords,
           AnyPlaceholder(Text.Lower(text)), |text| > 100 && Repeated(LongLines(text)))
  }

  /** Each warning is raised exactly when its check fails, carrying the counts it reports. */
  lemma ChecksWarnings(wc: nat, sc: nat, minWords: nat, maxWords: nat, placeholder: bool, repeated: bool)
    ensures var ws := Checks(wc, sc, minWords, maxWords, placeholder, repeated).1;
      (TooFewWords(wc, minWords) in ws <==> wc < minWords)
      && (TooManyWords(wc, maxWords) in ws <==> wc > maxWords)
      && (FewSentences in ws <==> sc < 3)
      && (PlaceholderText in ws <==> placeholder)
      && (RepeatedContent in ws <==> repeated)
      && (forall w :: w in ws && w.TooFewWords? ==> w == TooFewWords(wc, minWords))
      && (forall w :: w in ws && w.TooManyWords? ==> w == TooManyWords(wc, maxWords))
  {
    var w1 := Raise([], wc < minWords, TooFewWords(wc, minWords));
    var w2 := Raise(w1, wc > maxWords, TooManyWords(wc, maxWords));
    var w3 := Raise(w2, sc < 3, FewSentences);
    var w4 := Raise(w3, placeholder, PlaceholderText);
    var w5 := Raise(w4, repeated, RepeatedContent);
    assert Checks(wc, sc, minWords, maxWords, placeholder, repeated).1 == w5;
    assert forall x :: x in w5 <==>
      (wc < minWords && x == TooFewWords(wc, minWords)) || (wc > maxWords && x == TooManyWords(wc, maxWords))
      || (sc < 3 && x == FewSentences) || (placeholder && x == PlaceholderText) || (repeated && x == RepeatedContent);
  }

  lemma ValidateWarnings(st: ContentStatistics, text: string, minWords: nat, maxWords: nat)
    ensures var ws := Validate(st, text, minWords, maxWords).1;
      (TooFewWords(st.wordCount, minWords) in ws <==> st.wordCount < minWords)
      && (TooManyWords(st.wordCount, maxWords) in ws <==> st.wordCount > maxWords)
      && (FewSentences in ws <==> st.sentenceCount < 3)
      && (PlaceholderText in ws <==> AnyPlaceholder(Text.Lower(text)))
      && (RepeatedContent in ws <==> |text| > 100 && Repeated(LongLines(text)))
      && (forall w :: w in ws && w.TooFewWords? ==> w == TooFewWords(st.wordCount, minWords))
      && (forall w :: w in ws && w.TooManyWords? ==> w == TooManyWords(st.wordCount, maxWords))
  {
    ChecksWarnings(st.wordCount, st.sentenceCount, minWords, maxWords,
                   AnyPlaceholder(Text.Lower(text)), |text| > 100 && Repeated(LongLines(text)));
  }

  /** Warnings appear in check order: minimum, maximum, sentences, placeholder, repetition. */
  lemma ChecksOrder(wc: nat, sc: nat, minWords: nat, maxWords: nat, placeholder: bool, repeated: bool)
    ensures Ordered(Checks(wc, sc, minWords, maxWords, placeholder, repeated).1)
  {
    var w1 := Raise([], wc < minWords, TooFewWords(wc, minWords));
    var w2 := Raise(w1, wc > maxWords, TooManyWords(wc, maxWords));
    RaiseKeepsOrder(w1, wc > maxWords, TooManyWords(wc, maxWords));
    var w3 := Raise(w2, sc < 3, FewSentences);
    RaiseKeepsOrder(w2, sc < 3, FewSentences);
    var w4 := Raise(w3, placeholder, PlaceholderText);
    RaiseKeepsOrder(w3, placeholder, PlaceholderText);
    RaiseKeepsOrder(w4, repeated, RepeatedContent);
  }

  lemma ValidateOrder(st: ContentStatistics, text: string, minWords: nat, maxWords: nat)
    ensures Ordered(Validate(st, text, minWords, maxWords).1)
  {
    ChecksOrder(st.wordCount, st.sentenceCount, minWords, maxWords,
                AnyPlaceholder(Text.Lower(text)), |text| > 100 && Repeated(LongLines(text)));
  }

  ghost predicate Ordered(ws: seq<Warning>)
  {
    forall i, j :: 0 <= i < j < |ws| ==> Rank(ws[i]) < Rank(ws[j])
  }

  lemma RaiseKeepsOrder(ws: seq<Warning>, fires: bool, w: Warning)
    requires Ordered(ws)
    requires forall k :: 0 <= k < |ws| ==> Rank(ws[k]) < Rank(w)
    ensures Ordered(Raise(ws, fires, w))
    ensures forall k :: 0 <= k < |Raise(ws, fires, w)| ==> Rank(Raise(ws, fires, w)[k]) <= Rank(w)
  {
  }

  /** A document is incomplete exactly when the word-minimum or the sentence warning is raised. */
  lemma ValidateCompleteness(st: ContentStatistics, text: string, minWords: nat, maxWords: nat)
    ensures var (ok, ws) := Validate(st, text, minWords, maxWords);
      !ok <==> (TooFewWords(st.wordCount, minWords) in ws || FewSentences in ws)
  {
    ValidateWarnings(st, text, minWords, maxWords);
  }

  /** The validator as the source runs it: checks in sequence and a loop over the patterns. */
  method ValidateDocumentCompleteness(st: ContentStatistics, text: string, minWords: nat, maxWords: nat)
    returns (isComplete: bool, warnings: seq<Warning>)
    ensures (isComplete, warnings) == Validate(st, text, minWords, maxWords)
  {
    warnings := [];
    isComplete := true;
    if st.wordCount < minWords {
      warnings := warnings + [TooFewWords(st.wordCount, minWords)];
      isComplete := false;
    }
    ghost var w1 := Raise([], st.wordCount < minWords, TooFewWords(st.wordCount, minWords));
    assert warnings == w1;
    if st.wordCount > maxWords {
      warnings := warnings + [TooManyWords(st.wordCount, maxWords)];
    }
    ghost var w2 := Raise(w1, st.wordCount > maxWords, TooManyWords(st.wordCount, maxWords));
    assert warnings == w2;
    if st.sentenceCount < 3 {
      warnings := warnings + [FewSentences];
      isComplete := false;
    }
    ghost var w3 := Raise(w2, st.sentenceCount < 3, FewSentences);
    assert warnings == w3;
    var found := FindPlaceholder(Text.Lower(text));
    if found {
      warnings := warnings + [PlaceholderText];
    }
    ghost var w4 := Raise(w3, found, PlaceholderText);
    assert warnings == w4;
    ghost var repeated := |text| > 100 && Repeated(LongLines(text));
    if |text| > 100 {
      var paragraphs := LongLines(text);
      if |paragraphs| != |set p | p in paragraphs| && |paragraphs| > 1 {
        warnings := warnings + [RepeatedContent];
      }
    }
    assert warnings == Raise(w4, repeated, RepeatedContent);
    assert isComplete == (st.wordCount >= minWords && st.sentenceCount >= 3);
    assert (isComplete, warnings) == Checks(st.wordCount, st.sentenceCount, minWords, maxWords, found, repeated);
  }

  /** The pattern loop: stops at the first pattern that matches. */
  method FindPlaceholder(lowered: string) returns (found: bool)
    ensures found <==> AnyPlaceholder(lowered)
  {
    var i := 0;
    found := false;
    while i < |Placeholders| && !found
      invariant 0 <= i <= |Placeholders|
      invariant found <==> exists k :: 0 <= k < i && Search(lowered, Placeholders[k])
    {
      if Search(lowered, Placeholders[i]) {
        found := true;
      }
      i := i + 1;
    }
  }

  /** The validator's warnings as stored. */
  function ValidateMessages(st: ContentStatistics, text: string, minWords: nat, maxWords: nat)
    : (r: (bool, seq<string>))
    ensures r.0 == Validate(st, text, minWords, maxWords).0
    ensures |r.1| == |Validate(st, text, minWords, maxWords).1|
    ensures forall k :: 0 <= k < |r.1| ==> r.1[k] == Message(Validate(st, text, minWords, maxWords).1[k])
  {
    var (ok, ws) := Validate(st, text, minWords, maxWords);
    (ok, Messages(ws))
  }

  // ---------------------------------------------------------------- the repetition guard

  ghost predicate HasDuplicate(ps: seq<string>)
  {
    exists i, j :: 0 <= i < j < |ps| && ps[i] == ps[j]
  }

  lemma {:induction false} SetOfSeqSize(ps: seq<string>)
    ensures |set p | p in ps| <= |ps|
    ensures |set p | p in ps| == |ps| <==> !HasDuplicate(ps)
  {
    if ps != [] {
      var tail := ps[1..];
      SetOfSeqSize(tail);
      assert (set p | p in ps) == {ps[0]} + (set p | p in tail);
      if ps[0] in tail {
        assert (set p | p in ps) == (set p | p in tail);
        var j :| 0 <= j < |tail| && tail[j] == ps[0];
        assert ps[0] == ps[j + 1];
      } else {
        assert ps[0] !in (set p | p in tail);
        if !HasDuplicate(tail) {
          forall i, j | 0 <= i < j < |ps|
            ensures ps[i] != ps[j]
          {
            assert ps[j] == tail[j - 1];
            if i > 0 { assert ps[i] == tail[i - 1]; }
          }
        }
        if HasDuplicate(tail) {
          var i, j :| 0 <= i < j < |tail| && tail[i] == tail[j];
          assert ps[i + 1] == ps[j + 1];
        }
      }
    }
  }

  /**
   * The repeated-content guard holds exactly when some long line occurs twice; its
   * `len(paragraphs) > 1` half never decides anything.
   */
  lemma RepeatedIffDuplicate(ps: seq<string>)
    ensures Repeated(ps) <==> HasDuplicate(ps)
  {
    SetOfSeqSize(ps);
    if HasDuplicate(ps) {
      var i, j :| 0 <= i < j < |ps| && ps[i] == ps[j];
    }
  }

  /** A short text never raises the repetition warning, whatever its lines. */
  lemma ShortTextNeverRepeated(st: ContentStatistics, text: string, minWords: nat, maxWords: nat)
    requires |text| <= 100
    ensures RepeatedContent !in Validate(st, text, minWords, maxWords).1
  {
    ValidateWarnings(st, text, minWords, maxWords);
  }

  /** `lorem ipsum` in any letter case raises the placeholder warning once. */
  lemma LoremIpsumIsPlaceholder(st: ContentStatistics, text: string, minWords: nat, maxWords: nat)
    requires Text.Contains(Text.Lower(text), "lorem ipsum")
    ensures PlaceholderText in Validate(st, text, minWords, maxWords).1
  {
    assert Search(Text.Lower(text), Placeholders[1]);
    ValidateWarnings(st, text, minWords, maxWords);
  }

  /** Lowering letters creates no line breaks. */
  lemma LowerKeepsLines(text: string, i: nat, j: nat)
    requires i <= j <= |text| && Text.Avoids(text[i..j], {'\n'})
    ensures Text.Avoids(Text.Lower(text)[i..j], {'\n'})
  {
    var l := Text.Lower(text);
    forall k | i <= k < j
      ensures l[k] != '\n'
    {
      assert text[i..j][k - i] == text[k];
    }
  }

  /** A `[` followed by a `]` on the same line matches the first pattern. */
  lemma BracketsMatch(text: string, i: nat, j: nat)
    requires i < j < |text| && text[i] == '[' && text[j] == ']'
    requires Text.Avoids(text[i + 1..j + 1], {'\n'})
    ensures AnyPlaceholder(Text.Lower(text))
  {
    LowerKeepsBrackets(text, i, j);
    BracketsInLowered(Text.Lower(text), i, j);
  }

  /** Lowering leaves the brackets and the newline-free stretch between them as they are. */
  lemma LowerKeepsBrackets(text: string, i: nat, j: nat)
    requires i < j < |text| && text[i] == '[' && text[j] == ']'
    requires Text.Avoids(text[i + 1..j + 1], {'\n'})
    ensures Text.Lower(text)[i] == '[' && Text.Lower(text)[j] == ']'
    ensures Text.Avoids(Text.Lower(text)[i + 1..j + 1], {'\n'})
  {
    LowerKeepsLines(text, i + 1, j + 1);
  }

  /** The same, once the text is lowered. */
  lemma BracketsInLowered(l: string, i: nat, j: nat)
    requires i < j < |l| && l[i] == '[' && l[j] == ']'
    requires Text.Avoids(l[i + 1..j + 1], {'\n'})
    ensures AnyPlaceholder(l)
  {
    BracketSpan(l, i, j);
    SearchSpanMeans(l, "[", "]");
    assert Placeholders[0] == Spanning("[", "]");
    assert Search(l, Placeholders[0]);
  }

  lemma BracketSpan(l: string, i: nat, j: nat)
    requires i < j < |l| && l[i] == '[' && l[j] == ']'
    requires Text.Avoids(l[i + 1..j + 1], {'\n'})
    ensures SpanAt(l, "[", "]", i, j)
  {
    assert l[i..i + 1] == [l[i]];
    assert l[j..j + 1] == [l[j]];
  }

  /** Such brackets mark the text as a placeholder. */
  lemma BracketsArePlaceholder(st: ContentStatistics, text: string, minWords: nat, maxWords: nat, i: nat, j: nat)
    requires i < j < |text| && text[i] == '[' && text[j] == ']'
    requires Text.Avoids(text[i + 1..j + 1], {'\n'})
    ensures PlaceholderText in Validate(st, text, minWords, maxWords).1
  {
    BracketsMatch(text, i, j);
    ValidateWarnings(st, text, minWords, maxWords);
  }

  /** A document with enough words and sentences is complete even if other warnings fire. */
  lemma CompleteDespiteWarnings(st: ContentStatistics, text: string, minWords: nat, maxWords: nat)
    requires minWords <= st.wordCount && st.sentenceCount >= 3
    ensures Validate(st, text, minWords, maxWords).0
    ensures st.wordCount > maxWords ==> Validate(st, text, minWords, maxWords).1 != []
  {
    ValidateWarnings(st, text, minWords, maxWords);
  }

  // ---------------------------------------------------------------- this copy's endpoint

  /** This copy's endpoint runs its own statistics and the checked validator with the default limits. */
  function CheckedPipeline(): Api.Pipeline
  {
    Api.Pipeline(ComputeContentStatistics, (st, t) => ValidateMessages(st, t, MS.DefaultMinWords, MS.DefaultMaxWords))
  }

  /**
   * The same state machine with the checked validator: a stored run of a document below the
   * word minimum ends WARNING, with the document marked incomplete.
   */
  lemma ShortDocumentEndsWarning(r: Api.Record, now: int, md: DocumentMetadata, text: string)
    requires r.status == Base.Pending
    requires |Text.Words(text)| < MS.DefaultMinWords
    ensures var (r2, o) := Api.AnalyzeStep(r, now, Ok(md), Ok(text), CheckedPipeline(), None);
      r2.status == Base.Warning && r2.analysis.Some? && !r2.analysis.value.isCompleteDocument
  {
    var p := CheckedPipeline();
    var st := ComputeContentStatistics(text);
    assert p.statsOf(text) == st;
    var v := Validate(st, text, MS.DefaultMinWords, MS.DefaultMaxWords);
    ValidateWarnings(st, text, MS.DefaultMinWords, MS.DefaultMaxWords);
    assert TooFewWords(st.wordCount, MS.DefaultMinWords) in v.1;
    assert p.validate(st, text).0 == v.0 == false;
    assert |p.validate(st, text).1| == |v.1| > 0;
    Api.FinalStatusFollowsWarnings(r, now, Ok(md), Ok(text), p);
  }
}
