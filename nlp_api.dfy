// The NLP analysis service of the NLP endpoint: the short-text guard, readability buckets,
// token statistics, entity grouping, sentiment and language heuristics, parsing of the AI
// response, consolidation and recommendations. textstat, NLTK, spaCy, VADER and the JSON
// decoder are parameters; their outputs are inputs here.
module NlpApi {
  import opened Wrappers
  import Text
  import C = Counter
  import Json
  import PyMath

  // ---------------------------------------------------------------- the short-text guard

  const InsufficientText := "Insufficient text for NLP analysis"

  /** `not text or len(text.strip()) < 10` fails. */
  predicate Sufficient(text: string)
  {
    text != [] && |Text.Strip(text)| >= 10
  }

  /** A non-negative ratio that is 0 when the denominator is 0. */
  function Ratio(a: nat, b: nat): (r: real)
    ensures r >= 0.0
    ensures b > 0 ==> r * b as real == a as real
    ensures b == 0 ==> r == 0.0
  {
    if b == 0 then 0.0 else a as real / b as real
  }

  /**
   * `round(a / b, 3)` for a ratio of counts, 0 when `b` is 0: within half a thousandth of the
   * exact ratio, at most 1 for a share and exactly 1 for a whole.
   */
  function Ratio3(a: nat, b: nat): (r: real)
    ensures r >= 0.0
    ensures b == 0 ==> r == 0.0
    ensures a <= b ==> r <= 1.0
    ensures 0 < a == b ==> r == 1.0
  {
    if b == 0 then 0.0
    else
      var n := PyMath.RoundHalfEven(1000 * a, b);
      var r := n as real / 1000.0;
      RoundedShareReal(a, b, n, r);
      r
  }

  /** The rounded ratio is within half a thousandth of `a / b`. */
  lemma Ratio3Close(a: nat, b: nat)
    requires b > 0
    ensures -(b as real) <= 2.0 * (1000.0 * Ratio3(a, b) * b as real - 1000.0 * a as real) <= b as real
  {
    var n := PyMath.RoundHalfEven(1000 * a, b);
    RoundedShareReal(a, b, n, Ratio3(a, b));
  }

  /** The integer rounding bounds, read on the share in thousandths. */
  lemma RoundedShareReal(a: nat, b: nat, n: nat, r: real)
    requires b > 0 && 2 * PyMath.Abs(n * b - 1000 * a) <= b && r == n as real / 1000.0
    ensures r >= 0.0
    ensures -(b as real) <= 2.0 * (1000.0 * r * b as real - 1000.0 * a as real) <= b as real
    ensures a <= b ==> r <= 1.0
    ensures 0 < a == b ==> r == 1.0
  {
    RoundedShareBounds(a, b, n);
    assert 1000.0 * r == n as real;
    assert (n * b) as real == n as real * b as real;
    assert 1000.0 * r * b as real - 1000.0 * a as real == (n * b - 1000 * a) as real;
  }

  lemma RoundedShareBounds(a: nat, b: nat, n: nat)
    requires b > 0 && 2 * PyMath.Abs(n * b - 1000 * a) <= b
    ensures a <= b ==> n <= 1000
    ensures 0 < a == b ==> n == 1000
  {
    assert 2 * (n * b - 1000 * a) <= b && 2 * (1000 * a - n * b) <= b;
    if a <= b {
      assert (n - 1000) * b == n * b - 1000 * b;
      NonPositiveFactor(n - 1000, b);
    }
    if a == b {
      assert (1000 - n) * b == 1000 * b - n * b;
      NonPositiveFactor(1000 - n, b);
    }
  }

  lemma NonPositiveFactor(x: int, b: int)
    requires b > 0 && 2 * (x * b) <= b
    ensures x <= 0
  {
  }

  // ---------------------------------------------------------------- readability

  /** The six textstat scores. */
  datatype ReadabilityScores = ReadabilityScores(
    fleschKincaidGrade: real,
    fleschReadingEase: real,
    gunningFogIndex: real,
    automatedReadabilityIndex: real,
    colemanLiauIndex: real,
    daleChallReadability: real)

  datatype Readability = Readability(scores: ReadabilityScores, readingLevel: string, gradeEquivalent: real,
                                     interpretation: string)

  /** The five reading levels, easiest first. */
  const ReadingLevels := ["Elementary", "Middle School", "High School", "College", "Graduate"]

  /** The reading level of a Flesch-Kincaid grade: upper bounds 6, 9, 12 and 16, inclusive. */
  function ReadingLevel(fk: real): (level: string)
    ensures level in ReadingLevels
    ensures level == "Elementary" <==> fk <= 6.0
    ensures level == "Graduate" <==> fk > 16.0
    ensures level == "Middle School" <==> 6.0 < fk <= 9.0
    ensures level == "High School" <==> 9.0 < fk <= 12.0
    ensures level == "College" <==> 12.0 < fk <= 16.0
  {
    if fk <= 6.0 then "Elementary"
    else if fk <= 9.0 then "Middle School"
    else if fk <= 12.0 then "High School"
    else if fk <= 16.0 then "College"
    else "Graduate"
  }

  function LevelRank(level: string): nat
  {
    if level == "Elementary" then 0
    else if level == "Middle School" then 1
    else if level == "High School" then 2
    else if level == "College" then 3
    else 4
  }

  /** A higher grade never gives an easier reading level. */
  lemma ReadingLevelMonotone(fk1: real, fk2: real)
    requires fk1 <= fk2
    ensures LevelRank(ReadingLevel(fk1)) <= LevelRank(ReadingLevel(fk2))
  {
  }

  /** The Flesch reading-ease bands, lower bounds 90, 80, 70, 60, 50 and 30. */
  function InterpretReadingEase(score: real): (r: string)
    ensures score >= 90.0 ==> r == "Very Easy (5th grade)"
    ensures 80.0 <= score < 90.0 ==> r == "Easy (6th grade)"
    ensures 70.0 <= score < 80.0 ==> r == "Fairly Easy (7th grade)"
    ensures 60.0 <= score < 70.0 ==> r == "Standard (8th-9th grade)"
    ensures 50.0 <= score < 60.0 ==> r == "Fairly Difficult (10th-12th grade)"
    ensures 30.0 <= score < 50.0 ==> r == "Difficult (College level)"
    ensures score < 30.0 <==> r == "Very Difficult (Graduate level)"
  {
    if score >= 90.0 then "Very Easy (5th grade)"
    else if score >= 80.0 then "Easy (6th grade)"
    else if score >= 70.0 then "Fairly Easy (7th grade)"
    else if score >= 60.0 then "Standard (8th-9th grade)"
    else if score >= 50.0 then "Fairly Difficult (10th-12th grade)"
    else if score >= 30.0 then "Difficult (College level)"
    else "Very Difficult (Graduate level)"
  }

  /** `_analyze_readability`: a textstat failure becomes this section's error only. */
  function AnalyzeReadability(scores: Result<ReadabilityScores>): (r: Result<Readability>)
    ensures scores.Err? <==> r.Err?
    ensures scores.Err? ==> r.error == "Readability analysis failed: " + scores.error
    ensures scores.Ok? ==>
      r.value.scores == scores.value
      && r.value.readingLevel == ReadingLevel(scores.value.fleschKincaidGrade)
      && r.value.interpretation == InterpretReadingEase(scores.value.fleschReadingEase)
      && -0.05 <= r.value.gradeEquivalent - scores.value.fleschKincaidGrade <= 0.05
  {
    match scores
    case Err(e) => Err("Readability analysis failed: " + e)
    case Ok(s) =>
      Ok(Readability(s, ReadingLevel(s.fleschKincaidGrade), PyMath.RoundTenth(s.fleschKincaidGrade),
                     InterpretReadingEase(s.fleschReadingEase)))
  }

  // ---------------------------------------------------------------- tokens

  /** `w.isalpha() and w not in stop_words and len(w) > 2`. */
  predicate KeepWord(w: string, stopWords: set<string>)
  {
    w != [] && (forall i :: 0 <= i < |w| ==> Text.IsLetter(w[i])) && w !in stopWords && |w| > 2
  }

  /** The filtered words: the kept words of `words`, in order. */
  function FilterWords(words: seq<string>, stopWords: set<string>): seq<string>
  {
    C.Filter(words, w => KeepWord(w, stopWords))
  }

  datatype TokenAnalysis = TokenAnalysis(
    totalWords: nat,
    uniqueWords: nat,
    filteredWords: nat,
    vocabularyDiversity: real,
    topTerms: seq<(string, nat)>,
    sentencesCount: nat,
    averageSentenceLength: real)

  /** The tokenisers and the stop-word list. */
  datatype Tokenizer = Tokenizer(
    sentTokenize: string -> Result<seq<string>>,
    wordTokenize: string -> Result<seq<string>>,
    stopWords: set<string>)

  /** `_analyze_tokens`: words come from the lower-cased text, sentences from the original. */
  function AnalyzeTokens(text: string, tk: Tokenizer): Result<TokenAnalysis>
  {
    match tk.sentTokenize(text)
    case Err(e) => Err("Token analysis failed: " + e)
    case Ok(sentences) =>
      match tk.wordTokenize(Text.Lower(text))
      case Err(e) => Err("Token analysis failed: " + e)
      case Ok(words) =>
        var filtered := FilterWords(words, tk.stopWords);
        Ok(TokenAnalysis(
          |words|,
          |set w | w in words|,
          |filtered|,
          Ratio3(|set w | w in filtered|, |filtered|),
          C.MostCommon(C.Tally(filtered), 10),
          |sentences|,
          Ratio(|words|, |sentences|)))
  }

  /**
   * The token statistics: at most ten top terms, each a kept word with its true frequency, in
   * non-increasing frequency and, within one frequency, in first-occurrence order; no kept
   * word is left out that is more frequent than the last one listed; the diversity is the
   * rounded share of distinct filtered words, 0 when nothing was kept and 1 when no kept
   * word repeats.
   */
  lemma TokenAnalysisMeans(text: string, tk: Tokenizer)
    requires AnalyzeTokens(text, tk).Ok?
    ensures var words := tk.wordTokenize(Text.Lower(text)).value;
      var filtered := FilterWords(words, tk.stopWords);
      var t := AnalyzeTokens(text, tk).value;
      |t.topTerms| <= 10 && t.filteredWords <= t.totalWords
      && C.SortedByCount(t.topTerms) && C.DistinctKeys(t.topTerms)
      && (forall i :: 0 <= i < |t.topTerms| ==>
            KeepWord(t.topTerms[i].0, tk.stopWords) && t.topTerms[i].1 == C.Count(words, t.topTerms[i].0))
      && (forall f :: C.WithCount(t.topTerms, f) <= C.WithCount(C.Tally(filtered), f))
      && (forall w :: w in filtered && w !in C.Keys(t.topTerms) ==>
            |t.topTerms| == 10 && C.Count(words, w) <= t.topTerms[9].1)
      && (filtered == [] ==> t.vocabularyDiversity == 0.0)
      && 0.0 <= t.vocabularyDiversity <= 1.0
      && (C.Distinct(filtered) == filtered ==> (filtered != [] <==> t.vocabularyDiversity == 1.0))
  {
    var words := tk.wordTokenize(Text.Lower(text)).value;
    var filtered := FilterWords(words, tk.stopWords);
    C.MostCommonOfTally(filtered, 10);
    forall f
      ensures C.WithCount(C.MostCommon(C.Tally(filtered), 10), f) <= C.WithCount(C.Tally(filtered), f)
    {
      C.MostCommonTies(C.Tally(filtered), 10, f);
    }
    var top := C.MostCommon(C.Tally(filtered), 10);
    forall i | 0 <= i < |top|
      ensures KeepWord(top[i].0, tk.stopWords) && top[i].1 == C.Count(words, top[i].0)
    {
      C.FilterCount(words, w => KeepWord(w, tk.stopWords), top[i].0);
    }
    forall w | w in filtered && w !in C.Keys(top)
      ensures C.Count(words, w) == C.Count(filtered, w)
    {
      C.FilterCount(words, w' => KeepWord(w', tk.stopWords), w);
    }
    C.SetSizeIsDistinct(filtered);
  }

  // ---------------------------------------------------------------- named entities

  /** A spaCy entity; `confidence` is the optional `_.confidence` extension. */
  datatype Entity = Entity(text: string, entityType: string, startChar: nat, endChar: nat, confidence: Option<real>)

  /** A spaCy document: its entities and its length in tokens. */
  datatype Doc = Doc(ents: seq<Entity>, length: nat)

  datatype EntityRecord = EntityRecord(text: string, start: nat, end: nat, confidence: real)

  datatype EntityAnalysis = EntityAnalysis(
    entitiesByType: seq<(string, seq<EntityRecord>)>,
    entityCounts: seq<(string, nat)>,
    totalEntities: nat,
    entityDensity: real)

  /** The characters the NER model may see. */
  const MaxNerChars := 100000

  /** The six entity types the result reports. */
  const KeyLabels := ["PERSON", "DATE", "ORG", "GPE", "MONEY", "TIME"]

  /** An entity's confidence rounded to two places; one without a confidence extension is reported at 0.5. */
  function RecordOf(e: Entity): (r: EntityRecord)
    ensures r.text == e.text && r.start == e.startChar && r.end == e.endChar
    ensures e.confidence.None? ==> r.confidence == 0.5
    ensures e.confidence.Some? ==> -0.005 <= r.confidence - e.confidence.value <= 0.005
  {
    EntityRecord(e.text, e.startChar, e.endChar,
                 if e.confidence.Some? then PyMath.RoundHundredth(e.confidence.value) else 0.5)
  }

  /** The entities' labels, in document order. */
  function Labels(ents: seq<Entity>): (ls: seq<string>)
    ensures |ls| == |ents|
  {
    if ents == [] then [] else Labels(ents[..|ents| - 1]) + [ents[|ents| - 1].entityType]
  }

  /** The records of the entities labelled `lbl`, in document order. */
  function OfLabel(ents: seq<Entity>, lbl: string): seq<EntityRecord>
  {
    if ents == [] then []
    else OfLabel(ents[..|ents| - 1], lbl) + (if ents[|ents| - 1].entityType == lbl then [RecordOf(ents[|ents| - 1])] else [])
  }

  /** A label's group holds one record per entity with that label. */
  lemma {:induction false} OfLabelCount(ents: seq<Entity>, lbl: string)
    ensures |OfLabel(ents, lbl)| == C.Count(Labels(ents), lbl)
  {
    if ents != [] {
      var init := ents[..|ents| - 1];
      OfLabelCount(init, lbl);
      C.CountAppend(Labels(init), ents[|ents| - 1].entityType, lbl);
      assert Labels(ents) == Labels(init) + [ents[|ents| - 1].entityType];
    }
  }

  /** The entity summary of a parsed document. */
  function SummaryOf(doc: Doc): EntityAnalysis
  {
    var counts := C.Tally(Labels(doc.ents));
    EntityAnalysis(
      seq(|KeyLabels|, k requires 0 <= k < |KeyLabels| => (KeyLabels[k], OfLabel(doc.ents, KeyLabels[k]))),
      counts,
      C.Total(counts),
      Ratio(C.Total(counts), doc.length))
  }

  /** `_extract_named_entities` on text cut to its first 100000 characters. */
  function EntitiesOf(text: string, ner: string -> Result<Doc>): Result<EntityAnalysis>
  {
    var input := if |text| > MaxNerChars then text[..MaxNerChars] else text;
    match ner(input)
    case Err(e) => Err("Named entity recognition failed: " + e)
    case Ok(doc) => Ok(SummaryOf(doc))
  }

  /**
   * The entity summary: each key type lists exactly its entities, in document order; the
   * counts are a tally of the labels in first-seen order; the total counts every entity,
   * repeats included.
   */
  lemma EntitySummaryMeans(doc: Doc)
    ensures var a := SummaryOf(doc);
      |a.entitiesByType| == 6
      && (forall k :: 0 <= k < 6 ==>
            a.entitiesByType[k].0 == KeyLabels[k]
            && |a.entitiesByType[k].1| == C.Count(Labels(doc.ents), KeyLabels[k]))
      && C.Keys(a.entityCounts) == C.Distinct(Labels(doc.ents))
      && (forall i :: 0 <= i < |a.entityCounts| ==>
            a.entityCounts[i].1 == C.Count(Labels(doc.ents), a.entityCounts[i].0))
      && a.totalEntities == |doc.ents|
  {
    C.TallyMeans(Labels(doc.ents));
    C.TallyTotal(Labels(doc.ents));
    forall k | 0 <= k < 6
      ensures |OfLabel(doc.ents, KeyLabels[k])| == C.Count(Labels(doc.ents), KeyLabels[k])
    {
      OfLabelCount(doc.ents, KeyLabels[k]);
    }
  }

  /** The labels that occur in `ents`. */
  function LabelSet(ents: seq<Entity>): set<string>
  {
    if ents == [] then {} else LabelSet(ents[..|ents| - 1]) + {ents[|ents| - 1].entityType}
  }

  lemma {:induction false} OfLabelAbsent(ents: seq<Entity>, lbl: string)
    requires lbl !in LabelSet(ents)
    ensures OfLabel(ents, lbl) == []
  {
    if ents != [] {
      OfLabelAbsent(ents[..|ents| - 1], lbl);
    }
  }

  /** `entities_by_type[label].append(record)`, creating the group on first sight. */
  function AddRecord(groups: map<string, seq<EntityRecord>>, e: Entity): map<string, seq<EntityRecord>>
  {
    groups[e.entityType := (if e.entityType in groups then groups[e.entityType] else []) + [RecordOf(e)]]
  }

  /** The groups after adding every entity of `ents` in order. */
  function GroupsOf(ents: seq<Entity>): map<string, seq<EntityRecord>>
  {
    if ents == [] then map[] else AddRecord(GroupsOf(ents[..|ents| - 1]), ents[|ents| - 1])
  }

  /** The groups hold a key exactly for each label that occurs, with exactly that label's records. */
  lemma {:induction false} GroupsOfMeans(ents: seq<Entity>, lbl: string)
    ensures lbl in GroupsOf(ents) <==> lbl in LabelSet(ents)
    ensures lbl in GroupsOf(ents) ==> GroupsOf(ents)[lbl] == OfLabel(ents, lbl)
  {
    if ents != [] {
      var init := ents[..|ents| - 1];
      GroupsOfMeans(init, lbl);
      if lbl == ents[|ents| - 1].entityType && lbl !in GroupsOf(init) {
        OfLabelAbsent(init, lbl);
      }
    }
  }

  /** One more entity adds its record to its group and bumps its label in the tally. */
  lemma EntityStep(ents: seq<Entity>, i: nat)
    requires i < |ents|
    ensures GroupsOf(ents[..i + 1]) == AddRecord(GroupsOf(ents[..i]), ents[i])
    ensures C.Tally(Labels(ents[..i + 1])) == C.Bump(C.Tally(Labels(ents[..i])), ents[i].entityType)
  {
    var ls := Labels(ents[..i + 1]);
    assert ents[..i + 1][..i] == ents[..i];
    assert ls[..|ls| - 1] == Labels(ents[..i]);
  }

  /** One entity more: the groups gain its record and its label is counted once more. */
  lemma GroupStep(ents: seq<Entity>, i: nat, groups: map<string, seq<EntityRecord>>)
    requires i < |ents|
    requires groups == GroupsOf(ents[..i])
    ensures AddRecord(groups, ents[i]) == GroupsOf(ents[..i + 1])
  {
    assert ents[..i + 1][..i] == ents[..i];
  }

  lemma CountStep(ents: seq<Entity>, i: nat, counts: seq<(string, nat)>)
    requires i < |ents|
    requires counts == C.Tally(Labels(ents[..i]))
    ensures C.Bump(counts, ents[i].entityType) == C.Tally(Labels(ents[..i + 1]))
  {
    EntityStep(ents, i);
  }

  /** Creating the missing list and then appending to it is adding the record. */
  lemma AppendIsAddRecord(before: map<string, seq<EntityRecord>>, after: map<string, seq<EntityRecord>>, e: Entity)
    requires e.entityType in before ==> after == before[e.entityType := before[e.entityType] + [RecordOf(e)]]
    requires e.entityType !in before ==> after == before[e.entityType := []][e.entityType := [] + [RecordOf(e)]]
    ensures after == AddRecord(before, e)
  {
  }

  /** The loop of `_extract_named_entities`: one pass filling the groups and the label counter. */
  method GroupEntities(ents: seq<Entity>) returns (byType: map<string, seq<EntityRecord>>, counts: seq<(string, nat)>)
    ensures byType == GroupsOf(ents)
    ensures counts == C.Tally(Labels(ents))
  {
    byType := map[];
    counts := [];
    var i := 0;
    while i < |ents|
      invariant 0 <= i <= |ents|
      invariant byType == GroupsOf(ents[..i])
      invariant counts == C.Tally(Labels(ents[..i]))
    {
      var e := ents[i];
      ghost var before := byType;
      GroupStep(ents, i, byType);
      CountStep(ents, i, counts);
      if e.entityType !in byType {
        byType := byType[e.entityType := []];
      }
      byType := byType[e.entityType := byType[e.entityType] + [RecordOf(e)]];
      AppendIsAddRecord(before, byType, e);
      counts := C.Bump(counts, e.entityType);
      i := i + 1;
    }
    assert ents[..i] == ents;
  }

  /** `_extract_named_entities`: the groups of the six key types, the label counts and the density. */
  method ExtractNamedEntities(text: string, ner: string -> Result<Doc>) returns (r: Result<EntityAnalysis>)
    ensures r == EntitiesOf(text, ner)
  {
    var input := text;
    if |text| > MaxNerChars {
      input := text[..MaxNerChars];
    }
    var parsed := ner(input);
    if parsed.Err? {
      return Err("Named entity recognition failed: " + parsed.error);
    }
    var ents := parsed.value.ents;
    var byType, counts := GroupEntities(ents);
    var keyEntities := seq(|KeyLabels|, k requires 0 <= k < |KeyLabels| =>
      (KeyLabels[k], if KeyLabels[k] in byType then byType[KeyLabels[k]] else []));
    forall k | 0 <= k < |KeyLabels|
      ensures keyEntities[k] == (KeyLabels[k], OfLabel(ents, KeyLabels[k]))
    {
      GroupsOfMeans(ents, KeyLabels[k]);
      if KeyLabels[k] !in byType {
        OfLabelAbsent(ents, KeyLabels[k]);
      }
    }
    assert keyEntities == SummaryOf(parsed.value).entitiesByType;
    var total := C.Total(counts);
    r := Ok(EntityAnalysis(keyEntities, counts, total, Ratio(total, parsed.value.length)));
  }

  // ---------------------------------------------------------------- sentiment

  /** VADER's polarity scores. */
  datatype Polarity = Polarity(neg: real, neu: real, pos: real, compound: real)

  datatype Sentiment = Sentiment(scores: Polarity, overall: string, confidence: real)

  /** This copy's bands are inclusive: exactly 0.05 is positive and exactly -0.05 negative. */
  function OverallSentiment(compound: real): (r: string)
    ensures r == "positive" <==> compound >= 0.05
    ensures r == "negative" <==> compound <= -0.05
    ensures r == "neutral" <==> -0.05 < compound < 0.05
  {
    if compound >= 0.05 then "positive" else if compound <= -0.05 then "negative" else "neutral"
  }

  function AnalyzeSentiment(scores: Result<Polarity>): (r: Result<Sentiment>)
    ensures scores.Err? <==> r.Err?
    ensures scores.Ok? ==>
      r.value.overall == OverallSentiment(scores.value.compound)
      && r.value.confidence >= 0.0
      && (r.value.confidence == scores.value.compound || r.value.confidence == -scores.value.compound)
  {
    match scores
    case Err(e) => Err("Sentiment analysis failed: " + e)
    case Ok(s) =>
      Ok(Sentiment(s, OverallSentiment(s.compound), if s.compound < 0.0 then -s.compound else s.compound))
  }

  // ---------------------------------------------------------------- language

  const EnglishIndicators := ["the", "and", "is", "in", "to", "of", "a", "that", "it", "with"]

  /** How many of `inds` occur as substrings of `text`. */
  function IndicatorScore(inds: seq<string>, text: string): (n: nat)
    ensures n <= |inds|
    ensures n == 0 <==> forall i :: 0 <= i < |inds| ==> !Text.Contains(text, inds[i])
    ensures n == |inds| <==> forall i :: 0 <= i < |inds| ==> Text.Contains(text, inds[i])
  {
    if inds == [] then 0
    else
      var rest := IndicatorScore(inds[1..], text);
      assert forall i :: 1 <= i < |inds| ==> inds[i] == inds[1..][i - 1];
      (if Text.Contains(text, inds[0]) then 1 else 0) + rest
  }

  datatype LanguageInfo = LanguageInfo(likelyEnglish: bool, englishIndicatorScore: nat, confidence: string)

  /** `_detect_language`: likely English from three indicators, high confidence from five. */
  function DetectLanguage(text: string): (r: LanguageInfo)
    ensures r.englishIndicatorScore == IndicatorScore(EnglishIndicators, Text.Lower(text))
    ensures r.englishIndicatorScore <= 10
    ensures r.likelyEnglish <==> r.englishIndicatorScore >= 3
    ensures r.confidence == (if r.englishIndicatorScore >= 5 then "high"
                             else if r.englishIndicatorScore >= 3 then "medium" else "low")
  {
    var score := IndicatorScore(EnglishIndicators, Text.Lower(text));
    LanguageInfo(score >= 3, score, if score >= 5 then "high" else if score >= 3 then "medium" else "low")
  }

  /** A text is likely English exactly when the confidence is not low. */
  lemma LikelyEnglishIffNotLow(text: string)
    ensures DetectLanguage(text).likelyEnglish <==> DetectLanguage(text).confidence != "low"
  {
  }

  // ---------------------------------------------------------------- text statistics

  datatype TextStatistics = TextStatistics(
    totalCharacters: nat,
    totalSentences: nat,
    totalParagraphs: nat,
    averageSentenceLengthWords: real,
    averageWordLengthCharacters: real,
    lexicalDiversity: real)

  /** `sum(len(sent.split()) for sent in sentences)`. */
  function SentenceWords(sentences: seq<string>): nat
  {
    if sentences == [] then 0 else |Text.Words(sentences[0])| + SentenceWords(sentences[1..])
  }

  /** `sum(len(word) for word in words)`. */
  function TotalLength(words: seq<string>): nat
  {
    if words == [] then 0 else |words[0]| + TotalLength(words[1..])
  }

  /** The paragraphs: the pieces between blank-line separators that are not blank once stripped. */
  function Paragraphs(text: string): (n: nat)
    ensures n <= |Text.SplitOnText(text, "\n\n")|
  {
    Text.CountNonBlank(Text.SplitOnText(text, "\n\n"))
  }

  /** `_compute_text_statistics`: an error when the sentence tokeniser fails. */
  function ComputeTextStatistics(text: string, tk: Tokenizer): (r: Result<TextStatistics>)
    ensures r.Err? <==> tk.sentTokenize(text).Err?
    ensures r.Err? ==> r.error == "Text statistics computation failed: " + tk.sentTokenize(text).error
    ensures r.Ok? ==>
      var sentences := tk.sentTokenize(text).value;
      var words := Text.Words(text);
      r.value.totalCharacters == |text| && r.value.totalSentences == |sentences|
      && r.value.totalParagraphs == Paragraphs(text)
      && r.value.averageSentenceLengthWords == PyMath.RoundHundredth(Ratio(SentenceWords(sentences), |sentences|))
      && r.value.averageWordLengthCharacters == PyMath.RoundHundredth(Ratio(TotalLength(words), |words|))
      && r.value.lexicalDiversity == Diversity(words)
  {
    match tk.sentTokenize(text)
    case Err(e) => Err("Text statistics computation failed: " + e)
    case Ok(sentences) =>
      var words := Text.Words(text);
      Ok(TextStatistics(
        |text|,
        |sentences|,
        Paragraphs(text),
        PyMath.RoundHundredth(Ratio(SentenceWords(sentences), |sentences|)),
        PyMath.RoundHundredth(Ratio(TotalLength(words), |words|)),
        Diversity(words)))
  }

  lemma {:induction false} TotalLengthIsConcat(ws: seq<string>)
    ensures TotalLength(ws) == |Text.Concat(ws)|
  {
    if ws != [] { TotalLengthIsConcat(ws[1..]); }
  }

  /**
   * The word lengths add up to the non-space characters of the text, so the average word
   * length is (within rounding) the non-space characters per word, and 0 without words.
   */
  lemma WordLengthMeans(text: string, tk: Tokenizer)
    requires tk.sentTokenize(text).Ok?
    ensures var s := ComputeTextStatistics(text, tk).value;
      var n := |Text.Words(text)|;
      (n == 0 ==> s.averageWordLengthCharacters == 0.0)
      && (n > 0 ==> -0.005 <= s.averageWordLengthCharacters - |Text.NonSpace(text)| as real / n as real <= 0.005)
  {
    TotalLengthIsConcat(Text.Words(text));
    Text.WordsKeepAllText(text);
    PyMath.RoundHundredthWhole(0);
  }

  /** `len(set(words)) / len(words)`, or 0 without words. */
  function Diversity(words: seq<string>): real
  {
    Ratio(|set w | w in words|, |words|)
  }

  /** The diversity is 0 without words, else in (0, 1], and 1 exactly when no word repeats. */
  lemma DiversityMeans(words: seq<string>)
    ensures var d := Diversity(words);
      (words == [] ==> d == 0.0)
      && (words != [] ==> 0.0 < d <= 1.0 && (d == 1.0 <==> C.Distinct(words) == words))
  {
    C.SetSizeIsDistinct(words);
    C.DistinctFull(words);
    if words != [] {
      assert words[0] in (set w | w in words);
      RatioShare(|set w | w in words|, |words|);
    }
  }

  lemma RatioShare(a: nat, b: nat)
    requires 0 < a <= b
    ensures 0.0 < Ratio(a, b) <= 1.0 && (Ratio(a, b) == 1.0 <==> a == b)
  {
  }

  /** A text without a blank-line separator is one paragraph, or none when it is blank. */
  lemma OneParagraph(text: string)
    requires Text.Lacks(text, "\n\n")
    ensures Paragraphs(text) == if Text.IsBlank(text) then 0 else 1
  {
    assert Text.SplitOnText(text, "\n\n") == [text];
    assert Text.StripAll([text]) == [Text.Strip(text)];
  }

  // ---------------------------------------------------------------- local analysis

  /** The library functions the local analysis calls. */
  datatype Toolkit = Toolkit(
    textstat: string -> Result<ReadabilityScores>,
    tokenizer: Tokenizer,
    ner: string -> Result<Doc>,
    vader: string -> Result<Polarity>)

  datatype LocalResults =
    | Insufficient(error: string)
    | Analysed(
        readability: Result<Readability>,
        tokens: Result<TokenAnalysis>,
        entities: Result<EntityAnalysis>,
        sentiment: Result<Sentiment>,
        statistics: Result<TextStatistics>,
        language: LanguageInfo)

  /** `perform_local_nlp_analysis`: the guard, then each analysis on its own. */
  function LocalAnalysis(text: string, kit: Toolkit): (r: LocalResults)
    ensures r.Insufficient? <==> !Sufficient(text)
    ensures r.Insufficient? ==> r.error == InsufficientText
  {
    if !Sufficient(text) then Insufficient(InsufficientText)
    else Analysed(
      AnalyzeReadability(kit.textstat(text)),
      AnalyzeTokens(text, kit.tokenizer),
      EntitiesOf(text, kit.ner),
      AnalyzeSentiment(kit.vader(text)),
      ComputeTextStatistics(text, kit.tokenizer),
      DetectLanguage(text))
  }

  /** A failing library spoils only its own section. */
  lemma SectionsAreIndependent(text: string, kit: Toolkit, kit2: Toolkit)
    requires Sufficient(text) && kit2.textstat == kit.textstat
    ensures LocalAnalysis(text, kit2).readability == LocalAnalysis(text, kit).readability
    ensures LocalAnalysis(text, kit2).language == LocalAnalysis(text, kit).language
  {
  }

  // ---------------------------------------------------------------- the AI response

  /** The first '{' of `s` and the last '}' after it, if any: the span of `\{.*\}` with DOTALL. */
  function BraceSpan(s: string): (r: Option<(nat, nat)>)
    ensures r.Some? ==>
      r.value.0 < r.value.1 < |s| && s[r.value.0] == '{' && s[r.value.1] == '}'
      && '{' !in s[..r.value.0] && '}' !in s[r.value.1 + 1..]
    ensures r.None? <==> !exists i, j :: 0 <= i < j < |s| && s[i] == '{' && s[j] == '}'
  {
    var open := Text.FirstIn(s, {'{'});
    var close := LastIndex(s, '}');
    if open < |s| && close.Some? && open < close.value then
      Some((open, close.value))
    else
      assert !exists i, j :: 0 <= i < j < |s| && s[i] == '{' && s[j] == '}' by {
        forall i, j | 0 <= i < j < |s| && s[i] == '{'
          ensures s[j] != '}'
        {
          assert open <= i;
          if close.Some? {
            assert s[j] == s[close.value + 1..][j - close.value - 1];
          }
        }
      }
      None
  }

  /** The last index of `c` in `s`. */
  function LastIndex(s: string, c: char): (r: Option<nat>)
    ensures r.Some? ==> r.value < |s| && s[r.value] == c && c !in s[r.value + 1..]
    ensures r.None? <==> c !in s
  {
    if s == [] then None
    else if s[|s| - 1] == c then Some(|s| - 1)
    else
      var r := LastIndex(s[..|s| - 1], c);
      assert s == s[..|s| - 1] + [s[|s| - 1]];
      if r.Some? then
        assert s[r.value + 1..] == s[..|s| - 1][r.value + 1..] + [s[|s| - 1]];
        r
      else r
  }

  /** The fallback summary of a response without a JSON object. */
  function PlainSummary(response: string): Json.Value
  {
    Json.Obj([
      ("summary", Json.Str(if |response| > 500 then response[..500] else response)),
      ("key_topics", Json.Arr([])),
      ("writing_quality", Json.Str("unknown")),
      ("content_depth", Json.Str("unknown")),
      ("academic_level", Json.Str("unknown")),
      ("strengths", Json.Arr([])),
      ("areas_for_improvement", Json.Arr([])),
      ("estimated_completion_effort", Json.Str("unknown"))])
  }

  /** `_parse_ai_response`: decode the brace span, else the plain summary; a decode error is reported. */
  function ParseAiResponse(response: string, loads: string -> Result<Json.Value>): (r: Json.Value)
    ensures BraceSpan(response).None? ==> r == PlainSummary(response)
    ensures BraceSpan(response).Some? ==>
      var (i, j) := BraceSpan(response).value;
      match loads(response[i..j + 1])
      case Ok(v) => r == v
      case Err(e) => r == Json.Obj([("summary", Json.Str("AI analysis failed to parse")), ("error", Json.Str(e))])
  {
    match BraceSpan(response)
    case None => PlainSummary(response)
    case Some((i, j)) =>
      match loads(response[i..j + 1])
      case Ok(v) => v
      case Err(e) => Json.Obj([("summary", Json.Str("AI analysis failed to parse")), ("error", Json.Str(e))])
  }

  /** Without a JSON object the summary is the response's first 500 characters, with no topics. */
  lemma PlainSummaryShape(response: string)
    ensures var r := PlainSummary(response);
      r.Obj? && Json.Lookup(r.fields, "summary") == Some(Json.Str(response[..if |response| > 500 then 500 else |response|]))
      && Json.Lookup(r.fields, "key_topics") == Some(Json.Arr([]))
  {
    var r := PlainSummary(response);
    assert response[..|response|] == response;
    assert r.fields[0].0 == "summary";
    assert r.fields[1].0 == "key_topics";
    assert "summary" != "key_topics" by { assert "summary"[0] != "key_topics"[0]; }
  }

  // ---------------------------------------------------------------- recommendations

  datatype Recommendation = Recommendation(category: string, message: Json.Value, priority: string)

  const SimplifyAdvice := Recommendation("readability",
    Json.Str("Consider simplifying sentence structure for better readability"), "medium")
  const SophisticationAdvice := Recommendation("readability",
    Json.Str("Consider using more sophisticated vocabulary and sentence structures"), "low")
  const VocabularyAdvice := Recommendation("vocabulary",
    Json.Str("Consider using more varied vocabulary to improve writing quality"), "medium")

  /** The readability advice: above grade 16 simplify, below grade 8 be more sophisticated. */
  function ReadabilityAdvice(readability: Result<Readability>): (r: seq<Recommendation>)
    ensures |r| <= 1
  {
    if readability.Err? then []
    else if readability.value.scores.fleschKincaidGrade > 16.0 then [SimplifyAdvice]
    else if readability.value.scores.fleschKincaidGrade < 8.0 then [SophisticationAdvice]
    else []
  }

  /** The vocabulary advice; a failed token analysis has no diversity, which reads as 0. */
  function DiversityAdvice(tokens: Result<TokenAnalysis>): (r: seq<Recommendation>)
    ensures |r| <= 1
  {
    var diversity := if tokens.Ok? then tokens.value.vocabularyDiversity else 0.0;
    if diversity < 0.3 then [VocabularyAdvice] else []
  }

  /**
   * The AI's improvement items: none when the summary is falsy or lacks the key, `None` when
   * the lookup or the iteration raises a `TypeError`.
   */
  function AiImprovements(ai: Json.Value): Option<seq<Json.Value>>
  {
    if !Json.Truthy(ai) then Some([])
    else match ai
      case Obj(fields) =>
        (match Json.Lookup(fields, "areas_for_improvement")
         case None => Some([])
         case Some(v) => Iterate(v))
      case Str(s) => if Text.Contains(s, "areas_for_improvement") then None else Some([])
      case Arr(items) => if Json.Str("areas_for_improvement") in items then None else Some([])
      case _ => None
  }

  /** Python iteration over a JSON value: list items, string characters, dict keys. */
  function Iterate(v: Json.Value): Option<seq<Json.Value>>
  {
    match v
    case Arr(items) => Some(items)
    case Str(s) => Some(seq(|s|, i requires 0 <= i < |s| => Json.Str([s[i]])))
    case Obj(fields) => Some(seq(|fields|, i requires 0 <= i < |fields| => Json.Str(fields[i].0)))
    case _ => None
  }

  function AiAdvice(items: seq<Json.Value>): (r: seq<Recommendation>)
    ensures |r| == |items|
    ensures forall i :: 0 <= i < |items| ==> r[i] == Recommendation("ai_suggestion", items[i], "high")
  {
    if items == [] then [] else AiAdvice(items[..|items| - 1]) + [Recommendation("ai_suggestion", items[|items| - 1], "high")]
  }

  /** `_generate_recommendations`: readability, vocabulary, then the AI's items; any error gives none. */
  function Recommendations(local: LocalResults, ai: Json.Value): seq<Recommendation>
  {
    match local
    case Insufficient(_) => []
    case Analysed(readability, tokens, _, _, _, _) =>
      match AiImprovements(ai)
      case None => []
      case Some(items) => ReadabilityAdvice(readability) + DiversityAdvice(tokens) + AiAdvice(items)
  }

  method GenerateRecommendations(local: LocalResults, ai: Json.Value) returns (recs: seq<Recommendation>)
    ensures recs == Recommendations(local, ai)
  {
    if local.Insufficient? {
      return [];
    }
    recs := [];
    if local.readability.Ok? {
      var fk := local.readability.value.scores.fleschKincaidGrade;
      if fk > 16.0 {
        recs := recs + [SimplifyAdvice];
      } else if fk < 8.0 {
        recs := recs + [SophisticationAdvice];
      }
    }
    var diversity := if local.tokens.Ok? then local.tokens.value.vocabularyDiversity else 0.0;
    if diversity < 0.3 {
      recs := recs + [VocabularyAdvice];
    }
    assert recs == ReadabilityAdvice(local.readability) + DiversityAdvice(local.tokens);
    var improvements := AiImprovements(ai);
    if improvements.None? {
      return [];
    }
    recs := AppendAiAdvice(recs, improvements.value);
  }

  /** The loop over `areas_for_improvement`: one high-priority item per entry, in order. */
  method AppendAiAdvice(start: seq<Recommendation>, items: seq<Json.Value>) returns (recs: seq<Recommendation>)
    ensures recs == start + AiAdvice(items)
  {
    recs := start;
    var k := 0;
    while k < |items|
      invariant 0 <= k <= |items|
      invariant recs == start + AiAdvice(items[..k])
    {
      assert items[..k + 1][..k] == items[..k];
      recs := recs + [Recommendation("ai_suggestion", items[k], "high")];
      k := k + 1;
    }
    assert items[..k] == items;
  }

  function CategoryRank(category: string): nat
  {
    if category == "readability" then 0 else if category == "vocabulary" then 1 else 2
  }

  /**
   * The recommendations come in category order (readability, vocabulary, AI); a grade above
   * 16 gives the medium "simplify" item first, one below 8 the low "sophisticated" item, and
   * one in between no readability item; the AI items close the list in their own order.
   */
  lemma RecommendationsMeans(local: LocalResults, ai: Json.Value)
    requires local.Analysed? && AiImprovements(ai).Some?
    ensures var r := Recommendations(local, ai);
      var items := AiImprovements(ai).value;
      (forall i, j :: 0 <= i < j < |r| ==> CategoryRank(r[i].category) <= CategoryRank(r[j].category))
      && (local.readability.Ok? && local.readability.value.scores.fleschKincaidGrade > 16.0 ==> r[0] == SimplifyAdvice)
      && (local.readability.Ok? && local.readability.value.scores.fleschKincaidGrade < 8.0 ==> r[0] == SophisticationAdvice)
      && ((local.readability.Err? || 8.0 <= local.readability.value.scores.fleschKincaidGrade <= 16.0) ==>
            forall i :: 0 <= i < |r| ==> r[i].category != "readability")
      && |items| <= |r| && r[|r| - |items|..] == AiAdvice(items)
  {
    var r := Recommendations(local, ai);
    var items := AiImprovements(ai).value;
    var a := ReadabilityAdvice(local.readability);
    var d := DiversityAdvice(local.tokens);
    var c := AiAdvice(items);
    assert r == a + d + c;
    assert r[|r| - |items|..] == c;
    assert InRank(a, 0) && InRank(d, 1) && InRank(c, 2);
    ConcatInRankOrder(a, d, c);
  }

  /** Every recommendation of `rs` has category rank `k`. */
  predicate InRank(rs: seq<Recommendation>, k: nat)
  {
    forall i :: 0 <= i < |rs| ==> CategoryRank(rs[i].category) == k
  }

  /** Three runs of ranks 0, 1 and 2, one after another, are in rank order. */
  lemma ConcatInRankOrder(a: seq<Recommendation>, d: seq<Recommendation>, c: seq<Recommendation>)
    requires InRank(a, 0) && InRank(d, 1) && InRank(c, 2)
    ensures var r := a + d + c;
      forall i, j :: 0 <= i < j < |r| ==> CategoryRank(r[i].category) <= CategoryRank(r[j].category)
  {
    var r := a + d + c;
    forall i | 0 <= i < |r|
      ensures CategoryRank(r[i].category) == if i < |a| then 0 else if i < |a| + |d| then 1 else 2
    {
      if i < |a| { assert r[i] == a[i]; }
      else if i < |a| + |d| { assert r[i] == d[i - |a|]; }
      else { assert r[i] == c[i - |a| - |d|]; }
    }
  }

  // ---------------------------------------------------------------- consolidation

  /** The dashboard metrics; `readability` is absent when that section failed. */
  datatype SummaryMetrics = SummaryMetrics(
    readability: Option<(real, string)>,
    vocabularyDiversity: Option<real>,
    uniqueWords: Option<nat>,
    totalEntities: nat)

  datatype Consolidated = Consolidated(
    analysisTimestamp: string,
    localNlp: LocalResults,
    aiInsights: Json.Value,
    summaryMetrics: SummaryMetrics,
    recommendations: seq<Recommendation>)

  /** The error a `None` section raises inside the consolidation. */
  const NoneSectionError := "Consolidation error: argument of type 'NoneType' is not iterable"

  function MetricsOf(readability: Result<Readability>, tokens: Result<TokenAnalysis>,
                     entities: Result<EntityAnalysis>): (m: SummaryMetrics)
    ensures m.readability.Some? <==> readability.Ok?
    ensures readability.Ok? ==>
      m.readability.value ==
      (readability.value.scores.fleschKincaidGrade, readability.value.readingLevel)
    ensures m.vocabularyDiversity.Some? <==> tokens.Ok?
    ensures tokens.Ok? ==>
      m.vocabularyDiversity == Some(tokens.value.vocabularyDiversity)
      && m.uniqueWords == Some(tokens.value.uniqueWords)
    ensures m.totalEntities == if entities.Ok? then entities.value.totalEntities else 0
  {
    SummaryMetrics(
      if readability.Ok? then Some((readability.value.scores.fleschKincaidGrade, readability.value.readingLevel)) else None,
      if tokens.Ok? then Some(tokens.value.vocabularyDiversity) else None,
      if tokens.Ok? then Some(tokens.value.uniqueWords) else None,
      if entities.Ok? then entities.value.totalEntities else 0)
  }

  /**
   * `consolidate_nlp_results`: metrics from the sections present, then the recommendations;
   * the guard's `None` sections make it fail.
   */
  function Consolidate(local: LocalResults, ai: Json.Value, timestamp: string): (r: Result<Consolidated>)
    ensures r.Err? <==> local.Insufficient?
    ensures r.Err? ==> r.error == NoneSectionError
    ensures r.Ok? ==>
      r.value.localNlp == local && r.value.aiInsights == ai
      && r.value.summaryMetrics == MetricsOf(local.readability, local.tokens, local.entities)
      && r.value.recommendations == Recommendations(local, ai)
  {
    match local
    case Insufficient(_) => Err(NoneSectionError)
    case Analysed(readability, tokens, entities, _, _, _) =>
      Ok(Consolidated(timestamp, local, ai, MetricsOf(readability, tokens, entities), Recommendations(local, ai)))
  }

  /** Every short document fails consolidation, so the endpoint answers with an error. */
  lemma ShortTextFailsConsolidation(text: string, kit: Toolkit, ai: Json.Value, timestamp: string)
    requires !Sufficient(text)
    ensures Consolidate(LocalAnalysis(text, kit), ai, timestamp) == Err(NoneSectionError)
  {
  }

  /** Consolidation with the guard's `None` sections read as absent, as the other sections are. */
  function ConsolidateFixed(local: LocalResults, ai: Json.Value, timestamp: string): (r: Consolidated)
    ensures local.Analysed? ==> Consolidate(local, ai, timestamp) == Ok(r)
    ensures local.Insufficient? ==>
      r.summaryMetrics == SummaryMetrics(None, None, None, 0)
      && r.recommendations == []
  {
    match local
    case Insufficient(_) => Consolidated(timestamp, local, ai, SummaryMetrics(None, None, None, 0), [])
    case Analysed(readability, tokens, entities, _, _, _) =>
      Consolidated(timestamp, local, ai, MetricsOf(readability, tokens, entities), Recommendations(local, ai))
  }

  /** The exhibit: a nine-character text passes the endpoint's text check and then fails consolidation. */
  lemma NineCharacterTextFails(kit: Toolkit)
    ensures !Sufficient("too short")
    ensures Consolidate(LocalAnalysis("too short", kit), Json.Null, "") == Err(NoneSectionError)
  {
    assert |Text.Strip("too short")| <= |"too short"| == 9;
  }
}
