// The NLP service the analysis endpoint's auto-triggered block uses: the same guard and
// reading levels as the NLP endpoint, but its own token filter, entity summary, strict
// sentiment bands and constant language guess, and lazily initialised libraries held as
// flags on the service object. Every library is a parameter; a missing one is `None`.
module NlpService {
  import opened Wrappers
  import Text
  import C = Counter
  import PyMath
  import Api = NlpApi

  // ---------------------------------------------------------------- readability

  datatype Readability = Readability(scores: Api.ReadabilityScores, readingLevel: string, gradeLevel: real)

  /** `_analyze_readability`: `None` when textstat is missing or fails. */
  function AnalyzeReadability(textstat: Option<string -> Result<Api.ReadabilityScores>>, text: string)
    : (r: Option<Readability>)
    ensures r.Some? <==> textstat.Some? && textstat.value(text).Ok?
    ensures r.Some? ==>
      var fk := textstat.value(text).value.fleschKincaidGrade;
      r.value.scores == textstat.value(text).value && r.value.readingLevel == Api.ReadingLevel(fk)
      && -0.05 <= r.value.gradeLevel - fk <= 0.05
  {
    match textstat
    case None => None
    case Some(stat) =>
      match stat(text)
      case Err(_) => None
      case Ok(s) =>
        Some(Readability(s, Api.ReadingLevel(s.fleschKincaidGrade), PyMath.RoundTenth(s.fleschKincaidGrade)))
  }

  // ---------------------------------------------------------------- tokens

  /** `w.isalnum() and w not in stop_words`: no length limit here. */
  predicate KeepToken(w: string, stopWords: set<string>)
  {
    w != [] && (forall i :: 0 <= i < |w| ==> Text.IsLetter(w[i]) || Text.IsDigit(w[i])) && w !in stopWords
  }

  datatype TokenStats = TokenStats(
    totalTokens: nat,
    uniqueTokens: nat,
    filteredTokens: nat,
    topTerms: seq<(string, nat)>,
    vocabularyRichness: real)

  /** The tally size `most_common` is asked for. */
  const TopTermCount := 20

  /** The tokens the filter keeps, in order. */
  function FilterTokens(tokens: seq<string>, stopWords: set<string>): seq<string>
  {
    C.Filter(tokens, w => KeepToken(w, stopWords))
  }

  /** The statistics of a token list. */
  function StatsOf(tokens: seq<string>, stopWords: set<string>): TokenStats
  {
    var filtered := FilterTokens(tokens, stopWords);
    TokenStats(
      |tokens|,
      UniqueCount(tokens),
      |filtered|,
      C.MostCommon(C.Tally(filtered), TopTermCount),
      Richness(tokens))
  }

  /** `len(set(tokens))`. */
  function UniqueCount(tokens: seq<string>): nat
  {
    |set w | w in tokens|
  }

  /** `len(set(tokens)) / len(tokens)`, or 0 without tokens: the same share as the endpoint's. */
  function Richness(tokens: seq<string>): real
  {
    Api.Diversity(tokens)
  }

  /** The counts textstat's statistics calls report on a text. */
  datatype TextCounts = TextCounts(
    syllableCount: nat,
    lexiconCount: nat,
    sentenceCount: nat,
    avgSyllablesPerWord: real,
    difficultWords: nat)

  /**
   * `_compute_text_statistics`: textstat's counts as they are; `None` when textstat is
   * missing (the unbound name raises) or one of its calls fails.
   */
  function ComputeTextStatistics(installed: bool, counts: string -> Result<TextCounts>, text: string)
    : (r: Option<TextCounts>)
    ensures r.Some? <==> installed && counts(text).Ok?
    ensures r.Some? ==> r.value == counts(text).value
  {
    if !installed then None
    else match counts(text)
      case Err(_) => None
      case Ok(c) => Some(c)
  }

  /** `_analyze_tokens`: `None` when NLTK is missing or tokenising fails. */
  function AnalyzeTokens(text: string, nltkInstalled: bool, tk: Api.Tokenizer): (r: Option<TokenStats>)
    ensures r.Some? <==> nltkInstalled && tk.wordTokenize(Text.Lower(text)).Ok?
    ensures r.Some? ==> r.value == StatsOf(tk.wordTokenize(Text.Lower(text)).value, tk.stopWords)
  {
    if !nltkInstalled then None
    else match tk.wordTokenize(Text.Lower(text))
      case Err(_) => None
      case Ok(tokens) => Some(StatsOf(tokens, tk.stopWords))
  }

  /**
   * The token statistics: at most 20 top terms, each a kept token with its true frequency, in
   * non-increasing frequency, ties in first-occurrence order, none left out more frequent than
   * the last listed.
   */
  lemma StatsMeans(tokens: seq<string>, stopWords: set<string>)
    ensures var filtered := FilterTokens(tokens, stopWords);
      var t := StatsOf(tokens, stopWords);
      |t.topTerms| <= TopTermCount && t.filteredTokens <= t.totalTokens
      && C.SortedByCount(t.topTerms) && C.DistinctKeys(t.topTerms)
      && (forall i :: 0 <= i < |t.topTerms| ==>
            KeepToken(t.topTerms[i].0, stopWords) && t.topTerms[i].1 == C.Count(tokens, t.topTerms[i].0))
      && (forall f :: C.WithCount(t.topTerms, f) <= C.WithCount(C.Tally(filtered), f))
      && (forall w :: w in filtered && w !in C.Keys(t.topTerms) ==>
            |t.topTerms| == TopTermCount && C.Count(tokens, w) <= t.topTerms[TopTermCount - 1].1)
  {
    var filtered := FilterTokens(tokens, stopWords);
    C.MostCommonOfTally(filtered, TopTermCount);
    forall f
      ensures C.WithCount(C.MostCommon(C.Tally(filtered), TopTermCount), f) <= C.WithCount(C.Tally(filtered), f)
    {
      C.MostCommonTies(C.Tally(filtered), TopTermCount, f);
    }
    var top := C.MostCommon(C.Tally(filtered), TopTermCount);
    forall i | 0 <= i < |top|
      ensures KeepToken(top[i].0, stopWords) && top[i].1 == C.Count(tokens, top[i].0)
    {
      C.FilterCount(tokens, w => KeepToken(w, stopWords), top[i].0);
    }
    forall w | w in filtered && w !in C.Keys(top)
      ensures C.Count(tokens, w) == C.Count(filtered, w)
    {
      C.FilterCount(tokens, w => KeepToken(w, stopWords), w);
    }
  }

  // ---------------------------------------------------------------- named entities

  /** The characters the NER model may see. */
  const MaxNerChars := 100000

  /** The texts one label keeps. */
  const MaxPerType := 10

  /** The summary: per label in first-seen order its distinct texts, the entity count, the labels. */
  datatype EntitySummary = EntitySummary(
    entitiesByType: seq<(string, seq<string>)>,
    totalEntities: nat,
    entityTypes: seq<string>)

  /** The texts of the entities labelled `lbl`, in document order. */
  function TextsOf(ents: seq<Api.Entity>, lbl: string): seq<string>
  {
    if ents == [] then []
    else TextsOf(ents[..|ents| - 1], lbl) + (if ents[|ents| - 1].entityType == lbl then [ents[|ents| - 1].text] else [])
  }

  /** `entities[ent.label_].append(ent.text)`, creating the list on first sight. */
  function AddText(groups: map<string, seq<string>>, e: Api.Entity): map<string, seq<string>>
  {
    groups[e.entityType := (if e.entityType in groups then groups[e.entityType] else []) + [e.text]]
  }

  /** The lists after adding every entity of `ents` in order. */
  function TextGroups(ents: seq<Api.Entity>): map<string, seq<string>>
  {
    if ents == [] then map[] else AddText(TextGroups(ents[..|ents| - 1]), ents[|ents| - 1])
  }

  lemma {:induction false} TextsOfAbsent(ents: seq<Api.Entity>, lbl: string)
    requires lbl !in Api.Labels(ents)
    ensures TextsOf(ents, lbl) == []
  {
    if ents != [] {
      assert Api.Labels(ents) == Api.Labels(ents[..|ents| - 1]) + [ents[|ents| - 1].entityType];
      TextsOfAbsent(ents[..|ents| - 1], lbl);
    }
  }

  /** The lists hold a key exactly for each label that occurs, with exactly that label's texts. */
  lemma {:induction false} TextGroupsMeans(ents: seq<Api.Entity>, lbl: string)
    ensures lbl in TextGroups(ents) <==> lbl in Api.Labels(ents)
    ensures lbl in TextGroups(ents) ==> TextGroups(ents)[lbl] == TextsOf(ents, lbl)
  {
    if ents != [] {
      var init := ents[..|ents| - 1];
      assert Api.Labels(ents) == Api.Labels(init) + [ents[|ents| - 1].entityType];
      TextGroupsMeans(init, lbl);
      if lbl == ents[|ents| - 1].entityType && lbl !in TextGroups(init) {
        TextsOfAbsent(init, lbl);
      }
    }
  }

  /**
   * `list(set(texts))[:10]`. Python's set order is unspecified; the model keeps first
   * occurrences in document order.
   */
  function Summarize(texts: seq<string>): (r: seq<string>)
    ensures |r| <= MaxPerType
    ensures forall i :: 0 <= i < |r| ==> r[i] in texts
    ensures forall i, j :: 0 <= i < j < |r| ==> r[i] != r[j]
    ensures |C.Distinct(texts)| <= MaxPerType ==> forall t :: t in texts ==> t in r
  {
    var d := C.Distinct(texts);
    if |d| > MaxPerType then d[..MaxPerType] else d
  }

  /** The summary of a parsed document. */
  function SummaryOf(doc: Api.Doc): EntitySummary
  {
    var types := C.Distinct(Api.Labels(doc.ents));
    EntitySummary(
      seq(|types|, k requires 0 <= k < |types| => (types[k], Summarize(TextsOf(doc.ents, types[k])))),
      |doc.ents|,
      types)
  }

  /**
   * Every label that occurs is listed once, in first-seen order, with at most ten distinct
   * texts of its own entities (all of them when it has no more than ten); the total counts
   * every entity, repeats included.
   */
  lemma SummaryMeans(doc: Api.Doc)
    ensures var s := SummaryOf(doc);
      s.totalEntities == |doc.ents|
      && s.entityTypes == C.Distinct(Api.Labels(doc.ents))
      && |s.entitiesByType| == |s.entityTypes|
      && (forall k :: 0 <= k < |s.entitiesByType| ==>
            s.entitiesByType[k].0 == s.entityTypes[k]
            && |s.entitiesByType[k].1| <= MaxPerType
            && (forall t :: t in s.entitiesByType[k].1 ==> t in TextsOf(doc.ents, s.entityTypes[k])))
  {
  }

  /** The loop of `_extract_named_entities`: the per-label lists and their keys in insertion order. */
  method GroupTexts(ents: seq<Api.Entity>) returns (entities: map<string, seq<string>>, order: seq<string>)
    ensures entities == TextGroups(ents)
    ensures order == C.Distinct(Api.Labels(ents))
  {
    entities := map[];
    order := [];
    var i := 0;
    while i < |ents|
      invariant 0 <= i <= |ents|
      invariant entities == TextGroups(ents[..i])
      invariant order == C.Distinct(Api.Labels(ents[..i]))
    {
      var e := ents[i];
      GroupStep(ents, i);
      TextGroupsMeans(ents[..i], e.entityType);
      if e.entityType !in entities {
        entities := entities[e.entityType := []];
        order := order + [e.entityType];
      }
      entities := entities[e.entityType := entities[e.entityType] + [e.text]];
      i := i + 1;
    }
    assert ents[..i] == ents;
  }

  lemma GroupStep(ents: seq<Api.Entity>, i: nat)
    requires i < |ents|
    ensures TextGroups(ents[..i + 1]) == AddText(TextGroups(ents[..i]), ents[i])
    ensures var d := C.Distinct(Api.Labels(ents[..i]));
      C.Distinct(Api.Labels(ents[..i + 1])) == if ents[i].entityType in d then d else d + [ents[i].entityType]
  {
    var ls := Api.Labels(ents[..i + 1]);
    assert ents[..i + 1][..i] == ents[..i];
    assert ls[..|ls| - 1] == Api.Labels(ents[..i]);
  }

  /** The model names tried in turn. */
  const ModelNames := ["en_core_web_sm", "en_core_web_md", "en_core_web_lg"]

  /** The first model of `names` that loads. */
  function FirstLoaded(names: seq<string>, load: string -> Option<string -> Result<Api.Doc>>)
    : Option<string -> Result<Api.Doc>>
  {
    if names == [] then None
    else if load(names[0]).Some? then load(names[0])
    else FirstLoaded(names[1..], load)
  }

  // ---------------------------------------------------------------- sentiment

  datatype Sentiment = Sentiment(compound: real, positive: real, neutral: real, negative: real, overall: string)

  /** This copy's bands are strict: exactly 0.05 and exactly -0.05 are neutral. */
  function StrictOverall(compound: real): (r: string)
    ensures r == "positive" <==> compound > 0.05
    ensures r == "negative" <==> compound < -0.05
    ensures r == "neutral" <==> -0.05 <= compound <= 0.05
  {
    if compound > 0.05 then "positive" else if compound < -0.05 then "negative" else "neutral"
  }

  /** The two copies label a score differently exactly at the two band edges. */
  lemma SentimentCopiesDiffer(compound: real)
    ensures StrictOverall(compound) != Api.OverallSentiment(compound) <==> compound == 0.05 || compound == -0.05
  {
  }

  /** `_analyze_sentiment`: `None` when NLTK is missing or VADER fails. */
  function AnalyzeSentiment(text: string, nltkInstalled: bool, vader: string -> Result<Api.Polarity>)
    : (r: Option<Sentiment>)
    ensures r.Some? <==> nltkInstalled && vader(text).Ok?
    ensures r.Some? ==> var p := vader(text).value;
      r.value == Sentiment(p.compound, p.pos, p.neu, p.neg, StrictOverall(p.compound))
  {
    if !nltkInstalled then None
    else match vader(text)
      case Err(_) => None
      case Ok(p) => Some(Sentiment(p.compound, p.pos, p.neu, p.neg, StrictOverall(p.compound)))
  }

  // ---------------------------------------------------------------- language

  datatype LanguageGuess = LanguageGuess(detectedLanguage: string, confidence: real, note: string)

  /** `_detect_language`: English at 0.95 whatever the text. */
  function DetectLanguage(text: string): (r: LanguageGuess)
    ensures r.detectedLanguage == "en" && r.confidence == 0.95
  {
    LanguageGuess("en", 0.95, "Basic English detection")
  }

  // ---------------------------------------------------------------- the AI summary

  /** The assignment type of a truthy context: the key may be missing or hold `None`. */
  datatype AiContext = NoContext | Context(assignmentType: Option<Option<string>>)

  const SummaryInstruction := "Provide a concise summary of the following academic document:\n\n"

  /** The longest prefix of the document the prompt carries. */
  const MaxPromptText := 5000

  /** `f"Assignment: {ctx.get('assignment_type', 'Unknown')}\n\n"`, or nothing without a context. */
  function AssignmentHeader(ctx: AiContext): string
  {
    match ctx
    case NoContext => ""
    case Context(a) =>
      var name := match a
        case None => "Unknown"
        case Some(None) => "None"
        case Some(Some(s)) => s;
      "Assignment: " + name + "\n\n"
  }

  /** The prompt: the optional header, the instruction, then at most 5000 characters of the text. */
  function Prompt(text: string, ctx: AiContext): (p: string)
    ensures var n := if |text| > MaxPromptText then MaxPromptText else |text|;
      Text.EndsWith(p, text[..n]) && Text.IsPrefix(AssignmentHeader(ctx) + SummaryInstruction, p)
      && |p| == |AssignmentHeader(ctx)| + |SummaryInstruction| + n
  {
    var n := if |text| > MaxPromptText then MaxPromptText else |text|;
    var p := AssignmentHeader(ctx) + SummaryInstruction + text[..n];
    assert p[|p| - n..] == text[..n];
    assert p[..|AssignmentHeader(ctx) + SummaryInstruction|] == AssignmentHeader(ctx) + SummaryInstruction;
    p
  }

  /** The answer of a configured service: the text, or an error when it is empty or the call fails. */
  function SummaryOfResponse(response: Result<string>): (r: (Option<string>, Option<string>))
    ensures r.0.Some? <==> r.1.None?
    ensures r.0.Some? <==> response.Ok? && response.value != []
    ensures response.Ok? && response.value == [] ==> r.1 == Some("No response from Gemini")
  {
    match response
    case Ok(t) => if t != [] then (Some(t), None) else (None, Some("No response from Gemini"))
    case Err(e) => (None, Some(e))
  }

  const NotConfigured := "Gemini AI not configured"

  // ---------------------------------------------------------------- the service object

  /** The libraries the service can reach; `false`/`None` stands for a missing one. */
  datatype Environment = Environment(
    textstat: Option<string -> Result<Api.ReadabilityScores>>,
    textCounts: string -> Result<TextCounts>,
    nltkInstalled: bool,
    nltkDataOk: bool,
    tokenizer: Api.Tokenizer,
    vader: string -> Result<Api.Polarity>,
    spacyInstalled: bool,
    loadModel: string -> Option<string -> Result<Api.Doc>>,
    genaiInstalled: bool,
    apiKey: Option<string>,
    configure: string -> bool,
    gemini: string -> Result<string>)

  datatype LocalResults =
    | Insufficient(error: string)
    | Analysed(
        readability: Option<Readability>,
        tokens: Option<TokenStats>,
        entities: Option<EntitySummary>,
        sentiment: Option<Sentiment>,
        statistics: Option<TextCounts>,
        language: LanguageGuess)

  /** The entity summary with a given model, on text cut to 100000 characters. */
  function EntitiesWith(text: string, model: Option<string -> Result<Api.Doc>>): (r: Option<EntitySummary>)
    ensures r.Some? <==> model.Some? && model.value(if |text| > MaxNerChars then text[..MaxNerChars] else text).Ok?
    ensures r.Some? ==> r.value == SummaryOf(model.value(if |text| > MaxNerChars then text[..MaxNerChars] else text).value)
  {
    match model
    case None => None
    case Some(ner) =>
      match ner(if |text| > MaxNerChars then text[..MaxNerChars] else text)
      case Err(_) => None
      case Ok(doc) => Some(SummaryOf(doc))
  }

  /** The local analysis once the spaCy model is settled. */
  function LocalResultsOf(text: string, env: Environment, model: Option<string -> Result<Api.Doc>>): (r: LocalResults)
    ensures r.Insufficient? <==> !Api.Sufficient(text)
    ensures r.Insufficient? ==> r.error == Api.InsufficientText
  {
    if !Api.Sufficient(text) then Insufficient(Api.InsufficientText)
    else Analysed(
      AnalyzeReadability(env.textstat, text),
      AnalyzeTokens(text, env.nltkInstalled, env.tokenizer),
      EntitiesWith(text, model),
      AnalyzeSentiment(text, env.nltkInstalled, env.vader),
      ComputeTextStatistics(env.textstat.Some?, env.textCounts, text),
      DetectLanguage(text))
  }

  /** The model a lazy load settles on: the current one, else the first that loads. */
  function SettledModel(current: Option<string -> Result<Api.Doc>>, env: Environment): Option<string -> Result<Api.Doc>>
  {
    if current.Some? || !env.spacyInstalled then current else FirstLoaded(ModelNames, env.loadModel)
  }

  class Service {
    var spacyModel: Option<string -> Result<Api.Doc>>
    var nltkInitialized: bool
    var geminiInitialized: bool

    constructor ()
      ensures spacyModel.None? && !nltkInitialized && !geminiInitialized
    {
      spacyModel := None;
      nltkInitialized := false;
      geminiInitialized := false;
    }

    /** `_initialize_nltk`: once initialised it stays so; otherwise it succeeds when the data downloads. */
    method InitializeNltk(env: Environment)
      modifies this
      ensures nltkInitialized == (old(nltkInitialized) || (env.nltkInstalled && env.nltkDataOk))
      ensures spacyModel == old(spacyModel) && geminiInitialized == old(geminiInitialized)
    {
      if nltkInitialized {
        return;
      }
      if !env.nltkInstalled {
        return;
      }
      nltkInitialized := env.nltkDataOk;
    }

    /** `_initialize_spacy`: the first of the three models that loads; none leaves the field alone. */
    method InitializeSpacy(env: Environment)
      modifies this
      ensures spacyModel == (if env.spacyInstalled && FirstLoaded(ModelNames, env.loadModel).Some?
                             then FirstLoaded(ModelNames, env.loadModel) else old(spacyModel))
      ensures nltkInitialized == old(nltkInitialized) && geminiInitialized == old(geminiInitialized)
    {
      if !env.spacyInstalled {
        return;
      }
      var names := ModelNames;
      var i := 0;
      while i < |names|
        invariant 0 <= i <= |names|
        invariant forall k :: 0 <= k < i ==> env.loadModel(names[k]).None?
        invariant spacyModel == old(spacyModel)
        invariant nltkInitialized == old(nltkInitialized) && geminiInitialized == old(geminiInitialized)
      {
        var loaded := env.loadModel(names[i]);
        if loaded.Some? {
          spacyModel := loaded;
          FirstLoadedAt(names, env.loadModel, i);
          return;
        }
        i := i + 1;
      }
      FirstLoadedNone(names, env.loadModel);
    }

    /** `_initialize_gemini`: configured with a non-empty key when `configure` succeeds. */
    method InitializeGemini(env: Environment)
      modifies this
      ensures geminiInitialized == (if env.genaiInstalled && env.apiKey.Some? && env.apiKey.value != []
                                    then env.configure(env.apiKey.value) else old(geminiInitialized))
      ensures spacyModel == old(spacyModel) && nltkInitialized == old(nltkInitialized)
    {
      if !env.genaiInstalled {
        return;
      }
      if env.apiKey.Some? && env.apiKey.value != [] {
        geminiInitialized := env.configure(env.apiKey.value);
      }
    }

    /** `_extract_named_entities`: load spaCy if needed; no model gives `None`. */
    method ExtractNamedEntities(text: string, env: Environment) returns (r: Option<EntitySummary>)
      modifies this
      ensures spacyModel == SettledModel(old(spacyModel), env)
      ensures nltkInitialized == old(nltkInitialized) && geminiInitialized == old(geminiInitialized)
      ensures r == EntitiesWith(text, spacyModel)
    {
      if spacyModel.None? {
        InitializeSpacy(env);
      }
      if spacyModel.None? {
        return None;
      }
      var input := if |text| > MaxNerChars then text[..MaxNerChars] else text;
      var parsed := spacyModel.value(input);
      if parsed.Err? {
        return None;
      }
      var ents := parsed.value.ents;
      var entities, order := GroupTexts(ents);
      forall k | 0 <= k < |order|
        ensures order[k] in entities && entities[order[k]] == TextsOf(ents, order[k])
      {
        TextGroupsMeans(ents, order[k]);
      }
      var byType := seq(|order|, k requires 0 <= k < |order| => (order[k], Summarize(entities[order[k]])));
      r := Some(EntitySummary(byType, |ents|, order));
      assert byType == SummaryOf(parsed.value).entitiesByType;
    }

    /** `perform_local_nlp_analysis`: the guard, then each section, initialising libraries lazily. */
    method PerformLocalAnalysis(text: string, env: Environment) returns (r: LocalResults)
      modifies this
      ensures r == LocalResultsOf(text, env, spacyModel)
      ensures Api.Sufficient(text) ==>
          spacyModel == SettledModel(old(spacyModel), env)
          && nltkInitialized == (old(nltkInitialized) || (env.nltkInstalled && env.nltkDataOk))
      ensures !Api.Sufficient(text) ==> spacyModel == old(spacyModel) && nltkInitialized == old(nltkInitialized)
      ensures geminiInitialized == old(geminiInitialized)
    {
      if !Api.Sufficient(text) {
        return Insufficient(Api.InsufficientText);
      }
      var readability := AnalyzeReadability(env.textstat, text);
      InitializeNltk(env);
      var tokens := AnalyzeTokens(text, env.nltkInstalled, env.tokenizer);
      var entities := ExtractNamedEntities(text, env);
      var sentiment: Option<Sentiment> := None;
      if env.nltkInstalled {
        InitializeNltk(env);
        sentiment := AnalyzeSentiment(text, env.nltkInstalled, env.vader);
      }
      var statistics := ComputeTextStatistics(env.textstat.Some?, env.textCounts, text);
      r := Analysed(readability, tokens, entities, sentiment, statistics, DetectLanguage(text));
    }

    /** `generate_ai_summary`: configure Gemini if needed; unconfigured, it answers with an error only. */
    method GenerateAiSummary(text: string, ctx: AiContext, env: Environment)
      returns (summary: Option<string>, error: Option<string>)
      modifies this
      ensures geminiInitialized == (old(geminiInitialized)
        || (env.genaiInstalled && env.apiKey.Some? && env.apiKey.value != [] && env.configure(env.apiKey.value)))
      ensures spacyModel == old(spacyModel) && nltkInitialized == old(nltkInitialized)
      ensures !geminiInitialized ==> summary.None? && error == Some(NotConfigured)
      ensures geminiInitialized ==> (summary, error) == SummaryOfResponse(env.gemini(Prompt(text, ctx)))
    {
      if !geminiInitialized {
        InitializeGemini(env);
      }
      if !geminiInitialized {
        return None, Some(NotConfigured);
      }
      var prompt := Prompt(text, ctx);
      var response := env.gemini(prompt);
      summary, error := SummaryOfResponse(response).0, SummaryOfResponse(response).1;
    }
  }

  lemma {:induction false} FirstLoadedAt(names: seq<string>, load: string -> Option<string -> Result<Api.Doc>>, i: nat)
    requires i < |names| && load(names[i]).Some?
    requires forall k :: 0 <= k < i ==> load(names[k]).None?
    ensures FirstLoaded(names, load) == load(names[i])
  {
    if i > 0 {
      var rest := names[1..];
      assert load(names[0]).None?;
      assert rest[i - 1] == names[i];
      forall k | 0 <= k < i - 1
        ensures load(rest[k]).None?
      {
        assert rest[k] == names[k + 1];
      }
      FirstLoadedAt(rest, load, i - 1);
    }
  }

  /** No model when no name loads. */
  lemma {:induction false} FirstLoadedNone(names: seq<string>, load: string -> Option<string -> Result<Api.Doc>>)
    requires forall k :: 0 <= k < |names| ==> load(names[k]).None?
    ensures FirstLoaded(names, load).None?
  {
    if names != [] {
      var rest := names[1..];
      assert load(names[0]).None?;
      forall k | 0 <= k < |rest|
        ensures load(rest[k]).None?
      {
        assert rest[k] == names[k + 1];
      }
      FirstLoadedNone(rest, load);
    }
  }

  /** Without the library or a key, and not yet configured, the service is never configured. */
  lemma UnconfiguredWithoutKey(env: Environment)
    requires !env.genaiInstalled || env.apiKey.None? || env.apiKey.value == []
    ensures !(env.genaiInstalled && env.apiKey.Some? && env.apiKey.value != [] && env.configure(env.apiKey.value))
  {
  }
}
