// The analysis serialisers: each section dict of an analysis result is projected onto a
// fixed list of output keys, each read from one source key, the first truthy of two, or one
// key with a default. The whole result adds its own columns and, on request, the full text.
module AnalysisDto {
  import Wrappers
  import opened Json
  import opened Base

  /** Where an output key's value comes from. */
  datatype Source =
    | Key(k: string)                       // `d.get(k)`
    | Either(first: string, second: string) // `d.get(first) or d.get(second)`
    | KeyOr(k: string, default: Value)     // `d.get(k, default)`

  /** The value a source gives in the dict `d`. */
  function Eval(d: Value, src: Source): (v: Value)
    requires d.Obj?
    ensures src.Either? && Truthy(Get(d, src.first)) ==> v == Get(d, src.first)
    ensures src.Either? && !Truthy(Get(d, src.first)) ==> v == Get(d, src.second)
    ensures src.KeyOr? && !Has(d, src.k) ==> v == src.default
    ensures src.KeyOr? && Has(d, src.k) ==> v == Get(d, src.k)
    ensures src.Key? ==> v == Get(d, src.k)
  {
    match src
    case Key(k) => Get(d, k)
    case Either(a, b) => if Truthy(Get(d, a)) then Get(d, a) else Get(d, b)
    case KeyOr(k, dflt) => Lookup(d.fields, k).GetOr(dflt)
  }

  /** A section serialiser: a falsy section gives {}, otherwise one entry per output key, in order. */
  function Project(d: Value, table: seq<(string, Source)>): (r: Value)
    ensures r.Obj?
    ensures !Truthy(d) || !d.Obj? ==> r == Obj([])
    ensures Truthy(d) && d.Obj? ==>
      |r.fields| == |table| && forall i :: 0 <= i < |table| ==> r.fields[i] == (table[i].0, Eval(d, table[i].1))
  {
    if !Truthy(d) || !d.Obj? then Obj([])
    else Obj(seq(|table|, i requires 0 <= i < |table| => (table[i].0, Eval(d, table[i].1))))
  }

  /** With distinct output keys, looking up an output key finds its source's value. */
  lemma {:induction false} ProjectLookup(fields: seq<(string, Value)>, table: seq<(string, Source)>, d: Value, i: nat)
    requires d.Obj? && IsDict(fields) && i < |fields| == |table|
    requires forall j :: 0 <= j < |table| ==> fields[j] == (table[j].0, Eval(d, table[j].1))
    ensures Lookup(fields, table[i].0) == Wrappers.Some(Eval(d, table[i].1))
  {
    if i > 0 {
      assert fields[0].0 != fields[i].0;
      var rest := fields[1..];
      assert IsDict(rest) by {
        forall a, b | 0 <= a < b < |rest| ensures rest[a].0 != rest[b].0 {
          assert rest[a] == fields[a + 1] && rest[b] == fields[b + 1];
        }
      }
      forall j | 0 <= j < |table[1..]| ensures rest[j] == (table[1..][j].0, Eval(d, table[1..][j].1)) {
        assert rest[j] == fields[j + 1];
      }
      ProjectLookup(rest, table[1..], d, i - 1);
    }
  }

  // ---------------------------------------------------------------- the sections

  /** `MetadataDTO`: the service's key names mapped to the DTO's, first truthy wins. */
  const MetadataTable: seq<(string, Source)> := [
    ("author", Key("author")),
    ("created_date", Either("creation_date", "created_date")),
    ("modified_date", Either("last_modified_date", "modified_date")),
    ("last_editor", Either("last_editor", "last_modified_by")),
    ("revision_count", Either("revision_count", "revision")),
    ("editing_time_minutes", Either("editing_time_minutes", "total_editing_time")),
    ("application", Key("application")),
    ("contributors", KeyOr("contributors", Arr([]))),
    ("title", Key("title")),
    ("subject", Key("subject")),
    ("keywords", Key("keywords"))]

  /** `ContentStatisticsDTO`: every count defaults to 0. */
  const StatisticsTable: seq<(string, Source)> := [
    ("word_count", KeyOr("word_count", Int(0))),
    ("character_count", KeyOr("character_count", Int(0))),
    ("paragraph_count", KeyOr("paragraph_count", Int(0))),
    ("sentence_count", KeyOr("sentence_count", Int(0))),
    ("page_count", KeyOr("page_count", Int(0))),
    ("average_words_per_sentence", KeyOr("average_words_per_sentence", Int(0))),
    ("average_sentence_length", KeyOr("average_sentence_length", Int(0)))]

  /** `HeuristicInsightsDTO`. */
  const InsightsTable: seq<(string, Source)> := [
    ("timeliness_score", Key("timeliness_score")),
    ("timeliness_classification", Key("timeliness_classification")),
    ("submission_pattern", Key("submission_pattern")),
    ("contribution_growth", Key("contribution_growth")),
    ("revision_count", Key("revision_count")),
    ("last_minute_submission", Key("last_minute_submission")),
    ("early_submission", Key("early_submission")),
    ("recommendations", KeyOr("recommendations", Arr([])))]

  /** `NLPResultDTO`. */
  const NlpTable: seq<(string, Source)> := [
    ("flesch_reading_ease", Key("flesch_reading_ease")),
    ("flesch_kincaid_grade", Key("flesch_kincaid_grade")),
    ("gunning_fog", Key("gunning_fog")),
    ("smog_index", Key("smog_index")),
    ("automated_readability_index", Key("automated_readability_index")),
    ("coleman_liau_index", Key("coleman_liau_index")),
    ("readability_grade", Key("readability_grade")),
    ("named_entities", KeyOr("named_entities", Arr([]))),
    ("top_terms", KeyOr("top_terms", Arr([]))),
    ("sentiment_score", Key("sentiment_score")),
    ("language", Key("language"))]

  /** A stored revision count of 0 is falsy, so the `revision` key is used instead. */
  lemma ZeroRevisionFallsThrough(m: Value)
    requires m.Obj? && m.fields != [] && Get(m, "revision_count") == Int(0)
    ensures Project(m, MetadataTable).fields[4] == ("revision_count", Get(m, "revision"))
  {
    var src := MetadataTable[4];
    assert src == ("revision_count", Either("revision_count", "revision"));
    assert Project(m, MetadataTable).fields[4] == (src.0, Eval(m, src.1));
  }

  /** A metadata dict without contributors serialises them as an empty list. */
  lemma ContributorsDefaultEmpty(m: Value)
    requires m.Obj? && m.fields != [] && !Has(m, "contributors")
    ensures Project(m, MetadataTable).fields[7] == ("contributors", Arr([]))
  {
    var src := MetadataTable[7];
    assert src == ("contributors", KeyOr("contributors", Arr([])));
    assert Project(m, MetadataTable).fields[7] == (src.0, Eval(m, src.1));
  }

  /** A statistics dict lacking a count serialises it as 0. */
  lemma MissingCountIsZero(s: Value, i: nat)
    requires s.Obj? && s.fields != [] && i < |StatisticsTable| && !Has(s, StatisticsTable[i].0)
    ensures Project(s, StatisticsTable).fields[i].1 == Int(0)
  {
    assert StatisticsTable[i].1 == KeyOr(StatisticsTable[i].0, Int(0));
  }

  // ---------------------------------------------------------------- the whole result

  /** The `analysis_results` columns the serialiser reads; JSON columns are values, `created_at` its ISO text. */
  datatype AnalysisRow = AnalysisRow(
    id: string,
    submissionId: string,
    documentMetadata: Value,
    contentStatistics: Value,
    heuristicInsights: Value,
    timeliness: Wrappers.Option<TimelinessClassification>,
    contributionGrowthPercentage: Value,
    nlpResults: Value,
    fleschKincaidScore: Value,
    readabilityGrade: Value,
    namedEntities: Value,
    topTerms: Value,
    aiSummary: Value,
    aiInsights: Value,
    isCompleteDocument: Value,
    validationWarnings: Value,
    analysisVersion: Value,
    processingDurationSeconds: Value,
    createdAt: string,
    documentText: Value)

  const ResultKeys: seq<string> := [
    "id", "submission_id", "document_metadata", "content_statistics", "heuristic_insights",
    "timeliness_classification", "contribution_growth_percentage", "nlp_results", "flesch_kincaid_score",
    "readability_grade", "named_entities", "top_terms", "ai_summary", "ai_insights", "is_complete_document",
    "validation_warnings", "analysis_version", "processing_duration_seconds", "created_at"]

  /** The values of the result's plain columns after `nlp_results`, in the order of `ResultKeys`. */
  function ColumnValues(a: AnalysisRow): (vs: seq<Value>)
    ensures |vs| == 11
  {
    [a.fleschKincaidScore, a.readabilityGrade, a.namedEntities, a.topTerms, a.aiSummary, a.aiInsights,
     a.isCompleteDocument, a.validationWarnings, a.analysisVersion, a.processingDurationSeconds,
     Str(a.createdAt)]
  }

  /** The values of the result's entries, in the order of `ResultKeys`. */
  function ResultValues(a: AnalysisRow): (vs: seq<Value>)
    ensures |vs| == |ResultKeys|
    ensures !Truthy(a.documentMetadata) ==> vs[2] == Obj([])
    ensures !Truthy(a.contentStatistics) ==> vs[3] == Obj([])
    ensures !Truthy(a.heuristicInsights) ==> vs[4] == Obj([])
    ensures !Truthy(a.nlpResults) ==> vs[7] == Obj([])
  {
    var timeliness := if a.timeliness.Some? then Str(TimelinessValue(a.timeliness.value)) else Null;
    [Str(a.id), Str(a.submissionId),
     Project(a.documentMetadata, MetadataTable),
     Project(a.contentStatistics, StatisticsTable),
     Project(a.heuristicInsights, InsightsTable),
     timeliness, a.contributionGrowthPercentage,
     Project(a.nlpResults, NlpTable)] + ColumnValues(a)
  }

  /** The entries every serialised result has, in order; a falsy section serialises as {}. */
  function ResultEntries(a: AnalysisRow): (r: seq<(string, Value)>)
    ensures Keys(r) == ResultKeys
    ensures !Truthy(a.documentMetadata) ==> r[2].1 == Obj([])
    ensures !Truthy(a.contentStatistics) ==> r[3].1 == Obj([])
    ensures !Truthy(a.heuristicInsights) ==> r[4].1 == Obj([])
    ensures !Truthy(a.nlpResults) ==> r[7].1 == Obj([])
  {
    Zip(ResultKeys, ResultValues(a))
  }

  /** `AnalysisResultDTO.serialize`: None for no result; the text is added last, and only on request. */
  function SerializeResult(a: Wrappers.Option<AnalysisRow>, includeFullText: bool): (r: Wrappers.Option<Value>)
    ensures r.None? <==> a.None?
    ensures r.Some? ==> r.value.Obj?
    ensures r.Some? ==> Keys(r.value.fields) == ResultKeys + (if includeFullText then ["document_text"] else [])
    ensures r.Some? && includeFullText ==> r.value.fields[|ResultKeys|] == ("document_text", a.value.documentText)
    ensures r.Some? ==> r.value.fields[..|ResultKeys|] == ResultEntries(a.value)
  {
    match a
    case None => Wrappers.None
    case Some(row) =>
      var base := ResultEntries(row);
      if includeFullText then
        assert Keys(base + [("document_text", row.documentText)]) == Keys(base) + ["document_text"];
        Wrappers.Some(Obj(base + [("document_text", row.documentText)]))
      else Wrappers.Some(Obj(base))
  }

  /** The full text is among the keys exactly when it was asked for. */
  lemma FullTextOnRequest(a: AnalysisRow, includeFullText: bool)
    ensures "document_text" in Keys(SerializeResult(Wrappers.Some(a), includeFullText).value.fields) <==> includeFullText
  {
    assert "document_text" !in ResultKeys;
  }
}
