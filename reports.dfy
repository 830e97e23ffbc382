// The report service's summary statistics and CSV rows. File writing and PDF layout are
// not modelled; a row is an insertion-ordered dict of JSON-shaped cells.
module Reports {
  import opened Wrappers
  import opened Base
  import opened AnalysisModels
  import Json
  import PyMath

  // ---------------------------------------------------------------- summary statistics

  /** `_calculate_summary_statistics`; the percentages are exact quotients here. */
  datatype SummaryStats = SummaryStats(
    avgWordCount: real,
    avgReadability: real,
    onTimeCount: nat,
    lateCount: nat,
    rushCount: nat,
    onTimePercent: real,
    latePercent: real,
    rushPercent: real)

  const ZeroStats := SummaryStats(0.0, 0.0, 0, 0, 0, 0.0, 0.0, 0.0)

  /** The word count a result contributes: present and truthy. */
  function WordCountOf(a: AnalysisResult): Option<nat>
  {
    if a.contentStatistics.Some? && a.contentStatistics.value.wordCount != 0
    then Some(a.contentStatistics.value.wordCount) else None
  }

  /** The readability score a result contributes: present and truthy. */
  function ScoreOf(a: AnalysisResult): Option<real>
  {
    if a.fleschKincaidScore.Some? && a.fleschKincaidScore.value != 0.0 then a.fleschKincaidScore else None
  }

  /** The truthy word counts of the analysed submissions, in order. */
  function WordCounts(subs: seq<Option<AnalysisResult>>): seq<nat>
  {
    if subs == [] then []
    else
      var last := subs[|subs| - 1];
      WordCounts(subs[..|subs| - 1])
      + (if last.Some? && WordCountOf(last.value).Some? then [WordCountOf(last.value).value] else [])
  }

  /** The truthy readability scores of the analysed submissions, in order. */
  function Scores(subs: seq<Option<AnalysisResult>>): seq<real>
  {
    if subs == [] then []
    else
      var last := subs[|subs| - 1];
      Scores(subs[..|subs| - 1]) + (if last.Some? && ScoreOf(last.value).Some? then [ScoreOf(last.value).value] else [])
  }

  /** The analysed submissions classified `c`. */
  function Classified(subs: seq<Option<AnalysisResult>>, c: TimelinessClassification): nat
  {
    if subs == [] then 0
    else
      var last := subs[|subs| - 1];
      Classified(subs[..|subs| - 1], c)
      + (if last.Some? && last.value.timelinessClassification == Some(c) then 1 else 0)
  }

  function SumNat(xs: seq<nat>): nat
  {
    if xs == [] then 0 else SumNat(xs[..|xs| - 1]) + xs[|xs| - 1]
  }

  function SumReal(xs: seq<real>): real
  {
    if xs == [] then 0.0 else SumReal(xs[..|xs| - 1]) + xs[|xs| - 1]
  }

  /** `sum(xs) / len(xs)`, or the default 0 for an empty list. */
  function MeanNat(xs: seq<nat>): real
  {
    if xs == [] then 0.0 else SumNat(xs) as real / |xs| as real
  }

  function MeanReal(xs: seq<real>): real
  {
    if xs == [] then 0.0 else SumReal(xs) / |xs| as real
  }

  /** The statistics of a submission list; `None` is a submission without an analysis result. */
  function StatsOf(subs: seq<Option<AnalysisResult>>): SummaryStats
  {
    var onTime, late, rush := Classified(subs, OnTime), Classified(subs, Late), Classified(subs, LastMinuteRush);
    var total := onTime + late + rush;
    var s := ZeroStats.(avgWordCount := MeanNat(WordCounts(subs)), avgReadability := MeanReal(Scores(subs)));
    if total > 0 then
      s.(onTimeCount := onTime, lateCount := late, rushCount := rush,
         onTimePercent := onTime as real / total as real * 100.0,
         latePercent := late as real / total as real * 100.0,
         rushPercent := rush as real / total as real * 100.0)
    else s
  }

  /** The loop of `_calculate_summary_statistics` over the analysed submissions. */
  method CalculateSummaryStatistics(subs: seq<Option<AnalysisResult>>) returns (stats: SummaryStats)
    ensures stats == StatsOf(subs)
  {
    var wordCounts: seq<nat> := [];
    var scores: seq<real> := [];
    var onTime, late, rush := 0, 0, 0;
    var i := 0;
    while i < |subs|
      invariant 0 <= i <= |subs|
      invariant wordCounts == WordCounts(subs[..i]) && scores == Scores(subs[..i])
      invariant onTime == Classified(subs[..i], OnTime) && late == Classified(subs[..i], Late)
      invariant rush == Classified(subs[..i], LastMinuteRush)
    {
      assert subs[..i + 1][..i] == subs[..i];
      if subs[i].Some? {
        var a := subs[i].value;
        var wc := WordCountOf(a);
        if wc.Some? {
          wordCounts := wordCounts + [wc.value];
        }
        var fk := ScoreOf(a);
        if fk.Some? {
          scores := scores + [fk.value];
        }
        if a.timelinessClassification == Some(OnTime) {
          onTime := onTime + 1;
        } else if a.timelinessClassification == Some(Late) {
          late := late + 1;
        } else if a.timelinessClassification == Some(LastMinuteRush) {
          rush := rush + 1;
        }
      }
      i := i + 1;
    }
    assert subs[..i] == subs;
    stats := ZeroStats.(avgWordCount := MeanNat(wordCounts), avgReadability := MeanReal(scores));
    var total := onTime + late + rush;
    if total > 0 {
      stats := stats.(onTimeCount := onTime, lateCount := late, rushCount := rush,
        onTimePercent := onTime as real / total as real * 100.0,
        latePercent := late as real / total as real * 100.0,
        rushPercent := rush as real / total as real * 100.0);
    }
  }

  /** Without an analysed submission every statistic is 0. */
  lemma {:induction false} NothingAnalysedIsZero(subs: seq<Option<AnalysisResult>>)
    requires forall i :: 0 <= i < |subs| ==> subs[i].None?
    ensures StatsOf(subs) == ZeroStats
  {
    NothingAnalysedLists(subs);
  }

  lemma {:induction false} NothingAnalysedLists(subs: seq<Option<AnalysisResult>>)
    requires forall i :: 0 <= i < |subs| ==> subs[i].None?
    ensures WordCounts(subs) == [] && Scores(subs) == []
    ensures Classified(subs, OnTime) == 0 && Classified(subs, Late) == 0 && Classified(subs, LastMinuteRush) == 0
  {
    if subs != [] {
      NothingAnalysedLists(subs[..|subs| - 1]);
    }
  }

  /**
   * A submission that adds no truthy word count, no truthy score and none of the three counted
   * classifications (zeros, `no_deadline`, or no result at all) leaves the statistics unchanged.
   */
  lemma IgnoredSubmission(subs: seq<Option<AnalysisResult>>, s: Option<AnalysisResult>)
    requires s.Some? ==>
      WordCountOf(s.value).None? && ScoreOf(s.value).None?
      && s.value.timelinessClassification !in {Some(OnTime), Some(Late), Some(LastMinuteRush)}
    ensures StatsOf(subs + [s]) == StatsOf(subs)
  {
    var all := subs + [s];
    assert all[..|all| - 1] == subs && all[|all| - 1] == s;
    assert WordCounts(all) == WordCounts(subs);
    assert Scores(all) == Scores(subs);
    assert Classified(all, OnTime) == Classified(subs, OnTime);
    assert Classified(all, Late) == Classified(subs, Late);
    assert Classified(all, LastMinuteRush) == Classified(subs, LastMinuteRush);
  }

  /** Counts are filled only when some submission is counted, and the three shares then add to 100. */
  lemma PercentagesSumTo100(subs: seq<Option<AnalysisResult>>)
    ensures var st := StatsOf(subs);
      var total := st.onTimeCount + st.lateCount + st.rushCount;
      (total > 0 ==> st.onTimePercent + st.latePercent + st.rushPercent == 100.0)
      && (total == 0 ==> st.onTimePercent == 0.0 && st.latePercent == 0.0 && st.rushPercent == 0.0)
  {
    var onTime, late, rush := Classified(subs, OnTime), Classified(subs, Late), Classified(subs, LastMinuteRush);
    var total := onTime + late + rush;
    if total > 0 {
      SharesSum(onTime as real, late as real, rush as real, total as real);
    }
  }

  lemma SharesSum(a: real, b: real, c: real, t: real)
    requires t > 0.0 && a + b + c == t
    ensures a / t * 100.0 + b / t * 100.0 + c / t * 100.0 == 100.0
  {
    assert a / t + b / t + c / t == (a + b + c) / t;
  }

  // ---------------------------------------------------------------- CSV rows

  /** The CSV columns; `ColumnName` gives each its header text. */
  datatype Column =
    | SubmissionId
    | Filename
    | StudentName
    | StudentEmail
    | SubmissionType
    | FileSizeMb
    | SubmittedOn
    | Status
    | WordCount
    | SentenceCount
    | ParagraphCount
    | EstimatedPages
    | AvgWordsPerSentence
    | FleschKincaidGrade
    | ReadingLevel
    | TimelinessColumn
    | ContributionGrowth
    | DocumentComplete
    | ValidationWarnings
    | ProcessingDuration
    | EntitiesPeople
    | EntitiesOrganizations
    | EntitiesDates
    | EntitiesTotal
    | AiSummary

  function ColumnName(c: Column): string
  {
    match c
    case SubmissionId => "Submission ID"
    case Filename => "Filename"
    case StudentName => "Student Name"
    case StudentEmail => "Student Email"
    case SubmissionType => "Submission Type"
    case FileSizeMb => "File Size (MB)"
    case SubmittedOn => "Submitted On"
    case Status => "Status"
    case WordCount => "Word Count"
    case SentenceCount => "Sentence Count"
    case ParagraphCount => "Paragraph Count"
    case EstimatedPages => "Estimated Pages"
    case AvgWordsPerSentence => "Avg Words per Sentence"
    case FleschKincaidGrade => "Flesch-Kincaid Grade"
    case ReadingLevel => "Reading Level"
    case TimelinessColumn => "Timeliness Classification"
    case ContributionGrowth => "Contribution Growth %"
    case DocumentComplete => "Document Complete"
    case ValidationWarnings => "Validation Warnings"
    case ProcessingDuration => "Processing Duration (seconds)"
    case EntitiesPeople => "Named Entities - People"
    case EntitiesOrganizations => "Named Entities - Organizations"
    case EntitiesDates => "Named Entities - Dates"
    case EntitiesTotal => "Named Entities - Total"
    case AiSummary => "AI Summary"
  }

  type Row = seq<(Column, Json.Value)>

  datatype NamedEntities = NamedEntities(entityCounts: seq<(string, Json.Value)>, totalEntities: Option<Json.Value>)

  /** The analysis columns read besides the stored `AnalysisResult`. */
  datatype CsvAnalysis = CsvAnalysis(
    result: AnalysisResult,
    processingDurationSeconds: Option<real>,
    namedEntities: Option<NamedEntities>)

  /** What a CSV row reads from a submission; the submission table has no `student_email`. */
  datatype CsvSubmission = CsvSubmission(
    jobId: string,
    originalFilename: string,
    studentName: Option<string>,
    submissionType: string,
    fileSize: nat,
    submittedOn: string,
    status: SubmissionStatus,
    analysis: Option<CsvAnalysis>)

  /** The columns a submission without analysis has set to ''. */
  const AnalysisFields := [
    WordCount, SentenceCount, ParagraphCount, EstimatedPages,
    AvgWordsPerSentence, FleschKincaidGrade, ReadingLevel,
    TimelinessColumn, ContributionGrowth, DocumentComplete,
    ValidationWarnings, ProcessingDuration,
    EntitiesPeople, EntitiesOrganizations,
    EntitiesDates, EntitiesTotal, AiSummary]

  const Blank := Json.Str("")

  /** `x or ''` on an optional text. */
  function TextOrBlank(s: Option<string>): Json.Value
  {
    if s.Some? && s.value != [] then Json.Str(s.value) else Blank
  }

  /** `x or ''` on an optional number. */
  function RealOrBlank(x: Option<real>): Json.Value
  {
    if x.Some? && x.value != 0.0 then Json.Real(x.value) else Blank
  }

  /** `round(file_size / (1024*1024), 2)`. */
  function SizeInMb(fileSize: nat): real
  {
    PyMath.RoundHundredth(fileSize as real / 1048576.0)
  }

  /** The columns every row starts with; `studentEmail` is the value of the e-mail column. */
  function BaseRow(sub: CsvSubmission, studentEmail: Json.Value): Row
  {
    [(SubmissionId, Json.Str(sub.jobId)),
     (Filename, Json.Str(sub.originalFilename)),
     (StudentName, TextOrBlank(sub.studentName)),
     (StudentEmail, studentEmail),
     (SubmissionType, Json.Str(sub.submissionType)),
     (FileSizeMb, Json.Real(SizeInMb(sub.fileSize))),
     (SubmittedOn, Json.Str(sub.submittedOn)),
     (Status, Json.Str(StatusValue(sub.status)))]
  }

  /** `entity_counts.get(key, 0)`. */
  function CountOr0(counts: seq<(string, Json.Value)>, key: string): Json.Value
  {
    Json.Lookup(counts, key).GetOr(Json.Int(0))
  }

  /** Which part of the row a column belongs to: base, statistics, readability, entities, summary. */
  function Group(c: Column): nat
  {
    match c
    case SubmissionId | Filename | StudentName | StudentEmail | SubmissionType | FileSizeMb
      | SubmittedOn | Status => 0
    case WordCount | SentenceCount | ParagraphCount | EstimatedPages | AvgWordsPerSentence => 1
    case FleschKincaidGrade | ReadingLevel | TimelinessColumn | ContributionGrowth
      | DocumentComplete | ValidationWarnings | ProcessingDuration => 2
    case EntitiesPeople | EntitiesOrganizations | EntitiesDates | EntitiesTotal => 3
    case AiSummary => 4
  }

  /** The columns of one group in a row piece, each once. */
  predicate GroupDict(r: Row, g: nat)
  {
    Json.IsDict(r) && forall i :: 0 <= i < |r| ==> Group(r[i].0) == g
  }

  /** The statistics columns, present only when statistics were stored. */
  function StatsColumns(stats: Option<ContentStatistics>): (r: Row)
    ensures GroupDict(r, 1)
    ensures stats.None? <==> r == []
  {
    match stats
    case None => []
    case Some(st) =>
      [(WordCount, Json.Int(st.wordCount)),
       (SentenceCount, Json.Int(st.sentenceCount)),
       (ParagraphCount, Json.Int(st.paragraphCount)),
       (EstimatedPages, Json.Int(st.estimatedPages)),
       (AvgWordsPerSentence, Json.Real(st.averageWordsPerSentence))]
  }

  /** The readability, timeliness and processing columns every analysed row has. */
  function ReadabilityColumns(a: CsvAnalysis): (r: Row)
    ensures GroupDict(r, 2) && |r| == 7
  {
    var res := a.result;
    [(FleschKincaidGrade, RealOrBlank(res.fleschKincaidScore)),
     (ReadingLevel, TextOrBlank(res.readabilityGrade)),
     (TimelinessColumn,
       if res.timelinessClassification.Some? then Json.Str(TimelinessValue(res.timelinessClassification.value)) else Blank),
     (ContributionGrowth, RealOrBlank(res.contributionGrowthPercentage)),
     (DocumentComplete, Json.Str(if res.isCompleteDocument then "Yes" else "No")),
     (ValidationWarnings, Json.Int(|res.validationWarnings|)),
     (ProcessingDuration, RealOrBlank(a.processingDurationSeconds))]
  }

  /** The four entity columns, given their values. */
  function EntityCounts(people: Json.Value, orgs: Json.Value, dates: Json.Value, total: Json.Value): (r: Row)
    ensures GroupDict(r, 3) && |r| == 4
  {
    [(EntitiesPeople, people), (EntitiesOrganizations, orgs), (EntitiesDates, dates), (EntitiesTotal, total)]
  }

  /** The entity columns, present only when the entity counts are non-empty. */
  function EntityColumns(ne: Option<NamedEntities>): (r: Row)
    ensures GroupDict(r, 3)
    ensures r == [] <==> ne.None? || ne.value.entityCounts == []
  {
    if ne.Some? && ne.value.entityCounts != [] then
      var counts := ne.value.entityCounts;
      EntityCounts(CountOr0(counts, "PERSON"), CountOr0(counts, "ORG"), CountOr0(counts, "DATE"),
        ne.value.totalEntities.GetOr(Json.Int(0)))
    else []
  }

  /** The summary column, present only for a non-empty summary. */
  function AiColumns(summary: Option<string>): (r: Row)
    ensures GroupDict(r, 4)
    ensures r == [] <==> summary.None? || summary.value == []
  {
    if summary.Some? && summary.value != [] then [(AiSummary, Json.Str(summary.value))] else []
  }

  /** The analysis columns, in the order the updates add them. */
  function AnalysisColumns(a: CsvAnalysis): Row
  {
    StatsColumns(a.result.contentStatistics) + ReadabilityColumns(a)
      + EntityColumns(a.namedEntities) + AiColumns(a.result.aiSummary)
  }

  /** Every field of `fields` set to '' in turn. */
  function FilledBlank(row: Row, fields: seq<Column>): Row
    decreases |fields|
  {
    if fields == [] then row else FilledBlank(Json.Set(row, fields[0], Blank), fields[1..])
  }

  /** After the fill each listed field reads '' and every other column is unchanged. */
  lemma {:induction false} FilledBlankGet(row: Row, fields: seq<Column>, q: Column)
    ensures Json.Lookup(FilledBlank(row, fields), q) == if q in fields then Some(Blank) else Json.Lookup(row, q)
    decreases |fields|
  {
    if fields != [] {
      FilledBlankGet(Json.Set(row, fields[0], Blank), fields[1..], q);
      Json.SetGet(row, fields[0], Blank, q);
      assert q in fields <==> q == fields[0] || q in fields[1..];
    }
  }

  /** The `for field in analysis_fields: row[field] = ''` loop. */
  method FillBlank(row: Row, fields: seq<Column>) returns (r: Row)
    ensures r == FilledBlank(row, fields)
  {
    r := row;
    var i := 0;
    while i < |fields|
      invariant 0 <= i <= |fields|
      invariant FilledBlank(r, fields[i..]) == FilledBlank(row, fields)
    {
      assert fields[i..][1..] == fields[i + 1..];
      r := Json.Set(r, fields[i], Blank);
      i := i + 1;
    }
  }

  /** Each field of `fields` with an empty value, in order. */
  function Blanks(fields: seq<Column>): (r: Row)
  {
    seq(|fields|, i requires 0 <= i < |fields| => (fields[i], Blank))
  }

  /** Filling distinct fields the row lacks appends them, blank, in order. */
  lemma {:induction false} FillFresh(row: Row, fields: seq<Column>)
    requires forall i, j :: 0 <= i < j < |fields| ==> fields[i] != fields[j]
    requires forall i :: 0 <= i < |fields| ==> fields[i] !in Json.Keys(row)
    ensures FilledBlank(row, fields) == row + Blanks(fields)
    decreases |fields|
  {
    if fields != [] {
      Json.SetFresh(row, fields[0], Blank);
      var next := row + [(fields[0], Blank)];
      var rest := fields[1..];
      assert Json.Keys(next) == Json.Keys(row) + [fields[0]];
      forall i | 0 <= i < |rest|
        ensures rest[i] !in Json.Keys(next)
      {
        assert rest[i] == fields[i + 1];
      }
      forall i, j | 0 <= i < j < |rest|
        ensures rest[i] != rest[j]
      {
        assert rest[i] == fields[i + 1] && rest[j] == fields[j + 1];
      }
      FillFresh(next, rest);
    }
  }

  /**
   * The row of one submission, given the value of its e-mail column. The updates and the fill
   * only add columns the base lacks, so the row is the base columns followed by the analysis
   * columns (`AnalysedRowIsUpdate` and `UnanalysedRowIsFill` connect this with the dict operations).
   */
  function RowOf(sub: CsvSubmission, studentEmail: Json.Value): Row
  {
    var base := BaseRow(sub, studentEmail);
    match sub.analysis
    case Some(a) => base + AnalysisColumns(a)
    case None => base + Blanks(AnalysisFields)
  }

  /** The base columns show the file size in megabytes rounded to two places. */
  lemma BaseFileSize(sub: CsvSubmission, studentEmail: Json.Value)
    ensures Json.Lookup(BaseRow(sub, studentEmail), FileSizeMb) == Some(Json.Real(SizeInMb(sub.fileSize)))
  {
    var base := BaseRow(sub, studentEmail);
    var head, rest := base[..5], base[5..];
    assert base == head + rest;
    assert FileSizeMb !in Json.Keys(head) by {
      assert forall j :: 0 <= j < |head| ==> head[j].0 != FileSizeMb;
    }
    assert Json.Lookup(rest, FileSizeMb) == Some(rest[0].1) by {
      assert rest[0].0 == FileSizeMb;
    }
    Json.LookupAppend(head, rest, FileSizeMb);
  }

  /** Every row, analysed or not, shows the file size in megabytes rounded to two places. */
  lemma FileSizeColumn(sub: CsvSubmission, studentEmail: Json.Value)
    ensures Json.Lookup(RowOf(sub, studentEmail), FileSizeMb) == Some(Json.Real(SizeInMb(sub.fileSize)))
  {
    var base := BaseRow(sub, studentEmail);
    var row := RowOf(sub, studentEmail);
    assert row == base + row[|base|..];
    BaseFileSize(sub, studentEmail);
    Json.LookupAppend(base, row[|base|..], FileSizeMb);
  }

  /** The size shown is within half a hundredth of a megabyte of the exact size. */
  lemma SizeInMbClose(fileSize: nat)
    ensures -0.005 <= SizeInMb(fileSize) - fileSize as real / 1048576.0 <= 0.005
  {
  }

  /** The analysis columns of a row are distinct and none is a base column. */
  lemma ColumnsFresh(sub: CsvSubmission, studentEmail: Json.Value, a: CsvAnalysis)
    ensures Json.IsDict(AnalysisColumns(a))
    ensures forall i :: 0 <= i < |AnalysisColumns(a)| ==> AnalysisColumns(a)[i].0 !in Json.Keys(BaseRow(sub, studentEmail))
  {
    var s, rd, e, ai := StatsColumns(a.result.contentStatistics), ReadabilityColumns(a),
      EntityColumns(a.namedEntities), AiColumns(a.result.aiSummary);
    JoinGroups(s, 1, rd, 2);
    JoinGroups(s + rd, 2, e, 3);
    JoinGroups(s + rd + e, 3, ai, 4);
    var cols := AnalysisColumns(a);
    var base := BaseRow(sub, studentEmail);
    forall i | 0 <= i < |cols|
      ensures cols[i].0 !in Json.Keys(base)
    {
      assert Group(cols[i].0) >= 1;
      forall j | 0 <= j < |base|
        ensures Json.Keys(base)[j] != cols[i].0
      {
        assert Group(base[j].0) == 0;
      }
    }
  }

  /** Joining a piece whose groups are at most `g` with a dict piece of a later group `h`. */
  lemma JoinGroups(a: Row, g: nat, b: Row, h: nat)
    requires Json.IsDict(a) && forall i :: 0 <= i < |a| ==> 1 <= Group(a[i].0) <= g
    requires GroupDict(b, h) && g < h
    ensures Json.IsDict(a + b) && forall i :: 0 <= i < |a + b| ==> 1 <= Group((a + b)[i].0) <= h
  {
    Json.DictConcat(a, b);
    forall i | 0 <= i < |a + b|
      ensures 1 <= Group((a + b)[i].0) <= h
    {
      if i >= |a| {
        assert (a + b)[i] == b[i - |a|];
      }
    }
  }

  /** An analysed row is what `row.update(...)` makes of the base row. */
  lemma AnalysedRowIsUpdate(sub: CsvSubmission, studentEmail: Json.Value)
    requires sub.analysis.Some?
    ensures RowOf(sub, studentEmail) == Json.Update(BaseRow(sub, studentEmail), AnalysisColumns(sub.analysis.value))
  {
    ColumnsFresh(sub, studentEmail, sub.analysis.value);
    Json.UpdateFresh(BaseRow(sub, studentEmail), AnalysisColumns(sub.analysis.value));
  }

  /** An unanalysed row is what the blank fill makes of the base row. */
  lemma UnanalysedRowIsFill(sub: CsvSubmission, studentEmail: Json.Value)
    requires sub.analysis.None?
    ensures RowOf(sub, studentEmail) == FilledBlank(BaseRow(sub, studentEmail), AnalysisFields)
  {
    var base := BaseRow(sub, studentEmail);
    AnalysisFieldsDistinct();
    forall i | 0 <= i < |AnalysisFields|
      ensures AnalysisFields[i] !in Json.Keys(base)
    {
      forall j | 0 <= j < |base|
        ensures Json.Keys(base)[j] != AnalysisFields[i]
      {
        assert Group(base[j].0) == 0;
      }
    }
    FillFresh(base, AnalysisFields);
  }

  /** The blank-filled fields are distinct and none is a base column. */
  lemma AnalysisFieldsDistinct()
    ensures forall i, j :: 0 <= i < j < |AnalysisFields| ==> AnalysisFields[i] != AnalysisFields[j]
    ensures forall i :: 0 <= i < |AnalysisFields| ==> Group(AnalysisFields[i]) > 0
  {
  }

  /** A submission without analysis has every analysis column '' and keeps its own columns. */
  lemma UnanalysedRowIsBlank(sub: CsvSubmission, studentEmail: Json.Value, q: Column)
    requires sub.analysis.None?
    ensures q in AnalysisFields ==> Json.Lookup(RowOf(sub, studentEmail), q) == Some(Blank)
    ensures q !in AnalysisFields ==> Json.Lookup(RowOf(sub, studentEmail), q) == Json.Lookup(BaseRow(sub, studentEmail), q)
  {
    UnanalysedRowIsFill(sub, studentEmail);
    FilledBlankGet(BaseRow(sub, studentEmail), AnalysisFields, q);
  }

  /** The message the export returns when building a row reads the missing attribute. */
  const MissingEmailError := "CSV generation error: 'Submission' object has no attribute 'student_email'"

  /**
   * The row loop as written: it reads `submission.student_email`, which the submission table
   * does not have, so the first submission raises and the export returns only the error.
   */
  function CsvRowsAsWritten(subs: seq<CsvSubmission>): Result<seq<Row>>
  {
    if subs == [] then Ok([]) else Err(MissingEmailError)
  }

  /** Every export of at least one submission fails as written. */
  lemma NonEmptyExportFails(subs: seq<CsvSubmission>)
    requires subs != []
    ensures CsvRowsAsWritten(subs) == Err(MissingEmailError)
  {
  }

  /** One row per submission, in order, with the e-mail column empty. */
  function CsvRows(subs: seq<CsvSubmission>): (rows: seq<Row>)
  {
    if subs == [] then [] else CsvRows(subs[..|subs| - 1]) + [RowOf(subs[|subs| - 1], Blank)]
  }

  lemma {:induction false} CsvRowsMeans(subs: seq<CsvSubmission>)
    ensures |CsvRows(subs)| == |subs|
    ensures forall k :: 0 <= k < |subs| ==> CsvRows(subs)[k] == RowOf(subs[k], Blank)
  {
    if subs != [] {
      CsvRowsMeans(subs[..|subs| - 1]);
    }
  }

  /** The corrected row loop of `generate_csv_report`. */
  method GenerateCsvRows(subs: seq<CsvSubmission>) returns (rows: seq<Row>)
    ensures rows == CsvRows(subs)
  {
    rows := [];
    var i := 0;
    while i < |subs|
      invariant 0 <= i <= |subs|
      invariant rows == CsvRows(subs[..i])
    {
      var row := BuildRow(subs[i]);
      assert subs[..i + 1][..i] == subs[..i];
      rows := rows + [row];
      i := i + 1;
    }
    assert subs[..i] == subs;
  }

  /** The body of the row loop for one submission. */
  method BuildRow(sub: CsvSubmission) returns (row: Row)
    ensures row == RowOf(sub, Blank)
  {
    var base := BaseRow(sub, Blank);
    if sub.analysis.Some? {
      row := Json.Update(base, AnalysisColumns(sub.analysis.value));
      AnalysedRowIsUpdate(sub, Blank);
    } else {
      row := FillBlank(base, AnalysisFields);
      UnanalysedRowIsFill(sub, Blank);
    }
  }
}
