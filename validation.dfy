/** The validation rules of the retrieval-validation engine: keyword
    accuracy, metadata completeness, per-result validation and the report
    that summarises one query's run. */
module Validation {
  import opened Wrappers
  import opened Text
  import opened Seqs
  import opened Records
  import Gateway

  // ---------------------------------------------------------------------------
  // Keyword accuracy
  // ---------------------------------------------------------------------------

  /** `max(1, n // 2)`: how many keywords must be found. */
  function RequiredMatches(n: nat): (k: nat)
    ensures k >= 1 && k >= n / 2
    ensures k == 1 || k == n / 2
  {
    if n / 2 > 1 then n / 2 else 1
  }

  /** The keyword occurs in the lowered content, ignoring ASCII case. */
  predicate KeywordFound(contentLower: string, keyword: string)
  {
    Contains(contentLower, Lower(keyword))
  }

  /** The keywords found in the lowered content, in keyword order. */
  function FoundKeywords(contentLower: string, keywords: seq<string>): (found: seq<string>)
    ensures |found| <= |keywords|
    ensures forall i :: 0 <= i < |found| ==> found[i] in keywords && KeywordFound(contentLower, found[i])
    ensures forall kw :: kw in found <==> kw in keywords && KeywordFound(contentLower, kw)
  {
    var p := (kw: string) => KeywordFound(contentLower, kw);
    forall kw ensures kw in Filter(keywords, p) <==> kw in keywords && p(kw) {
      FilterMembers(keywords, p, kw);
    }
    Filter(keywords, p)
  }

  /** The verdict of `validate_text_accuracy`. */
  predicate TextAccurate(content: string, keywords: seq<string>)
  {
    if content == [] || keywords == [] then keywords == []
    else |FoundKeywords(Lower(content), keywords)| >= RequiredMatches(|keywords|)
  }

  /** `validate_text_accuracy` */
  method ValidateTextAccuracy(content: string, keywords: seq<string>) returns (ok: bool)
    ensures ok == TextAccurate(content, keywords)
  {
    if content == [] || keywords == [] {
      return |keywords| == 0;
    }
    var contentLower := Lower(content);
    var found: seq<string> := [];
    var i := 0;
    while i < |keywords|
      invariant i <= |keywords|
      invariant found == FoundKeywords(contentLower, keywords[..i])
    {
      FilterAppend(keywords[..i], [keywords[i]], (kw: string) => KeywordFound(contentLower, kw));
      assert keywords[..i + 1] == keywords[..i] + [keywords[i]];
      if Contains(contentLower, Lower(keywords[i])) {
        found := found + [keywords[i]];
      }
      i := i + 1;
    }
    assert keywords[..i] == keywords;
    ok := |found| >= RequiredMatches(|keywords|);
  }

  /** Only the lowered content matters: two contents that lower alike get the
      same verdict for every keyword list. */
  lemma TextAccuracyIgnoresCase(content1: string, content2: string, keywords: seq<string>)
    requires Lower(content1) == Lower(content2)
    ensures TextAccurate(content1, keywords) == TextAccurate(content2, keywords)
  {
    assert |content1| == |Lower(content1)| == |content2|;
  }

  /** The three cases of the rule: no keywords always passes, keywords against
      empty content always fail, and otherwise enough keywords must occur. */
  lemma TextAccuracyCases(content: string, keywords: seq<string>)
    ensures keywords == [] ==> TextAccurate(content, keywords)
    ensures keywords != [] && content == [] ==> !TextAccurate(content, keywords)
    ensures keywords != [] && content != [] ==>
      (TextAccurate(content, keywords) <==>
       Count(keywords, (kw: string) => KeywordFound(Lower(content), kw)) >= RequiredMatches(|keywords|))
  {
    CountIsFilterLength(keywords, (kw: string) => KeywordFound(Lower(content), kw));
  }

  /** With content present, finding every keyword passes, and with two keywords
      or more finding half of them (rounded down) is enough. */
  lemma TextAccuracyMajority(content: string, keywords: seq<string>)
    requires content != [] && |keywords| >= 2
    ensures TextAccurate(content, keywords) <==>
      2 * |FoundKeywords(Lower(content), keywords)| >= |keywords| - |keywords| % 2
  {
  }

  /** Adding a keyword that occurs in the content never turns a passing
      verdict into a failing one (the content must be non-empty: with empty
      content only the empty keyword list passes). */
  lemma TextAccuracyMonotone(content: string, keywords: seq<string>, extra: string)
    requires content != []
    requires TextAccurate(content, keywords)
    requires KeywordFound(Lower(content), extra)
    ensures TextAccurate(content, keywords + [extra])
  {
    var p := (kw: string) => KeywordFound(Lower(content), kw);
    FilterAppend(keywords, [extra], p);
    assert [extra][1..] == [];
    assert Filter([extra], p) == [extra];
  }

  /** A one-keyword list passes exactly when that keyword occurs. */
  lemma TextAccuracySingle(content: string, keyword: string)
    requires content != []
    ensures TextAccurate(content, [keyword]) <==> KeywordFound(Lower(content), keyword)
  {
    assert [keyword][1..] == [];
  }

  // ---------------------------------------------------------------------------
  // Metadata completeness
  // ---------------------------------------------------------------------------

  const RequiredFields: seq<string> := ["title", "created_at"]

  /** Checks the fields in order: each must be present and truthy. */
  function FieldsPresent(metadata: Metadata, fields: seq<string>): (ok: bool)
    ensures ok <==> forall i :: 0 <= i < |fields| ==> fields[i] in metadata && metadata[fields[i]] != ""
  {
    if fields == [] then true
    else if fields[0] !in metadata then false
    else if metadata[fields[0]] == "" then false
    else FieldsPresent(metadata, fields[1..])
  }

  /** `validate_metadata` */
  function ValidateMetadata(metadata: Metadata): (ok: bool)
    ensures ok <==> ("title" in metadata && metadata["title"] != ""
                     && "created_at" in metadata && metadata["created_at"] != "")
  {
    assert RequiredFields[0] == "title" && RequiredFields[1] == "created_at";
    FieldsPresent(metadata, RequiredFields)
  }

  lemma ValidateMetadataExamples()
    ensures !ValidateMetadata(map[])
    ensures !ValidateMetadata(map["title" := ""])
    ensures !ValidateMetadata(map["title" := "Intro", "created_at" := ""])
    ensures ValidateMetadata(map["title" := "Intro", "created_at" := "2024-01-01"])
  {
  }

  // ---------------------------------------------------------------------------
  // Per-result validation
  // ---------------------------------------------------------------------------

  const MetadataFailedTag: string := "Metadata validation failed"
  const ContentEmptyTag: string := "Content is empty"

  /** The error tags of one result: metadata first, then content. */
  function ErrorTags(metadataOk: bool, contentOk: bool): (errors: seq<string>)
    ensures errors == [] <==> metadataOk && contentOk
    ensures MetadataFailedTag in errors <==> !metadataOk
    ensures ContentEmptyTag in errors <==> !contentOk
    ensures forall e :: e in errors ==> e == MetadataFailedTag || e == ContentEmptyTag
  {
    assert MetadataFailedTag[0] != ContentEmptyTag[0];
    (if metadataOk then [] else [MetadataFailedTag]) + (if contentOk then [] else [ContentEmptyTag])
  }

  /** The detail recorded for one result. */
  function DetailOf(r: QueryResult): (d: Detail)
    ensures d.id == r.id
    ensures d.metadataValid == ValidateMetadata(r.metadata)
    ensures d.contentValid <==> !IsBlank(r.content)
    ensures d.errors == ErrorTags(d.metadataValid, d.contentValid)
  {
    var metadataOk := ValidateMetadata(r.metadata);
    var contentOk := !IsBlank(r.content);
    Detail(r.id, contentOk, metadataOk, ErrorTags(metadataOk, contentOk))
  }

  /** The details `validate_retrieved_data` produces for these results. */
  function DetailsOf(results: seq<QueryResult>): (details: seq<Detail>)
    ensures |details| == |results|
    ensures forall i :: 0 <= i < |results| ==> details[i] == DetailOf(results[i])
  {
    Map(results, DetailOf)
  }

  /** The body of the loop in `validate_retrieved_data`: the checks on one
      result, appending an error tag and clearing the overall flag for each
      one that fails. */
  method ValidateOne(result: QueryResult, allValidBefore: bool) returns (detail: Detail, allValid: bool)
    ensures detail == DetailOf(result)
    ensures allValid == (allValidBefore && DetailOf(result).Passed())
  {
    allValid := allValidBefore;
    var errors: seq<string> := [];
    var metadataValid := ValidateMetadata(result.metadata);
    if !metadataValid {
      errors := errors + [MetadataFailedTag];
      allValid := false;
    }
    var contentValid := true;
    if IsBlank(result.content) {
      contentValid := false;
      errors := errors + [ContentEmptyTag];
      allValid := false;
    }
    detail := Detail(result.id, contentValid, metadataValid, errors);
  }

  /** `validate_retrieved_data`: one detail per result in input order, and the
      overall flag. */
  method ValidateRetrievedData(results: seq<QueryResult>) returns (allValid: bool, details: seq<Detail>)
    ensures details == DetailsOf(results)
    ensures allValid <==> AllPassed(details)
    ensures results == [] ==> allValid && details == []
  {
    if results == [] {
      return true, [];
    }
    details := [];
    allValid := true;
    var i := 0;
    while i < |results|
      invariant i <= |results|
      invariant details == DetailsOf(results[..i])
      invariant allValid <==> AllPassed(details)
    {
      var detail;
      MapSnoc(results, i, DetailOf);
      AllPassedSnoc(details, DetailOf(results[i]));
      detail, allValid := ValidateOne(results[i], allValid);
      details := details + [detail];
      i := i + 1;
    }
    assert results[..i] == results;
  }

  /** Results that came out of a similarity search always carry content, so
      only their metadata can fail validation. */
  lemma SearchResultsHaveContent(points: seq<Gateway.ScoredPoint>)
    ensures forall i :: 0 <= i < |Gateway.KeptResults(points)| ==>
      DetailOf(Gateway.KeptResults(points)[i]).contentValid
  {
    Gateway.KeptResultsWellFormed(points);
  }

  // ---------------------------------------------------------------------------
  // Report
  // ---------------------------------------------------------------------------

  function PassedCount(details: seq<Detail>): (n: nat)
    ensures n <= |details|
  {
    Count(details, (d: Detail) => d.Passed())
  }

  function FailedCount(details: seq<Detail>): (n: nat)
    ensures n <= |details|
  {
    Count(details, (d: Detail) => !d.Passed())
  }

  /** Every detail is counted exactly once, as passed or as failed. */
  lemma PassedPlusFailed(details: seq<Detail>)
    ensures PassedCount(details) + FailedCount(details) == |details|
  {
    CountComplement(details, (d: Detail) => d.Passed(), (d: Detail) => !d.Passed());
  }

  /** `all(... for detail in validation_results)`, vacuously true. */
  predicate AllPassed(details: seq<Detail>)
  {
    forall i :: 0 <= i < |details| ==> details[i].Passed()
  }

  lemma AllPassedSnoc(details: seq<Detail>, detail: Detail)
    ensures AllPassed(details + [detail]) <==> AllPassed(details) && detail.Passed()
  {
    var all := details + [detail];
    assert all[|details|] == detail;
    assert forall i :: 0 <= i < |details| ==> all[i] == details[i];
  }

  /** All details pass exactly when all of them are counted as passed. */
  lemma AllPassedIffCounted(details: seq<Detail>)
    ensures AllPassed(details) <==> PassedCount(details) == |details|
  {
    CountAll(details, (d: Detail) => d.Passed());
  }

  /** The share of details satisfying p, or 1.0 when there are none. */
  function Share(details: seq<Detail>, p: Detail -> bool): (x: real)
    ensures 0.0 <= x <= 1.0
    ensures details == [] ==> x == 1.0
    ensures details != [] ==> x * |details| as real == Count(details, p) as real
  {
    if details == [] then 1.0 else Count(details, p) as real / |details| as real
  }

  /** The denominator of the accuracy: the number of results, or 1. */
  function AccuracyDenominator(results: seq<QueryResult>): (n: nat)
    ensures n >= 1
    ensures results != [] ==> n == |results|
  {
    if results == [] then 1 else |results|
  }

  /** `valid_results / total_results`. */
  function Accuracy(passed: nat, total: nat): (x: real)
    requires total >= 1
    ensures 0.0 <= x
    ensures passed == 0 ==> x == 0.0
    ensures x <= 1.0 <==> passed <= total
    ensures x == 1.0 <==> passed == total
  {
    passed as real / total as real
  }

  /** The accuracy is the passed share of the denominator. */
  lemma AccuracyMeaning(passed: nat, total: nat)
    requires total >= 1
    ensures Accuracy(passed, total) * total as real == passed as real
  {
  }

  function Scores(results: seq<QueryResult>): (s: seq<real>)
    ensures |s| == |results|
    ensures forall i :: 0 <= i < |s| ==> s[i] == results[i].similarityScore
  {
    seq(|results|, i requires 0 <= i < |results| => results[i].similarityScore)
  }

  /** `duration_ms`: end minus start when both are given, now minus start when
      only the start is, otherwise absent (times in milliseconds). */
  function DurationMs(startMs: Option<real>, endMs: Option<real>, nowMs: real): (d: Option<real>)
    ensures d.Some? <==> startMs.Some?
    ensures startMs.Some? && endMs.Some? ==> d == Some(endMs.value - startMs.value)
    ensures startMs.Some? && endMs.None? ==> d == Some(nowMs - startMs.value)
    ensures startMs.Some? && endMs.Some? && startMs.value <= endMs.value ==> d.value >= 0.0
    ensures startMs.Some? && endMs.None? && startMs.value <= nowMs ==> d.value >= 0.0
  {
    if startMs.Some? && endMs.Some? then Some(endMs.value - startMs.value)
    else if startMs.Some? then Some(nowMs - startMs.value)
    else None
  }

  /** The performance block of a report. */
  function Metrics(results: seq<QueryResult>, duration: Option<real>): (m: PerformanceMetrics)
    ensures m.Timing? && m.durationMs == duration
    ensures duration.None? || duration.value <= 0.0 ==> m.resultsPerSecond == 0.0
    ensures duration.Some? && duration.value > 0.0 ==> m.resultsPerSecond >= 0.0
    ensures results == [] ==> m.averageSimilarityScore == 0.0
  {
    var perSecond := if duration.Some? && duration.value > 0.0 then |results| as real / (duration.value / 1000.0) else 0.0;
    var average := if results != [] then Sum(Scores(results)) / |results| as real else 0.0;
    Timing(duration, perSecond, average)
  }

  /** The rate and the average mean what they say: the rate times the
      duration in seconds is the number of results, and the average times the
      number of results is the sum of their scores. */
  lemma MetricsMeaning(results: seq<QueryResult>, duration: Option<real>)
    ensures var m := Metrics(results, duration);
      && (duration.Some? && duration.value > 0.0 ==> m.resultsPerSecond * (duration.value / 1000.0) == |results| as real)
      && (results != [] ==> m.averageSimilarityScore * |results| as real == Sum(Scores(results)))
  {
  }

  /** The `details` block of a report. */
  function SummaryOf(validationResults: seq<Detail>): (d: ReportDetails)
    ensures d.Summary? && d.HasCounts()
    ensures d.passedCount == PassedCount(validationResults)
    ensures d.failedCount == FailedCount(validationResults)
    ensures d.passedCount + d.failedCount == |validationResults|
    ensures d.validationDetails == validationResults
    ensures d.accuracyBreakdown == Breakdown(Share(validationResults, (x: Detail) => x.contentValid),
                                             Share(validationResults, (x: Detail) => x.metadataValid))
    ensures validationResults == [] ==> d.accuracyBreakdown == Breakdown(1.0, 1.0)
  {
    PassedPlusFailed(validationResults);
    Summary(PassedCount(validationResults), FailedCount(validationResults), validationResults,
            Breakdown(Share(validationResults, (d: Detail) => d.contentValid),
                      Share(validationResults, (d: Detail) => d.metadataValid)))
  }

  /** `generate_validation_report`: the report, or the ValueError its
      constructor raises. Times are milliseconds; `nowMs` is the clock
      reading the function takes. */
  function GenerateValidationReport(query: string, results: seq<QueryResult>, validationResults: seq<Detail>,
                                    startMs: Option<real>, endMs: Option<real>, nowMs: real, timestamp: string)
    : (r: Result<ValidationReport, Failure>)
    ensures r.Success? <==> !IsBlank(query) && PassedCount(validationResults) <= AccuracyDenominator(results)
    ensures r.Failure? ==> r.error.ValueError?
    ensures r.Success? ==>
      && r.value.query == query
      && r.value.resultsCount == |results|
      && (r.value.validationPassed <==> AllPassed(validationResults))
      && r.value.accuracyScore == Accuracy(PassedCount(validationResults), AccuracyDenominator(results))
      && r.value.details == SummaryOf(validationResults)
      && r.value.performanceMetrics == Metrics(results, DurationMs(startMs, endMs, nowMs))
  {
    var accuracy := Accuracy(PassedCount(validationResults), AccuracyDenominator(results));
    var details := SummaryOf(validationResults);
    var metrics := Metrics(results, DurationMs(startMs, endMs, nowMs));
    NewValidationReport(query, timestamp, |results|, AllPassed(validationResults), accuracy, details, metrics)
  }

  /** The report built from `validate_retrieved_data`'s own details never
      fails for a non-blank query, and its accuracy is 1.0 exactly when there
      are results and all of them pass. */
  lemma ReportOfValidatedResults(query: string, results: seq<QueryResult>,
                                 startMs: Option<real>, endMs: Option<real>, nowMs: real, timestamp: string)
    requires !IsBlank(query)
    ensures var r := GenerateValidationReport(query, results, DetailsOf(results), startMs, endMs, nowMs, timestamp);
      && r.Success?
      && (r.value.accuracyScore == 1.0 <==> results != [] && r.value.validationPassed)
  {
    var details := DetailsOf(results);
    AllPassedIffCounted(details);
  }

  /** With no results and no details the report passes but its accuracy is
      0.0: the denominator is 1, not the number of details. */
  lemma EmptyReportAccuracy(query: string, startMs: Option<real>, endMs: Option<real>, nowMs: real, timestamp: string)
    requires !IsBlank(query)
    ensures var r := GenerateValidationReport(query, [], [], startMs, endMs, nowMs, timestamp);
      r.Success? && r.value.validationPassed && r.value.accuracyScore == 0.0 && r.value.resultsCount == 0
      && r.value.performanceMetrics.averageSimilarityScore == 0.0
  {
  }

  /** More passing details than results makes the accuracy exceed 1, which
      the report constructor rejects. */
  lemma ReportRejectsExcessDetails(query: string, results: seq<QueryResult>, validationResults: seq<Detail>,
                                   startMs: Option<real>, endMs: Option<real>, nowMs: real, timestamp: string)
    requires !IsBlank(query) && |results| >= 1 && PassedCount(validationResults) > |results|
    ensures GenerateValidationReport(query, results, validationResults, startMs, endMs, nowMs, timestamp)
         == Failure(ValueError(InvalidField("accuracy_score")))
  {
  }

  // ---------------------------------------------------------------------------
  // Per-query failure report of the validation pipeline
  // ---------------------------------------------------------------------------

  /** The failure report built when validating one query raised, as written:
      its details hold only the error list. */
  function FailureReportAsWritten(query: string, timestamp: string, error: string, elapsedMs: real)
    : (r: Result<ValidationReport, Failure>)
    ensures r.Failure?
  {
    NewValidationReport(query, timestamp, 0, false, 0.0, ErrorList([error]), DurationOnly(elapsedMs))
  }

  /** The fallback can never be built: whatever the query, the report
      constructor rejects details without the count keys. */
  lemma FailureReportAlwaysRejected(query: string, timestamp: string, error: string, elapsedMs: real)
    requires !IsBlank(query)
    ensures FailureReportAsWritten(query, timestamp, error, elapsedMs) == Failure(ValueError(InvalidField("details")))
  {
  }

  /** The evidently intended failure report: the same error list, together
      with zero passed and zero failed counts, which the constructor accepts. */
  function FailureReport(query: string, timestamp: string, error: string, elapsedMs: real)
    : (r: Result<ValidationReport, Failure>)
    ensures r.Success? <==> !IsBlank(query)
    ensures r.Success? ==>
      && !r.value.validationPassed && r.value.resultsCount == 0 && r.value.accuracyScore == 0.0
      && r.value.details == CountedErrors(0, 0, [error])
  {
    NewValidationReport(query, timestamp, 0, false, 0.0, CountedErrors(0, 0, [error]), DurationOnly(elapsedMs))
  }
}
