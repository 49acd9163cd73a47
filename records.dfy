/** The validated records of the retrieval-validation engine. Each Python
    dataclass checks its fields in `__post_init__` and raises ValueError on the
    first rule broken; here each constructor is a function that returns either
    the record or that ValueError, naming the offending field. */
module Records {
  import opened Wrappers
  import opened Text

  /** Metadata dictionaries; every value the pipeline stores there is a string,
      and a value is truthy when it is non-empty. */
  type Metadata = map<string, string>

  /** The output of one similarity search hit. */
  datatype QueryResult = QueryResult(
    id: string,
    content: string,
    sourceUrl: string,
    metadata: Metadata,
    similarityScore: real)

  predicate IsHttpUrl(url: string)
  {
    StartsWith(url, "http://") || StartsWith(url, "https://")
  }

  /** The rules a QueryResult obeys once built. */
  predicate WellFormedResult(q: QueryResult)
  {
    && !IsBlank(q.content)
    && IsHttpUrl(q.sourceUrl)
    && "title" in q.metadata && "created_at" in q.metadata
    && 0.0 <= q.similarityScore <= 1.0
  }

  /** `QueryResult(...)` with its `__post_init__` checks. */
  function NewQueryResult(id: string, content: string, sourceUrl: string, metadata: Metadata, score: real)
    : (r: Result<QueryResult, Failure>)
    ensures r.Success? <==> WellFormedResult(QueryResult(id, content, sourceUrl, metadata, score))
    ensures r.Success? ==> r.value == QueryResult(id, content, sourceUrl, metadata, score)
    ensures r.Failure? ==> r.error.ValueError? && r.error.reason.InvalidField?
    ensures IsBlank(content) ==> r == Failure(ValueError(InvalidField("content")))
    ensures !IsBlank(content) && !IsHttpUrl(sourceUrl) ==> r == Failure(ValueError(InvalidField("source_url")))
  {
    if IsBlank(content) then Failure(ValueError(InvalidField("content")))
    else if !IsHttpUrl(sourceUrl) then Failure(ValueError(InvalidField("source_url")))
    else if "title" !in metadata || "created_at" !in metadata then Failure(ValueError(InvalidField("metadata")))
    else if !(0.0 <= score <= 1.0) then Failure(ValueError(InvalidField("similarity_score")))
    else Success(QueryResult(id, content, sourceUrl, metadata, score))
  }

  /** The per-result dictionary built by `validate_retrieved_data`. */
  datatype Detail = Detail(id: string, contentValid: bool, metadataValid: bool, errors: seq<string>)
  {
    /** `detail.get('content_valid', True) and detail.get('metadata_valid', True)` */
    predicate Passed() { contentValid && metadataValid }
  }

  datatype Breakdown = Breakdown(contentAccuracy: real, metadataAccuracy: real)

  /** The `details` dictionary of a report: the summary the report generator
      writes, the bare error list of the pipeline's per-query fallback, or an
      error list that also carries the two counts. */
  datatype ReportDetails =
    | Summary(passedCount: nat, failedCount: nat, validationDetails: seq<Detail>, accuracyBreakdown: Breakdown)
    | ErrorList(errors: seq<string>)
    | CountedErrors(passedCount: nat, failedCount: nat, errors: seq<string>)
  {
    /** holds both 'passed_count' and 'failed_count' keys */
    predicate HasCounts() { !ErrorList? }
  }

  datatype PerformanceMetrics =
    | Timing(durationMs: Option<real>, resultsPerSecond: real, averageSimilarityScore: real)
    | DurationOnly(elapsedMs: real)

  datatype ValidationReport = ValidationReport(
    query: string,
    timestamp: string,
    resultsCount: int,
    validationPassed: bool,
    accuracyScore: real,
    details: ReportDetails,
    performanceMetrics: PerformanceMetrics)

  predicate WellFormedReport(r: ValidationReport)
  {
    && !IsBlank(r.query)
    && r.resultsCount >= 0
    && 0.0 <= r.accuracyScore <= 1.0
    && r.details.HasCounts()
  }

  /** `ValidationReport(...)` with its `__post_init__` checks. */
  function NewValidationReport(query: string, timestamp: string, resultsCount: int, validationPassed: bool,
                               accuracyScore: real, details: ReportDetails, metrics: PerformanceMetrics)
    : (r: Result<ValidationReport, Failure>)
    ensures var report := ValidationReport(query, timestamp, resultsCount, validationPassed, accuracyScore, details, metrics);
      && (r.Success? <==> WellFormedReport(report))
      && (r.Success? ==> r.value == report)
    ensures r.Failure? ==> r.error.ValueError? && r.error.reason.InvalidField?
    ensures !IsBlank(query) && resultsCount >= 0 && 0.0 <= accuracyScore <= 1.0 && !details.HasCounts()
      ==> r == Failure(ValueError(InvalidField("details")))
  {
    if IsBlank(query) then Failure(ValueError(InvalidField("query")))
    else if resultsCount < 0 then Failure(ValueError(InvalidField("results_count")))
    else if !(0.0 <= accuracyScore <= 1.0) then Failure(ValueError(InvalidField("accuracy_score")))
    else if !details.HasCounts() then Failure(ValueError(InvalidField("details")))
    else Success(ValidationReport(query, timestamp, resultsCount, validationPassed, accuracyScore, details, metrics))
  }

  /** A predefined query used to exercise the retrieval pipeline. */
  datatype TestQuery = TestQuery(
    id: string,
    text: string,
    expectedContentKeywords: seq<string>,
    category: string,
    priority: string)

  const Categories: seq<string> := ["concept", "procedure", "reference"]
  const Priorities: seq<string> := ["high", "medium", "low"]

  predicate WellFormedTestQuery(q: TestQuery)
  {
    && !IsBlank(q.id)
    && !IsBlank(q.text)
    && (forall i :: 0 <= i < |q.expectedContentKeywords| ==> !IsBlank(q.expectedContentKeywords[i]))
    && q.category in Categories
    && q.priority in Priorities
  }

  /** The first keyword position that is blank, or |keywords| if none is. */
  function FirstBlank(keywords: seq<string>): (k: nat)
    ensures k <= |keywords|
    ensures forall i :: 0 <= i < k ==> !IsBlank(keywords[i])
    ensures k < |keywords| ==> IsBlank(keywords[k])
  {
    if keywords == [] then 0
    else if IsBlank(keywords[0]) then 0
    else 1 + FirstBlank(keywords[1..])
  }

  /** `TestQuery(...)` with its `__post_init__` checks. */
  function NewTestQuery(id: string, text: string, keywords: seq<string>, category: string, priority: string)
    : (r: Result<TestQuery, Failure>)
    ensures r.Success? <==> WellFormedTestQuery(TestQuery(id, text, keywords, category, priority))
    ensures r.Success? ==> r.value == TestQuery(id, text, keywords, category, priority)
    ensures r.Failure? ==> r.error.ValueError? && r.error.reason.InvalidField?
    ensures !IsBlank(id) && !IsBlank(text) && FirstBlank(keywords) == |keywords| && category !in Categories
      ==> r == Failure(ValueError(InvalidField("category")))
  {
    if IsBlank(id) then Failure(ValueError(InvalidField("id")))
    else if IsBlank(text) then Failure(ValueError(InvalidField("text")))
    else if FirstBlank(keywords) < |keywords| then Failure(ValueError(InvalidField("expected_content_keywords")))
    else if category !in Categories then Failure(ValueError(InvalidField("category")))
    else if priority !in Priorities then Failure(ValueError(InvalidField("priority")))
    else Success(TestQuery(id, text, keywords, category, priority))
  }

  /** A declarative validation criterion. */
  datatype ValidationRule = ValidationRule(
    ruleId: string,
    ruleType: string,
    description: string,
    threshold: Option<real>,
    enabled: bool)

  const RuleTypes: seq<string> := ["content_accuracy", "metadata_completeness", "similarity_threshold"]

  predicate WellFormedRule(rule: ValidationRule)
  {
    && !IsBlank(rule.ruleId)
    && rule.ruleType in RuleTypes
    && !IsBlank(rule.description)
    && (rule.threshold.Some? ==> 0.0 <= rule.threshold.value <= 1.0)
  }

  /** `ValidationRule(...)` with its `__post_init__` checks. */
  function NewValidationRule(ruleId: string, ruleType: string, description: string, threshold: Option<real>, enabled: bool)
    : (r: Result<ValidationRule, Failure>)
    ensures r.Success? <==> WellFormedRule(ValidationRule(ruleId, ruleType, description, threshold, enabled))
    ensures r.Success? ==> r.value == ValidationRule(ruleId, ruleType, description, threshold, enabled)
    ensures r.Failure? ==> r.error.ValueError? && r.error.reason.InvalidField?
    ensures threshold.None? && !IsBlank(ruleId) && ruleType in RuleTypes && !IsBlank(description) ==> r.Success?
  {
    if IsBlank(ruleId) then Failure(ValueError(InvalidField("rule_id")))
    else if ruleType !in RuleTypes then Failure(ValueError(InvalidField("rule_type")))
    else if IsBlank(description) then Failure(ValueError(InvalidField("description")))
    else if threshold.Some? && !(0.0 <= threshold.value <= 1.0) then Failure(ValueError(InvalidField("threshold")))
    else Success(ValidationRule(ruleId, ruleType, description, threshold, enabled))
  }

  /** The custom query of the validation pipeline is built with category
      "custom", which the TestQuery constructor rejects whatever the query text. */
  lemma CustomQueryRejected(text: string)
    ensures NewTestQuery("custom_query", text, [], "custom", "high").Failure?
  {
    assert "custom" !in Categories;
  }
}
