/** The vector-store side of the retrieval-validation engine: connecting with
    bounded retry, similarity search with its query guard, truncation and
    per-point filtering, the similarity-threshold filter, and the predefined
    test queries. The store, the embedding provider and their failures are the
    fields of a SearchBackend value. */
module Gateway {
  import opened Wrappers
  import opened Text
  import opened Seqs
  import opened Records

  // Configuration defaults (each can be overridden from the environment).
  const CollectionName: string := "rag_embedding"
  const SimilarityThreshold: real := 0.5
  const MaxResults: int := 5
  const ConnectionRetryAttempts: nat := 3
  const MinContentChars: nat := 10
  /** Queries longer than this are cut to their first MaxQueryChars characters. */
  const MaxQueryChars: nat := 1000

  type Vector = seq<real>

  /** A hit as the store returns it: id, score and payload. */
  datatype ScoredPoint = ScoredPoint(id: string, score: real, payload: map<string, string>)

  /** `payload.get(key, "")` */
  function PayloadGet(payload: map<string, string>, key: string): string
  {
    if key in payload then payload[key] else ""
  }

  /** What the outside world answers during one search: the collection
      listing, the embedding credential, the query-embedding call and the
      nearest-neighbour query (each may raise). */
  datatype SearchBackend = SearchBackend(
    listCollections: Result<seq<string>, Failure>,
    embeddingKey: Option<string>,
    embedQuery: string -> Result<Vector, Failure>,
    queryPoints: (Vector, int) -> Result<seq<ScoredPoint>, Failure>)

  // ---------------------------------------------------------------------------
  // Connection with bounded retry
  // ---------------------------------------------------------------------------

  /** A client that answered on the given (0-based) attempt. */
  datatype Connection = Connection(url: string, attempt: nat)

  /** Python falsiness of an optional string (`not s`): unset or empty.
      Used for the store URL, the embedding key and the query category. */
  predicate Falsy(s: Option<string>)
  {
    s.None? || s.value == ""
  }

  /** `connect_to_qdrant`: `succeeds(k)` says whether attempt k (building the
      client and listing its collections) goes through. Returns the
      connection, and how many attempts were made. */
  method ConnectToQdrant(url: Option<string>, retryAttempts: nat, succeeds: nat -> bool)
    returns (r: Result<Connection, Failure>, attemptsMade: nat)
    ensures Falsy(url) ==> r == Failure(ValueError(MissingStoreUrl)) && attemptsMade == 0
    ensures !Falsy(url) && r.Success? ==>
      && r.value.url == url.value
      && r.value.attempt < retryAttempts && succeeds(r.value.attempt)
      && (forall j :: 0 <= j < r.value.attempt ==> !succeeds(j))
      && attemptsMade == r.value.attempt + 1
    ensures !Falsy(url) && r.Failure? ==>
      && r.error == ConnectionError
      && (forall j :: 0 <= j < retryAttempts ==> !succeeds(j))
      && attemptsMade == retryAttempts
    ensures !Falsy(url) && (exists k :: 0 <= k < retryAttempts && succeeds(k)) ==> r.Success?
  {
    if Falsy(url) {
      return Failure(ValueError(MissingStoreUrl)), 0;
    }
    var attempt := 0;
    attemptsMade := 0;
    while attempt < retryAttempts
      invariant attempt <= retryAttempts
      invariant attemptsMade == attempt
      invariant forall j :: 0 <= j < attempt ==> !succeeds(j)
    {
      attemptsMade := attemptsMade + 1;
      if succeeds(attempt) {
        return Success(Connection(url.value, attempt)), attemptsMade;
      }
      if attempt == retryAttempts - 1 {
        // the last attempt failed
        return Failure(ConnectionError), attemptsMade;
      }
      attempt := attempt + 1;
    }
    r := Failure(ConnectionError);
  }

  // ---------------------------------------------------------------------------
  // Similarity search
  // ---------------------------------------------------------------------------

  /** The search text actually embedded: `query_text[:1000]` when longer. */
  function EffectiveQuery(queryText: string): (q: string)
    ensures |q| <= MaxQueryChars
    ensures |queryText| <= MaxQueryChars ==> q == queryText
    ensures |queryText| > MaxQueryChars ==> q == queryText[..MaxQueryChars]
  {
    if |queryText| > MaxQueryChars then queryText[..MaxQueryChars] else queryText
  }

  /** `len(content.strip()) >= min_content_chars` (content non-empty included). */
  predicate HasEnoughContent(content: string)
  {
    content != [] && |Strip(content)| >= MinContentChars
  }

  /** What one store point becomes in the search output: nothing when its
      content is too short or the QueryResult constructor rejects it. */
  function ResultOf(p: ScoredPoint): (r: Option<QueryResult>)
    ensures r.Some? <==>
      HasEnoughContent(PayloadGet(p.payload, "content"))
      && IsHttpUrl(PayloadGet(p.payload, "source_url"))
      && 0.0 <= p.score <= 1.0
    ensures r.Some? ==>
      && WellFormedResult(r.value)
      && r.value.id == p.id
      && r.value.content == PayloadGet(p.payload, "content")
      && r.value.similarityScore == p.score
      && r.value.metadata == map["title" := PayloadGet(p.payload, "title"),
                                 "created_at" := PayloadGet(p.payload, "created_at")]
  {
    var content := PayloadGet(p.payload, "content");
    if !HasEnoughContent(content) then None
    else
      var metadata := map["title" := PayloadGet(p.payload, "title"),
                          "created_at" := PayloadGet(p.payload, "created_at")];
      match NewQueryResult(p.id, content, PayloadGet(p.payload, "source_url"), metadata, p.score)
      case Success(q) => Some(q)
      case Failure(_) => None
  }

  /** What one point contributes to the output: its result, or nothing. */
  function Kept(p: ScoredPoint): (rs: seq<QueryResult>)
    ensures |rs| <= 1
  {
    match ResultOf(p)
    case Some(q) => [q]
    case None => []
  }

  /** The points that survive, converted, in store order. */
  function KeptResults(points: seq<ScoredPoint>): (rs: seq<QueryResult>)
    ensures |rs| <= |points|
  {
    if points == [] then [] else Kept(points[0]) + KeptResults(points[1..])
  }

  /** Keeping points distributes over concatenation, so the output is the
      in-order subsequence of the surviving points. */
  lemma {:induction false} KeptResultsAppend(a: seq<ScoredPoint>, b: seq<ScoredPoint>)
    ensures KeptResults(a + b) == KeptResults(a) + KeptResults(b)
  {
    if a == [] {
      assert a + b == b;
    } else {
      assert (a + b)[0] == a[0];
      assert (a + b)[1..] == a[1..] + b;
      KeptResultsAppend(a[1..], b);
      assert KeptResults(a + b) == Kept(a[0]) + KeptResults(a[1..] + b);
    }
  }

  lemma KeptResultsSnoc(points: seq<ScoredPoint>, i: nat)
    requires i < |points|
    ensures KeptResults(points[..i + 1]) == KeptResults(points[..i]) + Kept(points[i])
  {
    assert points[..i + 1] == points[..i] + [points[i]];
    KeptResultsAppend(points[..i], [points[i]]);
    assert [points[i]][1..] == [];
  }

  /** Every result of a search is a well-formed QueryResult with enough content. */
  lemma {:induction false} KeptResultsWellFormed(points: seq<ScoredPoint>)
    ensures forall i :: 0 <= i < |KeptResults(points)| ==>
      WellFormedResult(KeptResults(points)[i]) && HasEnoughContent(KeptResults(points)[i].content)
  {
    if points != [] {
      KeptResultsWellFormed(points[1..]);
      assert KeptResults(points) == Kept(points[0]) + KeptResults(points[1..]);
    }
  }

  /** When every point qualifies, the search keeps all of them, one for one. */
  lemma {:induction false} KeptResultsAllQualify(points: seq<ScoredPoint>)
    requires forall i :: 0 <= i < |points| ==> ResultOf(points[i]).Some?
    ensures |KeptResults(points)| == |points|
    ensures forall i :: 0 <= i < |points| ==> KeptResults(points)[i] == ResultOf(points[i]).value
  {
    if points != [] {
      KeptResultsAllQualify(points[1..]);
      var first := ResultOf(points[0]).value;
      var all := KeptResults(points);
      assert Kept(points[0]) == [first];
      assert all == [first] + KeptResults(points[1..]);
      forall i | 0 <= i < |points| ensures all[i] == ResultOf(points[i]).value {
        if i > 0 {
          assert points[1..][i - 1] == points[i];
        }
      }
    }
  }

  /** The body of the loop over the store's points: skip a point with too
      little content, otherwise build the QueryResult and drop it if rejected. */
  method ConvertPoint(point: ScoredPoint) returns (converted: Option<QueryResult>)
    ensures converted == ResultOf(point)
  {
    var content := PayloadGet(point.payload, "content");
    if !HasEnoughContent(content) {
      return None;
    }
    var metadata := map["title" := PayloadGet(point.payload, "title"),
                        "created_at" := PayloadGet(point.payload, "created_at")];
    var built := NewQueryResult(point.id, content, PayloadGet(point.payload, "source_url"), metadata, point.score);
    if built.Success? {
      converted := Some(built.value);
    } else {
      converted := None;
    }
  }

  /** The loop over the store's points in `run_similarity_search`. */
  method FilterPoints(points: seq<ScoredPoint>) returns (results: seq<QueryResult>)
    ensures results == KeptResults(points)
  {
    results := [];
    var i := 0;
    while i < |points|
      invariant i <= |points|
      invariant results == KeptResults(points[..i])
    {
      var converted := ConvertPoint(points[i]);
      KeptResultsSnoc(points, i);
      if converted.Some? {
        results := results + [converted.value];
      }
      i := i + 1;
    }
    assert points[..i] == points;
  }

  /** `run_similarity_search`, as a function of what the backend answers. */
  function Search(backend: SearchBackend, queryText: string, limit: int): Result<seq<QueryResult>, Failure>
  {
    if IsBlank(queryText) then Failure(ValueError(EmptyQuery))
    else
      var q := EffectiveQuery(queryText);
      match backend.listCollections
      case Failure(e) => Failure(e)
      case Success(names) =>
        if CollectionName !in names then Failure(ValueError(MissingCollection))
        else if Falsy(backend.embeddingKey) then Failure(ValueError(MissingEmbeddingKey))
        else
          match backend.embedQuery(q)
          case Failure(_) => Failure(ValueError(EmbeddingFailed))
          case Success(vector) =>
            match backend.queryPoints(vector, limit)
            case Failure(e) => Failure(e)
            case Success(points) => Success(KeptResults(points))
  }

  /** What the search promises: a blank query is refused before the store is
      asked anything; otherwise a successful search returns exactly the kept
      points of the store's answer to the truncated query. */
  lemma SearchContract(backend: SearchBackend, queryText: string, limit: int)
    ensures IsBlank(queryText) ==> Search(backend, queryText, limit) == Failure(ValueError(EmptyQuery))
    ensures Search(backend, queryText, limit).Success? ==>
      && !IsBlank(queryText)
      && backend.listCollections.Success? && CollectionName in backend.listCollections.value
      && !Falsy(backend.embeddingKey)
      && backend.embedQuery(EffectiveQuery(queryText)).Success?
      && var points := backend.queryPoints(backend.embedQuery(EffectiveQuery(queryText)).value, limit);
         points.Success? && Search(backend, queryText, limit).value == KeptResults(points.value)
  {
  }

  /** `run_similarity_search` */
  method RunSimilaritySearch(backend: SearchBackend, queryText: string, limit: int)
    returns (r: Result<seq<QueryResult>, Failure>)
    ensures r == Search(backend, queryText, limit)
  {
    if IsBlank(queryText) {
      return Failure(ValueError(EmptyQuery));
    }
    var q := queryText;
    if |q| > MaxQueryChars {
      q := q[..MaxQueryChars];
    }
    if backend.listCollections.Failure? {
      return Failure(backend.listCollections.error);
    }
    if CollectionName !in backend.listCollections.value {
      return Failure(ValueError(MissingCollection));
    }
    if Falsy(backend.embeddingKey) {
      return Failure(ValueError(MissingEmbeddingKey));
    }
    var embedded := backend.embedQuery(q);
    if embedded.Failure? {
      return Failure(ValueError(EmbeddingFailed));
    }
    var answer := backend.queryPoints(embedded.value, limit);
    if answer.Failure? {
      return Failure(answer.error);
    }
    var results := FilterPoints(answer.value);
    r := Success(results);
  }

  // ---------------------------------------------------------------------------
  // Threshold filter
  // ---------------------------------------------------------------------------

  /** `[r for r in results if r.similarity_score >= threshold]` */
  function AboveThreshold(results: seq<QueryResult>, threshold: real): (kept: seq<QueryResult>)
    ensures |kept| <= |results|
    ensures forall i :: 0 <= i < |kept| ==> kept[i] in results && kept[i].similarityScore >= threshold
  {
    Filter(results, (q: QueryResult) => q.similarityScore >= threshold)
  }

  /** The threshold filter keeps exactly the results scoring at least the
      threshold, in their original order. */
  lemma AboveThresholdExact(results: seq<QueryResult>, threshold: real, q: QueryResult)
    ensures q in AboveThreshold(results, threshold) <==> q in results && q.similarityScore >= threshold
    ensures forall a, b :: AboveThreshold(a + b, threshold) == AboveThreshold(a, threshold) + AboveThreshold(b, threshold)
  {
    FilterMembers(results, (q: QueryResult) => q.similarityScore >= threshold, q);
    forall a, b ensures AboveThreshold(a + b, threshold) == AboveThreshold(a, threshold) + AboveThreshold(b, threshold) {
      FilterAppend(a, b, (q: QueryResult) => q.similarityScore >= threshold);
    }
  }

  /** Filtering by a lower threshold first and then by a higher one is the same
      as filtering by the higher one alone. */
  lemma {:induction false} AboveThresholdCompose(results: seq<QueryResult>, low: real, high: real)
    requires low <= high
    ensures AboveThreshold(AboveThreshold(results, low), high) == AboveThreshold(results, high)
  {
    if results != [] {
      AboveThresholdCompose(results[1..], low, high);
    }
  }

  /** `add_similarity_threshold_to_search` */
  function ThresholdSearch(backend: SearchBackend, queryText: string, limit: int, threshold: real)
    : (r: Result<seq<QueryResult>, Failure>)
    ensures Search(backend, queryText, limit).Failure? ==> r == Search(backend, queryText, limit)
    ensures Search(backend, queryText, limit).Success? ==>
      r == Success(AboveThreshold(Search(backend, queryText, limit).value, threshold))
  {
    match Search(backend, queryText, limit)
    case Failure(e) => Failure(e)
    case Success(all) => Success(AboveThreshold(all, threshold))
  }

  // ---------------------------------------------------------------------------
  // Predefined test queries
  // ---------------------------------------------------------------------------

  // The two longer texts are written as two literals: the verifier sees the
  // characters of a short literal, which the well-formedness proofs below need.
  const Tq001: TestQuery := TestQuery("tq001", "What is ROS 2 and how does it work" + " with Physical AI?",
                                      ["ROS 2", "Physical AI", "robotics"], "concept", "high")
  const Tq002: TestQuery := TestQuery("tq002", "How to implement a basic robot controller?",
                                      ["robot", "controller", "implementation"], "procedure", "high")
  const Tq003: TestQuery := TestQuery("tq003", "Explain the architecture of" + " the nervous system for robots",
                                      ["architecture", "nervous system", "robot"], "concept", "medium")
  const Tq004: TestQuery := TestQuery("tq004", "What are the key components of Physical AI?",
                                      ["components", "Physical AI", "key"], "reference", "medium")
  const Tq005: TestQuery := TestQuery("tq005", "How does the RAG system work?",
                                      ["RAG", "system", "retrieval"], "concept", "low")

  /** The predefined queries, in order. */
  const TestQueries: seq<TestQuery> := [Tq001, Tq002, Tq003, Tq004, Tq005]

  /** `load_test_queries(category)`: a falsy category (None or "") selects all. */
  function LoadTestQueries(category: Option<string>): (qs: seq<TestQuery>)
    ensures category.Some? && category.value != "" ==>
      forall i :: 0 <= i < |qs| ==> qs[i] in TestQueries && qs[i].category == category.value
    ensures Falsy(category) ==> qs == TestQueries
  {
    if category.Some? && category.value != "" then
      Filter(TestQueries, (q: TestQuery) => q.category == category.value)
    else TestQueries
  }

  /** Category filtering keeps every predefined query of that category, and
      only those, in their original order (a filter, so
      it distributes over concatenation as FilterAppend states). */
  lemma LoadTestQueriesExact(category: string, q: TestQuery)
    requires category != ""
    ensures q in LoadTestQueries(Some(category)) <==> q in TestQueries && q.category == category
  {
    FilterMembers(TestQueries, (q: TestQuery) => q.category == category, q);
  }

  /** The five predefined queries by category: three concept queries, one
      procedure and one reference query; an unknown category selects none. */
  lemma LoadTestQueriesByCategory()
    ensures LoadTestQueries(Some("concept")) == [Tq001, Tq003, Tq005]
    ensures LoadTestQueries(Some("procedure")) == [Tq002]
    ensures LoadTestQueries(Some("reference")) == [Tq004]
    ensures LoadTestQueries(Some("custom")) == []
  {
    LoadTestQueriesOneByOne("concept");
    LoadTestQueriesOneByOne("procedure");
    LoadTestQueriesOneByOne("reference");
    LoadTestQueriesOneByOne("custom");
  }

  lemma LoadTestQueriesOneByOne(c: string)
    requires c != ""
    ensures LoadTestQueries(Some(c)) == FilterOneByOne(c)
  {
    FilterOfFive(Tq001, Tq002, Tq003, Tq004, Tq005, (q: TestQuery) => q.category == c);
  }

  lemma FilterOfFive<T>(a: T, b: T, c: T, d: T, e: T, p: T -> bool)
    ensures Filter([a, b, c, d, e], p) ==
      (if p(a) then [a] else []) + ((if p(b) then [b] else []) + ((if p(c) then [c] else [])
      + ((if p(d) then [d] else []) + (if p(e) then [e] else []))))
  {
    assert [a, b, c, d, e][1..] == [b, c, d, e];
    assert [b, c, d, e][1..] == [c, d, e];
    assert [c, d, e][1..] == [d, e];
    assert [d, e][1..] == [e];
    assert [e][1..] == [];
    assert Filter([e], p) == (if p(e) then [e] else []);
    assert Filter([d, e], p) == (if p(d) then [d] else []) + Filter([e], p);
    assert Filter([c, d, e], p) == (if p(c) then [c] else []) + Filter([d, e], p);
    assert Filter([b, c, d, e], p) == (if p(b) then [b] else []) + Filter([c, d, e], p);
    assert Filter([a, b, c, d, e], p) == (if p(a) then [a] else []) + Filter([b, c, d, e], p);
  }

  /** The queries of category c, taken one predefined query at a time. */
  function FilterOneByOne(c: string): seq<TestQuery>
  {
    (if Tq001.category == c then [Tq001] else []) + ((if Tq002.category == c then [Tq002] else [])
    + ((if Tq003.category == c then [Tq003] else []) + ((if Tq004.category == c then [Tq004] else [])
    + (if Tq005.category == c then [Tq005] else []))))
  }

  predicate StartsNonSpace(s: string)
  {
    s != [] && !IsSpace(s[0])
  }

  lemma WellFormedWhenStartsNonSpace(q: TestQuery)
    requires StartsNonSpace(q.id) && StartsNonSpace(q.text)
    requires forall k :: 0 <= k < |q.expectedContentKeywords| ==> StartsNonSpace(q.expectedContentKeywords[k])
    requires q.category in Categories && q.priority in Priorities
    ensures WellFormedTestQuery(q)
    ensures NewTestQuery(q.id, q.text, q.expectedContentKeywords, q.category, q.priority) == Success(q)
  {
  }

  /** Building the predefined queries at import time raises nothing. */
  lemma TestQueriesWellFormed()
    ensures NewTestQuery(Tq001.id, Tq001.text, Tq001.expectedContentKeywords, Tq001.category, Tq001.priority) == Success(Tq001)
    ensures NewTestQuery(Tq002.id, Tq002.text, Tq002.expectedContentKeywords, Tq002.category, Tq002.priority) == Success(Tq002)
    ensures NewTestQuery(Tq003.id, Tq003.text, Tq003.expectedContentKeywords, Tq003.category, Tq003.priority) == Success(Tq003)
    ensures NewTestQuery(Tq004.id, Tq004.text, Tq004.expectedContentKeywords, Tq004.category, Tq004.priority) == Success(Tq004)
    ensures NewTestQuery(Tq005.id, Tq005.text, Tq005.expectedContentKeywords, Tq005.category, Tq005.priority) == Success(Tq005)
  {
    BuildsTq001();
    BuildsTq002();
    BuildsTq003();
    BuildsTq004();
    BuildsTq005();
  }

  lemma BuildsTq001()
    ensures NewTestQuery(Tq001.id, Tq001.text, Tq001.expectedContentKeywords, Tq001.category, Tq001.priority) == Success(Tq001)
  {
    WellFormedWhenStartsNonSpace(Tq001);
  }

  lemma BuildsTq002()
    ensures NewTestQuery(Tq002.id, Tq002.text, Tq002.expectedContentKeywords, Tq002.category, Tq002.priority) == Success(Tq002)
  {
    WellFormedWhenStartsNonSpace(Tq002);
  }

  lemma BuildsTq003()
    ensures NewTestQuery(Tq003.id, Tq003.text, Tq003.expectedContentKeywords, Tq003.category, Tq003.priority) == Success(Tq003)
  {
    WellFormedWhenStartsNonSpace(Tq003);
  }

  lemma BuildsTq004()
    ensures NewTestQuery(Tq004.id, Tq004.text, Tq004.expectedContentKeywords, Tq004.category, Tq004.priority) == Success(Tq004)
  {
    WellFormedWhenStartsNonSpace(Tq004);
  }

  lemma BuildsTq005()
    ensures NewTestQuery(Tq005.id, Tq005.text, Tq005.expectedContentKeywords, Tq005.category, Tq005.priority) == Success(Tq005)
  {
    WellFormedWhenStartsNonSpace(Tq005);
  }
}
