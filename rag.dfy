/** The question-answering agent: context retrieval against the store client,
    the general-knowledge fallback and the response it assembles. The language
    model's completions are inputs. */
module Rag {
  import opened Wrappers
  import opened Seqs
  import opened Records
  import opened Gateway

  // ---------------------------------------------------------------------------
  // Retrieval
  // ---------------------------------------------------------------------------

  /** `retrieve_context(query, max_results, threshold)` with the module's store
      client, which is None until start-up connects it. */
  function RetrieveContext(client: Option<SearchBackend>, query: string, maxResults: int, threshold: real)
    : (r: Result<seq<QueryResult>, Failure>)
    ensures client.None? ==> r == Failure(NotInitialized)
    ensures client.Some? && Search(client.value, query, maxResults).Failure? ==>
      r == Search(client.value, query, maxResults)
    ensures r.Success? ==> client.Some? && Search(client.value, query, maxResults).Success?
    ensures r.Success? ==> forall i :: 0 <= i < |r.value| ==>
      r.value[i] in Search(client.value, query, maxResults).value && r.value[i].similarityScore >= threshold
  {
    match client
    case None => Failure(NotInitialized)
    case Some(backend) =>
      match Search(backend, query, maxResults)
      case Failure(e) => Failure(e)
      case Success(results) => Success(AboveThreshold(results, threshold))
  }

  /** With a client, retrieval is the thresholded search exactly, and a result
      of the search is retrieved if and only if it reaches the threshold. */
  lemma RetrieveContextIsThresholdSearch(backend: SearchBackend, query: string, maxResults: int, threshold: real,
                                         q: QueryResult)
    ensures RetrieveContext(Some(backend), query, maxResults, threshold) ==
      ThresholdSearch(backend, query, maxResults, threshold)
    ensures Search(backend, query, maxResults).Success? ==>
      (q in RetrieveContext(Some(backend), query, maxResults, threshold).value <==>
       q in Search(backend, query, maxResults).value && q.similarityScore >= threshold)
  {
    if Search(backend, query, maxResults).Success? {
      AboveThresholdExact(Search(backend, query, maxResults).value, threshold, q);
    }
  }

  // ---------------------------------------------------------------------------
  // Answers
  // ---------------------------------------------------------------------------

  const Apology: string := "I'm sorry, but I couldn't generate an answer for your question."

  const Disclaimer: string :=
    "\n\n(Disclaimer: This answer is based on general knowledge as I couldn't find specific information about this topic in the Physical AI book.)"

  /** `generate_general_answer`: the model's completion, or the apology when
      the call raises. */
  function GeneralAnswer(completion: Result<string, Failure>): (answer: string)
  {
    match completion
    case Success(text) => text
    case Failure(_) => Apology
  }

  // ---------------------------------------------------------------------------
  // The response
  // ---------------------------------------------------------------------------

  /** Content shown per chunk in a response. */
  const PreviewChars: nat := 500

  /** A retrieved chunk as the response lists it. */
  datatype RetrievedChunk = RetrievedChunk(
    id: string,
    content: string,
    sourceUrl: string,
    similarityScore: real,
    metadata: Metadata)

  datatype QueryResponse = QueryResponse(
    query: string,
    answer: string,
    retrievedChunks: seq<RetrievedChunk>,
    timestamp: string,
    sources: seq<string>)

  /** Content longer than 500 characters is cut to 500 and marked with "...". */
  function Preview(content: string): (p: string)
    ensures |content| <= PreviewChars ==> p == content
    ensures |content| > PreviewChars ==> |p| == PreviewChars + 3 && p[..PreviewChars] == content[..PreviewChars]
    ensures |content| > PreviewChars ==> p[PreviewChars..] == "..."
    ensures |p| <= PreviewChars + 3
  {
    if |content| > PreviewChars then content[..PreviewChars] + "..." else content
  }

  function ChunkView(chunk: QueryResult): (v: RetrievedChunk)
    ensures v.id == chunk.id && v.sourceUrl == chunk.sourceUrl
    ensures v.similarityScore == chunk.similarityScore && v.metadata == chunk.metadata
    ensures v.content == Preview(chunk.content)
  {
    RetrievedChunk(chunk.id, Preview(chunk.content), chunk.sourceUrl, chunk.similarityScore, chunk.metadata)
  }

  function SourceUrl(chunk: QueryResult): string
  {
    chunk.sourceUrl
  }

  /** The response built from the retrieved chunks: either the grounded
      answer or the general answer with the disclaimer. A failing grounded
      answer raises. */
  function Respond(query: string, chunks: seq<QueryResult>,
                   generalCompletion: Result<string, Failure>,
                   groundedCompletion: Result<string, Failure>,
                   timestamp: string)
    : (r: Result<QueryResponse, Failure>)
    ensures r.Success? ==> r.value.query == query && r.value.timestamp == timestamp
  {
    var answer :=
      if chunks == [] then Success(GeneralAnswer(generalCompletion) + Disclaimer)
      else groundedCompletion;
    match answer
    case Failure(e) => Failure(e)
    case Success(text) =>
      Success(QueryResponse(
        query, text,
        Map(chunks, ChunkView),
        timestamp,
        Dedup(Map(chunks, SourceUrl))))
  }

  /** What a response holds: one view per retrieved chunk, in retrieval order;
      the sources are the distinct URLs of those chunks; without context the
      answer is the general answer (or the apology) followed by the
      disclaimer, and with context it is the grounded completion. */
  lemma RespondContents(query: string, chunks: seq<QueryResult>,
                        generalCompletion: Result<string, Failure>,
                        groundedCompletion: Result<string, Failure>,
                        timestamp: string)
    ensures var r := Respond(query, chunks, generalCompletion, groundedCompletion, timestamp);
      && (chunks == [] ==> r.Success? && r.value.answer == GeneralAnswer(generalCompletion) + Disclaimer)
      && (chunks == [] && generalCompletion.Failure? ==> r.value.answer == Apology + Disclaimer)
      && (chunks != [] ==> r.Success? == groundedCompletion.Success?)
      && (chunks != [] && r.Success? ==> r.value.answer == groundedCompletion.value)
      && (r.Success? ==>
            && |r.value.retrievedChunks| == |chunks|
            && (forall i :: 0 <= i < |chunks| ==> r.value.retrievedChunks[i] == ChunkView(chunks[i]))
            && NoDuplicates(r.value.sources)
            && (forall u :: u in r.value.sources <==> exists i :: 0 <= i < |chunks| && chunks[i].sourceUrl == u))
  {
    var urls := Map(chunks, SourceUrl);
    forall u ensures u in urls <==> exists i :: 0 <= i < |chunks| && chunks[i].sourceUrl == u {
      if u in urls {
        var i :| 0 <= i < |urls| && urls[i] == u;
        assert chunks[i].sourceUrl == u;
      }
      if exists i :: 0 <= i < |chunks| && chunks[i].sourceUrl == u {
        var i :| 0 <= i < |chunks| && chunks[i].sourceUrl == u;
        assert urls[i] == u;
      }
    }
  }

  /** `RAGAgent.process_query`: retrieval, then the response. A failing
      retrieval raises; without a client that is the not-initialised error. */
  function ProcessQuery(client: Option<SearchBackend>, query: string, maxResults: int, threshold: real,
                        generalCompletion: Result<string, Failure>,
                        groundedCompletion: Result<string, Failure>,
                        timestamp: string)
    : (r: Result<QueryResponse, Failure>)
    ensures client.None? ==> r == Failure(NotInitialized)
    ensures RetrieveContext(client, query, maxResults, threshold).Failure? ==>
      r == Failure(RetrieveContext(client, query, maxResults, threshold).error)
    ensures RetrieveContext(client, query, maxResults, threshold).Success? ==>
      r == Respond(query, RetrieveContext(client, query, maxResults, threshold).value,
                   generalCompletion, groundedCompletion, timestamp)
  {
    match RetrieveContext(client, query, maxResults, threshold)
    case Failure(e) => Failure(e)
    case Success(chunks) => Respond(query, chunks, generalCompletion, groundedCompletion, timestamp)
  }

  /** The general-knowledge fallback never raises: when retrieval finds no
      chunk and the completion call fails, the query is still answered, with
      the apology and the disclaimer, no chunks and no sources. */
  lemma FallbackAnswersDespiteFailure(backend: SearchBackend, query: string, maxResults: int, threshold: real,
                                      error: Failure, groundedCompletion: Result<string, Failure>,
                                      timestamp: string)
    requires RetrieveContext(Some(backend), query, maxResults, threshold) == Success([])
    ensures ProcessQuery(Some(backend), query, maxResults, threshold, Failure(error), groundedCompletion, timestamp)
      == Success(QueryResponse(query, Apology + Disclaimer, [], timestamp, []))
  {
    assert Map([], ChunkView) == [];
    assert Map([], SourceUrl) == [];
  }
}
