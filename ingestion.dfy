/** The ingestion pipeline's helpers around the embedding provider and the
    vector store: batched embedding, the payload stored with each chunk, the
    collection set-up and the sitemap URL filter. */
module Ingestion {
  import opened Wrappers
  import opened Text
  import opened Seqs
  import Gateway
  import Records

  type Vector = seq<real>

  const BaseUrl: string := "https://physical-ai-book-rose.vercel.app/"

  // ---------------------------------------------------------------------------
  // Batched embedding
  // ---------------------------------------------------------------------------

  /** The provider's largest batch. */
  const EmbedBatchSize: nat := 96

  function Min(a: int, b: int): int
  {
    if a <= b then a else b
  }

  /** `[texts[i:i + 96] for i in range(0, len(texts), 96)]` */
  function Batches(texts: seq<string>): (bs: seq<seq<string>>)
    decreases |texts|
  {
    if texts == [] then []
    else if |texts| <= EmbedBatchSize then [texts]
    else [texts[..EmbedBatchSize]] + Batches(texts[EmbedBatchSize..])
  }

  /** Every batch holds between 1 and 96 texts, and the batches laid end to end
      are the input, in order. */
  lemma {:induction false} BatchesCover(texts: seq<string>)
    ensures forall k :: 0 <= k < |Batches(texts)| ==> 0 < |Batches(texts)[k]| <= EmbedBatchSize
    ensures Flatten(Batches(texts)) == texts
    ensures |Batches(texts)| == (|texts| + EmbedBatchSize - 1) / EmbedBatchSize
    decreases |texts|
  {
    if |texts| > EmbedBatchSize {
      var rest := texts[EmbedBatchSize..];
      BatchesCover(rest);
      assert Batches(texts) == [texts[..EmbedBatchSize]] + Batches(rest);
      assert Batches(texts)[1..] == Batches(rest);
      assert texts[..EmbedBatchSize] + rest == texts;
    }
  }

  /** `embeddings.extend(response.embeddings)` over the batches, stopping at the
      first call that raises. */
  function EmbedBatches(batches: seq<seq<string>>, provider: seq<string> -> Result<seq<Vector>, Failure>)
    : Result<seq<Vector>, Failure>
  {
    if batches == [] then Success([])
    else
      match provider(batches[0])
      case Failure(e) => Failure(e)
      case Success(first) =>
        match EmbedBatches(batches[1..], provider)
        case Failure(e) => Failure(e)
        case Success(rest) => Success(first + rest)
  }

  /** The batched calls fail exactly when one of the batch calls fails. */
  lemma {:induction false} EmbedBatchesFails(batches: seq<seq<string>>, provider: seq<string> -> Result<seq<Vector>, Failure>)
    ensures EmbedBatches(batches, provider).Failure? <==>
      exists k :: 0 <= k < |batches| && provider(batches[k]).Failure?
  {
    if batches != [] {
      EmbedBatchesFails(batches[1..], provider);
      if exists k :: 0 <= k < |batches| && provider(batches[k]).Failure? {
        var k :| 0 <= k < |batches| && provider(batches[k]).Failure?;
        if k > 0 {
          assert batches[1..][k - 1] == batches[k];
        }
      }
      if exists k :: 0 <= k < |batches| - 1 && provider(batches[1..][k]).Failure? {
        var k :| 0 <= k < |batches| - 1 && provider(batches[1..][k]).Failure?;
        assert provider(batches[k + 1]).Failure?;
      }
    }
  }

  /** A provider that returns one vector per text yields one vector per input
      text in all. */
  lemma {:induction false} EmbedBatchesLength(batches: seq<seq<string>>, provider: seq<string> -> Result<seq<Vector>, Failure>)
    requires forall b :: provider(b).Success? && |provider(b).value| == |b|
    ensures EmbedBatches(batches, provider).Success?
    ensures |EmbedBatches(batches, provider).value| == |Flatten(batches)|
  {
    if batches != [] {
      EmbedBatchesLength(batches[1..], provider);
    }
  }

  /** What `embed(texts)` returns: `[]` without a key or when any call raises. */
  function Embedding(texts: seq<string>, apiKey: Option<string>, provider: seq<string> -> Result<seq<Vector>, Failure>)
    : seq<Vector>
  {
    if Gateway.Falsy(apiKey) then []
    else
      match EmbedBatches(Batches(texts), provider)
      case Success(vectors) => vectors
      case Failure(_) => []
  }

  /** `embed` never raises: no key or a failing batch gives the empty list, and
      otherwise the batch results are concatenated in batch order. */
  lemma EmbeddingContract(texts: seq<string>, apiKey: Option<string>, provider: seq<string> -> Result<seq<Vector>, Failure>)
    ensures Gateway.Falsy(apiKey) ==> Embedding(texts, apiKey, provider) == []
    ensures (exists k :: 0 <= k < |Batches(texts)| && provider(Batches(texts)[k]).Failure?) ==>
      Embedding(texts, apiKey, provider) == []
    ensures !Gateway.Falsy(apiKey) && (forall b :: provider(b).Success? && |provider(b).value| == |b|) ==>
      |Embedding(texts, apiKey, provider)| == |texts|
  {
    EmbedBatchesFails(Batches(texts), provider);
    BatchesCover(texts);
    if !Gateway.Falsy(apiKey) && (forall b :: provider(b).Success? && |provider(b).value| == |b|) {
      EmbedBatchesLength(Batches(texts), provider);
    }
  }

  /** `first + rest`, unless the rest failed. */
  function Prepend(first: seq<Vector>, rest: Result<seq<Vector>, Failure>): Result<seq<Vector>, Failure>
  {
    match rest
    case Success(vs) => Success(first + vs)
    case Failure(e) => Failure(e)
  }

  lemma PrependEmpty(rest: Result<seq<Vector>, Failure>)
    ensures Prepend([], rest) == rest
  {
    if rest.Success? {
      assert [] + rest.value == rest.value;
    }
  }

  lemma PrependTwice(a: seq<Vector>, b: seq<Vector>, rest: Result<seq<Vector>, Failure>)
    ensures Prepend(a, Prepend(b, rest)) == Prepend(a + b, rest)
  {
    if rest.Success? {
      assert a + (b + rest.value) == (a + b) + rest.value;
    }
  }

  lemma BatchesFrom(texts: seq<string>, i: nat)
    requires i < |texts|
    ensures Batches(texts[i..]) ==
      [texts[i..Min(i + EmbedBatchSize, |texts|)]] + Batches(texts[Min(i + EmbedBatchSize, |texts|)..])
  {
    var j := Min(i + EmbedBatchSize, |texts|);
    if |texts[i..]| > EmbedBatchSize {
      assert texts[i..][..EmbedBatchSize] == texts[i..j];
      assert texts[i..][EmbedBatchSize..] == texts[j..];
    } else {
      assert j == |texts| && texts[i..j] == texts[i..];
      assert texts[j..] == [];
      assert Batches(texts[i..]) == [texts[i..]];
    }
  }

  /** `embed` */
  method Embed(texts: seq<string>, apiKey: Option<string>, provider: seq<string> -> Result<seq<Vector>, Failure>)
    returns (embeddings: seq<Vector>)
    ensures embeddings == Embedding(texts, apiKey, provider)
  {
    if Gateway.Falsy(apiKey) {
      return [];
    }
    embeddings := [];
    var i := 0;
    assert texts[i..] == texts;
    PrependEmpty(EmbedBatches(Batches(texts), provider));
    while i < |texts|
      invariant i <= |texts|
      invariant EmbedBatches(Batches(texts), provider) == Prepend(embeddings, EmbedBatches(Batches(texts[i..]), provider))
      decreases |texts| - i
    {
      var j := Min(i + EmbedBatchSize, |texts|);
      var batch := texts[i..j];
      BatchesFrom(texts, i);
      var bs := Batches(texts[i..]);
      assert bs[0] == batch && bs[1..] == Batches(texts[j..]);
      var response := provider(batch);
      if response.Failure? {
        // any error: log and return nothing
        return [];
      }
      PrependTwice(embeddings, response.value, EmbedBatches(Batches(texts[j..]), provider));
      embeddings := embeddings + response.value;
      i := j;
    }
    assert texts[i..] == [];
  }

  // ---------------------------------------------------------------------------
  // The stored payload
  // ---------------------------------------------------------------------------

  /** The payload size limit for content, in characters. */
  const MaxPayloadChars: nat := 10000

  /** A chunk with its metadata and, once computed, its embedding. */
  datatype DocumentSegment = DocumentSegment(
    id: string,
    content: string,
    sourceUrl: string,
    metadata: map<string, string>,
    embedding: Option<Vector>)

  /** The payload saved with a point: the string fields and `content_length`. */
  datatype StoredPayload = StoredPayload(fields: map<string, string>, contentLength: nat)

  /** The payload built by `save_chunk_to_qdrant`. */
  function PayloadOf(segment: DocumentSegment): (p: StoredPayload)
    ensures p.fields.Keys == {"content", "source_url", "title", "created_at"}
    ensures |p.fields["content"]| <= MaxPayloadChars && |p.fields["content"]| <= |segment.content|
    ensures p.fields["content"] == segment.content[..|p.fields["content"]|]
    ensures |segment.content| <= MaxPayloadChars ==> p.fields["content"] == segment.content
    ensures |segment.content| > MaxPayloadChars ==> |p.fields["content"]| == MaxPayloadChars
    ensures p.contentLength == |segment.content|
    ensures p.fields["source_url"] == segment.sourceUrl
    ensures p.fields["title"] == Gateway.PayloadGet(segment.metadata, "title")
    ensures p.fields["created_at"] == Gateway.PayloadGet(segment.metadata, "created_at")
  {
    StoredPayload(
      map["content" := Take(segment.content, MaxPayloadChars),
          "source_url" := segment.sourceUrl,
          "title" := Gateway.PayloadGet(segment.metadata, "title"),
          "created_at" := Gateway.PayloadGet(segment.metadata, "created_at")],
      |segment.content|)
  }

  /** The point upserted for a segment; a segment without an embedding cannot
      be built into a point, and the failure is swallowed. */
  function PointOf(segment: DocumentSegment): (p: Option<(string, Vector, StoredPayload)>)
    ensures p.Some? <==> segment.embedding.Some?
    ensures p.Some? ==> p.value == (segment.id, segment.embedding.value, PayloadOf(segment))
  {
    match segment.embedding
    case None => None
    case Some(v) => Some((segment.id, v, PayloadOf(segment)))
  }

  /** Storing a segment and finding it again: a stored point whose content
      passes the search filters comes back as a result holding the truncated
      content, the source URL, the stored title and date and the score. */
  lemma StoredSegmentIsFound(segment: DocumentSegment, score: real)
    requires Gateway.HasEnoughContent(Take(segment.content, MaxPayloadChars))
    requires Records.IsHttpUrl(segment.sourceUrl) && 0.0 <= score <= 1.0
    ensures var point := Gateway.ScoredPoint(segment.id, score, PayloadOf(segment).fields);
      Gateway.ResultOf(point) == Some(Records.QueryResult(
        segment.id, Take(segment.content, MaxPayloadChars), segment.sourceUrl,
        map["title" := Gateway.PayloadGet(segment.metadata, "title"),
            "created_at" := Gateway.PayloadGet(segment.metadata, "created_at")],
        score))
  {
    var fields := PayloadOf(segment).fields;
    assert Gateway.PayloadGet(fields, "content") == Take(segment.content, MaxPayloadChars);
    assert Gateway.PayloadGet(fields, "source_url") == segment.sourceUrl;
    assert Gateway.PayloadGet(fields, "title") == Gateway.PayloadGet(segment.metadata, "title");
    assert Gateway.PayloadGet(fields, "created_at") == Gateway.PayloadGet(segment.metadata, "created_at");
  }

  // ---------------------------------------------------------------------------
  // The collection
  // ---------------------------------------------------------------------------

  /** The embedding model's vector size. */
  const EmbeddingDimension: nat := 1024

  datatype Distance = Cosine
  datatype VectorParams = VectorParams(size: nat, distance: Distance)

  datatype CollectionOutcome = AlreadyExists | Created | Failed(error: Failure)

  /** `create_collection` against a store holding `collections`; `listing` and
      `creation` are how the two store calls answer (None when they succeed).
      Every failure is swallowed: the store is left as it was. */
  function CreateCollection(collections: map<string, VectorParams>, name: string,
                            listing: Option<Failure>, creation: Option<Failure>)
    : (r: (map<string, VectorParams>, CollectionOutcome))
    ensures r.1.Created? <==> listing.None? && name !in collections && creation.None?
    ensures r.1.AlreadyExists? <==> listing.None? && name in collections
    ensures r.1.Created? ==> r.0 == collections[name := VectorParams(EmbeddingDimension, Cosine)]
    ensures !r.1.Created? ==> r.0 == collections
    ensures forall other :: other in collections ==> other in r.0 && r.0[other] == collections[other]
  {
    if listing.Some? then (collections, Failed(listing.value))
    else if name in collections then (collections, AlreadyExists)
    else if creation.Some? then (collections, Failed(creation.value))
    else (collections[name := VectorParams(EmbeddingDimension, Cosine)], Created)
  }

  /** Creating the collection twice is the same as creating it once, and the
      second call reports that it already exists. */
  lemma CreateCollectionIdempotent(collections: map<string, VectorParams>, name: string)
    ensures var (once, _) := CreateCollection(collections, name, None, None);
      var (twice, second) := CreateCollection(once, name, None, None);
      twice == once && second == AlreadyExists && name in once
  {
  }

  // ---------------------------------------------------------------------------
  // Sitemap filter
  // ---------------------------------------------------------------------------

  /** The URL kept from one `<loc>` entry (None when the entry is missing or
      points outside the site). */
  function SiteUrl(loc: Option<string>): (u: Option<string>)
    ensures u.Some? ==> loc.Some? && u.value == Strip(loc.value) && StartsWith(u.value, BaseUrl)
    ensures loc.Some? && StartsWith(Strip(loc.value), BaseUrl) ==> u.Some?
  {
    if loc.None? then None
    else
      var url := Strip(loc.value);
      if StartsWith(url, BaseUrl) then Some(url) else None
  }

  /** What one `<loc>` entry adds to the list: its URL, or nothing. */
  function KeptUrl(loc: Option<string>): (kept: seq<string>)
    ensures |kept| <= 1
  {
    match SiteUrl(loc) case Some(u) => [u] case None => []
  }

  /** The URLs the sitemap yields, in document order. */
  function SiteUrls(locs: seq<Option<string>>): (urls: seq<string>)
    ensures |urls| <= |locs|
  {
    FlatMapAtMostOne(locs, KeptUrl);
    FlatMap(locs, KeptUrl)
  }

  lemma SiteUrlsAppend(a: seq<Option<string>>, b: seq<Option<string>>)
    ensures SiteUrls(a + b) == SiteUrls(a) + SiteUrls(b)
  {
    FlatMapAppend(a, b, KeptUrl);
  }

  /** Every URL kept lies on the site and carries no surrounding whitespace. */
  lemma {:induction false} SiteUrlsOnSite(locs: seq<Option<string>>)
    ensures forall i :: 0 <= i < |SiteUrls(locs)| ==>
      StartsWith(SiteUrls(locs)[i], BaseUrl) && SiteUrls(locs)[i] == Strip(SiteUrls(locs)[i])
  {
    if locs != [] {
      SiteUrlsOnSite(locs[1..]);
      assert SiteUrls(locs) == KeptUrl(locs[0]) + SiteUrls(locs[1..]);
      if SiteUrl(locs[0]).Some? {
        StripIdempotent(locs[0].value);
      }
    }
  }

  /** The loop over the sitemap's `<url>` entries. */
  method FilterSitemapUrls(locs: seq<Option<string>>) returns (urls: seq<string>)
    ensures urls == SiteUrls(locs)
  {
    urls := [];
    var i := 0;
    while i < |locs|
      invariant i <= |locs|
      invariant urls == SiteUrls(locs[..i])
    {
      SiteUrlsAppend(locs[..i], [locs[i]]);
      assert locs[..i + 1] == locs[..i] + [locs[i]];
      assert SiteUrls([locs[i]]) == KeptUrl(locs[i]) by {
        assert [locs[i]][1..] == [];
      }
      if locs[i].Some? {
        var url := Strip(locs[i].value);
        if StartsWith(url, BaseUrl) {
          assert KeptUrl(locs[i]) == [url];
          urls := urls + [url];
        } else {
          assert KeptUrl(locs[i]) == [];
        }
      } else {
        assert KeptUrl(locs[i]) == [];
      }
      i := i + 1;
    }
    assert locs[..i] == locs;
  }
}
