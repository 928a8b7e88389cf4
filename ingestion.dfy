/**
  The ingestion script: create the vector collection, then walk the fixed
  list of source pages in order; for each page render it, strip its markup
  and split it into chunks, and for each chunk compute its embedding and
  insert one `{ $vector, text }` record into the collection.

  The headless browser, the text splitter and the embedding service are
  external; they are the fields of `Services`, total functions the model
  never looks inside. Execution is sequential: every `await` is modelled as
  an ordinary call.
 */
module Ingestion {
  import opened Markup

  // ---------------------------------------------------------------------
  // Configuration

  /** The similarity metrics the store accepts for a collection. */
  datatype SimilarityMetric = DotProduct | Cosine | Euclidean

  /** The metric `createCollection` uses when none is given. */
  const DefaultMetric: SimilarityMetric := DotProduct

  /** Length of the embedding model's vectors, fixed at collection creation. */
  const Dimension: nat := 1536

  /** The `vector` options a collection is created with. */
  datatype VectorOptions = VectorOptions(dimension: nat, metric: SimilarityMetric)

  /** Options of the recursive character splitter. */
  datatype SplitterOptions = SplitterOptions(chunkSize: nat, chunkOverlap: nat)

  const Splitter: SplitterOptions := SplitterOptions(512, 100)

  /** One request to the embedding service. */
  datatype EmbeddingRequest = EmbeddingRequest(model: string, input: string, encodingFormat: string)

  const EmbeddingModel: string := "text-embedding-3-small"

  /** The request the script sends for one chunk. */
  function EmbeddingRequestFor(chunk: string): EmbeddingRequest
  {
    EmbeddingRequest(EmbeddingModel, chunk, "float")
  }

  /** The fixed list of source pages, in the order they are loaded. */
  const F1Data: seq<string> := [
    "https://en.wikipedia.org/wiki/Formula_One",
    "https://www.formula1.com/en/latest/all",
    "https://en.wikipedia.org/wiki/2023_Formula_One_World_Championship",
    "https://en.wikipedia.org/wiki/2022_Formula_One_World_Championship",
    "https://en.wikipedia.org/wiki/2024_Formula_One_World_Championship"
  ]

  // ---------------------------------------------------------------------
  // Data

  /** An embedding; the service's floating-point numbers, never inspected. */
  type Vector = seq<real>

  /** One stored document: `{ $vector: vector, text: text }`. */
  datatype Record = Record(vector: Vector, text: string)

  /** The external collaborators. */
  datatype Services = Services(
    render: string -> string,                          // body HTML of the rendered page at a URL
    splitText: (SplitterOptions, string) -> seq<string>, // the configured splitter
    embed: EmbeddingRequest -> Vector                  // first embedding of the service's reply
  )

  // ---------------------------------------------------------------------
  // Specification of the load

  /** `scrapePage`: the rendered body with its markup stripped. */
  function ScrapePage(svc: Services, url: string): (text: string)
  {
    StripTags(svc.render(url))
  }

  /** The scraped text holds no `<` and is what is left of the rendered body
      after deleting characters, in order. */
  lemma ScrapedTextIsPlain(svc: Services, url: string)
    ensures '<' !in ScrapePage(svc, url)
    ensures IsSubsequence(ScrapePage(svc, url), svc.render(url))
  {
    StripTagsIsSubsequence(svc.render(url));
  }

  /** The chunks the page at `url` is split into. */
  function ChunksOf(svc: Services, url: string): seq<string>
  {
    svc.splitText(Splitter, ScrapePage(svc, url))
  }

  /** The records inserted for `chunks`, one per chunk, in chunk order. */
  function RecordsFor(svc: Services, chunks: seq<string>): (rs: seq<Record>)
    ensures |rs| == |chunks|
  {
    if chunks == [] then []
    else
      var last := chunks[|chunks| - 1];
      RecordsFor(svc, chunks[..|chunks| - 1]) + [Record(svc.embed(EmbeddingRequestFor(last)), last)]
  }

  /** The record for chunk `k` holds that chunk as its text and the chunk's
      embedding as its vector. */
  lemma {:induction false} RecordsForAt(svc: Services, chunks: seq<string>, k: nat)
    requires k < |chunks|
    ensures RecordsFor(svc, chunks)[k] == Record(svc.embed(EmbeddingRequestFor(chunks[k])), chunks[k])
    decreases |chunks|
  {
    var init := chunks[..|chunks| - 1];
    if k < |init| {
      RecordsForAt(svc, init, k);
    }
  }

  /** Number of chunks the pages at `urls` yield together. */
  function TotalChunks(svc: Services, urls: seq<string>): nat
  {
    if urls == [] then 0
    else TotalChunks(svc, urls[..|urls| - 1]) + |ChunksOf(svc, urls[|urls| - 1])|
  }

  /** All records inserted for `urls`: page by page in list order, and within
      a page chunk by chunk. */
  function ExpectedRecords(svc: Services, urls: seq<string>): (rs: seq<Record>)
    ensures |rs| == TotalChunks(svc, urls)
  {
    if urls == [] then []
    else ExpectedRecords(svc, urls[..|urls| - 1]) + RecordsFor(svc, ChunksOf(svc, urls[|urls| - 1]))
  }

  /** Extending the chunks handled by one appends that chunk's record. */
  lemma RecordsForStep(svc: Services, chunks: seq<string>, k: nat)
    requires k < |chunks|
    ensures RecordsFor(svc, chunks[..k + 1])
         == RecordsFor(svc, chunks[..k]) + [Record(svc.embed(EmbeddingRequestFor(chunks[k])), chunks[k])]
  {
    assert chunks[..k + 1][..k] == chunks[..k];
  }

  /** Extending the pages handled by one appends that page's records. */
  lemma ExpectedRecordsStep(svc: Services, urls: seq<string>, i: nat)
    requires i < |urls|
    ensures ExpectedRecords(svc, urls[..i + 1])
         == ExpectedRecords(svc, urls[..i]) + RecordsFor(svc, ChunksOf(svc, urls[i]))
  {
    assert urls[..i + 1][..i] == urls[..i];
  }

  /** Loading two lists one after the other inserts the records of both, in
      that order. */
  lemma {:induction false} ExpectedRecordsAppend(svc: Services, a: seq<string>, b: seq<string>)
    ensures ExpectedRecords(svc, a + b) == ExpectedRecords(svc, a) + ExpectedRecords(svc, b)
    ensures TotalChunks(svc, a + b) == TotalChunks(svc, a) + TotalChunks(svc, b)
    decreases |b|
  {
    if b != [] {
      var b' := b[..|b| - 1];
      assert (a + b)[..|a + b| - 1] == a + b';
      assert (a + b)[|a + b| - 1] == b[|b| - 1];
      ExpectedRecordsAppend(svc, a, b');
    } else {
      assert a + b == a;
    }
  }

  /** Chunk `k` of page `u` is stored at position `TotalChunks(urls[..u]) + k`,
      right after every chunk of the earlier pages, with the chunk as its text
      and the chunk's embedding as its vector. */
  lemma {:induction false} RecordPosition(svc: Services, urls: seq<string>, u: nat, k: nat)
    requires u < |urls| && k < |ChunksOf(svc, urls[u])|
    ensures TotalChunks(svc, urls[..u]) + k < |ExpectedRecords(svc, urls)|
    ensures ExpectedRecords(svc, urls)[TotalChunks(svc, urls[..u]) + k]
         == Record(svc.embed(EmbeddingRequestFor(ChunksOf(svc, urls[u])[k])), ChunksOf(svc, urls[u])[k])
    decreases |urls|
  {
    var init := urls[..|urls| - 1];
    if u == |urls| - 1 {
      assert urls[..u] == init;
      RecordsForAt(svc, ChunksOf(svc, urls[u]), k);
    } else {
      assert init[..u] == urls[..u] && init[u] == urls[u];
      RecordPosition(svc, init, u, k);
    }
  }

  /** The store expects every vector to have the collection's dimension. The
      script never checks this; it holds whenever the embedding service keeps
      its promise of `Dimension`-long vectors. */
  lemma {:induction false} RecordsHaveDimension(svc: Services, urls: seq<string>)
    requires forall req :: |svc.embed(req)| == Dimension
    ensures forall r :: r in ExpectedRecords(svc, urls) ==> |r.vector| == Dimension
    decreases |urls|
  {
    if urls != [] {
      var init := urls[..|urls| - 1];
      var chunks := ChunksOf(svc, urls[|urls| - 1]);
      RecordsHaveDimension(svc, init);
      forall k | 0 <= k < |chunks|
        ensures |RecordsFor(svc, chunks)[k].vector| == Dimension
      {
        RecordsForAt(svc, chunks, k);
      }
    }
  }

  // ---------------------------------------------------------------------
  // The store

  /** A vector collection: its options, fixed at creation, and the records
      inserted so far, in insertion order. */
  class Collection {
    const name: string
    const options: VectorOptions
    var records: seq<Record>

    /** The store's `createCollection`: a new collection holds no record. */
    constructor Create(name: string, options: VectorOptions)
      ensures this.name == name && this.options == options
      ensures records == []
    {
      this.name := name;
      this.options := options;
      records := [];
    }

    /** `insertOne`: appends one record and changes nothing else. */
    method InsertOne(doc: Record)
      modifies this
      ensures records == old(records) + [doc]
    {
      records := records + [doc];
    }
  }

  // ---------------------------------------------------------------------
  // The script

  /** `createCollection`: vectors of the embedding model's dimension, the
      given metric, dot product when none is given. */
  method CreateCollection(name: string, metric: SimilarityMetric := DefaultMetric) returns (c: Collection)
    ensures fresh(c)
    ensures c.name == name && c.options == VectorOptions(Dimension, metric)
    ensures c.records == []
  {
    c := new Collection.Create(name, VectorOptions(Dimension, metric));
  }

  /** `loadSampleData`: for each page of `urls` in order (the script passes
      `F1Data`), scrape the page, split it, and insert its chunks. */
  method LoadSampleData(collection: Collection, svc: Services, urls: seq<string>)
    modifies collection
    ensures collection.records == old(collection.records) + ExpectedRecords(svc, urls)
  {
    for i := 0 to |urls|
      invariant collection.records == old(collection.records) + ExpectedRecords(svc, urls[..i])
    {
      var url := urls[i];
      var content := ScrapePage(svc, url);
      var chunks := svc.splitText(Splitter, content);
      InsertChunks(collection, svc, chunks);
      ExpectedRecordsStep(svc, urls, i);
    }
    assert urls[..|urls|] == urls;
  }

  /** The inner loop of `loadSampleData`: for each chunk in order, request
      its embedding and insert it with that vector. */
  method InsertChunks(collection: Collection, svc: Services, chunks: seq<string>)
    modifies collection
    ensures collection.records == old(collection.records) + RecordsFor(svc, chunks)
  {
    for k := 0 to |chunks|
      invariant collection.records == old(collection.records) + RecordsFor(svc, chunks[..k])
    {
      var chunk := chunks[k];
      var vector := svc.embed(EmbeddingRequest(EmbeddingModel, chunk, "float"));
      collection.InsertOne(Record(vector, chunk));
      RecordsForStep(svc, chunks, k);
    }
    assert chunks[..|chunks|] == chunks;
  }

  /** The script's top level, `createCollection().then(() => loadSampleData())`:
      loading starts only once the collection exists, so the collection holds
      exactly the records of the load, one per chunk, and nothing before them. */
  method Ingest(name: string, svc: Services) returns (collection: Collection)
    ensures fresh(collection)
    ensures collection.name == name && collection.options == VectorOptions(1536, DotProduct)
    ensures collection.records == ExpectedRecords(svc, F1Data)
    ensures |collection.records| == TotalChunks(svc, F1Data)
  {
    collection := CreateCollection(name);
    LoadSampleData(collection, svc, F1Data);
  }
}
