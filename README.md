# Ingestion script of a retrieval-augmented motorsport chatbot, in Dafny

This project models `scripts/loadDb.ts`, the script that fills the chatbot's
vector collection. It first creates the collection with 1536-dimensional vectors
and a similarity metric (dot product by default). Then it walks a fixed list of
five pages in order. For each page it renders the page in a headless browser and
strips its markup with `.replace(/<[^>]*>?/gm, '')`. It splits the text into
chunks. For each chunk in order it asks the embedding service for a vector and
inserts one `{ $vector, text }` record.

- `markup.dfy` (module `Markup`) holds the stripper, `StripTags`, as a recursive
  function. Each `<` opens a removed span. The span runs through the first
  following `>`, or to the end of the text when no `>` follows. Every other
  character is kept. The module proves the stripper's properties. It also proves
  that the stripper agrees with an independent, position-by-position definition
  of which characters lie in a span (`InTag`, `Kept`).
- `ingestion.dfy` (module `Ingestion`) models the store's collection as a class
  whose `records` field `InsertOne` appends to. `CreateCollection` and the two
  loops of `loadSampleData` are methods. Their postconditions equal the final
  records to `ExpectedRecords`, a specification function. Lemmas about
  `ExpectedRecords` state the insertion trace: one record per chunk, pages in
  list order, chunks in order within a page, the chunk as text and its
  embedding as vector.

The headless browser, the text splitter and the embedding service are not
modelled. They are the fields of a `Services` value, as total functions the
model never looks inside.

## Model

| member | source | states |
|---|---|---|
| `Markup.StripTags` | scripts/loadDb.ts:129 | the stripped text contains no `<` and is never longer than the input |
| `Markup.NoOpenBracketUnchanged` | scripts/loadDb.ts:129 | text without `<` comes back unchanged, so a stray `>` that no `<` opened is kept |
| `Markup.StripTagsIdempotent` | scripts/loadDb.ts:129 | stripping a second time changes nothing |
| `Markup.ClosedSpanRemoved` | scripts/loadDb.ts:129 | a span opened by `<` ends at the first following `>`; everything inside it, further `<` included, is removed and stripping resumes after that `>` |
| `Markup.NestedOpenExample` | scripts/loadDb.ts:129 | `a<b<c>d` strips to `ad` |
| `Markup.UnclosedTagDropsRest` | scripts/loadDb.ts:129 | a `<` with no `>` after it removes everything from it to the end, whatever text precedes it |
| `Markup.StripTagsIsSubsequence` | scripts/loadDb.ts:129 | the output is the input with characters deleted, in their original order |
| `Markup.StripTagsKeepsUntagged` | scripts/loadDb.ts:129 | the output is exactly the characters that lie in no span (no earlier `<` open without a `>` between), in order |
| `Ingestion.ScrapedTextIsPlain` | scripts/loadDb.ts:112-130 | `scrapePage` returns text without `<` that is an in-order subsequence of the rendered body |
| `Ingestion.RecordsFor` | scripts/loadDb.ts:95-108 | a page yields exactly one record per chunk |
| `Ingestion.RecordsForAt` | scripts/loadDb.ts:95-107 | the record for chunk `k` has chunk `k` as its text and, as its vector, the embedding of that chunk requested from `text-embedding-3-small` in `float` format |
| `Ingestion.ExpectedRecords` | scripts/loadDb.ts:92-109 | the number of records equals the sum of the pages' chunk counts |
| `Ingestion.ExpectedRecordsAppend` | scripts/loadDb.ts:92-109 | loading one list of pages and then another stores the first list's records, then the second's |
| `Ingestion.RecordPosition` | scripts/loadDb.ts:82-109 | chunk `k` of page `u` is stored right after all chunks of the earlier pages, at position (chunks of pages before `u`) + `k`, with the chunk as text and its embedding as vector |
| `Ingestion.RecordsHaveDimension` | scripts/loadDb.ts:68-73 | if the embedding service always returns 1536-long vectors, every stored vector matches the collection's dimension |
| `Ingestion.Collection.Create` | scripts/loadDb.ts:68-73 | a newly created collection has the given name and vector options and holds no record |
| `Ingestion.Collection.InsertOne` | scripts/loadDb.ts:104-107 | an insert appends exactly one record and changes nothing else |
| `Ingestion.CreateCollection` | scripts/loadDb.ts:63-76 | the collection is new, has dimension 1536 and the given metric (dot product when none is given), and is empty |
| `Ingestion.InsertChunks` | scripts/loadDb.ts:95-108 | the per-chunk loop appends the records of the page's chunks, in chunk order |
| `Ingestion.LoadSampleData` | scripts/loadDb.ts:90-110 | the page loop appends `ExpectedRecords` of the page list to what the collection held |
| `Ingestion.Ingest` | scripts/loadDb.ts:78 | loading starts only after creation, so the new collection (dimension 1536, dot product) holds exactly the records of `F1Data`, one per chunk, and nothing else |

## Left out

- Rendering with Puppeteer (headless launch, `domcontentloaded`, reading `document.body.innerHTML`, closing the browser) is browser I/O. It is the opaque function `render`.
- The `?.` on the scrape result (an undefined page body) is not modelled. `render` always returns a string.
- The internals of `RecursiveCharacterTextSplitter` belong to a library. `splitText` is opaque. It receives the options `chunkSize: 512, chunkOverlap: 100`, and no size, overlap or reconstruction bound is claimed for its chunks.
- The embedding call is a network request that returns floating-point numbers. `embed` is opaque and maps a request to a `seq<real>`. The script never checks the vector's length, so `RecordsHaveDimension` assumes it.
- The store's client set-up, its environment variables (namespace, collection name, endpoint, tokens) and its transport are not modelled. The collection name is a parameter.
- The handle that `db.collection(name)` returns is not modelled. `LoadSampleData` receives the created collection directly.
- `LoadSampleData` takes the page list as a parameter, and `Ingest` passes `F1Data`. The script reads that constant directly.
- The script has no error handling: a failed render, embedding or insert rejects its promise and ends the run. The model has no error paths. Skipping failed pages, aborting on embedding errors and checking an existing collection's schema are not in the script.
- `Ingestion.Collection.Create`: does not model what the store does when a collection of that name already exists. The script creates it unconditionally and only logs the reply.
- Logging of the store's replies (`console.log(res)`) is output only and is not modelled.
- The similarity-metric descriptions in the doc comment at `scripts/loadDb.ts:42-62` are the store's float arithmetic, not code of this script.
- `async`/`await` is modelled as ordinary sequential calls, because every call is awaited before the next one starts.
- `app/layout.tsx` is a static React layout with no logic and is not part of this model.
