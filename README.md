# Custom RAG Chatbot — a Dafny model of its pipeline logic

The chatbot is a small FastAPI service. `POST /process_url/` reads a web page,
joins the texts of its paragraphs, cuts the result into chunks, embeds every
chunk, and upserts one point per chunk into the Qdrant collection `chatbot2`.
A point holds a fresh id, the chunk's vector and the payload `{text: chunk}`.
`POST /ask_question/` embeds the question and searches the collection for its
nearest neighbour (`limit=1`). It then builds a fixed prompt from the
retrieved text and the question, and returns the chat model's reply. Any
failure on the way becomes an HTTP 500 that carries the failure's text.

The model keeps the code the repository writes itself. Every library call is
an input:

- the embedding model is a function `string -> Result<Vector>`;
- the chat model is a function `string -> Result<string>`;
- the text splitter is a function of its settings and the text;
- the fetched page is a status code and its paragraph texts, or a failure;
- whether the vector store answers is a boolean;
- the store's cosine ranking is a sequence of point ids in similarity order;
- `uuid4()` is replaced by an id source that counts upwards and never repeats.

Modules:

- `Results` holds the `Result`, `Outcome` and `Option` datatypes.
- `Prompt` holds the prompt template, as a function and as the handler's
  `+=` loop. The loop is proved equal to the function.
- `Scrape` holds the result shaping of `read_data`: a newline join of the
  paragraph texts, or `""` for a status other than 200.
- `Points` holds the `get_embedding` loop over an `IdSource` class, and its
  specification `EmbedAll`.
- `Store` holds the collection as a class over a map from id to vector and
  payload. It has a blocking batch `Upsert` and a `Search` that returns at
  most `limit` texts.
- `Pipeline` holds the two handlers, `process_url` and
  `create_answer_with_context`/`ask_question`, and the lemmas about
  ingestion.

Two behaviours of the program worth noting:

- A page that did not come back with status 200, such as a 404, reads as
  the empty text, and so does a page with no paragraphs. This is not an
  error. When the splitter gives no chunks for the empty text and the store
  answers, `ProcessUrl` answers success and writes no points
  (`EmptyPageWritesNothing`). The splitter's result for the empty text is
  an input of the model, and an unreachable store still fails the empty
  upsert.
- Ingesting a page twice is not idempotent. `ReingestDuplicates` proves
  that the second run stores a second copy of every chunk under new ids.

## Model

| member | source | states |
|---|---|---|
| `Prompt.AssemblePrompt` | main.py:105-108 | The prompt starts with `"Context:\n"` and ends with `"Question:" + q + "\n---\nAnswer:"`. Its length is 30 plus the question plus each text and its rule. With no results it is exactly `"Context:\nQuestion:" + q + "\n---\nAnswer:"`. With one text `t` it is exactly `"Context:\n" + t + "\n---\nQuestion:" + q + "\n---\nAnswer:"`. |
| `Prompt.ContextInOrder` | main.py:105-108 | The i-th retrieved text sits right after the header and the blocks of the texts before it. It is followed by `"\n---\n"`, and it lies before the question line. So the texts appear in result order. |
| `Prompt.ContextRoundTrip` | main.py:105-108 | For one retrieved text, the part between `"Context:\n"` and `"\n---\nQuestion:" + q + "\n---\nAnswer:"` is exactly that text. For zero results the prompt has no context block of that shape. |
| `Prompt.BuildPrompt` | main.py:105-108 | The `prompt +=` loop over the results builds exactly `AssemblePrompt(texts, q)`. |
| `Scrape.Join` | main.py:56 | A newline join of no parts is `""`. A join of one or more parts starts with the first part and ends with the last. Its length is the parts' total plus one separator between each pair of neighbours, so there is no trailing separator. |
| `Scrape.JoinPartAt` | main.py:56 | Every part, whatever it contains, stands in the join at its offset: the lengths of the parts before it, each plus the separator. |
| `Scrape.JoinSepAfter` | main.py:56 | Every part but the last is followed in the join by exactly the separator. |
| `Scrape.JoinSplit` | main.py:56 | For one or more paragraphs, none of which contains the separator, cutting the joined text at the separator gives the paragraphs back. |
| `Scrape.ReadData` | main.py:51-59 | A status other than 200 gives `""`. Status 200 with no paragraphs gives `""`. Otherwise the result is the newline join of the paragraph texts: its length, its first and last part, and, when no paragraph contains a line break, its round trip through splitting. |
| `Scrape.ReadDataParagraphAt` | main.py:53-57 | With status 200, paragraph i stands in the text at its offset, and one newline follows every paragraph but the last. This holds also for paragraphs that contain line breaks. |
| `Points.IdSource.Fresh` | main.py:79 | The id returned was not issued before and is issued afterwards. The counter moves by one. |
| `Points.EmbedAllSucceeds` | main.py:72-83 | A batch succeeds exactly when every chunk embeds. On success it holds the number of chunks points in chunk order. Point i has the vector `Embed(chunks[i])`, the payload text `chunks[i]` and the id `first + i`. The ids are pairwise distinct. |
| `Points.EmbedAllFails` | main.py:72-83 | A failed batch carries the error of the first chunk whose embedding failed. Every chunk before that one embedded successfully. |
| `Points.FailureSticks` | main.py:72-83 | Once a prefix of the chunks fails, the whole batch fails with the same error. No later chunk changes the outcome. |
| `Points.EmbedAllIds` | main.py:79-81 | A successful batch has one point per chunk. Point i has the id `first + i` and the payload text `chunks[i]`. |
| `Points.EmbedAllAnyStart` | main.py:74-81 | Whether a batch succeeds depends only on the embeddings, not on the ids it is given. This is a corollary of `EmbedAllSucceeds`, whose success condition does not mention the first id. |
| `Points.GetEmbedding` | main.py:71-83 | The loop returns `EmbedAll(chunks, embed, first)` and uses one fresh id per embedded chunk. On success it advances the id source by exactly the number of chunks. |
| `Store.UpsertKeys` | main.py:85-90 | After an upsert, the ids in the collection are the old ids plus the batch's ids. |
| `Store.UpsertUntouched` | main.py:85-90 | A record whose id the batch does not use keeps its old value. |
| `Store.UpsertStores` | main.py:85-90 | If the batch's ids are distinct, every point of the batch is stored as given. |
| `Store.UpsertGrows` | main.py:85-90 | If the batch's ids are distinct and new to the collection, it grows by exactly the batch's length. |
| `Store.UpsertFresh` | main.py:85-90 | A batch of distinct new ids adds exactly its points. The collection grows by one record per point and leaves every earlier record as it was. |
| `Store.UpsertNumbered` | main.py:79-90 | A batch numbered from `first` on, upserted into a collection whose ids are all below `first`, adds exactly its points. No record outside the old ids and the range from `first` up to the batch length past it appears. |
| `Store.UpsertKeeps` | main.py:28-31 | An upsert never drops an id. If the batch's vectors have the collection's size, every record still has a vector of that size (1536). |
| `Store.TopTexts` | main.py:99-103 | A search returns at most `limit` texts. An empty collection returns none. Every text returned is the payload of a stored point. |
| `Store.VectorStore.constructor` | main.py:28-31 | Recreating the collection leaves it empty, with the given vector size. |
| `Store.VectorStore.Upsert` | main.py:85-90 | The blocking upsert succeeds exactly when the store answers and every vector has the collection's size. On success the records become the batch written over the old ones. On failure nothing changes, and the error names the cause: the store is unreachable or a vector has the wrong size. |
| `Store.VectorStore.Search` | main.py:99-103 | The search succeeds exactly when the store answers and the query has the collection's size. It then returns the top `limit` stored texts in ranking order. On failure the error names the cause. |
| `Store.RecreateCollection` | main.py:28-31 | At start-up the collection is recreated empty, for vectors of size 1536. |
| `Pipeline.IngestAddsExactly` | main.py:123-132 | A successful ingestion grows the collection by exactly one record per chunk. Each new record holds its chunk's embedding and text under a new id. Earlier records are unchanged. Zero chunks leave the collection as it was. |
| `Pipeline.ReingestDuplicates` | main.py:79-90 | Ingesting the same chunks again with the next ids grows the collection by twice the number of chunks in all. Every chunk is stored twice, under two different ids. |
| `Pipeline.ProcessUrl` | main.py:123-132 | The handler answers success exactly when the fetch, every embedding and the single upsert succeed. Every chunk is embedded before the upsert. Success writes exactly the produced points. Any failure answers 500 and leaves the collection unchanged. The 500 carries the failure's text: the fetch error, the first failing embedding's error, or the store's error. A page with no chunks and a store that answers gives success with the collection unchanged. The collection's size invariant and the id source's freshness are preserved. On success the id source has advanced by exactly the number of chunks, so a second ingestion draws its ids from there on. |
| `Pipeline.EmptyPageWritesNothing` | main.py:51-59 | A page with a status other than 200, or with no paragraphs, reads as `""`. When the splitter gives no chunks for `""`, the page yields no chunks, an empty batch that succeeds, and an upsert that leaves the collection as it was. |
| `Pipeline.AtMostOneContext` | main.py:99-108 | With `limit=1` the prompt is either the bare template or has exactly one context block, and that block is the text of a stored point. An empty collection gives the bare template. |
| `Pipeline.CreateAnswerWithContext` | main.py:92-117 | The answer is the chat model's reply to the prompt built from the top result. It is given exactly when embedding, search and completion all succeed. Each failure returns its own error: the question embedding's, the store's (unreachable or wrong size) or the completion's. |
| `Pipeline.AskQuestion` | main.py:134-140 | The handler answers with the reply exactly when embedding, search and completion succeed. Otherwise it answers 500, and the detail is the failing step's error text. |

## Left out

- The text splitter (main.py:61-69). Its settings are recorded as
  `Pipeline.Splitter` (`"\n"`, 1500, 400). How the library splits text with
  them is not visible, so the splitter is a parameter and no window, overlap
  or reconstruction property is stated.
- The embedding and chat-completion services (main.py:74-78, 93-97,
  110-117). They are function parameters that may fail. The model name
  argument is not modelled.
- Store.VectorStore.Upsert: the store's batch upsert (main.py:85-90) is
  assumed atomic, so a failed call writes nothing. The client does not
  promise this: an upsert whose call raises, for example on a time-out,
  may already have been applied. `ProcessUrl`'s "a failure leaves the
  collection unchanged" rests on the same assumption for the upsert step.
- The Qdrant client connection (main.py:23-26). The store's availability is a
  boolean per call. The store's own error messages are replaced by two
  fixed texts, one for an unreachable store and one for a wrong vector size.
- Cosine nearest-neighbour ranking (main.py:99-103). It is floating point
  inside the store, so the ranking is an input sequence of ids.
- Page fetching and HTML parsing with `requests` and BeautifulSoup
  (main.py:52-55). The fetch result is an input: a failure, or a status code
  with paragraph texts.
- `uuid4()` randomness (main.py:79). Ids come from a counter that never
  repeats, so collisions between random UUIDs are not modelled.
- Vectors are sequences of `real`, not 32-bit floats.
- The FastAPI app, the CORS middleware, the pydantic request models, the
  timestamp greeting and the uvicorn start-up (main.py:33-49, 119-121,
  142-144). They are framework plumbing.
- Concurrent requests. Every handler runs alone from start to finish.
