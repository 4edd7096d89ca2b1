/** The two request handlers: ingesting a page (read, chunk, embed every
    chunk, one upsert) and answering a question (embed, search for one
    neighbour, build the prompt, ask the chat model). Every failure on the
    way becomes an HTTP 500 carrying the failure's text. */
module Pipeline {
  import opened Results
  import opened Points
  import opened Store
  import opened Scrape
  import opened Prompt

  /** The text splitter's settings. How the library splits with them is not
      visible, so the splitter itself is a parameter of the handlers. */
  datatype SplitterConfig = SplitterConfig(separator: string, chunkSize: nat, chunkOverlap: nat)

  const Splitter: SplitterConfig := SplitterConfig("\n", 1500, 400)

  /** The number of neighbours the question handler asks the store for. */
  const SearchLimit: nat := 1

  const Processed: string := "Data processed and inserted successfully."

  const ServerError: int := 500

  /** What fetching a URL gives: the status and the texts of its paragraphs. */
  datatype Page = Page(status: int, paragraphs: seq<string>)

  datatype Response = Ok(body: string) | HttpError(status: int, detail: string)

  /** The chunks the ingestion handler embeds for a fetched page. */
  function PageChunks(page: Page, split: (SplitterConfig, string) -> seq<string>): seq<string>
  {
    split(Splitter, ReadData(page.status, page.paragraphs))
  }

  /** Every id in the collection has already been handed out, so the ids
      still to come are new to it. */
  ghost predicate IdsAhead(store: VectorStore, ids: IdSource)
    reads store, ids
  {
    forall k :: k in store.records ==> k < ids.next
  }

  /** The collection after a successful ingestion of the chunks with ids
      from first on. */
  function Ingested(records: map<PointId, Entry>, chunks: seq<string>,
                    embed: string -> Result<Vector>, first: PointId): map<PointId, Entry>
    requires EmbedAll(chunks, embed, first).Success?
  {
    UpsertAll(records, EmbedAll(chunks, embed, first).value)
  }

  /** A successful ingestion adds exactly the produced points: one new
      record per chunk holding that chunk's text and embedding, the records
      already there unchanged, and nothing at all for zero chunks. */
  lemma {:induction false} IngestAddsExactly(records: map<PointId, Entry>, chunks: seq<string>,
                          embed: string -> Result<Vector>, first: PointId)
    requires forall k :: k in records ==> k < first
    requires EmbedAll(chunks, embed, first).Success?
    ensures |Ingested(records, chunks, embed, first)| == |records| + |chunks|
    ensures forall k :: k in records ==>
              k in Ingested(records, chunks, embed, first) &&
              Ingested(records, chunks, embed, first)[k] == records[k]
    ensures var ps := EmbedAll(chunks, embed, first).value;
            |ps| == |chunks| &&
            forall i :: 0 <= i < |ps| ==>
              ps[i].id == first + i && ps[i].id !in records && embed(chunks[i]).Success? &&
              ps[i].id in Ingested(records, chunks, embed, first) &&
              Ingested(records, chunks, embed, first)[ps[i].id] == Entry(embed(chunks[i]).value, Payload(chunks[i]))
    ensures forall k :: k in Ingested(records, chunks, embed, first) ==> k in records || first <= k < first + |chunks|
    ensures chunks == [] ==> Ingested(records, chunks, embed, first) == records
  {
    var ps := EmbedAll(chunks, embed, first).value;
    EmbedAllSucceeds(chunks, embed, first);
    UpsertNumbered(records, ps, first);
  }

  /** Ingesting the same chunks twice is not idempotent: the second run,
      drawing the next ids, stores a second copy of every chunk under an id
      of its own, so the collection grows by twice the number of chunks. */
  lemma {:induction false} ReingestDuplicates(records: map<PointId, Entry>, chunks: seq<string>,
                           embed: string -> Result<Vector>, first: PointId,
                           ps: seq<Point>, qs: seq<Point>)
    requires forall k :: k in records ==> k < first
    requires EmbedAll(chunks, embed, first) == Success(ps)
    requires EmbedAll(chunks, embed, first + |chunks|) == Success(qs)
    ensures |UpsertAll(UpsertAll(records, ps), qs)| == |records| + 2 * |chunks|
    ensures |ps| == |qs| == |chunks|
    ensures forall i :: 0 <= i < |chunks| ==>
              var twice := UpsertAll(UpsertAll(records, ps), qs);
              ps[i].id != qs[i].id &&
              ps[i].id in twice && twice[ps[i].id].payload.text == chunks[i] &&
              qs[i].id in twice && twice[qs[i].id].payload.text == chunks[i]
  {
    var second := first + |chunks|;
    EmbedAllIds(chunks, embed, first);
    EmbedAllIds(chunks, embed, second);
    var once := UpsertAll(records, ps);
    UpsertNumbered(records, ps, first);
    assert forall k :: k in once ==> k < second;
    var twice := UpsertAll(once, qs);
    UpsertNumbered(once, qs, second);
    SecondCopy(records, once, twice, chunks, ps, qs, first);
  }

  /** The bookkeeping behind ReingestDuplicates, on plain collections: two
      batches for the same chunks with ids from first and from
      first + |chunks|, added one after the other. */
  lemma SecondCopy(records: map<PointId, Entry>, once: map<PointId, Entry>, twice: map<PointId, Entry>,
                   chunks: seq<string>, ps: seq<Point>, qs: seq<Point>, first: PointId)
    requires |ps| == |qs| == |chunks|
    requires |once| == |records| + |chunks| && |twice| == |once| + |chunks|
    requires forall k :: k in once ==> k in records || first <= k < first + |chunks|
    requires forall k :: k in once ==> k in twice && twice[k] == once[k]
    requires forall i :: 0 <= i < |ps| ==>
               ps[i].id == first + i && ps[i].id in once && once[ps[i].id].payload.text == chunks[i]
    requires forall i :: 0 <= i < |qs| ==>
               qs[i].id == first + |chunks| + i && qs[i].id in twice && twice[qs[i].id].payload.text == chunks[i]
    ensures |twice| == |records| + 2 * |chunks|
    ensures forall i :: 0 <= i < |chunks| ==>
              ps[i].id != qs[i].id &&
              ps[i].id in twice && twice[ps[i].id].payload.text == chunks[i] &&
              qs[i].id in twice && twice[qs[i].id].payload.text == chunks[i]
  {
  }

  /** The ingestion handler. The page, the splitter, the embedding model and
      whether the store answers are inputs; ids come from the id source.
      All chunks are embedded before the single upsert, and any failure
      answers 500 with the collection untouched. */
  method ProcessUrl(fetched: Result<Page>, split: (SplitterConfig, string) -> seq<string>,
                    embed: string -> Result<Vector>, ids: IdSource, store: VectorStore,
                    reachable: bool)
    returns (resp: Response)
    requires store.Valid() && IdsAhead(store, ids)
    modifies ids, store
    ensures store.Valid() && IdsAhead(store, ids)
    ensures resp.Ok? ==> resp.body == Processed
    ensures resp.HttpError? ==> resp.status == ServerError && store.records == old(store.records)
    ensures fetched.Failure? ==> resp == HttpError(ServerError, fetched.error)
    ensures resp.Ok? <==>
              fetched.Success? &&
              EmbedAll(PageChunks(fetched.value, split), embed, old(ids.next)).Success? &&
              reachable &&
              Conforms(EmbedAll(PageChunks(fetched.value, split), embed, old(ids.next)).value, store.dimension)
    ensures resp.Ok? ==>
              store.records == UpsertAll(old(store.records),
                                         EmbedAll(PageChunks(fetched.value, split), embed, old(ids.next)).value)
    ensures fetched.Success? && EmbedAll(PageChunks(fetched.value, split), embed, old(ids.next)).Failure? ==>
              resp == HttpError(ServerError, EmbedAll(PageChunks(fetched.value, split), embed, old(ids.next)).error)
    ensures fetched.Success? && EmbedAll(PageChunks(fetched.value, split), embed, old(ids.next)).Success? &&
            !reachable ==>
              resp == HttpError(ServerError, Unreachable)
    ensures fetched.Success? && EmbedAll(PageChunks(fetched.value, split), embed, old(ids.next)).Success? &&
            reachable &&
            !Conforms(EmbedAll(PageChunks(fetched.value, split), embed, old(ids.next)).value, store.dimension) ==>
              resp == HttpError(ServerError, WrongDimension)
    ensures resp.Ok? ==> ids.next == old(ids.next) + |PageChunks(fetched.value, split)|
    ensures fetched.Success? && PageChunks(fetched.value, split) == [] && reachable ==>
              resp == Ok(Processed) && store.records == old(store.records)
  {
    if fetched.Failure? {
      return HttpError(ServerError, fetched.error);
    }
    var rawText := ReadData(fetched.value.status, fetched.value.paragraphs);
    var chunks := split(Splitter, rawText);
    ghost var first := ids.next;
    var vectors := GetEmbedding(chunks, embed, ids);
    if vectors.Failure? {
      return HttpError(ServerError, vectors.error);
    }
    ghost var before := store.records;
    var inserted := store.Upsert(vectors.value, reachable);
    if inserted.Fail? {
      return HttpError(ServerError, inserted.error);
    }
    IngestAddsExactly(before, chunks, embed, first);
    resp := Ok(Processed);
  }

  /** A page that did not come back with status 200, or that has no
      paragraphs, reads as the empty text. When the splitter gives no chunks
      for the empty text, such a page yields no chunks, its batch is empty
      and succeeds, and upserting it leaves the collection as it was. */
  lemma {:induction false} EmptyPageWritesNothing(page: Page, split: (SplitterConfig, string) -> seq<string>,
                                embed: string -> Result<Vector>, first: PointId,
                                records: map<PointId, Entry>, dim: nat)
    requires page.status != StatusOk || page.paragraphs == []
    requires split(Splitter, "") == []
    ensures ReadData(page.status, page.paragraphs) == ""
    ensures PageChunks(page, split) == []
    ensures EmbedAll(PageChunks(page, split), embed, first) == Success([])
    ensures Conforms([], dim) && UpsertAll(records, []) == records
  {
    assert ReadData(page.status, page.paragraphs) == "";
  }

  /** The prompt the question handler sends for the given collection. */
  function AnswerPrompt(records: map<PointId, Entry>, ranking: seq<PointId>, q: string): string
  {
    AssemblePrompt(TopTexts(records, ranking, SearchLimit), q)
  }

  /** With a one-neighbour search the prompt holds at most one context
      block, and that block is the text of a stored point; on an empty
      collection the prompt is the bare template. */
  lemma {:induction false} AtMostOneContext(records: map<PointId, Entry>, ranking: seq<PointId>, q: string)
    ensures var p := AnswerPrompt(records, ranking, q);
            p == "Context:\nQuestion:" + q + "\n---\nAnswer:" ||
            exists k :: k in records &&
              p == "Context:\n" + records[k].payload.text + "\n---\nQuestion:" + q + "\n---\nAnswer:"
    ensures records == map[] ==> AnswerPrompt(records, ranking, q) == "Context:\nQuestion:" + q + "\n---\nAnswer:"
  {
    var texts := TopTexts(records, ranking, SearchLimit);
    if |texts| == 1 {
      var k :| k in records && records[k].payload.text == texts[0];
    }
  }

  /** Answering a question: embed it, take the nearest stored chunk, build
      the prompt and return the chat model's reply. The models and whether
      the store answers are inputs; the ranking stands for the store's
      similarity order for the question's vector. */
  method CreateAnswerWithContext(query: string, embed: string -> Result<Vector>, store: VectorStore,
                                 ranking: seq<PointId>, reachable: bool,
                                 complete: string -> Result<string>)
    returns (r: Result<string>)
    ensures r.Success? <==>
              embed(query).Success? && reachable && |embed(query).value| == store.dimension &&
              complete(AnswerPrompt(store.records, ranking, query)).Success?
    ensures r.Success? ==> r.value == complete(AnswerPrompt(store.records, ranking, query)).value
    ensures embed(query).Failure? ==> r == Failure(embed(query).error)
    ensures embed(query).Success? && !reachable ==> r == Failure(Unreachable)
    ensures embed(query).Success? && reachable && |embed(query).value| != store.dimension ==>
              r == Failure(WrongDimension)
    ensures embed(query).Success? && reachable && |embed(query).value| == store.dimension &&
            complete(AnswerPrompt(store.records, ranking, query)).Failure? ==>
              r == Failure(complete(AnswerPrompt(store.records, ranking, query)).error)
  {
    var embedded := embed(query);
    if embedded.Failure? {
      return Failure(embedded.error);
    }
    var searchResult := store.Search(embedded.value, SearchLimit, ranking, reachable);
    if searchResult.Failure? {
      return Failure(searchResult.error);
    }
    var prompt := BuildPrompt(searchResult.value, query);
    var completion := complete(prompt);
    if completion.Failure? {
      return Failure(completion.error);
    }
    r := Success(completion.value);
  }

  /** The question handler: the answer, or 500 with the failure's text. */
  method AskQuestion(question: string, embed: string -> Result<Vector>, store: VectorStore,
                     ranking: seq<PointId>, reachable: bool,
                     complete: string -> Result<string>)
    returns (resp: Response)
    ensures resp.HttpError? ==> resp.status == ServerError
    ensures resp.Ok? <==>
              embed(question).Success? && reachable && |embed(question).value| == store.dimension &&
              complete(AnswerPrompt(store.records, ranking, question)).Success?
    ensures resp.Ok? ==> resp.body == complete(AnswerPrompt(store.records, ranking, question)).value
    ensures embed(question).Failure? ==> resp == HttpError(ServerError, embed(question).error)
    ensures embed(question).Success? && !reachable ==> resp == HttpError(ServerError, Unreachable)
    ensures embed(question).Success? && reachable && |embed(question).value| != store.dimension ==>
              resp == HttpError(ServerError, WrongDimension)
    ensures embed(question).Success? && reachable && |embed(question).value| == store.dimension &&
            complete(AnswerPrompt(store.records, ranking, question)).Failure? ==>
              resp == HttpError(ServerError, complete(AnswerPrompt(store.records, ranking, question)).error)
  {
    var answer := CreateAnswerWithContext(question, embed, store, ranking, reachable, complete);
    if answer.Failure? {
      return HttpError(ServerError, answer.error);
    }
    resp := Ok(answer.value);
  }
}
