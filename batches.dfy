/** The document ingestion function (supabase/functions/process-document/index.ts):
    the request is checked, the chunks are cut into consecutive batches of
    at most fifty, and each batch is embedded and inserted as one set of
    vector records.  The embedding service and the vector database are
    parameters: `embed` answers one embedding request, `insert` one insert
    request. */
module ProcessDocument {
  import opened Wrappers
  import opened Text

  const BatchSize: nat := 50
  /** Every record gets this placeholder page. */
  const PlaceholderPage: int := 1

  const ConfigError := "Server configuration error: Missing API keys."
  const BodyError := "Invalid request body. \"fileName\" and \"chunks\" are required."
  const EmbeddingErrorPrefix := "OpenAI API error: "
  const InsertErrorPrefix := "Zilliz API error: "
  const SuccessMessage := "File processed successfully"

  /** The three environment variables. */
  datatype Config = Config(zillizUri: Option<string>, zillizApiKey: Option<string>, openAiApiKey: Option<string>)

  /** The parsed request body; a field is `None` when it is absent or null. */
  datatype Request = Request(fileName: Option<string>, chunks: Option<seq<string>>)

  type Vector = seq<real>

  /** One row of the vector collection. */
  datatype Record = Record(vector: Option<Vector>, text: string, documentName: string, pageNumber: int)

  /** The embedding service's answer: the vectors, or a response that is not ok. */
  datatype EmbedResponse = Embeddings(vectors: seq<Vector>) | EmbedNotOk(body: string)

  /** The vector database's answer to one insert. */
  datatype InsertResponse = InsertOk | InsertNotOk(body: string)

  /** The HTTP reply: status 200 with a message, or status 500 with an error. */
  datatype Reply = Processed(message: string) | ServerError(error: string)

  /** JavaScript truthiness of an optional string: present and not empty. */
  predicate Truthy(v: Option<string>) {
    v.Some? && v.value != []
  }

  predicate Configured(config: Config) {
    Truthy(config.zillizUri) && Truthy(config.zillizApiKey) && Truthy(config.openAiApiKey)
  }

  // ---------------------------------------------------------------------
  // Batches
  // ---------------------------------------------------------------------

  /** `chunks.slice(i, i + BATCH_SIZE)`. */
  function BatchAt(chunks: seq<string>, i: nat): (b: seq<string>)
    requires i < |chunks|
    ensures 1 <= |b| <= BatchSize
  {
    chunks[i..Min(i + BatchSize, |chunks|)]
  }

  /** The batches of the loop that starts at offset `i`. */
  function BatchesFrom(chunks: seq<string>, i: nat): seq<seq<string>>
    decreases |chunks| - i
  {
    if i >= |chunks| then [] else [BatchAt(chunks, i)] + BatchesFrom(chunks, i + BatchSize)
  }

  function Batches(chunks: seq<string>): seq<seq<string>> {
    BatchesFrom(chunks, 0)
  }

  lemma {:induction false} BatchesFromPartition(chunks: seq<string>, i: nat)
    requires i <= |chunks|
    ensures Concat(BatchesFrom(chunks, i)) == chunks[i..]
    ensures |BatchesFrom(chunks, i)| == (|chunks| - i + BatchSize - 1) / BatchSize
    ensures forall k :: 0 <= k < |BatchesFrom(chunks, i)| ==> 1 <= |BatchesFrom(chunks, i)[k]| <= BatchSize
    ensures forall k :: 0 <= k < |BatchesFrom(chunks, i)| - 1 ==> |BatchesFrom(chunks, i)[k]| == BatchSize
    decreases |chunks| - i
  {
    var bs := BatchesFrom(chunks, i);
    if i < |chunks| {
      var j := Min(i + BatchSize, |chunks|);
      var rest := BatchesFrom(chunks, j);
      if j == |chunks| {
        assert rest == [] && BatchesFrom(chunks, i + BatchSize) == [];
      } else {
        assert j == i + BatchSize;
      }
      BatchesFromPartition(chunks, j);
      assert bs == [chunks[i..j]] + rest;
      assert bs[1..] == rest;
      assert chunks[i..j] + chunks[j..] == chunks[i..];
      forall k | 0 <= k < |bs|
        ensures 1 <= |bs[k]| <= BatchSize
        ensures k < |bs| - 1 ==> |bs[k]| == BatchSize
      {
        if k > 0 {
          assert bs[k] == rest[k - 1];
        }
      }
    }
  }

  /** The batches hold every chunk once, in order; each holds one to fifty
      chunks and all but the last exactly fifty; there are ⌈n/50⌉ of them. */
  lemma BatchesPartition(chunks: seq<string>)
    ensures Concat(Batches(chunks)) == chunks
    ensures |Batches(chunks)| == (|chunks| + BatchSize - 1) / BatchSize
    ensures forall k :: 0 <= k < |Batches(chunks)| ==> 1 <= |Batches(chunks)[k]| <= BatchSize
    ensures forall k :: 0 <= k < |Batches(chunks)| - 1 ==> |Batches(chunks)[k]| == BatchSize
  {
    BatchesFromPartition(chunks, 0);
  }

  // ---------------------------------------------------------------------
  // Records
  // ---------------------------------------------------------------------

  /** `batchChunks.map((chunk, j) => ({ vector: embeddings[j], ... }))`: a
      missing embedding leaves the vector undefined. */
  function RecordsOf(batch: seq<string>, vectors: seq<Vector>, fileName: string): (rs: seq<Record>)
    ensures |rs| == |batch|
    ensures forall j :: 0 <= j < |batch| ==>
      && rs[j].text == batch[j]
      && rs[j].documentName == fileName
      && rs[j].pageNumber == PlaceholderPage
      && rs[j].vector == (if j < |vectors| then Some(vectors[j]) else None)
  {
    seq(|batch|, j requires 0 <= j < |batch| =>
      Record(if j < |vectors| then Some(vectors[j]) else None, batch[j], fileName, PlaceholderPage))
  }

  function Texts(rs: seq<Record>): (ts: seq<string>)
    ensures |ts| == |rs| && forall j :: 0 <= j < |rs| ==> ts[j] == rs[j].text
  {
    seq(|rs|, j requires 0 <= j < |rs| => rs[j].text)
  }

  // ---------------------------------------------------------------------
  // The request
  // ---------------------------------------------------------------------

  /** What the function leaves behind: the record sets inserted, in order,
      and the reply. */
  datatype Outcome = Outcome(inserted: seq<seq<Record>>, reply: Reply)

  /** The batch loop from offset `i`: embed, build the records, insert; the
      first failure ends the loop. */
  function RunFrom(chunks: seq<string>, i: nat, fileName: string,
                   embed: seq<string> -> EmbedResponse, insert: seq<Record> -> InsertResponse): Outcome
    decreases |chunks| - i
  {
    if i >= |chunks| then Outcome([], Processed(SuccessMessage))
    else
      var batch := BatchAt(chunks, i);
      match embed(batch)
      case EmbedNotOk(body) => Outcome([], ServerError(EmbeddingErrorPrefix + body))
      case Embeddings(vectors) =>
        var records := RecordsOf(batch, vectors, fileName);
        match insert(records)
        case InsertNotOk(body) => Outcome([], ServerError(InsertErrorPrefix + body))
        case InsertOk =>
          var rest := RunFrom(chunks, i + BatchSize, fileName, embed, insert);
          Outcome([records] + rest.inserted, rest.reply)
  }

  /** The whole handler after CORS: configuration, body, then the batches. */
  function Process(config: Config, request: Request,
                   embed: seq<string> -> EmbedResponse, insert: seq<Record> -> InsertResponse): Outcome
  {
    if !Configured(config) then Outcome([], ServerError(ConfigError))
    else if !Truthy(request.fileName) || request.chunks.None? then Outcome([], ServerError(BodyError))
    else RunFrom(request.chunks.value, 0, request.fileName.value, embed, insert)
  }

  /** A batch goes through: its embedding request and its insert succeed. */
  predicate BatchSucceeds(batch: seq<string>, fileName: string,
                          embed: seq<string> -> EmbedResponse, insert: seq<Record> -> InsertResponse) {
    embed(batch).Embeddings? && insert(RecordsOf(batch, embed(batch).vectors, fileName)).InsertOk?
  }

  /** The loop inserts the batches in order, each as its own records, up to
      the first batch that fails; it succeeds exactly when none fails, and
      an error names the service that failed. */
  lemma {:induction false} RunOutcome(chunks: seq<string>, i: nat, fileName: string,
                                      embed: seq<string> -> EmbedResponse, insert: seq<Record> -> InsertResponse)
    ensures |RunFrom(chunks, i, fileName, embed, insert).inserted| <= |BatchesFrom(chunks, i)|
    ensures forall m :: 0 <= m < |RunFrom(chunks, i, fileName, embed, insert).inserted| ==>
      && BatchSucceeds(BatchesFrom(chunks, i)[m], fileName, embed, insert)
      && RunFrom(chunks, i, fileName, embed, insert).inserted[m]
           == RecordsOf(BatchesFrom(chunks, i)[m], embed(BatchesFrom(chunks, i)[m]).vectors, fileName)
    ensures RunFrom(chunks, i, fileName, embed, insert).reply.Processed? <==>
      |RunFrom(chunks, i, fileName, embed, insert).inserted| == |BatchesFrom(chunks, i)|
    ensures RunFrom(chunks, i, fileName, embed, insert).reply.Processed? ==>
      RunFrom(chunks, i, fileName, embed, insert).reply.message == SuccessMessage
    ensures RunFrom(chunks, i, fileName, embed, insert).reply.ServerError? ==>
      var n := |RunFrom(chunks, i, fileName, embed, insert).inserted|;
      var failed := BatchesFrom(chunks, i)[n];
      var e := RunFrom(chunks, i, fileName, embed, insert).reply.error;
      !BatchSucceeds(failed, fileName, embed, insert)
      && (embed(failed).EmbedNotOk? ==> e == EmbeddingErrorPrefix + embed(failed).body)
      && (embed(failed).Embeddings? ==>
            e == InsertErrorPrefix + insert(RecordsOf(failed, embed(failed).vectors, fileName)).body)
    decreases |chunks| - i
  {
    if i < |chunks| {
      var batch := BatchAt(chunks, i);
      var bs := BatchesFrom(chunks, i);
      assert bs[0] == batch;
      if BatchSucceeds(batch, fileName, embed, insert) {
        RunOutcome(chunks, i + BatchSize, fileName, embed, insert);
        var o := RunFrom(chunks, i, fileName, embed, insert);
        var rest := RunFrom(chunks, i + BatchSize, fileName, embed, insert);
        assert bs[1..] == BatchesFrom(chunks, i + BatchSize);
        assert o.inserted == [RecordsOf(batch, embed(batch).vectors, fileName)] + rest.inserted;
        forall m | 0 < m < |o.inserted|
          ensures o.inserted[m] == rest.inserted[m - 1] && bs[m] == BatchesFrom(chunks, i + BatchSize)[m - 1]
        {
        }
      }
    }
  }

  /** On success every chunk was inserted once, in order, with the file's
      name; an empty chunk list inserts nothing and succeeds. */
  lemma SuccessInsertsEveryChunk(chunks: seq<string>, fileName: string,
                                 embed: seq<string> -> EmbedResponse, insert: seq<Record> -> InsertResponse)
    requires RunFrom(chunks, 0, fileName, embed, insert).reply.Processed?
    ensures Texts(Concat(RunFrom(chunks, 0, fileName, embed, insert).inserted)) == chunks
    ensures forall r :: r in Concat(RunFrom(chunks, 0, fileName, embed, insert).inserted) ==>
      r.documentName == fileName && r.pageNumber == PlaceholderPage
  {
    RunOutcome(chunks, 0, fileName, embed, insert);
    BatchesPartition(chunks);
    var o := RunFrom(chunks, 0, fileName, embed, insert);
    var bs := Batches(chunks);
    TextsOfBatches(o.inserted, bs, fileName, embed);
  }

  lemma {:induction false} TextsOfBatches(rss: seq<seq<Record>>, bs: seq<seq<string>>, fileName: string,
                                          embed: seq<string> -> EmbedResponse)
    requires |rss| == |bs|
    requires forall m :: 0 <= m < |bs| ==>
      embed(bs[m]).Embeddings? && rss[m] == RecordsOf(bs[m], embed(bs[m]).vectors, fileName)
    ensures Texts(Concat(rss)) == Concat(bs)
    ensures forall r :: r in Concat(rss) ==> r.documentName == fileName && r.pageNumber == PlaceholderPage
  {
    if rss != [] {
      TextsOfBatches(rss[1..], bs[1..], fileName, embed);
      assert Texts(rss[0]) == bs[0];
      assert Texts(Concat(rss)) == Texts(rss[0]) + Texts(Concat(rss[1..]));
    }
  }

  /** Nothing is embedded or inserted when the configuration or the body is
      incomplete; otherwise the reply is the batch loop's. */
  lemma ProcessChecksFirst(config: Config, request: Request,
                           embed: seq<string> -> EmbedResponse, insert: seq<Record> -> InsertResponse)
    ensures !Configured(config) ==> Process(config, request, embed, insert) == Outcome([], ServerError(ConfigError))
    ensures Configured(config) && (!Truthy(request.fileName) || request.chunks.None?) ==>
      Process(config, request, embed, insert) == Outcome([], ServerError(BodyError))
    ensures Configured(config) && Truthy(request.fileName) && request.chunks == Some([]) ==>
      Process(config, request, embed, insert) == Outcome([], Processed(SuccessMessage))
  {
  }

  // ---------------------------------------------------------------------
  // The handler as a loop
  // ---------------------------------------------------------------------

  /** One pass of the batch loop: the records inserted, or the error. */
  method ProcessBatch(chunks: seq<string>, i: nat, fileName: string,
                      embed: seq<string> -> EmbedResponse, insert: seq<Record> -> InsertResponse)
    returns (records: seq<Record>, error: Option<string>)
    requires i < |chunks|
    ensures error.Some? ==> RunFrom(chunks, i, fileName, embed, insert) == Outcome([], ServerError(error.value))
    ensures error.None? ==>
      var rest := RunFrom(chunks, i + BatchSize, fileName, embed, insert);
      RunFrom(chunks, i, fileName, embed, insert) == Outcome([records] + rest.inserted, rest.reply)
  {
    var batchChunks := BatchAt(chunks, i);
    var embeddingResponse := embed(batchChunks);
    if embeddingResponse.EmbedNotOk? {
      return [], Some(EmbeddingErrorPrefix + embeddingResponse.body);
    }
    records := RecordsOf(batchChunks, embeddingResponse.vectors, fileName);
    var insertResponse := insert(records);
    if insertResponse.InsertNotOk? {
      return [], Some(InsertErrorPrefix + insertResponse.body);
    }
    error := None;
  }

  /** The request handler: the checks, then `for (i = 0; i < n; i += 50)`. */
  method HandleProcessDocument(config: Config, request: Request,
                               embed: seq<string> -> EmbedResponse, insert: seq<Record> -> InsertResponse)
    returns (inserted: seq<seq<Record>>, reply: Reply)
    ensures Outcome(inserted, reply) == Process(config, request, embed, insert)
  {
    inserted := [];
    if !Configured(config) {
      return inserted, ServerError(ConfigError);
    }
    if !Truthy(request.fileName) || request.chunks.None? {
      return inserted, ServerError(BodyError);
    }
    var fileName := request.fileName.value;
    var chunks := request.chunks.value;
    var i := 0;
    while i < |chunks|
      invariant RunFrom(chunks, 0, fileName, embed, insert)
        == Outcome(inserted + RunFrom(chunks, i, fileName, embed, insert).inserted,
                   RunFrom(chunks, i, fileName, embed, insert).reply)
      decreases |chunks| - i
    {
      var records, error := ProcessBatch(chunks, i, fileName, embed, insert);
      if error.Some? {
        return inserted, ServerError(error.value);
      }
      ghost var rest := RunFrom(chunks, i + BatchSize, fileName, embed, insert);
      assert inserted + ([records] + rest.inserted) == (inserted + [records]) + rest.inserted;
      inserted := inserted + [records];
      i := i + BatchSize;
    }
    reply := Processed(SuccessMessage);
  }
}
