/** Embedding and indexing: batching chunks into store requests, flattening
    chunk metadata into the store's record format, the collection statistics
    and deletion by file name. The encoder is a parameter; the vector store is
    seen through the requests the indexer sends it and the answers it returns. */
module Indexer {
  import opened Text
  import opened Meta
  import opened Ingest

  /** A request sent to the vector store. `add` is not an upsert, so requests are
      recorded as sent and nothing is assumed about how the store applies them. */
  datatype Request =
    | Add(ids: seq<string>, embeddings: seq<seq<real>>, documents: seq<string>, metadatas: seq<Metadata>)
    | Delete(deleteIds: seq<string>)

  /** An embedding call for a batch of texts: one vector per text, computed outside
      the model, or the message of the exception it raised. */
  type Encoder = seq<string> -> Result<seq<seq<real>>>

  // ---------------------------------------------------------------------------
  // Record metadata
  // ---------------------------------------------------------------------------

  /** The seven fixed fields every stored record carries. */
  function FixedMetadata(c: DocumentChunk): Metadata {
    map[
      "filename" := Str(c.filename),
      "page" := Int(c.page),
      "chunk_index" := Int(c.chunkIndex),
      "file_type" := Str(c.fileType),
      "priority" := Str(c.priority),
      "trusted" := Bool(c.trusted),
      "token_count" := Int(c.tokenCount)]
  }

  const MetaPrefix := "meta_"

  /** The custom entries among `keys` copied under the `meta_` prefix: only
      primitive values survive. */
  function ExtraOver(m: Metadata, keys: set<string>): Metadata {
    PrefixInjective();
    map j | j in keys && j in m && IsPrimitive(m[j]) :: MetaPrefix + j := m[j]
  }

  lemma PrefixInjective()
    ensures forall a, b :: MetaPrefix + a == MetaPrefix + b ==> a == b
  {
    forall a, b | MetaPrefix + a == MetaPrefix + b
      ensures a == b
    {
      assert a == (MetaPrefix + a)[|MetaPrefix|..];
      assert b == (MetaPrefix + b)[|MetaPrefix|..];
    }
  }

  /** The flat metadata record stored for a chunk. */
  function StoreMetadata(c: DocumentChunk): Metadata {
    FixedMetadata(c) + ExtraOver(c.metadata, c.metadata.Keys)
  }

  /** Every copied key starts with the `meta_` prefix. */
  lemma ExtraKeysPrefixed(m: Metadata, keys: set<string>)
    ensures forall key :: key in ExtraOver(m, keys) ==> |key| > 0 && key[0] == 'm'
  {
    forall key | key in ExtraOver(m, keys)
      ensures |key| > 0 && key[0] == 'm'
    {
      var j :| j in keys && j in m && IsPrimitive(m[j]) && key == MetaPrefix + j;
      assert key[0] == MetaPrefix[0];
    }
  }

  lemma FixedFieldKept(c: DocumentChunk, key: string)
    requires key in FixedMetadata(c) && key[0] != 'm'
    ensures StoreMetadata(c)[key] == FixedMetadata(c)[key]
  {
    ExtraKeysPrefixed(c.metadata, c.metadata.Keys);
  }

  /** The seven fixed fields of a stored record carry the chunk's own values:
      no custom entry can overwrite them. */
  lemma StoreMetadataFixed(c: DocumentChunk)
    ensures StoreMetadata(c)["filename"] == Str(c.filename)
    ensures StoreMetadata(c)["page"] == Int(c.page)
    ensures StoreMetadata(c)["chunk_index"] == Int(c.chunkIndex)
    ensures StoreMetadata(c)["file_type"] == Str(c.fileType)
    ensures StoreMetadata(c)["priority"] == Str(c.priority)
    ensures StoreMetadata(c)["trusted"] == Bool(c.trusted)
    ensures StoreMetadata(c)["token_count"] == Int(c.tokenCount)
  {
    FixedFieldKept(c, "filename");
    FixedFieldKept(c, "page");
    FixedFieldKept(c, "chunk_index");
    FixedFieldKept(c, "file_type");
    FixedFieldKept(c, "priority");
    FixedFieldKept(c, "trusted");
    FixedFieldKept(c, "token_count");
  }

  /** A custom entry is copied, as `meta_k`, exactly when its value is a string,
      integer, float or boolean; values such as PDF text blocks are dropped. */
  lemma StoreMetadataCustom(c: DocumentChunk)
    ensures forall k :: k in c.metadata ==>
      (MetaPrefix + k in StoreMetadata(c) <==> IsPrimitive(c.metadata[k]))
    ensures forall k :: k in c.metadata && IsPrimitive(c.metadata[k]) ==>
      StoreMetadata(c)[MetaPrefix + k] == c.metadata[k]
  {
    forall k | k in c.metadata
      ensures MetaPrefix + k in StoreMetadata(c) <==> IsPrimitive(c.metadata[k])
      ensures IsPrimitive(c.metadata[k]) ==> StoreMetadata(c)[MetaPrefix + k] == c.metadata[k]
    {
      CustomEntry(c, k);
    }
  }

  lemma CustomEntry(c: DocumentChunk, k: string)
    requires k in c.metadata
    ensures MetaPrefix + k in StoreMetadata(c) <==> IsPrimitive(c.metadata[k])
    ensures IsPrimitive(c.metadata[k]) ==> StoreMetadata(c)[MetaPrefix + k] == c.metadata[k]
  {
    var key := MetaPrefix + k;
    assert key[0] == 'm';
    assert key !in FixedMetadata(c);
    PrefixInjective();
  }

  /** A stored record has no key besides the fixed fields and the copied entries. */
  lemma StoreMetadataNothingElse(c: DocumentChunk)
    ensures forall key :: key in StoreMetadata(c) ==>
      key in FixedMetadata(c) || exists k :: k in c.metadata && key == MetaPrefix + k
  {
  }

  /** Copying the custom entry for one more key. */
  lemma ExtraOverInsert(m: Metadata, done: set<string>, k: string)
    requires k in m && k !in done
    ensures IsPrimitive(m[k]) ==> ExtraOver(m, done + {k}) == ExtraOver(m, done)[MetaPrefix + k := m[k]]
    ensures !IsPrimitive(m[k]) ==> ExtraOver(m, done + {k}) == ExtraOver(m, done)
  {
    PrefixInjective();
    ExtraKeysPrefixed(m, done);
  }

  lemma UnionUpdate<K, V>(f: map<K, V>, e: map<K, V>, k: K, v: V)
    ensures (f + e)[k := v] == f + e[k := v]
  {
  }

  /** The loop over the custom entries: each primitive one is copied into the
      record under its prefixed key. */
  method CopyCustom(record: Metadata, m: Metadata) returns (md: Metadata)
    ensures md == record + ExtraOver(m, m.Keys)
  {
    md := record;
    if |m| > 0 {
      var remaining := m.Keys;
      ghost var done: set<string> := {};
      EmptyExtra(m);
      while remaining != {}
        invariant remaining <= m.Keys && done == m.Keys - remaining
        invariant md == record + ExtraOver(m, done)
        decreases |remaining|
      {
        var key :| key in remaining;
        var value := m[key];
        CopyStep(record, m, done, key, md);
        if IsPrimitive(value) {
          md := md[MetaPrefix + key := value];
        }
        remaining := remaining - {key};
        done := done + {key};
      }
    } else {
      assert m.Keys == {};
      EmptyExtra(m);
    }
  }

  /** No key handled yet: nothing copied. */
  lemma EmptyExtra(m: Metadata)
    ensures ExtraOver(m, {}) == map[]
  {
  }

  /** Handling one more custom key extends or keeps the record built so far. */
  lemma CopyStep(record: Metadata, m: Metadata, done: set<string>, key: string, md: Metadata)
    requires key in m && key !in done && md == record + ExtraOver(m, done)
    ensures IsPrimitive(m[key]) ==> md[MetaPrefix + key := m[key]] == record + ExtraOver(m, done + {key})
    ensures !IsPrimitive(m[key]) ==> md == record + ExtraOver(m, done + {key})
  {
    ExtraOverInsert(m, done, key);
    UnionUpdate(record, ExtraOver(m, done), MetaPrefix + key, m[key]);
  }

  /** The record the indexer stores for a chunk. */
  method BuildMetadata(c: DocumentChunk) returns (md: Metadata)
    ensures md == StoreMetadata(c)
  {
    md := FixedMetadata(c);
    md := CopyCustom(md, c.metadata);
  }

  // ---------------------------------------------------------------------------
  // Batches
  // ---------------------------------------------------------------------------

  /** `xs` cut, in order, into consecutive slices of `size` elements; only the
      last slice may be shorter. */
  function Slices<T>(xs: seq<T>, size: nat): seq<seq<T>>
    requires size > 0
    decreases |xs|
  {
    if |xs| == 0 then []
    else if |xs| <= size then [xs]
    else [xs[..size]] + Slices(xs[size..], size)
  }

  function Concat<T>(xss: seq<seq<T>>): seq<T> {
    if |xss| == 0 then [] else xss[0] + Concat(xss[1..])
  }

  /** The slices partition the list: concatenated they give it back, none is
      empty, and every slice but the last holds exactly `size` elements. */
  lemma {:induction false} SlicesPartition<T>(xs: seq<T>, size: nat)
    requires size > 0
    ensures Concat(Slices(xs, size)) == xs
    ensures forall i :: 0 <= i < |Slices(xs, size)| ==> 0 < |Slices(xs, size)[i]| <= size
    ensures forall i :: 0 <= i < |Slices(xs, size)| - 1 ==> |Slices(xs, size)[i]| == size
    ensures |xs| == 0 <==> |Slices(xs, size)| == 0
    decreases |xs|
  {
    if |xs| > size {
      var rest := Slices(xs[size..], size);
      SlicesPartition(xs[size..], size);
      assert Slices(xs, size) == [xs[..size]] + rest;
      assert ([xs[..size]] + rest)[1..] == rest;
      assert xs[..size] + xs[size..] == xs;
      forall i | 1 <= i < |Slices(xs, size)|
        ensures Slices(xs, size)[i] == rest[i - 1]
      {
      }
    }
  }

  function Ids(batch: seq<DocumentChunk>): (ids: seq<string>)
    ensures |ids| == |batch|
  {
    seq(|batch|, i requires 0 <= i < |batch| => batch[i].chunkId)
  }

  function Texts(batch: seq<DocumentChunk>): (texts: seq<string>)
    ensures |texts| == |batch|
  {
    seq(|batch|, i requires 0 <= i < |batch| => batch[i].chunkText)
  }

  function Metadatas(batch: seq<DocumentChunk>): (mds: seq<Metadata>)
    ensures |mds| == |batch|
  {
    seq(|batch|, i requires 0 <= i < |batch| => StoreMetadata(batch[i]))
  }

  /** The request that stores one batch whose texts embedded to `embeddings`. */
  function AddRequest(batch: seq<DocumentChunk>, embeddings: seq<seq<real>>): Request {
    Add(Ids(batch), embeddings, Texts(batch), Metadatas(batch))
  }

  /** The requests sending one batch issues: its add request when its texts embed,
      nothing when the encoder raises. */
  function BatchRequests(encode: Encoder, batch: seq<DocumentChunk>): seq<Request> {
    match encode(Texts(batch))
    case Ok(embeddings) => [AddRequest(batch, embeddings)]
    case Err(_) => []
  }

  /** The exception sending one batch raises, if any: the encoder's, or else the store's
      answer to the add request. */
  function BatchError(encode: Encoder, store: Store, batch: seq<DocumentChunk>): Option<string> {
    match encode(Texts(batch))
    case Ok(embeddings) => store.addError(AddRequest(batch, embeddings))
    case Err(e) => Some(e)
  }

  /** The requests for a sequence of batches, in order. */
  function Requests(encode: Encoder, batches: seq<seq<DocumentChunk>>): seq<Request> {
    if |batches| == 0 then []
    else Requests(encode, batches[..|batches| - 1]) + BatchRequests(encode, batches[|batches| - 1])
  }

  lemma RequestsSnoc(encode: Encoder, done: seq<seq<DocumentChunk>>, batch: seq<DocumentChunk>)
    ensures Requests(encode, done + [batch]) == Requests(encode, done) + BatchRequests(encode, batch)
  {
    assert (done + [batch])[..|done|] == done;
  }

  /** When every batch embeds, there is exactly one request per batch, in order: the
      add request of that batch with the encoder's vectors. */
  lemma {:induction false} RequestsOfEmbedded(encode: Encoder, batches: seq<seq<DocumentChunk>>)
    requires forall j :: 0 <= j < |batches| ==> encode(Texts(batches[j])).Ok?
    ensures |Requests(encode, batches)| == |batches|
    ensures forall i :: 0 <= i < |batches| ==>
      Requests(encode, batches)[i] == AddRequest(batches[i], encode(Texts(batches[i])).value)
    decreases |batches|
  {
    if |batches| > 0 {
      var init := batches[..|batches| - 1];
      RequestsOfEmbedded(encode, init);
      forall i | 0 <= i < |batches|
        ensures Requests(encode, batches)[i] == AddRequest(batches[i], encode(Texts(batches[i])).value)
      {
        if i < |init| {
          assert batches[i] == init[i];
        }
      }
    }
  }

  /** The index of the first batch whose sending raises, or the number of batches when
      none does. */
  function FirstFailure(encode: Encoder, store: Store, batches: seq<seq<DocumentChunk>>): (k: nat)
    ensures k <= |batches|
    ensures forall j :: 0 <= j < k ==> BatchError(encode, store, batches[j]).None?
    ensures k < |batches| ==> BatchError(encode, store, batches[k]).Some?
    decreases |batches|
  {
    if |batches| == 0 then 0
    else if BatchError(encode, store, batches[0]).Some? then 0
    else 1 + FirstFailure(encode, store, batches[1..])
  }

  /** The first failure is the one position before which nothing raises and at which
      something does. */
  lemma FirstFailureIs(encode: Encoder, store: Store, batches: seq<seq<DocumentChunk>>, k: nat)
    requires k <= |batches|
    requires forall j :: 0 <= j < k ==> BatchError(encode, store, batches[j]).None?
    requires k < |batches| ==> BatchError(encode, store, batches[k]).Some?
    ensures FirstFailure(encode, store, batches) == k
  {
  }

  /** The requests indexing issues for `batches`: those of every batch up to and
      including the first that raises. */
  function SentFor(encode: Encoder, store: Store, batches: seq<seq<DocumentChunk>>): seq<Request> {
    Requests(encode, batches[..Min(FirstFailure(encode, store, batches) + 1, |batches|)])
  }

  /** What indexing `batches` of `total` chunks returns: the first exception raised,
      or the number of chunks. */
  function IndexResult(encode: Encoder, store: Store, batches: seq<seq<DocumentChunk>>, total: nat): Result<nat> {
    var k := FirstFailure(encode, store, batches);
    if k < |batches| then Err(BatchError(encode, store, batches[k]).value) else Ok(total)
  }

  /** Before the first failure every batch was stored: the log starts with one add
      request per earlier batch, in order. A batch whose texts do not embed sends
      nothing more; one the store refuses is the last request issued. */
  lemma SentBeforeFailure(encode: Encoder, store: Store, batches: seq<seq<DocumentChunk>>)
    ensures var k := FirstFailure(encode, store, batches);
      var sent := SentFor(encode, store, batches);
      |sent| >= k &&
      (forall i :: 0 <= i < k ==>
        sent[i] == AddRequest(batches[i], encode(Texts(batches[i])).value)) &&
      (k == |batches| ==> |sent| == k) &&
      (k < |batches| && encode(Texts(batches[k])).Err? ==> |sent| == k) &&
      (k < |batches| && encode(Texts(batches[k])).Ok? ==>
        |sent| == k + 1 && sent[k] == AddRequest(batches[k], encode(Texts(batches[k])).value) &&
        store.addError(sent[k]).Some?)
  {
    var k := FirstFailure(encode, store, batches);
    var before := batches[..k];
    assert forall j :: 0 <= j < |before| ==> before[j] == batches[j];
    RequestsOfEmbedded(encode, before);
    if k < |batches| {
      assert batches[..k + 1] == before + [batches[k]];
      RequestsSnoc(encode, before, batches[k]);
    } else {
      assert batches[..|batches|] == before;
    }
  }

  /** The slice at position `i` is the next batch of the partition. */
  lemma NextSlice<T>(xs: seq<T>, i: nat, size: nat, batches: seq<seq<T>>, done: seq<seq<T>>)
    requires i < |xs| && size > 0
    requires batches == done + Slices(xs[i..], size)
    ensures var next := Min(i + size, |xs|);
      batches == (done + [xs[i..next]]) + Slices(xs[next..], size) &&
      |done| < |batches| && batches[..|done| + 1] == done + [xs[i..next]]
  {
    var next := Min(i + size, |xs|);
    SlicesStep(xs, i, size);
    AppendAssoc(done, [xs[i..next]], Slices(xs[next..], size));
  }

  /** Logging one more batch extends the log by that batch's requests. */
  lemma SentStep(encode: Encoder, start: seq<Request>, before: seq<Request>,
                 done: seq<seq<DocumentChunk>>, batch: seq<DocumentChunk>)
    requires before == start + Requests(encode, done)
    ensures before + BatchRequests(encode, batch) == start + Requests(encode, done + [batch])
  {
    RequestsSnoc(encode, done, batch);
    AppendAssoc(start, Requests(encode, done), BatchRequests(encode, batch));
  }

  /** The batch after a run of stored ones is the first failure when it raises. */
  lemma FailureAt(encode: Encoder, store: Store, batches: seq<seq<DocumentChunk>>,
                  done: seq<seq<DocumentChunk>>, batch: seq<DocumentChunk>, total: nat)
    requires |done| < |batches| && batches[..|done| + 1] == done + [batch]
    requires forall j :: 0 <= j < |done| ==> BatchError(encode, store, done[j]).None?
    requires BatchError(encode, store, batch).Some?
    ensures FirstFailure(encode, store, batches) == |done|
    ensures SentFor(encode, store, batches) == Requests(encode, done + [batch])
    ensures IndexResult(encode, store, batches, total) == Err(BatchError(encode, store, batch).value)
  {
    forall j | 0 <= j < |done|
      ensures BatchError(encode, store, batches[j]).None?
    {
      assert batches[j] == (done + [batch])[j] == done[j];
    }
    assert batches[|done|] == (done + [batch])[|done|] == batch;
    FirstFailureIs(encode, store, batches, |done|);
  }

  /** When every batch was stored, indexing returns the count and sent them all. */
  lemma NoFailure(encode: Encoder, store: Store, batches: seq<seq<DocumentChunk>>, total: nat)
    requires forall j :: 0 <= j < |batches| ==> BatchError(encode, store, batches[j]).None?
    ensures IndexResult(encode, store, batches, total) == Ok(total)
    ensures SentFor(encode, store, batches) == Requests(encode, batches)
  {
    FirstFailureIs(encode, store, batches, |batches|);
    assert batches[..|batches|] == batches;
  }

  /** When nothing raises, every batch is stored and the count is the number of chunks. */
  lemma IndexAllStored(encode: Encoder, store: Store, chunks: seq<DocumentChunk>, size: nat)
    requires size > 0
    requires forall j :: 0 <= j < |Slices(chunks, size)| ==> BatchError(encode, store, Slices(chunks, size)[j]).None?
    ensures var batches := Slices(chunks, size);
      IndexResult(encode, store, batches, |chunks|) == Ok(|chunks|) &&
      |SentFor(encode, store, batches)| == |batches| &&
      forall i :: 0 <= i < |batches| ==>
        SentFor(encode, store, batches)[i] == AddRequest(batches[i], encode(Texts(batches[i])).value)
  {
    var batches := Slices(chunks, size);
    FirstFailureIs(encode, store, batches, |batches|);
    SentBeforeFailure(encode, store, batches);
  }

  lemma AppendAssoc<T>(a: seq<T>, b: seq<T>, c: seq<T>)
    ensures a + (b + c) == (a + b) + c
  {
  }

  /** The slices from position `i` on start with the slice at `i`. */
  lemma SlicesStep<T>(xs: seq<T>, i: nat, size: nat)
    requires i < |xs| && size > 0
    ensures Slices(xs[i..], size) == [xs[i..Min(i + size, |xs|)]] + Slices(xs[Min(i + size, |xs|)..], size)
  {
    var rest := xs[i..];
    if |rest| > size {
      assert rest[..size] == xs[i..i + size];
      assert rest[size..] == xs[i + size..];
    } else {
      assert Slices(rest, size) == [rest];
      assert xs[i..Min(i + size, |xs|)] == rest;
      assert Slices(xs[|xs|..], size) == [];
    }
  }

  /** The columns of an add request are index-aligned with the batch: the i-th
      id, document and metadata record all describe the batch's i-th chunk, and
      the embeddings are the encoder's answer for exactly those documents. */
  lemma AddRequestAligned(encode: Encoder, batch: seq<DocumentChunk>)
    requires encode(Texts(batch)).Ok?
    ensures var r := BatchRequests(encode, batch)[0];
      |BatchRequests(encode, batch)| == 1 &&
      |r.ids| == |r.documents| == |r.metadatas| == |batch| &&
      encode(r.documents) == Ok(r.embeddings) &&
      forall i :: 0 <= i < |batch| ==>
        r.ids[i] == batch[i].chunkId && r.documents[i] == batch[i].chunkText &&
        r.metadatas[i] == StoreMetadata(batch[i])
  {
  }

  /** What `range` raises for a zero step. */
  const ZeroStep := "range() arg 3 must not be zero"

  /** The model name used when OpenAI embeddings are requested with a key. */
  const OpenAIEmbeddingModel := "text-embedding-ada-002"

  /** Python's truth value of an optional string. */
  predicate Given(key: Option<string>) {
    key.Some? && |key.value| > 0
  }

  /** The answers of the store's calls; each may fail. `addError` and `deleteError`
      give the exception a write raises, if any. */
  datatype Store = Store(
    count: Result<nat>,
    sample: nat -> Result<seq<Metadata>>,
    idsOfFile: string -> Result<seq<string>>,
    addError: Request -> Option<string>,
    deleteError: seq<string> -> Option<string>)

  /** What reading the `openai_client` attribute raises when the constructor never set it. */
  const NoOpenaiClient := "'EmbeddingIndexer' object has no attribute 'openai_client'"

  /** `embed_batch` as written: it tests `use_openai` alone, while the constructor built
      the OpenAI client only when a key was given too, and the sentence-transformers
      encoder otherwise. */
  function BatchEncoder(useOpenai: bool, hasKey: bool, openai: Encoder, local: Encoder): Encoder {
    if !useOpenai then local
    else if hasKey then openai
    else _ => Err(NoOpenaiClient)
  }

  /** Asking for OpenAI without a key: the constructor falls back to sentence-transformers
      and reports that model, but every batch then fails on the missing client. */
  lemma AsWrittenOpenaiWithoutKeyFails(openai: Encoder, local: Encoder, texts: seq<string>)
    ensures BatchEncoder(true, false, openai, local)(texts) == Err(NoOpenaiClient)
  {
  }

  /** The encoder the constructor evidently means `embed_batch` to use: the one it built. */
  function BatchEncoderCorrected(useOpenai: bool, hasKey: bool, openai: Encoder, local: Encoder): Encoder {
    if useOpenai && hasKey then openai else local
  }

  /** The corrected encoder is always one of the two engines, OpenAI's exactly when the
      indexer reports OpenAI's model, and it agrees with `embed_batch` as written in
      every case but OpenAI requested without a key. */
  lemma CorrectedEncoderFollowsConstructor(useOpenai: bool, key: Option<string>, openai: Encoder, local: Encoder,
                                           texts: seq<string>)
    ensures var e := BatchEncoderCorrected(useOpenai, Given(key), openai, local);
      (useOpenai && Given(key) ==> e(texts) == openai(texts)) &&
      (!(useOpenai && Given(key)) ==> e(texts) == local(texts)) &&
      (!(useOpenai && !Given(key)) ==> e(texts) == BatchEncoder(useOpenai, Given(key), openai, local)(texts))
  {
  }

  // ---------------------------------------------------------------------------
  // Statistics
  // ---------------------------------------------------------------------------

  /** One entry of a counting dictionary; entries stay in insertion order. */
  datatype Entry = Entry(key: Value, count: nat)

  type Histogram = seq<Entry>

  /** `h.get(key, 0)` */
  function Lookup(h: Histogram, key: Value): nat {
    if |h| == 0 then 0 else if h[0].key == key then h[0].count else Lookup(h[1..], key)
  }

  function Keys(h: Histogram): set<Value> {
    if |h| == 0 then {} else {h[0].key} + Keys(h[1..])
  }

  /** No key has two entries, as in a dictionary. */
  predicate DistinctKeys(h: Histogram) {
    |h| == 0 || (h[0].key !in Keys(h[1..]) && DistinctKeys(h[1..]))
  }

  function Total(h: Histogram): nat {
    if |h| == 0 then 0 else h[0].count + Total(h[1..])
  }

  /** `h[key] = h.get(key, 0) + 1`: an existing entry is bumped in place, a new
      key is appended with count one. */
  function Increment(h: Histogram, key: Value): Histogram {
    if |h| == 0 then [Entry(key, 1)]
    else if h[0].key == key then [Entry(key, h[0].count + 1)] + h[1..]
    else [h[0]] + Increment(h[1..], key)
  }

  /** Incrementing adds one to the chosen key's count and to the total, leaves
      every other count alone, keeps the keys distinct and adds only `key`. */
  lemma {:induction false} IncrementSpec(h: Histogram, key: Value)
    requires DistinctKeys(h)
    ensures Lookup(Increment(h, key), key) == Lookup(h, key) + 1
    ensures forall k :: k != key ==> Lookup(Increment(h, key), k) == Lookup(h, k)
    ensures Total(Increment(h, key)) == Total(h) + 1
    ensures Keys(Increment(h, key)) == Keys(h) + {key}
    ensures DistinctKeys(Increment(h, key))
    decreases |h|
  {
    if |h| > 0 && h[0].key != key {
      IncrementSpec(h[1..], key);
      assert Increment(h, key)[1..] == Increment(h[1..], key);
    } else if |h| > 0 {
      assert Increment(h, key)[1..] == h[1..];
    }
  }

  /** The counts of `keys`, built one increment at a time in order. */
  function Tally(keys: seq<Value>): Histogram {
    if |keys| == 0 then [] else Increment(Tally(keys[..|keys| - 1]), keys[|keys| - 1])
  }

  /** A tally counts each key as often as it occurs, keeps its keys distinct
      and its counts sum to the number of keys. */
  lemma {:induction false} TallyCounts(keys: seq<Value>)
    ensures forall k :: Lookup(Tally(keys), k) == multiset(keys)[k]
    ensures DistinctKeys(Tally(keys))
    ensures Total(Tally(keys)) == |keys|
    decreases |keys|
  {
    if |keys| > 0 {
      var init := keys[..|keys| - 1];
      var last := keys[|keys| - 1];
      var h := Tally(init);
      assert Tally(keys) == Increment(h, last);
      TallyCounts(init);
      IncrementSpec(h, last);
      assert keys == init + [last];
      assert multiset(keys) == multiset(init) + multiset{last};
    } else {
      forall k ensures Lookup(Tally(keys), k) == multiset(keys)[k] { }
    }
  }

  /** A tally holds exactly the keys that occur. */
  lemma {:induction false} TallyKeys(keys: seq<Value>)
    ensures Keys(Tally(keys)) == set k | k in keys
    decreases |keys|
  {
    if |keys| > 0 {
      var init := keys[..|keys| - 1];
      var last := keys[|keys| - 1];
      var h := Tally(init);
      assert Tally(keys) == Increment(h, last);
      TallyKeys(init);
      TallyCounts(init);
      IncrementSpec(h, last);
      assert keys == init + [last];
      assert (set k | k in keys) == (set k | k in init) + {last};
    }
  }

  /** A tally counts each key as often as it occurs, holds exactly the keys that
      occur, once each, and its counts sum to the number of keys. */
  lemma TallySpec(keys: seq<Value>)
    ensures forall k :: Lookup(Tally(keys), k) == multiset(keys)[k]
    ensures Keys(Tally(keys)) == set k | k in keys
    ensures DistinctKeys(Tally(keys))
    ensures Total(Tally(keys)) == |keys|
  {
    TallyCounts(keys);
    TallyKeys(keys);
  }

  /** `metadata.get('file_type', 'unknown')` */
  function FileTypeOf(md: Metadata): Value {
    Get(md, "file_type", Str("unknown"))
  }

  /** `metadata.get('priority', 'normal')` */
  function PriorityOf(md: Metadata): Value {
    Get(md, "priority", Str("normal"))
  }

  function FileTypes(mds: seq<Metadata>): (vs: seq<Value>)
    ensures |vs| == |mds|
  {
    seq(|mds|, i requires 0 <= i < |mds| => FileTypeOf(mds[i]))
  }

  function Priorities(mds: seq<Metadata>): (vs: seq<Value>)
    ensures |vs| == |mds|
  {
    seq(|mds|, i requires 0 <= i < |mds| => PriorityOf(mds[i]))
  }

  /** The statistics dictionary; a failed store call yields only its message. */
  datatype Stats =
    | Stats(totalChunks: nat, fileTypes: Option<Histogram>, priorities: Option<Histogram>,
            collectionName: string, embeddingModel: string)
    | StatsError(error: string)

  /** The number of records sampled for the histograms. */
  function SampleLimit(count: nat): nat {
    Min(10, count)
  }

  /** The statistics for the store's answers. */
  function CollectionStats(name: string, model: string, store: Store): Stats {
    match store.count
    case Err(e) => StatsError(e)
    case Ok(n) =>
      if n > 0 then
        match store.sample(SampleLimit(n))
        case Err(e) => StatsError(e)
        case Ok(mds) => Stats(n, Some(Tally(FileTypes(mds))), Some(Tally(Priorities(mds))), name, model)
      else Stats(0, None, None, name, model)
  }

  /** An empty collection reports no histograms; otherwise both histograms count
      every sampled record once, under its file type or priority (with the
      defaults for a missing field), so each sums to the sample size. */
  lemma CollectionStatsSpec(name: string, model: string, store: Store)
    ensures store.count == Ok(0) ==> CollectionStats(name, model, store) == Stats(0, None, None, name, model)
    ensures store.count.Ok? && store.count.value > 0 && store.sample(SampleLimit(store.count.value)).Ok? ==>
      var mds := store.sample(SampleLimit(store.count.value)).value;
      var s := CollectionStats(name, model, store);
      s.Stats? && s.totalChunks == store.count.value &&
      s.fileTypes.Some? && s.priorities.Some? &&
      Total(s.fileTypes.value) == |mds| && Total(s.priorities.value) == |mds| &&
      (forall k :: Lookup(s.fileTypes.value, k) == multiset(FileTypes(mds))[k]) &&
      (forall k :: Lookup(s.priorities.value, k) == multiset(Priorities(mds))[k])
  {
    if store.count.Ok? && store.count.value > 0 && store.sample(SampleLimit(store.count.value)).Ok? {
      var mds := store.sample(SampleLimit(store.count.value)).value;
      TallySpec(FileTypes(mds));
      TallySpec(Priorities(mds));
    }
  }

  /** When the store honours the sample limit, at most ten records, and never
      more than the collection holds, are tallied. */
  lemma SampleBounded(name: string, model: string, store: Store)
    requires store.count.Ok? && store.count.value > 0
    requires store.sample(SampleLimit(store.count.value)).Ok?
    requires |store.sample(SampleLimit(store.count.value)).value| <= SampleLimit(store.count.value)
    ensures var s := CollectionStats(name, model, store);
      s.Stats? && Total(s.fileTypes.value) <= 10 && Total(s.fileTypes.value) <= store.count.value
  {
    CollectionStatsSpec(name, model, store);
  }

  // ---------------------------------------------------------------------------
  // Deletion
  // ---------------------------------------------------------------------------

  /** The count reported for a deletion: the number of matched ids, or zero when
      nothing matched or when either store call failed. */
  function DeletedCount(lookup: Result<seq<string>>, deleteError: Option<string>): (n: nat)
    ensures n > 0 <==> lookup.Ok? && |lookup.value| > 0 && deleteError.None?
    ensures n > 0 ==> n == |lookup.value|
  {
    match lookup
    case Err(_) => 0
    case Ok(ids) => if |ids| > 0 && deleteError.None? then |ids| else 0
  }

  // ---------------------------------------------------------------------------
  // The indexer
  // ---------------------------------------------------------------------------

  /** The indexer: its collection's name, the embedding model it reports, the
      encoder and the log of requests it has sent to its collection. */
  class EmbeddingIndexer {
    const collectionName: string
    const embeddingModelName: string
    const encode: Encoder
    var sent: seq<Request>

    /** OpenAI embeddings are used only when asked for and given a non-empty key;
        `encode` is the batch embedding call as `embed_batch` then behaves. */
    constructor (embeddingModel: string, collectionName: string, useOpenai: bool,
                 openaiApiKey: Option<string>, openaiEncode: Encoder, localEncode: Encoder)
      ensures this.embeddingModelName == (if useOpenai && Given(openaiApiKey) then OpenAIEmbeddingModel else embeddingModel)
      ensures this.encode == BatchEncoder(useOpenai, Given(openaiApiKey), openaiEncode, localEncode)
      ensures this.collectionName == collectionName
      ensures sent == []
    {
      this.collectionName := collectionName;
      this.encode := BatchEncoder(useOpenai, Given(openaiApiKey), openaiEncode, localEncode);
      if useOpenai && Given(openaiApiKey) {
        this.embeddingModelName := OpenAIEmbeddingModel;
      } else {
        this.embeddingModelName := embeddingModel;
      }
      sent := [];
    }

    /** The metadata records of a batch, one per chunk, in order. */
    method BatchMetadatas(batch: seq<DocumentChunk>) returns (mds: seq<Metadata>)
      ensures mds == Metadatas(batch)
    {
      mds := [];
      for j := 0 to |batch|
        invariant |mds| == j
        invariant forall k :: 0 <= k < j ==> mds[k] == StoreMetadata(batch[k])
      {
        var md := BuildMetadata(batch[j]);
        mds := mds + [md];
      }
    }

    /** Embeds one batch and sends its add request; the exception raised, if any. */
    method AddBatch(store: Store, batch: seq<DocumentChunk>) returns (error: Option<string>)
      modifies this
      ensures error == BatchError(encode, store, batch)
      ensures sent == old(sent) + BatchRequests(encode, batch)
    {
      var chunkIds := seq(|batch|, j requires 0 <= j < |batch| => batch[j].chunkId);
      var texts := seq(|batch|, j requires 0 <= j < |batch| => batch[j].chunkText);
      var embeddings := encode(texts);
      if embeddings.Err? {
        return Some(embeddings.error);
      }
      var metadatas := BatchMetadatas(batch);
      var request := Add(chunkIds, embeddings.value, texts, metadatas);
      sent := sent + [request];
      return store.addError(request);
    }

    /** Sends one add request per batch and returns the number of chunks sent.
        An empty list sends nothing; a zero batch size fails as `range` does, a
        negative one yields an empty range; the first exception of the encoder or
        the store ends indexing, after the earlier batches were stored. */
    method IndexChunks(store: Store, chunks: seq<DocumentChunk>, batchSize: int) returns (r: Result<nat>)
      modifies this
      ensures |chunks| == 0 ==> r == Ok(0) && sent == old(sent)
      ensures |chunks| > 0 && batchSize == 0 ==> r == Err(ZeroStep) && sent == old(sent)
      ensures |chunks| > 0 && batchSize < 0 ==> r == Ok(0) && sent == old(sent)
      ensures |chunks| > 0 && batchSize > 0 ==>
        r == IndexResult(encode, store, Slices(chunks, batchSize), |chunks|) &&
        sent == old(sent) + SentFor(encode, store, Slices(chunks, batchSize))
    {
      if |chunks| == 0 {
        return Ok(0);
      }
      if batchSize == 0 {
        return Err(ZeroStep);
      }
      if batchSize < 0 {
        return Ok(0);
      }
      r := AddBatches(store, chunks, batchSize);
    }

    /** The batching loop of `IndexChunks` for a positive batch size: one add request
        per slice, in order, until the first exception, which is returned. */
    method AddBatches(store: Store, chunks: seq<DocumentChunk>, batchSize: int) returns (r: Result<nat>)
      requires batchSize > 0
      modifies this
      ensures r == IndexResult(encode, store, Slices(chunks, batchSize), |chunks|)
      ensures sent == old(sent) + SentFor(encode, store, Slices(chunks, batchSize))
    {
      ghost var start := sent;
      var indexedCount := 0;
      var i := 0;
      ghost var done: seq<seq<DocumentChunk>> := [];
      while i < |chunks|
        invariant 0 <= i && indexedCount == Min(i, |chunks|)
        invariant Slices(chunks, batchSize) == done + Slices(chunks[Min(i, |chunks|)..], batchSize)
        invariant forall j :: 0 <= j < |done| ==> BatchError(encode, store, done[j]).None?
        invariant sent == start + Requests(encode, done)
        decreases |chunks| - i
      {
        var batch := chunks[i..Min(i + batchSize, |chunks|)];
        var error := SendSlice(store, chunks, i, batchSize, start, done);
        if error.Some? {
          return Err(error.value);
        }
        done := done + [batch];
        indexedCount := indexedCount + |batch|;
        i := i + batchSize;
      }
      assert chunks[Min(i, |chunks|)..] == [];
      NoFailure(encode, store, done, |chunks|);
      return Ok(indexedCount);
    }

    /** One iteration of the batching loop: sends the slice at `i`, after the slices
        `done`, none of which raised. */
    method SendSlice(store: Store, chunks: seq<DocumentChunk>, i: nat, batchSize: int,
                     ghost start: seq<Request>, ghost done: seq<seq<DocumentChunk>>)
      returns (error: Option<string>)
      requires i < |chunks| && batchSize > 0
      requires Slices(chunks, batchSize) == done + Slices(chunks[i..], batchSize)
      requires forall j :: 0 <= j < |done| ==> BatchError(encode, store, done[j]).None?
      requires sent == start + Requests(encode, done)
      modifies this
      ensures var batch := chunks[i..Min(i + batchSize, |chunks|)];
        error == BatchError(encode, store, batch) &&
        Slices(chunks, batchSize) == (done + [batch]) + Slices(chunks[Min(i + batchSize, |chunks|)..], batchSize) &&
        (error.None? ==> sent == start + Requests(encode, done + [batch])) &&
        (error.Some? ==>
          sent == start + SentFor(encode, store, Slices(chunks, batchSize)) &&
          IndexResult(encode, store, Slices(chunks, batchSize), |chunks|) == Err(error.value))
    {
      var batch := chunks[i..Min(i + batchSize, |chunks|)];
      ghost var batches := Slices(chunks, batchSize);
      NextSlice(chunks, i, batchSize, batches, done);
      ghost var before := sent;
      error := AddBatch(store, batch);
      SentStep(encode, start, before, done, batch);
      if error.Some? {
        FailureAt(encode, store, batches, done, batch, |chunks|);
      }
    }

    /** The collection statistics, tallied with one pass over the sample. */
    method GetCollectionStats(store: Store) returns (s: Stats)
      ensures s == CollectionStats(collectionName, embeddingModelName, store)
    {
      if store.count.Err? {
        return StatsError(store.count.error);
      }
      var count := store.count.value;
      if count > 0 {
        var sample := store.sample(SampleLimit(count));
        if sample.Err? {
          return StatsError(sample.error);
        }
        var mds := sample.value;
        var fileTypes: Histogram := [];
        var priorities: Histogram := [];
        for j := 0 to |mds|
          invariant fileTypes == Tally(FileTypes(mds)[..j])
          invariant priorities == Tally(Priorities(mds)[..j])
        {
          var ft := Get(mds[j], "file_type", Str("unknown"));
          var pr := Get(mds[j], "priority", Str("normal"));
          assert FileTypes(mds)[..j + 1][..j] == FileTypes(mds)[..j];
          assert Priorities(mds)[..j + 1][..j] == Priorities(mds)[..j];
          fileTypes := Increment(fileTypes, ft);
          priorities := Increment(priorities, pr);
        }
        assert FileTypes(mds)[..|mds|] == FileTypes(mds);
        assert Priorities(mds)[..|mds|] == Priorities(mds);
        return Stats(count, Some(fileTypes), Some(priorities), collectionName, embeddingModelName);
      } else {
        return Stats(0, None, None, collectionName, embeddingModelName);
      }
    }

    /** Deletes every record of `filename`: one delete request for the matched
        ids when there are any, and the count of them unless a call failed. */
    method DeleteByFilename(store: Store, filename: string) returns (n: nat)
      modifies this
      ensures n == DeletedCount(store.idsOfFile(filename),
                                if store.idsOfFile(filename).Ok? then store.deleteError(store.idsOfFile(filename).value) else None)
      ensures store.idsOfFile(filename).Ok? && |store.idsOfFile(filename).value| > 0 ==>
        sent == old(sent) + [Delete(store.idsOfFile(filename).value)]
      ensures !(store.idsOfFile(filename).Ok? && |store.idsOfFile(filename).value| > 0) ==>
        sent == old(sent)
    {
      var results := store.idsOfFile(filename);
      if results.Err? {
        return 0;
      }
      if |results.value| > 0 {
        sent := sent + [Delete(results.value)];
        if store.deleteError(results.value).Some? {
          return 0;
        }
        return |results.value|;
      }
      return 0;
    }
  }
}
