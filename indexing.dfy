/** scripts/index_documents.py: loading the chunks into the vector collection in
    batches of 32. The chunks file is given as its parsed contents, or None when it
    is missing; the embedding model is a function parameter; the ChromaDB collection
    is a class recording the `add` calls it receives. */
module Indexing {
  import opened Wrappers
  import opened Strings
  import opened Arith
  import Chunking
  import Rag

  const BatchSize: nat := 32

  /** The arguments of one `collection.add(embeddings=, documents=, metadatas=, ids=)`. */
  datatype AddCall = AddCall(embeddings: seq<Rag.Embedding>, documents: seq<string>,
                             metadatas: seq<Chunking.ChunkMeta>, ids: seq<string>)

  /** One record of the collection. */
  datatype Entry = Entry(id: string, document: string, metadata: Chunking.ChunkMeta, embedding: Rag.Embedding)

  /** The record a chunk becomes. */
  function EntryOf(c: Chunking.Chunk, encode: string -> Rag.Embedding): Entry {
    Entry(c.metadata.chunkId, c.text, c.metadata, encode(c.text))
  }

  /** The records a run of chunks becomes, in order. */
  function EntriesOf(cs: seq<Chunking.Chunk>, encode: string -> Rag.Embedding): (es: seq<Entry>)
    ensures |es| == |cs|
  {
    seq(|cs|, i requires 0 <= i < |cs| => EntryOf(cs[i], encode))
  }

  lemma EntriesOfAppend(a: seq<Chunking.Chunk>, b: seq<Chunking.Chunk>, encode: string -> Rag.Embedding)
    ensures EntriesOf(a + b, encode) == EntriesOf(a, encode) + EntriesOf(b, encode)
  {
  }

  lemma SliceJoin<T>(s: seq<T>, lo: nat, hi: nat)
    requires lo <= hi <= |s|
    ensures s[..lo] + s[lo..hi] == s[..hi]
  {
  }

  /** The four lists of a call have one element per record. */
  predicate Aligned(call: AddCall) {
    |call.embeddings| == |call.documents| == |call.metadatas| == |call.ids|
  }

  predicate AllAligned(calls: seq<AddCall>) {
    forall i :: 0 <= i < |calls| ==> Aligned(calls[i])
  }

  /** The records one call adds, position by position. */
  function Entries(call: AddCall): (es: seq<Entry>)
    requires Aligned(call)
    ensures |es| == |call.ids|
  {
    seq(|call.ids|, i requires 0 <= i < |call.ids| =>
      Entry(call.ids[i], call.documents[i], call.metadatas[i], call.embeddings[i]))
  }

  /** The records a sequence of calls adds, in order. */
  function Content(calls: seq<AddCall>): seq<Entry>
    requires AllAligned(calls)
  {
    if calls == [] then []
    else Content(calls[..|calls| - 1]) + Entries(calls[|calls| - 1])
  }

  /** `chunks[b*32 : b*32 + 32]`, with Python's clamping. */
  function Batch(chunks: seq<Chunking.Chunk>, b: nat): seq<Chunking.Chunk> {
    chunks[Min(b * BatchSize, |chunks|)..Min(b * BatchSize + BatchSize, |chunks|)]
  }

  /** The call made for one batch: texts, their embeddings, the metadata records and
      their `chunk_id`s, position by position. */
  function CallFor(batch: seq<Chunking.Chunk>, encode: string -> Rag.Embedding): (call: AddCall)
    ensures Aligned(call) && |call.ids| == |batch|
    ensures forall i :: 0 <= i < |batch| ==>
      && call.ids[i] == batch[i].metadata.chunkId && call.documents[i] == batch[i].text
      && call.metadatas[i] == batch[i].metadata && call.embeddings[i] == encode(batch[i].text)
    ensures Entries(call) == EntriesOf(batch, encode)
  {
    var texts := seq(|batch|, i requires 0 <= i < |batch| => batch[i].text);
    AddCall(seq(|batch|, i requires 0 <= i < |batch| => encode(texts[i])),
            texts,
            seq(|batch|, i requires 0 <= i < |batch| => batch[i].metadata),
            seq(|batch|, i requires 0 <= i < |batch| => batch[i].metadata.chunkId))
  }

  /** The calls of a whole run: one per batch, `(n + 31) // 32` of them. */
  function Calls(chunks: seq<Chunking.Chunk>, encode: string -> Rag.Embedding): (calls: seq<AddCall>)
    ensures |calls| == CeilDiv(|chunks|, BatchSize)
    ensures AllAligned(calls)
  {
    seq(CeilDiv(|chunks|, BatchSize), b requires 0 <= b < CeilDiv(|chunks|, BatchSize) => CallFor(Batch(chunks, b), encode))
  }

  /** The collection `student_documents`: whether it exists, and the calls it has
      received since it was created. */
  class VectorStore {
    var present: bool
    var calls: seq<AddCall>

    constructor (present: bool, calls: seq<AddCall>)
      ensures this.present == present && this.calls == calls
    {
      this.present := present;
      this.calls := calls;
    }

    /** `client.delete_collection(...)` inside `try/except: pass`: afterwards there is
        no collection, whether or not there was one. */
    method DeleteCollection()
      modifies this
      ensures !present && calls == []
    {
      present := false;
      calls := [];
    }

    /** `client.create_collection(...)`: a new, empty collection; it fails when one
        already exists. */
    method CreateCollection() returns (created: bool)
      modifies this
      ensures created <==> !old(present)
      ensures created ==> present && calls == []
      ensures !created ==> present == old(present) && calls == old(calls)
    {
      if present {
        return false;
      }
      present := true;
      calls := [];
      created := true;
    }

    /** `collection.add(...)`. */
    method Add(call: AddCall)
      modifies this
      requires present
      ensures present && calls == old(calls) + [call]
    {
      calls := calls + [call];
    }
  }

  /** `index_documents`, lines 40-116. A missing chunks file returns false and touches
      nothing. Otherwise the collection is recreated and receives one `add` per batch
      of 32 consecutive chunks; the loop runs `total_batches` times. */
  method IndexDocuments(chunksFile: Option<seq<Chunking.Chunk>>, encode: string -> Rag.Embedding, store: VectorStore)
    returns (ok: bool)
    modifies store
    ensures chunksFile.None? ==> !ok && store.present == old(store.present) && store.calls == old(store.calls)
    ensures chunksFile.Some? ==> ok && store.present && store.calls == Calls(chunksFile.value, encode)
    ensures chunksFile.Some? ==> AllAligned(store.calls) && Content(store.calls) == EntriesOf(chunksFile.value, encode)
  {
    if chunksFile.None? {
      return false;
    }
    var chunks := chunksFile.value;
    store.DeleteCollection();
    var _ := store.CreateCollection();
    var batchSize := BatchSize;
    var totalBatches := (|chunks| + batchSize - 1) / batchSize;
    var batchIdx := 0;
    while batchIdx < |chunks|
      invariant store.present
      invariant batchIdx == |store.calls| * batchSize
      invariant |store.calls| == 0 || (|store.calls| - 1) * batchSize < |chunks|
      invariant forall b :: 0 <= b < |store.calls| ==> store.calls[b] == CallFor(Batch(chunks, b), encode)
      decreases |chunks| - batchIdx
    {
      var batchChunks := chunks[batchIdx..Min(batchIdx + batchSize, |chunks|)];
      assert batchChunks == Batch(chunks, |store.calls|);
      var texts := seq(|batchChunks|, i requires 0 <= i < |batchChunks| => batchChunks[i].text);
      var embeddings := seq(|texts|, i requires 0 <= i < |texts| => encode(texts[i]));
      var ids := seq(|batchChunks|, i requires 0 <= i < |batchChunks| => batchChunks[i].metadata.chunkId);
      var metadatas := seq(|batchChunks|, i requires 0 <= i < |batchChunks| => batchChunks[i].metadata);
      store.Add(AddCall(embeddings, texts, metadatas, ids));
      MulSucc(|store.calls| - 1, batchSize);
      batchIdx := batchIdx + batchSize;
    }
    CeilDivSteps(|store.calls|, |chunks|, batchSize);
    assert |store.calls| == totalBatches;
    RunContent(chunks, encode);
    ok := true;
  }

  /** Batch `b` of a run holds between 1 and 32 chunks, those from index `32 b` on. */
  lemma BatchBounds(chunks: seq<Chunking.Chunk>, b: nat)
    requires b < CeilDiv(|chunks|, BatchSize)
    ensures b * BatchSize < |chunks|
    ensures Batch(chunks, b) == chunks[b * BatchSize..Min(b * BatchSize + BatchSize, |chunks|)]
    ensures 1 <= |Batch(chunks, b)| <= BatchSize
  {
    var n := |chunks|;
    var c := CeilDiv(n, BatchSize);
    var r := (n + BatchSize - 1) % BatchSize;
    assert n + BatchSize - 1 == c * BatchSize + r;
    MulSucc(c - 1, BatchSize);
    MulLessEq(b, c - 1, BatchSize);
  }

  lemma MulLessEq(a: nat, b: nat, k: nat)
    requires a <= b
    ensures a * k <= b * k
  {
  }

  lemma ContentAppend(calls: seq<AddCall>, k: nat)
    requires AllAligned(calls) && k < |calls|
    ensures AllAligned(calls[..k]) && AllAligned(calls[..k + 1])
    ensures Content(calls[..k + 1]) == Content(calls[..k]) + Entries(calls[k])
  {
    assert calls[..k + 1][..k] == calls[..k];
  }

  /** After the first `k` calls the collection holds the records of the first
      `min(32 k, n)` chunks, in order. */
  lemma {:induction false} ContentPrefix(chunks: seq<Chunking.Chunk>, encode: string -> Rag.Embedding, k: nat)
    requires k <= CeilDiv(|chunks|, BatchSize)
    ensures AllAligned(Calls(chunks, encode)[..k])
    ensures Content(Calls(chunks, encode)[..k]) == EntriesOf(chunks[..Min(k * BatchSize, |chunks|)], encode)
  {
    var calls := Calls(chunks, encode);
    if k == 0 {
      assert calls[..0] == [];
      assert chunks[..0] == [];
    } else {
      ContentPrefix(chunks, encode, k - 1);
      ContentAppend(calls, k - 1);
      BatchBounds(chunks, k - 1);
      MulSucc(k - 1, BatchSize);
      var lo := (k - 1) * BatchSize;
      var hi := Min(k * BatchSize, |chunks|);
      var batch := Batch(chunks, k - 1);
      assert batch == chunks[lo..hi];
      SliceJoin(chunks, lo, hi);
      EntriesOfAppend(chunks[..lo], batch, encode);
    }
  }

  /** A complete run leaves in the collection exactly one record per chunk, in chunk
      order, with the chunk's id, text and metadata. */
  lemma RunContent(chunks: seq<Chunking.Chunk>, encode: string -> Rag.Embedding)
    ensures Content(Calls(chunks, encode)) == EntriesOf(chunks, encode)
  {
    var calls := Calls(chunks, encode);
    var c := |calls|;
    ContentPrefix(chunks, encode, c);
    assert calls[..c] == calls;
    if c > 0 {
      DivBelowCeil(|chunks| - 1, |chunks|, BatchSize);
      CeilDivBound(|chunks|);
    }
  }

  lemma CeilDivBound(n: nat)
    ensures n <= CeilDiv(n, BatchSize) * BatchSize
  {
    var q := (n + BatchSize - 1) / BatchSize;
    var r := (n + BatchSize - 1) % BatchSize;
    assert n + BatchSize - 1 == q * BatchSize + r;
  }
}
