/** The list logic of `vector_db.py`: normalising and batching texts for
    embedding, halving a batch the embedding service rejects as too large,
    and merging cached embeddings with freshly computed ones. The embedding
    services, the cache store and the tokenizer are arbitrary functions. */
module VectorDb {
  import opened Wrappers
  import opened PyStr

  /** An embedding vector (its numbers are never inspected here). */
  type Embedding = seq<real>

  /** The exception classes the code tells apart. */
  datatype ErrorKind = InvalidRequest | ClientFailure | Timeout | OtherFailure

  /** An exception raised by an embedding service, with its `str`. */
  datatype ServiceError = ServiceError(kind: ErrorKind, message: string)

  /** The ways the modelled functions fail: a service exception that is
      re-raised, `range` with step 0, reading `new_embeddings` after a
      swallowed timeout left it unbound, and the failed length `assert`. */
  datatype EmbedError =
    | Raised(error: ServiceError)
    | ZeroStep
    | UnboundEmbeddings
    | CountMismatch

  const MaxTextLength := 25000
  const MaxTokens := 8192
  const TokenLimitMessage := "Please lower the number of tokens in the batch."

  // ---------------------------------------------------------------------
  // Normalising and batching texts
  // ---------------------------------------------------------------------

  /** An empty text is replaced by a single space. */
  function Blank(text: string): (r: string)
    ensures |r| > 0
    ensures text != [] ==> r == text
  {
    if text == [] then " " else text
  }

  /** A text as `chunk` passes it on: cut to its first 25000 characters, an
      empty one replaced by a single space. */
  function Normalised(text: string): (r: string)
    ensures 0 < |r| <= MaxTextLength
    ensures text != [] ==> r == text[..Min(|text|, MaxTextLength)]
    ensures text == [] ==> r == " "
  {
    Blank(if |text| > MaxTextLength then text[..MaxTextLength] else text)
  }

  function NormalisedAll(texts: seq<string>): (r: seq<string>)
    ensures |r| == |texts|
  {
    seq(|texts|, k requires 0 <= k < |texts| => Normalised(texts[k]))
  }

  function BlankAll(texts: seq<string>): (r: seq<string>)
    ensures |r| == |texts|
  {
    seq(|texts|, k requires 0 <= k < |texts| => Blank(texts[k]))
  }

  /** The number of elements of `range(0, n, size)`: the ceiling of n / size. */
  function Ceil(n: nat, size: nat): (c: nat)
    requires size > 0
    ensures n <= c * size
    ensures c > 0 ==> (c - 1) * size < n
    decreases n
  {
    if n == 0 then 0
    else
      var c' := Ceil(if n >= size then n - size else 0, size);
      assert (1 + c') * size == size + c' * size;
      1 + c'
  }

  /** The batches `chunk` yields starting at position `i`. */
  function ChunkFrom<T>(texts: seq<T>, size: nat, i: nat): seq<seq<T>>
    requires size > 0
    decreases |texts| - i
  {
    if i >= |texts| then []
    else [if i + size < |texts| then texts[i..i + size] else texts[i..]] + ChunkFrom(texts, size, i + size)
  }

  /** `chunk(texts, batch_size)`, taken to the end: a zero step raises, a
      negative one yields nothing. */
  function Chunk(texts: seq<string>, batchSize: int): Result<seq<seq<string>>, EmbedError>
  {
    if batchSize == 0 then Err(ZeroStep)
    else if batchSize < 0 then Ok([])
    else Ok(ChunkFrom(NormalisedAll(texts), batchSize, 0))
  }

  /** The slices `[texts[i : i + size] for i in range(0, len(texts), size)]`. */
  function Slices<T>(texts: seq<T>, size: nat): (r: seq<seq<T>>)
    requires size > 0
    ensures |r| == Ceil(|texts|, size)
  {
    seq(Ceil(|texts|, size), k requires 0 <= k < Ceil(|texts|, size) => Slice(texts, k * size, k * size + size))
  }

  /** The `batches` of `embed_text_array` for a `BATCH_SIZE` of `batchSize`. */
  function EmbedBatches(texts: seq<string>, batchSize: int): Result<seq<seq<string>>, EmbedError>
  {
    if batchSize == 0 then Err(ZeroStep)
    else if batchSize < 0 then Ok([])
    else Ok(Slices(BlankAll(texts), batchSize))
  }

  function Flatten<T>(parts: seq<seq<T>>): seq<T>
  {
    if parts == [] then [] else parts[0] + Flatten(parts[1..])
  }

  /** The batches concatenate back to the list they were cut from. */
  lemma {:induction false} ChunkFromFlatten<T>(texts: seq<T>, size: nat, i: nat)
    requires size > 0 && i <= |texts|
    ensures Flatten(ChunkFrom(texts, size, i)) == texts[i..]
    decreases |texts| - i
  {
    if i < |texts| {
      if i + size < |texts| {
        ChunkFromFlatten(texts, size, i + size);
        FlattenStep(texts, size, i);
      } else {
        assert ChunkFrom(texts, size, i) == [texts[i..]];
        FlattenCons(texts[i..], []);
      }
    }
  }

  lemma FlattenStep<T>(texts: seq<T>, size: nat, i: nat)
    requires size > 0 && i + size < |texts|
    requires Flatten(ChunkFrom(texts, size, i + size)) == texts[i + size..]
    ensures Flatten(ChunkFrom(texts, size, i)) == texts[i..]
  {
    var piece := texts[i..i + size];
    var rest := ChunkFrom(texts, size, i + size);
    assert ChunkFrom(texts, size, i) == [piece] + rest;
    FlattenCons(piece, rest);
    assert texts[i..] == piece + texts[i + size..];
  }

  lemma FlattenCons<T>(head: seq<T>, rest: seq<seq<T>>)
    ensures Flatten([head] + rest) == head + Flatten(rest)
  {
    assert ([head] + rest)[1..] == rest;
  }

  /** There are ceil((n - i) / size) batches. */
  lemma {:induction false} ChunkFromCount<T>(texts: seq<T>, size: nat, i: nat)
    requires size > 0 && i <= |texts|
    ensures |ChunkFrom(texts, size, i)| == Ceil(|texts| - i, size)
    decreases |texts| - i
  {
    if i < |texts| && i + size < |texts| {
      ChunkFromCount(texts, size, i + size);
    }
  }

  /** The start of the k-th batch from position `i`, one step at a time. */
  function BatchStart(i: nat, size: nat, k: nat): nat
    decreases k
  {
    if k == 0 then i else BatchStart(i + size, size, k - 1)
  }

  lemma {:induction false} BatchStartIs(i: nat, size: nat, k: nat)
    ensures BatchStart(i, size, k) == i + k * size
    decreases k
  {
    if k > 0 {
      BatchStartIs(i + size, size, k - 1);
      assert i + size + (k - 1) * size == i + k * size;
    }
  }

  /** The k-th batch is the slice starting at the k-th step. */
  lemma {:induction false} ChunkFromAt<T>(texts: seq<T>, size: nat, i: nat, k: nat)
    requires size > 0 && k < |ChunkFrom(texts, size, i)|
    ensures ChunkFrom(texts, size, i)[k] == Slice(texts, BatchStart(i, size, k), BatchStart(i, size, k) + size)
    decreases k
  {
    if k > 0 {
      ChunkFromAt(texts, size, i + size, k - 1);
    }
  }

  /** Every batch holds between 1 and `size` texts, and all but the last hold
      exactly `size`. */
  lemma {:induction false} ChunkFromSizes<T>(texts: seq<T>, size: nat, i: nat)
    requires size > 0
    ensures forall k :: 0 <= k < |ChunkFrom(texts, size, i)| ==>
      1 <= |ChunkFrom(texts, size, i)[k]| <= size
    ensures forall k :: 0 <= k < |ChunkFrom(texts, size, i)| - 1 ==>
      |ChunkFrom(texts, size, i)[k]| == size
    decreases |texts| - i
  {
    if i < |texts| {
      var r := ChunkFrom(texts, size, i);
      var rest := ChunkFrom(texts, size, i + size);
      assert r[1..] == rest;
      ChunkFromSizes(texts, size, i + size);
      if i + size >= |texts| {
        assert rest == [];
      }
      forall k | 0 <= k < |r|
        ensures 1 <= |r[k]| <= size
        ensures k < |r| - 1 ==> |r[k]| == size
      {
        if k > 0 {
          assert r[k] == rest[k - 1];
        }
      }
    }
  }

  /** Every text `chunk` yields is non-empty and at most 25000 characters long. */
  lemma ChunkTexts(texts: seq<string>, batchSize: int)
    requires Chunk(texts, batchSize).Ok?
    ensures forall b, t :: b in Chunk(texts, batchSize).value && t in b ==> 0 < |t| <= MaxTextLength
  {
    if batchSize > 0 {
      var normal := NormalisedAll(texts);
      forall b, t | b in Chunk(texts, batchSize).value && t in b
        ensures 0 < |t| <= MaxTextLength
      {
        var k :| 0 <= k < |ChunkFrom(normal, batchSize, 0)| && ChunkFrom(normal, batchSize, 0)[k] == b;
        ChunkFromFlatten(normal, batchSize, 0);
        FlattenMember(ChunkFrom(normal, batchSize, 0), k, t);
      }
    }
  }

  lemma {:induction false} FlattenMember<T>(parts: seq<seq<T>>, k: nat, x: T)
    requires k < |parts| && x in parts[k]
    ensures x in Flatten(parts)
  {
    if k > 0 {
      FlattenMember(parts[1..], k - 1, x);
    }
  }

  /** `chunk` with a positive batch size: the batches concatenate to the
      normalised texts, there are ceil(n / batch_size) of them, and each holds
      between 1 and `batch_size` texts, all but the last exactly `batch_size`. */
  lemma ChunkBatches(texts: seq<string>, batchSize: int)
    requires batchSize > 0
    ensures Chunk(texts, batchSize).Ok?
    ensures var bs := Chunk(texts, batchSize).value;
      Flatten(bs) == NormalisedAll(texts)
      && |bs| == Ceil(|texts|, batchSize)
      && (forall k :: 0 <= k < |bs| ==> 1 <= |bs[k]| <= batchSize)
      && (forall k :: 0 <= k < |bs| - 1 ==> |bs[k]| == batchSize)
  {
    var normal := NormalisedAll(texts);
    ChunkFromFlatten(normal, batchSize, 0);
    ChunkFromCount(normal, batchSize, 0);
    ChunkFromSizes(normal, batchSize, 0);
  }

  /** `chunk`'s two slice forms cut the same batches as `embed_text_array`'s
      comprehension. */
  lemma ChunkIsSlices<T>(texts: seq<T>, size: nat)
    requires size > 0
    ensures ChunkFrom(texts, size, 0) == Slices(texts, size)
  {
    ChunkFromCount(texts, size, 0);
    forall k | 0 <= k < |Slices(texts, size)|
      ensures ChunkFrom(texts, size, 0)[k] == Slices(texts, size)[k]
    {
      ChunkFromAt(texts, size, 0, k);
      BatchStartIs(0, size, k);
    }
  }

  /** `embed_text_array` cuts its blank-filled texts into ceil(n / BATCH_SIZE)
      contiguous batches that cover them in order, each holding between 1 and
      `BATCH_SIZE` texts, all but the last exactly `BATCH_SIZE`. */
  lemma EmbedBatchesCover(texts: seq<string>, batchSize: int)
    requires batchSize > 0
    ensures EmbedBatches(texts, batchSize).Ok?
    ensures var bs := EmbedBatches(texts, batchSize).value;
      Flatten(bs) == BlankAll(texts)
      && |bs| == Ceil(|texts|, batchSize)
      && (forall k :: 0 <= k < |bs| ==> 1 <= |bs[k]| <= batchSize)
      && (forall k :: 0 <= k < |bs| - 1 ==> |bs[k]| == batchSize)
  {
    var blank := BlankAll(texts);
    ChunkIsSlices(blank, batchSize);
    ChunkFromFlatten(blank, batchSize, 0);
    ChunkFromSizes(blank, batchSize, 0);
  }

  // ---------------------------------------------------------------------
  // Halving a rejected batch
  // ---------------------------------------------------------------------

  /** `openai_call_embedding_router`: an empty batch is answered without a call. */
  function Route(service: seq<string> -> Result<seq<Embedding>, ServiceError>, batch: seq<string>): Result<seq<Embedding>, ServiceError>
  {
    if batch == [] then Ok([]) else service(batch)
  }

  /** The service rejected the batch as too many tokens, and it can be split. */
  predicate Splittable(e: ServiceError, size: nat)
  {
    (e.kind == InvalidRequest || e.kind == ClientFailure) && size > 1 && Contains(e.message, TokenLimitMessage)
  }

  /** `openai_call_embedding`: on a token-limit rejection of two or more texts,
      embed each half and concatenate; any other error is re-raised. */
  function CallEmbedding(service: seq<string> -> Result<seq<Embedding>, ServiceError>, batch: seq<string>): (r: Result<seq<Embedding>, ServiceError>)
    ensures batch == [] ==> r == Ok([])
    decreases |batch|
  {
    match Route(service, batch)
    case Ok(embeddings) => Ok(embeddings)
    case Err(e) =>
      if Splittable(e, |batch|) then
        var mid := |batch| / 2;
        match CallEmbedding(service, batch[..mid])
        case Err(left) => Err(left)
        case Ok(left) =>
          match CallEmbedding(service, batch[mid..])
          case Err(right) => Err(right)
          case Ok(right) => Ok(left + right)
      else Err(e)
  }

  /** The per-text embeddings of a batch, in order. */
  function PerText(embed: string -> Embedding, batch: seq<string>): (r: seq<Embedding>)
    ensures |r| == |batch|
  {
    seq(|batch|, k requires 0 <= k < |batch| => embed(batch[k]))
  }

  /** Whenever the service answers, it answers with each text's embedding in order. */
  ghost predicate Faithful(service: seq<string> -> Result<seq<Embedding>, ServiceError>, embed: string -> Embedding)
  {
    forall b :: service(b).Ok? ==> service(b).value == PerText(embed, b)
  }

  /** Halving keeps the order: a successful result is the per-text embedding of
      the whole batch. */
  lemma {:induction false} HalvingKeepsOrder(service: seq<string> -> Result<seq<Embedding>, ServiceError>, embed: string -> Embedding, batch: seq<string>)
    requires Faithful(service, embed)
    ensures CallEmbedding(service, batch).Ok? ==> CallEmbedding(service, batch).value == PerText(embed, batch)
    decreases |batch|
  {
    if batch != [] && service(batch).Err? && Splittable(service(batch).error, |batch|) {
      var mid := |batch| / 2;
      HalvingKeepsOrder(service, embed, batch[..mid]);
      HalvingKeepsOrder(service, embed, batch[mid..]);
      assert batch == batch[..mid] + batch[mid..];
    }
  }

  /** A service that embeds every single text and rejects only with the token
      limit makes halving succeed on every batch. */
  lemma {:induction false} HalvingSucceeds(service: seq<string> -> Result<seq<Embedding>, ServiceError>, batch: seq<string>)
    requires forall t :: service([t]).Ok?
    requires forall b :: |b| > 1 && service(b).Err? ==> Splittable(service(b).error, |b|)
    ensures CallEmbedding(service, batch).Ok?
    decreases |batch|
  {
    if |batch| == 1 {
      assert batch == [batch[0]];
    } else if |batch| > 1 && service(batch).Err? {
      var mid := |batch| / 2;
      HalvingSucceeds(service, batch[..mid]);
      HalvingSucceeds(service, batch[mid..]);
    }
  }

  /** A failure is always an error the service itself raised on some non-empty
      part of the batch, and is one halving does not handle. */
  lemma {:induction false} HalvingErrors(service: seq<string> -> Result<seq<Embedding>, ServiceError>, batch: seq<string>)
    requires CallEmbedding(service, batch).Err?
    ensures exists i, j :: (0 <= i < j <= |batch| && service(batch[i..j]) == Err(CallEmbedding(service, batch).error)
      && !Splittable(CallEmbedding(service, batch).error, j - i))
    decreases |batch|
  {
    var e := CallEmbedding(service, batch).error;
    if !(service(batch).Err? && Splittable(service(batch).error, |batch|)) {
      assert batch[0..|batch|] == batch;
    } else {
      var mid := |batch| / 2;
      if CallEmbedding(service, batch[..mid]).Err? {
        HalvingErrors(service, batch[..mid]);
        assert 0 <= mid <= |batch| && |batch[..mid]| == mid;
        var i, j :| 0 <= i < j <= mid && service(batch[..mid][i..j]) == Err(e) && !Splittable(e, j - i);
        assert batch[..mid][i..j] == batch[i..j];
      } else {
        HalvingErrors(service, batch[mid..]);
        var i, j :| 0 <= i < j <= |batch| - mid && service(batch[mid..][i..j]) == Err(e) && !Splittable(e, j - i);
        assert batch[mid..][i..j] == batch[mid + i..mid + j];
      }
    }
  }

  // ---------------------------------------------------------------------
  // Merging cached and fresh embeddings
  // ---------------------------------------------------------------------

  /** One value of the cache's `mget` reply: missing or empty (falsy), an
      embedding, or a value `json.loads` rejects. */
  datatype CacheValue = Miss | Hit(embedding: Embedding) | Malformed

  /** What `openai_with_expo_backoff` consults: the embedding service, whether
      a cache client exists, the cache's reply for a batch (`None` when `mget`
      raises), and the tokenizer's count and truncation. */
  datatype Embedder = Embedder(
    service: seq<string> -> Result<seq<Embedding>, ServiceError>,
    hasCache: bool,
    lookup: seq<string> -> Option<seq<CacheValue>>,
    countTokens: string -> nat,
    truncate: string -> string)

  type Slots = seq<Option<Embedding>>

  /** The fill loop over the cache reply from position `i` on: a hit fills its
      slot, a miss is skipped; a malformed value, or a hit past the end of the
      slots, raises and ends the loop. */
  function FillFrom(slots: Slots, reply: seq<CacheValue>, i: nat): (r: Slots)
    ensures |r| == |slots|
    decreases |reply| - i
  {
    if i >= |reply| then slots
    else match reply[i]
      case Miss => FillFrom(slots, reply, i + 1)
      case Hit(e) => if i < |slots| then FillFrom(slots[i := Some(e)], reply, i + 1) else slots
      case Malformed => slots
  }

  /** The position at which the fill loop stops, from position `i` on. */
  function StopFrom(reply: seq<CacheValue>, n: nat, i: nat): (k: nat)
    requires i <= |reply|
    ensures i <= k <= |reply|
    decreases |reply| - i
  {
    if i == |reply| then i
    else if reply[i].Malformed? || (reply[i].Hit? && i >= n) then i
    else StopFrom(reply, n, i + 1)
  }

  /** The slots after the fill loop: every position before the loop stopped
      that the cache has a value for holds it, every other is still `None`. */
  lemma {:induction false} FillFromIs(slots: Slots, reply: seq<CacheValue>, i: nat)
    requires i <= |reply|
    ensures forall j :: 0 <= j < |slots| ==>
      FillFrom(slots, reply, i)[j]
        == (if i <= j < StopFrom(reply, |slots|, i) && reply[j].Hit? then Some(reply[j].embedding) else slots[j])
    decreases |reply| - i
  {
    if i < |reply| && reply[i].Miss? {
      FillFromIs(slots, reply, i + 1);
    } else if i < |reply| && reply[i].Hit? && i < |slots| {
      FillFromIs(slots[i := Some(reply[i].embedding)], reply, i + 1);
    }
  }

  /** `embeddings` after the cache lookup. */
  function Cached(n: nat, reply: Option<seq<CacheValue>>): (r: Slots)
    ensures |r| == n
  {
    var empty := seq(n, _ => None);
    if reply.None? then empty else FillFrom(empty, reply.value, 0)
  }

  /** A slot is filled exactly when the cache answered, the loop had not stopped
      by then, and the cache has an embedding for it; it then holds that one. */
  lemma CachedSlots(n: nat, reply: Option<seq<CacheValue>>)
    ensures forall j :: 0 <= j < n ==>
      Cached(n, reply)[j]
        == (if reply.Some? && j < StopFrom(reply.value, n, 0) && reply.value[j].Hit? then Some(reply.value[j].embedding) else None)
  {
    if reply.Some? {
      FillFromIs(seq(n, _ => None), reply.value, 0);
    }
  }

  /** `indices`: the positions still `None`, in increasing order. */
  function NonePositions(slots: Slots): (r: seq<nat>)
    ensures forall m :: 0 <= m < |r| ==> r[m] < |slots| && slots[r[m]].None?
    ensures forall m, m' :: 0 <= m < m' < |r| ==> r[m] < r[m']
    ensures forall j :: 0 <= j < |slots| && slots[j].None? ==> j in r
  {
    if slots == [] then []
    else
      var last := |slots| - 1;
      NonePositions(slots[..last]) + (if slots[last].None? then [last] else [])
  }

  /** The texts of `batch` whose slot is still `None`, in order. */
  function Uncached(batch: seq<string>, slots: Slots): seq<string>
    requires |batch| == |slots|
  {
    if batch == [] then []
    else
      var last := |batch| - 1;
      Uncached(batch[..last], slots[..last]) + (if slots[last].None? then [batch[last]] else [])
  }

  /** The uncached texts are the texts at the `None` positions, in order. */
  lemma {:induction false} UncachedAtPositions(batch: seq<string>, slots: Slots)
    requires |batch| == |slots|
    ensures |Uncached(batch, slots)| == |NonePositions(slots)|
    ensures forall m :: 0 <= m < |NonePositions(slots)| ==> Uncached(batch, slots)[m] == batch[NonePositions(slots)[m]]
  {
    if batch != [] {
      var last := |batch| - 1;
      UncachedAtPositions(batch[..last], slots[..last]);
    }
  }

  /** The slot-writing loop from its `k`-th step on. */
  function PlaceFrom(slots: Slots, indices: seq<nat>, news: seq<Embedding>, k: nat): (r: Slots)
    requires |indices| == |news|
    requires forall m :: 0 <= m < |indices| ==> indices[m] < |slots|
    ensures |r| == |slots|
    decreases |indices| - k
  {
    if k >= |indices| then slots
    else PlaceFrom(slots[indices[k] := Some(news[k])], indices, news, k + 1)
  }

  /** With increasing positions, the loop leaves the m-th position for m at or
      after step `k` holding the m-th new embedding, and nothing else changed. */
  lemma {:induction false} PlaceFromIs(slots: Slots, indices: seq<nat>, news: seq<Embedding>, k: nat)
    requires k <= |indices| == |news|
    requires forall m :: 0 <= m < |indices| ==> indices[m] < |slots|
    requires forall m, m' :: 0 <= m < m' < |indices| ==> indices[m] < indices[m']
    ensures forall m :: k <= m < |indices| ==> PlaceFrom(slots, indices, news, k)[indices[m]] == Some(news[m])
    ensures forall j :: 0 <= j < |slots| && j !in indices[k..] ==> PlaceFrom(slots, indices, news, k)[j] == slots[j]
    decreases |indices| - k
  {
    if k < |indices| {
      var next := slots[indices[k] := Some(news[k])];
      PlaceFromIs(next, indices, news, k + 1);
      PlaceStep(slots, next, indices, news, k);
    }
  }

  lemma PlaceStep(slots: Slots, next: Slots, indices: seq<nat>, news: seq<Embedding>, k: nat)
    requires k < |indices| == |news|
    requires forall m :: 0 <= m < |indices| ==> indices[m] < |slots|
    requires forall m, m' :: 0 <= m < m' < |indices| ==> indices[m] < indices[m']
    requires next == slots[indices[k] := Some(news[k])]
    requires forall m :: k + 1 <= m < |indices| ==> PlaceFrom(next, indices, news, k + 1)[indices[m]] == Some(news[m])
    requires forall j :: 0 <= j < |next| && j !in indices[k + 1..] ==> PlaceFrom(next, indices, news, k + 1)[j] == next[j]
    ensures forall m :: k <= m < |indices| ==> PlaceFrom(slots, indices, news, k)[indices[m]] == Some(news[m])
    ensures forall j :: 0 <= j < |slots| && j !in indices[k..] ==> PlaceFrom(slots, indices, news, k)[j] == slots[j]
  {
    var placed := PlaceFrom(next, indices, news, k + 1);
    assert PlaceFrom(slots, indices, news, k) == placed;
    assert indices[k] !in indices[k + 1..];
    assert 0 <= indices[k] < |next|;
    assert next[indices[k]] == Some(news[k]);
    assert placed[indices[k]] == next[indices[k]];
    assert placed[indices[k]] == Some(news[k]);
    assert indices[k..] == [indices[k]] + indices[k + 1..];
    forall j | 0 <= j < |slots| && j !in indices[k..]
      ensures placed[j] == slots[j]
    {
      assert j != indices[k] && j !in indices[k + 1..];
      assert placed[j] == next[j];
    }
  }

  /** The embeddings of slots that are all filled. */
  function Values(slots: Slots): (r: seq<Embedding>)
    requires forall j :: 0 <= j < |slots| ==> slots[j].Some?
    ensures |r| == |slots|
  {
    seq(|slots|, j requires 0 <= j < |slots| => slots[j].value)
  }

  /** The k-th `None` slot receives the k-th new embedding, every cached slot
      keeps its embedding, and no slot is left `None`. */
  lemma PlaceNew(slots: Slots, news: seq<Embedding>)
    requires |news| == |NonePositions(slots)|
    ensures var placed := PlaceFrom(slots, NonePositions(slots), news, 0);
      (forall j :: 0 <= j < |slots| ==> placed[j].Some?)
      && (forall m :: 0 <= m < |news| ==> placed[NonePositions(slots)[m]] == Some(news[m]))
      && (forall j :: 0 <= j < |slots| && slots[j].Some? ==> placed[j] == slots[j])
  {
    var indices := NonePositions(slots);
    PlaceFromIs(slots, indices, news, 0);
    assert indices[0..] == indices;
    PlaceNewFills(slots, news);
  }

  lemma PlaceNewFills(slots: Slots, news: seq<Embedding>)
    requires |news| == |NonePositions(slots)|
    ensures forall j :: 0 <= j < |slots| ==> PlaceFrom(slots, NonePositions(slots), news, 0)[j].Some?
  {
    var indices := NonePositions(slots);
    var placed := PlaceFrom(slots, indices, news, 0);
    PlaceFromIs(slots, indices, news, 0);
    assert indices[0..] == indices;
    forall j | 0 <= j < |slots| && slots[j].None?
      ensures placed[j].Some?
    {
      var m :| 0 <= m < |indices| && indices[m] == j;
      assert placed[indices[m]] == Some(news[m]);
    }
  }

  /** The result of `openai_call_embedding` as the outer function sees it. */
  function Lifted(r: Result<seq<Embedding>, ServiceError>): Result<seq<Embedding>, EmbedError>
  {
    match r
    case Ok(v) => Ok(v)
    case Err(e) => Err(Raised(e))
  }

  /** Some uncached text exceeds the token limit. */
  predicate TooLong(env: Embedder, pending: seq<string>)
  {
    exists k :: 0 <= k < |pending| && env.countTokens(pending[k]) > MaxTokens
  }

  /** `[tiktoken_client.truncate_string(text) for text in batch]`. */
  function Truncated(env: Embedder, pending: seq<string>): seq<string>
  {
    seq(|pending|, k requires 0 <= k < |pending| => env.truncate(pending[k]))
  }

  /** `new_embeddings` for the uncached texts: a timeout is swallowed and leaves
      it unbound; any other error is retried once on the truncated texts when
      some text is over the token limit, and re-raised otherwise. */
  function EmbedPending(env: Embedder, pending: seq<string>): Result<seq<Embedding>, EmbedError>
  {
    match CallEmbedding(env.service, pending)
    case Ok(news) => Ok(news)
    case Err(e) =>
      if e.kind == Timeout then Err(UnboundEmbeddings)
      else if TooLong(env, pending) then
        Lifted(CallEmbedding(env.service, Truncated(env, pending)))
      else Err(Raised(e))
  }

  /** `openai_with_expo_backoff` on one batch. */
  function WithBackoff(env: Embedder, batch: seq<string>): Result<seq<Embedding>, EmbedError>
  {
    if !env.hasCache then Lifted(CallEmbedding(env.service, batch))
    else
      var slots := Cached(|batch|, env.lookup(batch));
      var indices := NonePositions(slots);
      if indices == [] then Ok(Values(slots))
      else
        UncachedAtPositions(batch, slots);
        match EmbedPending(env, Uncached(batch, slots))
        case Err(e) => Err(e)
        case Ok(news) =>
          if |indices| != |news| then Err(CountMismatch)
          else
            PlaceNew(slots, news);
            Ok(Values(PlaceFrom(slots, indices, news, 0)))
  }

  /** The loop filling `embeddings` from the cache reply. */
  method FillSlots(slots: array<Option<Embedding>>, reply: seq<CacheValue>)
    modifies slots
    ensures slots[..] == FillFrom(old(slots[..]), reply, 0)
  {
    var i := 0;
    while i < |reply|
      invariant i <= |reply|
      invariant FillFrom(slots[..], reply, i) == FillFrom(old(slots[..]), reply, 0)
      decreases |reply| - i
    {
      match reply[i] {
        case Miss =>
        case Hit(e) =>
          if i >= slots.Length {
            return;
          }
          slots[i] := Some(e);
        case Malformed =>
          return;
      }
      i := i + 1;
    }
  }

  /** The loop writing the new embeddings into the `None` slots. */
  method PlaceSlots(slots: array<Option<Embedding>>, indices: seq<nat>, news: seq<Embedding>)
    requires |indices| == |news|
    requires forall m :: 0 <= m < |indices| ==> indices[m] < slots.Length
    modifies slots
    ensures slots[..] == PlaceFrom(old(slots[..]), indices, news, 0)
  {
    for k := 0 to |indices|
      invariant PlaceFrom(slots[..], indices, news, k) == PlaceFrom(old(slots[..]), indices, news, 0)
    {
      slots[indices[k]] := Some(news[k]);
    }
  }

  /** `openai_with_expo_backoff`: the cache is consulted first, only the uncached
      texts are embedded, and their embeddings are written into the empty slots. */
  method EmbedWithBackoff(env: Embedder, batch: seq<string>) returns (r: Result<seq<Embedding>, EmbedError>)
    ensures r == WithBackoff(env, batch)
  {
    if !env.hasCache {
      return Lifted(CallEmbedding(env.service, batch));
    }
    var slots := new Option<Embedding>[|batch|](_ => None);
    var reply := env.lookup(batch);
    if reply.Some? {
      assert slots[..] == seq(|batch|, _ => None);
      FillSlots(slots, reply.value);
    }
    assert slots[..] == Cached(|batch|, reply);
    var indices := NonePositions(slots[..]);
    if indices == [] {
      return Ok(Values(slots[..]));
    }
    UncachedAtPositions(batch, slots[..]);
    var news := EmbedPending(env, Uncached(batch, slots[..]));
    if news.Err? {
      return Err(news.error);
    }
    if |indices| != |news.value| {
      return Err(CountMismatch);
    }
    ghost var cached := slots[..];
    PlaceNew(cached, news.value);
    PlaceSlots(slots, indices, news.value);
    r := Ok(Values(slots[..]));
  }

  /** When the cache fills every slot, the result is the cached embeddings and
      the embedding service is never consulted. */
  lemma AllCached(env: Embedder, batch: seq<string>, other: seq<string> -> Result<seq<Embedding>, ServiceError>)
    requires env.hasCache
    requires NonePositions(Cached(|batch|, env.lookup(batch))) == []
    ensures WithBackoff(env, batch) == WithBackoff(env.(service := other), batch)
    ensures WithBackoff(env, batch).Ok?
    ensures forall j :: 0 <= j < |batch| ==>
      Cached(|batch|, env.lookup(batch))[j] == Some(WithBackoff(env, batch).value[j])
  {
  }

  /** A successful merge has one embedding per text: the cached one at every
      filled slot, and the m-th fresh one at the m-th empty slot, the fresh
      ones having been computed for exactly the uncached texts in order. */
  lemma BackoffMerge(env: Embedder, batch: seq<string>)
    requires env.hasCache && WithBackoff(env, batch).Ok?
    ensures var v := WithBackoff(env, batch).value;
      var slots := Cached(|batch|, env.lookup(batch));
      var indices := NonePositions(slots);
      |v| == |batch|
      && (forall j :: 0 <= j < |batch| && slots[j].Some? ==> v[j] == slots[j].value)
      && (indices != [] ==>
            EmbedPending(env, Uncached(batch, slots)).Ok?
            && |EmbedPending(env, Uncached(batch, slots)).value| == |indices|
            && (forall m :: 0 <= m < |indices| ==> v[indices[m]] == EmbedPending(env, Uncached(batch, slots)).value[m]))
  {
    var slots := Cached(|batch|, env.lookup(batch));
    if NonePositions(slots) != [] {
      PlaceNew(slots, EmbedPending(env, Uncached(batch, slots)).value);
    }
  }

  /** A lookup whose embeddings are those of the texts at their positions. */
  ghost predicate CacheAgrees(env: Embedder, embed: string -> Embedding, batch: seq<string>)
  {
    env.lookup(batch).Some? ==>
      forall j :: 0 <= j < |env.lookup(batch).value| && j < |batch| && env.lookup(batch).value[j].Hit? ==>
        env.lookup(batch).value[j].embedding == embed(batch[j])
  }

  /** Writing the embeddings of the uncached texts into the empty slots of
      slots that agree with `embed` gives every text its own embedding. */
  lemma MergeKeepsOrder(embed: string -> Embedding, batch: seq<string>, slots: Slots, news: seq<Embedding>)
    requires |batch| == |slots|
    requires forall j :: 0 <= j < |slots| && slots[j].Some? ==> slots[j].value == embed(batch[j])
    requires news == PerText(embed, Uncached(batch, slots))
    ensures |news| == |NonePositions(slots)|
    ensures var placed := PlaceFrom(slots, NonePositions(slots), news, 0);
      (forall j :: 0 <= j < |placed| ==> placed[j].Some?)
      && Values(placed) == PerText(embed, batch)
  {
    UncachedAtPositions(batch, slots);
    PlaceNew(slots, news);
    var indices := NonePositions(slots);
    var placed := PlaceFrom(slots, indices, news, 0);
    forall j | 0 <= j < |batch|
      ensures placed[j] == Some(embed(batch[j]))
    {
      if slots[j].None? {
        var m :| 0 <= m < |indices| && indices[m] == j;
        assert placed[indices[m]] == Some(news[m]);
      }
    }
  }

  /** Merging keeps the order: with a faithful service and a cache that
      agrees with it, a successful result is the per-text embedding of the
      whole batch, unless the first call on the uncached texts failed with a
      text over the token limit (the truncation retry, which
      `BackoffTruncatedKeepsOrder` covers). */
  lemma BackoffKeepsOrder(env: Embedder, embed: string -> Embedding, batch: seq<string>)
    requires Faithful(env.service, embed) && CacheAgrees(env, embed, batch)
    requires !env.hasCache || var pending := Uncached(batch, Cached(|batch|, env.lookup(batch)));
      !(CallEmbedding(env.service, pending).Err? && TooLong(env, pending))
    ensures WithBackoff(env, batch).Ok? ==> WithBackoff(env, batch).value == PerText(embed, batch)
  {
    if !env.hasCache {
      HalvingKeepsOrder(env.service, embed, batch);
    } else if NonePositions(Cached(|batch|, env.lookup(batch))) == [] {
      AllCachedKeepsOrder(env, embed, batch);
    } else if WithBackoff(env, batch).Ok? {
      BackoffDirectValue(env, batch);
      DirectMergeKeepsOrder(env, embed, batch);
    }
  }

  /** With every text cached and a cache that agrees with `embed`, the result
      is the per-text embedding of the batch. */
  lemma AllCachedKeepsOrder(env: Embedder, embed: string -> Embedding, batch: seq<string>)
    requires CacheAgrees(env, embed, batch) && env.hasCache
    requires NonePositions(Cached(|batch|, env.lookup(batch))) == []
    ensures WithBackoff(env, batch) == Ok(PerText(embed, batch))
  {
    var slots := Cached(|batch|, env.lookup(batch));
    CachedSlots(|batch|, env.lookup(batch));
    UncachedAtPositions(batch, slots);
    assert Uncached(batch, slots) == [];
    MergeKeepsOrder(embed, batch, slots, []);
    assert PlaceFrom(slots, [], [], 0) == slots;
  }

  /** The direct path with some uncached text: when the first call on the
      uncached texts succeeds, merging its embeddings gives the per-text
      embedding of the batch. */
  lemma DirectMergeKeepsOrder(env: Embedder, embed: string -> Embedding, batch: seq<string>)
    requires Faithful(env.service, embed) && CacheAgrees(env, embed, batch)
    requires CallEmbedding(env.service, Uncached(batch, Cached(|batch|, env.lookup(batch)))).Ok?
    ensures var slots := Cached(|batch|, env.lookup(batch));
      var news := CallEmbedding(env.service, Uncached(batch, slots)).value;
      |news| == |NonePositions(slots)|
      && (forall j :: 0 <= j < |slots| ==> PlaceFrom(slots, NonePositions(slots), news, 0)[j].Some?)
      && Values(PlaceFrom(slots, NonePositions(slots), news, 0)) == PerText(embed, batch)
  {
    var slots := Cached(|batch|, env.lookup(batch));
    var pending := Uncached(batch, slots);
    HalvingKeepsOrder(env.service, embed, pending);
    CachedSlots(|batch|, env.lookup(batch));
    MergeKeepsOrder(embed, batch, slots, CallEmbedding(env.service, pending).value);
  }

  /** Away from the truncation retry, a successful result with some uncached
      text is the merge of the first call's embeddings of the uncached texts. */
  lemma BackoffDirectValue(env: Embedder, batch: seq<string>)
    requires env.hasCache
    requires var pending := Uncached(batch, Cached(|batch|, env.lookup(batch)));
      !(CallEmbedding(env.service, pending).Err? && TooLong(env, pending))
    requires NonePositions(Cached(|batch|, env.lookup(batch))) != []
    requires WithBackoff(env, batch).Ok?
    ensures var slots := Cached(|batch|, env.lookup(batch));
      var news := CallEmbedding(env.service, Uncached(batch, slots));
      news.Ok? && |news.value| == |NonePositions(slots)|
      && (forall j :: 0 <= j < |slots| ==> PlaceFrom(slots, NonePositions(slots), news.value, 0)[j].Some?)
      && WithBackoff(env, batch).value == Values(PlaceFrom(slots, NonePositions(slots), news.value, 0))
  {
    var slots := Cached(|batch|, env.lookup(batch));
    UncachedAtPositions(batch, slots);
    var news := EmbedPending(env, Uncached(batch, slots)).value;
    PlaceNew(slots, news);
  }

  /** Writing the embeddings of the truncated uncached texts into the empty
      slots gives every empty position the embedding of its truncated text. */
  lemma MergeTruncated(env: Embedder, embed: string -> Embedding, batch: seq<string>, slots: Slots, news: seq<Embedding>)
    requires |batch| == |slots|
    requires news == PerText(embed, Truncated(env, Uncached(batch, slots)))
    ensures |news| == |NonePositions(slots)|
    ensures var placed := PlaceFrom(slots, NonePositions(slots), news, 0);
      (forall j :: 0 <= j < |placed| ==> placed[j].Some?)
      && forall j :: 0 <= j < |batch| ==>
        Values(placed)[j] == (if slots[j].Some? then slots[j].value else embed(env.truncate(batch[j])))
  {
    var pending := Uncached(batch, slots);
    var embedNew := t => embed(env.truncate(t));
    assert news == PerText(embedNew, pending);
    MergeFresh(embedNew, batch, slots, news);
  }

  lemma PerTextAt(embed: string -> Embedding, batch: seq<string>, m: nat)
    requires m < |batch|
    ensures PerText(embed, batch)[m] == embed(batch[m])
  {
  }

  /** Writing `embedNew` of each uncached text into the empty slots gives
      every empty position `embedNew` of its own text. */
  lemma MergeFresh(embedNew: string -> Embedding, batch: seq<string>, slots: Slots, news: seq<Embedding>)
    requires |batch| == |slots|
    requires news == PerText(embedNew, Uncached(batch, slots))
    ensures |news| == |NonePositions(slots)|
    ensures var placed := PlaceFrom(slots, NonePositions(slots), news, 0);
      (forall j :: 0 <= j < |placed| ==> placed[j].Some?)
      && forall j :: 0 <= j < |batch| ==>
        Values(placed)[j] == (if slots[j].Some? then slots[j].value else embedNew(batch[j]))
  {
    UncachedAtPositions(batch, slots);
    PlaceNewFills(slots, news);
    forall j | 0 <= j < |batch|
      ensures PlaceFrom(slots, NonePositions(slots), news, 0)[j]
        == (if slots[j].Some? then slots[j] else Some(embedNew(batch[j])))
    {
      MergeFreshAt(embedNew, batch, slots, news, j);
    }
  }

  lemma MergeFreshAt(embedNew: string -> Embedding, batch: seq<string>, slots: Slots, news: seq<Embedding>, j: nat)
    requires j < |batch| == |slots|
    requires news == PerText(embedNew, Uncached(batch, slots))
    ensures |news| == |NonePositions(slots)|
    ensures PlaceFrom(slots, NonePositions(slots), news, 0)[j]
      == (if slots[j].Some? then slots[j] else Some(embedNew(batch[j])))
  {
    UncachedAtPositions(batch, slots);
    PlaceNew(slots, news);
    var indices := NonePositions(slots);
    var placed := PlaceFrom(slots, indices, news, 0);
    if slots[j].None? {
      var m :| 0 <= m < |indices| && indices[m] == j;
      assert placed[indices[m]] == Some(news[m]);
      var pending := Uncached(batch, slots);
      assert pending[m] == batch[j];
      PerTextAt(embedNew, pending, m);
    }
  }

  /** On the truncation path the result is the merge of the embeddings of the
      truncated uncached texts. */
  lemma BackoffTruncatedValue(env: Embedder, batch: seq<string>)
    requires env.hasCache
    requires var pending := Uncached(batch, Cached(|batch|, env.lookup(batch)));
      CallEmbedding(env.service, pending).Err? && TooLong(env, pending)
    requires WithBackoff(env, batch).Ok?
    ensures var slots := Cached(|batch|, env.lookup(batch));
      var news := CallEmbedding(env.service, Truncated(env, Uncached(batch, slots)));
      news.Ok? && |news.value| == |NonePositions(slots)|
      && (forall j :: 0 <= j < |slots| ==> PlaceFrom(slots, NonePositions(slots), news.value, 0)[j].Some?)
      && WithBackoff(env, batch).value == Values(PlaceFrom(slots, NonePositions(slots), news.value, 0))
  {
    var slots := Cached(|batch|, env.lookup(batch));
    UncachedAtPositions(batch, slots);
    assert NonePositions(slots) != [];
    var news := EmbedPending(env, Uncached(batch, slots)).value;
    PlaceNew(slots, news);
  }

  /** The truncation path keeps the order too: when the first call on the
      uncached texts fails and some of them is over the token limit, a
      successful result holds the cached embedding at every cached position
      and the embedding of the truncated text at every other one. */
  lemma BackoffTruncatedKeepsOrder(env: Embedder, embed: string -> Embedding, batch: seq<string>)
    requires Faithful(env.service, embed) && CacheAgrees(env, embed, batch) && env.hasCache
    requires var pending := Uncached(batch, Cached(|batch|, env.lookup(batch)));
      CallEmbedding(env.service, pending).Err? && TooLong(env, pending)
    ensures var slots := Cached(|batch|, env.lookup(batch));
      WithBackoff(env, batch).Ok? ==>
        |WithBackoff(env, batch).value| == |batch|
        && forall j :: 0 <= j < |batch| ==>
          WithBackoff(env, batch).value[j] == (if slots[j].Some? then embed(batch[j]) else embed(env.truncate(batch[j])))
  {
    var slots := Cached(|batch|, env.lookup(batch));
    if WithBackoff(env, batch).Ok? {
      BackoffTruncatedValue(env, batch);
      var truncated := Truncated(env, Uncached(batch, slots));
      HalvingKeepsOrder(env.service, embed, truncated);
      var news := CallEmbedding(env.service, truncated).value;
      MergeTruncated(env, embed, batch, slots, news);
      var v := Values(PlaceFrom(slots, NonePositions(slots), news, 0));
      assert WithBackoff(env, batch).value == v;
      CachedSlots(|batch|, env.lookup(batch));
      forall j | 0 <= j < |batch|
        ensures v[j] == (if slots[j].Some? then embed(batch[j]) else embed(env.truncate(batch[j])))
      {
        if slots[j].Some? {
          assert slots[j].value == embed(batch[j]);
        }
      }
    }
  }

  /** `[openai_with_expo_backoff(batch) for batch in batches]`, for any
      per-batch function: the first failing batch's error propagates. */
  function EmbedAll(embedBatch: seq<string> -> Result<seq<Embedding>, EmbedError>, batches: seq<seq<string>>): (r: Result<seq<seq<Embedding>>, EmbedError>)
    ensures r.Ok? <==> forall k :: 0 <= k < |batches| ==> embedBatch(batches[k]).Ok?
    ensures r.Ok? ==> |r.value| == |batches|
    ensures r.Ok? ==> forall k :: 0 <= k < |batches| ==> embedBatch(batches[k]) == Ok(r.value[k])
  {
    if batches == [] then Ok([])
    else
      var last := |batches| - 1;
      var init := batches[..last];
      assert forall k :: 0 <= k < last ==> init[k] == batches[k];
      match EmbedAll(embedBatch, init)
      case Err(e) => Err(e)
      case Ok(done) =>
        match embedBatch(batches[last])
        case Err(e) => Err(e)
        case Ok(v) => Ok(done + [v])
  }

  /** A failure is the error of the first batch that fails. */
  lemma {:induction false} EmbedAllError(embedBatch: seq<string> -> Result<seq<Embedding>, EmbedError>, batches: seq<seq<string>>)
    requires EmbedAll(embedBatch, batches).Err?
    ensures exists k :: (0 <= k < |batches| && embedBatch(batches[k]) == Err(EmbedAll(embedBatch, batches).error)
      && forall k' :: 0 <= k' < k ==> embedBatch(batches[k']).Ok?)
  {
    var last := |batches| - 1;
    var init := batches[..last];
    if EmbedAll(embedBatch, init).Err? {
      EmbedAllError(embedBatch, init);
      var k :| 0 <= k < |init| && embedBatch(init[k]) == Err(EmbedAll(embedBatch, init).error)
        && forall k' :: 0 <= k' < k ==> embedBatch(init[k']).Ok?;
      assert init[k] == batches[k];
      assert forall k' :: 0 <= k' < k ==> init[k'] == batches[k'];
    } else {
      assert forall k :: 0 <= k < last ==> init[k] == batches[k];
    }
  }

  /** `embed_text_array`: one result per batch of `BATCH_SIZE` blank-filled texts. */
  function EmbedTextArray(env: Embedder, texts: seq<string>, batchSize: int): Result<seq<seq<Embedding>>, EmbedError>
  {
    match EmbedBatches(texts, batchSize)
    case Err(e) => Err(e)
    case Ok(batches) => EmbedAll(b => WithBackoff(env, b), batches)
  }

  /** `embed_text_array` returns one result per batch, in batch order, each the
      result of `openai_with_expo_backoff` on that batch. */
  lemma EmbedTextArrayPerBatch(env: Embedder, texts: seq<string>, batchSize: int)
    requires EmbedTextArray(env, texts, batchSize).Ok?
    ensures var rs := EmbedTextArray(env, texts, batchSize).value;
      (batchSize < 0 ==> rs == [])
      && (batchSize > 0 ==>
            |rs| == Ceil(|texts|, batchSize)
            && forall k :: 0 <= k < |rs| ==> WithBackoff(env, Slices(BlankAll(texts), batchSize)[k]) == Ok(rs[k]))
  {
  }
}
