/** The embedding cache of `load_or_compute_embeddings`: a `.npy` file that
    holds one vector per FAQ row, accepted only when its row count equals the
    number of FAQ rows, and otherwise recomputed and overwritten. */
module EmbeddingCache {
  import opened Wrappers
  import opened Vectors
  import opened Corpus

  /** What `np.load(embedding_path)` meets: no file (FileNotFoundError), a
      file it cannot read (any other error), or a stored 2-D array. */
  datatype CacheFile = Absent | Unreadable | Stored(stored: Matrix)

  /** The file at `embedding_path`; it outlives any one engine. */
  class NpyFile {
    var content: CacheFile

    constructor (content: CacheFile)
      ensures this.content == content
    {
      this.content := content;
    }

    /** `np.save(embedding_path, m)`: replace the whole file. */
    method Save(m: Matrix)
      modifies this
      ensures content == Stored(m)
    {
      content := Stored(m);
    }
  }

  /** The cache may be used as it is: it holds one row per FAQ entry. */
  predicate IsValidCache(file: CacheFile, rows: seq<FaqEntry>) {
    file.Stored? && |file.stored| == |rows|
  }

  /** Result of one call: the embeddings or the error raised, and the file
      afterwards. */
  datatype CacheStep = CacheStep(result: Result<Matrix, InitError>, file: CacheFile)

  /** `load_or_compute_embeddings` as a function of the file, the data frame
      and the model. The first branch of the source's `try` is the valid
      cache; the `except FileNotFoundError` branch covers a missing file and
      a count mismatch (re-raised as FileNotFoundError); the
      `except Exception` branch covers an unreadable file and `len(None)`
      when there is no data frame. */
  function ResolveEmbeddings(file: CacheFile, df: Option<seq<FaqEntry>>, model: Option<SentenceModel>): (step: CacheStep)
    ensures step.result.Ok? ==> df.Some? && |step.result.value| == |df.value|
    ensures step.result.Ok? ==> step.file == Stored(step.result.value)
    ensures step.result.Err? ==> step.file == file
    ensures step.result.Ok? && !IsValidCache(file, df.value) ==>
              model.Some? && step.result.value == EncodeAll(model.value, Texts(df.value))
  {
    if df.Some? && IsValidCache(file, df.value) then
      CacheStep(Ok(file.stored), file)
    else if file.Absent? || (file.Stored? && df.Some?) then
      if df.None? then CacheStep(Err(DataNotLoaded), file)
      else if model.None? then CacheStep(Err(ModelNotLoaded), file)
      else Recompute(df.value, model.value)
    else
      if model.None? then CacheStep(Err(ModelNotLoaded), file)
      else if df.None? then CacheStep(Err(DataNotLoaded), file)
      else Recompute(df.value, model.value)
  }

  /** Encode every row's text in order and save the array. */
  function Recompute(rows: seq<FaqEntry>, model: SentenceModel): (step: CacheStep)
    ensures step.result.Ok? && |step.result.value| == |rows|
    ensures step.file == Stored(step.result.value)
  {
    var e := EncodeAll(model, Texts(rows));
    CacheStep(Ok(e), Stored(e))
  }

  /** A valid cache is returned as it is, the file is left alone, and the
      model is not needed: nothing is computed. */
  lemma ValidCacheIsUsedAsIs(file: CacheFile, rows: seq<FaqEntry>, model: Option<SentenceModel>)
    requires IsValidCache(file, rows)
    ensures ResolveEmbeddings(file, Some(rows), model) == CacheStep(Ok(file.stored), file)
  {
  }

  /** A cache whose row count differs from the FAQ count is rejected: the
      embeddings are recomputed from the rows' texts and overwrite it. */
  lemma StaleCacheIsRecomputed(file: CacheFile, rows: seq<FaqEntry>, model: SentenceModel)
    requires !IsValidCache(file, rows)
    ensures var e := EncodeAll(model, Texts(rows));
            ResolveEmbeddings(file, Some(rows), Some(model)) == CacheStep(Ok(e), Stored(e))
  {
  }

  /** With a data frame and a model the call always succeeds, and the result
      has one row per FAQ entry, whatever the file held. */
  lemma EmbeddingsAlignWithRows(file: CacheFile, rows: seq<FaqEntry>, model: SentenceModel)
    ensures ResolveEmbeddings(file, Some(rows), Some(model)).result.Ok?
    ensures |ResolveEmbeddings(file, Some(rows), Some(model)).result.value| == |rows|
  {
  }

  /** After a successful call the file is a valid cache of exactly the
      returned embeddings, so calling again (the next start) loads the same
      array and writes nothing. */
  lemma CacheIsStable(file: CacheFile, rows: seq<FaqEntry>, model: Option<SentenceModel>)
    requires ResolveEmbeddings(file, Some(rows), model).result.Ok?
    ensures var step := ResolveEmbeddings(file, Some(rows), model);
            ResolveEmbeddings(step.file, Some(rows), model) == step
  {
    var step := ResolveEmbeddings(file, Some(rows), model);
    assert IsValidCache(step.file, rows);
  }

  /** The file is left as it was by a successful call exactly when it is a
      valid cache: every other success overwrites it. */
  lemma FileKeptIffValid(file: CacheFile, rows: seq<FaqEntry>, model: Option<SentenceModel>)
    requires ResolveEmbeddings(file, Some(rows), model).result.Ok?
    ensures ResolveEmbeddings(file, Some(rows), model).file == file <==> IsValidCache(file, rows)
  {
  }

  /** Saving an array with one row per FAQ entry and then resolving the
      cache gives back the saved array, with or without a model. */
  method SaveThenLoad(f: NpyFile, m: Matrix, rows: seq<FaqEntry>, model: Option<SentenceModel>)
    requires |m| == |rows|
    modifies f
    ensures f.content == Stored(m)
    ensures ResolveEmbeddings(f.content, Some(rows), model) == CacheStep(Ok(m), Stored(m))
  {
    f.Save(m);
  }

  /** Recomputed embeddings have the model's width, so queries encoded by the
      same model can be searched against them. */
  lemma RecomputedWidthIsModelWidth(file: CacheFile, rows: seq<FaqEntry>, model: SentenceModel)
    requires !IsValidCache(file, rows) && |rows| > 0
    ensures Width(ResolveEmbeddings(file, Some(rows), Some(model)).result.value) == model.dim
  {
  }
}
