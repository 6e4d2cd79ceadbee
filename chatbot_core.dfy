/** `ChatbotCore`: the FAQ engine. Construction loads the corpus, takes the
    sentence model, loads or recomputes the embedding cache and builds the
    flat L2 index; a query is answered by a canned reply when a trigger
    phrase occurs in its normalised form, and otherwise by the answer of the
    nearest FAQ row when that row is close enough. */
module Chatbot {
  import opened Wrappers
  import opened Text
  import opened Canned
  import opened Vectors
  import opened FlatIndex
  import opened Corpus
  import opened EmbeddingCache

  const EmptyQueryMessage := "\U{26A0}\U{FE0F} Please enter a question."
  const NotInitialisedMessage := "Chatbot core not fully initialized. Please check backend setup."
  const EmptyIndexMessage := "\U{26A0}\U{FE0F} Embeddings are empty in FAISS index. Please check the FAQ setup."
  const OutOfDomainMessage := "\U{2757} Sorry, this chatbot can only help with cloud services. Please ask something related!"

  /** The exception `get_response` lets escape: the index's width assertion
      fails when the model's vectors are not as wide as the stored ones. */
  datatype QueryFault = QueryWidthMismatch

  /** The exception `random.sample` raises for a negative size. */
  datatype SampleFault = NegativeSampleSize

  /** What a search needs of the index: its width and its rows. */
  datatype IndexState = IndexState(d: nat, vectors: seq<Vector>)

  /** The index, when present, holds one row per FAQ entry, all of its width. */
  predicate Consistent(df: Option<seq<FaqEntry>>, index: Option<IndexState>) {
    index.Some? ==>
      && df.Some?
      && |index.value.vectors| == |df.value|
      && AllWidth(index.value.vectors, index.value.d)
  }

  /** A query that `str.strip` empties. */
  predicate IsBlank(query: string): (b: bool)
    ensures b <==> Strip(query) == []
  {
    StripIsEmptyIff(query);
    forall i :: 0 <= i < |query| ==> IsSpace(query[i])
  }

  /** `get_response` as a function of the query, the threshold and the
      engine's state: the blank check, then the triggers, then the search. */
  function Reply(query: string, threshold: real, table: seq<Trigger>, df: Option<seq<FaqEntry>>,
                 model: Option<SentenceModel>, index: Option<IndexState>): (r: Result<string, QueryFault>)
    requires Consistent(df, index)
    ensures r.Err? ==> model.Some? && index.Some? && index.value.d != model.value.dim
  {
    if IsBlank(query) then Ok(EmptyQueryMessage)
    else match CannedResponse(table, Normalize(query))
      case Some(response) => Ok(response)
      case None =>
        if model.None? || index.None? then Ok(NotInitialisedMessage)
        else SearchReply(query, threshold, df.value, model.value, index.value)
  }

  /** The search stage of `get_response`, reached when no trigger matched:
      embed the raw query (not the normalised one), find the nearest row and
      compare its squared L2 distance with the threshold. */
  function SearchReply(query: string, threshold: real, rows: seq<FaqEntry>,
                       model: SentenceModel, index: IndexState): (r: Result<string, QueryFault>)
    requires Consistent(Some(rows), Some(index))
    ensures r.Err? <==> |index.vectors| > 0 && index.d != model.dim
  {
    var q := model.embed(query);
    if |index.vectors| == 0 then Ok(EmptyIndexMessage)
    else if |q| != index.d then Err(QueryWidthMismatch)
    else
      var k := Nearest(index.vectors, q);
      if SqDist(q, index.vectors[k]) as real <= threshold then Ok(rows[k].answer)
      else Ok(OutOfDomainMessage)
  }

  /** The four stages of `get_response`, in order: a blank query gets the
      prompt; otherwise the first matching trigger answers; otherwise an
      engine without a model or an index says so; otherwise the search stage
      answers. */
  lemma ReplyStages(query: string, threshold: real, table: seq<Trigger>,
                    df: Option<seq<FaqEntry>>, model: Option<SentenceModel>, index: Option<IndexState>)
    requires Consistent(df, index)
    ensures IsBlank(query) ==> Reply(query, threshold, table, df, model, index) == Ok(EmptyQueryMessage)
    ensures !IsBlank(query) && CannedResponse(table, Normalize(query)).Some? ==>
              Reply(query, threshold, table, df, model, index) == Ok(CannedResponse(table, Normalize(query)).value)
    ensures !IsBlank(query) && CannedResponse(table, Normalize(query)).None? && (model.None? || index.None?) ==>
              Reply(query, threshold, table, df, model, index) == Ok(NotInitialisedMessage)
    ensures !IsBlank(query) && CannedResponse(table, Normalize(query)).None? && model.Some? && index.Some? ==>
              Reply(query, threshold, table, df, model, index) ==
              SearchReply(query, threshold, df.value, model.value, index.value)
  {
    var r := Reply(query, threshold, table, df, model, index);
    if !IsBlank(query) {
      var canned := CannedResponse(table, Normalize(query));
      assert r == match canned
        case Some(response) => Ok(response)
        case None =>
          if model.None? || index.None? then Ok(NotInitialisedMessage)
          else SearchReply(query, threshold, df.value, model.value, index.value);
    }
  }

  /** A blank query is answered with the prompt, whatever the state. */
  lemma BlankQueryGetsPrompt(query: string, threshold: real, table: seq<Trigger>,
                             df: Option<seq<FaqEntry>>, model: Option<SentenceModel>, index: Option<IndexState>)
    requires Consistent(df, index)
    requires IsBlank(query)
    ensures Reply(query, threshold, table, df, model, index) == Ok(EmptyQueryMessage)
  {
    ReplyStages(query, threshold, table, df, model, index);
  }

  /** When no canned reply and no FAQ answer is the prompt's text, a query
      that is not blank is never answered with the prompt. */
  lemma PromptOnlyForBlankQuery(query: string, threshold: real, table: seq<Trigger>,
                                df: Option<seq<FaqEntry>>, model: Option<SentenceModel>, index: Option<IndexState>)
    requires Consistent(df, index)
    requires forall j :: 0 <= j < |table| ==> table[j].response != EmptyQueryMessage
    requires df.Some? ==> forall j :: 0 <= j < |df.value| ==> df.value[j].answer != EmptyQueryMessage
    requires !IsBlank(query)
    ensures Reply(query, threshold, table, df, model, index) != Ok(EmptyQueryMessage)
  {
    ReplyStages(query, threshold, table, df, model, index);
    CannedNeverSays(table, Normalize(query), EmptyQueryMessage);
    assert |EmptyQueryMessage| < |NotInitialisedMessage|;
    if model.Some? && index.Some? {
      SearchNeverPrompts(query, threshold, df.value, model.value, index.value);
    }
  }

  /** A canned reply is one of the table's replies, so it is never a message
      that no reply of the table is. */
  lemma CannedNeverSays(table: seq<Trigger>, normalized: string, message: string)
    requires forall j :: 0 <= j < |table| ==> table[j].response != message
    ensures CannedResponse(table, normalized) != Some(message)
  {
  }

  /** The search stage answers with an FAQ answer or one of its own messages,
      never the prompt, unless an FAQ answer is the prompt's text. */
  lemma SearchNeverPrompts(query: string, threshold: real, rows: seq<FaqEntry>, model: SentenceModel, index: IndexState)
    requires Consistent(Some(rows), Some(index))
    requires forall j :: 0 <= j < |rows| ==> rows[j].answer != EmptyQueryMessage
    ensures SearchReply(query, threshold, rows, model, index) != Ok(EmptyQueryMessage)
  {
    assert |EmptyQueryMessage| < |EmptyIndexMessage|;
    assert |EmptyQueryMessage| < |OutOfDomainMessage|;
  }

  /** The first trigger whose phrase occurs in the normalised query answers,
      before and independently of the model and the index. */
  lemma CannedReplyPrecedesSearch(query: string, threshold: real, table: seq<Trigger>,
                                  df: Option<seq<FaqEntry>>, model: Option<SentenceModel>, index: Option<IndexState>, i: nat)
    requires Consistent(df, index)
    requires !IsBlank(query)
    requires i < |table| && IsSubstring(table[i].phrase, Normalize(query))
    requires forall j :: 0 <= j < i ==> !IsSubstring(table[j].phrase, Normalize(query))
    ensures Reply(query, threshold, table, df, model, index) == Ok(table[i].response)
  {
    ReplyStages(query, threshold, table, df, model, index);
    CannedResponseIsFirstOccurrence(table, Normalize(query), i);
  }

  /** A query that is not blank and matches no trigger is answered without a
      model or an index by the not-initialised message, and with both by the
      search stage. */
  lemma UntriggeredQueryReachesSearch(query: string, threshold: real, table: seq<Trigger>,
                                      df: Option<seq<FaqEntry>>, model: Option<SentenceModel>, index: Option<IndexState>)
    requires Consistent(df, index)
    requires !IsBlank(query)
    requires forall j :: 0 <= j < |table| ==> !IsSubstring(table[j].phrase, Normalize(query))
    ensures model.None? || index.None? ==> Reply(query, threshold, table, df, model, index) == Ok(NotInitialisedMessage)
    ensures model.Some? && index.Some? ==>
              Reply(query, threshold, table, df, model, index) ==
              SearchReply(query, threshold, df.value, model.value, index.value)
  {
    ReplyStages(query, threshold, table, df, model, index);
    NoCannedResponseIff(table, Normalize(query));
  }

  /** Without a model or an index, and when no canned reply is the
      not-initialised message's text, that message is given only to a query
      that is not blank and matches no trigger. */
  lemma NotInitialisedOnlyWithoutTrigger(query: string, threshold: real, table: seq<Trigger>,
                                         df: Option<seq<FaqEntry>>, model: Option<SentenceModel>, index: Option<IndexState>)
    requires Consistent(df, index)
    requires model.None? || index.None?
    requires forall j :: 0 <= j < |table| ==> table[j].response != NotInitialisedMessage
    requires Reply(query, threshold, table, df, model, index) == Ok(NotInitialisedMessage)
    ensures !IsBlank(query)
    ensures forall j :: 0 <= j < |table| ==> !IsSubstring(table[j].phrase, Normalize(query))
  {
    ReplyStages(query, threshold, table, df, model, index);
    assert |EmptyQueryMessage| < |NotInitialisedMessage|;
    CannedNeverSays(table, Normalize(query), NotInitialisedMessage);
    NoCannedResponseIff(table, Normalize(query));
  }

  /** Past the triggers, the answer is that of the FAQ row nearest to the
      query's embedding when its squared L2 distance is at most the
      threshold, and the out-of-domain message otherwise. */
  lemma ThresholdDecision(query: string, threshold: real, rows: seq<FaqEntry>,
                          model: SentenceModel, index: IndexState, k: int)
    requires Consistent(Some(rows), Some(index))
    requires |model.embed(query)| == index.d
    requires IsFirstNearest(index.vectors, model.embed(query), k)
    ensures SearchReply(query, threshold, rows, model, index) ==
            if SqDist(model.embed(query), index.vectors[k]) as real <= threshold then Ok(rows[k].answer)
            else Ok(OutOfDomainMessage)
  {
    var q := model.embed(query);
    FirstNearestIsUnique(index.vectors, q, k, Nearest(index.vectors, q));
  }

  /** Raising the threshold never turns an answer into the out-of-domain
      message, and lowering it never turns that message into an answer. */
  lemma ThresholdIsMonotone(query: string, t1: real, t2: real, table: seq<Trigger>,
                            df: Option<seq<FaqEntry>>, model: Option<SentenceModel>, index: Option<IndexState>)
    requires Consistent(df, index)
    requires t1 <= t2
    ensures Reply(query, t1, table, df, model, index) != Ok(OutOfDomainMessage) ==>
              Reply(query, t2, table, df, model, index) == Reply(query, t1, table, df, model, index)
    ensures Reply(query, t2, table, df, model, index) == Ok(OutOfDomainMessage) ==>
              Reply(query, t1, table, df, model, index) == Ok(OutOfDomainMessage)
  {
    ReplyStages(query, t1, table, df, model, index);
    ReplyStages(query, t2, table, df, model, index);
    if model.Some? && index.Some? {
      SearchThresholdIsMonotone(query, t1, t2, df.value, model.value, index.value);
    }
  }

  lemma SearchThresholdIsMonotone(query: string, t1: real, t2: real,
                                  rows: seq<FaqEntry>, model: SentenceModel, index: IndexState)
    requires Consistent(Some(rows), Some(index))
    requires t1 <= t2
    ensures SearchReply(query, t1, rows, model, index) != Ok(OutOfDomainMessage) ==>
              SearchReply(query, t2, rows, model, index) == SearchReply(query, t1, rows, model, index)
    ensures SearchReply(query, t2, rows, model, index) == Ok(OutOfDomainMessage) ==>
              SearchReply(query, t1, rows, model, index) == Ok(OutOfDomainMessage)
  {
  }

  /** A query that the model embeds exactly as a stored row is answered,
      for any non-negative threshold, by the first row holding that vector. */
  lemma StoredVectorIsAnswered(query: string, threshold: real, rows: seq<FaqEntry>,
                               model: SentenceModel, index: IndexState, i: nat)
    requires Consistent(Some(rows), Some(index))
    requires i < |index.vectors| && model.embed(query) == index.vectors[i]
    requires threshold >= 0.0
    ensures Nearest(index.vectors, index.vectors[i]) <= i
    ensures index.vectors[Nearest(index.vectors, index.vectors[i])] == index.vectors[i]
    ensures SearchReply(query, threshold, rows, model, index) ==
            Ok(rows[Nearest(index.vectors, index.vectors[i])].answer)
  {
    SelfRetrieval(index.vectors, i);
  }

  /** A started engine: the corpus and the embeddings its index holds. */
  datatype Engine = Engine(rows: seq<FaqEntry>, embeddings: Matrix)

  /** The outcome of construction and the embedding file afterwards. */
  datatype StartupOutcome = StartupOutcome(engine: Result<Engine, InitError>, file: CacheFile)

  /** `ChatbotCore.__init__` as a function of the CSV, the embedding file
      and the model: load, embed (from the cache or afresh), index. */
  function Startup(csv: CsvFile, file: CacheFile, model: SentenceModel): (s: StartupOutcome)
    ensures s.engine.Ok? ==>
              && LoadCorpus(csv) == Ok(s.engine.value.rows)
              && |s.engine.value.embeddings| == |s.engine.value.rows| > 0
              && Width(s.engine.value.embeddings) > 0
              && s.file == Stored(s.engine.value.embeddings)
    ensures LoadCorpus(csv).Err? ==> s == StartupOutcome(Err(LoadCorpus(csv).error), file)
  {
    match LoadCorpus(csv)
    case Err(e) => StartupOutcome(Err(e), file)
    case Ok(rows) =>
      var step := ResolveEmbeddings(file, Some(rows), Some(model));
      match step.result
      case Err(e) => StartupOutcome(Err(e), step.file)
      case Ok(embeddings) =>
        if IsEmptyArray(embeddings) then StartupOutcome(Err(EmptyEmbeddings), step.file)
        else StartupOutcome(Ok(Engine(rows, embeddings)), step.file)
  }

  /** An FAQ file without rows never yields an engine. */
  lemma EmptyCorpusCannotStart(csv: CsvFile, file: CacheFile, model: SentenceModel)
    requires LoadCorpus(csv) == Ok([])
    ensures Startup(csv, file, model).engine == Err(EmptyEmbeddings)
  {
    EmbeddingsAlignWithRows(file, [], model);
  }

  /** With a readable FAQ file that has rows and a model of non-zero width,
      a start that recomputes the embeddings always succeeds. */
  lemma RecomputingStartSucceeds(csv: CsvFile, file: CacheFile, model: SentenceModel)
    requires LoadCorpus(csv).Ok? && |LoadCorpus(csv).value| > 0
    requires !IsValidCache(file, LoadCorpus(csv).value) && model.dim > 0
    ensures Startup(csv, file, model).engine.Ok?
  {
    RecomputedWidthIsModelWidth(file, LoadCorpus(csv).value, model);
  }

  /** Starting again on the file a successful start left behind gives the
      same engine and writes nothing. */
  lemma RestartUsesCache(csv: CsvFile, file: CacheFile, model: SentenceModel)
    requires Startup(csv, file, model).engine.Ok?
    ensures Startup(csv, Startup(csv, file, model).file, model) == Startup(csv, file, model)
  {
    CacheIsStable(file, LoadCorpus(csv).value, Some(model));
  }

  /** When the embeddings were computed by the model in use, no query can
      fail the index's width check. */
  lemma FreshEngineNeverFaults(csv: CsvFile, file: CacheFile, model: SentenceModel, query: string, threshold: real)
    requires Startup(csv, file, model).engine.Ok?
    requires !IsValidCache(file, LoadCorpus(csv).value)
    ensures var e := Startup(csv, file, model).engine.value;
            Reply(query, threshold, PredefinedResponses, Some(e.rows), Some(model),
                  Some(IndexState(Width(e.embeddings), e.embeddings))).Ok?
  {
    var e := Startup(csv, file, model).engine.value;
    RecomputedWidthIsModelWidth(file, e.rows, model);
  }

  /** A draw of `random.sample`: the positions taken, all distinct and below `n`. */
  predicate IsDraw(picks: seq<nat>, n: nat) {
    && (forall i :: 0 <= i < |picks| ==> picks[i] < n)
    && (forall i, j :: 0 <= i < j < |picks| ==> picks[i] != picks[j])
  }

  /** `sample` holds the questions of the rows at `picks`, in draw order. */
  ghost predicate IsSampleOf(rows: seq<FaqEntry>, sample: seq<string>, picks: seq<nat>) {
    && IsDraw(picks, |rows|)
    && |sample| == |picks|
    && (forall i :: 0 <= i < |picks| ==> sample[i] == rows[picks[i]].question)
  }

  /** The positions `0 .. k-1`, a draw of any `n >= k`. */
  function FirstPositions(k: nat): (ps: seq<nat>)
    ensures |ps| == k
    ensures forall n: nat :: k <= n ==> IsDraw(ps, n)
  {
    seq(k, i requires 0 <= i < k => i)
  }

  /** The set `{0, ..., n-1}`. */
  function Below(n: nat): (s: set<nat>)
    ensures |s| == n
    ensures forall j: nat :: j in s <==> j < n
  {
    if n == 0 then {} else Below(n - 1) + {n - 1}
  }

  /** The set of the positions drawn. */
  function Picked(picks: seq<nat>): (s: set<nat>)
    ensures forall x :: x in s <==> x in picks
  {
    if picks == [] then {} else {picks[0]} + Picked(picks[1..])
  }

  /** Distinct positions make a set of the same size. */
  lemma {:induction false} PickedSize(picks: seq<nat>, n: nat)
    requires IsDraw(picks, n)
    ensures |Picked(picks)| == |picks|
  {
    if picks != [] {
      var rest := picks[1..];
      assert IsDraw(rest, n);
      PickedSize(rest, n);
      forall i | 0 <= i < |rest| ensures rest[i] != picks[0] {
        assert rest[i] == picks[i + 1];
      }
      assert picks[0] !in rest;
    }
  }

  lemma {:induction false} SubsetSize(a: set<nat>, b: set<nat>)
    requires a <= b
    ensures |a| <= |b|
    decreases a
  {
    if a != {} {
      var x :| x in a;
      SubsetSize(a - {x}, b - {x});
    }
  }

  /** A draw of all `n` positions takes every position. */
  lemma DrawOfAllCoversAll(picks: seq<nat>, n: nat)
    requires IsDraw(picks, n) && |picks| == n
    ensures forall j :: 0 <= j < n ==> j in picks
  {
    PickedSize(picks, n);
    forall j | 0 <= j < n ensures j in picks {
      if j !in Picked(picks) {
        SubsetSize(Picked(picks), Below(n) - {j});
      }
    }
  }

  /** The questions of the rows at `picks`, in order. */
  function QuestionsAt(rows: seq<FaqEntry>, picks: seq<nat>): (qs: seq<string>)
    requires IsDraw(picks, |rows|)
    ensures IsSampleOf(rows, qs, picks)
  {
    seq(|picks|, i requires 0 <= i < |picks| => rows[picks[i]].question)
  }

  /** Asking for at least as many questions as there are returns every FAQ
      question (in some order). */
  lemma FullSampleHasEveryQuestion(rows: seq<FaqEntry>, sample: seq<string>, picks: seq<nat>)
    requires IsSampleOf(rows, sample, picks) && |picks| == |rows|
    ensures forall j :: 0 <= j < |rows| ==> rows[j].question in sample
  {
    DrawOfAllCoversAll(picks, |rows|);
    forall j | 0 <= j < |rows| ensures rows[j].question in sample {
      assert j in picks;
      var i :| 0 <= i < |picks| && picks[i] == j;
      assert sample[i] == rows[j].question;
    }
  }

  class ChatbotCore {
    const csvPath: string
    const embeddingPath: string
    /** The file at `embeddingPath`. */
    const cacheFile: NpyFile
    var df: Option<seq<FaqEntry>>
    var model: Option<SentenceModel>
    var embeddings: Option<Matrix>
    var index: Option<FlatL2Index>
    var predefinedResponses: seq<Trigger>

    /** The index object, when there is one. */
    ghost function IndexRepr(): set<object>
      reads this
    {
      if index.Some? then {index.value} else {}
    }

    /** The embeddings align with the FAQ rows, and the index holds exactly
        the embeddings, at their width, and is not empty. */
    ghost predicate Valid()
      reads this, IndexRepr()
    {
      && (embeddings.Some? ==> df.Some? && |embeddings.value| == |df.value|)
      && (index.Some? ==>
            && embeddings.Some?
            && !IsEmptyArray(embeddings.value)
            && index.value.d == Width(embeddings.value)
            && index.value.vectors == embeddings.value)
    }

    /** What the index holds, as a value. */
    ghost function IndexView(): (v: Option<IndexState>)
      reads this, IndexRepr()
      ensures Valid() ==> Consistent(df, v)
    {
      if index.Some? then Some(IndexState(index.value.d, index.value.vectors)) else None
    }

    /** The attribute assignments of `__init__`, before its four steps. */
    constructor (csvPath: string, embeddingPath: string, cacheFile: NpyFile)
      ensures this.csvPath == csvPath && this.embeddingPath == embeddingPath && this.cacheFile == cacheFile
      ensures df.None? && model.None? && embeddings.None? && index.None?
      ensures predefinedResponses == PredefinedResponses
      ensures Valid()
    {
      this.csvPath := csvPath;
      this.embeddingPath := embeddingPath;
      this.cacheFile := cacheFile;
      df := None;
      model := None;
      embeddings := None;
      index := None;
      predefinedResponses := PredefinedResponses;
    }

    /** `_load_data`: keep the rows when the file has both columns. */
    method LoadData(csv: CsvFile) returns (r: Result<(), InitError>)
      modifies this
      ensures r.Ok? <==> LoadCorpus(csv).Ok?
      ensures r.Err? ==> r.error == LoadCorpus(csv).error && df == old(df)
      ensures r.Ok? ==> df == Some(LoadCorpus(csv).value)
      ensures model == old(model) && embeddings == old(embeddings) && index == old(index)
      ensures predefinedResponses == old(predefinedResponses)
    {
      var loaded := LoadCorpus(csv);
      if loaded.Err? {
        return Err(loaded.error);
      }
      df := Some(loaded.value);
      r := Ok(());
    }

    /** `_initialize_model`: the loaded model is an input here. */
    method InitializeModel(sentenceModel: SentenceModel)
      modifies this
      ensures model == Some(sentenceModel)
      ensures df == old(df) && embeddings == old(embeddings) && index == old(index)
      ensures predefinedResponses == old(predefinedResponses)
    {
      model := Some(sentenceModel);
    }

    /** `load_or_compute_embeddings`: read the file, use it when it holds one
        row per FAQ entry, otherwise encode every row's text and save. */
    method LoadOrComputeEmbeddings() returns (r: Result<Matrix, InitError>)
      modifies cacheFile
      ensures var step := ResolveEmbeddings(old(cacheFile.content), df, model);
              r == step.result && cacheFile.content == step.file
    {
      var notFound: bool;
      match cacheFile.content {
        case Absent =>
          notFound := true;
        case Unreadable =>
          notFound := false;
        case Stored(loaded) =>
          if df.None? {
            notFound := false;
          } else if |loaded| != |df.value| {
            notFound := true;
          } else {
            return Ok(loaded);
          }
      }
      if notFound && df.None? {
        return Err(DataNotLoaded);
      }
      if model.None? {
        return Err(ModelNotLoaded);
      }
      if df.None? {
        return Err(DataNotLoaded);
      }
      var computed := EncodeAll(model.value, Texts(df.value));
      cacheFile.Save(computed);
      r := Ok(computed);
    }

    /** `_build_faiss_index`: a fresh flat index of the embeddings' width
        holding every row, or an error for an empty array. */
    method BuildFaissIndex() returns (r: Result<(), InitError>)
      modifies this
      ensures r.Err? <==> embeddings.None? || IsEmptyArray(embeddings.value)
      ensures r.Err? ==> r.error == EmptyEmbeddings && index == old(index)
      ensures r.Ok? ==> && index.Some? && fresh(index.value)
                        && index.value.d == Width(embeddings.value)
                        && index.value.vectors == embeddings.value
      ensures df == old(df) && model == old(model) && embeddings == old(embeddings)
      ensures predefinedResponses == old(predefinedResponses)
    {
      if embeddings.None? || IsEmptyArray(embeddings.value) {
        return Err(EmptyEmbeddings);
      }
      var e := embeddings.value;
      var flat := new FlatL2Index(Width(e));
      flat.Add(e);
      index := Some(flat);
      r := Ok(());
    }

    /** `ChatbotCore(csv_path, embedding_path)`: the constructor followed by
        its four steps; the first error aborts construction. */
    static method Create(csvPath: string, embeddingPath: string, csv: CsvFile,
                         sentenceModel: SentenceModel, cacheFile: NpyFile)
      returns (r: Result<ChatbotCore, InitError>)
      modifies cacheFile
      ensures var s := Startup(csv, old(cacheFile.content), sentenceModel);
              && cacheFile.content == s.file
              && (s.engine.Err? ==> r == Err(s.engine.error))
              && (s.engine.Ok? ==>
                    && r.Ok? && fresh(r.value) && r.value.Valid()
                    && r.value.csvPath == csvPath && r.value.embeddingPath == embeddingPath
                    && r.value.cacheFile == cacheFile
                    && r.value.df == Some(s.engine.value.rows)
                    && r.value.model == Some(sentenceModel)
                    && r.value.embeddings == Some(s.engine.value.embeddings)
                    && r.value.IndexView() ==
                         Some(IndexState(Width(s.engine.value.embeddings), s.engine.value.embeddings))
                    && r.value.predefinedResponses == PredefinedResponses)
    {
      var core := new ChatbotCore(csvPath, embeddingPath, cacheFile);
      var loaded := core.LoadData(csv);
      if loaded.Err? {
        return Err(loaded.error);
      }
      core.InitializeModel(sentenceModel);
      var computed := core.LoadOrComputeEmbeddings();
      if computed.Err? {
        return Err(computed.error);
      }
      core.embeddings := Some(computed.value);
      var built := core.BuildFaissIndex();
      if built.Err? {
        return Err(built.error);
      }
      r := Ok(core);
    }

    /** `get_response`: blank check, triggers in table order, then a top-1
        search compared against the threshold. */
    method GetResponse(userQuery: string, threshold: real) returns (r: Result<string, QueryFault>)
      requires Valid()
      ensures r == Reply(userQuery, threshold, predefinedResponses, df, model, IndexView())
    {
      if IsBlank(userQuery) {
        return Ok(EmptyQueryMessage);
      }
      var canned := MatchTrigger(Normalize(userQuery));
      if canned.Some? {
        return Ok(canned.value);
      }
      if model.None? || index.None? {
        return Ok(NotInitialisedMessage);
      }
      var queryEmbedding := model.value.embed(userQuery);
      var flat := index.value;
      if flat.NTotal() == 0 {
        return Ok(EmptyIndexMessage);
      }
      var found := flat.Search(queryEmbedding);
      if found.DimensionMismatch? {
        r := Err(QueryWidthMismatch);
      } else if found.distance as real <= threshold {
        r := Ok(df.value[found.row].answer);
      } else {
        r := Ok(OutOfDomainMessage);
      }
      assert r == SearchReply(userQuery, threshold, df.value, model.value, IndexView().value);
    }

    /** The loop over `predefined_responses` in `get_response`: the reply of
        the first trigger, in table order, whose phrase occurs in the
        normalised query. */
    method MatchTrigger(normalized: string) returns (response: Option<string>)
      ensures response == CannedResponse(predefinedResponses, normalized)
    {
      var i := 0;
      while i < |predefinedResponses|
        invariant 0 <= i <= |predefinedResponses|
        invariant forall j :: 0 <= j < i ==> !Contains(normalized, predefinedResponses[j].phrase)
      {
        var trigger := predefinedResponses[i];
        if Contains(normalized, trigger.phrase) {
          assert FirstMatch(predefinedResponses, normalized) == i;
          return Some(trigger.response);
        }
        i := i + 1;
      }
      assert FirstMatch(predefinedResponses, normalized) == |predefinedResponses|;
      response := None;
    }

    /** `get_random_questions`: up to `count` distinct FAQ questions, drawn
        at random; the draw is left unconstrained beyond being a draw. */
    method GetRandomQuestions(count: int) returns (r: Result<seq<string>, SampleFault>, ghost picks: seq<nat>)
      ensures df.None? || df.value == [] ==> r == Ok([])
      ensures df.Some? && df.value != [] && count < 0 ==> r == Err(NegativeSampleSize)
      ensures df.Some? && df.value != [] && count >= 0 ==>
                && r.Ok?
                && |r.value| == (if count > |df.value| then |df.value| else count)
                && IsSampleOf(df.value, r.value, picks)
    {
      if df.None? || df.value == [] {
        return Ok([]), [];
      }
      var rows := df.value;
      var k := count;
      if k > |rows| {
        k := |rows|;
      }
      if k < 0 {
        return Err(NegativeSampleSize), [];
      }
      assert IsDraw(FirstPositions(k), |rows|);
      var drawn: seq<nat> :| |drawn| == k && IsDraw(drawn, |rows|);
      r := Ok(QuestionsAt(rows, drawn));
      picks := drawn;
    }
  }
}
