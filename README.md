# FAQ chatbot engine — a verified Dafny model

This project models `ChatbotCore` in `backend/chatbot_core.py`. That class is the retrieval engine of a cloud-services FAQ chatbot.

**Start-up** (`ChatbotCore.__init__`) runs four steps in a fixed order:
1. It loads the FAQ table from a CSV file. The file must have a `Question` and an `Answer` column. Each row gets a `text` of `Question + ' ' + Answer`.
2. It takes a sentence-embedding model.
3. It loads the embeddings cache from a `.npy` file. The cache is used only when it holds one row per FAQ entry. Otherwise the embeddings are recomputed from the row texts and the file is overwritten.
4. It builds a flat squared-L2 index over the embeddings. Empty embeddings abort start-up.

**A query** (`get_response`) is answered in this order:
1. A blank query gets a prompt.
2. Otherwise the query is normalised: lower-cased, stripped of everything that is not a word character or whitespace, and trimmed. The first trigger phrase of the canned table that occurs in it, in table order, gives the canned reply.
3. Otherwise an engine without a model or an index says so.
4. Otherwise the raw query is embedded and the nearest FAQ row is looked up. Its answer is returned when the squared distance is at most the threshold (0.8 by default). Otherwise an out-of-domain message is returned.

`get_random_questions` returns the questions of up to `count` distinct rows, drawn at random. Two rows may share a question, so the questions themselves need not be distinct. A count larger than the number of rows is clamped to it.

## Project layout

| File | Contents |
|---|---|
| `wrappers.dfy` | `Option` and `Result`. |
| `text.dfy` | The character classes used, `str.lower`, the punctuation filter, `str.strip`, `_normalize_query` and the substring test. |
| `canned.dfy` | The trigger table, in insertion order, and the first-match rule. |
| `vectors.dfy` | Integer vectors, rectangular matrices, squared L2 distance, and the model as a function from text to a vector of fixed width. |
| `flat_index.dfy` | The `IndexFlatL2` class. `Add` appends rows; `Search` is a loop proved equal to an exhaustive first arg-min. |
| `corpus.dfy` | FAQ rows, the CSV outcomes, `_load_data` and the start-up errors. |
| `embedding_cache.dfy` | The `.npy` file as an object, and the cache decision of `load_or_compute_embeddings` as a function. |
| `chatbot_core.dfy` | `Reply`, the specification of `get_response`, and `Startup`, the specification of `__init__`. It also holds the `ChatbotCore` class, whose methods are proved against those specifications, and the sampling lemmas. |

`ChatbotCore.__init__` either raises or yields a working engine. It is modelled as the constructor, which assigns the attributes, followed by the static `Create`. `Create` runs the four steps and returns `Err` with the exception's kind where the source raises.

Two details of the source are easy to miss:
- **Normalisation keeps `_`.** The regex `[^\w\s]` removes every character that is neither a word character nor whitespace, and `\w` matches the underscore.
- **On ties the lowest row wins.** When two rows are equally near, the index returns the lowest row number, because the library's single-result search replaces its candidate only on a strictly smaller distance.

## Model

| member | source | states |
|---|---|---|
| Text.Lower | backend/chatbot_core.py:107 | The result has the same length. Each upper-case letter becomes the lower-case letter at the same alphabet position, and every other character is unchanged. So the result has no upper-case letter, keeps exactly the positions whose characters survive punctuation removal, and is the identity on strings without upper-case letters. |
| Text.LowerAppend | backend/chatbot_core.py:107 | Lower-casing distributes over concatenation. |
| Text.RemovePunctuation | backend/chatbot_core.py:108 | Only word characters and whitespace remain, and no new character appears. The length never grows. The input is unchanged when every character is kept. The result is empty exactly when no character is kept. |
| Text.RemovePunctuationAppend | backend/chatbot_core.py:108 | Punctuation removal distributes over concatenation. |
| Text.RemovePunctuationKeepsWord | backend/chatbot_core.py:108 | Every word character of the input survives. |
| Text.TrimStart | backend/chatbot_core.py:109 | The result is a suffix of the input that does not start with whitespace. Everything dropped is whitespace. |
| Text.TrimEnd | backend/chatbot_core.py:109 | The result is a prefix of the input that does not end with whitespace. Everything dropped is whitespace. |
| Text.Strip | backend/chatbot_core.py:109 | The result has no leading or trailing whitespace and contains only characters of the input. |
| Text.StripIsEmptyIff | backend/chatbot_core.py:123 | `strip()` gives the empty string exactly when every character is whitespace. |
| Text.StripStripped | backend/chatbot_core.py:109 | A string without surrounding whitespace is unchanged by `strip()`. |
| Text.Normalize | backend/chatbot_core.py:105-109 | The normalised query holds only lower-case word characters and whitespace, with no leading or trailing whitespace. |
| Text.NormalizeIdempotent | backend/chatbot_core.py:105-109 | Normalising twice gives the same result as normalising once. |
| Text.NormalFormIsFixed | backend/chatbot_core.py:105-109 | Every string of the normal form is its own normalisation. |
| Text.NormalizeIsEmptyIff | backend/chatbot_core.py:105-109 | The normalised query is empty exactly when the query has no word character. |
| Text.WordCharSurvivesNormalize | backend/chatbot_core.py:105-109 | A query with a word character does not normalise to the empty string. |
| Text.NormalFormComesFromWordChar | backend/chatbot_core.py:105-109 | A non-empty normal form comes from a query with a word character. |
| Text.NormalizeSentence | backend/chatbot_core.py:105-109 | A capitalised run of lower-case words ending in "!" normalises to the same words in lower case, without the mark. |
| Text.NormalizeCapitalised | backend/chatbot_core.py:105-109 | The same, for a first letter and a remainder given separately. |
| Text.LowerCapitalised | backend/chatbot_core.py:107 | Lower-casing such a sentence changes only its first letter. |
| Text.DropFinalMark | backend/chatbot_core.py:108 | Punctuation removal drops a final "!" from a string of kept characters and nothing else. |
| Text.Contains | backend/chatbot_core.py:129 | `phrase in query`: the empty phrase occurs in every query, a prefix of the query occurs in it, and a phrase longer than the query never does. Its exact meaning is stated by `Text.ContainsIff`. |
| Text.ContainsIff | backend/chatbot_core.py:129 | The executable `phrase in query` test holds exactly when the phrase occurs at some position. |
| Text.ContainsTransitive | backend/chatbot_core.py:129 | A query containing a phrase contains every substring of that phrase. |
| Canned.FirstMatch | backend/chatbot_core.py:128-131 | Returns the first table position whose phrase occurs in the query. No earlier phrase occurs. The value is the table length when none occurs. |
| Canned.CannedResponse | backend/chatbot_core.py:128-132 | The loop gives no reply exactly when no phrase of the table occurs in the query. A reply it gives is the reply of a table entry whose phrase occurs. |
| Canned.CannedResponseIsFirstOccurrence | backend/chatbot_core.py:128-131 | Trigger `i` answers exactly when its phrase is a substring of the query and no earlier phrase is (both directions). |
| Canned.NoCannedResponseIff | backend/chatbot_core.py:128-132 | There is no canned reply exactly when no phrase of the table occurs in the query. |
| Canned.GoodbyeIsShadowed | backend/chatbot_core.py:37-38 | "bye" precedes "goodbye" and occurs inside it, so the "goodbye" reply is never returned. |
| Canned.HiWinsInsideWords | backend/chatbot_core.py:31 | "This is a test!" gets the "hi" reply, because "hi" occurs inside "this". |
| Canned.HiOccursIn | backend/chatbot_core.py:128-131 | The normalised text "this is a test" gets the "hi" reply. |
| Canned.HelloThereGetsHelloReply | backend/chatbot_core.py:31-32 | "Hello there!" gets the "hello" reply. "hi" does not occur in it, and "hello" is the next phrase. |
| Canned.HelloOccursIn | backend/chatbot_core.py:128-131 | The normalised text "hello there" gets the "hello" reply, since "hi" does not occur in it. |
| Vectors.SqDist | backend/chatbot_core.py:143-145 | The squared L2 distance is non-negative, and zero exactly for equal vectors. |
| Vectors.EncodeAll | backend/chatbot_core.py:84 | Encoding gives one vector per text, in order, each equal to the model's vector for that text. The array has the model's width. |
| FlatIndex.Nearest | backend/chatbot_core.py:143-146 | The label returned is the first position of a vector at minimal squared distance from the query. |
| FlatIndex.FirstNearestIsUnique | backend/chatbot_core.py:143-146 | At most one position is the first nearest one. |
| FlatIndex.SelfRetrieval | backend/chatbot_core.py:143-146 | Searching with a stored vector finds an identical vector at distance 0, at that row or an earlier duplicate. |
| FlatIndex.SearchResult | backend/chatbot_core.py:143-146 | A top-1 search fails exactly on a query of the wrong width. It finds nothing exactly on an empty index. Otherwise it returns the first nearest row and its distance. |
| FlatIndex.FlatL2Index.constructor | backend/chatbot_core.py:101 | A new index has the given width and no rows. |
| FlatIndex.FlatL2Index.Add | backend/chatbot_core.py:102 | Rows are appended in order, so row `i` of the index is embedding row `i`. The width invariant is kept. |
| FlatIndex.FlatL2Index.Search | backend/chatbot_core.py:143-146 | The scan returns exactly `SearchResult` for the current rows. |
| Corpus.FaqEntry.Text | backend/chatbot_core.py:58 | A row's text is its question, one space, then its answer. |
| Corpus.LoadCorpus | backend/chatbot_core.py:49-58 | A missing file raises the not-found error, and only then. A table without both columns raises the column error, and only then. Loading succeeds exactly for a table with both columns and yields its rows in order. |
| Corpus.Texts | backend/chatbot_core.py:84 | The text list has one entry per row, in row order. |
| EmbeddingCache.NpyFile.Save | backend/chatbot_core.py:85 | Saving replaces the file's content with the array. |
| EmbeddingCache.ResolveEmbeddings | backend/chatbot_core.py:66-93 | A success has one row per FAQ entry, and the file then holds exactly the result. A failure leaves the file untouched. A cache that is not valid is replaced by the encoded row texts. |
| EmbeddingCache.Recompute | backend/chatbot_core.py:84-87 | Recomputation returns one row per FAQ entry and saves exactly what it returns. |
| EmbeddingCache.ValidCacheIsUsedAsIs | backend/chatbot_core.py:73-78 | A cache with one row per FAQ entry is returned unchanged, the file is left alone, and no model is needed. |
| EmbeddingCache.StaleCacheIsRecomputed | backend/chatbot_core.py:74-87 | A missing, unreadable or mis-sized cache is replaced by the encoded row texts, and the result is that array. |
| EmbeddingCache.EmbeddingsAlignWithRows | backend/chatbot_core.py:71-93 | With rows and a model, the call succeeds and the result has one row per FAQ entry, whatever the file held. |
| EmbeddingCache.CacheIsStable | backend/chatbot_core.py:73-78 | After a success, resolving again returns the same array and writes nothing. |
| EmbeddingCache.FileKeptIffValid | backend/chatbot_core.py:74 | The validity rule `len(embeddings) == len(df)`: a successful call leaves the file as it was exactly when the file holds one row per FAQ entry. Every other success overwrites it. |
| EmbeddingCache.SaveThenLoad | backend/chatbot_core.py:73-85 | After `np.save` of an array with one row per FAQ entry, the file holds that array, and resolving the cache returns it unchanged and writes nothing, with or without a model. |
| EmbeddingCache.RecomputedWidthIsModelWidth | backend/chatbot_core.py:84 | Recomputed embeddings have the model's width. |
| Chatbot.Reply | backend/chatbot_core.py:111-156 | `get_response` as a function of the state. It can fail only when both the model and the index are present and their widths differ. |
| Chatbot.SearchReply | backend/chatbot_core.py:137-156 | The search stage fails exactly when the index is non-empty and its width differs from the model's. |
| Chatbot.IsBlank | backend/chatbot_core.py:123 | `not user_query.strip()`: a query is blank exactly when `strip()` empties it. |
| Chatbot.ReplyStages | backend/chatbot_core.py:123-138 | The stages of `get_response` in order: the prompt for a blank query, then the first matching trigger's reply, then the not-initialised message without a model or an index, then the search stage. |
| Chatbot.BlankQueryGetsPrompt | backend/chatbot_core.py:123-124 | A whitespace-only query gets the prompt, whatever the table, model or index. |
| Chatbot.PromptOnlyForBlankQuery | backend/chatbot_core.py:123-156 | A query that is not blank never gets the prompt, unless a reply or answer is the prompt's text. |
| Chatbot.CannedNeverSays | backend/chatbot_core.py:128-131 | A canned reply is always one of the table's replies. |
| Chatbot.SearchNeverPrompts | backend/chatbot_core.py:140-156 | The search stage never returns the prompt, unless an FAQ answer is its text. |
| Chatbot.CannedReplyPrecedesSearch | backend/chatbot_core.py:127-131 | A non-blank query whose first occurring trigger is `i` gets reply `i`, with or without a model and index. |
| Chatbot.UntriggeredQueryReachesSearch | backend/chatbot_core.py:127-138 | A non-blank query that matches no trigger gets the not-initialised message without a model or index. With both, it gets the search stage's answer. |
| Chatbot.NotInitialisedOnlyWithoutTrigger | backend/chatbot_core.py:128-135 | The not-initialised message is given only to a non-blank query that matches no trigger. |
| Chatbot.ThresholdDecision | backend/chatbot_core.py:143-156 | For the first nearest row `k`: the reply is row `k`'s answer when its distance is at most the threshold, and the out-of-domain message otherwise. |
| Chatbot.ThresholdIsMonotone | backend/chatbot_core.py:148-156 | Raising the threshold keeps every other reply. Lowering it keeps every out-of-domain reply. |
| Chatbot.SearchThresholdIsMonotone | backend/chatbot_core.py:148-156 | The same for the search stage. |
| Chatbot.StoredVectorIsAnswered | backend/chatbot_core.py:138-153 | A query embedded exactly as stored row `i` gets, for any non-negative threshold, the answer of the first row with that vector. |
| Chatbot.Startup | backend/chatbot_core.py:43-47 | A successful start has at least one row, one embedding per row, non-zero width, and the embeddings saved in the file. A load failure is returned with the file untouched. |
| Chatbot.EmptyCorpusCannotStart | backend/chatbot_core.py:97-98 | An FAQ file without rows never yields an engine; start-up fails on empty embeddings. |
| Chatbot.RecomputingStartSucceeds | backend/chatbot_core.py:43-47 | A start that recomputes the cache, with rows and a model of non-zero width, succeeds. |
| Chatbot.RestartUsesCache | backend/chatbot_core.py:73-78 | Starting again on the file a successful start left gives the same engine and rewrites nothing. |
| Chatbot.FreshEngineNeverFaults | backend/chatbot_core.py:138-143 | On an engine whose embeddings the model computed, no query fails the index's width check. |
| Chatbot.FirstPositions | backend/chatbot_core.py:169 | `k` distinct positions, each below any `n >= k`. So `random.sample` can draw `min(count, n)` rows. |
| Chatbot.Picked | backend/chatbot_core.py:169 | The set of drawn positions holds exactly the drawn positions. |
| Chatbot.PickedSize | backend/chatbot_core.py:169 | Distinct positions make a set of the same size. |
| Chatbot.DrawOfAllCoversAll | backend/chatbot_core.py:169 | A draw of as many positions as there are rows takes every row. |
| Chatbot.QuestionsAt | backend/chatbot_core.py:169 | The sample holds the questions of the drawn rows, in draw order. |
| Chatbot.FullSampleHasEveryQuestion | backend/chatbot_core.py:165-169 | Asking for at least as many questions as there are rows returns every question. |
| Chatbot.ChatbotCore.constructor | backend/chatbot_core.py:21-40 | The paths are stored and the four attributes are unset. The trigger table is the source's, in order. |
| Chatbot.ChatbotCore.LoadData | backend/chatbot_core.py:49-58 | The data frame is set exactly when loading succeeds. The error is the loader's. Nothing else changes. |
| Chatbot.ChatbotCore.InitializeModel | backend/chatbot_core.py:61-64 | The model is set. Nothing else changes. |
| Chatbot.ChatbotCore.LoadOrComputeEmbeddings | backend/chatbot_core.py:66-93 | The try/except paths give exactly the result and the file of `ResolveEmbeddings`. |
| Chatbot.ChatbotCore.BuildFaissIndex | backend/chatbot_core.py:95-103 | It fails exactly on absent or empty embeddings, leaving the index alone. Otherwise it installs a fresh index of the embeddings' width holding exactly the embeddings. |
| Chatbot.ChatbotCore.Create | backend/chatbot_core.py:12-47 | Construction follows `Startup`. It fails with `Startup`'s error. On success the engine is valid and holds `Startup`'s rows, the model, the embeddings, and an index of exactly those embeddings. |
| Chatbot.ChatbotCore.GetResponse | backend/chatbot_core.py:111-156 | The method returns exactly `Reply` for the engine's state. |
| Chatbot.ChatbotCore.MatchTrigger | backend/chatbot_core.py:128-131 | The trigger loop returns exactly the first-match reply. |
| Chatbot.ChatbotCore.GetRandomQuestions | backend/chatbot_core.py:158-170 | No rows gives `[]`. A negative count raises. Otherwise the result has `min(count, n)` questions of distinct rows. |

## Left out

- Character classes: Python's `\w` and `str.lower` also cover non-ASCII letters and digits. The model treats only ASCII letters, digits and `_` as word characters, so it drops other letters as punctuation. Whitespace is the full table `str.strip` uses.
- Floating point: vectors and distances are integers in the model, not float32. The threshold is a real number compared with the exact integer distance.
- Values read from the CSV: the file is given as an outcome (missing, unparsable, or a table of rows). The model does not cover pandas parsing, missing cells (NaN), non-string cells, or the separate `os.path.exists` test.
- Chatbot.ChatbotCore.LoadData: when the columns are missing, the source has already assigned the new data frame before raising. The model leaves `df` as it was. Start-up aborts either way.
- The `.npy` file: it is given as an outcome (absent, unreadable, or a 2-D array). A 1-D or higher-dimensional array is not modelled. A stored array of another width is accepted, as in the source, and surfaces as `QueryWidthMismatch` in `get_response`.
- EmbeddingCache.NpyFile.Save: a failing `np.save` (for example an unwritable directory) is not modelled. Saving always succeeds, although in the source the error escapes `load_or_compute_embeddings` and aborts start-up. `EmbeddingCache.Recompute` and `EmbeddingCache.ResolveEmbeddings` therefore never fail once there are rows and a model.
- The sentence model: it is an input. Downloading and loading it (`SentenceTransformer(...)`), and any failure of that, are not modelled. Its `encode` is a deterministic function of the text, of fixed width.
- Chatbot.ChatbotCore.GetRandomQuestions: the choice is any sequence of distinct rows of the right length. Uniformity of Python's `random` is not modelled.
- Default arguments: `get_response` and `get_random_questions` take the threshold (0.8 by default) and the count (6 by default) explicitly.
- Logging (`print`), `backend/chatbot_api.py` (the HTTP layer), `backend/chatbot.py` (a separate Streamlit script) and the React front end are not part of this model.
