# chatbot_backend in Dafny

A model of the retrieval-augmented news chat backend `chatbot_backend`. The backend has these parts:

- **Durable store.** A Redis key-value store: `utils/redisClient.js`, with its reconnect back-off.
- **Vector index.** An in-memory list of articles with embeddings, mirrored into the store under `article:<guid>`, with a summary under `vectorstore:metadata`. Searching it ranks articles by cosine similarity (`services/vectorStore.js`).
- **Embedding provider.** It tries the cache under `embedding:<Base64 prefix>` first, then the remote Jina service, then a locally computed fallback vector (`services/embeddingService.js`).
- **Answer synthesis.** The numbered context handed to Gemini, with the local fallback summary when Gemini gives no candidate (`services/geminiService.js`).
- **Chat service.** Session histories under `chat:<sessionId>`, cut to the last 50 messages. A chat turn records the user message, embeds it, searches, answers and records the bot message, and records an error message when anything throws (`services/chatService.js`).
- **News ingestion.** RSS items are mapped to articles. Every article of every feed is then embedded and stored, in batches of five (`services/newsIngestion.js`).
- **HTTP routes.** The validation chain of `POST /chat`, the history routes and the ingestion route (`routes/chat.js`).

## How the model is built

**Files.**

- `records.dfy`: the stored values. A stored JSON text is modelled by what `JSON.parse` gives back: an article, a history, an embedding, a summary, or text that does not parse.
- `redis_client.dfy`: the store. It is the class `KeyValueStore`, with a `map` field that `SetEx` and `Del` update in place.
- `vector_store.dfy`: the index. It is the class `VectorIndex`, with the in-memory `entries` and the store it mirrors into.

**Methods and specification functions.** Every operation that changes state is a method. Its `ensures` ties the new state and its result to a specification function on values (a `World` is the index's entries together with the store's map), and the properties the source promises are proved as lemmas about those functions.

**Inputs outside the program are parameters.** These are:

- the remote embedding service and Gemini;
- the RSS parser and the HTML-to-text conversion;
- the clock, `uuid` and `Math.random`;
- `Math.sqrt`.

Each store operation that can throw takes a flag saying whether it does.

**Loops kept as loops.** Loops in the source stay `while` loops with invariants:

- the cosine sums;
- the fallback embedding's accumulation over an `array`, its sum of squares and its normalisation;
- the reload loop;
- the fallback answer's entry loop;
- the feed loop;
- the batch loop of ingestion.

**What the proofs show.** Among others:

- **Search.** It returns at most `limit` articles, all above the threshold, in non-increasing order of similarity. It misses no article above the threshold unless it is already full of articles that rank before it.
- **Embedding cache.** A cached vector is used whatever the remote service would say, and a remote vector is cached. Two texts that agree on their first 38 characters share one cache entry, because the key keeps only 50 Base64 characters. Distinct texts of at most 36 bytes never share one.
- **Saving a message.** It appends the message and keeps the last 50. Every history stays bounded by 50 through a whole chat turn, and other sessions are not touched.
- **A successful turn.** When the bot save's history read does not throw, it appends exactly the user message and the bot message to the session's history. Its reply's sources are ranked. It is `low` relevance exactly when no article matched.
- **A failed turn.** It leaves the error message last in the history.
- **`POST /chat`.** It answers 400 without touching anything for the three invalid cases, in their order. For an accepted message it answers 500 only when writing a chat message throws.
- **Ingestion.** It stores one entry per fetched article, in order. It reports how many store calls succeeded and pauses once between consecutive batches.

## Model

| member | source | states |
|---|---|---|
| Text.Trim | services/embeddingService.js:76-80 | `trim()` removes exactly the leading and trailing JavaScript white space: the result is a slice of the input with only white space around it, it neither starts nor ends with white space, and it is empty exactly when the input is all white space (the `message.trim().length === 0` test of the chat route) |
| Text.FirstNonSpace | services/embeddingService.js:80 | the forward scan of `trim()` stops at the first character that is not white space, after only white space |
| Text.TrimmedEnd | services/embeddingService.js:80 | the backward scan of `trim()` stops after the last character that is not white space, passing over only white space |
| Text.TrimUnique | services/embeddingService.js:80 | any slice of the text with only white space around it and none at its ends is what `trim()` returns, so `trim()` is determined by that description alone |
| Text.TrimIdempotent | services/embeddingService.js:80 | trimming an already trimmed message (the route trims, the embedding service trims again) changes nothing |
| Text.JoinHoldsPart | services/geminiService.js:73 | every part occurs in the joined text (`Join`, the parts with the separator between them) at the returned position |
| Text.Prefix | services/newsIngestion.js:75 | `substring(0, n)` is a prefix of the text, of length `n` or the whole text when shorter |
| Text.NatToString | services/geminiService.js:9 | the decimal text of a number is non-empty, all digits, and has no leading zero |
| Text.DecimalRoundTrip | services/geminiService.js:9 | reading the decimal text back gives the number |
| Text.NatToStringInjective | services/geminiService.js:9 | distinct numbers have distinct decimal texts |
| Records.ArticleKey | services/vectorStore.js:49 | an article's record key lies in the `article:` namespace |
| Records.ChatKey | services/chatService.js:89 | a session's history key lies in the `chat:` namespace |
| Records.NamespacesDisjoint | services/vectorStore.js:91 | the `article:`, `chat:` and `embedding:` namespaces and the summary key never overlap, so the scan for `article:*` sees only article records |
| Records.ChatKeyInjective | services/chatService.js:114-116 | distinct sessions write to distinct keys |
| RedisClient.SortedKeys | services/vectorStore.js:91 | the key list returned holds every key of the set exactly once |
| RedisClient.KeysWithPrefix | services/vectorStore.js:91 | `KEYS article:*` lists exactly the stored keys that start with the prefix |
| RedisClient.KeyValueStore.constructor | utils/redisClient.js:3-14 | a new client sees exactly the keys the server already holds, which is why the index reloads from the store |
| RedisClient.KeyValueStore.Get | services/vectorStore.js:95 | `GET` returns the stored value or nothing, or throws when it fails, and changes nothing |
| RedisClient.KeyValueStore.SetEx | services/vectorStore.js:50 | `SETEX` overwrites exactly that key, or throws and changes nothing |
| RedisClient.KeyValueStore.Del | services/chatService.js:129 | `DEL` removes exactly the given keys, or throws and changes nothing |
| RedisClient.KeyValueStore.Keys | services/vectorStore.js:91 | `KEYS` returns exactly the keys with the prefix, or throws |
| RedisClient.ReconnectStrategy | utils/redisClient.js:6-12 | the client gives up after more than 10 retries with "Max retries reached"; otherwise it waits 100 ms per retry, which never exceeds 1000 ms, so the 3000 ms cap is never reached |
| RedisClient.ReconnectMonotone | utils/redisClient.js:11 | more retries never mean a shorter wait |
| VectorStore.Normalised | services/vectorStore.js:23-30 | the similarity is 0 when either norm is 0, and otherwise multiplied by the product of the norms gives back the dot product |
| VectorStore.Cosine | services/vectorStore.js:8-31 | cosine similarity fails exactly on vectors of different lengths, with the length error |
| VectorStore.CosineSimilarity | services/vectorStore.js:8-31 | the loop's three running sums give the cosine similarity defined above |
| VectorStore.DotSymmetric | services/vectorStore.js:17-21 | the dot product does not depend on the order of its arguments |
| VectorStore.DotWithZero | services/vectorStore.js:17-21 | the dot product with a zero vector is 0 |
| VectorStore.CosineSymmetric | services/vectorStore.js:8-31 | the similarity of a query to an article equals that of the article to the query, errors included |
| VectorStore.CosineWithZeroVector | services/vectorStore.js:26-28 | a zero vector is similarity 0 to every vector of its length |
| VectorStore.KeepAbove | services/vectorStore.js:75 | the `filter` step keeps exactly the articles strictly above the threshold |
| VectorStore.Take | services/vectorStore.js:77 | `slice(0, limit)` is a prefix of at most `limit` results, the whole list when it is short enough |
| VectorStore.Rank | services/vectorStore.js:70-77 | ranking fails exactly when some article cannot be compared with the query |
| VectorStore.KeepAboveInStoreOrder | services/vectorStore.js:75 | filtering keeps store order |
| VectorStore.InsertKeepsRankOrder | services/vectorStore.js:76 | inserting an article into a ranked list keeps it ranked and adds exactly that article |
| VectorStore.SortRanks | services/vectorStore.js:76 | the sort is a permutation ordered by descending similarity, ties in store order (a stable sort) |
| VectorStore.RankedCandidates | services/vectorStore.js:70-76 | after filtering and sorting, the candidates are exactly the articles above the threshold, ranked |
| VectorStore.RankSound | services/vectorStore.js:70-77 | every result is a stored article with its own similarity (the `map` step, `Scores`, scores each article in store order), above the threshold; there are at most `limit`, ranked |
| VectorStore.RankComplete | services/vectorStore.js:70-77 | an article above the threshold is returned unless `limit` results that rank before it are returned instead |
| VectorStore.DistinctSpec | services/vectorStore.js:115 | `[...new Set(...)]` keeps exactly the values of the list, each once |
| VectorStore.MetadataSummarises | services/vectorStore.js:111-119 | the summary counts every in-memory article and lists each source of an article exactly once (`SourcesOf` maps the articles to their sources) |
| VectorStore.StoreAppends | services/vectorStore.js:34-60 | storing appends one element even when a write throws afterwards; the call succeeds exactly when both writes do; the record lands under `article:<guid>` and the summary describes the new list; no other key changes |
| VectorStore.StoreSameGuidTwice | services/vectorStore.js:37-50 | storing two articles with one guid leaves two in-memory elements with that id but a single durable record, the later one |
| VectorStore.LoadStepsSpec | services/vectorStore.js:94-102 | the reload loop pushes only records that carry an embedding; when no read fails and every record parses, it pushes all of them |
| VectorStore.ReloadSpec | services/vectorStore.js:89-108 | a reload appends only stored article records with an embedding, and all of them when neither the scan nor a read fails |
| VectorStore.LoadStepsStop | services/vectorStore.js:105-107 | once a read or a parse throws, the rest of the keys are skipped |
| VectorStore.SearchSpecFacts | services/vectorStore.js:63-86 | a search writes nothing durable; it reloads only an empty index; it returns nothing when an article cannot be compared; and it returns at most `limit` results |
| VectorStore.SearchResultsRanked | services/vectorStore.js:70-81 | the search results are above the threshold and in non-increasing order of similarity |
| VectorStore.SearchEmptyFindsNothing | services/vectorStore.js:65-68 | an empty index over a store without article records finds nothing |
| VectorStore.ClearEmpties | services/vectorStore.js:143-151 | clearing always empties the in-memory list; it succeeds exactly when no store call throws; then no record and no summary remain, and every other key is kept |
| VectorStore.VectorIndex.constructor | services/vectorStore.js:5 | the index starts empty over the given store |
| VectorStore.VectorIndex.UpdateStoreMetadata | services/vectorStore.js:111-119 | the summary of the current list is written under the summary key, or the write throws and nothing changes |
| VectorStore.VectorIndex.StoreArticle | services/vectorStore.js:34-60 | `storeArticle` changes the index and the store as the store specification says (see `StoreAppends`) |
| VectorStore.VectorIndex.LoadStoreFromRedis | services/vectorStore.js:89-108 | the reload loop appends exactly the reloaded records (see `ReloadSpec`) to the list |
| VectorStore.VectorIndex.LoadRecords | services/vectorStore.js:94-102 | reading the listed keys one by one appends to the list exactly what the key-by-key reload specification loads, stopping at the first read or parse that throws (see `LoadStepsStop`) |
| VectorStore.VectorIndex.SearchSimilarArticles | services/vectorStore.js:63-86 | `searchSimilarArticles` reloads and ranks as the search specification says (see `SearchResultsRanked`) |
| VectorStore.VectorIndex.ClearVectorStore | services/vectorStore.js:143-151 | `clearVectorStore` changes the index and the store as the clear specification says (see `ClearEmpties`) |
| Encoding.EncodeScalar | services/embeddingService.js:10 | a character takes 1 to 4 UTF-8 bytes, and exactly one when it is ASCII |
| Encoding.Utf8 | services/embeddingService.js:10 | `Buffer.from(text)` has at least one byte per character |
| Encoding.Utf8Append | services/embeddingService.js:10 | the bytes of two texts joined are the bytes of each, joined |
| Encoding.DecodeEncodeScalar | services/embeddingService.js:10 | a character's UTF-8 bytes decode back to that character, whatever bytes follow |
| Encoding.Utf8RoundTrip | services/embeddingService.js:10 | decoding the UTF-8 bytes of a text gives the text back |
| Encoding.Utf8Injective | services/embeddingService.js:10 | distinct texts have distinct UTF-8 bytes |
| Encoding.Utf8SharedPrefix | services/embeddingService.js:10 | texts agreeing on their first n characters agree on their first n bytes |
| Encoding.Base64 | services/embeddingService.js:10 | `toString('base64')` has 4 characters per started group of 3 bytes |
| Encoding.SextetRoundTrip | services/embeddingService.js:10 | every Base64 digit reads back as its value |
| Encoding.Base64RoundTrip | services/embeddingService.js:10 | decoding the Base64 text gives the bytes back |
| Encoding.Base64Split | services/embeddingService.js:10 | Base64 of bytes split at a multiple of 3 is the Base64 of the parts, joined |
| Encoding.Base64SharedLead | services/embeddingService.js:10 | bytes agreeing on their first 38 have Base64 texts agreeing on their first 50 characters |
| EmbeddingService.CacheKey | services/embeddingService.js:10 | the cache key lies in the `embedding:` namespace and keeps at most 50 Base64 characters |
| EmbeddingService.CacheKeySharedPrefix | services/embeddingService.js:10 | two texts agreeing on their first 38 characters get the same cache key |
| EmbeddingService.CacheKeyShortTextsDistinct | services/embeddingService.js:10 | distinct texts of at most 36 UTF-8 bytes get distinct cache keys |
| EmbeddingService.ValidateText | services/embeddingService.js:75-81 | empty or white-space-only text is rejected with "Text cannot be empty"; other text is passed on trimmed |
| EmbeddingService.ValidateIdempotent | services/embeddingService.js:76-80 | text that passed the check passes it again unchanged |
| EmbeddingService.LowerIdempotent | services/embeddingService.js:54 | lower-casing twice is lower-casing once |
| EmbeddingService.Words | services/embeddingService.js:54 | `split(/\s+/)` always yields at least one word |
| EmbeddingService.WordsHaveNoWhitespace | services/embeddingService.js:54 | no word contains white space |
| EmbeddingService.WordsConcat | services/embeddingService.js:54 | the words, joined, are the text without its white space: splitting loses no other character |
| EmbeddingService.AddWord | services/embeddingService.js:57-61 | adding a word's contribution keeps the dimension |
| EmbeddingService.Accumulate | services/embeddingService.js:55-61 | the accumulated vector has 384 dimensions |
| EmbeddingService.AccumulateZeroBeyond | services/embeddingService.js:57-61 | words of at most n characters leave every coordinate from n on at 0 |
| EmbeddingService.FallbackVector | services/embeddingService.js:53-72 | the fallback embedding has 384 dimensions, starting from `Zeros` |
| EmbeddingService.Normalise | services/embeddingService.js:64-69 | the normalised vector times the magnitude gives the raw vector back when the magnitude is positive; otherwise the raw vector is kept (`Divided` is the in-place division) |
| EmbeddingService.FallbackZeroBeyond | services/embeddingService.js:53-72 | the fallback embedding of a text whose words have at most n characters is 0 from coordinate n on |
| EmbeddingService.FallbackIgnoresCase | services/embeddingService.js:54 | the fallback embedding does not depend on ASCII letter case (`Lower` folds A–Z) |
| EmbeddingService.AddWords | services/embeddingService.js:57-61 | the nested loop over words and characters leaves the accumulated vector in the array, each round of the outer loop adding one word's contribution (`AccumulateStep`) |
| EmbeddingService.AddWordInto | services/embeddingService.js:58-60 | the character loop adds the weighted code of each character to its position, for the positions the word and the 384-element array both have, and leaves every other entry as it was |
| EmbeddingService.SumOfSquares | services/embeddingService.js:64 | the `reduce` computes the squared magnitude |
| EmbeddingService.DivideBy | services/embeddingService.js:65-69 | the loop divides each coordinate of the array in place by the magnitude |
| EmbeddingService.GenerateFallbackEmbedding | services/embeddingService.js:53-72 | `generateFallbackEmbedding` returns the fallback vector defined above |
| EmbeddingService.GenerateEmbedding | services/embeddingService.js:8-50 | `generateEmbedding` changes the store and returns the vector as the cache-first specification says (see the next five rows) |
| EmbeddingService.CacheHitIgnoresRemote | services/embeddingService.js:13-16 | a cached vector is returned unchanged, the store is untouched and the remote service is not consulted |
| EmbeddingService.ReadErrorTakesRemotePath | services/embeddingService.js:17-19 | a failing cache read is treated as a miss |
| EmbeddingService.RemoteAnswerCached | services/embeddingService.js:21-42 | on a miss the remote vector is returned and cached under the text's key, unless the cache write throws, which is ignored |
| EmbeddingService.FallbackNotCached | services/embeddingService.js:43-49 | when the remote service fails the fallback vector is returned and nothing is cached |
| EmbeddingService.SecondCallHitsCache | services/embeddingService.js:13-40 | after a cached remote answer, the same text is answered from the cache with the same vector |
| EmbeddingService.GenerateWritesOnlyItsKey | services/embeddingService.js:8-50 | embedding a text changes no key other than its own cache key |
| EmbeddingService.GetEmbeddingForText | services/embeddingService.js:75-81 | `getEmbeddingForText` rejects blank text and otherwise embeds the trimmed text |
| EmbeddingService.EmbeddingIgnoresSurroundingWhitespace | services/embeddingService.js:75-81 | texts that differ only in surrounding white space get the same outcome and the same store |
| GeminiService.ContextBlock | services/geminiService.js:9 | an article's block opens with `[Source <index + 1>: ` |
| GeminiService.ContextSnoc | services/geminiService.js:7-11 | one more article adds `\n---\n` and its block, numbered next, and leaves the earlier context unchanged, so the `map` then `Join` equals building the context block by block |
| GeminiService.ContextHoldsEveryBlock | services/geminiService.js:7-11 | every article's block occurs in the context (`Blocks` numbers the blocks by position) |
| GeminiService.BlockLabelsDistinct | services/geminiService.js:8-9 | blocks at different positions are different texts whatever the articles, since their numbers differ |
| GeminiService.Excerpt | services/geminiService.js:80 | an excerpt is a prefix of at most 200 characters of the content followed by `...`, and exactly 200 when the content is that long |
| GeminiService.GenerateFallbackAnswer | services/geminiService.js:68-86 | the appending loop builds the fallback text: the fixed text for no articles; otherwise the header, the first three articles numbered 1, 2, 3 (`Items`, one entry per round, as `AppendEntry` and `ItemsNumbered` show), and the trailer |
| GeminiService.GenerateAnswerWithoutModel | services/geminiService.js:53-71 | when the model call fails or gives no candidate, the answer is the fixed "not enough information" text exactly when there are no articles |
| GeminiService.GenerateAnswerNamesSource | services/geminiService.js:53-76 | when the model call fails or gives no candidate, the answer still names the source of every article |
| GeminiService.GenerateAnswerSeesContext | services/geminiService.js:8-64 | the answer depends on the model only through its reply to the numbered context and the question |
| GeminiService.FallbackEmptyIff | services/geminiService.js:69-71 | the fixed "not enough information" text is the answer exactly when there are no articles |
| GeminiService.FallbackNamesEverySource | services/geminiService.js:73-76 | the fallback answer names the source of every article, not only the three listed (`Sources` lists them in article order) |
| GeminiService.TrailerPlural | services/geminiService.js:83 | the trailer says `articles` exactly when the count exceeds 1 |
| ChatService.HistoryOf | services/chatService.js:87-98 | a non-empty history is exactly what is stored under the session's key; a missing key, a failed read or an unparseable value gives the empty history |
| ChatService.Window | services/chatService.js:112 | `slice(-50)` keeps the last 50 messages, or all of them when there are fewer |
| ChatService.WindowTwice | services/chatService.js:112 | saving two messages one after the other keeps the same window as appending both at once |
| ChatService.SaveAppends | services/chatService.js:100-125 | after a successful save the history is the old one plus the stamped message (`Stamp`: its own id when it has one, else a fresh id), cut to the last 50, ending with that message |
| ChatService.SaveOutcome | services/chatService.js:100-125 | a save succeeds exactly when the write does; a failed save changes nothing; no key other than the session's changes |
| ChatService.HistoryAfterWrite | services/chatService.js:87-98 | a history written under the session's key is what the next read of the session returns |
| ChatService.SaveKeepsOtherSessions | services/chatService.js:114-118 | saving to one session leaves every other session's history as it was |
| ChatService.SaveAfterReadErrorKeepsOnlyNew | services/chatService.js:100-118 | when reading the history throws, the save overwrites it with the new message alone |
| ChatService.SaveKeepsBound | services/chatService.js:112 | a save keeps every history at 50 messages or fewer |
| ChatService.GetChatHistory | services/chatService.js:87-98 | `getChatHistory` returns the history as specified, and never throws |
| ChatService.SaveMessageToSession | services/chatService.js:100-125 | `saveMessageToSession` changes the store and returns as the save specification says (see `SaveAppends`) |
| ChatService.ClearSessionHistory | services/chatService.js:127-135 | clearing deletes exactly the session's key and returns true, or throws and changes nothing |
| ChatService.ClearEmptiesHistory | services/chatService.js:127-135 | after clearing, the session's history is empty and every other session's is unchanged |
| ChatService.NoResultsText | services/chatService.js:25-35 | the no-results reply quotes the question right after its opening words |
| ChatService.RecordFailure | services/chatService.js:71-83 | the `catch` block saves the error message and re-throws, as the failure specification says (see `FailRecords`) |
| ChatService.ProcessUserMessage | services/chatService.js:9-85 | `processUserMessage` changes the index and the store and returns as the turn specification says (see the lemmas below) |
| ChatService.FailRecords | services/chatService.js:71-83 | a failure leaves the error message last in the history, or, when that save throws too, fails with the store error; the index is untouched |
| ChatService.ReplyShape | services/chatService.js:23-69 | the reply is `low` exactly when nothing matched; otherwise it lists one source per result, in order, with its title, its url or `null`, and its similarity (`SourceRefs`); ranked results give a well-shaped reply; the titles saved with the bot message (`Titles`) are those of the reply's sources (`SourceTitles`) |
| ChatService.AnswerStep | services/chatService.js:24-69 | after the search, a failure is recorded; on success the bot message is appended; ranked results give a well-shaped reply; relevance is low exactly when nothing matched |
| ChatService.AnswerFailsOnlyOnStore | services/chatService.js:50-69 | answering can fail only through the store, since Gemini's failures fall back to the summary |
| ChatService.EmbeddingKeepsHistories | services/chatService.js:19 | embedding the question never changes a stored history |
| ChatService.EmbeddingKeepsHistory | services/chatService.js:19 | embedding the question leaves every session's history as it was |
| ChatService.EmbeddingRejects | services/chatService.js:19 | embedding the question fails exactly on blank text, with "Text cannot be empty", and then changes nothing |
| ChatService.SearchStepFailure | services/chatService.js:19-22 | a failed embedding or search is recorded; a blank question is rejected with the embedding service's error |
| ChatService.SearchStepSuccess | services/chatService.js:19-69 | after embedding and searching, a success appends the bot message and gives a well-shaped reply |
| ChatService.TurnAppendsTwo | services/chatService.js:9-69 | when the bot save's history read does not throw, a successful turn appends exactly the user message and then the bot message to the session's history, cut to 50 |
| ChatService.TurnReplyShape | services/chatService.js:9-69 | a successful reply is `low` with no sources and the canned text, or `high` with at most five sources above 0.3 in non-increasing order |
| ChatService.FailedTurnRecordsError | services/chatService.js:71-83 | a failed turn leaves the error message last in the history; a blank question fails with the embedding rejection |
| ChatService.TurnRejectsOnlyBlank | services/chatService.js:9-85 | for a non-blank question, a turn can fail only through the store |
| ChatService.NoMatchIgnoresModel | services/chatService.js:24-48 | with no matching article, Gemini is not consulted |
| ChatService.UserSavedFirst | services/chatService.js:11-16 | when saving the user message throws, the turn fails before embedding, searching or answering, and the index is untouched |
| ChatService.FailKeepsBound | services/chatService.js:71-83 | recording a failure keeps every history at 50 messages or fewer |
| ChatService.AnswerKeepsBound | services/chatService.js:50-59 | answering keeps every history at 50 messages or fewer |
| ChatService.SearchStepKeepsBound | services/chatService.js:19-59 | embedding, searching and answering keep every history at 50 messages or fewer |
| ChatService.TurnKeepsBound | services/chatService.js:9-85 | a whole turn keeps every history at 50 messages or fewer |
| NewsIngestion.ExtractContent | services/newsIngestion.js:61-76 | extracted content has at most 1000 characters; text without `<` is cut to exactly its first min(n, 1000) characters; the text is the first non-empty of `content:encoded`, `description` and `content` (`SelectContent`) |
| NewsIngestion.StampGuid | services/newsIngestion.js:53 | the last-resort guid is the source name, a dash, then decimal digits that read back as the time in milliseconds |
| NewsIngestion.MappedArticleHasTitleAndGuid | services/newsIngestion.js:48-53 | every mapped article (`MapItem`, with `OrElse` for `x \|\| d`) has a non-empty title and guid; without guid and link its guid (`StampGuid`) starts with the source name |
| NewsIngestion.FeedArticlesWellFormed | services/newsIngestion.js:42-59 | every article of a feed (`FetchRssFeed`: one per item, none when the feed fails) has a non-empty title and guid, at most 1000 characters of content and the feed's source name |
| NewsIngestion.Run | services/newsIngestion.js:97-121 | the number of stored articles never exceeds the number processed |
| NewsIngestion.ArticleStepOutcome | services/newsIngestion.js:100-121 | processing one article appends exactly one element carrying its fields and the embedding generated for its title, a blank line and its content (`CombinedText`), and counts it exactly when its store call succeeds |
| NewsIngestion.RunCounts | services/newsIngestion.js:113 | the articles processed in order are counted exactly at the positions whose store succeeds |
| NewsIngestion.RunAppends | services/newsIngestion.js:100-121 | processing articles in order appends one element per article, in order, each carrying its article's fields |
| NewsIngestion.ProcessAllCounts | services/newsIngestion.js:97-127 | the processed count is the number of articles whose store call succeeds |
| NewsIngestion.ProcessAllAppends | services/newsIngestion.js:97-127 | ingestion keeps the existing elements and appends one element per fetched article (`FetchRssFeed` for each feed), in order |
| NewsIngestion.AllStoredWithoutFaults | services/newsIngestion.js:113 | with no store faults, every article is counted |
| NewsIngestion.BatchCountCeil | services/newsIngestion.js:96-97 | the loop runs ⌈n/5⌉ batches, none for no articles |
| NewsIngestion.Batches | services/newsIngestion.js:97-98 | there are ⌈n/5⌉ batches |
| NewsIngestion.BatchesPartition | services/newsIngestion.js:96-98 | the batches, joined, are the articles; each has 1 to 5 articles, and all but the last have exactly 5 |
| NewsIngestion.BatchIsSlice | services/newsIngestion.js:98 | batch b is `slice(5b, 5b + 5)` |
| NewsIngestion.IngestArticle | services/newsIngestion.js:100-121 | the body of `batch.map` embeds and stores one article as the article step says (see `ArticleStepOutcome`) |
| NewsIngestion.FetchAllFeeds | services/newsIngestion.js:85-91 | the feed loop collects the articles of the five sources (`FetchRssFeed` of each), feed after feed |
| NewsIngestion.ProcessBatch | services/newsIngestion.js:100-121 | one batch processes its articles in order, continuing the run |
| NewsIngestion.ProcessBatches | services/newsIngestion.js:97-127 | the batch loop processes every article in order and pauses once between consecutive batches |
| NewsIngestion.IngestNewsArticles | services/newsIngestion.js:78-142 | `ingestNewsArticles` leaves the index and the store as processing all fetched articles does, and reports success, the count of stored articles and the total fetched |
| ChatRoutes.TemplateText | routes/chat.js:32 | a string session id is used as it is |
| ChatRoutes.ValidateChat | routes/chat.js:12-29 | a request is refused with 400 exactly when the session id is falsy, or the message is not a non-blank string of at most 1000 characters |
| ChatRoutes.ValidationOrder | routes/chat.js:16-29 | the checks run in order with their own errors: missing fields (including an empty message), then a non-string or blank message, then length |
| ChatRoutes.AcceptedMessage | routes/chat.js:23-32 | an accepted message is handed on trimmed and non-empty, and the embedding service's own check accepts it unchanged |
| ChatRoutes.LengthCheckedBeforeTrim | routes/chat.js:27-32 | the limit applies before trimming: 1000 characters plus a trailing space are refused although the trimmed text would fit |
| ChatRoutes.PostChat | routes/chat.js:12-41 | `POST /chat` validates, runs the turn and answers as specified (see `PostChatOutcome`) |
| ChatRoutes.PostChatOutcome | routes/chat.js:31-40 | a refused request changes nothing and answers 400; an accepted one answers 200 with the reply exactly when the turn succeeds, and otherwise 500, which happens only when writing a chat message throws; other store failures (cache, reload, history reads) are absorbed and still answer 200 |
| ChatRoutes.HistorySpec | routes/chat.js:44-57 | the history route answers 400 exactly for an empty session id, otherwise 200 with the messages and their count |
| ChatRoutes.GetHistory | routes/chat.js:44-62 | `GET /history/:sessionId` answers as specified |
| ChatRoutes.HistoryShowsStored | routes/chat.js:52-57 | the route shows the history the chat service stored, and an empty list for a session never written |
| ChatRoutes.DeleteHistory | routes/chat.js:65-82 | `DELETE /history/:sessionId` answers 400 for an empty id, 500 when the delete throws, and otherwise deletes exactly that session's key and answers 200 |
| ChatRoutes.PostIngestNews | routes/chat.js:85-97 | `POST /ingest-news` runs the ingestion and answers 200 with the count of stored articles |

## Left out

- Time-to-live of stored keys (7 days, 1 hour, 24 hours) is not modelled: keys never expire.
- `KEYS` returns keys in no particular order. The model returns them in lexicographic order, so that every specification is a function. The reload order therefore follows that choice.
- Remote services are parameters:
  - the Jina embedding service and Gemini are parameters, with `None` for any failure of the request;
  - the wording of the prompt around the context is not modelled;
  - the generation settings and the HTTP timeouts are not modelled.
- The RSS parser and the HTML-to-text conversion (cheerio) are parameters (`parse`, `strip`).
- The clock is a parameter. `uuid`, `Date.now()` and `Math.random()` are parameters too (ids, times, `fallbackId`, `fallbackIds`).
- Ingestion uses one timestamp for the whole run. It serves as `processedAt` and as the report's timestamp.
- `Promise.all` over a batch is modelled as processing the batch's articles one after the other, in batch order. The concurrent interleaving of the store writes and of `processedArticles++` is not modelled.
- The one-second `setTimeout` between batches is counted, not waited for.
- `Math.sqrt` is a parameter that is assumed nothing about.
- Numbers are unbounded reals and integers. Floating-point rounding, `NaN` and `Infinity` are not modelled. This includes the reply falling back to a score of 0 when the similarity is falsy, which only matters for `NaN`.
- String lengths count Unicode characters, not UTF-16 code units. This affects the 1000-character route limit, `substring(0, 1000)` and `substring(0, 200)`, and `charCodeAt`.
- `JSON.stringify`/`JSON.parse` are modelled by the parsed value itself:
  - a stored value that parses to the wrong shape reads as a cache miss (embeddings) or as an empty history (chat);
  - a stored chat history that parses to something other than an array (`null`, an object) makes the source throw at `history.push`, so that save fails; the model reads it as an empty history and the save overwrites it;
  - a JSON array in the request body is treated like an object.
- `getVectorStoreStats` and the `GET /stats` route are not modelled. They are diagnostics only, and `memoryUsageMB` depends on JSON text lengths that the model does not have.
- Logging (`console.*`) is not modelled.
- The computed but unused `mainTopics` of `generateFallbackAnswer` is not modelled.
- The 500 branches of `GET /history/:sessionId` and `POST /ingest-news` are not modelled. `getChatHistory` and `ingestNewsArticles` catch every error the model can raise, so the model never reaches them.
- The Express route parameter is taken to be any string. The model does not restrict it to the non-empty strings Express matches in practice.
- The ingestion route's response timestamp is a parameter.
- The Redis connection life cycle (`connect`, events) is not modelled. Only `reconnectStrategy` is.
- NewsIngestion.ExtractContent: for content containing `<` only the 1000-character bound is stated, because the HTML-to-text conversion is a parameter.
- EmbeddingService.Lower: only the ASCII letters A–Z are folded. `toLowerCase` folds all of Unicode (`É` to `é`), can change the length (`İ`) and depends on context (final `Σ`); none of that is modelled.
- FallbackIgnoresCase: states independence of ASCII letter case only, because `Lower` folds only A–Z; in the model `É` and `é` give different vectors.
- Ingestion takes one embedding environment for the whole run, so a cache read or write fault of the embedding service hits every article of the run or none. In the source each Redis call can fail on its own. Store faults, by contrast, are given per article.
- RedisClient.ReconnectMonotone: states the order of the waits only up to the retry limit; beyond it there is no wait to compare.
