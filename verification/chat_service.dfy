/** Session histories and the chat turn (`services/chatService.js`).

    A session's history is the JSON array stored under `chat:<sessionId>`, cut to its
    last 50 messages on every save. A turn records the user's message, embeds it,
    searches the index and records one bot message: the canned no-results reply, or
    the synthesised answer with its sources. Any error records an error message and is
    passed on.

    Fresh message ids (`uuidv4`) and timestamps (`new Date().toISOString()`) are
    parameters; so are the faults of each store operation. */
module ChatService {
  import opened Wrappers
  import opened Records
  import opened RedisClient
  import opened VectorStore
  import opened EmbeddingService
  import opened GeminiService

  // ----- Histories ---------------------------------------------------------------------

  const HistoryLimit: nat := 50

  /** `getChatHistory`: the stored messages; the empty history when the key is absent,
      when the read throws, or when the stored text is not a message array. */
  function HistoryOf(data: map<string, Value>, sessionId: string, readFails: bool): (h: seq<Message>)
    ensures h != [] ==> !readFails && ChatKey(sessionId) in data && data[ChatKey(sessionId)] == HistoryJson(h)
  {
    if readFails || ChatKey(sessionId) !in data then []
    else match data[ChatKey(sessionId)]
      case HistoryJson(ms) => ms
      case _ => []
  }

  /** `history.slice(-50)`: the last 50 messages, or all of them when there are fewer. */
  function Window(h: seq<Message>): (r: seq<Message>)
    ensures |r| == if |h| <= HistoryLimit then |h| else HistoryLimit
    ensures r == h[|h| - |r|..]
  {
    if |h| <= HistoryLimit then h else h[|h| - HistoryLimit..]
  }

  /** Cutting after each of two appends keeps what cutting once after both keeps. */
  lemma WindowTwice(h: seq<Message>, a: Message, b: Message)
    ensures Window(Window(h + [a]) + [b]) == Window(h + [a, b])
  {
    var once := Window(h + [a]);
    var both := h + [a, b];
    assert both == (h + [a]) + [b];
    assert Window(once + [b]) == both[|both| - |Window(once + [b])|..];
  }

  /** A message as handed to `saveMessageToSession`; `id` is present only when the
      caller supplies one. */
  datatype Draft = Draft(
    id: Option<string>,
    text: string,
    sender: Sender,
    timestamp: string,
    sources: Option<seq<string>>,
    isError: bool)

  /** `{ id: message.id || uuidv4(), ...message }`: the spread puts back any `id` the
      caller supplied, so a fresh id is used exactly when there is none. */
  function Stamp(d: Draft, freshId: string): (m: Message)
    ensures d.id.Some? ==> m.id == d.id.value
    ensures d.id.None? ==> m.id == freshId
    ensures m.text == d.text && m.sender == d.sender && m.timestamp == d.timestamp
    ensures m.sources == d.sources && m.isError == d.isError
  {
    Message(d.id.GetOr(freshId), d.text, d.sender, d.timestamp, d.sources, d.isError)
  }

  /** Whether the history read and the history write of one save throw. */
  datatype SaveFaults = SaveFaults(readFails: bool, writeFails: bool)

  /** `saveMessageToSession`: the new store and the stamped message, or the write's
      error. A read error leaves the history read as empty. */
  function SaveSpec(data: map<string, Value>, sessionId: string, d: Draft, freshId: string, f: SaveFaults)
    : (map<string, Value>, Result<Message, StoreError>)
  {
    var m := Stamp(d, freshId);
    var h := Window(HistoryOf(data, sessionId, f.readFails) + [m]);
    if f.writeFails then (data, Failure(Unavailable))
    else (data[ChatKey(sessionId) := HistoryJson(h)], Success(m))
  }

  /** A successful save leaves as the session's history the last `min(n + 1, 50)` of
      the old history followed by the new message, which is last. */
  lemma SaveAppends(data: map<string, Value>, sessionId: string, d: Draft, freshId: string, f: SaveFaults)
    ensures var (data1, r) := SaveSpec(data, sessionId, d, freshId, f);
      var old_ := HistoryOf(data, sessionId, f.readFails);
      var h := HistoryOf(data1, sessionId, false);
      r.Success? ==>
        && r.value == Stamp(d, freshId)
        && |h| == (if |old_| + 1 <= HistoryLimit then |old_| + 1 else HistoryLimit)
        && h == (old_ + [r.value])[|old_| + 1 - |h|..]
        && h[|h| - 1] == r.value
  {
    if !f.writeFails {
      var old_ := HistoryOf(data, sessionId, f.readFails);
      var m := Stamp(d, freshId);
      var w := Window(old_ + [m]);
      WindowOfSnoc(old_, m);
      HistoryAfterWrite(data, sessionId, w);
      assert SaveSpec(data, sessionId, d, freshId, f) == (data[ChatKey(sessionId) := HistoryJson(w)], Success(m));
    }
  }

  /** The window after one more message ends with that message. */
  lemma WindowOfSnoc(h: seq<Message>, m: Message)
    ensures var w := Window(h + [m]);
      && |w| == (if |h| + 1 <= HistoryLimit then |h| + 1 else HistoryLimit)
      && w == (h + [m])[|h| + 1 - |w|..]
      && w[|w| - 1] == m
  {
    var w := Window(h + [m]);
    assert w[|w| - 1] == (h + [m])[|h|];
  }

  /** A save succeeds exactly when its write does; a failed save changes nothing, and
      a successful one changes the store only under the session's key. */
  lemma SaveOutcome(data: map<string, Value>, sessionId: string, d: Draft, freshId: string, f: SaveFaults)
    ensures var (data1, r) := SaveSpec(data, sessionId, d, freshId, f);
      && (r.Success? <==> !f.writeFails)
      && (r.Failure? ==> data1 == data)
      && (forall k :: k != ChatKey(sessionId) ==> (k in data1 <==> k in data) && (k in data ==> data1[k] == data[k]))
  {
  }

  /** A history written under a session's key is what the next read of it returns. */
  lemma HistoryAfterWrite(data: map<string, Value>, sessionId: string, h: seq<Message>)
    ensures HistoryOf(data[ChatKey(sessionId) := HistoryJson(h)], sessionId, false) == h
  {
  }

  /** Other sessions are untouched by a save. */
  lemma SaveKeepsOtherSessions(data: map<string, Value>, sessionId: string, other: string, d: Draft,
                               freshId: string, f: SaveFaults, rf: bool)
    requires other != sessionId
    ensures HistoryOf(SaveSpec(data, sessionId, d, freshId, f).0, other, rf) == HistoryOf(data, other, rf)
  {
    ChatKeyDistinct(other, sessionId);
    if !f.writeFails {
      var m := Stamp(d, freshId);
      var h := Window(HistoryOf(data, sessionId, f.readFails) + [m]);
      OtherKeyUnchanged(data, ChatKey(sessionId), HistoryJson(h), other, rf);
    }
  }

  /** A write under one key leaves the history read under any other key as it was. */
  lemma OtherKeyUnchanged(data: map<string, Value>, key: string, v: Value, other: string, rf: bool)
    requires ChatKey(other) != key
    ensures HistoryOf(data[key := v], other, rf) == HistoryOf(data, other, rf)
  {
  }

  /** When the history read throws, the save goes ahead with an empty history: the
      stored history is then the new message alone. */
  lemma SaveAfterReadErrorKeepsOnlyNew(data: map<string, Value>, sessionId: string, d: Draft, freshId: string)
    ensures var (data1, r) := SaveSpec(data, sessionId, d, freshId, SaveFaults(true, false));
      HistoryOf(data1, sessionId, false) == [Stamp(d, freshId)]
  {
    var m := Stamp(d, freshId);
    assert HistoryOf(data, sessionId, true) == [];
    assert [] + [m] == [m];
    assert Window([m]) == [m];
  }

  /** No stored history is longer than 50 messages. */
  ghost predicate HistoriesBounded(data: map<string, Value>)
  {
    forall k :: k in data && data[k].HistoryJson? ==> |data[k].messages| <= HistoryLimit
  }

  lemma SaveKeepsBound(data: map<string, Value>, sessionId: string, d: Draft, freshId: string, f: SaveFaults)
    requires HistoriesBounded(data)
    ensures HistoriesBounded(SaveSpec(data, sessionId, d, freshId, f).0)
  {
    var data1 := SaveSpec(data, sessionId, d, freshId, f).0;
    forall k | k in data1 && data1[k].HistoryJson?
      ensures |data1[k].messages| <= HistoryLimit
    {
      if k != ChatKey(sessionId) || f.writeFails {
        assert data1[k] == data[k];
      }
    }
  }


  /** `getChatHistory`. */
  method GetChatHistory(db: KeyValueStore, sessionId: string, readFails: bool) returns (h: seq<Message>)
    ensures h == HistoryOf(db.data, sessionId, readFails)
  {
    var got := db.Get(ChatKey(sessionId), readFails);
    if got.Failure? || got.value.None? {
      return [];
    }
    match got.value.value {
      case HistoryJson(ms) => h := ms;
      case _ => h := [];
    }
  }

  /** `saveMessageToSession`: read, push, keep the last 50, write back. */
  method SaveMessageToSession(db: KeyValueStore, sessionId: string, d: Draft, freshId: string, f: SaveFaults)
    returns (r: Result<Message, StoreError>)
    modifies db
    ensures (db.data, r) == SaveSpec(old(db.data), sessionId, d, freshId, f)
  {
    var history := GetChatHistory(db, sessionId, f.readFails);
    var m := Stamp(d, freshId);
    history := history + [m];
    var trimmed := if |history| <= HistoryLimit then history else history[|history| - HistoryLimit..];
    var written := db.SetEx(ChatKey(sessionId), HistoryJson(trimmed), f.writeFails);
    if written.Failure? {
      return Failure(Unavailable);
    }
    r := Success(m);
  }

  /** `clearSessionHistory`. */
  method ClearSessionHistory(db: KeyValueStore, sessionId: string, fault: bool) returns (r: Result<bool, StoreError>)
    modifies db
    ensures r == if fault then Failure(Unavailable) else Success(true)
    ensures db.data == if fault then old(db.data) else old(db.data) - {ChatKey(sessionId)}
  {
    var deleted := db.Del({ChatKey(sessionId)}, fault);
    if deleted.Failure? {
      return Failure(Unavailable);
    }
    r := Success(true);
  }

  /** After a successful clear the session's history reads as empty, and every other
      session keeps its history. */
  lemma ClearEmptiesHistory(data: map<string, Value>, sessionId: string, other: string, rf: bool)
    ensures HistoryOf(data - {ChatKey(sessionId)}, sessionId, rf) == []
    ensures other != sessionId ==> HistoryOf(data - {ChatKey(sessionId)}, other, rf) == HistoryOf(data, other, rf)
  {
    if other != sessionId && ChatKey(other) == ChatKey(sessionId) {
      ChatKeyInjective(other, sessionId);
    }
  }

  // ----- The turn ----------------------------------------------------------------------

  const SearchLimit: nat := 5
  const SearchThreshold: real := 0.3

  const ErrorText: string :=
    "I encountered an error while processing your request. " + "Please try again."

  const NoResultsLead: string := "I don't have specific information about \""
  const NoResultsRest: string :=
    "\" in my current news database. \n\n"
    + "My database currently contains 27 articles from BBC News, "
    + "but none are closely related to your query. \n\n"
    + "To get better results, try asking about:\n"
    + "• Recent political developments\n"
    + "• International news and conflicts  \n"
    + "• UK and global current events\n"
    + "• Breaking news stories\n\n"
    + "You can also try rephrasing your question "
    + "or asking about broader topics that might be covered in general news."

  /** The canned reply when nothing matches, quoting the question. */
  function NoResultsText(message: string): (r: string)
    ensures |NoResultsLead| + |message| <= |r| && r[|NoResultsLead|..|NoResultsLead| + |message|] == message
  {
    NoResultsLead + message + NoResultsRest
  }

  datatype Relevance = Low | High

  /** One entry of the reply's `sources`; `url` is `None` for the `null` of an empty url. */
  datatype SourceRef = SourceRef(title: string, url: Option<string>, relevanceScore: real)

  datatype Reply = Reply(message: string, sources: seq<SourceRef>, relevance: Relevance)

  /** What a turn throws: a store error, or the rejection of the message text. */
  datatype TurnError = StoreFailed | Rejected(reason: string)

  function UrlOrNull(url: string): Option<string>
  {
    if url == [] then None else Some(url)
  }

  /** The reply's sources: one per article, in search order. */
  function SourceRefs(results: seq<Match>): (r: seq<SourceRef>)
    ensures |r| == |results|
    ensures forall i :: 0 <= i < |results| ==>
      r[i] == SourceRef(results[i].article.title, UrlOrNull(results[i].article.url), results[i].similarity)
  {
    seq(|results|, i requires 0 <= i < |results| =>
      SourceRef(results[i].article.title, UrlOrNull(results[i].article.url), results[i].similarity))
  }

  /** The titles recorded with the bot message. */
  function Titles(results: seq<Match>): (r: seq<string>)
    ensures |r| == |results| && forall i :: 0 <= i < |results| ==> r[i] == results[i].article.title
  {
    seq(|results|, i requires 0 <= i < |results| => results[i].article.title)
  }

  /** Everything a turn consults besides the store: fresh ids and times for the three
      messages it may record, the faults of each save, the embedding environment, the
      faults of a reload, and the answer model. */
  datatype TurnEnv = TurnEnv(
    userId: string, botId: string, errorId: string,
    userTime: string, botTime: string, errorTime: string,
    userSave: SaveFaults, botSave: SaveFaults, errorSave: SaveFaults,
    embed: EmbedEnv,
    reload: ReloadFaults,
    model: (string, string) -> Option<seq<string>>)

  function UserDraft(message: string, env: TurnEnv): Draft
  {
    Draft(None, message, User, env.userTime, None, false)
  }

  function BotDraft(text: string, sources: Option<seq<string>>, env: TurnEnv): Draft
  {
    Draft(None, text, Bot, env.botTime, sources, false)
  }

  function ErrorDraft(env: TurnEnv): Draft
  {
    Draft(None, ErrorText, Bot, env.errorTime, None, true)
  }

  /** The `catch` of `processUserMessage`: record the error message, then pass the
      error on, or the save's own error when that save throws too. */
  function FailSpec(w: World, sessionId: string, env: TurnEnv, e: TurnError): (World, Result<Reply, TurnError>)
  {
    var (data, saved) := SaveSpec(w.data, sessionId, ErrorDraft(env), env.errorId, env.errorSave);
    (World(w.entries, data), if saved.Failure? then Failure(StoreFailed) else Failure(e))
  }

  /** The reply of the answer step: the canned text when nothing matched, otherwise the
      synthesised answer with the matches as its sources. */
  function ReplyFor(message: string, results: seq<Match>, model: (string, string) -> Option<seq<string>>): Reply
  {
    if results == [] then Reply(NoResultsText(message), [], Low)
    else Reply(GenerateAnswer(message, results, model), SourceRefs(results), High)
  }

  /** The titles recorded with the bot message: none when nothing matched. */
  function RecordedSources(results: seq<Match>): Option<seq<string>>
  {
    if results == [] then None else Some(Titles(results))
  }

  /** Recording the bot message for `reply`, then the `catch` when that save throws. */
  function RecordReply(w: World, sessionId: string, reply: Reply, sources: Option<seq<string>>, env: TurnEnv)
    : (World, Result<Reply, TurnError>)
  {
    var (data, saved) := SaveSpec(w.data, sessionId, BotDraft(reply.message, sources, env), env.botId, env.botSave);
    if saved.Failure? then FailSpec(World(w.entries, data), sessionId, env, StoreFailed)
    else (World(w.entries, data), Success(reply))
  }

  /** The turn after the search: the reply for the results, recorded as the bot message. */
  function AnswerSpec(w: World, sessionId: string, message: string, results: seq<Match>, env: TurnEnv)
    : (World, Result<Reply, TurnError>)
  {
    RecordReply(w, sessionId, ReplyFor(message, results, env.model), RecordedSources(results), env)
  }

  /** The embedding and the search of a turn, after the user's message is recorded. */
  function SearchStepSpec(w: World, sessionId: string, message: string, env: TurnEnv)
    : (World, Result<Reply, TurnError>)
  {
    var (data, query) := GetEmbeddingSpec(w.data, message, env.embed);
    if query.Failure? then FailSpec(World(w.entries, data), sessionId, env, Rejected(query.error))
    else
      var (w1, results) := SearchSpec(World(w.entries, data), env.embed.sqrt, query.value,
                                      SearchLimit, SearchThreshold, env.reload);
      AnswerSpec(w1, sessionId, message, results, env)
  }

  /** The embedding and search step either records the rejection of the text or goes
      on with the answer step on the search results. */
  lemma SearchStepCases(w: World, sessionId: string, message: string, env: TurnEnv)
    ensures var (data, query) := GetEmbeddingSpec(w.data, message, env.embed);
      && (query.Failure? ==>
            SearchStepSpec(w, sessionId, message, env) == FailSpec(World(w.entries, data), sessionId, env, Rejected(query.error)))
      && (query.Success? ==>
            var (w1, results) := SearchSpec(World(w.entries, data), env.embed.sqrt, query.value,
                                            SearchLimit, SearchThreshold, env.reload);
            SearchStepSpec(w, sessionId, message, env) == AnswerSpec(w1, sessionId, message, results, env))
  {
  }

  /** `processUserMessage`: the new index and store, and the reply or the error. */
  function TurnSpec(w: World, sessionId: string, message: string, env: TurnEnv): (World, Result<Reply, TurnError>)
  {
    var (data, saved) := SaveSpec(w.data, sessionId, UserDraft(message, env), env.userId, env.userSave);
    if saved.Failure? then FailSpec(World(w.entries, data), sessionId, env, StoreFailed)
    else SearchStepSpec(World(w.entries, data), sessionId, message, env)
  }

  /** The `catch` block. */
  method RecordFailure(index: VectorIndex, sessionId: string, env: TurnEnv, e: TurnError)
    returns (r: Result<Reply, TurnError>)
    modifies index.db
    ensures (index.State(), r) == FailSpec(old(index.State()), sessionId, env, e)
  {
    var saved := SaveMessageToSession(index.db, sessionId, ErrorDraft(env), env.errorId, env.errorSave);
    r := if saved.Failure? then Failure(StoreFailed) else Failure(e);
  }

  /** `processUserMessage`. */
  method ProcessUserMessage(index: VectorIndex, sessionId: string, message: string, env: TurnEnv)
    returns (r: Result<Reply, TurnError>)
    modifies index, index.db
    ensures (index.State(), r) == TurnSpec(old(index.State()), sessionId, message, env)
  {
    var db := index.db;
    var saved := SaveMessageToSession(db, sessionId, UserDraft(message, env), env.userId, env.userSave);
    if saved.Failure? {
      r := RecordFailure(index, sessionId, env, StoreFailed);
      return;
    }
    ghost var afterUser := index.State();
    var query := GetEmbeddingForText(db, message, env.embed);
    if query.Failure? {
      r := RecordFailure(index, sessionId, env, Rejected(query.error));
      return;
    }
    ghost var afterEmbed := index.State();
    var results := index.SearchSimilarArticles(env.embed.sqrt, query.value, SearchLimit, SearchThreshold, env.reload);
    assert (index.State(), results) == SearchSpec(afterEmbed, env.embed.sqrt, query.value,
                                                  SearchLimit, SearchThreshold, env.reload);
    var reply: Reply;
    var sources: Option<seq<string>>;
    if |results| == 0 {
      reply := Reply(NoResultsText(message), [], Low);
      sources := None;
    } else {
      var answer := GenerateAnswer(message, results, env.model);
      reply := Reply(answer, SourceRefs(results), High);
      sources := Some(Titles(results));
    }
    assert reply == ReplyFor(message, results, env.model) && sources == RecordedSources(results);
    var recorded := SaveMessageToSession(db, sessionId, BotDraft(reply.message, sources, env), env.botId, env.botSave);
    if recorded.Failure? {
      r := RecordFailure(index, sessionId, env, StoreFailed);
      return;
    }
    r := Success(reply);
  }

  // ----- Properties of a turn ------------------------------------------------------------

  /** The bot message a successful turn records for its reply. */
  function BotMessage(reply: Reply, env: TurnEnv): Message
  {
    Message(env.botId, reply.message, Bot, env.botTime,
            if reply.relevance == High then Some(SourceTitles(reply.sources)) else None, false)
  }

  function SourceTitles(sources: seq<SourceRef>): (r: seq<string>)
    ensures |r| == |sources| && forall i :: 0 <= i < |sources| ==> r[i] == sources[i].title
  {
    seq(|sources|, i requires 0 <= i < |sources| => sources[i].title)
  }

  function UserMessage(message: string, env: TurnEnv): Message
  {
    Message(env.userId, message, User, env.userTime, None, false)
  }

  function ErrorMessage(env: TurnEnv): Message
  {
    Message(env.errorId, ErrorText, Bot, env.errorTime, None, true)
  }

  /** What a failed turn leaves behind: the error message last in the history when it
      could be written, and otherwise the error of that write as the outcome. */
  predicate ErrorRecorded(w: World, sessionId: string, r: Result<Reply, TurnError>, env: TurnEnv)
  {
    var h := HistoryOf(w.data, sessionId, false);
    && (!env.errorSave.writeFails ==> h != [] && h[|h| - 1] == ErrorMessage(env))
    && (env.errorSave.writeFails ==> r == Failure(StoreFailed))
  }

  /** The results handed to the answer step: at most five, each above the threshold,
      in non-increasing order of similarity. */
  predicate Ranked(results: seq<Match>)
  {
    && |results| <= SearchLimit
    && (forall k :: 0 <= k < |results| ==> results[k].similarity > SearchThreshold)
    && (forall i, j :: 0 <= i < j < |results| ==> results[i].similarity >= results[j].similarity)
  }

  /** The reply a successful turn gives: `low` exactly when it lists no sources, then
      the canned text; otherwise ranked sources. */
  predicate WellShaped(reply: Reply, message: string)
  {
    && (reply.relevance == Low <==> reply.sources == [])
    && (reply.relevance == Low ==> reply.message == NoResultsText(message))
    && |reply.sources| <= SearchLimit
    && (forall i :: 0 <= i < |reply.sources| ==> reply.sources[i].relevanceScore > SearchThreshold)
    && (forall i, j :: 0 <= i < j < |reply.sources| ==>
          reply.sources[i].relevanceScore >= reply.sources[j].relevanceScore)
  }

  lemma FailRecords(w: World, sessionId: string, env: TurnEnv, e: TurnError)
    ensures var (w1, r) := FailSpec(w, sessionId, env, e);
      r.Failure? && ErrorRecorded(w1, sessionId, r, env) && w1.entries == w.entries
      && (!env.errorSave.writeFails ==> r == Failure(e))
  {
    SaveAppends(w.data, sessionId, ErrorDraft(env), env.errorId, env.errorSave);
    SaveOutcome(w.data, sessionId, ErrorDraft(env), env.errorId, env.errorSave);
  }

  /** Recording a reply: the bot message for it is last in the history, or the error
      is recorded and the outcome is a store error; the in-memory index is untouched. */
  lemma RecordStep(w: World, sessionId: string, reply: Reply, sources: Option<seq<string>>, env: TurnEnv)
    ensures var (w1, r) := RecordReply(w, sessionId, reply, sources, env);
      && w1.entries == w.entries
      && (r.Failure? ==> r.error == StoreFailed && ErrorRecorded(w1, sessionId, r, env))
      && (r.Success? ==> r.value == reply)
      && (r.Success? && !env.botSave.readFails ==>
            HistoryOf(w1.data, sessionId, false)
              == Window(HistoryOf(w.data, sessionId, false) + [Message(env.botId, reply.message, Bot, env.botTime, sources, false)]))
  {
    var draft := BotDraft(reply.message, sources, env);
    var (data, saved) := SaveSpec(w.data, sessionId, draft, env.botId, env.botSave);
    SaveAppends(w.data, sessionId, draft, env.botId, env.botSave);
    SaveOutcome(w.data, sessionId, draft, env.botId, env.botSave);
    if saved.Failure? {
      FailRecords(World(w.entries, data), sessionId, env, StoreFailed);
    }
  }

  /** The reply is `low` exactly when nothing matched; ranked results give a well-shaped
      reply; and the titles recorded with the bot message are those of the reply's
      sources. */
  lemma ReplyShape(message: string, results: seq<Match>, model: (string, string) -> Option<seq<string>>)
    ensures var reply := ReplyFor(message, results, model);
      && (reply.relevance == Low <==> results == [])
      && (results != [] ==>
            && |reply.sources| == |results|
            && (forall i :: 0 <= i < |results| ==>
                  reply.sources[i] == SourceRef(results[i].article.title, UrlOrNull(results[i].article.url),
                                                results[i].similarity)))
      && (Ranked(results) ==> WellShaped(reply, message))
      && (if reply.relevance == High then Some(SourceTitles(reply.sources)) else None) == RecordedSources(results)
  {
    if results != [] {
      assert Titles(results) == SourceTitles(SourceRefs(results));
    }
  }

  /** The answer step records the bot message for its reply, or fails with the error
      recorded; its reply is well shaped when the results are ranked. */
  lemma AnswerStep(w: World, sessionId: string, message: string, results: seq<Match>, env: TurnEnv)
    ensures var (w1, r) := AnswerSpec(w, sessionId, message, results, env);
      && (r.Failure? ==> ErrorRecorded(w1, sessionId, r, env))
      && (r.Success? && !env.botSave.readFails ==>
            HistoryOf(w1.data, sessionId, false) == Window(HistoryOf(w.data, sessionId, false) + [BotMessage(r.value, env)]))
      && (r.Success? && Ranked(results) ==> WellShaped(r.value, message))
      && (r.Success? ==> (r.value.relevance == Low <==> results == []))
  {
    var reply := ReplyFor(message, results, env.model);
    var sources := RecordedSources(results);
    RecordStep(w, sessionId, reply, sources, env);
    ReplyShape(message, results, env.model);
    assert BotMessage(reply, env) == Message(env.botId, reply.message, Bot, env.botTime, sources, false);
    assert AnswerSpec(w, sessionId, message, results, env) == RecordReply(w, sessionId, reply, sources, env);
  }

  /** Embedding a text writes at most its cache key, which is never a session key, and
      writes no history there: every history reads as before. */
  lemma EmbeddingKeepsHistories(data: map<string, Value>, text: string, env: EmbedEnv)
    ensures var data1 := GetEmbeddingSpec(data, text, env).0;
      forall k :: k in data1 && data1[k].HistoryJson? ==> k in data && data1[k] == data[k]
  {
    var v := ValidateText(text);
    if v.Success? {
      GenerateWritesOnlyItsKey(data, v.value, env);
    }
  }

  lemma EmbeddingKeepsHistory(data: map<string, Value>, sessionId: string, text: string, env: EmbedEnv, rf: bool)
    ensures HistoryOf(GetEmbeddingSpec(data, text, env).0, sessionId, rf) == HistoryOf(data, sessionId, rf)
  {
    var v := ValidateText(text);
    if v.Success? {
      GenerateWritesOnlyItsKey(data, v.value, env);
      NamespacesDisjoint(ChatKey(sessionId));
      assert ChatKey(sessionId) != CacheKey(v.value);
    }
  }

  /** The embedding step fails exactly on blank text, with the validation error and
      nothing written. */
  lemma EmbeddingRejects(data: map<string, Value>, text: string, env: EmbedEnv)
    ensures var (data1, q) := GetEmbeddingSpec(data, text, env);
      && (q.Failure? <==> Text.AllWhitespace(text))
      && (q.Failure? ==> q.error == EmptyTextError && data1 == data)
  {
  }

  /** A failure of the embedding and search step is recorded. */
  lemma SearchStepFailure(w: World, sessionId: string, message: string, env: TurnEnv)
    ensures var (w1, r) := SearchStepSpec(w, sessionId, message, env);
      && (r.Failure? ==> ErrorRecorded(w1, sessionId, r, env))
      && (Text.AllWhitespace(message) && !env.errorSave.writeFails ==> r == Failure(Rejected(EmptyTextError)))
  {
    var (data, query) := GetEmbeddingSpec(w.data, message, env.embed);
    EmbeddingRejects(w.data, message, env.embed);
    SearchStepCases(w, sessionId, message, env);
    if query.Failure? {
      FailRecords(World(w.entries, data), sessionId, env, Rejected(query.error));
    } else {
      var (w3, results) := SearchSpec(World(w.entries, data), env.embed.sqrt, query.value,
                                      SearchLimit, SearchThreshold, env.reload);
      AnswerStep(w3, sessionId, message, results, env);
    }
  }

  /** A success of the embedding and search step records the bot message and gives a
      well-shaped reply. */
  lemma SearchStepSuccess(w: World, sessionId: string, message: string, env: TurnEnv)
    ensures var (w1, r) := SearchStepSpec(w, sessionId, message, env);
      && (r.Success? && !env.botSave.readFails ==>
            HistoryOf(w1.data, sessionId, false) == Window(HistoryOf(w.data, sessionId, false) + [BotMessage(r.value, env)]))
      && (r.Success? ==> WellShaped(r.value, message))
  {
    SearchStepHistory(w, sessionId, message, env);
    SearchStepShape(w, sessionId, message, env);
  }

  lemma SearchStepHistory(w: World, sessionId: string, message: string, env: TurnEnv)
    ensures var (w1, r) := SearchStepSpec(w, sessionId, message, env);
      r.Success? && !env.botSave.readFails ==>
        HistoryOf(w1.data, sessionId, false) == Window(HistoryOf(w.data, sessionId, false) + [BotMessage(r.value, env)])
  {
    var (data, query) := GetEmbeddingSpec(w.data, message, env.embed);
    SearchStepCases(w, sessionId, message, env);
    if query.Success? {
      var w2 := World(w.entries, data);
      var (w3, results) := SearchSpec(w2, env.embed.sqrt, query.value, SearchLimit, SearchThreshold, env.reload);
      SearchSpecFacts(w2, env.embed.sqrt, query.value, SearchLimit, SearchThreshold, env.reload);
      EmbeddingKeepsHistory(w.data, sessionId, message, env.embed, false);
      assert HistoryOf(w3.data, sessionId, false) == HistoryOf(w.data, sessionId, false);
      AnswerStep(w3, sessionId, message, results, env);
    } else {
      FailRecords(World(w.entries, data), sessionId, env, Rejected(query.error));
    }
  }

  lemma SearchStepShape(w: World, sessionId: string, message: string, env: TurnEnv)
    ensures var r := SearchStepSpec(w, sessionId, message, env).1;
      r.Success? ==> WellShaped(r.value, message)
  {
    var (data, query) := GetEmbeddingSpec(w.data, message, env.embed);
    SearchStepCases(w, sessionId, message, env);
    if query.Success? {
      var w2 := World(w.entries, data);
      var (w3, results) := SearchSpec(w2, env.embed.sqrt, query.value, SearchLimit, SearchThreshold, env.reload);
      SearchRanked(w2, env.embed.sqrt, query.value, env.reload);
      AnswerShape(w3, sessionId, message, results, env);
    } else {
      FailRecords(World(w.entries, data), sessionId, env, Rejected(query.error));
    }
  }

  lemma SearchRanked(w: World, sqrt: real -> real, query: seq<real>, f: ReloadFaults)
    ensures Ranked(SearchSpec(w, sqrt, query, SearchLimit, SearchThreshold, f).1)
  {
    SearchResultsRanked(w, sqrt, query, SearchLimit, SearchThreshold, f);
  }

  lemma AnswerShape(w: World, sessionId: string, message: string, results: seq<Match>, env: TurnEnv)
    requires Ranked(results)
    ensures var r := AnswerSpec(w, sessionId, message, results, env).1;
      r.Success? ==> WellShaped(r.value, message)
  {
    AnswerStep(w, sessionId, message, results, env);
  }

  /** A successful turn appends exactly two messages to the session's history, the
      user's and then the bot's, and the bot message is the reply (with the titles of
      the sources when there were matches). It assumes the bot save reads the history
      back; when that read throws, only the bot message is kept. */
  lemma TurnAppendsTwo(w: World, sessionId: string, message: string, env: TurnEnv)
    requires !env.botSave.readFails
    ensures var (w1, r) := TurnSpec(w, sessionId, message, env);
      r.Success? ==>
        HistoryOf(w1.data, sessionId, false)
          == Window(HistoryOf(w.data, sessionId, env.userSave.readFails) + [UserMessage(message, env), BotMessage(r.value, env)])
  {
    var (d1, saved) := SaveSpec(w.data, sessionId, UserDraft(message, env), env.userId, env.userSave);
    SaveAppends(w.data, sessionId, UserDraft(message, env), env.userId, env.userSave);
    SaveOutcome(w.data, sessionId, UserDraft(message, env), env.userId, env.userSave);
    if saved.Success? {
      var h0 := HistoryOf(w.data, sessionId, env.userSave.readFails);
      var u := UserMessage(message, env);
      assert Stamp(UserDraft(message, env), env.userId) == u;
      assert HistoryOf(d1, sessionId, false) == Window(h0 + [u]);
      SearchStepSuccess(World(w.entries, d1), sessionId, message, env);
      var (w1, r) := SearchStepSpec(World(w.entries, d1), sessionId, message, env);
      assert TurnSpec(w, sessionId, message, env) == (w1, r);
      if r.Success? {
        WindowTwice(h0, u, BotMessage(r.value, env));
      }
    } else {
      FailRecords(World(w.entries, d1), sessionId, env, StoreFailed);
    }
  }

  /** A successful reply has relevance `low` exactly when it lists no sources; a `low`
      reply is the canned text quoting the question. A `high` reply lists at most five
      sources, each scoring above the threshold, in non-increasing score order. */
  lemma TurnReplyShape(w: World, sessionId: string, message: string, env: TurnEnv)
    ensures var r := TurnSpec(w, sessionId, message, env).1;
      r.Success? ==> WellShaped(r.value, message)
  {
    var (d1, saved) := SaveSpec(w.data, sessionId, UserDraft(message, env), env.userId, env.userSave);
    TurnAfterSave(w, sessionId, message, env);
    if saved.Success? {
      SearchStepSuccess(World(w.entries, d1), sessionId, message, env);
    } else {
      FailRecords(World(w.entries, d1), sessionId, env, StoreFailed);
    }
  }

  /** A failed turn has recorded the error message last in the history when that
      write works, and then reports the original error; a blank message is rejected
      with the validation error. */
  lemma FailedTurnRecordsError(w: World, sessionId: string, message: string, env: TurnEnv)
    ensures var (w1, r) := TurnSpec(w, sessionId, message, env);
      && (r.Failure? ==> ErrorRecorded(w1, sessionId, r, env))
      && (Text.AllWhitespace(message) && !env.userSave.writeFails && !env.errorSave.writeFails ==>
            r == Failure(Rejected(EmptyTextError)))
  {
    var (d1, saved) := SaveSpec(w.data, sessionId, UserDraft(message, env), env.userId, env.userSave);
    if saved.Failure? {
      FailRecords(World(w.entries, d1), sessionId, env, StoreFailed);
    } else {
      SearchStepFailure(World(w.entries, d1), sessionId, message, env);
    }
  }

  /** The answer step fails only with a store error. */
  lemma AnswerFailsOnlyOnStore(w: World, sessionId: string, message: string, results: seq<Match>, env: TurnEnv)
    ensures var r := AnswerSpec(w, sessionId, message, results, env).1;
      r.Failure? ==> r.error == StoreFailed
  {
    var reply := ReplyFor(message, results, env.model);
    var sources := RecordedSources(results);
    RecordStep(w, sessionId, reply, sources, env);
    assert AnswerSpec(w, sessionId, message, results, env) == RecordReply(w, sessionId, reply, sources, env);
  }

  /** Past the user's save, text with a non-blank character fails, if at all, with a
      store error. */
  lemma SearchStepFailsOnlyOnStore(w: World, sessionId: string, message: string, env: TurnEnv)
    requires !Text.AllWhitespace(message)
    ensures var r := SearchStepSpec(w, sessionId, message, env).1;
      r.Failure? ==> r.error == StoreFailed
  {
    var (data, query) := GetEmbeddingSpec(w.data, message, env.embed);
    EmbeddingRejects(w.data, message, env.embed);
    if query.Success? {
      var (w3, results) := SearchSpec(World(w.entries, data), env.embed.sqrt, query.value,
                                      SearchLimit, SearchThreshold, env.reload);
      AnswerFailsOnlyOnStore(w3, sessionId, message, results, env);
      SearchStepCases(w, sessionId, message, env);
    }
  }

  /** Only a blank message is rejected: a turn on text with a non-blank character
      fails, if at all, with a store error. */
  lemma TurnRejectsOnlyBlank(w: World, sessionId: string, message: string, env: TurnEnv)
    requires !Text.AllWhitespace(message)
    ensures var r := TurnSpec(w, sessionId, message, env).1;
      r.Failure? ==> r.error == StoreFailed
  {
    var (d1, saved) := SaveSpec(w.data, sessionId, UserDraft(message, env), env.userId, env.userSave);
    var w1 := World(w.entries, d1);
    TurnAfterSave(w, sessionId, message, env);
    if saved.Success? {
      SearchStepFailsOnlyOnStore(w1, sessionId, message, env);
    } else {
      FailRecords(w1, sessionId, env, StoreFailed);
    }
  }

  /** A turn whose user save succeeds continues with the embedding and search step. */
  lemma TurnAfterSave(w: World, sessionId: string, message: string, env: TurnEnv)
    ensures var (d1, saved) := SaveSpec(w.data, sessionId, UserDraft(message, env), env.userId, env.userSave);
      && (saved.Success? ==> TurnSpec(w, sessionId, message, env) == SearchStepSpec(World(w.entries, d1), sessionId, message, env))
      && (saved.Failure? ==> TurnSpec(w, sessionId, message, env) == FailSpec(World(w.entries, d1), sessionId, env, StoreFailed))
  {
  }

  /** When nothing matches, the answer model is never consulted: any other model gives
      the same answer step. */
  lemma NoMatchIgnoresModel(w: World, sessionId: string, message: string, env: TurnEnv,
                            other: (string, string) -> Option<seq<string>>)
    ensures AnswerSpec(w, sessionId, message, [], env.(model := other)) == AnswerSpec(w, sessionId, message, [], env)
  {
    var env2 := env.(model := other);
    assert ReplyFor(message, [], other) == ReplyFor(message, [], env.model);
    var draft := BotDraft(NoResultsText(message), None, env);
    assert BotDraft(NoResultsText(message), None, env2) == draft;
    assert ErrorDraft(env2) == ErrorDraft(env);
    var (data, saved) := SaveSpec(w.data, sessionId, draft, env.botId, env.botSave);
    assert FailSpec(World(w.entries, data), sessionId, env2, StoreFailed)
        == FailSpec(World(w.entries, data), sessionId, env, StoreFailed);
  }

  /** The user's message is recorded before anything else: when that save fails, the
      embedding, the search and the model play no part, and the index is unchanged. */
  lemma UserSavedFirst(w: World, sessionId: string, message: string, env: TurnEnv,
                       embed: EmbedEnv, reload: ReloadFaults, model: (string, string) -> Option<seq<string>>)
    requires env.userSave.writeFails
    ensures TurnSpec(w, sessionId, message, env.(embed := embed, reload := reload, model := model))
            == TurnSpec(w, sessionId, message, env)
    ensures TurnSpec(w, sessionId, message, env).0.entries == w.entries
    ensures TurnSpec(w, sessionId, message, env).1 == Failure(StoreFailed)
  {
  }

  lemma FailKeepsBound(w: World, sessionId: string, env: TurnEnv, e: TurnError)
    requires HistoriesBounded(w.data)
    ensures HistoriesBounded(FailSpec(w, sessionId, env, e).0.data)
  {
    SaveKeepsBound(w.data, sessionId, ErrorDraft(env), env.errorId, env.errorSave);
  }

  lemma RecordKeepsBound(w: World, sessionId: string, reply: Reply, sources: Option<seq<string>>, env: TurnEnv)
    requires HistoriesBounded(w.data)
    ensures HistoriesBounded(RecordReply(w, sessionId, reply, sources, env).0.data)
  {
    var draft := BotDraft(reply.message, sources, env);
    var (data, _) := SaveSpec(w.data, sessionId, draft, env.botId, env.botSave);
    SaveKeepsBound(w.data, sessionId, draft, env.botId, env.botSave);
    FailKeepsBound(World(w.entries, data), sessionId, env, StoreFailed);
  }

  lemma AnswerKeepsBound(w: World, sessionId: string, message: string, results: seq<Match>, env: TurnEnv)
    requires HistoriesBounded(w.data)
    ensures HistoriesBounded(AnswerSpec(w, sessionId, message, results, env).0.data)
  {
    RecordKeepsBound(w, sessionId, ReplyFor(message, results, env.model), RecordedSources(results), env);
  }

  lemma SearchStepKeepsBound(w: World, sessionId: string, message: string, env: TurnEnv)
    requires HistoriesBounded(w.data)
    ensures HistoriesBounded(SearchStepSpec(w, sessionId, message, env).0.data)
  {
    var (data, query) := GetEmbeddingSpec(w.data, message, env.embed);
    EmbeddingKeepsHistories(w.data, message, env.embed);
    assert HistoriesBounded(data);
    SearchStepCases(w, sessionId, message, env);
    if query.Success? {
      var (w3, results) := SearchSpec(World(w.entries, data), env.embed.sqrt, query.value,
                                      SearchLimit, SearchThreshold, env.reload);
      AnswerKeepsBound(w3, sessionId, message, results, env);
    } else {
      FailKeepsBound(World(w.entries, data), sessionId, env, Rejected(query.error));
    }
  }

  /** A turn never makes a stored history longer than 50 messages. */
  lemma TurnKeepsBound(w: World, sessionId: string, message: string, env: TurnEnv)
    requires HistoriesBounded(w.data)
    ensures HistoriesBounded(TurnSpec(w, sessionId, message, env).0.data)
  {
    var (d1, saved) := SaveSpec(w.data, sessionId, UserDraft(message, env), env.userId, env.userSave);
    SaveKeepsBound(w.data, sessionId, UserDraft(message, env), env.userId, env.userSave);
    TurnAfterSave(w, sessionId, message, env);
    if saved.Success? {
      SearchStepKeepsBound(World(w.entries, d1), sessionId, message, env);
    } else {
      FailKeepsBound(World(w.entries, d1), sessionId, env, StoreFailed);
    }
  }
}
