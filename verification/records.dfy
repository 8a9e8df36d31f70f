/** The values the services keep in the durable key-value store, and the key
    namespaces they use. A stored value is the JSON text the source writes with
    `JSON.stringify`; it is modelled by what `JSON.parse` gives back. */
module Records {
  import opened Wrappers

  /** An article as handed to `storeArticle` and as written under `article:<guid>`. */
  datatype Article = Article(
    title: string,
    content: string,
    url: string,
    publishedDate: string,
    source: string,
    guid: string,
    embedding: Option<seq<real>>,
    processedAt: string)

  datatype Sender = User | Bot

  /** One chat message; `sources` and `isError` are the optional fields of the source
      (`None` and `false` when the field is absent). */
  datatype Message = Message(
    id: string,
    text: string,
    sender: Sender,
    timestamp: string,
    sources: Option<seq<string>>,
    isError: bool)

  /** The summary written under `vectorstore:metadata`. */
  datatype Metadata = Metadata(totalArticles: nat, lastUpdated: string, sources: seq<string>)

  /** What a stored JSON text parses to; `Unparseable` is text that `JSON.parse` rejects. */
  datatype Value =
    | ArticleJson(article: Article)
    | HistoryJson(messages: seq<Message>)
    | EmbeddingJson(vector: seq<real>)
    | MetadataJson(meta: Metadata)
    | Unparseable

  const ArticlePrefix: string := "article:"
  const ChatPrefix: string := "chat:"
  const EmbeddingPrefix: string := "embedding:"
  const MetadataKey: string := "vectorstore:metadata"

  function ArticleKey(guid: string): (k: string)
    ensures ArticlePrefix <= k
  {
    ArticlePrefix + guid
  }

  function ChatKey(sessionId: string): (k: string)
    ensures ChatPrefix <= k
  {
    ChatPrefix + sessionId
  }

  predicate IsArticleKey(k: string)
  {
    ArticlePrefix <= k
  }

  /** A key in one namespace is never a key in another: the services cannot
      overwrite each other's records. */
  lemma NamespacesDisjoint(k: string)
    ensures !(ArticlePrefix <= k && ChatPrefix <= k)
    ensures !(ArticlePrefix <= k && EmbeddingPrefix <= k)
    ensures !(ChatPrefix <= k && EmbeddingPrefix <= k)
    ensures !(MetadataKey == k && (ArticlePrefix <= k || ChatPrefix <= k || EmbeddingPrefix <= k))
  {
    assert ArticlePrefix <= k ==> k[0] == ArticlePrefix[0] == 'a';
    assert ChatPrefix <= k ==> k[0] == ChatPrefix[0] == 'c';
    assert EmbeddingPrefix <= k ==> k[0] == EmbeddingPrefix[0] == 'e';
    assert MetadataKey[0] == 'v';
  }

  /** Session keys are distinct for distinct sessions. */
  lemma ChatKeyInjective(a: string, b: string)
    requires ChatKey(a) == ChatKey(b)
    ensures a == b
  {
    assert a == ChatKey(a)[|ChatPrefix|..];
    assert b == ChatKey(b)[|ChatPrefix|..];
  }

  /** Distinct sessions have distinct keys. */
  lemma ChatKeyDistinct(a: string, b: string)
    requires a != b
    ensures ChatKey(a) != ChatKey(b)
  {
    assert a == ChatKey(a)[|ChatPrefix|..];
    assert b == ChatKey(b)[|ChatPrefix|..];
  }
}
