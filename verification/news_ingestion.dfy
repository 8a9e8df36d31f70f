/** News ingestion (`services/newsIngestion.js`): feed items become articles with
    defaults filled in, and the articles of all feeds are embedded and stored in
    batches of five, with a pause between batches.

    The feed parser, the HTML-to-text conversion and the clock are parameters: `parse`
    gives the items of a feed URL or `None` when fetching or parsing fails, `strip`
    stands for the text of the HTML, and `now`/`nowMs` for the ISO time and
    `Date.now()`. A batch is processed article by article and a pause is counted
    rather than waited for. */
module NewsIngestion {
  import opened Wrappers
  import opened Records
  import opened RedisClient
  import opened Text
  import opened VectorStore
  import opened EmbeddingService

  // ----- Feed items ------------------------------------------------------------------

  /** The fields of a parsed feed item that ingestion reads; `None` for an absent field. */
  datatype FeedItem = FeedItem(
    title: Option<string>,
    link: Option<string>,
    pubDate: Option<string>,
    guid: Option<string>,
    contentEncoded: Option<string>,
    description: Option<string>,
    content: Option<string>)

  /** A string field is truthy when present and non-empty. */
  predicate Truthy(o: Option<string>)
  {
    o.Some? && o.value != []
  }

  /** `o || d` on an optional string field. */
  function OrElse(o: Option<string>, d: string): (r: string)
    ensures Truthy(o) ==> r == o.value
    ensures !Truthy(o) ==> r == d
  {
    if Truthy(o) then o.value else d
  }

  const ContentLimit: nat := 1000

  /** The first truthy one of `content:encoded`, `description` and `content`, else `""`. */
  function SelectContent(item: FeedItem): (r: string)
    ensures Truthy(item.contentEncoded) ==> r == item.contentEncoded.value
    ensures !Truthy(item.contentEncoded) && Truthy(item.description) ==> r == item.description.value
    ensures !Truthy(item.contentEncoded) && !Truthy(item.description) ==> r == OrElse(item.content, "")
  {
    OrElse(item.contentEncoded, OrElse(item.description, OrElse(item.content, "")))
  }

  /** `extractContent`: the selected text, reduced to its text when it holds a `<`,
      cut to 1000 characters. */
  function ExtractContent(item: FeedItem, strip: string -> string): (r: string)
    ensures |r| <= ContentLimit
    ensures '<' !in SelectContent(item) ==> r <= SelectContent(item)
    ensures '<' !in SelectContent(item) ==> |r| == Min(|SelectContent(item)|, ContentLimit)
    ensures '<' !in SelectContent(item) && |SelectContent(item)| <= ContentLimit ==> r == SelectContent(item)
  {
    var content := SelectContent(item);
    var text := if '<' in content then strip(content) else content;
    Prefix(text, ContentLimit)
  }

  /** An article as `fetchRSSFeed` produces it. */
  datatype FeedArticle = FeedArticle(
    title: string,
    content: string,
    url: string,
    publishedDate: string,
    source: string,
    guid: string)

  const Untitled: string := "Untitled"

  /** The fallback guid `<source>-<Date.now()>`. */
  function StampGuid(sourceName: string, nowMs: nat): (r: string)
    ensures |r| > |sourceName| && r[..|sourceName|] == sourceName && r[|sourceName|] == '-'
    ensures var digits := r[|sourceName| + 1..];
      && (forall i :: 0 <= i < |digits| ==> IsDigit(digits[i]))
      && DecimalValue(digits) == nowMs
  {
    var r := sourceName + "-" + NatToString(nowMs);
    assert r[|sourceName| + 1..] == NatToString(nowMs);
    DecimalRoundTrip(nowMs);
    r
  }

  /** The `map` of `fetchRSSFeed` for one item. */
  function MapItem(item: FeedItem, sourceName: string, now: string, nowMs: nat, strip: string -> string): (a: FeedArticle)
    ensures a.title == OrElse(item.title, Untitled) && a.url == OrElse(item.link, "")
    ensures a.publishedDate == OrElse(item.pubDate, now) && a.source == sourceName
    ensures a.guid == OrElse(item.guid, OrElse(item.link, StampGuid(sourceName, nowMs)))
    ensures a.content == ExtractContent(item, strip)
  {
    FeedArticle(
      OrElse(item.title, Untitled),
      ExtractContent(item, strip),
      OrElse(item.link, ""),
      OrElse(item.pubDate, now),
      sourceName,
      OrElse(item.guid, OrElse(item.link, StampGuid(sourceName, nowMs))))
  }

  /** Every mapped article has a title and a guid: the defaults are never empty. */
  lemma MappedArticleHasTitleAndGuid(item: FeedItem, sourceName: string, now: string, nowMs: nat,
                                     strip: string -> string)
    ensures MapItem(item, sourceName, now, nowMs, strip).title != []
    ensures MapItem(item, sourceName, now, nowMs, strip).guid != []
    ensures !Truthy(item.guid) && !Truthy(item.link) ==>
      MapItem(item, sourceName, now, nowMs, strip).guid[..|sourceName|] == sourceName
  {
    assert Untitled[0] == 'U';
  }

  datatype NewsSource = NewsSource(name: string, url: string)

  const NewsSources: seq<NewsSource> := [
    NewsSource("BBC News", "http://feeds.bbci.co.uk/news/rss.xml"),
    NewsSource("BBC Technology", "http://feeds.bbci.co.uk/news/technology/rss.xml"),
    NewsSource("BBC Business", "http://feeds.bbci.co.uk/news/business/rss.xml"),
    NewsSource("TechCrunch", "https://techcrunch.com/feed/"),
    NewsSource("Ars Technica", "https://feeds.arstechnica.com/arstechnica/index/")]

  /** `fetchRSSFeed`: one article per item, in feed order; no articles when the feed
      cannot be fetched or parsed. */
  function FetchRssFeed(source: NewsSource, parsed: Option<seq<FeedItem>>, now: string, nowMs: nat,
                        strip: string -> string): (r: seq<FeedArticle>)
    ensures parsed.None? ==> r == []
    ensures parsed.Some? ==> |r| == |parsed.value|
    ensures parsed.Some? ==> forall i :: 0 <= i < |r| ==> r[i] == MapItem(parsed.value[i], source.name, now, nowMs, strip)
  {
    match parsed
    case None => []
    case Some(items) => seq(|items|, i requires 0 <= i < |items| => MapItem(items[i], source.name, now, nowMs, strip))
  }

  /** Every article of a feed has a title and a guid, at most 1000 characters of
      content, and the feed's source name. */
  lemma FeedArticlesWellFormed(source: NewsSource, parsed: Option<seq<FeedItem>>, now: string, nowMs: nat,
                               strip: string -> string)
    ensures forall a :: a in FetchRssFeed(source, parsed, now, nowMs, strip) ==>
      && a.title != [] && a.guid != []
      && |a.content| <= ContentLimit
      && a.source == source.name
  {
    var r := FetchRssFeed(source, parsed, now, nowMs, strip);
    forall a | a in r
      ensures a.title != [] && a.guid != [] && |a.content| <= ContentLimit && a.source == source.name
    {
      var i :| 0 <= i < |r| && r[i] == a;
      MappedArticleHasTitleAndGuid(parsed.value[i], source.name, now, nowMs, strip);
    }
  }

  // ----- Ingestion -------------------------------------------------------------------

  const BatchSize: nat := 5

  /** Everything one run consults: the feeds, the HTML stripping, the embedding
      environment, the faults of each article's store (by position in the run) and the
      ids a guid-less article would get, and the clock. */
  datatype IngestEnv = IngestEnv(
    parse: string -> Option<seq<FeedItem>>,
    strip: string -> string,
    embed: EmbedEnv,
    storeFaults: nat -> StoreFaults,
    fallbackIds: nat -> string,
    now: string,
    nowMs: nat)

  /** The articles of the given sources, feed after feed. */
  function FetchAll(sources: seq<NewsSource>, env: IngestEnv): seq<FeedArticle>
  {
    if sources == [] then []
    else
      var last := sources[|sources| - 1];
      FetchAll(sources[..|sources| - 1], env) + FetchRssFeed(last, env.parse(last.url), env.now, env.nowMs, env.strip)
  }

  /** The text that is embedded for an article: its title, a blank line, its content. */
  function CombinedText(a: FeedArticle): (r: string)
    ensures |r| == |a.title| + 2 + |a.content|
    ensures r[..|a.title|] == a.title && r[|a.title|..|a.title| + 2] == "\n\n" && r[|a.title| + 2..] == a.content
  {
    a.title + "\n\n" + a.content
  }

  /** `{ ...article, embedding, processedAt }`. */
  function ToStored(a: FeedArticle, embedding: seq<real>, processedAt: string): Article
  {
    Article(a.title, a.content, a.url, a.publishedDate, a.source, a.guid, Some(embedding), processedAt)
  }

  function StoreOk(f: StoreFaults): bool
  {
    !f.recordFails && !f.metadataFails
  }

  /** One article of a batch: embed its text, store it; whether the store succeeded. */
  function ArticleStep(w: World, a: FeedArticle, k: nat, env: IngestEnv): (World, bool)
  {
    var (data, v) := GenerateSpec(w.data, CombinedText(a), env.embed);
    var (w1, r) := StoreSpec(World(w.entries, data), ToStored(a, v, env.now), env.fallbackIds(k), env.now,
                             env.storeFaults(k));
    (w1, r.Success?)
  }

  /** What processing one article does to the index and the store, and whether its
      store succeeded; the article's position in the run is the last argument. */
  type Step = (World, FeedArticle, nat) -> (World, bool)

  function StepOf(env: IngestEnv): Step
  {
    (w: World, a: FeedArticle, k: nat) => ArticleStep(w, a, k, env)
  }

  /** `step` is the article step of `env`. (Stated point by point, so that a proof
      holding it sees the step's definition only where it names `ArticleStep`.) */
  ghost predicate Agrees(step: Step, env: IngestEnv)
  {
    forall w: World, a: FeedArticle, k: nat {:trigger ArticleStep(w, a, k, env)} ::
      step(w, a, k) == ArticleStep(w, a, k, env)
  }

  lemma StepOfAgrees(env: IngestEnv)
    ensures Agrees(StepOf(env), env)
  {
  }

  /** The articles processed in order by `step`, the first of them at position `from`
      of the run: the final index and store, and how many steps succeeded. */
  function Run(step: Step, w: World, arts: seq<FeedArticle>, from: nat): (r: (World, nat))
    ensures r.1 <= |arts|
    decreases |arts|
  {
    if arts == [] then (w, 0)
    else
      var (w1, ok) := step(w, arts[0], from);
      var (w2, count) := Run(step, w1, arts[1..], from + 1);
      (w2, count + if ok then 1 else 0)
  }

  /** The articles of a run embedded and stored in order. */
  function ProcessAll(w: World, arts: seq<FeedArticle>, env: IngestEnv): (World, nat)
  {
    Run(StepOf(env), w, arts, 0)
  }

  /** The number of positions `lo <= k < hi` of a run whose store succeeds. */
  function CountOk(faults: nat -> StoreFaults, lo: nat, hi: nat): (c: nat)
    ensures c <= hi - lo || hi < lo
    decreases hi - lo
  {
    if hi <= lo then 0 else (if StoreOk(faults(lo)) then 1 else 0) + CountOk(faults, lo + 1, hi)
  }

  /** The index entry stored for an article carries the article's fields and an
      embedding, and its id is the article's guid when it has one. */
  predicate EntryOfArticle(e: StoredArticle, a: FeedArticle)
  {
    e.title == a.title && e.url == a.url && e.source == a.source && e.content == a.content
    && e.embedding.Some? && (a.guid != [] ==> e.id == a.guid)
  }

  /** A step appends one entry for its article and keeps the entries before it. */
  ghost predicate AppendsEntry(step: Step)
  {
    forall w: World, a: FeedArticle, k: nat ::
      |step(w, a, k).0.entries| == |w.entries| + 1
      && step(w, a, k).0.entries[..|w.entries|] == w.entries
      && EntryOfArticle(step(w, a, k).0.entries[|w.entries|], a)
  }

  /** A step succeeds exactly when the store it makes meets no fault. */
  ghost predicate SucceedsUnless(step: Step, faults: nat -> StoreFaults)
  {
    forall w: World, a: FeedArticle, k: nat :: step(w, a, k).1 == StoreOk(faults(k))
  }

  lemma ArticleStepOutcome(w: World, a: FeedArticle, k: nat, env: IngestEnv)
    ensures ArticleStep(w, a, k, env).1 <==> StoreOk(env.storeFaults(k))
    ensures |ArticleStep(w, a, k, env).0.entries| == |w.entries| + 1
    ensures ArticleStep(w, a, k, env).0.entries[..|w.entries|] == w.entries
    ensures EntryOfArticle(ArticleStep(w, a, k, env).0.entries[|w.entries|], a)
    ensures ArticleStep(w, a, k, env).0.entries[|w.entries|].embedding
            == Some(GenerateSpec(w.data, CombinedText(a), env.embed).1)
  {
    var (data, v) := GenerateSpec(w.data, CombinedText(a), env.embed);
    StoreAppends(World(w.entries, data), ToStored(a, v, env.now), env.fallbackIds(k), env.now, env.storeFaults(k));
  }

  /** Embedding and storing an article appends its entry and succeeds unless the store
      meets a fault. */
  lemma StepOfFacts(env: IngestEnv)
    ensures AppendsEntry(StepOf(env)) && SucceedsUnless(StepOf(env), env.storeFaults)
  {
    forall w: World, a: FeedArticle, k: nat
      ensures |StepOf(env)(w, a, k).0.entries| == |w.entries| + 1
      ensures StepOf(env)(w, a, k).0.entries[..|w.entries|] == w.entries
      ensures EntryOfArticle(StepOf(env)(w, a, k).0.entries[|w.entries|], a)
      ensures StepOf(env)(w, a, k).1 == StoreOk(env.storeFaults(k))
    {
      ArticleStepOutcome(w, a, k, env);
    }
  }

  lemma {:induction false} RunCounts(step: Step, faults: nat -> StoreFaults, w: World, arts: seq<FeedArticle>,
                                     from: nat)
    requires SucceedsUnless(step, faults)
    ensures Run(step, w, arts, from).1 == CountOk(faults, from, from + |arts|)
    decreases |arts|
  {
    if arts != [] {
      RunCounts(step, faults, step(w, arts[0], from).0, arts[1..], from + 1);
    }
  }

  lemma {:induction false} RunAppends(step: Step, w: World, arts: seq<FeedArticle>, from: nat)
    requires AppendsEntry(step)
    ensures |Run(step, w, arts, from).0.entries| == |w.entries| + |arts|
    ensures Run(step, w, arts, from).0.entries[..|w.entries|] == w.entries
    ensures forall k :: 0 <= k < |arts| ==> EntryOfArticle(Run(step, w, arts, from).0.entries[|w.entries| + k], arts[k])
    decreases |arts|
  {
    if arts != [] {
      var w1 := step(w, arts[0], from).0;
      RunAppends(step, w1, arts[1..], from + 1);
      var w2 := Run(step, w1, arts[1..], from + 1).0;
      assert Run(step, w, arts, from).0 == w2;
      assert w2.entries[..|w.entries|] == w2.entries[..|w1.entries|][..|w.entries|];
      forall k | 0 <= k < |arts|
        ensures EntryOfArticle(w2.entries[|w.entries| + k], arts[k])
      {
        if k == 0 {
          assert w2.entries[|w.entries|] == w2.entries[..|w1.entries|][|w.entries|];
        } else {
          assert arts[1..][k - 1] == arts[k];
        }
      }
    }
  }

  /** The count is the number of articles whose store succeeded: a failed store stops
      neither its batch nor the run. */
  lemma {:induction false} ProcessAllCounts(w: World, arts: seq<FeedArticle>, env: IngestEnv)
    ensures ProcessAll(w, arts, env).1 == CountOk(env.storeFaults, 0, |arts|)
  {
    StepOfFacts(env);
    RunCounts(StepOf(env), env.storeFaults, w, arts, 0);
  }

  /** Every article, stored or not, is appended to the in-memory index, in order; the
      entries already there stay. */
  lemma {:induction false} ProcessAllAppends(w: World, arts: seq<FeedArticle>, env: IngestEnv)
    ensures |ProcessAll(w, arts, env).0.entries| == |w.entries| + |arts|
    ensures ProcessAll(w, arts, env).0.entries[..|w.entries|] == w.entries
    ensures forall k :: 0 <= k < |arts| ==> EntryOfArticle(ProcessAll(w, arts, env).0.entries[|w.entries| + k], arts[k])
  {
    StepOfFacts(env);
    RunAppends(StepOf(env), w, arts, 0);
  }

  /** Without store faults every article is counted. */
  lemma {:induction false} AllStoredWithoutFaults(faults: nat -> StoreFaults, lo: nat, hi: nat)
    requires lo <= hi
    requires forall k :: lo <= k < hi ==> StoreOk(faults(k))
    ensures CountOk(faults, lo, hi) == hi - lo
    decreases hi - lo
  {
    if lo < hi {
      AllStoredWithoutFaults(faults, lo + 1, hi);
    }
  }

  // ----- Batches -----------------------------------------------------------------------

  /** The number of batches: `ceil(n / 5)`. */
  function BatchCount(n: nat): nat
  {
    (n + BatchSize - 1) / BatchSize
  }

  lemma BatchCountCeil(n: nat)
    ensures n == 0 <==> BatchCount(n) == 0
    ensures n > 0 ==> BatchSize * (BatchCount(n) - 1) < n <= BatchSize * BatchCount(n)
  {
  }

  /** `allArticles.slice(i, i + 5)` for every `i = 0, 5, 10, ...` below the length. */
  function Batches(arts: seq<FeedArticle>): (bs: seq<seq<FeedArticle>>)
    ensures |bs| == BatchCount(|arts|)
    decreases |arts|
  {
    if arts == [] then []
    else if |arts| <= BatchSize then [arts]
    else [arts[..BatchSize]] + Batches(arts[BatchSize..])
  }

  function Flatten(bs: seq<seq<FeedArticle>>): seq<FeedArticle>
  {
    if bs == [] then [] else bs[0] + Flatten(bs[1..])
  }

  /** The batches, in order, hold every article exactly once: together they are the
      article list. All but the last hold five articles; the last holds one to five. */
  lemma {:induction false} BatchesPartition(arts: seq<FeedArticle>)
    ensures Flatten(Batches(arts)) == arts
    ensures forall b :: 0 <= b < |Batches(arts)| ==> 1 <= |Batches(arts)[b]| <= BatchSize
    ensures forall b :: 0 <= b < |Batches(arts)| - 1 ==> |Batches(arts)[b]| == BatchSize
    decreases |arts|
  {
    if |arts| > BatchSize {
      var rest := arts[BatchSize..];
      BatchesPartition(rest);
      assert arts == arts[..BatchSize] + rest;
      var bs := Batches(arts);
      assert bs[1..] == Batches(rest);
      forall b | 0 <= b < |bs| ensures 1 <= |bs[b]| <= BatchSize {
        if b > 0 { assert bs[b] == Batches(rest)[b - 1]; }
      }
      forall b | 0 <= b < |bs| - 1 ensures |bs[b]| == BatchSize {
        if b > 0 { assert bs[b] == Batches(rest)[b - 1]; }
      }
    } else if arts != [] {
      assert Flatten(Batches(arts)) == arts + Flatten([]);
    }
  }

  /** Batch `b` is the slice from `5b` to `5b + 5`, cut at the end of the list. */
  lemma {:induction false} BatchIsSlice(arts: seq<FeedArticle>, b: nat)
    requires b < |Batches(arts)|
    ensures Batches(arts)[b] == arts[BatchSize * b..Min(BatchSize * b + BatchSize, |arts|)]
    decreases |arts|
  {
    if b > 0 {
      var rest := arts[BatchSize..];
      BatchIsSlice(rest, b - 1);
      assert Batches(arts)[b] == Batches(rest)[b - 1];
      var lo := BatchSize * (b - 1);
      var hi := Min(lo + BatchSize, |rest|);
      assert BatchSize + lo == BatchSize * b;
      assert BatchSize + hi == Min(BatchSize * b + BatchSize, |arts|);
      SliceOfDrop(arts, BatchSize, lo, hi);
    }
  }

  /** What `ingestNewsArticles` reports. */
  datatype Report = Report(success: bool, count: nat, total: nat, timestamp: string)

  /** The pauses of a run: one after every batch but the last. */
  function Pauses(n: nat): nat
  {
    if n == 0 then 0 else BatchCount(n) - 1
  }

  /** One article of a batch: embed its combined text, then store it with its
      embedding; whether the store succeeded. */
  method IngestArticle(index: VectorIndex, a: FeedArticle, k: nat, env: IngestEnv, ghost step: Step)
    returns (ok: bool)
    requires Agrees(step, env)
    modifies index, index.db
    ensures (index.State(), ok) == step(old(index.State()), a, k)
  {
    ghost var before := index.State();
    var v := GenerateEmbedding(index.db, CombinedText(a), env.embed);
    var stored := index.StoreArticle(ToStored(a, v, env.now), env.fallbackIds(k), env.now, env.storeFaults(k));
    ok := stored.Success?;
    assert (index.State(), ok) == ArticleStep(before, a, k, env);
  }

  /** The fetch loop of `ingestNewsArticles`: the articles of every feed, feed after
      feed; a feed that fails adds none. */
  method FetchAllFeeds(env: IngestEnv) returns (all: seq<FeedArticle>)
    ensures all == FetchAll(NewsSources, env)
  {
    all := [];
    var s := 0;
    while s < |NewsSources|
      invariant 0 <= s <= |NewsSources|
      invariant all == FetchAll(NewsSources[..s], env)
    {
      assert NewsSources[..s + 1][..s] == NewsSources[..s];
      var source := NewsSources[s];
      var articles := FetchRssFeed(source, env.parse(source.url), env.now, env.nowMs, env.strip);
      all := all + articles;
      s := s + 1;
    }
    assert NewsSources[..s] == NewsSources;
  }

  /** After the articles before position `i`, the run so far and the run from `i` on
      make up the whole run `target`: `state` and `processed` are where the whole run
      stands after `i` articles. */
  ghost predicate OnTrack(target: (World, nat), step: Step, all: seq<FeedArticle>, i: nat,
                          state: World, processed: nat)
  {
    i <= |all|
    && var rest := Run(step, state, all[i..], i);
       target == (rest.0, processed + rest.1)
  }

  /** Article `i` of the run embedded and stored, and counted when its store succeeds. */
  method IngestNext(index: VectorIndex, all: seq<FeedArticle>, i: nat, env: IngestEnv, ghost step: Step,
                    ghost target: (World, nat), processed0: nat) returns (processed: nat)
    requires Agrees(step, env)
    requires i < |all| && OnTrack(target, step, all, i, index.State(), processed0)
    modifies index, index.db
    ensures OnTrack(target, step, all, i + 1, index.State(), processed)
  {
    assert all[i..][1..] == all[i + 1..];
    var stored := IngestArticle(index, all[i], i, env, step);
    processed := if stored then processed0 + 1 else processed0;
  }

  /** One batch, `all[lo..hi]`, processed article after article. */
  method ProcessBatch(index: VectorIndex, all: seq<FeedArticle>, lo: nat, hi: nat, env: IngestEnv,
                      ghost step: Step, ghost target: (World, nat), processed0: nat) returns (processed: nat)
    requires Agrees(step, env)
    requires lo <= hi <= |all| && OnTrack(target, step, all, lo, index.State(), processed0)
    modifies index, index.db
    ensures OnTrack(target, step, all, hi, index.State(), processed)
  {
    var batch := all[lo..hi];
    processed := processed0;
    var j := 0;
    while j < |batch|
      invariant 0 <= j <= |batch| && OnTrack(target, step, all, lo + j, index.State(), processed)
    {
      processed := IngestNext(index, all, lo + j, env, step, target, processed);
      j := j + 1;
    }
  }

  /** The batch loop of `ingestNewsArticles`: batches of five, a pause after each batch
      that leaves articles behind. */
  method ProcessBatches(index: VectorIndex, all: seq<FeedArticle>, env: IngestEnv, ghost step: Step,
                        ghost target: (World, nat)) returns (processed: nat, pauses: nat)
    requires Agrees(step, env) && OnTrack(target, step, all, 0, index.State(), 0)
    modifies index, index.db
    ensures OnTrack(target, step, all, |all|, index.State(), processed)
    ensures pauses == Pauses(|all|)
  {
    var n := |all|;
    processed := 0;
    pauses := 0;
    var i := 0;
    ghost var b := 0;
    while i < n
      invariant i == BatchSize * b && b <= BatchCount(n)
      invariant b < BatchCount(n) ==> i < n
      invariant OnTrack(target, step, all, Min(i, n), index.State(), processed)
      invariant pauses == Min(b, Pauses(n))
      decreases n - i
    {
      // The slice this round processes is batch `b` of the partition.
      assert all[i..Min(i + BatchSize, n)] == Batches(all)[b] by {
        BatchCountCeil(n);
        BatchIsSlice(all, b);
      }
      processed := ProcessBatch(index, all, i, Min(i + BatchSize, n), env, step, target, processed);
      if i + BatchSize < n {
        pauses := pauses + 1;
      }
      i := i + BatchSize;
      b := b + 1;
    }
  }

  /** `ingestNewsArticles`: fetch every feed, then embed and store the articles batch
      by batch, pausing only when articles remain. It reports the articles fetched and
      the stores that succeeded, and returns the number of pauses. */
  method IngestNewsArticles(index: VectorIndex, env: IngestEnv) returns (report: Report, pauses: nat)
    modifies index, index.db
    ensures var all := FetchAll(NewsSources, env);
      && report == Report(true, ProcessAll(old(index.State()), all, env).1, |all|, env.now)
      && index.State() == ProcessAll(old(index.State()), all, env).0
      && pauses == Pauses(|all|)
  {
    var all := FetchAllFeeds(env);
    var total := |all|;
    ghost var step := StepOf(env);
    StepOfAgrees(env);
    ghost var target := ProcessAll(index.State(), all, env);
    assert all[0..] == all;
    var processed;
    processed, pauses := ProcessBatches(index, all, env, step, target);
    assert all[|all|..] == [];
    report := Report(true, processed, total, env.now);
  }
}
