/** The in-memory vector index (`services/vectorStore.js`): a list of stored articles
    kept in process memory, mirrored record by record into the durable store under
    `article:<guid>`, with a derived summary under `vectorstore:metadata`.

    `Math.sqrt` is the parameter `sqrt`: nothing is assumed about it, so every
    property below holds for whatever square root the platform computes. */
module VectorStore {
  import opened Wrappers
  import opened Records
  import opened RedisClient

  /** `cosineSimilarity` throws on vectors of different lengths; reading the length of
      a missing embedding throws a `TypeError`. Both are caught by the search. */
  datatype VectorError = LengthMismatch | NotAVector

  /** An element of the in-memory array. */
  datatype StoredArticle = StoredArticle(
    id: string,
    title: string,
    content: string,
    url: string,
    source: string,
    publishedDate: string,
    embedding: Option<seq<real>>,
    processedAt: string)

  // ----- Cosine similarity -----------------------------------------------------

  /** The running sum `Σ a[i] * b[i]`, accumulated from index 0 upwards. */
  function Dot(a: seq<real>, b: seq<real>): real
    requires |a| == |b|
  {
    if a == [] then 0.0 else Dot(a[..|a| - 1], b[..|b| - 1]) + a[|a| - 1] * b[|b| - 1]
  }

  /** The last step of the similarity: the dot product over the product of the two
      norms, or 0 when either norm is 0. */
  function Normalised(sqrt: real -> real, dot: real, normSqA: real, normSqB: real): (r: real)
    ensures sqrt(normSqA) == 0.0 || sqrt(normSqB) == 0.0 ==> r == 0.0
    ensures sqrt(normSqA) != 0.0 && sqrt(normSqB) != 0.0 ==> r * (sqrt(normSqA) * sqrt(normSqB)) == dot
  {
    var normA := sqrt(normSqA);
    var normB := sqrt(normSqB);
    if normA == 0.0 || normB == 0.0 then 0.0 else dot / (normA * normB)
  }

  /** Cosine similarity with the source's conventions: an error for vectors of
      different lengths, and 0 when either norm is 0. */
  function Cosine(sqrt: real -> real, a: seq<real>, b: seq<real>): (r: Result<real, VectorError>)
    ensures r.Failure? <==> |a| != |b|
    ensures r.Failure? ==> r.error == LengthMismatch
  {
    if |a| != |b| then Failure(LengthMismatch)
    else Success(Normalised(sqrt, Dot(a, b), Dot(a, a), Dot(b, b)))
  }

  /** `cosineSimilarity`: one pass accumulating the dot product and both squared norms. */
  method CosineSimilarity(sqrt: real -> real, a: seq<real>, b: seq<real>) returns (r: Result<real, VectorError>)
    ensures r == Cosine(sqrt, a, b)
  {
    if |a| != |b| {
      return Failure(LengthMismatch);
    }
    var dot, normA, normB := 0.0, 0.0, 0.0;
    var i := 0;
    while i < |a|
      invariant 0 <= i <= |a|
      invariant dot == Dot(a[..i], b[..i])
      invariant normA == Dot(a[..i], a[..i])
      invariant normB == Dot(b[..i], b[..i])
    {
      assert a[..i + 1][..i] == a[..i] && b[..i + 1][..i] == b[..i];
      dot := dot + a[i] * b[i];
      normA := normA + a[i] * a[i];
      normB := normB + b[i] * b[i];
      i := i + 1;
    }
    assert a[..i] == a && b[..i] == b;
    r := Success(Normalised(sqrt, dot, normA, normB));
  }

  lemma {:induction false} DotSymmetric(a: seq<real>, b: seq<real>)
    requires |a| == |b|
    ensures Dot(a, b) == Dot(b, a)
  {
    if a != [] {
      DotSymmetric(a[..|a| - 1], b[..|b| - 1]);
    }
  }

  /** A dot product with the zero vector, on either side, is 0. */
  lemma {:induction false} DotWithZero(a: seq<real>, b: seq<real>)
    requires |a| == |b|
    requires forall i :: 0 <= i < |a| ==> a[i] == 0.0
    ensures Dot(a, b) == 0.0 && Dot(b, a) == 0.0
  {
    if a != [] {
      var n := |a| - 1;
      DotWithZero(a[..n], b[..n]);
      assert a[n] == 0.0;
      ZeroTimes(b[n]);
    }
  }

  lemma ZeroTimes(y: real)
    ensures 0.0 * y == 0.0 && y * 0.0 == 0.0
  {
  }

  /** Similarity does not depend on the order of its arguments. */
  lemma CosineSymmetric(sqrt: real -> real, a: seq<real>, b: seq<real>)
    ensures Cosine(sqrt, a, b) == Cosine(sqrt, b, a)
  {
    if |a| == |b| {
      DotSymmetric(a, b);
      NormalisedSymmetric(sqrt, Dot(a, b), Dot(a, a), Dot(b, b));
    }
  }

  /** The two norms play the same part in the quotient. */
  lemma NormalisedSymmetric(sqrt: real -> real, dot: real, normSqA: real, normSqB: real)
    ensures Normalised(sqrt, dot, normSqA, normSqB) == Normalised(sqrt, dot, normSqB, normSqA)
  {
    if sqrt(normSqA) != 0.0 && sqrt(normSqB) != 0.0 {
      assert sqrt(normSqA) * sqrt(normSqB) == sqrt(normSqB) * sqrt(normSqA);
    }
  }

  /** Comparing with the zero vector gives exactly 0, whichever side it is on,
      for any square root with `sqrt(0) == 0`. */
  lemma CosineWithZeroVector(sqrt: real -> real, a: seq<real>, b: seq<real>)
    requires |a| == |b| && sqrt(0.0) == 0.0
    requires (forall i :: 0 <= i < |a| ==> a[i] == 0.0) || (forall i :: 0 <= i < |b| ==> b[i] == 0.0)
    ensures Cosine(sqrt, a, b) == Success(0.0)
  {
    if forall i :: 0 <= i < |a| ==> a[i] == 0.0 {
      DotWithZero(a, a);
    } else {
      DotWithZero(b, b);
    }
    assert sqrt(Dot(a, a)) == 0.0 || sqrt(Dot(b, b)) == 0.0;
  }

  // ----- Ranking: map to score, filter, stable sort, slice ---------------------

  /** A search hit: the article, its similarity, and its index in the store. */
  datatype Match = Match(pos: nat, article: StoredArticle, similarity: real)

  predicate Comparable(query: seq<real>, e: StoredArticle)
  {
    e.embedding.Some? && |e.embedding.value| == |query|
  }

  predicate AllComparable(query: seq<real>, entries: seq<StoredArticle>)
  {
    forall i :: 0 <= i < |entries| ==> Comparable(query, entries[i])
  }

  function Similarity(sqrt: real -> real, query: seq<real>, e: StoredArticle): real
    requires Comparable(query, e)
  {
    Cosine(sqrt, query, e.embedding.value).value
  }

  /** The `map` step: every stored article with its score, in store order. */
  function Scores(sqrt: real -> real, query: seq<real>, entries: seq<StoredArticle>): (ms: seq<Match>)
    requires AllComparable(query, entries)
    ensures |ms| == |entries|
    ensures forall i :: 0 <= i < |ms| ==> ms[i] == Match(i, entries[i], Similarity(sqrt, query, entries[i]))
  {
    seq(|entries|, i requires 0 <= i < |entries| => Match(i, entries[i], Similarity(sqrt, query, entries[i])))
  }

  /** The `filter` step: the hits scoring strictly above the threshold, in order. */
  function KeepAbove(ms: seq<Match>, threshold: real): (r: seq<Match>)
    ensures forall m :: m in r <==> m in ms && m.similarity > threshold
  {
    if ms == [] then []
    else (if ms[0].similarity > threshold then [ms[0]] else []) + KeepAbove(ms[1..], threshold)
  }

  /** One step of a stable sort on descending similarity: `m`, which precedes every
      element of `s` in the input, goes before the first element not scoring higher. */
  function Insert(m: Match, s: seq<Match>): seq<Match>
  {
    if s == [] then [m]
    else if s[0].similarity > m.similarity then [s[0]] + Insert(m, s[1..])
    else [m] + s
  }

  /** `sort((a, b) => b.similarity - a.similarity)`; the comparator looks at the
      similarity only and the sort is stable (ECMA-262, 2019 and later). */
  function SortBySimilarity(ms: seq<Match>): seq<Match>
  {
    if ms == [] then [] else Insert(ms[0], SortBySimilarity(ms[1..]))
  }

  /** The `slice(0, limit)` step. */
  function Take(ms: seq<Match>, limit: nat): (r: seq<Match>)
    ensures |r| <= limit && r <= ms
    ensures |ms| <= limit ==> r == ms
  {
    if |ms| <= limit then ms else ms[..limit]
  }

  /** The whole pipeline of `searchSimilarArticles`; it fails when scoring any
      stored article throws. */
  function Rank(sqrt: real -> real, query: seq<real>, entries: seq<StoredArticle>, limit: nat, threshold: real)
    : (r: Result<seq<Match>, VectorError>)
    ensures r.Failure? <==> !AllComparable(query, entries)
  {
    if exists i :: 0 <= i < |entries| && entries[i].embedding.None? then Failure(NotAVector)
    else if !AllComparable(query, entries) then Failure(LengthMismatch)
    else Success(Take(SortBySimilarity(KeepAbove(Scores(sqrt, query, entries), threshold)), limit))
  }

  /** `a` is ranked ahead of `b`: higher similarity, or equal similarity and
      earlier in the store. */
  predicate Before(a: Match, b: Match)
  {
    a.similarity > b.similarity || (a.similarity == b.similarity && a.pos < b.pos)
  }

  predicate InRankOrder(ms: seq<Match>)
  {
    forall i, j :: 0 <= i < j < |ms| ==> Before(ms[i], ms[j])
  }

  predicate InStoreOrder(ms: seq<Match>)
  {
    forall i, j :: 0 <= i < j < |ms| ==> ms[i].pos < ms[j].pos
  }

  lemma {:induction false} KeepAboveInStoreOrder(ms: seq<Match>, threshold: real)
    requires InStoreOrder(ms)
    ensures InStoreOrder(KeepAbove(ms, threshold))
  {
    if ms != [] {
      KeepAboveInStoreOrder(ms[1..], threshold);
      var rest := KeepAbove(ms[1..], threshold);
      forall j | 0 <= j < |rest| ensures ms[0].pos < rest[j].pos {
        assert rest[j] in ms[1..];
      }
    }
  }

  lemma {:induction false} InsertPermutes(m: Match, s: seq<Match>)
    ensures multiset(Insert(m, s)) == multiset(s) + multiset{m}
  {
    if s != [] && s[0].similarity > m.similarity {
      InsertPermutes(m, s[1..]);
      assert s == [s[0]] + s[1..];
    }
  }

  lemma {:induction false} InsertKeepsRankOrder(m: Match, s: seq<Match>)
    requires InRankOrder(s)
    requires forall k :: 0 <= k < |s| ==> m.pos < s[k].pos
    ensures InRankOrder(Insert(m, s))
    ensures multiset(Insert(m, s)) == multiset(s) + multiset{m}
  {
    InsertPermutes(m, s);
    if s == [] {
    } else if s[0].similarity > m.similarity {
      InsertKeepsRankOrder(m, s[1..]);
      var t := Insert(m, s[1..]);
      assert Insert(m, s) == [s[0]] + t;
      forall j | 0 <= j < |t| ensures Before(s[0], t[j]) {
        assert t[j] in multiset(s[1..]) + multiset{m};
        if t[j] != m {
          assert t[j] in s[1..];
          var k :| 0 <= k < |s[1..]| && s[1..][k] == t[j];
          assert Before(s[0], s[k + 1]);
        }
      }
    } else {
      forall j | 0 <= j < |s| ensures Before(m, s[j]) {
        if j > 0 { assert Before(s[0], s[j]); }
      }
    }
  }

  /** The stable sort puts the hits in rank order and loses or adds nothing. */
  lemma {:induction false} SortRanks(ms: seq<Match>)
    requires InStoreOrder(ms)
    ensures InRankOrder(SortBySimilarity(ms))
    ensures multiset(SortBySimilarity(ms)) == multiset(ms)
  {
    if ms != [] {
      TailInStoreOrder(ms);
      SortRanks(ms[1..]);
      var t := SortBySimilarity(ms[1..]);
      HeadPrecedes(ms[0], ms[1..], t);
      InsertKeepsRankOrder(ms[0], t);
      assert ms == [ms[0]] + ms[1..];
    }
  }

  lemma TailInStoreOrder(ms: seq<Match>)
    requires ms != [] && InStoreOrder(ms)
    ensures InStoreOrder(ms[1..])
    ensures forall j :: 0 <= j < |ms[1..]| ==> ms[0].pos < ms[1..][j].pos
  {
    forall j | 0 <= j < |ms[1..]| ensures ms[0].pos < ms[1..][j].pos {
      assert ms[1..][j] == ms[j + 1];
    }
  }

  /** A match before every element of a list is before every element of any
      rearrangement of it. */
  lemma HeadPrecedes(m: Match, rest: seq<Match>, t: seq<Match>)
    requires forall j :: 0 <= j < |rest| ==> m.pos < rest[j].pos
    requires multiset(t) == multiset(rest)
    ensures forall k :: 0 <= k < |t| ==> m.pos < t[k].pos
  {
    forall k | 0 <= k < |t| ensures m.pos < t[k].pos {
      assert t[k] in multiset(rest);
      var j :| 0 <= j < |rest| && rest[j] == t[k];
    }
  }

  /** The hits of a successful search, before the slice: all the qualifying
      articles, ranked. */
  lemma RankedCandidates(sqrt: real -> real, query: seq<real>, entries: seq<StoredArticle>, threshold: real)
    requires AllComparable(query, entries)
    ensures var sorted := SortBySimilarity(KeepAbove(Scores(sqrt, query, entries), threshold));
      && InRankOrder(sorted)
      && forall m :: m in sorted <==> m in Scores(sqrt, query, entries) && m.similarity > threshold
  {
    var scored := Scores(sqrt, query, entries);
    assert InStoreOrder(scored);
    KeepAboveInStoreOrder(scored, threshold);
    SortRanks(KeepAbove(scored, threshold));
    var sorted := SortBySimilarity(KeepAbove(scored, threshold));
    forall m ensures m in sorted <==> m in KeepAbove(scored, threshold) {
      assert m in sorted <==> m in multiset(sorted);
      assert m in KeepAbove(scored, threshold) <==> m in multiset(KeepAbove(scored, threshold));
    }
  }

  /** Every search result scores above the threshold, comes from the store with the
      similarity computed for it, and the results are at most `limit`, in
      non-increasing similarity with ties in store order. */
  lemma RankSound(sqrt: real -> real, query: seq<real>, entries: seq<StoredArticle>, limit: nat, threshold: real)
    requires Rank(sqrt, query, entries, limit, threshold).Success?
    ensures var r := Rank(sqrt, query, entries, limit, threshold).value;
      && |r| <= limit
      && InRankOrder(r)
      && forall k :: 0 <= k < |r| ==>
           && r[k].similarity > threshold
           && r[k].pos < |entries|
           && r[k].article == entries[r[k].pos]
           && r[k].similarity == Similarity(sqrt, query, entries[r[k].pos])
  {
    RankedCandidates(sqrt, query, entries, threshold);
    var sorted := SortBySimilarity(KeepAbove(Scores(sqrt, query, entries), threshold));
    var r := Rank(sqrt, query, entries, limit, threshold).value;
    forall k | 0 <= k < |r|
      ensures r[k] in Scores(sqrt, query, entries) && r[k].similarity > threshold
    {
      assert r[k] == sorted[k];
    }
  }

  /** Nothing better is left out: an article scoring above the threshold is among
      the results, or the results are full and every one of them ranks ahead of it. */
  lemma RankComplete(sqrt: real -> real, query: seq<real>, entries: seq<StoredArticle>, limit: nat,
                     threshold: real, i: nat)
    requires Rank(sqrt, query, entries, limit, threshold).Success?
    requires i < |entries| && Similarity(sqrt, query, entries[i]) > threshold
    ensures var r := Rank(sqrt, query, entries, limit, threshold).value;
      var m := Match(i, entries[i], Similarity(sqrt, query, entries[i]));
      m in r || (|r| == limit && forall k :: 0 <= k < |r| ==> Before(r[k], m))
  {
    RankedCandidates(sqrt, query, entries, threshold);
    var scored := Scores(sqrt, query, entries);
    var sorted := SortBySimilarity(KeepAbove(scored, threshold));
    var r := Rank(sqrt, query, entries, limit, threshold).value;
    var m := Match(i, entries[i], Similarity(sqrt, query, entries[i]));
    assert scored[i] == m;
    assert m in sorted;
    var j :| 0 <= j < |sorted| && sorted[j] == m;
    if j >= |r| {
      assert |r| == limit;
      forall k | 0 <= k < |r| ensures Before(r[k], m) {
        assert r[k] == sorted[k];
      }
    } else {
      assert r[j] == m;
    }
  }

  // ----- Store metadata --------------------------------------------------------

  function SourcesOf(entries: seq<StoredArticle>): (r: seq<string>)
    ensures |r| == |entries| && forall i :: 0 <= i < |r| ==> r[i] == entries[i].source
  {
    seq(|entries|, i requires 0 <= i < |entries| => entries[i].source)
  }

  /** `[...new Set(xs)]`: the distinct values in order of first occurrence. */
  function Distinct(xs: seq<string>): seq<string>
  {
    if xs == [] then []
    else
      var d := Distinct(xs[..|xs| - 1]);
      if xs[|xs| - 1] in d then d else d + [xs[|xs| - 1]]
  }

  predicate NoDuplicates(xs: seq<string>)
  {
    forall i, j :: 0 <= i < j < |xs| ==> xs[i] != xs[j]
  }

  /** The distinct values are exactly the values, each listed once. */
  lemma {:induction false} DistinctSpec(xs: seq<string>)
    ensures forall x :: x in Distinct(xs) <==> x in xs
    ensures NoDuplicates(Distinct(xs))
  {
    if xs != [] {
      var init := xs[..|xs| - 1];
      DistinctSpec(init);
      assert xs == init + [xs[|xs| - 1]];
    }
  }

  function MetadataOf(entries: seq<StoredArticle>, now: string): Metadata
  {
    Metadata(|entries|, now, Distinct(SourcesOf(entries)))
  }

  /** The summary counts every stored article and names each source once. */
  lemma MetadataSummarises(entries: seq<StoredArticle>, now: string)
    ensures MetadataOf(entries, now).totalArticles == |entries|
    ensures NoDuplicates(MetadataOf(entries, now).sources)
    ensures forall s :: s in MetadataOf(entries, now).sources <==>
              exists i :: 0 <= i < |entries| && entries[i].source == s
  {
    DistinctSpec(SourcesOf(entries));
    forall s ensures s in SourcesOf(entries) <==> exists i :: 0 <= i < |entries| && entries[i].source == s {
      if s in SourcesOf(entries) {
        var i :| 0 <= i < |entries| && SourcesOf(entries)[i] == s;
      }
    }
  }

  // ----- The store and its durable mirror, as values -----------------------------

  /** The in-memory array together with the durable store. */
  datatype World = World(entries: seq<StoredArticle>, data: map<string, Value>)

  /** The in-memory element `storeArticle` pushes; `fallbackId` stands for
      `article_<Date.now()>_<Math.random()>`, used when the article has no guid. */
  function EntryOf(a: Article, fallbackId: string): StoredArticle
  {
    StoredArticle(if a.guid != "" then a.guid else fallbackId, a.title, a.content, a.url, a.source,
                  a.publishedDate, a.embedding, a.processedAt)
  }

  /** The element a reload pushes: the parsed record itself. That record has no `id`
      field; the model fills `id` with the guid, and nothing after a reload reads it. */
  function RecordEntry(a: Article): StoredArticle
  {
    EntryOf(a, a.guid)
  }

  /** Which of the durable writes of `storeArticle` throw. */
  datatype StoreFaults = StoreFaults(recordFails: bool, metadataFails: bool)

  /** `storeArticle`: push first, then write the record, then the summary; an error
      is re-thrown after the push has happened. */
  function StoreSpec(w: World, a: Article, fallbackId: string, now: string, f: StoreFaults)
    : (World, Result<bool, StoreError>)
  {
    var entries := w.entries + [EntryOf(a, fallbackId)];
    if f.recordFails then (World(entries, w.data), Failure(Unavailable))
    else
      var data := w.data[ArticleKey(a.guid) := ArticleJson(a)];
      if f.metadataFails then (World(entries, data), Failure(Unavailable))
      else (World(entries, data[MetadataKey := MetadataJson(MetadataOf(entries, now))]), Success(true))
  }

  ghost function ArticleKeys(data: map<string, Value>): set<string>
  {
    set k | k in data && IsArticleKey(k)
  }

  /** Storing grows the in-memory list by exactly one element and leaves the old ones
      alone; when the record write succeeds the record sits under `article:<guid>`, and
      only that key and the summary key change. */
  lemma StoreAppends(w: World, a: Article, fallbackId: string, now: string, f: StoreFaults)
    ensures var (w', r) := StoreSpec(w, a, fallbackId, now, f);
      && w'.entries == w.entries + [EntryOf(a, fallbackId)]
      && (r.Success? <==> !f.recordFails && !f.metadataFails)
      && (!f.recordFails ==> ArticleKey(a.guid) in w'.data && w'.data[ArticleKey(a.guid)] == ArticleJson(a))
      && (f.recordFails ==> w'.data == w.data)
      && (r.Success? ==> w'.data[MetadataKey] == MetadataJson(MetadataOf(w'.entries, now)))
      && forall k :: k in w.data && k != ArticleKey(a.guid) && k != MetadataKey ==>
           k in w'.data && w'.data[k] == w.data[k]
  {
    NamespacesDisjoint(ArticleKey(a.guid));
  }

  /** Storing two articles with the same guid leaves two in-memory elements with the
      same id but a single durable record, holding the later article. */
  lemma StoreSameGuidTwice(w: World, a: Article, b: Article, fa: string, fb: string, now: string)
    requires a.guid == b.guid && a.guid != ""
    ensures var w1 := StoreSpec(w, a, fa, now, StoreFaults(false, false)).0;
      var w2 := StoreSpec(w1, b, fb, now, StoreFaults(false, false)).0;
      && |w2.entries| == |w.entries| + 2
      && w2.entries[|w.entries|].id == w2.entries[|w.entries| + 1].id == a.guid
      && w2.data[ArticleKey(a.guid)] == ArticleJson(b)
      && ArticleKeys(w2.data) == ArticleKeys(w.data) + {ArticleKey(a.guid)}
  {
    var w1 := StoreSpec(w, a, fa, now, StoreFaults(false, false)).0;
    var w2 := StoreSpec(w1, b, fb, now, StoreFaults(false, false)).0;
    assert !IsArticleKey(MetadataKey) by { NamespacesDisjoint(MetadataKey); }
    assert ArticleKeys(w1.data) == ArticleKeys(w.data) + {ArticleKey(a.guid)};
  }

  function KeySet(keys: seq<string>): set<string>
  {
    set k | k in keys
  }

  // ----- Reload from the durable store -------------------------------------------

  /** Which reads of `loadStoreFromRedis` throw: the key scan, or the `GET` of some keys. */
  datatype ReloadFaults = ReloadFaults(keysFails: bool, unreadable: set<string>)

  /** The loop of `loadStoreFromRedis` over `keys`: the elements pushed, and whether
      an error ended the loop early (a failed read, or a record `JSON.parse` rejects). */
  function LoadSteps(keys: seq<string>, data: map<string, Value>, unreadable: set<string>)
    : (r: (seq<StoredArticle>, bool))
  {
    if keys == [] then ([], false)
    else LoadOne(LoadSteps(keys[..|keys| - 1], data, unreadable), keys[|keys| - 1], data, unreadable)
  }

  /** One key of the reload loop, after the elements loaded so far and whether the loop
      has stopped: a failed read or an unparseable record stops it, a record with an
      embedding is pushed, and anything else is passed over. */
  function LoadOne(state: (seq<StoredArticle>, bool), k: string, data: map<string, Value>, unreadable: set<string>)
    : (r: (seq<StoredArticle>, bool))
  {
    var (loaded, aborted) := state;
    if aborted || k in unreadable then (loaded, true)
    else if k !in data then (loaded, false)
    else match data[k]
      case Unparseable => (loaded, true)
      case ArticleJson(a) => if a.embedding.Some? then (loaded + [RecordEntry(a)], false) else (loaded, false)
      case _ => (loaded, false)
  }

  /** Everything a reload appends. */
  function Reloaded(data: map<string, Value>, f: ReloadFaults): seq<StoredArticle>
  {
    if f.keysFails then [] else LoadSteps(KeysWithPrefix(data, ArticlePrefix), data, f.unreadable).0
  }

  /** The elements the durable records under `keys` stand for: those with an embedding. */
  ghost function EmbeddedRecords(keys: set<string>, data: map<string, Value>): set<StoredArticle>
  {
    set k | k in keys && k in data && data[k].ArticleJson? && data[k].article.embedding.Some?
      :: RecordEntry(data[k].article)
  }

  ghost predicate Readable(keys: set<string>, data: map<string, Value>, unreadable: set<string>)
  {
    forall k :: k in keys ==> k !in unreadable && (k in data ==> !data[k].Unparseable?)
  }

  lemma {:induction false} LoadStepsSpec(keys: seq<string>, data: map<string, Value>, unreadable: set<string>)
    ensures var (loaded, aborted) := LoadSteps(keys, data, unreadable);
      && (forall e :: e in loaded ==> e in EmbeddedRecords(KeySet(keys), data) && e.embedding.Some?)
      && (Readable(KeySet(keys), data, unreadable) ==>
            !aborted && forall e :: e in EmbeddedRecords(KeySet(keys), data) ==> e in loaded)
  {
    if keys != [] {
      var init := keys[..|keys| - 1];
      var k := keys[|keys| - 1];
      LoadStepsSpec(init, data, unreadable);
      assert KeySet(keys) == KeySet(init) + {k} by {
        assert keys == init + [k];
      }
    }
  }

  /** A reload pushes only durable records that carry an embedding, and when no read
      fails and every record parses it pushes every one of them. */
  lemma ReloadSpec(data: map<string, Value>, f: ReloadFaults)
    ensures forall e :: e in Reloaded(data, f) ==> e in EmbeddedRecords(ArticleKeys(data), data) && e.embedding.Some?
    ensures !f.keysFails && Readable(ArticleKeys(data), data, f.unreadable) ==>
              forall e :: e in EmbeddedRecords(ArticleKeys(data), data) ==> e in Reloaded(data, f)
  {
    var keys := KeysWithPrefix(data, ArticlePrefix);
    assert KeySet(keys) == ArticleKeys(data);
    LoadStepsSpec(keys, data, f.unreadable);
  }

  /** Once the loop has stopped on an error, later keys add nothing. */
  lemma {:induction false} LoadStepsStop(keys: seq<string>, i: nat, data: map<string, Value>, unreadable: set<string>)
    requires i <= |keys| && LoadSteps(keys[..i], data, unreadable).1
    ensures LoadSteps(keys, data, unreadable) == LoadSteps(keys[..i], data, unreadable)
    decreases |keys| - i
  {
    if i < |keys| {
      assert keys[..i + 1][..i] == keys[..i];
      LoadStepsStop(keys, i + 1, data, unreadable);
    } else {
      assert keys[..i] == keys;
    }
  }

  // ----- Search ------------------------------------------------------------------

  /** `searchSimilarArticles`: reload when the array is empty, then rank; any error
      yields no results. */
  function SearchSpec(w: World, sqrt: real -> real, query: seq<real>, limit: nat, threshold: real, f: ReloadFaults)
    : (World, seq<Match>)
  {
    var entries := if w.entries == [] then Reloaded(w.data, f) else w.entries;
    var results := match Rank(sqrt, query, entries, limit, threshold)
      case Success(r) => r
      case Failure(_) => [];
    (World(entries, w.data), results)
  }

  /** A search writes nothing durable, reloads only an empty store, and returns no
      results when any stored article cannot be compared with the query. */
  lemma SearchSpecFacts(w: World, sqrt: real -> real, query: seq<real>, limit: nat, threshold: real, f: ReloadFaults)
    ensures var (w', r) := SearchSpec(w, sqrt, query, limit, threshold, f);
      && w'.data == w.data
      && (w.entries != [] ==> w'.entries == w.entries)
      && (w.entries == [] ==> w'.entries == Reloaded(w.data, f))
      && (!AllComparable(query, w'.entries) ==> r == [])
      && |r| <= limit
  {
  }

  /** What a search returns is ranked: at most `limit` results, each above the
      threshold, in non-increasing order of similarity. */
  lemma SearchResultsRanked(w: World, sqrt: real -> real, query: seq<real>, limit: nat, threshold: real,
                            f: ReloadFaults)
    ensures var r := SearchSpec(w, sqrt, query, limit, threshold, f).1;
      && |r| <= limit
      && (forall k :: 0 <= k < |r| ==> r[k].similarity > threshold)
      && (forall i, j :: 0 <= i < j < |r| ==> r[i].similarity >= r[j].similarity)
  {
    var entries := if w.entries == [] then Reloaded(w.data, f) else w.entries;
    if Rank(sqrt, query, entries, limit, threshold).Success? {
      RankSound(sqrt, query, entries, limit, threshold);
    }
  }

  /** On an empty durable store, a search of an empty index finds nothing. */
  lemma SearchEmptyFindsNothing(data: map<string, Value>, sqrt: real -> real, query: seq<real>, limit: nat,
                                threshold: real, f: ReloadFaults)
    requires ArticleKeys(data) == {}
    ensures SearchSpec(World([], data), sqrt, query, limit, threshold, f).1 == []
  {
    ReloadSpec(data, f);
    var loaded := Reloaded(data, f);
    assert EmbeddedRecords(ArticleKeys(data), data) == {};
  }

  // ----- Clear -------------------------------------------------------------------

  /** Which durable operations of `clearVectorStore` throw (it catches nothing). */
  datatype ClearFaults = ClearFaults(keysFails: bool, deleteFails: bool, metadataDeleteFails: bool)

  function ClearSpec(w: World, f: ClearFaults): (World, Result<(), StoreError>)
  {
    if f.keysFails then (World([], w.data), Failure(Unavailable))
    else
      var keys := KeysWithPrefix(w.data, ArticlePrefix);
      if keys != [] && f.deleteFails then (World([], w.data), Failure(Unavailable))
      else
        var data := if keys == [] then w.data else w.data - KeySet(keys);
        if f.metadataDeleteFails then (World([], data), Failure(Unavailable))
        else (World([], data - {MetadataKey}), Success(()))
  }

  /** The in-memory array is emptied even when a durable step fails; without faults
      no article record and no summary remain, and every other key is untouched. */
  lemma ClearEmpties(w: World, f: ClearFaults)
    ensures ClearSpec(w, f).0.entries == []
    ensures ClearSpec(w, f).1.Success? <==>
              !f.keysFails && !f.metadataDeleteFails && (f.deleteFails ==> ArticleKeys(w.data) == {})
    ensures ClearSpec(w, f).1.Success? ==>
              ArticleKeys(ClearSpec(w, f).0.data) == {} && MetadataKey !in ClearSpec(w, f).0.data
    ensures forall k :: k in w.data && !IsArticleKey(k) && k != MetadataKey ==>
              k in ClearSpec(w, f).0.data && ClearSpec(w, f).0.data[k] == w.data[k]
  {
    var keys := KeysWithPrefix(w.data, ArticlePrefix);
    assert keys == [] <==> ArticleKeys(w.data) == {} by {
      if keys != [] { assert keys[0] in ArticleKeys(w.data); }
      if ArticleKeys(w.data) != {} {
        var k :| k in ArticleKeys(w.data);
        assert k in keys;
      }
    }
  }

  // ----- The module-level store ----------------------------------------------------

  /** The module's `vectorStore` array and the Redis client it mirrors into. */
  class VectorIndex {
    var entries: seq<StoredArticle>
    const db: KeyValueStore

    constructor (db: KeyValueStore)
      ensures entries == [] && this.db == db
    {
      entries := [];
      this.db := db;
    }

    function State(): World
      reads this, db
    {
      World(entries, db.data)
    }

    /** `updateStoreMetadata`. */
    method UpdateStoreMetadata(now: string, fault: bool) returns (r: Result<(), StoreError>)
      modifies db
      ensures r == if fault then Failure(Unavailable) else Success(())
      ensures db.data == if fault then old(db.data)
                         else old(db.data)[MetadataKey := MetadataJson(MetadataOf(entries, now))]
    {
      r := db.SetEx(MetadataKey, MetadataJson(MetadataOf(entries, now)), fault);
    }

    /** `storeArticle`. */
    method StoreArticle(a: Article, fallbackId: string, now: string, f: StoreFaults) returns (r: Result<bool, StoreError>)
      modifies this, db
      ensures (State(), r) == StoreSpec(old(State()), a, fallbackId, now, f)
    {
      entries := entries + [EntryOf(a, fallbackId)];
      var written := db.SetEx(ArticleKey(a.guid), ArticleJson(a), f.recordFails);
      if written.Failure? {
        return Failure(Unavailable);
      }
      var summarised := UpdateStoreMetadata(now, f.metadataFails);
      if summarised.Failure? {
        return Failure(Unavailable);
      }
      r := Success(true);
    }

    /** `loadStoreFromRedis`: errors end the loop and are swallowed. */
    method LoadStoreFromRedis(f: ReloadFaults)
      modifies this
      ensures entries == old(entries) + Reloaded(db.data, f)
    {
      var listed := db.Keys(ArticlePrefix, f.keysFails);
      if listed.Success? {
        LoadRecords(listed.value, f.unreadable);
      }
    }

    /** The loop of `loadStoreFromRedis` over the listed keys: each record is read and
        parsed in turn, and the first failure ends the reload. */
    method LoadRecords(keys: seq<string>, unreadable: set<string>)
      modifies this
      ensures entries == old(entries) + LoadSteps(keys, db.data, unreadable).0
    {
      ghost var data := db.data;
      var i := 0;
      while i < |keys|
        invariant 0 <= i <= |keys| && db.data == data
        invariant !LoadSteps(keys[..i], data, unreadable).1
        invariant entries == old(entries) + LoadSteps(keys[..i], data, unreadable).0
      {
        ghost var before := LoadSteps(keys[..i], data, unreadable);
        ghost var after := LoadOne(before, keys[i], data, unreadable);
        assert LoadSteps(keys[..i + 1], data, unreadable) == after by {
          assert keys[..i + 1][..i] == keys[..i];
        }
        var got := db.Get(keys[i], keys[i] in unreadable);
        if got.Failure? {
          LoadStepsStop(keys, i + 1, data, unreadable);
          return;
        }
        match got.value {
          case None =>
            assert after == (before.0, false);
          case Some(v) =>
            match v {
              case Unparseable =>
                LoadStepsStop(keys, i + 1, data, unreadable);
                return;
              case ArticleJson(a) =>
                if a.embedding.Some? {
                  assert after == (before.0 + [RecordEntry(a)], false);
                  entries := entries + [RecordEntry(a)];
                } else {
                  assert after == (before.0, false);
                }
              case _ =>
                assert after == (before.0, false);
            }
        }
        i := i + 1;
      }
      assert keys[..i] == keys;
    }

    /** `searchSimilarArticles`. */
    method SearchSimilarArticles(sqrt: real -> real, query: seq<real>, limit: nat, threshold: real, f: ReloadFaults)
      returns (results: seq<Match>)
      modifies this
      ensures (State(), results) == SearchSpec(old(State()), sqrt, query, limit, threshold, f)
    {
      if entries == [] {
        LoadStoreFromRedis(f);
        assert db.data == old(db.data);
        assert entries == Reloaded(old(db.data), f);
      }
      var ranked := Rank(sqrt, query, entries, limit, threshold);
      results := if ranked.Success? then ranked.value else [];
    }

    /** `clearVectorStore`. */
    method ClearVectorStore(f: ClearFaults) returns (r: Result<(), StoreError>)
      modifies this, db
      ensures (State(), r) == ClearSpec(old(State()), f)
    {
      entries := [];
      var listed := db.Keys(ArticlePrefix, f.keysFails);
      if listed.Failure? {
        return Failure(Unavailable);
      }
      var keys := listed.value;
      if |keys| > 0 {
        var deleted := db.Del(KeySet(keys), f.deleteFails);
        if deleted.Failure? {
          return Failure(Unavailable);
        }
      }
      r := db.Del({MetadataKey}, f.metadataDeleteFails);
    }
  }
}
