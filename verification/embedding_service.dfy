/** The cache-first embedding provider (`services/embeddingService.js`): look the text
    up in the durable store, otherwise ask the remote embedding service and cache its
    answer, otherwise fall back to a locally computed vector that is not cached.

    The remote service is the parameter `remote` (`None` stands for any failure of the
    request); the cache faults are flags, as for every store operation. */
module EmbeddingService {
  import opened Wrappers
  import opened Records
  import opened RedisClient
  import opened Text
  import opened Encoding
  import opened VectorStore

  // ----- Cache key -------------------------------------------------------------------

  const KeyLength: nat := 50

  /** `embedding:` followed by the first 50 characters of the Base64 text of the
      UTF-8 bytes of the text. */
  function CacheKey(text: string): (k: string)
    ensures EmbeddingPrefix <= k && |k| <= |EmbeddingPrefix| + KeyLength
  {
    EmbeddingPrefix + Prefix(Base64(Utf8(text)), KeyLength)
  }

  /** Two texts that agree on their first 38 characters share a cache entry: the key
      keeps only 50 Base64 characters, which cover 37.5 bytes. */
  lemma CacheKeySharedPrefix(a: string, b: string)
    requires |a| >= 38 && |b| >= 38 && a[..38] == b[..38]
    ensures CacheKey(a) == CacheKey(b)
  {
    Utf8SharedPrefix(a, b, 38);
    var x, y := Utf8(a), Utf8(b);
    assert x[..38] == y[..38];
    Base64SharedLead(x, y);
    assert Prefix(Base64(x), KeyLength) == Base64(x)[..50];
    assert Prefix(Base64(y), KeyLength) == Base64(y)[..50];
  }

  /** Texts of at most 36 bytes keep their whole encoding in the key, so distinct short
      texts never share a cache entry. */
  lemma CacheKeyShortTextsDistinct(a: string, b: string)
    requires |Utf8(a)| <= 36 && |Utf8(b)| <= 36 && CacheKey(a) == CacheKey(b)
    ensures a == b
  {
    var ka, kb := Base64(Utf8(a)), Base64(Utf8(b));
    assert Prefix(ka, KeyLength) == CacheKey(a)[|EmbeddingPrefix|..];
    assert Prefix(kb, KeyLength) == CacheKey(b)[|EmbeddingPrefix|..];
    Base64RoundTrip(Utf8(a));
    Base64RoundTrip(Utf8(b));
    Utf8Injective(a, b);
  }

  // ----- Input validation --------------------------------------------------------------

  const EmptyTextError: string := "Text cannot be empty"

  /** The check of `getEmbeddingForText`: empty or white-space-only text is rejected,
      anything else is passed on trimmed. */
  function ValidateText(text: string): (r: Result<string, string>)
    ensures r.Failure? <==> AllWhitespace(text)
    ensures r.Failure? ==> r.error == EmptyTextError
    ensures r.Success? ==> r.value != [] && IsTrimmed(text, TrimOffset(text), r.value)
  {
    if text == [] || Trim(text) == [] then Failure(EmptyTextError) else Success(Trim(text))
  }

  /** What passes the check passes it again unchanged. */
  lemma ValidateIdempotent(text: string)
    requires ValidateText(text).Success?
    ensures ValidateText(ValidateText(text).value) == ValidateText(text)
  {
    TrimIdempotent(text);
  }

  // ----- The local fallback vector ---------------------------------------------------

  const Dimensions: nat := 384

  /** `toLowerCase` on the ASCII letters. */
  function LowerChar(c: char): char
  {
    if 'A' <= c <= 'Z' then (c as int + 32) as char else c
  }

  function Lower(s: string): (r: string)
    ensures |r| == |s| && forall i :: 0 <= i < |s| ==> r[i] == LowerChar(s[i])
  {
    seq(|s|, i requires 0 <= i < |s| => LowerChar(s[i]))
  }

  lemma LowerIdempotent(s: string)
    ensures Lower(Lower(s)) == Lower(s)
  {
  }

  /** `s.split(/\s+/)`: the pieces between maximal runs of white space; a leading or
      trailing run gives an empty first or last piece, and `""` gives `[""]`. */
  function Words(s: string): (r: seq<string>)
    ensures |r| >= 1
  {
    if s == [] then [""]
    else
      var init := Words(s[..|s| - 1]);
      var c := s[|s| - 1];
      if IsJsWhitespace(c) then
        if |s| >= 2 && IsJsWhitespace(s[|s| - 2]) then init else init + [""]
      else init[..|init| - 1] + [init[|init| - 1] + [c]]
  }

  function Concat(ws: seq<string>): string
  {
    if ws == [] then [] else Concat(ws[..|ws| - 1]) + ws[|ws| - 1]
  }

  /** The characters of `s` that are not white space, in order. */
  function NonWhitespace(s: string): string
  {
    if s == [] then []
    else NonWhitespace(s[..|s| - 1]) + (if IsJsWhitespace(s[|s| - 1]) then [] else [s[|s| - 1]])
  }

  predicate NoWhitespace(w: string)
  {
    forall j :: 0 <= j < |w| ==> !IsJsWhitespace(w[j])
  }

  lemma ConcatSnoc(ws: seq<string>, w: string)
    ensures Concat(ws + [w]) == Concat(ws) + w
  {
    assert (ws + [w])[..|ws|] == ws;
  }

  /** No piece holds white space. */
  lemma {:induction false} WordsHaveNoWhitespace(s: string)
    ensures forall k :: 0 <= k < |Words(s)| ==> NoWhitespace(Words(s)[k])
  {
    if s != [] {
      var init := Words(s[..|s| - 1]);
      var c := s[|s| - 1];
      WordsHaveNoWhitespace(s[..|s| - 1]);
      if !IsJsWhitespace(c) {
        var r := Words(s);
        var last := init[|init| - 1];
        assert r == init[..|init| - 1] + [last + [c]];
        forall k | 0 <= k < |r| ensures NoWhitespace(r[k]) {
          if k < |init| - 1 {
            assert r[k] == init[k];
          } else {
            assert r[k] == last + [c];
            assert NoWhitespace(last);
          }
        }
      }
    }
  }

  /** Together the pieces are exactly the non-white-space characters of the text, in
      order: splitting loses only white space. */
  lemma {:induction false} WordsConcat(s: string)
    ensures Concat(Words(s)) == NonWhitespace(s)
  {
    if s != [] {
      WordsConcat(s[..|s| - 1]);
      if IsJsWhitespace(s[|s| - 1]) {
        WordsConcatSpace(s);
      } else {
        WordsConcatLetter(s);
      }
    } else {
      assert Concat([""]) == Concat([]) + "";
    }
  }

  /** A trailing white-space character adds at most an empty piece. */
  lemma WordsConcatSpace(s: string)
    requires s != [] && IsJsWhitespace(s[|s| - 1])
    requires Concat(Words(s[..|s| - 1])) == NonWhitespace(s[..|s| - 1])
    ensures Concat(Words(s)) == NonWhitespace(s)
  {
    var init := Words(s[..|s| - 1]);
    assert NonWhitespace(s) == NonWhitespace(s[..|s| - 1]);
    if !(|s| >= 2 && IsJsWhitespace(s[|s| - 2])) {
      assert Words(s) == init + [""];
      ConcatSnoc(init, "");
    } else {
      assert Words(s) == init;
    }
  }

  /** A trailing character that is not white space extends the last piece. */
  lemma WordsConcatLetter(s: string)
    requires s != [] && !IsJsWhitespace(s[|s| - 1])
    requires Concat(Words(s[..|s| - 1])) == NonWhitespace(s[..|s| - 1])
    ensures Concat(Words(s)) == NonWhitespace(s)
  {
    var init := Words(s[..|s| - 1]);
    var c := s[|s| - 1];
    WordsSnocLetter(s);
    NonWhitespaceSnocLetter(s);
    ConcatLetterStep(init, NonWhitespace(s[..|s| - 1]), c, Words(s));
  }

  lemma ConcatLetterStep(init: seq<string>, joined: string, c: char, words: seq<string>)
    requires |init| >= 1 && Concat(init) == joined
    requires words == init[..|init| - 1] + [init[|init| - 1] + [c]]
    ensures Concat(words) == joined + [c]
  {
    var front := init[..|init| - 1];
    var last := init[|init| - 1];
    assert init == front + [last];
    ConcatExtendLast(front, last, c);
  }

  lemma WordsSnocLetter(s: string)
    requires s != [] && !IsJsWhitespace(s[|s| - 1])
    ensures var init := Words(s[..|s| - 1]);
      Words(s) == init[..|init| - 1] + [init[|init| - 1] + [s[|s| - 1]]]
  {
  }

  lemma NonWhitespaceSnocLetter(s: string)
    requires s != [] && !IsJsWhitespace(s[|s| - 1])
    ensures NonWhitespace(s) == NonWhitespace(s[..|s| - 1]) + [s[|s| - 1]]
  {
  }

  /** Adding a character to the last piece adds it to the end of the joined text. */
  lemma ConcatExtendLast(front: seq<string>, last: string, c: char)
    ensures Concat(front + [last + [c]]) == Concat(front + [last]) + [c]
  {
    ConcatSnoc(front, last);
    ConcatSnoc(front, last + [c]);
    assert Concat(front) + (last + [c]) == (Concat(front) + last) + [c];
  }

  /** `1 / (index + 1)`: later words weigh less. */
  function Weight(index: nat): real
  {
    1.0 / (index + 1) as real
  }

  /** `charCodeAt` for a character of the Basic Multilingual Plane. */
  function CharCode(c: char): real
  {
    (c as int) as real
  }

  /** What the character `c` of the word at `index` adds to its position. */
  function Gain(c: char, index: nat): real
  {
    CharCode(c) * Weight(index)
  }

  /** The vector after adding the word at `index`: position `i` gains the code of the
      word's `i`-th character, weighted, for every `i` the word and the vector both have. */
  function AddWord(e: seq<real>, word: string, index: nat): (r: seq<real>)
    ensures |r| == |e|
  {
    seq(|e|, i requires 0 <= i < |e| => if i < |word| then e[i] + Gain(word[i], index) else e[i])
  }

  /** The vector after the first `n` additions, with only positions below `upTo` done
      for the last word: the state of the inner loop. */
  function PartialAdd(e: seq<real>, word: string, index: nat, upTo: nat): (r: seq<real>)
    ensures |r| == |e|
  {
    seq(|e|, i requires 0 <= i < |e| => if i < upTo && i < |word| then e[i] + Gain(word[i], index) else e[i])
  }

  function Zeros(n: nat): (r: seq<real>)
    ensures |r| == n && forall i :: 0 <= i < n ==> r[i] == 0.0
  {
    seq(n, _ => 0.0)
  }

  /** The raw vector: every word added in order into 384 zeros. */
  function Accumulate(words: seq<string>): (r: seq<real>)
    ensures |r| == Dimensions
  {
    if words == [] then Zeros(Dimensions)
    else AddWord(Accumulate(words[..|words| - 1]), words[|words| - 1], |words| - 1)
  }

  lemma PartialAddStart(e: seq<real>, word: string, index: nat)
    ensures PartialAdd(e, word, index, 0) == e
  {
  }

  /** One step of the inner loop: position `i` gains its weighted character code. */
  lemma PartialAddStep(e: seq<real>, word: string, index: nat, i: nat)
    requires i < |e| && i < |word|
    ensures PartialAdd(e, word, index, i + 1)
            == PartialAdd(e, word, index, i)[i := PartialAdd(e, word, index, i)[i] + Gain(word[i], index)]
  {
  }

  /** The inner loop stops at the end of the word or of the vector, with the word added. */
  lemma PartialAddDone(e: seq<real>, word: string, index: nat, i: nat)
    requires i <= |e| && (i == |e| || i >= |word|)
    ensures PartialAdd(e, word, index, i) == AddWord(e, word, index)
  {
  }

  lemma AccumulateStep(words: seq<string>, w: nat)
    requires w < |words|
    ensures Accumulate(words[..w + 1]) == AddWord(Accumulate(words[..w]), words[w], w)
  {
    assert words[..w + 1][..w] == words[..w];
  }

  /** Every entry divided by `m`. */
  function Divided(e: seq<real>, m: real): (r: seq<real>)
    requires m != 0.0
    ensures |r| == |e| && forall i :: 0 <= i < |e| ==> r[i] == e[i] / m
  {
    seq(|e|, i requires 0 <= i < |e| => e[i] / m)
  }

  /** One step of the sum of squares. */
  lemma SquaresStep(e: seq<real>, k: nat)
    requires k < |e|
    ensures Dot(e[..k + 1], e[..k + 1]) == Dot(e[..k], e[..k]) + e[k] * e[k]
  {
    assert e[..k + 1][..k] == e[..k];
  }

  /** The vector `generateFallbackEmbedding` returns: the raw vector of the lower-cased
      words, divided by its magnitude when that is positive. */
  function FallbackVector(text: string, sqrt: real -> real): (v: seq<real>)
    ensures |v| == Dimensions
  {
    Normalise(Accumulate(Words(Lower(text))), sqrt)
  }

  /** The vector scaled down by its magnitude: multiplying back by the magnitude gives
      the vector again. A vector whose magnitude is not positive is kept as it is. */
  function Normalise(e: seq<real>, sqrt: real -> real): (v: seq<real>)
    ensures |v| == |e|
    ensures var magnitude := sqrt(Dot(e, e));
      forall i :: 0 <= i < |e| ==> if magnitude > 0.0 then v[i] * magnitude == e[i] else v[i] == e[i]
  {
    var magnitude := sqrt(Dot(e, e));
    if magnitude > 0.0 then Divided(e, magnitude) else e
  }

  /** Positions past the longest word stay 0. */
  lemma {:induction false} AccumulateZeroBeyond(words: seq<string>, n: nat)
    requires forall k :: 0 <= k < |words| ==> |words[k]| <= n
    ensures forall i :: n <= i < Dimensions ==> Accumulate(words)[i] == 0.0
  {
    if words != [] {
      AccumulateZeroBeyond(words[..|words| - 1], n);
    }
  }

  /** When every word of the text has at most `n` characters, the fallback vector is 0
      from position `n` on, before and after normalisation. */
  lemma FallbackZeroBeyond(text: string, sqrt: real -> real, n: nat)
    requires forall k :: 0 <= k < |Words(Lower(text))| ==> |Words(Lower(text))[k]| <= n
    ensures forall i :: n <= i < Dimensions ==> FallbackVector(text, sqrt)[i] == 0.0
  {
    AccumulateZeroBeyond(Words(Lower(text)), n);
  }

  /** Letter case does not matter to the fallback vector. */
  lemma FallbackIgnoresCase(text: string, sqrt: real -> real)
    ensures FallbackVector(Lower(text), sqrt) == FallbackVector(text, sqrt)
  {
    LowerIdempotent(text);
  }

  /** The `forEach` over the words: each word adds its weighted character codes to
      the leading positions of `e`, which starts as 384 zeros. */
  method AddWords(e: array<real>, words: seq<string>)
    requires e.Length == Dimensions && e[..] == Zeros(Dimensions)
    modifies e
    ensures e[..] == Accumulate(words)
  {
    assert e[..] == Accumulate(words[..0]);
    var w := 0;
    while w < |words|
      invariant 0 <= w <= |words|
      invariant e[..] == Accumulate(words[..w])
    {
      AddWordInto(e, words[w], w);
      AccumulateStep(words, w);
      w := w + 1;
    }
    assert words[..w] == words;
  }

  /** The inner `for` loop over the characters of one word. */
  method AddWordInto(e: array<real>, word: string, index: nat)
    modifies e
    ensures e[..] == AddWord(old(e[..]), word, index)
  {
    ghost var before := e[..];
    PartialAddStart(before, word, index);
    var i := 0;
    while i < |word| && i < e.Length
      invariant 0 <= i <= e.Length
      invariant e[..] == PartialAdd(before, word, index, i)
    {
      assert i % |word| == i;
      PartialAddStep(before, word, index, i);
      e[i] := e[i] + Gain(word[i % |word|], index);
      i := i + 1;
    }
    PartialAddDone(before, word, index, i);
  }

  /** The `reduce` that sums the squares of the entries. */
  method SumOfSquares(e: array<real>) returns (sum: real)
    ensures sum == Dot(e[..], e[..])
  {
    sum := 0.0;
    var k := 0;
    while k < e.Length
      invariant 0 <= k <= e.Length
      invariant sum == Dot(e[..k], e[..k])
    {
      SquaresStep(e[..], k);
      assert e[..][..k] == e[..k] && e[..][..k + 1] == e[..k + 1];
      sum := sum + e[k] * e[k];
      k := k + 1;
    }
    assert e[..k] == e[..];
  }

  /** The loop that divides every entry by the magnitude. */
  method DivideBy(e: array<real>, magnitude: real)
    requires magnitude != 0.0
    modifies e
    ensures e[..] == Divided(old(e[..]), magnitude)
  {
    var k := 0;
    while k < e.Length
      invariant 0 <= k <= e.Length
      invariant forall j :: 0 <= j < k ==> e[j] == old(e[j]) / magnitude
      invariant forall j :: k <= j < e.Length ==> e[j] == old(e[j])
    {
      e[k] := e[k] / magnitude;
      k := k + 1;
    }
  }

  /** `generateFallbackEmbedding`: the words of the lower-cased text added into a
      384-element array, then divided by its magnitude when that is positive. */
  method GenerateFallbackEmbedding(text: string, sqrt: real -> real) returns (v: seq<real>)
    ensures v == FallbackVector(text, sqrt)
  {
    var words := Words(Lower(text));
    var e := new real[Dimensions](_ => 0.0);
    assert e[..] == Zeros(Dimensions);
    AddWords(e, words);
    var sum := SumOfSquares(e);
    var magnitude := sqrt(sum);
    if magnitude > 0.0 {
      DivideBy(e, magnitude);
    }
    v := e[..];
  }

  // ----- generateEmbedding -------------------------------------------------------------

  /** The environment of one call: whether the cache read or write throws, the remote
      service, and the square root used to normalise the fallback. */
  datatype EmbedEnv = EmbedEnv(
    readFails: bool,
    writeFails: bool,
    remote: string -> Option<seq<real>>,
    sqrt: real -> real)

  /** What the cache read yields: a vector only when the read succeeds and the stored
      text parses to one. */
  function Cached(data: map<string, Value>, key: string, readFails: bool): Option<seq<real>>
  {
    if readFails || key !in data then None
    else match data[key]
      case EmbeddingJson(v) => Some(v)
      case _ => None
  }

  /** The path after a cache miss: the remote vector, cached unless the write throws,
      or the uncached fallback. */
  function RemotePath(data: map<string, Value>, text: string, env: EmbedEnv): (map<string, Value>, seq<real>)
  {
    match env.remote(text)
    case Some(v) => (if env.writeFails then data else data[CacheKey(text) := EmbeddingJson(v)], v)
    case None => (data, FallbackVector(text, env.sqrt))
  }

  /** `generateEmbedding`: the new store and the vector returned. */
  function GenerateSpec(data: map<string, Value>, text: string, env: EmbedEnv): (map<string, Value>, seq<real>)
  {
    match Cached(data, CacheKey(text), env.readFails)
    case Some(v) => (data, v)
    case None => RemotePath(data, text, env)
  }

  method GenerateEmbedding(db: KeyValueStore, text: string, env: EmbedEnv) returns (v: seq<real>)
    modifies db
    ensures (db.data, v) == GenerateSpec(old(db.data), text, env)
  {
    var key := CacheKey(text);
    var cached := db.Get(key, env.readFails);
    if cached.Success? && cached.value.Some? && cached.value.value.EmbeddingJson? {
      return cached.value.value.vector;
    }
    var answer := env.remote(text);
    if answer.Some? {
      var written := db.SetEx(key, EmbeddingJson(answer.value), env.writeFails);
      return answer.value;
    }
    v := GenerateFallbackEmbedding(text, env.sqrt);
  }

  /** A cached vector is returned as it is, the store is untouched, and the remote
      service makes no difference. */
  lemma CacheHitIgnoresRemote(data: map<string, Value>, text: string, env: EmbedEnv, v: seq<real>,
                              other: string -> Option<seq<real>>)
    requires !env.readFails && CacheKey(text) in data && data[CacheKey(text)] == EmbeddingJson(v)
    ensures GenerateSpec(data, text, env) == (data, v)
    ensures GenerateSpec(data, text, env.(remote := other)) == (data, v)
  {
  }

  /** A failing cache read is the same as a miss: the remote path is taken. */
  lemma ReadErrorTakesRemotePath(data: map<string, Value>, text: string, env: EmbedEnv)
    requires env.readFails
    ensures GenerateSpec(data, text, env) == RemotePath(data, text, env)
  {
  }

  /** On a miss with a remote answer, the answer is returned and written under the key
      unless the write throws, in which case nothing changes; no other key changes. */
  lemma RemoteAnswerCached(data: map<string, Value>, text: string, env: EmbedEnv)
    requires Cached(data, CacheKey(text), env.readFails).None? && env.remote(text).Some?
    ensures GenerateSpec(data, text, env).1 == env.remote(text).value
    ensures !env.writeFails ==> GenerateSpec(data, text, env).0 == data[CacheKey(text) := EmbeddingJson(env.remote(text).value)]
    ensures env.writeFails ==> GenerateSpec(data, text, env).0 == data
  {
  }

  /** On a miss without a remote answer, the fallback vector is returned and nothing
      is cached. */
  lemma FallbackNotCached(data: map<string, Value>, text: string, env: EmbedEnv)
    requires Cached(data, CacheKey(text), env.readFails).None? && env.remote(text).None?
    ensures GenerateSpec(data, text, env) == (data, FallbackVector(text, env.sqrt))
  {
  }

  /** Once a remote answer is cached, asking again with a working cache returns it
      without consulting the remote service. */
  lemma SecondCallHitsCache(data: map<string, Value>, text: string, env: EmbedEnv, later: EmbedEnv)
    requires Cached(data, CacheKey(text), env.readFails).None? && env.remote(text).Some? && !env.writeFails
    requires !later.readFails
    ensures var (data1, v1) := GenerateSpec(data, text, env);
      GenerateSpec(data1, text, later) == (data1, v1)
  {
  }

  /** Generating an embedding writes at most its own cache key. */
  lemma GenerateWritesOnlyItsKey(data: map<string, Value>, text: string, env: EmbedEnv)
    ensures var data1 := GenerateSpec(data, text, env).0;
      forall k :: k != CacheKey(text) ==> (k in data1 <==> k in data) && (k in data ==> data1[k] == data[k])
  {
  }

  // ----- getEmbeddingForText ---------------------------------------------------------

  function GetEmbeddingSpec(data: map<string, Value>, text: string, env: EmbedEnv)
    : (map<string, Value>, Result<seq<real>, string>)
  {
    match ValidateText(text)
    case Failure(e) => (data, Failure(e))
    case Success(t) => var (data1, v) := GenerateSpec(data, t, env); (data1, Success(v))
  }

  method GetEmbeddingForText(db: KeyValueStore, text: string, env: EmbedEnv) returns (r: Result<seq<real>, string>)
    modifies db
    ensures (db.data, r) == GetEmbeddingSpec(old(db.data), text, env)
  {
    var checked := ValidateText(text);
    if checked.Failure? {
      return Failure(checked.error);
    }
    var v := GenerateEmbedding(db, checked.value, env);
    r := Success(v);
  }

  /** Surrounding white space does not change the embedding: texts that trim to the
      same text get the same result. */
  lemma EmbeddingIgnoresSurroundingWhitespace(data: map<string, Value>, a: string, b: string, env: EmbedEnv)
    requires Trim(a) == Trim(b)
    ensures GetEmbeddingSpec(data, a, env) == GetEmbeddingSpec(data, b, env)
  {
  }
}
