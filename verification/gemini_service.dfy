/** Answer synthesis (`services/geminiService.js`): the numbered context handed to the
    remote model, the choice between the model's first candidate and the local
    summary, and that summary itself.

    The remote model is the parameter `model`: given the context and the question it
    yields the texts of its candidates, or `None` when the request fails. The wording
    of the prompt around the context is not modelled. */
module GeminiService {
  import opened Wrappers
  import opened Text
  import opened VectorStore

  // ----- The context -----------------------------------------------------------------

  const BlockSeparator: string := "\n---\n"

  /** The label that opens the block of the article at `index`: `[Source <index+1>: `. */
  function SourceLabel(index: nat): string
  {
    "[Source " + NatToString(index + 1) + ": "
  }

  /** The block of the article at `index`: its label and source, then its title and
      content on lines of their own. */
  function ContextBlock(index: nat, m: Match): (r: string)
    ensures SourceLabel(index) <= r
  {
    SourceLabel(index) + m.article.source + "]\nTitle: " + m.article.title
      + "\nContent: " + m.article.content + "\n"
  }

  function Blocks(ms: seq<Match>): (r: seq<string>)
    ensures |r| == |ms|
    ensures forall i :: 0 <= i < |ms| ==> r[i] == ContextBlock(i, ms[i])
  {
    seq(|ms|, i requires 0 <= i < |ms| => ContextBlock(i, ms[i]))
  }

  /** The `map` and `join` of `generateAnswer`. */
  function Context(ms: seq<Match>): string
  {
    Join(Blocks(ms), BlockSeparator)
  }

  /** A further article adds one separator and one block, labelled with the next
      number, and leaves the context before it as it was. */
  lemma ContextSnoc(ms: seq<Match>, m: Match)
    requires ms != []
    ensures Context(ms + [m]) == Context(ms) + BlockSeparator + ContextBlock(|ms|, m)
  {
    assert Blocks(ms + [m]) == Blocks(ms) + [ContextBlock(|ms|, m)];
    JoinSnoc(Blocks(ms), BlockSeparator, ContextBlock(|ms|, m));
  }

  /** Every article's block occurs in the context. */
  lemma ContextHoldsEveryBlock(ms: seq<Match>, i: nat) returns (k: nat)
    requires i < |ms|
    ensures k + |ContextBlock(i, ms[i])| <= |Context(ms)|
    ensures Context(ms)[k..k + |ContextBlock(i, ms[i])|] == ContextBlock(i, ms[i])
  {
    k := JoinHoldsPart(Blocks(ms), BlockSeparator, i);
  }

  /** Where the number sits in a block: after `[Source `, followed by `:`. */
  lemma BlockNumber(i: nat, m: Match)
    ensures var d := NatToString(i + 1);
      var b := ContextBlock(i, m);
      && |b| > 8 + |d| && b[8..8 + |d|] == d && b[8 + |d|] == ':'
  {
    var d := NatToString(i + 1);
    var opening := SourceLabel(i);
    var b := ContextBlock(i, m);
    assert opening == ("[Source " + d) + ": ";
    assert b[..|opening|] == opening;
    assert opening[8..8 + |d|] == d;
    assert opening[8 + |d|] == ':';
  }

  /** A shorter number followed by `:` is not a longer number at the same place. */
  lemma ColonEndsNumber(b: string, d: string, e: string)
    requires |d| < |e| && 8 + |e| <= |b|
    requires b[8..8 + |d|] == d && b[8 + |d|] == ':'
    requires forall k :: 0 <= k < |e| ==> IsDigit(e[k])
    ensures b[8..8 + |e|] != e
  {
    assert b[8..8 + |e|][|d|] == ':';
  }

  /** Blocks at different positions carry different labels, whatever the articles: no
      two blocks of a context are numbered alike. */
  lemma BlockLabelsDistinct(i: nat, j: nat, m: Match, n: Match)
    requires i != j
    ensures ContextBlock(i, m) != ContextBlock(j, n)
  {
    var di, dj := NatToString(i + 1), NatToString(j + 1);
    BlockNumber(i, m);
    BlockNumber(j, n);
    NatToStringDistinct(i + 1, j + 1);
    LabelledTextsDiffer(ContextBlock(i, m), ContextBlock(j, n), di, dj);
  }

  /** Texts carrying different numbers after `[Source `, each ended by `:`, differ. */
  lemma LabelledTextsDiffer(bi: string, bj: string, di: string, dj: string)
    requires |bi| > 8 + |di| && bi[8..8 + |di|] == di && bi[8 + |di|] == ':'
    requires |bj| > 8 + |dj| && bj[8..8 + |dj|] == dj && bj[8 + |dj|] == ':'
    requires forall k :: 0 <= k < |di| ==> IsDigit(di[k])
    requires forall k :: 0 <= k < |dj| ==> IsDigit(dj[k])
    requires di != dj
    ensures bi != bj
  {
    if |di| < |dj| {
      if 8 + |dj| <= |bi| {
        ColonEndsNumber(bi, di, dj);
      }
    } else if |dj| < |di| {
      if 8 + |di| <= |bj| {
        ColonEndsNumber(bj, dj, di);
      }
    }
  }

  // ----- The fallback summary --------------------------------------------------------

  const NoInformation: string :=
    "I don't have enough information in my current news database "
    + "to answer your question. "
    + "Please try asking about different topics "
    + "or check back later for updated news coverage."

  const ExcerptLength: nat := 200
  const ListedArticles: nat := 3

  function Sources(ms: seq<Match>): (r: seq<string>)
    ensures |r| == |ms| && forall i :: 0 <= i < |ms| ==> r[i] == ms[i].article.source
  {
    seq(|ms|, i requires 0 <= i < |ms| => ms[i].article.source)
  }

  /** The opening line, naming the sources of every article, joined by `", "`. */
  function Header(ms: seq<Match>): string
  {
    "Based on recent news from " + Join(Sources(ms), ", ") + ", here's what I found about your question:\n\n"
  }

  /** The first 200 characters of the content followed by `...`. */
  function Excerpt(content: string): (r: string)
    ensures |r| <= ExcerptLength + 3
    ensures |r| >= 3 && r[..|r| - 3] <= content && r[|r| - 3..] == "..."
    ensures |content| >= ExcerptLength ==> |r| == ExcerptLength + 3
  {
    Prefix(content, ExcerptLength) + "..."
  }

  /** The first line of an entry: the number, the title in bold and the source. */
  function TitleLine(number: nat, m: Match): string
  {
    NatToString(number) + ". **" + m.article.title + "** (" + m.article.source + ")\n"
  }

  /** The second line of an entry: the excerpt, then a blank line. */
  function ExcerptLine(m: Match): string
  {
    Excerpt(m.article.content) + "\n\n"
  }

  /** The numbered entry for an article. */
  function Item(number: nat, m: Match): string
  {
    TitleLine(number, m) + ExcerptLine(m)
  }

  /** The entries for `ms`, numbered from 1. */
  function Items(ms: seq<Match>): string
  {
    if ms == [] then "" else Items(ms[..|ms| - 1]) + Item(|ms|, ms[|ms| - 1])
  }

  const TrailerEnd: string := " from my database."

  /** The closing sentence, with the count and a plural `s` when it exceeds 1. */
  function Trailer(count: nat): string
  {
    "This information is based on " + NatToString(count) + " relevant news article"
      + (if count > 1 then "s" else "") + TrailerEnd
  }

  /** `generateFallbackAnswer`: the fixed text for no articles; otherwise the header,
      the first three articles numbered, and the trailer with the full count. */
  function FallbackText(ms: seq<Match>): string
  {
    if |ms| == 0 then NoInformation
    else Header(ms) + Items(ms[..Min(ListedArticles, |ms|)]) + Trailer(|ms|)
  }

  /** One round of the loop: the two appended lines make up the next entry. */
  lemma AppendEntry(acc: string, listed: seq<Match>, index: nat)
    requires index < |listed|
    ensures acc + Items(listed[..index]) + TitleLine(index + 1, listed[index]) + ExcerptLine(listed[index])
            == acc + Items(listed[..index + 1])
  {
    SliceSnoc(listed, index);
    ItemsNumbered(listed[..index], listed[index]);
    JoinAssoc4(acc, Items(listed[..index]), TitleLine(index + 1, listed[index]), ExcerptLine(listed[index]));
  }

  /** `generateFallbackAnswer`, appending to `answer` as the source does. */
  method GenerateFallbackAnswer(question: string, ms: seq<Match>) returns (answer: string)
    ensures answer == FallbackText(ms)
  {
    if |ms| == 0 {
      return NoInformation;
    }
    var listed := ms[..Min(ListedArticles, |ms|)];
    var header := Header(ms);
    answer := header;
    assert listed[..0] == [];
    var index := 0;
    while index < |listed|
      invariant 0 <= index <= |listed|
      invariant answer == header + Items(listed[..index])
    {
      AppendEntry(header, listed, index);
      answer := answer + TitleLine(index + 1, listed[index]);
      answer := answer + ExcerptLine(listed[index]);
      index := index + 1;
    }
    assert listed[..index] == listed;
    answer := answer + Trailer(|ms|);
  }

  /** The fixed text is the answer exactly when there are no articles: any other
      answer opens with the header. */
  lemma FallbackEmptyIff(ms: seq<Match>)
    ensures FallbackText(ms) == NoInformation <==> ms == []
  {
    if ms != [] {
      var t := FallbackText(ms);
      var trailer := Trailer(|ms|);
      assert trailer[|trailer| - 3] == 's';
      assert t[|t| - 3] == 's';
      assert NoInformation[|NoInformation| - 3] == 'g';
    }
  }

  /** The header names the source of every article, not only of the three listed. */
  lemma FallbackNamesEverySource(ms: seq<Match>, i: nat) returns (k: nat)
    requires i < |ms|
    ensures k + |ms[i].article.source| <= |FallbackText(ms)|
    ensures FallbackText(ms)[k..k + |ms[i].article.source|] == ms[i].article.source
  {
    k := HeaderNamesSource(ms, i);
    FallbackOpensWithHeader(ms, k, ms[i].article.source);
  }

  /** Any text the header holds at some position, the whole answer holds there too. */
  lemma FallbackOpensWithHeader(ms: seq<Match>, k: nat, part: string)
    requires ms != [] && k + |part| <= |Header(ms)| && Header(ms)[k..k + |part|] == part
    ensures k + |part| <= |FallbackText(ms)| && FallbackText(ms)[k..k + |part|] == part
  {
    var listed := Items(ms[..Min(ListedArticles, |ms|)]);
    JoinAssoc(Header(ms), listed, Trailer(|ms|));
    SliceInFront(Header(ms), listed + Trailer(|ms|), k, k + |part|);
  }

  /** The header names the source of every article. */
  lemma HeaderNamesSource(ms: seq<Match>, i: nat) returns (k: nat)
    requires i < |ms|
    ensures k + |ms[i].article.source| <= |Header(ms)|
    ensures Header(ms)[k..k + |ms[i].article.source|] == ms[i].article.source
  {
    var lead := "Based on recent news from ";
    var joined := Join(Sources(ms), ", ");
    var j := JoinHoldsPart(Sources(ms), ", ", i);
    var n := |ms[i].article.source|;
    k := |lead| + j;
    SliceAfterFront(lead, joined, j, n);
    SliceInFront(lead + joined, ", here's what I found about your question:\n\n", k, k + n);
  }

  /** The entries are numbered 1, 2, ... in article order: the entry list for one more
      article ends with that article numbered after the others. */
  lemma {:induction false} ItemsNumbered(ms: seq<Match>, m: Match)
    ensures Items(ms + [m]) == Items(ms) + Item(|ms| + 1, m)
  {
    assert (ms + [m])[..|ms|] == ms;
  }

  /** The trailer ends in `articles from my database.` exactly when the count
      exceeds 1, and in `article from my database.` otherwise. */
  lemma TrailerPlural(count: nat)
    ensures var t := Trailer(count);
      |t| > |TrailerEnd| && (t[|t| - |TrailerEnd| - 1] == 's' <==> count > 1)
  {
    var t := Trailer(count);
    var body := "This information is based on " + NatToString(count) + " relevant news article";
    if count > 1 {
      assert t == body + "s" + TrailerEnd;
    } else {
      assert t == body + TrailerEnd;
      assert t[|t| - |TrailerEnd| - 1] == body[|body| - 1] == 'e';
    }
  }

  // ----- generateAnswer --------------------------------------------------------------

  /** `generateAnswer`: the first candidate's text when the model answers with at
      least one candidate; the fallback summary when the request fails or yields
      none. */
  function GenerateAnswer(question: string, ms: seq<Match>, model: (string, string) -> Option<seq<string>>)
    : (r: string)
  {
    match model(Context(ms), question)
    case Some(candidates) => if |candidates| > 0 then candidates[0] else FallbackText(ms)
    case None => FallbackText(ms)
  }

  /** The model gives no answer: the request failed or returned no candidate. */
  predicate NoCandidates(reply: Option<seq<string>>)
  {
    reply.None? || reply.value == []
  }

  /** Without an answer from the model, the reply is the fixed "not enough information"
      text exactly when there are no articles. */
  lemma GenerateAnswerWithoutModel(question: string, ms: seq<Match>, model: (string, string) -> Option<seq<string>>)
    requires NoCandidates(model(Context(ms), question))
    ensures GenerateAnswer(question, ms, model) == NoInformation <==> ms == []
  {
    FallbackEmptyIff(ms);
  }

  /** Without an answer from the model, the reply still names the source of every
      article, at the returned position. */
  lemma GenerateAnswerNamesSource(question: string, ms: seq<Match>, model: (string, string) -> Option<seq<string>>,
                                  i: nat) returns (k: nat)
    requires NoCandidates(model(Context(ms), question)) && i < |ms|
    ensures k + |ms[i].article.source| <= |GenerateAnswer(question, ms, model)|
    ensures GenerateAnswer(question, ms, model)[k..k + |ms[i].article.source|] == ms[i].article.source
  {
    k := FallbackNamesEverySource(ms, i);
  }

  /** The model is consulted on the numbered context and the question alone: two models
      that agree there give the same answer. */
  lemma GenerateAnswerSeesContext(question: string, ms: seq<Match>,
                                  model: (string, string) -> Option<seq<string>>,
                                  other: (string, string) -> Option<seq<string>>)
    requires model(Context(ms), question) == other(Context(ms), question)
    ensures GenerateAnswer(question, ms, model) == GenerateAnswer(question, ms, other)
  {
  }
}
