/**
 * The producer side (summarizer/ollama_summarizer.py): turning free text
 * from the generation backend into the canonical three-line summary, and
 * mapping scraped articles to stored summary records.
 */
module Summarizer {
  import opened Results
  import opened Text
  import opened Labels
  import opened Records

  /** The opening label of the summary pattern, `Summary:`. */
  const SummaryLabels: seq<string> := ["summary:"]

  /** `Sentiment:` and `Overall Sentiment:`, in the order the patterns try them. */
  const SentimentLabels: seq<string> := ["sentiment:", "overall sentiment:"]

  /** `Tags:`, `Topic Tags:` and `Topic tags:`; the last two are one alias once case is ignored. */
  const TagsLabels: seq<string> := ["tags:", "topic tags:"]

  const DefaultSentiment: string := "Unknown"
  const DefaultTags: string := "None"

  /** The three values of a canonical summary. */
  datatype Fields = Fields(summary: string, sentiment: string, tags: string)

  /** The canonical text `Summary: …\nSentiment: …\nTags: …`. */
  function Serialize(f: Fields): string {
    "Summary: " + f.summary + "\nSentiment: " + f.sentiment + "\nTags: " + f.tags
  }

  /** Where the non-MULTILINE `$` matches: at the end, or just before a final line break. */
  predicate DollarAt(s: string, j: nat) {
    j == |s| || (j + 1 == |s| && s[j] == '\n')
  }

  /**
   * Where a lazy `(.*?)` starting at `from` stops when it is followed by
   * `(?:closers|$)`: the earliest index at which a closer or `$` matches.
   */
  function LazyEnd(s: string, closers: seq<string>, from: nat): (e: nat)
    requires from <= |s|
    ensures from <= e <= |s|
    ensures AnyAt(s, e, closers) || DollarAt(s, e)
    ensures forall j :: from <= j < e ==> !AnyAt(s, j, closers) && !DollarAt(s, j)
  {
    var dollar := if from < |s| && s[|s| - 1] == '\n' then |s| - 1 else |s|;
    match FindLabel(s, closers, from)
    case Some(h) => if h.pos < dollar then h.pos else dollar
    case None => dollar
  }

  /** The lazy group's end is determined: an index with a closer or `$` there and none before it is where it stops. */
  lemma LazyEndIs(s: string, closers: seq<string>, from: nat, e: nat)
    requires from <= e <= |s|
    requires AnyAt(s, e, closers) || DollarAt(s, e)
    requires forall j :: from <= j < e ==> !AnyAt(s, j, closers) && !DollarAt(s, j)
    ensures LazyEnd(s, closers, from) == e
  {
    var r := LazyEnd(s, closers, from);
    assert !(r < e) && !(e < r);
  }

  /** A closer occurrence with no closer before it ends the lazy group: `$` cannot match before a non-empty closer. */
  lemma LazyEndAtCloser(s: string, closers: seq<string>, from: nat, e: nat, k: nat)
    requires from <= e && k < |closers| && |closers[k]| > 0 && MatchesAt(s, e, closers[k])
    requires forall j :: from <= j < e ==> !AnyAt(s, j, closers)
    ensures LazyEnd(s, closers, from) == e
  {
    assert AnyAt(s, e, closers);
    LazyEndIs(s, closers, from, e);
  }

  /** Group 1 of `re.search(r"(?:openers)(.*?)(?:closers|$)", s, re.DOTALL | re.IGNORECASE)`. */
  function SearchLazy(s: string, openers: seq<string>, closers: seq<string>): (r: Option<string>)
    ensures r.Some? <==> Occurs(s, openers)
    ensures r.Some? ==> NonEmptyAliases(closers) ==> !Occurs(r.value, closers)
  {
    match FindLabel(s, openers, 0)
    case None => None
    case Some(h) =>
      var start := h.pos + |openers[h.alias]|;
      var e := LazyEnd(s, closers, start);
      assert AnyAt(s, h.pos, openers);
      assert NonEmptyAliases(closers) ==> !Occurs(s[start..e], closers) by {
        if NonEmptyAliases(closers) {
          NoOccurrenceInSlice(s, start, e, closers);
        }
      }
      Some(s[start..e])
  }

  /** The lazy group is the text from the end of the first opener to the closer or `$` after it. */
  lemma SearchLazyIs(s: string, openers: seq<string>, closers: seq<string>, h: Hit, start: nat)
    requires FindLabel(s, openers, 0) == Some(h)
    requires h.alias < |openers| && start == h.pos + |openers[h.alias]| <= |s|
    ensures SearchLazy(s, openers, closers).Some?
    ensures SearchLazy(s, openers, closers).value == s[start..LazyEnd(s, closers, start)]
  {
  }

  /** The lazy group is a given text when the slice between the first opener and the lazy end is that text. */
  lemma SearchLazyGives(s: string, openers: seq<string>, closers: seq<string>, h: Hit, start: nat, e: nat, g: string)
    requires FindLabel(s, openers, 0) == Some(h)
    requires h.alias < |openers| && start == h.pos + |openers[h.alias]| <= |s|
    requires LazyEnd(s, closers, start) == e && s[start..e] == g
    ensures SearchLazy(s, openers, closers) == Some(g)
  {
    SearchLazyIs(s, openers, closers, h, start);
    var r := SearchLazy(s, openers, closers);
    assert r == Some(r.value);
  }

  /** Group 1 of `re.search(r"(?:openers)(.*)", s, re.DOTALL | re.IGNORECASE)`: everything after the first label. */
  function SearchGreedy(s: string, openers: seq<string>): (r: Option<string>)
    ensures r.Some? <==> Occurs(s, openers)
  {
    match FindLabel(s, openers, 0)
    case None => None
    case Some(h) =>
      assert AnyAt(s, h.pos, openers);
      Some(s[h.pos + |openers[h.alias]|..])
  }

  /** The greedy group is a given text when the text after the first opener is that text. */
  lemma SearchGreedyGives(s: string, openers: seq<string>, h: Hit, start: nat, g: string)
    requires FindLabel(s, openers, 0) == Some(h)
    requires h.alias < |openers| && start == h.pos + |openers[h.alias]| <= |s|
    requires s[start..] == g
    ensures SearchGreedy(s, openers) == Some(g)
  {
    var r := SearchGreedy(s, openers);
    assert r.Some? && r.value == g;
    assert r == Some(r.value);
  }

  /** `v.splitlines()[0] if v else default`: the first line of a non-empty `v`, which is non-blank when `v` is stripped. */
  function FirstLineOr(v: string, default: string): (r: string)
    ensures v == [] ==> r == default
    ensures v != [] ==> '\n' !in r && r == v[..IndexOf(v, '\n')]
    ensures v != [] && Stripped(v) ==> r != [] && r[0] == v[0]
  {
    if v == [] then default
    else
      var r := FirstLine(v);
      assert Stripped(v) ==> IndexOf(v, '\n') > 0;
      r
  }

  /** Both defaults are single non-blank words. */
  lemma DefaultsShape()
    ensures DefaultSentiment != [] && '\n' !in DefaultSentiment && !IsSpace(DefaultSentiment[0])
    ensures DefaultTags != [] && '\n' !in DefaultTags && !IsSpace(DefaultTags[0])
  {
  }

  /** The summary: the stripped summary group, or the whole output stripped when there is no `Summary:` label. */
  function SummaryOf(output: string): (r: string)
    ensures Stripped(r)
    ensures !Occurs(output, SummaryLabels) ==> r == Strip(output)
    ensures Occurs(output, SummaryLabels) ==> !Occurs(r, SentimentLabels)
  {
    match SearchLazy(output, SummaryLabels, SentimentLabels)
    case Some(g) =>
      StripKeepsAbsence(g, SentimentLabels);
      Strip(g)
    case None => Strip(output)
  }

  /** The sentiment: the first line of the stripped sentiment group, or `Unknown` when there is none or it is blank. */
  function SentimentOf(output: string): (r: string)
    ensures r != [] && '\n' !in r && !IsSpace(r[0])
    ensures !Occurs(output, SentimentLabels) ==> r == DefaultSentiment
  {
    DefaultsShape();
    match SearchLazy(output, SentimentLabels, TagsLabels)
    case Some(g) => FirstLineOr(Strip(g), DefaultSentiment)
    case None => DefaultSentiment
  }

  /** The tags: the first line of the stripped tags group, or `None` when there is none or it is blank. */
  function TagsOf(output: string): (r: string)
    ensures r != [] && '\n' !in r && !IsSpace(r[0])
    ensures !Occurs(output, TagsLabels) ==> r == DefaultTags
  {
    DefaultsShape();
    match SearchGreedy(output, TagsLabels)
    case Some(g) => FirstLineOr(Strip(g), DefaultTags)
    case None => DefaultTags
  }

  /**
   * The summary, sentiment and tags `parse_ollama_output` extracts, with
   * its defaults applied and only the first line of sentiment and tags kept.
   */
  function ParseFields(output: string): (f: Fields)
    ensures f.sentiment != [] && '\n' !in f.sentiment && !IsSpace(f.sentiment[0])
    ensures f.tags != [] && '\n' !in f.tags && !IsSpace(f.tags[0])
    ensures Stripped(f.summary)
    ensures !Occurs(output, SentimentLabels) ==> f.sentiment == DefaultSentiment
    ensures !Occurs(output, TagsLabels) ==> f.tags == DefaultTags
    ensures !Occurs(output, SummaryLabels) ==> f.summary == Strip(output)
    ensures Occurs(output, SummaryLabels) ==> !Occurs(f.summary, SentimentLabels)
  {
    Fields(SummaryOf(output), SentimentOf(output), TagsOf(output))
  }

  /** When all three searches succeed, the fields are the stripped groups, sentiment and tags cut to their first line. */
  lemma ParseFieldsFound(output: string, g1: string, g2: string, g3: string)
    requires SearchLazy(output, SummaryLabels, SentimentLabels) == Some(g1)
    requires SearchLazy(output, SentimentLabels, TagsLabels) == Some(g2)
    requires SearchGreedy(output, TagsLabels) == Some(g3)
    ensures ParseFields(output)
         == Fields(Strip(g1), FirstLineOr(Strip(g2), DefaultSentiment), FirstLineOr(Strip(g3), DefaultTags))
  {
    SummaryFound(output, g1);
    SentimentFound(output, g2);
    TagsFound(output, g3);
  }

  lemma SummaryFound(output: string, g: string)
    requires SearchLazy(output, SummaryLabels, SentimentLabels) == Some(g)
    ensures SummaryOf(output) == Strip(g)
  {
  }

  lemma SentimentFound(output: string, g: string)
    requires SearchLazy(output, SentimentLabels, TagsLabels) == Some(g)
    ensures SentimentOf(output) == FirstLineOr(Strip(g), DefaultSentiment)
  {
  }

  lemma TagsFound(output: string, g: string)
    requires SearchGreedy(output, TagsLabels) == Some(g)
    ensures TagsOf(output) == FirstLineOr(Strip(g), DefaultTags)
  {
  }

  /** A sentiment label followed by nothing but blanks before the tags label (or the end) yields the default sentiment. */
  lemma BlankSentimentDefaults(output: string, g: string)
    requires SearchLazy(output, SentimentLabels, TagsLabels) == Some(g) && AllSpace(g)
    ensures SentimentOf(output) == DefaultSentiment
  {
    SentimentFound(output, g);
  }

  /** A tags label followed by nothing but blanks yields the default tags. */
  lemma BlankTagsDefault(output: string, g: string)
    requires SearchGreedy(output, TagsLabels) == Some(g) && AllSpace(g)
    ensures TagsOf(output) == DefaultTags
  {
    TagsFound(output, g);
  }

  /**
   * `parse_ollama_output`: the canonical text. Its lines are the summary's
   * lines, then exactly one `Sentiment:` line and, last, one `Tags:` line.
   */
  function ParseOllamaOutput(output: string): (r: string)
    ensures var f := ParseFields(output);
      Lines(r) == Split("Summary: " + f.summary) + ["Sentiment: " + f.sentiment, "Tags: " + f.tags]
    ensures r != [] && r[|r| - 1] != '\n'
  {
    var f := ParseFields(output);
    SerializedLines(f);
    var r := Serialize(f);
    assert r == ("Summary: " + f.summary + "\nSentiment: " + f.sentiment + "\nTags: ") + f.tags;
    assert r[|r| - 1] == f.tags[|f.tags| - 1];
    r
  }

  /** The canonical text is the serialisation of the extracted fields. */
  lemma ParseOllamaOutputIs(output: string)
    ensures ParseOllamaOutput(output) == Serialize(ParseFields(output))
  {
  }

  /** The lines of a canonical text whose sentiment and tags are single lines. */
  lemma SerializedLines(f: Fields)
    requires '\n' !in f.sentiment && '\n' !in f.tags
    ensures Lines(Serialize(f)) == Split("Summary: " + f.summary) + ["Sentiment: " + f.sentiment, "Tags: " + f.tags]
  {
    var s := Serialize(f);
    SerializedSplit(f.summary, f.sentiment, f.tags);
    var c := "Tags: " + f.tags;
    assert s[|s| - 1] == c[|c| - 1];
    LinesUnterminated(s);
  }

  lemma SerializedSplit(x: string, y: string, z: string)
    requires '\n' !in y && '\n' !in z
    ensures Split("Summary: " + x + "\nSentiment: " + y + "\nTags: " + z)
         == Split("Summary: " + x) + ["Sentiment: " + y, "Tags: " + z]
  {
    var a, b, c := "Summary: " + x, "Sentiment: " + y, "Tags: " + z;
    assert "Summary: " + x + "\nSentiment: " + y + "\nTags: " + z == a + "\n" + b + "\n" + c;
    SplitThree(a, b, c);
  }

  // ---------------------------------------------------------------- articles

  /** A scraped article as the article file stores it. */
  datatype Article = Article(title: string, link: string, published: string, summary: string, source: string, scrapedAt: string)

  /** The prompt `summarize_article` sends to the backend for one article. */
  function Prompt(a: Article): string {
    "\n        You are a news summarizer. Given the article below, provide:"
    + "\n        - A short 3-sentence summary"
    + "\n        - The overall sentiment (Positive, Negative, Neutral)"
    + "\n        - One or two topic tags"
    + "\n\n        Article:"
    + "\n        Title: " + a.title
    + "\n        Description: " + a.summary
    + "\n    "
  }

  /**
   * `summarize_article`: whatever the backend answers (its text, or an error
   * message returned as text) is normalised into the canonical form.
   */
  function SummarizeArticle(a: Article, generate: string -> string): (r: string)
    ensures exists f: Fields :: r == Serialize(f) && '\n' !in f.sentiment && '\n' !in f.tags
  {
    var f := ParseFields(generate(Prompt(a)));
    assert ParseOllamaOutput(generate(Prompt(a))) == Serialize(f);
    ParseOllamaOutput(generate(Prompt(a)))
  }

  /** The stored summary record for an article: `link` becomes `url`, `source` is dropped. */
  function StoredSummary(a: Article, summary: string): (r: Record)
    ensures Stores(r, a, summary)
  {
    map["title" := a.title, "url" := a.link, "published" := a.published,
        "summary" := summary, "scraped_at" := a.scrapedAt]
  }

  /** `r` is the stored record of article `a` with summary text `summary`, and holds nothing else. */
  predicate Stores(r: Record, a: Article, summary: string) {
    && r.Keys == {"title", "url", "published", "summary", "scraped_at"}
    && r["title"] == a.title
    && r["url"] == a.link
    && r["published"] == a.published
    && r["summary"] == summary
    && r["scraped_at"] == a.scrapedAt
  }

  /**
   * The loop of `summarize_articles`: one stored record per article, in the
   * articles' order, carrying the article's fields and its normalised summary.
   */
  function SummarizeArticles(articles: seq<Article>, generate: string -> string): (r: seq<Record>)
    ensures |r| == |articles|
    ensures forall i :: 0 <= i < |r| ==> Stores(r[i], articles[i], SummarizeArticle(articles[i], generate))
  {
    StoreAll(articles, a => SummarizeArticle(a, generate))
  }

  /** The same loop with the per-article summarisation as a parameter. */
  function StoreAll(articles: seq<Article>, summarize: Article -> string): (r: seq<Record>)
    ensures |r| == |articles|
    ensures forall i :: 0 <= i < |r| ==> Stores(r[i], articles[i], summarize(articles[i]))
    decreases |articles|
  {
    if articles == [] then
      []
    else
      var rest := StoreAll(articles[1..], summarize);
      var r := [StoredSummary(articles[0], summarize(articles[0]))] + rest;
      assert forall i :: 0 < i < |r| ==> r[i] == rest[i - 1] && articles[i] == articles[1..][i - 1];
      r
  }
}
