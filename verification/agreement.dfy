/**
 * The two halves together: what the dashboard shows for a summary text the
 * normaliser wrote. The dashboard recovers the sentiment and tags the
 * normaliser emitted, stripped, with the sentiment title-cased; the body it
 * shows still carries the `Summary:` label.
 */
module Agreement {
  import opened Results
  import opened Text
  import opened Labels
  import opened Records
  import opened Summarizer
  import opened Dashboard
  import opened Aliases

  /** The canonical sentiment line is a sentiment line, not a tags line, and its value is the sentiment stripped. */
  lemma SentimentLineRead(se: string)
    ensures IsSentimentLine("Sentiment: " + se) && !IsTagsLine("Sentiment: " + se)
    ensures FieldValue("Sentiment: " + se) == Ok(Strip(se))
  {
    var l := "Sentiment: " + se;
    assert l[..9] == "Sentiment" && l[9] == ':' && l[10..] == " " + se;
    assert Lower("Sentiment") == SentimentPrefixes[0];
    CopyMatches(l, 0, "Sentiment");
    assert TagsPrefixes[0][0] == 't' && TagsPrefixes[1][0] == 't' && SentimentPrefixes[0][0] == 's';
    NoAliasAt(l, 0, SentimentPrefixes[0], TagsPrefixes, 0);
    IndexOfFirst(l, ':', 9);
    LeadingBlankDropped(se);
  }

  /** The canonical tags line is a tags line, not a sentiment line, and its value is the tags stripped. */
  lemma TagsLineRead(t: string)
    ensures IsTagsLine("Tags: " + t) && !IsSentimentLine("Tags: " + t)
    ensures FieldValue("Tags: " + t) == Ok(Strip(t))
  {
    var l := "Tags: " + t;
    assert l[..4] == "Tags" && l[4] == ':' && l[5..] == " " + t;
    assert Lower("Tags") == TagsPrefixes[0];
    CopyMatches(l, 0, "Tags");
    assert SentimentPrefixes[0][0] == 's' && SentimentPrefixes[1][0] == 'o' && TagsPrefixes[0][0] == 't';
    NoAliasAt(l, 0, TagsPrefixes[0], SentimentPrefixes, 0);
    IndexOfFirst(l, ':', 4);
    LeadingBlankDropped(t);
  }

  /** No line of the summary part of a canonical text looks like a sentiment or tags line to the dashboard. */
  predicate PlainSummary(summary: string) {
    var lines := Split("Summary: " + summary);
    forall i :: 0 <= i < |lines| ==> !IsFieldLine(lines[i])
  }

  /** A one-line summary is plain: its only line starts with `Summary:`, which the dashboard keeps. */
  lemma OneLineSummaryPlain(s: string)
    requires '\n' !in s
    ensures PlainSummary(s)
  {
    var l := "Summary: " + s;
    assert '\n' !in l by {
      assert l == "Summary: " + s;
    }
    SplitOfLine(l);
    assert l[..8] == "Summary:";
    TitleCaseLabels();
    CopyMatches(l, 0, "Summary:");
    SummaryLineKept(l);
  }

  /**
   * Reading back a canonical text: when its summary part holds no line the
   * dashboard takes for a field line, the dashboard shows the summary part
   * stripped, the sentiment stripped and title-cased, and the tags stripped.
   */
  lemma CanonicalRoundTrip(f: Fields)
    requires '\n' !in f.sentiment && '\n' !in f.tags
    requires PlainSummary(f.summary)
    ensures DisplayFields(Serialize(f))
         == Ok(Shown(Strip("Summary: " + f.summary), Title(Strip(f.sentiment)), Strip(f.tags)))
  {
    var body := Split("Summary: " + f.summary);
    var sl, tl := "Sentiment: " + f.sentiment, "Tags: " + f.tags;
    SerializedLines(f);
    SentimentLineRead(f.sentiment);
    TagsLineRead(f.tags);
    ShownFromLines(Serialize(f), body, sl, tl, Strip(f.sentiment), Strip(f.tags));
  }

  /** What the dashboard shows for plain body lines followed by a sentiment line and a tags line. */
  lemma ShownFromLines(summary: string, body: seq<string>, sl: string, tl: string, sv: string, tv: string)
    requires Lines(summary) == body + [sl, tl]
    requires forall j :: 0 <= j < |body| ==> !IsFieldLine(body[j])
    requires IsSentimentLine(sl) && !IsTagsLine(sl) && IsTagsLine(tl)
    requires FieldValue(sl) == Ok(sv) && FieldValue(tl) == Ok(tv)
    ensures DisplayFields(summary) == Ok(Shown(Strip(Join(body)), Title(sv), tv))
  {
    var lines := body + [sl, tl];
    assert FirstValue(lines, SentimentPrefixes, UnknownSentiment) == Ok(sv) by {
      SentimentReadBack(body, sl, tl, sv);
    }
    assert FirstValue(lines, TagsPrefixes, NoTags) == Ok(tv) by {
      TagsReadBack(body, sl, tl, tv);
    }
    BodyOfFieldLines(body, sl, tl);
    DisplayFieldsIs(summary, lines, Join(body), sv, tv);
  }

  /** The sentiment the dashboard reads from plain body lines followed by a sentiment line and another line. */
  lemma SentimentReadBack(body: seq<string>, sl: string, tl: string, sv: string)
    requires forall j :: 0 <= j < |body| ==> !IsFieldLine(body[j])
    requires IsSentimentLine(sl) && FieldValue(sl) == Ok(sv)
    ensures FirstValue(body + [sl, tl], SentimentPrefixes, UnknownSentiment) == Ok(sv)
  {
    SentimentLineFirst(body, sl, tl);
  }

  /** The tags the dashboard reads from plain body lines followed by a non-tags line and a tags line. */
  lemma TagsReadBack(body: seq<string>, sl: string, tl: string, tv: string)
    requires forall j :: 0 <= j < |body| ==> !IsFieldLine(body[j])
    requires !IsTagsLine(sl) && IsTagsLine(tl) && FieldValue(tl) == Ok(tv)
    ensures FirstValue(body + [sl, tl], TagsPrefixes, NoTags) == Ok(tv)
  {
    TagsLineFirst(body, sl, tl);
  }

  /** After plain body lines, the canonical sentiment line is the first sentiment line. */
  lemma SentimentLineFirst(body: seq<string>, sl: string, tl: string)
    requires forall j :: 0 <= j < |body| ==> !IsFieldLine(body[j])
    requires IsSentimentLine(sl)
    ensures FirstMatchAt(body + [sl, tl], SentimentPrefixes, |body|)
  {
    var lines := body + [sl, tl];
    assert forall j :: 0 <= j < |body| ==> lines[j] == body[j] && !IsSentimentLine(body[j]);
    FirstAfter(lines, SentimentPrefixes, |body|);
  }

  /** After plain body lines and a line that is not a tags line, the canonical tags line is the first tags line. */
  lemma TagsLineFirst(body: seq<string>, sl: string, tl: string)
    requires forall j :: 0 <= j < |body| ==> !IsFieldLine(body[j])
    requires !IsTagsLine(sl) && IsTagsLine(tl)
    ensures FirstMatchAt(body + [sl, tl], TagsPrefixes, |body| + 1)
  {
    var lines := body + [sl, tl];
    assert forall j :: 0 <= j < |body| ==> lines[j] == body[j] && !IsTagsLine(body[j]);
    assert lines[|body|] == sl;
    FirstAfter(lines, TagsPrefixes, |body| + 1);
  }

  /** A line with one of the prefixes after lines with none of them is the first match. */
  lemma FirstAfter(lines: seq<string>, prefixes: seq<string>, i: nat)
    requires i < |lines| && StartsWithAny(lines[i], prefixes)
    requires forall j :: 0 <= j < i ==> !StartsWithAny(lines[j], prefixes)
    ensures FirstMatchAt(lines, prefixes, i)
  {
  }

  /** Plain body lines followed by two field lines: the body is what precedes them. */
  lemma BodyOfFieldLines(body: seq<string>, sl: string, tl: string)
    requires forall j :: 0 <= j < |body| ==> !IsFieldLine(body[j])
    requires IsFieldLine(sl) && IsFieldLine(tl)
    ensures BodyLines(body + [sl, tl]) == body
  {
    FieldLinesDropped(sl, tl);
    BodyLinesKeepsAll(body);
    BodyLinesAppend(body, [sl, tl]);
  }

  /** The two field lines that close the canonical text leave nothing in the body. */
  lemma FieldLinesDropped(sl: string, tl: string)
    requires IsFieldLine(sl) && IsFieldLine(tl)
    ensures BodyLines([sl, tl]) == []
  {
    assert [sl, tl][1..] == [tl];
  }

  /**
   * A summary line the dashboard takes for the first sentiment line but
   * which has no colon makes reading the canonical text raise.
   */
  lemma StraySentimentLineRaises(f: Fields, i: nat)
    requires '\n' !in f.sentiment && '\n' !in f.tags
    requires i < |Split("Summary: " + f.summary)|
    requires FirstMatchAt(Split("Summary: " + f.summary), SentimentPrefixes, i)
    requires ':' !in Split("Summary: " + f.summary)[i]
    ensures DisplayFields(Serialize(f)) == Err(MissingColon(Split("Summary: " + f.summary)[i]))
  {
    var body := Split("Summary: " + f.summary);
    var lines := body + ["Sentiment: " + f.sentiment, "Tags: " + f.tags];
    SerializedLines(f);
    assert FirstMatchAt(lines, SentimentPrefixes, i);
  }

  /** A non-empty summary keeps its label in the body: the body is exactly `Summary: ` and the summary. */
  lemma BodyKeepsLabel(s: string)
    requires s != [] && Stripped(s)
    ensures Strip("Summary: " + s) == "Summary: " + s
  {
    var b := "Summary: " + s;
    assert b[0] == 'S' && b[|b| - 1] == s[|s| - 1];
    StripStripped(b);
  }

  /**
   * The dashboard reads back what the normaliser wrote for any model output
   * whose summary has no field-like line: the body is the labelled summary,
   * and the sentiment and tags are the normaliser's, stripped, the sentiment
   * title-cased.
   */
  lemma ProducerConsumerAgreement(output: string)
    requires PlainSummary(ParseFields(output).summary)
    ensures var f := ParseFields(output);
      DisplayFields(ParseOllamaOutput(output))
        == Ok(Shown(Strip("Summary: " + f.summary), Title(Strip(f.sentiment)), Strip(f.tags)))
  {
    ParseOllamaOutputIs(output);
    CanonicalRoundTrip(ParseFields(output));
  }

  /** The table row the dashboard shows for an article whose normalised summary reads back. */
  function ExpectedRow(a: Article, f: Fields): DisplayRecord {
    DisplayRecord(a.title, a.link, a.published, Strip("Summary: " + f.summary),
                  Title(Strip(f.sentiment)), Strip(f.tags), a.scrapedAt)
  }

  /** One article through both halves: a record storing the article's normalised summary reads back as its expected row. */
  lemma RecordRoundTrip(rec: Record, a: Article, generate: string -> string)
    requires Stores(rec, a, SummarizeArticle(a, generate))
    requires PlainSummary(ParseFields(generate(Prompt(a))).summary)
    ensures ToDisplay(rec) == Ok(ExpectedRow(a, ParseFields(generate(Prompt(a)))))
  {
    var output := generate(Prompt(a));
    ProducerConsumerAgreement(output);
    assert SummarizeArticle(a, generate) == ParseOllamaOutput(output);
    assert Get(rec, "summary", "") == ParseOllamaOutput(output);
  }

  /**
   * The whole pipeline: when no article's normalised summary has a field-like
   * line, loading what `summarize_articles` stored succeeds with one row per
   * article, in order, each carrying the article's title, link, publication
   * date and scrape time and the summary, sentiment and tags the normaliser
   * wrote.
   */
  lemma PipelineAgreement(articles: seq<Article>, generate: string -> string)
    requires forall i :: 0 <= i < |articles| ==> PlainSummary(ParseFields(generate(Prompt(articles[i]))).summary)
    ensures var loaded := LoadSummaries(SummarizeArticles(articles, generate));
      && loaded.Ok? && |loaded.value| == |articles|
      && forall i :: 0 <= i < |articles| ==>
           loaded.value[i] == ExpectedRow(articles[i], ParseFields(generate(Prompt(articles[i]))))
  {
    var stored := SummarizeArticles(articles, generate);
    StoredRowsRead(articles, generate, stored);
    LoadedRows(articles, generate, stored);
  }

  /** Every record `summarize_articles` stored reads back as its article's expected row. */
  lemma StoredRowsRead(articles: seq<Article>, generate: string -> string, stored: seq<Record>)
    requires forall i :: 0 <= i < |articles| ==> PlainSummary(ParseFields(generate(Prompt(articles[i]))).summary)
    requires |stored| == |articles|
    requires forall i :: 0 <= i < |stored| ==> Stores(stored[i], articles[i], SummarizeArticle(articles[i], generate))
    ensures forall i :: 0 <= i < |stored| ==>
      ToDisplay(stored[i]) == Ok(ExpectedRow(articles[i], ParseFields(generate(Prompt(articles[i])))))
  {
    forall i | 0 <= i < |stored|
      ensures ToDisplay(stored[i]) == Ok(ExpectedRow(articles[i], ParseFields(generate(Prompt(articles[i])))))
    {
      RecordRoundTrip(stored[i], articles[i], generate);
    }
  }

  /** Records that each read back as their article's expected row load as those rows, in order. */
  lemma LoadedRows(articles: seq<Article>, generate: string -> string, stored: seq<Record>)
    requires |stored| == |articles|
    requires forall i :: 0 <= i < |stored| ==>
      ToDisplay(stored[i]) == Ok(ExpectedRow(articles[i], ParseFields(generate(Prompt(articles[i])))))
    ensures var loaded := LoadSummaries(stored);
      && loaded.Ok? && |loaded.value| == |articles|
      && forall i :: 0 <= i < |articles| ==>
           loaded.value[i] == ExpectedRow(articles[i], ParseFields(generate(Prompt(articles[i]))))
  {
    var rows := seq(|articles|, i requires 0 <= i < |articles| =>
                      ExpectedRow(articles[i], ParseFields(generate(Prompt(articles[i])))));
    LoadSummariesRows(stored, rows);
  }

  /**
   * Canonical text with a one-line summary and already-stripped values: the
   * dashboard shows the labelled summary, the title-cased sentiment and the
   * tags as written.
   */
  lemma CleanCanonicalShown(f: Fields)
    requires f.summary != [] && Stripped(f.summary) && '\n' !in f.summary
    requires Stripped(f.sentiment) && '\n' !in f.sentiment
    requires Stripped(f.tags) && '\n' !in f.tags
    ensures DisplayFields(Serialize(f)) == Ok(Shown("Summary: " + f.summary, Title(f.sentiment), f.tags))
  {
    OneLineSummaryPlain(f.summary);
    CanonicalRoundTrip(f);
    BodyKeepsLabel(f.summary);
    StripStripped(f.sentiment);
    StripStripped(f.tags);
  }

  /** The dashboard's view of the canonical text for well-formed backend output. */
  lemma MarketsShown(stored: string)
    requires stored == "Summary: " + "Markets rallied today." + "\nSentiment: " + "Positive" + "\nTags: " + "Economy, Markets"
    ensures DisplayFields(stored) == Ok(Shown("Summary: " + "Markets rallied today.", "Positive", "Economy, Markets"))
  {
    var f := Fields("Markets rallied today.", "Positive", "Economy, Markets");
    assert stored == Serialize(f);
    MarketsWords(f.summary, f.sentiment, f.tags);
    CleanCanonicalShown(f);
    PositiveTitled(f.sentiment);
  }

  lemma PositiveTitled(w: string)
    requires w == "Positive"
    ensures Title(w) == w
  {
    assert w == ['P'] + "ositive";
    TitleOfWord('P', "ositive");
  }
}
