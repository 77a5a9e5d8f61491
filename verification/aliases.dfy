/**
 * What `parse_ollama_output` extracts from output laid out the way the
 * prompt asks for: a summary line, a sentiment line and a tags line, each
 * introduced by one of its labels in any casing (`Labelled`). The summary
 * text holds no sentiment or tags label and the sentiment text no tags
 * label. For such output the result depends only on the text after the
 * labels, so every alias and every casing of a label gives the same
 * canonical summary.
 */
module Aliases {
  import opened Results
  import opened Text
  import opened Labels
  import opened Summarizer

  /** The normaliser's labels each end with their only colon and hold no line break. */
  lemma LabelsWellShaped()
    ensures WellShaped("summary:")
    ensures AllWellShaped(SummaryLabels) && AllWellShaped(SentimentLabels) && AllWellShaped(TagsLabels)
  {
    assert WellShaped(SentimentLabels[0]) && WellShaped(SentimentLabels[1]);
    assert WellShaped(TagsLabels[0]) && WellShaped(TagsLabels[1]);
  }

  /** No sentiment or tags alias ends the summary label. */
  lemma SummaryLabelEndsNoOther()
    ensures NoneEnds("summary:", SentimentLabels) && NoneEnds("summary:", TagsLabels)
  {
    assert "summary:"[8 - 5..] == "mary:";
  }

  /** No tags alias ends a sentiment alias. */
  lemma SentimentLabelsEndNoTags()
    ensures forall a :: 0 <= a < |SentimentLabels| ==> NoneEnds(SentimentLabels[a], TagsLabels)
  {
    assert "sentiment:"[10 - 5..] == "ment:";
    assert "overall sentiment:"[18 - 5..] == "ment:";
    assert "overall sentiment:"[18 - 11..] == " sentiment:";
  }

  /** Model output with a summary line, a sentiment line and a tags line, each label written as the backend chose. */
  function Layout(sm: string, x: string, sl: string, y: string, tl: string, z: string): string {
    sm + x + "\n" + sl + y + "\n" + tl + z
  }

  /**
   * The labels are a summary label, a sentiment alias and a tags alias in
   * some casing, and the texts after them hold no label that would end the
   * region early.
   */
  predicate Labelled(sm: string, x: string, sl: string, y: string, tl: string) {
    && Lower(sm) == "summary:"
    && Lower(sl) in SentimentLabels
    && Lower(tl) in TagsLabels
    && !Occurs(x, SentimentLabels) && !Occurs(x, TagsLabels)
    && !Occurs(y, TagsLabels)
  }

  /** Where each piece of a layout sits: `p1` and `p2` are where the sentiment and tags labels start. */
  lemma LayoutSlices(sm: string, x: string, sl: string, y: string, tl: string, z: string, s: string, p1: nat, p2: nat)
    requires s == Layout(sm, x, sl, y, tl, z)
    requires p1 == |sm| + |x| + 1 && p2 == p1 + |sl| + |y| + 1
    ensures |s| == p2 + |tl| + |z|
    ensures IsSliceAt(s, 0, sm) && IsSliceAt(s, |sm|, x) && s[p1 - 1] == '\n'
    ensures IsSliceAt(s, p1, sl) && IsSliceAt(s, p1 + |sl|, y) && s[p2 - 1] == '\n'
    ensures IsSliceAt(s, p2, tl) && s[p2 + |tl|..] == z
    ensures s[|sm|..p1] == x + "\n" && s[p1 + |sl|..p2] == y + "\n"
  {
    LayoutHead(sm, x, sl, y, tl, z, s);
    LayoutSentiment(sm, x, sl, y, tl, z, s, p1);
    LayoutTags(sm, x, sl, y, tl, z, s, p2);
    SliceWithBreak(s, |sm|, x, p1);
    SliceWithBreak(s, p1 + |sl|, y, p2);
  }

  /** The summary label and its text open a layout. */
  lemma LayoutHead(sm: string, x: string, sl: string, y: string, tl: string, z: string, s: string)
    requires s == Layout(sm, x, sl, y, tl, z)
    ensures IsSliceAt(s, 0, sm) && IsSliceAt(s, |sm|, x + "\n")
  {
    var rest := sl + y + "\n" + tl + z;
    assert s == [] + sm + ((x + "\n") + rest);
    PieceAt(s, [], sm, (x + "\n") + rest);
    assert s == sm + (x + "\n") + rest;
    PieceAt(s, sm, x + "\n", rest);
  }

  /** The sentiment label and its text follow the summary line. */
  lemma LayoutSentiment(sm: string, x: string, sl: string, y: string, tl: string, z: string, s: string, p1: nat)
    requires s == Layout(sm, x, sl, y, tl, z) && p1 == |sm| + |x| + 1
    ensures IsSliceAt(s, p1, sl) && IsSliceAt(s, p1 + |sl|, y + "\n")
  {
    var front := sm + x + "\n";
    var rest := tl + z;
    assert s == front + sl + ((y + "\n") + rest);
    PieceAt(s, front, sl, (y + "\n") + rest);
    assert s == (front + sl) + (y + "\n") + rest;
    PieceAt(s, front + sl, y + "\n", rest);
  }

  /** The tags label and its text close a layout. */
  lemma LayoutTags(sm: string, x: string, sl: string, y: string, tl: string, z: string, s: string, p2: nat)
    requires s == Layout(sm, x, sl, y, tl, z) && p2 == |sm| + |x| + 1 + |sl| + |y| + 1
    ensures IsSliceAt(s, p2, tl) && IsSliceAt(s, p2 + |tl|, z) && |s| == p2 + |tl| + |z|
    ensures s[p2 + |tl|..] == z
  {
    var front := sm + x + "\n" + sl + y + "\n";
    assert s == front + tl + (z + []);
    PieceAt(s, front, tl, z + []);
    assert s == (front + tl) + z + [];
    PieceAt(s, front + tl, z, []);
    SliceAtEnd(s, p2 + |tl|, z);
  }

  /** The sentiment text and its line break sit between the sentiment label and the tags label. */
  lemma SentimentSlice(sm: string, x: string, sl: string, y: string, tl: string, z: string, s: string, start: nat, p2: nat)
    requires s == Layout(sm, x, sl, y, tl, z)
    requires start == |sm| + |x| + 1 + |sl| && p2 == start + |y| + 1
    ensures p2 <= |s| && s[start..p2] == y + "\n"
  {
    assert s == (sm + x + "\n" + sl) + (y + "\n") + (tl + z);
  }

  /** The summary group is the text after the summary label up to and including the line break. */
  lemma SummaryCapture(sm: string, x: string, sl: string, y: string, tl: string, z: string)
    requires Labelled(sm, x, sl, y, tl)
    ensures SearchLazy(Layout(sm, x, sl, y, tl, z), SummaryLabels, SentimentLabels) == Some(x + "\n")
  {
    var s := Layout(sm, x, sl, y, tl, z);
    var p1 := |sm| + |x| + 1;
    var p2 := p1 + |sl| + |y| + 1;
    LayoutSlices(sm, x, sl, y, tl, z, s, p1, p2);
    LabelsWellShaped();
    CopyMatches(s, 0, sm);
    FindLabelIs(s, SummaryLabels, 0, Hit(0, 0));
    CopyMatches(s, p1, sl);
    assert AnyAt(s, p1, SentimentLabels);
    NoHitBeforeBreak(s, |sm|, x, SentimentLabels);
    LazyEndIs(s, SentimentLabels, |sm|, p1);
  }

  /** The sentiment search stops at the sentiment label (at `p1`), with the alias written there. */
  lemma SentimentHit(sm: string, x: string, sl: string, y: string, tl: string, z: string, s: string, p1: nat, a: nat)
    requires Labelled(sm, x, sl, y, tl)
    requires s == Layout(sm, x, sl, y, tl, z) && p1 == |sm| + |x| + 1
    requires a < |SentimentLabels| && SentimentLabels[a] == Lower(sl)
    ensures FindLabel(s, SentimentLabels, 0) == Some(Hit(p1, a))
  {
    LayoutSentiment(sm, x, sl, y, tl, z, s, p1);
    SentimentAliasAt(s, p1, sl, a);
    LabelsWellShaped();
    SummaryLabelEndsNoOther();
    SummaryLineNoHit(sm, x, sl, y, tl, z, s, p1, SentimentLabels);
    HitAfterGaps(s, SentimentLabels, p1, p1, a);
  }

  /** A sentiment label written at `p` matches its own alias and no alias listed before it. */
  lemma SentimentAliasAt(s: string, p: nat, sl: string, a: nat)
    requires IsSliceAt(s, p, sl) && a < |SentimentLabels| && SentimentLabels[a] == Lower(sl)
    ensures MatchesAt(s, p, SentimentLabels[a])
    ensures forall m :: 0 <= m < a ==> !MatchesAt(s, p, SentimentLabels[m])
  {
    CopyMatches(s, p, sl);
    if a == 1 {
      DifferentAliases(s, p, SentimentLabels[1], SentimentLabels[0], 0);
    }
  }

  /** No alias whose start is not inside `summary:` starts on the summary line. */
  lemma SummaryLineNoHit(sm: string, x: string, sl: string, y: string, tl: string, z: string, s: string, p1: nat, aliases: seq<string>)
    requires s == Layout(sm, x, sl, y, tl, z) && p1 == |sm| + |x| + 1
    requires Lower(sm) == "summary:" && !Occurs(x, aliases)
    requires AllWellShaped(aliases) && NoneEnds("summary:", aliases)
    ensures forall j :: 0 <= j < p1 ==> !AnyAt(s, j, aliases)
  {
    LayoutHead(sm, x, sl, y, tl, z, s);
    SliceWithBreak(s, |sm|, x, p1);
    CopyMatches(s, 0, sm);
    LabelsWellShaped();
    NoHitInsideLabel(s, 0, "summary:", aliases);
    NoHitBeforeBreak(s, |sm|, x, aliases);
  }

  /** No tags alias starts on the sentiment line. */
  lemma SentimentLineNoTags(sm: string, x: string, sl: string, y: string, tl: string, z: string, s: string, p1: nat, p2: nat)
    requires s == Layout(sm, x, sl, y, tl, z)
    requires p1 == |sm| + |x| + 1 && p2 == p1 + |sl| + |y| + 1
    requires Lower(sl) in SentimentLabels && !Occurs(y, TagsLabels)
    ensures forall j :: p1 <= j < p2 ==> !AnyAt(s, j, TagsLabels)
  {
    LayoutSentiment(sm, x, sl, y, tl, z, s, p1);
    SliceWithBreak(s, p1 + |sl|, y, p2);
    CopyMatches(s, p1, sl);
    LabelsWellShaped();
    var a :| 0 <= a < |SentimentLabels| && SentimentLabels[a] == Lower(sl);
    SentimentLabelsEndNoTags();
    NoHitInsideLabel(s, p1, SentimentLabels[a], TagsLabels);
    NoHitBeforeBreak(s, p1 + |sl|, y, TagsLabels);
  }

  /** The lazy sentiment group, opening at `start`, stops at the tags label (at `p2`). */
  lemma SentimentEnd(sm: string, x: string, sl: string, y: string, tl: string, z: string, s: string, start: nat, p2: nat)
    requires Labelled(sm, x, sl, y, tl)
    requires s == Layout(sm, x, sl, y, tl, z)
    requires start == |sm| + |x| + 1 + |sl| && p2 == start + |y| + 1
    ensures LazyEnd(s, TagsLabels, start) == p2
  {
    var b :| 0 <= b < |TagsLabels| && TagsLabels[b] == Lower(tl);
    LayoutSentiment(sm, x, sl, y, tl, z, s, start - |sl|);
    SliceWithBreak(s, start, y, p2);
    LayoutTags(sm, x, sl, y, tl, z, s, p2);
    TagsAliasAt(s, p2, tl, b);
    LabelsWellShaped();
    NoHitBeforeBreak(s, start, y, TagsLabels);
    LazyEndAtCloser(s, TagsLabels, start, p2, b);
  }

  /** The sentiment group is the text after the sentiment label up to and including its line break. */
  lemma SentimentCapture(sm: string, x: string, sl: string, y: string, tl: string, z: string)
    requires Labelled(sm, x, sl, y, tl)
    ensures SearchLazy(Layout(sm, x, sl, y, tl, z), SentimentLabels, TagsLabels) == Some(y + "\n")
  {
    var s := Layout(sm, x, sl, y, tl, z);
    var p1 := |sm| + |x| + 1;
    var start := p1 + |sl|;
    var p2 := start + |y| + 1;
    var a :| 0 <= a < |SentimentLabels| && SentimentLabels[a] == Lower(sl);
    SentimentHit(sm, x, sl, y, tl, z, s, p1, a);
    SentimentEnd(sm, x, sl, y, tl, z, s, start, p2);
    SentimentSlice(sm, x, sl, y, tl, z, s, start, p2);
    SearchLazyGives(s, SentimentLabels, TagsLabels, Hit(p1, a), start, p2, y + "\n");
  }

  /** The tags search stops at the tags label (at `p2`), with the alias written there. */
  lemma TagsHit(sm: string, x: string, sl: string, y: string, tl: string, z: string, s: string, p2: nat, b: nat)
    requires Labelled(sm, x, sl, y, tl)
    requires s == Layout(sm, x, sl, y, tl, z) && p2 == |sm| + |x| + 1 + |sl| + |y| + 1
    requires b < |TagsLabels| && TagsLabels[b] == Lower(tl)
    ensures FindLabel(s, TagsLabels, 0) == Some(Hit(p2, b))
  {
    var p1 := |sm| + |x| + 1;
    LayoutTags(sm, x, sl, y, tl, z, s, p2);
    TagsAliasAt(s, p2, tl, b);
    LabelsWellShaped();
    SummaryLabelEndsNoOther();
    SummaryLineNoHit(sm, x, sl, y, tl, z, s, p1, TagsLabels);
    SentimentLineNoTags(sm, x, sl, y, tl, z, s, p1, p2);
    HitAfterGaps(s, TagsLabels, p1, p2, b);
  }

  /** A tags label written at `p` matches its own alias and no alias listed before it. */
  lemma TagsAliasAt(s: string, p: nat, tl: string, b: nat)
    requires IsSliceAt(s, p, tl) && b < |TagsLabels| && TagsLabels[b] == Lower(tl)
    ensures MatchesAt(s, p, TagsLabels[b])
    ensures forall m :: 0 <= m < b ==> !MatchesAt(s, p, TagsLabels[m])
  {
    CopyMatches(s, p, tl);
    if b == 1 {
      DifferentAliases(s, p, TagsLabels[1], TagsLabels[0], 1);
    }
  }

  /** The tags group is everything after the tags label. */
  lemma TagsCapture(sm: string, x: string, sl: string, y: string, tl: string, z: string)
    requires Labelled(sm, x, sl, y, tl)
    ensures SearchGreedy(Layout(sm, x, sl, y, tl, z), TagsLabels) == Some(z)
  {
    var s := Layout(sm, x, sl, y, tl, z);
    var p2 := |sm| + |x| + 1 + |sl| + |y| + 1;
    var b :| 0 <= b < |TagsLabels| && TagsLabels[b] == Lower(tl);
    TagsHit(sm, x, sl, y, tl, z, s, p2, b);
    LayoutTags(sm, x, sl, y, tl, z, s, p2);
    assert |TagsLabels[b]| == |tl|;
    SearchGreedyGives(s, TagsLabels, Hit(p2, b), p2 + |tl|, z);
  }

  /**
   * The fields of laid-out output: the stripped summary text, and the first
   * line of the stripped sentiment and tags texts, or their defaults when blank.
   */
  lemma StructuredOutput(sm: string, x: string, sl: string, y: string, tl: string, z: string)
    requires Labelled(sm, x, sl, y, tl)
    ensures ParseFields(Layout(sm, x, sl, y, tl, z))
         == Fields(Strip(x), FirstLineOr(Strip(y), DefaultSentiment), FirstLineOr(Strip(z), DefaultTags))
  {
    SummaryCapture(sm, x, sl, y, tl, z);
    SentimentCapture(sm, x, sl, y, tl, z);
    TagsCapture(sm, x, sl, y, tl, z);
    ParseFieldsFound(Layout(sm, x, sl, y, tl, z), x + "\n", y + "\n", z);
    NewlineDropped(x);
    NewlineDropped(y);
  }

  /** A trailing line break does not survive `strip()`. */
  lemma NewlineDropped(x: string)
    ensures Strip(x + "\n") == Strip(x)
  {
    assert AllSpace("") && AllSpace("\n");
    assert "" + x + "\n" == x + "\n";
    StripPadded("", x, "\n");
  }

  /** Which alias and which casing introduce each field makes no difference to the canonical text. */
  lemma AliasesAgree(sm: string, sl: string, tl: string, sm': string, sl': string, tl': string,
                     x: string, y: string, z: string)
    requires Labelled(sm, x, sl, y, tl) && Labelled(sm', x, sl', y, tl')
    ensures ParseOllamaOutput(Layout(sm, x, sl, y, tl, z)) == ParseOllamaOutput(Layout(sm', x, sl', y, tl', z))
  {
    StructuredOutput(sm, x, sl, y, tl, z);
    StructuredOutput(sm', x, sl', y, tl', z);
  }

  /** The labels as the prompt's reader would write them, in title case. */
  lemma TitleCaseLabels()
    ensures Lower("Summary:") == "summary:"
    ensures Lower("Sentiment:") == SentimentLabels[0]
    ensures Lower("Overall Sentiment:") == SentimentLabels[1]
    ensures Lower("Tags:") == TagsLabels[0]
    ensures Lower("Topic Tags:") == TagsLabels[1]
  {
  }

  /**
   * `Overall Sentiment:` and `Topic Tags:` give the same canonical text as
   * `Sentiment:` and `Tags:` (each input written as its three lines joined
   * by line breaks).
   */
  lemma AliasExample(long: string, short: string)
    requires long == "Summary: X" + "\n" + "Overall Sentiment: Positive" + "\n" + "Topic Tags: AI"
    requires short == "Summary: X" + "\n" + "Sentiment: Positive" + "\n" + "Tags: AI"
    ensures ParseOllamaOutput(long) == ParseOllamaOutput(short)
  {
    assert "Summary: X" == "Summary:" + " X";
    assert "Overall Sentiment: Positive" == "Overall Sentiment:" + " Positive";
    assert "Sentiment: Positive" == "Sentiment:" + " Positive";
    assert "Topic Tags: AI" == "Topic Tags:" + " AI";
    assert "Tags: AI" == "Tags:" + " AI";
    assert long == Layout("Summary:", " X", "Overall Sentiment:", " Positive", "Topic Tags:", " AI");
    assert short == Layout("Summary:", " X", "Sentiment:", " Positive", "Tags:", " AI");
    LabelsWellShaped();
    TitleCaseLabels();
    ColonFreeLabelFree(" X", SentimentLabels);
    ColonFreeLabelFree(" X", TagsLabels);
    ColonFreeLabelFree(" Positive", TagsLabels);
    AliasesAgree("Summary:", "Overall Sentiment:", "Topic Tags:", "Summary:", "Sentiment:", "Tags:",
                 " X", " Positive", " AI");
  }

  /** Output with no colon at all holds no label: the summary is the whole output stripped, and both defaults apply. */
  lemma NoLabels(s: string)
    requires ':' !in s
    ensures ParseFields(s) == Fields(Strip(s), DefaultSentiment, DefaultTags)
  {
    LabelsWellShaped();
    ColonFreeLabelFree(s, SummaryLabels);
    ColonFreeLabelFree(s, SentimentLabels);
    ColonFreeLabelFree(s, TagsLabels);
  }

  /** Free text without labels becomes a summary with the default sentiment and tags. */
  lemma FreeTextExample(s: string)
    requires s == "just some free text"
    ensures ParseOllamaOutput(s) == "Summary: " + s + "\nSentiment: " + "Unknown" + "\nTags: " + "None"
  {
    NoLabels(s);
    StripStripped(s);
    ParseOllamaOutputIs(s);
  }

  /**
   * Output holding only a sentiment label and colon-free text after it: the
   * sentiment is the first line of the stripped text, which may end in blanks.
   */
  lemma SentimentOnly(sl: string, y: string)
    requires Lower(sl) in SentimentLabels && ':' !in y
    requires y == [] || y[|y| - 1] != '\n'
    ensures SentimentOf(sl + y) == FirstLineOr(Strip(y), DefaultSentiment)
  {
    SentimentOnlyGroup(sl, y);
    SentimentFound(sl + y, y);
  }

  /** With only a sentiment label, the sentiment group runs to the end. */
  lemma SentimentOnlyGroup(sl: string, y: string)
    requires Lower(sl) in SentimentLabels && ':' !in y
    requires y == [] || y[|y| - 1] != '\n'
    ensures SearchLazy(sl + y, SentimentLabels, TagsLabels) == Some(y)
  {
    var s := sl + y;
    var a :| 0 <= a < |SentimentLabels| && SentimentLabels[a] == Lower(sl);
    LeadingSentimentHit(sl, y, a);
    TrailingTextEnd(sl, y);
    assert |SentimentLabels[a]| == |sl|;
    SearchLazyIs(s, SentimentLabels, TagsLabels, Hit(0, a), |sl|);
    assert s[|sl|..|s|] == y;
  }

  /** A sentiment label at the very start is where the sentiment search stops. */
  lemma LeadingSentimentHit(sl: string, y: string, a: nat)
    requires a < |SentimentLabels| && SentimentLabels[a] == Lower(sl)
    ensures FindLabel(sl + y, SentimentLabels, 0) == Some(Hit(0, a))
  {
    var s := sl + y;
    assert IsSliceAt(s, 0, sl);
    SentimentAliasAt(s, 0, sl, a);
    FindLabelIs(s, SentimentLabels, 0, Hit(0, a));
  }

  /** Colon-free text that does not end in a line break holds no closer, so a lazy group over it runs to the end. */
  lemma TrailingTextEnd(sl: string, y: string)
    requires ':' !in y && (y == [] || y[|y| - 1] != '\n')
    ensures LazyEnd(sl + y, TagsLabels, |sl|) == |sl + y|
  {
    var s := sl + y;
    assert s[|sl|..] == y;
    LabelsWellShaped();
    NoHitWithoutColon(s, |sl|, TagsLabels);
    assert y != [] ==> s[|s| - 1] == y[|y| - 1];
    LazyEndIs(s, TagsLabels, |sl|, |s|);
  }

  /** A sentiment running over two lines keeps only its first. */
  lemma SentimentFirstLine(sl: string, a: string, b: string)
    requires Lower(sl) in SentimentLabels
    requires a != [] && '\n' !in a && ':' !in a && !IsSpace(a[0])
    requires b != [] && ':' !in b && !IsSpace(b[|b| - 1]) && b[|b| - 1] != '\n'
    ensures SentimentOf(sl + (" " + a + "\n" + b)) == a
  {
    var v := a + "\n" + b;
    var y := " " + v;
    assert y == " " + a + "\n" + b;
    assert ':' !in y && y[|y| - 1] == b[|b| - 1];
    SentimentOnly(sl, y);
    LeadingBlankDropped(v);
    StrippedLines(a, b);
    StripStripped(v);
    FirstLineOfTwo(a, b, DefaultSentiment);
  }

  /** `Sentiment: Positive` followed by a line of commentary gives `Positive`. */
  lemma FirstLineExample(s: string)
    requires s == "Sentiment:" + (" " + "Positive" + "\n" + "Extra commentary")
    ensures SentimentOf(s) == "Positive"
  {
    TitleCaseLabels();
    CommentaryWords("Positive", "Extra commentary");
    SentimentFirstLine("Sentiment:", "Positive", "Extra commentary");
  }

  /** The two lines of the commentary example meet the needs of `SentimentFirstLine`. */
  lemma CommentaryWords(a: string, b: string)
    requires a == "Positive" && b == "Extra commentary"
    ensures a != [] && '\n' !in a && ':' !in a && !IsSpace(a[0])
    ensures b != [] && ':' !in b && !IsSpace(b[|b| - 1]) && b[|b| - 1] != '\n'
  {
  }

  /** Two lines whose outer ends are not blank make a stripped text. */
  lemma StrippedLines(a: string, b: string)
    requires a != [] && b != [] && !IsSpace(a[0]) && !IsSpace(b[|b| - 1])
    ensures Stripped(a + "\n" + b)
  {
    var v := a + "\n" + b;
    assert v[0] == a[0] && v[|v| - 1] == b[|b| - 1];
  }

  /** The first line of two lines is the first. */
  lemma FirstLineOfTwo(a: string, b: string, default: string)
    requires '\n' !in a
    ensures FirstLineOr(a + "\n" + b, default) == a
  {
    var v := a + "\n" + b;
    assert v[..|a|] == a;
    IndexOfFirst(v, '\n', |a|);
  }

  /**
   * Canonical text reads back as the fields it was written from, when the
   * summary holds no sentiment or tags label, the sentiment holds no tags
   * label, and every field is already stripped and non-blank where a default
   * would otherwise replace it.
   */
  lemma CanonicalReparse(f: Fields)
    requires Stripped(f.summary) && !Occurs(f.summary, SentimentLabels) && !Occurs(f.summary, TagsLabels)
    requires f.sentiment != [] && Stripped(f.sentiment) && '\n' !in f.sentiment && !Occurs(f.sentiment, TagsLabels)
    requires f.tags != [] && Stripped(f.tags) && '\n' !in f.tags
    ensures ParseFields(Serialize(f)) == f
  {
    var x, y, z := " " + f.summary, " " + f.sentiment, " " + f.tags;
    CanonicalLayout(f);
    CanonicalLabelled(f);
    StructuredOutput("Summary:", x, "Sentiment:", y, "Tags:", z);
    CanonicalValues(f);
  }

  /** Canonical text is a layout with the title-case labels, each followed by a blank and its field. */
  lemma CanonicalLayout(f: Fields)
    ensures Serialize(f) == Layout("Summary:", " " + f.summary, "Sentiment:", " " + f.sentiment, "Tags:", " " + f.tags)
  {
    assert "Summary: " == "Summary:" + " ";
    assert "\nSentiment: " == "\n" + "Sentiment:" + " ";
    assert "\nTags: " == "\n" + "Tags:" + " ";
    Regroup("Summary:", " ", f.summary, "Sentiment:", f.sentiment, "Tags:", f.tags);
  }

  /** The blank after each label can be read as the start of the text that follows it. */
  lemma Regroup(sm: string, b: string, x: string, sl: string, y: string, tl: string, z: string)
    ensures (sm + b) + x + ("\n" + sl + b) + y + ("\n" + tl + b) + z == Layout(sm, b + x, sl, b + y, tl, b + z)
  {
  }

  /** Label-free fields behind their blanks keep the layout's labels the only ones. */
  lemma CanonicalLabelled(f: Fields)
    requires !Occurs(f.summary, SentimentLabels) && !Occurs(f.summary, TagsLabels) && !Occurs(f.sentiment, TagsLabels)
    ensures Labelled("Summary:", " " + f.summary, "Sentiment:", " " + f.sentiment, "Tags:")
  {
    TitleCaseLabels();
    assert SentimentLabels[0][0] == 's' && SentimentLabels[1][0] == 'o';
    assert TagsLabels[0][0] == 't' && TagsLabels[1][0] == 't';
    BlankAddsNoLabel(f.summary, SentimentLabels);
    BlankAddsNoLabel(f.summary, TagsLabels);
    BlankAddsNoLabel(f.sentiment, TagsLabels);
  }

  /** Stripped fields behind a blank read back as themselves. */
  lemma CanonicalValues(f: Fields)
    requires Stripped(f.summary)
    requires f.sentiment != [] && Stripped(f.sentiment) && '\n' !in f.sentiment
    requires f.tags != [] && Stripped(f.tags) && '\n' !in f.tags
    ensures Strip(" " + f.summary) == f.summary
    ensures FirstLineOr(Strip(" " + f.sentiment), DefaultSentiment) == f.sentiment
    ensures FirstLineOr(Strip(" " + f.tags), DefaultTags) == f.tags
  {
    LeadingBlankDropped(f.summary);
    StripStripped(f.summary);
    PlainWord(f.sentiment);
    PlainWord(f.tags);
  }

  /** Well-formed backend output: each label's text is read back stripped. */
  lemma MarketsFields(output: string)
    requires output == "Summary: " + "Markets rallied today." + "\nSentiment: " + "Positive" + "\nTags: " + "Economy, Markets"
    ensures ParseFields(output) == Fields("Markets rallied today.", "Positive", "Economy, Markets")
  {
    var f := Fields("Markets rallied today.", "Positive", "Economy, Markets");
    assert output == Serialize(f);
    MarketsWords(f.summary, f.sentiment, f.tags);
    LabelsWellShaped();
    ColonFreeLabelFree(f.summary, SentimentLabels);
    ColonFreeLabelFree(f.summary, TagsLabels);
    ColonFreeLabelFree(f.sentiment, TagsLabels);
    CanonicalReparse(f);
  }

  lemma MarketsWords(x: string, y: string, z: string)
    requires x == "Markets rallied today." && y == "Positive" && z == "Economy, Markets"
    ensures x != [] && Stripped(x) && '\n' !in x && ':' !in x
    ensures y != [] && Stripped(y) && '\n' !in y && ':' !in y
    ensures z != [] && Stripped(z) && '\n' !in z
  {
  }

  /** A stripped single-line text after a blank: stripping gives it back and its first line is itself. */
  lemma PlainWord(w: string)
    requires w != [] && Stripped(w) && '\n' !in w
    ensures Strip(" " + w) == w
    ensures FirstLineOr(w, DefaultSentiment) == w && FirstLineOr(w, DefaultTags) == w
  {
    LeadingBlankDropped(w);
    StripStripped(w);
    assert w[..|w|] == w;
  }
}
