/**
 * The consumer side (dashboard.py, `load_summaries`): re-reading a stored
 * summary text into the body, sentiment and tags shown for each article,
 * and defaulting the record's missing fields.
 */
module Dashboard {
  import opened Results
  import opened Text
  import opened Labels
  import opened Records

  /** Line starts (lower-case, no colon) that mark a sentiment line. */
  const SentimentPrefixes: seq<string> := ["sentiment", "overall sentiment"]

  /** Line starts (lower-case, no colon) that mark a tags line. */
  const TagsPrefixes: seq<string> := ["tags", "topic tags"]

  const NoTitle: string := "No Title"
  const UnknownSentiment: string := "Unknown"
  const NoTags: string := "None"

  /** `l.lower().startswith(p)` for one of the prefixes. */
  predicate StartsWithAny(l: string, prefixes: seq<string>) {
    AnyAt(l, 0, prefixes)
  }

  predicate IsSentimentLine(l: string) { StartsWithAny(l, SentimentPrefixes) }
  predicate IsTagsLine(l: string) { StartsWithAny(l, TagsPrefixes) }

  /** A line the body leaves out. */
  predicate IsFieldLine(l: string) { IsSentimentLine(l) || IsTagsLine(l) }

  /** The body's list comprehension: the lines that are neither sentiment nor tags lines. */
  function BodyLines(lines: seq<string>): (r: seq<string>)
    ensures |r| <= |lines|
    decreases |lines|
  {
    if lines == [] then []
    else (if IsFieldLine(lines[0]) then [] else [lines[0]]) + BodyLines(lines[1..])
  }

  /** The body holds exactly the lines that are not field lines. */
  lemma {:induction false} BodyLinesMembers(lines: seq<string>)
    ensures forall l :: l in BodyLines(lines) <==> l in lines && !IsFieldLine(l)
    decreases |lines|
  {
    if lines != [] {
      BodyLinesMembers(lines[1..]);
      assert lines == [lines[0]] + lines[1..];
    }
  }

  /** The filter keeps the order of lines: it works piece by piece. */
  lemma {:induction false} BodyLinesAppend(a: seq<string>, b: seq<string>)
    ensures BodyLines(a + b) == BodyLines(a) + BodyLines(b)
    decreases |a|
  {
    if a != [] {
      assert (a + b)[1..] == a[1..] + b;
      BodyLinesAppend(a[1..], b);
    } else {
      assert a + b == b;
    }
  }

  /** Lines that are not field lines all stay, in order. */
  lemma {:induction false} BodyLinesKeepsAll(lines: seq<string>)
    requires forall i :: 0 <= i < |lines| ==> !IsFieldLine(lines[i])
    ensures BodyLines(lines) == lines
    decreases |lines|
  {
    if lines != [] {
      BodyLinesKeepsAll(lines[1..]);
    }
  }

  /** Field lines all go. */
  lemma {:induction false} BodyLinesDropsAll(lines: seq<string>)
    requires forall i :: 0 <= i < |lines| ==> IsFieldLine(lines[i])
    ensures BodyLines(lines) == []
    decreases |lines|
  {
    if lines != [] {
      BodyLinesDropsAll(lines[1..]);
    }
  }

  /** A line starting with `Summary:` in any casing is never dropped: the body keeps it, label and all. */
  lemma SummaryLineKept(l: string)
    requires MatchesAt(l, 0, "summary:")
    ensures !IsFieldLine(l)
  {
    assert LowerChar(l[0]) == "summary:"[0] == 's';
    assert LowerChar(l[1]) == "summary:"[1] == 'u';
    assert SentimentPrefixes[0][1] == 'e' && SentimentPrefixes[1][0] == 'o';
    assert TagsPrefixes[0][0] == 't' && TagsPrefixes[1][0] == 't';
  }

  /** The `IndexError` that `l.split(":", 1)[1]` raises on a line without a colon. */
  datatype DashboardError = MissingColon(line: string)

  /** `l.split(":", 1)[1]`: the text after the first colon. */
  function AfterColon(l: string): (r: Result<string, DashboardError>)
    ensures r.Ok? <==> ':' in l
    ensures r.Err? ==> r.error == MissingColon(l)
    ensures r.Ok? ==> |r.value| < |l| && l == l[..|l| - |r.value| - 1] + ":" + r.value
    ensures r.Ok? ==> ':' !in l[..|l| - |r.value| - 1]
  {
    var n := IndexOf(l, ':');
    if n == |l| then Err(MissingColon(l))
    else
      assert l == l[..n] + ":" + l[n + 1..];
      Ok(l[n + 1..])
  }

  /** The stripped text after the first colon of a field line. */
  function FieldValue(l: string): (r: Result<string, DashboardError>)
    ensures r.Ok? <==> ':' in l
    ensures r.Err? ==> r.error == MissingColon(l)
    ensures r.Ok? ==> Stripped(r.value)
    ensures r.Ok? && '\n' !in l ==> '\n' !in r.value
    ensures r.Ok? ==> r.value == Strip(AfterColon(l).value)
  {
    match AfterColon(l)
    case Ok(v) =>
      assert '\n' !in l ==> '\n' !in Strip(v) by {
        if '\n' !in l {
          assert forall k :: 0 <= k < |v| ==> v[k] == l[|l| - |v| + k];
          StripKeepsOut(v, '\n');
        }
      }
      Ok(Strip(v))
    case Err(e) => Err(e)
  }

  /** A line made of a colon-free head, a colon and a value reads as that value, stripped. */
  lemma FieldValueOf(head: string, v: string)
    requires ':' !in head
    ensures FieldValue(head + ":" + v) == Ok(Strip(v))
  {
    var l := head + ":" + v;
    assert l[|head|] == ':';
    var a := AfterColon(l).value;
    var n := |l| - |a| - 1;
    assert ':' !in l[..n] && l == l[..n] + ":" + a;
    assert n == |head|;
    assert a == v;
  }

  /** Line `i` is the first line that starts with one of the prefixes. */
  predicate FirstMatchAt(lines: seq<string>, prefixes: seq<string>, i: nat) {
    && i < |lines|
    && StartsWithAny(lines[i], prefixes)
    && forall j :: 0 <= j < i ==> !StartsWithAny(lines[j], prefixes)
  }

  /** `next((l.split(":", 1)[1].strip() for l in lines if <prefix test>), default)` */
  function FirstValue(lines: seq<string>, prefixes: seq<string>, default: string): (r: Result<string, DashboardError>)
    ensures (forall i :: 0 <= i < |lines| ==> !StartsWithAny(lines[i], prefixes)) ==> r == Ok(default)
    ensures forall i :: 0 <= i < |lines| && FirstMatchAt(lines, prefixes, i) ==> r == FieldValue(lines[i])
    ensures r.Err? <==> !ColonAfterLabel(lines, prefixes)
    ensures r.Err? ==> exists i :: 0 <= i < |lines| && FirstMatchAt(lines, prefixes, i) && r.error == MissingColon(lines[i])
    ensures r.Ok? && SingleLines(lines) && '\n' !in default ==> '\n' !in r.value
    decreases |lines|
  {
    if lines == [] then Ok(default)
    else if StartsWithAny(lines[0], prefixes) then
      assert FirstMatchAt(lines, prefixes, 0);
      FieldValue(lines[0])
    else
      var r := FirstValue(lines[1..], prefixes, default);
      assert forall i :: 0 <= i < |lines| && FirstMatchAt(lines, prefixes, i) ==> i > 0 && FirstMatchAt(lines[1..], prefixes, i - 1);
      r
  }

  /** The generator raises on the first prefixed line when that line has no colon. */
  lemma FirstValueRaises(lines: seq<string>, prefixes: seq<string>, default: string)
    ensures forall i: nat :: FirstMatchAt(lines, prefixes, i) && ':' !in lines[i] ==>
      FirstValue(lines, prefixes, default) == Err(MissingColon(lines[i]))
  {
  }

  /** The first line with one of the prefixes, if there is one, has a colon: the condition under which the generator does not raise. */
  predicate ColonAfterLabel(lines: seq<string>, prefixes: seq<string>) {
    forall i :: 0 <= i < |lines| && FirstMatchAt(lines, prefixes, i) ==> ':' in lines[i]
  }

  /** The three fields shown for one summary text. */
  datatype Shown = Shown(body: string, sentiment: string, tags: string)

  /**
   * The per-record parsing of `load_summaries`: the body without sentiment and
   * tags lines, the title-cased first sentiment value and the first tags value.
   */
  function DisplayFields(summary: string): (r: Result<Shown, DashboardError>)
    ensures var lines := Lines(summary);
      r.Ok? <==> ColonAfterLabel(lines, SentimentPrefixes) && ColonAfterLabel(lines, TagsPrefixes)
    ensures var lines := Lines(summary);
      r.Err? ==> exists i :: (0 <= i < |lines| && ':' !in lines[i] && r.error == MissingColon(lines[i])
        && (FirstMatchAt(lines, SentimentPrefixes, i) || FirstMatchAt(lines, TagsPrefixes, i)))
    ensures var lines := Lines(summary);
      forall i: nat :: FirstMatchAt(lines, SentimentPrefixes, i) && ':' !in lines[i] ==> r == Err(MissingColon(lines[i]))
    ensures r.Ok? ==> Stripped(r.value.body) && '\n' !in r.value.tags
  {
    var lines := Lines(summary);
    var body := Join(BodyLines(lines));
    FirstValueRaises(lines, SentimentPrefixes, UnknownSentiment);
    match FirstValue(lines, SentimentPrefixes, UnknownSentiment)
    case Err(e) => Err(e)
    case Ok(sentiment) =>
      match FirstValue(lines, TagsPrefixes, NoTags)
      case Err(e) => Err(e)
      case Ok(tags) =>
        assert '\n' !in tags by {
          assert NoTags == ['N', 'o', 'n', 'e'];
        }
        Ok(Shown(Strip(body), Title(sentiment), tags))
  }

  /** When neither value raises, the shown fields are the stripped body, the title-cased sentiment and the tags. */
  lemma DisplayFieldsIs(summary: string, lines: seq<string>, body: string, sentiment: string, tags: string)
    requires Lines(summary) == lines && Join(BodyLines(lines)) == body
    requires FirstValue(lines, SentimentPrefixes, UnknownSentiment) == Ok(sentiment)
    requires FirstValue(lines, TagsPrefixes, NoTags) == Ok(tags)
    ensures DisplayFields(summary) == Ok(Shown(Strip(body), Title(sentiment), tags))
  {
  }

  /** The empty summary text shows an empty body and both defaults. */
  lemma EmptySummaryShown()
    ensures DisplayFields("") == Ok(Shown("", UnknownSentiment, NoTags))
  {
    assert Lines("") == [];
    assert Join(BodyLines([])) == "";
    StripStripped("");
    assert FirstValue([], SentimentPrefixes, UnknownSentiment) == Ok(UnknownSentiment);
    assert FirstValue([], TagsPrefixes, NoTags) == Ok(NoTags);
    assert UnknownSentiment == ['U'] + "nknown";
    TitleOfWord('U', "nknown");
  }

  /** One row of the dashboard's table. */
  datatype DisplayRecord = DisplayRecord(
    title: string,
    url: string,
    published: string,
    summary: string,
    sentiment: string,
    tags: string,
    scrapedAt: string)

  /** One iteration of the loop of `load_summaries`: a stored record to its table row. */
  function ToDisplay(rec: Record): (r: Result<DisplayRecord, DashboardError>)
    ensures r.Ok? <==> DisplayFields(Get(rec, "summary", "")).Ok?
    ensures r.Err? ==> r.error == DisplayFields(Get(rec, "summary", "")).error
    ensures r.Ok? ==> var shown := DisplayFields(Get(rec, "summary", "")).value;
      && r.value.summary == shown.body && r.value.sentiment == shown.sentiment && r.value.tags == shown.tags
    ensures r.Ok? ==> && (r.value.title == if "title" in rec then rec["title"] else NoTitle)
                      && (r.value.url == if "url" in rec then rec["url"] else "")
                      && (r.value.published == if "published" in rec then rec["published"] else "")
                      && (r.value.scrapedAt == if "scraped_at" in rec then rec["scraped_at"] else "")
  {
    match DisplayFields(Get(rec, "summary", ""))
    case Err(e) => Err(e)
    case Ok(shown) =>
      Ok(DisplayRecord(
        Get(rec, "title", NoTitle),
        Get(rec, "url", ""),
        Get(rec, "published", ""),
        shown.body,
        shown.sentiment,
        shown.tags,
        Get(rec, "scraped_at", "")))
  }

  /** A record with none of the fields becomes the all-defaults row. */
  lemma MissingFieldsDefault()
    ensures ToDisplay(map[]) == Ok(DisplayRecord(NoTitle, "", "", "", UnknownSentiment, NoTags, ""))
  {
    EmptySummaryShown();
  }

  /**
   * The loop over the records: convert each in order and stop at the first
   * that raises.
   */
  function LoadAll<R, D, E>(raw: seq<R>, convert: R -> Result<D, E>): (r: Result<seq<D>, E>)
    ensures r.Ok? <==> forall i :: 0 <= i < |raw| ==> convert(raw[i]).Ok?
    ensures r.Ok? ==> |r.value| == |raw| && forall i :: 0 <= i < |raw| ==> convert(raw[i]) == Ok(r.value[i])
    ensures r.Err? ==> exists i :: (0 <= i < |raw| && convert(raw[i]) == Err(r.error)
      && forall j :: 0 <= j < i ==> convert(raw[j]).Ok?)
    decreases |raw|
  {
    if raw == [] then Ok([])
    else
      match convert(raw[0])
      case Err(e) => Err(e)
      case Ok(d) =>
        var rest := LoadAll(raw[1..], convert);
        assert forall i :: 1 <= i < |raw| ==> raw[i] == raw[1..][i - 1];
        match rest
        case Err(e) => Err(e)
        case Ok(ds) => Ok([d] + ds)
  }

  /** The table `load_summaries` builds from the list of stored records. */
  function LoadSummaries(raw: seq<Record>): (r: Result<seq<DisplayRecord>, DashboardError>)
    ensures r.Ok? <==> forall i :: 0 <= i < |raw| ==> ToDisplay(raw[i]).Ok?
    ensures r.Ok? ==> |r.value| == |raw| && forall i :: 0 <= i < |raw| ==> ToDisplay(raw[i]) == Ok(r.value[i])
    ensures r.Err? ==> exists i :: (0 <= i < |raw| && ToDisplay(raw[i]) == Err(r.error)
      && forall j :: 0 <= j < i ==> ToDisplay(raw[j]).Ok?)
  {
    LoadAll(raw, ToDisplay)
  }

  /** Conversely, rows that every record converts to are exactly the loaded table. */
  lemma LoadSummariesRows(raw: seq<Record>, rows: seq<DisplayRecord>)
    requires |rows| == |raw|
    requires forall i :: 0 <= i < |raw| ==> ToDisplay(raw[i]) == Ok(rows[i])
    ensures LoadSummaries(raw) == Ok(rows)
  {
    LoadAllRows(raw, ToDisplay, rows);
  }

  /** Rows that every item converts to are what the loop produces. */
  lemma LoadAllRows<R, D, E>(raw: seq<R>, convert: R -> Result<D, E>, rows: seq<D>)
    requires |rows| == |raw|
    requires forall i :: 0 <= i < |raw| ==> convert(raw[i]) == Ok(rows[i])
    ensures LoadAll(raw, convert) == Ok(rows)
  {
    var r := LoadAll(raw, convert);
    assert r.Ok?;
    forall i | 0 <= i < |raw| ensures r.value[i] == rows[i] {
      assert convert(raw[i]) == Ok(r.value[i]);
    }
    assert r.value == rows;
    assert r == Ok(r.value);
  }
}
