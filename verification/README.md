# News insight aggregator: the summary normaliser and the dashboard reader

The aggregator asks a local language model to summarise scraped news
articles. One program normalises the model's free-form answer into a
canonical three-line text:

    Summary: <summary>
    Sentiment: <sentiment>
    Tags: <tags>

It stores that text with each article's metadata. A dashboard later reads
the stored records back. For each record it splits the summary text into a
body, a sentiment and tags, and shows them in a table.

This project models both halves and the hand-over between them, in Dafny:

- `Summarizer` (`summarizer.dfy`) is `parse_ollama_output`.
  - Its three regular-expression searches are explicit leftmost,
    case-insensitive label searches: `Labels.FindLabel`,
    `Summarizer.SearchLazy` and `Summarizer.SearchGreedy`.
  - The lazy group stops at the earliest closing label, or at the
    non-MULTILINE `$` (`Summarizer.LazyEnd`).
  - The defaults `Unknown` and `None` apply, and only the first line of the
    sentiment and of the tags is kept.
  - The canonical text is `Summarizer.Serialize`.
  - `summarize_article` and the record loop of `summarize_articles` are also
    here. The model call is a function parameter `generate`.
- `Aliases` (`aliases.dfy`) covers the labelled inputs a model typically
  returns: a summary line, a sentiment line and a tags line, each label in
  any casing and either alias (`Labelled`). The summary text must hold no
  sentiment or tags label, and the sentiment text no tags label; otherwise
  the regular expressions start or end their groups elsewhere. It proves
  what the normaliser extracts from such output, and the concrete examples.
- `Dashboard` (`dashboard.dfy`) is the per-record loop of `load_summaries`,
  lifted to pure functions.
  - `Dashboard.DisplayFields` is the body filter, the first sentiment line
    and the first tags line.
  - `Dashboard.ToDisplay` is one table row, with its field defaults.
  - `Dashboard.LoadSummaries` is the whole loop.
  - `l.split(":", 1)[1]` raises `IndexError` on a matching line without a
    colon. The model returns this as `Err(MissingColon(line))` rather than
    assuming it away.
- `Agreement` (`agreement.dfy`) connects the two halves. The dashboard
  recovers what the normaliser wrote when the summary part holds no line the
  dashboard mistakes for a field line:
  - the body is `Summary: …`, label included, stripped;
  - the sentiment is title-cased;
  - the tags are the normaliser's.
- `Text` (`text.dfy`) is the ASCII string toolkit: `strip`, `lower`,
  `title`, a splitter at line breaks (the base of the `splitlines` model),
  `"\n".join` and `splitlines`.
- `Labels` (`labels.dfy`) handles case-insensitive label matching.
- `Results` and `Records` hold `Option`/`Result` and the stored record type
  (a map from string keys to string values).

The dashboard reads back `Title(Strip(se))` and `Strip(t)`, not `Title(se)`
and `t`. The normaliser keeps the first line of the stripped capture, and
that line can end in blanks: `Sentiment: Good \nmore` keeps `Good `. The
dashboard strips the value after the colon, so the blank goes.
`Agreement.ProducerConsumerAgreement` states the law with those `Strip`s.

A summary line that starts with `sentiment` or `tags` in any casing is read
by the dashboard as a field line. Examples are `Sentiment analysis was
mixed` or `Tagsmith Ltd. reported…`. Such a line is dropped from the body,
and it shadows the real sentiment or tags line. If it has no colon, reading
the record raises (`Agreement.StraySentimentLineRaises`). The agreement
lemmas therefore require `Agreement.PlainSummary`. A one-line summary always
meets it (`Agreement.OneLineSummaryPlain`).

## Model

| member | source | states |
|---|---|---|
| Labels.FindLabel | news-insight-aggregator/summarizer/ollama_summarizer.py:28-30 | The search fails exactly when no alias occurs at or after the start. Otherwise it reports the leftmost position where an alias matches case-insensitively, and the first alias of the list that matches there. |
| Labels.FindLabelIs | news-insight-aggregator/summarizer/ollama_summarizer.py:28-30 | Any hit that is leftmost and first-alias is the hit the search reports: the search result is unique. |
| Labels.StripKeepsAbsence | news-insight-aggregator/summarizer/ollama_summarizer.py:32 | Stripping a text with no label occurrence leaves a text with no label occurrence. |
| Labels.ColonFreeLabelFree | news-insight-aggregator/summarizer/ollama_summarizer.py:28-30 | Every label ends with its only colon, so a text without a colon contains no label. |
| Summarizer.LazyEnd | news-insight-aggregator/summarizer/ollama_summarizer.py:28-29 | The lazy group `(.*?)` ends at the earliest index, from the group's start on, where a closing label or the non-MULTILINE `$` matches. Neither matches before that index. |
| Summarizer.LazyEndIs | news-insight-aggregator/summarizer/ollama_summarizer.py:28-29 | An index where a closer or `$` matches, with none before it, is the lazy end. |
| Summarizer.SearchLazy | news-insight-aggregator/summarizer/ollama_summarizer.py:28-29 | The lazy search succeeds exactly when an opening label occurs. Its group never contains a closing label. |
| Summarizer.SearchLazyIs | news-insight-aggregator/summarizer/ollama_summarizer.py:28-29 | The group runs from the end of the first opening label to the lazy end. |
| Summarizer.SearchGreedy | news-insight-aggregator/summarizer/ollama_summarizer.py:30 | The tags search succeeds exactly when a tags label occurs. |
| Summarizer.SearchGreedyGives | news-insight-aggregator/summarizer/ollama_summarizer.py:30 | The greedy group is everything after the first tags label. |
| Summarizer.FirstLineOr | news-insight-aggregator/summarizer/ollama_summarizer.py:37-38 | An empty value gives the default. Otherwise the result is the text before the first line break, and it has no line break. For a stripped value it is non-empty and starts with the value's first character. |
| Summarizer.SummaryOf | news-insight-aggregator/summarizer/ollama_summarizer.py:28-32 | The summary is stripped. Without a `Summary:` label it is the whole output stripped. With one, the summary contains no sentiment label. |
| Summarizer.SentimentOf | news-insight-aggregator/summarizer/ollama_summarizer.py:33-37 | The sentiment is non-empty, one line, and starts with a non-blank character. It is `Unknown` when no sentiment label occurs. |
| Summarizer.TagsOf | news-insight-aggregator/summarizer/ollama_summarizer.py:34-38 | The tags are non-empty, one line, and start with a non-blank character. They are `None` when no tags label occurs. |
| Summarizer.ParseFields | news-insight-aggregator/summarizer/ollama_summarizer.py:26-38 | The extraction is total, including on `""`. It has the shapes and defaults of the three rows above. |
| Summarizer.ParseFieldsFound | news-insight-aggregator/summarizer/ollama_summarizer.py:32-38 | When all three searches succeed, the fields are the stripped groups, with sentiment and tags cut to their first line. |
| Summarizer.BlankSentimentDefaults | news-insight-aggregator/summarizer/ollama_summarizer.py:33-37 | In any output, a sentiment group made only of blanks yields `Unknown`. |
| Summarizer.BlankTagsDefault | news-insight-aggregator/summarizer/ollama_summarizer.py:34-38 | In any output, a tags group made only of blanks yields `None`. |
| Summarizer.ParseOllamaOutput | news-insight-aggregator/summarizer/ollama_summarizer.py:41 | The canonical text's lines are the summary's lines, then one `Sentiment: ` line carrying the sentiment, then one `Tags: ` line carrying the tags. It is never empty and never ends in a line break. |
| Summarizer.Serialize | news-insight-aggregator/summarizer/ollama_summarizer.py:41 | The f-string `Summary: …\nSentiment: …\nTags: …`; it has no contract of its own, and `SerializedLines` and `ParseOllamaOutput` state its line structure. |
| Summarizer.Prompt | news-insight-aggregator/summarizer/ollama_summarizer.py:45-54 | The prompt text with the article's title and description filled in; it has no contract of its own, since the backend that reads it is a parameter. |
| Summarizer.SerializedLines | news-insight-aggregator/summarizer/ollama_summarizer.py:41 | Single-line sentiment and tags make the canonical text split into the summary's lines plus two field lines. |
| Summarizer.SummarizeArticle | news-insight-aggregator/summarizer/ollama_summarizer.py:44-56 | Whatever the backend answers, the stored summary is a canonical text whose sentiment and tags are single lines. |
| Summarizer.StoredSummary | news-insight-aggregator/summarizer/ollama_summarizer.py:67-73 | The record has exactly the keys title, url, published, summary and scraped_at. `link` is stored as `url`, and the other values are copied. |
| Summarizer.SummarizeArticles | news-insight-aggregator/summarizer/ollama_summarizer.py:63-73 | There is one record per article, in the articles' order. Each stores its article and that article's normalised summary. |
| Summarizer.StoreAll | news-insight-aggregator/summarizer/ollama_summarizer.py:63-73 | The same, for any per-article summarisation. |
| Aliases.StructuredOutput | news-insight-aggregator/summarizer/ollama_summarizer.py:28-38 | For output laid out as in `Labelled` (a summary label, text, a line break, a sentiment label, text, a line break, a tags label and the rest; the summary text holds no sentiment or tags label and the sentiment text holds no tags label), with labels in any casing or alias, the fields are the stripped summary text and the first lines of the stripped sentiment and tags texts (or their defaults). |
| Aliases.SummaryCapture | news-insight-aggregator/summarizer/ollama_summarizer.py:28 | For output laid out as in `Labelled` (a summary label, text, a line break, a sentiment label, text, a line break, a tags label and the rest; the summary text holds no sentiment or tags label and the sentiment text holds no tags label), the summary group is the summary text with its line break, ending at the sentiment label. |
| Aliases.SentimentCapture | news-insight-aggregator/summarizer/ollama_summarizer.py:29 | For output laid out as in `Labelled` (a summary label, text, a line break, a sentiment label, text, a line break, a tags label and the rest; the summary text holds no sentiment or tags label and the sentiment text holds no tags label), the sentiment group is the sentiment text with its line break, ending at the tags label. |
| Aliases.TagsCapture | news-insight-aggregator/summarizer/ollama_summarizer.py:30 | For output laid out as in `Labelled` (a summary label, text, a line break, a sentiment label, text, a line break, a tags label and the rest; the summary text holds no sentiment or tags label and the sentiment text holds no tags label), the tags group is the whole rest of the output after the tags label. A tags label inside the summary text would start the group there instead. |
| Aliases.AliasesAgree | news-insight-aggregator/summarizer/ollama_summarizer.py:28-30 | For output laid out as a summary line, a sentiment line and a tags line (`Labelled`), `Overall Sentiment:` vs `Sentiment:`, `Topic Tags:` vs `Tags:`, and any casing of the labels give the same canonical text. |
| Aliases.AliasExample | news-insight-aggregator/summarizer/ollama_summarizer.py:28-30 | `Summary: X`, `Overall Sentiment: Positive`, `Topic Tags: AI` normalise exactly as `Summary: X`, `Sentiment: Positive`, `Tags: AI`. |
| Aliases.NoLabels | news-insight-aggregator/summarizer/ollama_summarizer.py:28-34 | Output without any colon has no label: the summary is the output stripped, and both defaults apply. |
| Aliases.FreeTextExample | news-insight-aggregator/summarizer/ollama_summarizer.py:26-41 | `just some free text` becomes `Summary: just some free text`, `Sentiment: Unknown`, `Tags: None`. |
| Aliases.SentimentOnly | news-insight-aggregator/summarizer/ollama_summarizer.py:29-37 | Output that begins with a sentiment label, followed by colon-free text that does not end in a line break, gets as sentiment the first line of the stripped text (which may end in blanks), or `Unknown` when the text is blank. |
| Aliases.SentimentFirstLine | news-insight-aggregator/summarizer/ollama_summarizer.py:37 | Output made of a sentiment label, a blank, a colon-free line that does not start with a blank, a line break and then colon-free text that does not end in a blank or a line break gets that first line as its sentiment. |
| Aliases.FirstLineExample | news-insight-aggregator/summarizer/ollama_summarizer.py:37 | `Sentiment: Positive` followed by a commentary line gives the sentiment `Positive`. |
| Aliases.CanonicalReparse | news-insight-aggregator/summarizer/ollama_summarizer.py:26-41 | Normalising is a fixed point on canonical text: the extracted fields are the ones it was written from. This holds when the fields are stripped, the sentiment and tags are non-empty single lines, the summary holds no sentiment or tags label, and the sentiment holds no tags label. Colons are otherwise allowed, as in `3:1`. |
| Aliases.MarketsFields | news-insight-aggregator/summarizer/ollama_summarizer.py:26-41 | Well-formed output reads back as `Markets rallied today.`, `Positive`, `Economy, Markets`. |
| Dashboard.BodyLines | news-insight-aggregator/dashboard.py:64 | The body filter never adds lines. |
| Dashboard.BodyLinesMembers | news-insight-aggregator/dashboard.py:64 | A line is in the body exactly when it is an input line that does not start with `sentiment`, `overall sentiment`, `tags` or `topic tags`, in any casing. |
| Dashboard.BodyLinesAppend | news-insight-aggregator/dashboard.py:64 | The filter works piece by piece, so the kept lines stay in their original order. |
| Dashboard.BodyLinesKeepsAll | news-insight-aggregator/dashboard.py:64 | Lines that are not field lines all stay, unchanged and in order. |
| Dashboard.BodyLinesDropsAll | news-insight-aggregator/dashboard.py:64 | Field lines all go. |
| Dashboard.SummaryLineKept | news-insight-aggregator/dashboard.py:64 | A line starting with `Summary:` in any casing is never filtered: the body keeps its label. |
| Dashboard.AfterColon | news-insight-aggregator/dashboard.py:66 | The split succeeds exactly when the line has a colon, and otherwise raises on that line. The value is what follows the first colon: the line is a colon-free head, a colon, then the value. |
| Dashboard.FieldValue | news-insight-aggregator/dashboard.py:66-68 | Reading a field line raises exactly when it has no colon. Otherwise the value is the text after the first colon, stripped, and it stays on one line when the line has no line break. |
| Dashboard.FieldValueOf | news-insight-aggregator/dashboard.py:66-68 | A colon-free head, a colon and a value read back as the value, stripped, whatever colons the value holds. |
| Dashboard.FirstValue | news-insight-aggregator/dashboard.py:66-68 | The value comes from the first line with one of the prefixes, or is the default when no line has one. It raises exactly when that first line has no colon. |
| Dashboard.DisplayFields | news-insight-aggregator/dashboard.py:63-77 | Reading a summary succeeds exactly when the first sentiment line and the first tags line both have a colon. On failure it names such a line, and it names the sentiment line whenever that one lacks a colon, since the sentiment is read first. The body is stripped, and the tags are one line. |
| Dashboard.DisplayFieldsIs | news-insight-aggregator/dashboard.py:63-77 | When neither value raises, the shown fields are the stripped joined body, the title-cased sentiment and the tags. |
| Dashboard.EmptySummaryShown | news-insight-aggregator/dashboard.py:63-68 | An empty summary shows an empty body, `Unknown` and `None`. |
| Records.Get | news-insight-aggregator/dashboard.py:72-78 | `record.get(key, default)`: the stored value when the key is present, otherwise the default. It has no contract of its own; `Dashboard.ToDisplay` and `Dashboard.MissingFieldsDefault` state what each lookup yields. |
| Dashboard.ToDisplay | news-insight-aggregator/dashboard.py:71-78 | A row fails exactly when its summary fails to read. Otherwise it carries the shown fields, and title, url, published and scraped_at with their defaults. |
| Dashboard.MissingFieldsDefault | news-insight-aggregator/dashboard.py:72-78 | An empty record becomes `No Title`, `""`, `""`, `""`, `Unknown`, `None`, `""`. |
| Dashboard.LoadAll | news-insight-aggregator/dashboard.py:61-79 | The loop succeeds exactly when every record converts. It then has one row per record, in order. Otherwise it fails with the first failing record's error. |
| Dashboard.LoadSummaries | news-insight-aggregator/dashboard.py:61-83 | The same for the dashboard's row conversion. An empty list loads as an empty table. |
| Dashboard.LoadSummariesRows | news-insight-aggregator/dashboard.py:61-83 | Rows that the records convert to, one each, are exactly the loaded table. |
| Text.Strip | news-insight-aggregator/dashboard.py:75 | `strip()` returns a slice of its input with no blank at either end, and everything before and after that slice is blank. It is empty exactly when the input is all blanks. |
| Text.Split | news-insight-aggregator/dashboard.py:63 | The splitter at line breaks that the `splitlines()` model `Lines` is built on gives one or more pieces, with no line break in any piece, and joining them with line breaks gives the text back. |
| Text.Join | news-insight-aggregator/dashboard.py:64 | `"\n".join(lines)`; it has no contract of its own, and `Split` and `SplitJoin` state that it is the inverse of splitting. |
| Text.Lower | news-insight-aggregator/dashboard.py:64 | `lower()` keeps the length and lower-cases each character on its own; non-letters stay as they are. |
| Text.SplitJoin | news-insight-aggregator/dashboard.py:64 | Splitting undoes joining for pieces without line breaks. |
| Text.Lines | news-insight-aggregator/dashboard.py:63 | `splitlines()` gives no lines for `""`. Its lines have no line break, and they join back to the text minus one final line break. |
| Text.FirstLine | news-insight-aggregator/summarizer/ollama_summarizer.py:37 | `splitlines()[0]` is the text before the first line break. |
| Text.Title | news-insight-aggregator/dashboard.py:76 | `title()` keeps the length and which characters are letters. The first letter of each word is upper-case and the following letters are lower-case. Other characters are unchanged, and so is the text up to case. |
| Text.TitleIdempotent | news-insight-aggregator/dashboard.py:76 | Title-casing twice is title-casing once. |
| Agreement.SentimentLineRead | news-insight-aggregator/dashboard.py:66 | The dashboard takes the canonical `Sentiment: se` line for a sentiment line and not a tags line, and reads `se` stripped. |
| Agreement.TagsLineRead | news-insight-aggregator/dashboard.py:68 | The dashboard takes the canonical `Tags: t` line for a tags line and not a sentiment line, and reads `t` stripped. |
| Agreement.OneLineSummaryPlain | news-insight-aggregator/dashboard.py:64 | A summary without line breaks never looks like a field line to the dashboard. |
| Agreement.CanonicalRoundTrip | news-insight-aggregator/dashboard.py:63-77 | For canonical text whose summary part is plain, the dashboard shows `Summary: s` stripped, `Title(Strip(se))` and `Strip(t)`. |
| Agreement.ShownFromLines | news-insight-aggregator/dashboard.py:63-77 | Plain body lines followed by a sentiment line and a tags line show the stripped body, the title-cased sentiment value and the tags value. |
| Agreement.StraySentimentLineRaises | news-insight-aggregator/dashboard.py:66 | If the first line taken for a sentiment line is a summary line without a colon, reading the canonical text raises on that line. |
| Agreement.BodyKeepsLabel | news-insight-aggregator/dashboard.py:75 | For a non-empty stripped summary the shown body is exactly `Summary: ` followed by the summary. |
| Agreement.ProducerConsumerAgreement | news-insight-aggregator/summarizer/ollama_summarizer.py:41 | For any model output whose extracted summary is plain, the dashboard reads the normaliser's text back. The body is the labelled summary, and the sentiment and tags are the normaliser's, stripped, with the sentiment title-cased. |
| Agreement.RecordRoundTrip | news-insight-aggregator/dashboard.py:71-78 | A record storing an article's normalised summary becomes a row with the article's title, link, publication date and scrape time, and the read-back fields. |
| Agreement.PipelineAgreement | news-insight-aggregator/summarizer/ollama_summarizer.py:63-73 | Loading what `summarize_articles` stored succeeds, with one row per article, in order, each the article's expected row. |
| Agreement.StoredRowsRead | news-insight-aggregator/dashboard.py:61-78 | Every stored record reads back as its article's expected row. |
| Agreement.LoadedRows | news-insight-aggregator/dashboard.py:61-83 | Records that read back as expected rows load as those rows, in order. |
| Agreement.CleanCanonicalShown | news-insight-aggregator/dashboard.py:64-77 | A one-line, already-stripped canonical text shows `Summary: s`, `Title(se)` and `t` as written. |
| Agreement.MarketsShown | news-insight-aggregator/dashboard.py:63-77 | The canonical text for the markets example shows `Summary: Markets rallied today.`, `Positive` and `Economy, Markets`. |

## Left out

- Characters are ASCII only. There is no Unicode whitespace, case folding or title-casing.
- `splitlines()` treats only `'\n'` as a line break. Python also breaks at `\r`, `\r\n`, `\v`, `\f`, `\x1c`-`\x1e`, `\x85` and the Unicode line and paragraph separators. A value holding one of those keeps more than Python would keep. On the dashboard side Python splits a stored summary at `\v`, `\f`, `\x1c`-`\x1e` (and `\r`), so `Summary: x\vSentiment y` makes the `split(":", 1)[1]` of dashboard.py:66 raise `IndexError` on the line `Sentiment y`, while the model sees one line and reads the summary without error.
- `re.IGNORECASE` is modelled as ASCII lower-casing of the input against lower-case labels.
- `Topic Tags:` and `Topic tags:` are the same alias once case is ignored, so the model has one alias `topic tags:`.
- `run_ollama` is not modelled: the subprocess call, its `strip()` and its error-message fallback. Generation is the parameter `generate`, which may return any text, error messages included. The prompt text is modelled, but its whitespace does not matter to any property.
- The JSON file reading and writing, with the dashboard's exception branches (dashboard.py:45-59). Stored records are taken as already-loaded maps from string keys to string values. Non-string JSON values, and article fields missing from the scraper's output (`article["link"]` would raise), are not modelled.
- The progress `print` and `time.sleep(1)` in `summarize_articles`.
- The pandas `DataFrame` and every Streamlit call (`st.*`, caching, the UI). The loaded table is a sequence of rows. An empty input gives an empty sequence where the source returns an empty `DataFrame`.
- `run_scraper`, `run_summarizer` and the news scraper module are subprocess and network code. The scraper is not part of this model.
- Dashboard.DisplayFields: a first sentiment or tags line without a colon raises `IndexError` in the source, and the exception ends `load_summaries`. The model returns `Err(MissingColon(line))` from the same place, and `Dashboard.LoadSummaries` stops at the first such record. It does not make the colon a precondition.
- Agreement.ProducerConsumerAgreement: requires `Agreement.PlainSummary`, because summaries with a field-like line read back differently (see above). It states the read-back sentiment as `Title(Strip(se))`, since the dashboard strips what the normaliser left.
- Aliases.AliasesAgree: stated only for output laid out as a summary line, a sentiment line and a tags line (`Labelled`). Without a `Summary:` label the whole output, label included, becomes the summary, so the alias does change the canonical text: `Sentiment: P` and `Overall Sentiment: P` give different summaries.
- Aliases.AliasExample, Aliases.FreeTextExample, Aliases.FirstLineExample, Aliases.MarketsFields, Agreement.MarketsShown: each example input is written as its pieces joined by `+`, for instance `"Summary: X" + "\n" + …`. The string is the same.
