# categorize_rss in Dafny

`categorize_rss.py` is a long-running script. Once an hour it:

1. reads a list of RSS feeds from an OPML file, refreshed from GitHub once a day;
2. fetches every feed, or skips a feed that is cooling down after an error;
3. classifies every new article into "Italia", "Economy", "USA" or "Altro" with weighted keyword rules;
4. remembers each article in a dedup cache keyed by a SHA-256 fingerprint, and saves the cache;
5. pushes the repository to GitHub every six hours.

`FeedProcessor.generate_opml` builds one OPML document per category from the cache, but nothing in the script calls it. `main` never writes the category files, so a push carries no file that this run produced. The model states what `generate_opml` would write if it were called.

This project models the core of `FeedProcessor` and proves properties of the model.

The model covers:

- **The classifier** (`classify_text` and the `CATEGORIES` table):
  - `Text` models the normalisation regexes: line breaks, tags, URLs and punctuation, whitespace, lower-casing and stripping.
  - `Patterns` models the `\b(a|b|…)\b` patterns compiled with `re.I`.
  - `Rules` holds the table itself.
  - `Classifier` holds the specification: exclusion, scores, thresholds, and Python's `max`, which keeps the first maximum in declaration order. `ClassifyText` is the imperative procedure with the source's three loops; it is proved equal to the specification.
- **The dedup cache** (`load_cache`, `process_entry`). `DedupCache` models:
  - the JSON dict as an ordered map, with keys in insertion order and a record per key;
  - the expiry filter on load;
  - check-then-insert;
  - a batch of entries processed one after another.
- **The fetch state machine** (`fetch_feed`). `Fetcher` covers the dicts `feed_timeout` and `last_fetch`. Network answers are inputs. It holds the code as written (see Findings) and the corrected conditional request.
- **The smaller pure pieces:**
  - `FeedList`: the feed list of `update_opml`, capped at 20, with the two-URL fallback; and the refresh test of `parse_opml`.
  - `Publisher`: the outline selection and string building of `generate_opml`.
  - `Scheduler`: the sleep and push arithmetic of `main`.
- **The object** `Processor.FeedProcessor`. It is a class whose fields the methods update in place:
  - the cache, `last_fetch`, `feed_timeout`, `last_opml_update` and `feeds_list`;
  - the category table, and the hash function as a parameter.

  Each method is proved against the specification function of its module.

Facts about the code that the model follows:

- The fallback label is `"Altro"`.
- The fingerprint is taken of the raw `title + " " + description`, before any normalisation.
- The expiry test keeps a record only when `now - timestamp < 3 * 86400`, so a record exactly three days old is dropped (`DedupCache.ExpiryBoundary`).
- "senato" and "governo" are alternatives of one pattern, so a text whose only "Italia" keywords are "senato" and "governo" scores 4 and does not qualify for "Italia" (`Classifier.GovernmentWordsAloneDoNotQualifyItalia`). A text that also mentions another "Italia" keyword, such as "roma", can still qualify.
- Exclusion is absolute only because every configured threshold is positive. An excluded category with a threshold of 0 or less would still qualify (`Classifier.ExcludedQualifiesWithoutPositiveThreshold`).

Other properties of the code that the proofs make visible:

- The alternative `u\.s\.a` of the USA rule can never match. Cleaning has already turned its dots into spaces (`Classifier.DottedUsaNeverMatches`).
- A text that is already lower case, is made of word characters separated by single blanks, has no blank at either end and contains no `http` comes out of normalising unchanged (`Text.NormalizeFixesCleanText`).
- Normalising is not idempotent. "HTTPx" normalises to "httpx", which normalises to "" (`Text.NormalizeIsNotIdempotent`).
- `update_opml` sets `last_opml_update` only when the download succeeds. After a failed download, every call of `parse_opml` on the stale list refreshes again, including the second call in the same cycle (`FeedList.FailedDownloadRefreshesAgain`).
- An OPML file that parses but lists no feed leaves the list empty, so every call refreshes (`FeedList.EmptyDocumentRefreshesEveryTime`).
- Phase 2 of `main` counts truthy results. Every category name and `"Altro"` is non-empty, so that count is the number of `Some` results in `DedupCache.ProcessBatch`.

## Model

| member | source | states |
|---|---|---|
| Text.TagLength | categorize_rss.py:45 | a match of `<[^>]+>`: it starts with `<`, ends at the first `>` and encloses at least one character; and whenever the text starts with `<` and has a later `>` with something between, the match runs exactly to the first such `>` |
| Text.UrlLength | categorize_rss.py:45 | a match of `http\S+`: case-sensitive `http`, then a maximal run of non-whitespace; and a text starting with `http` and a non-whitespace character always matches |
| Text.CleanMatch | categorize_rss.py:45 | the alternatives in the regex's order: a tag match wins, else a URL match, else one character that is neither `\w` nor `\s`, and nothing else matches |
| Text.Squeeze | categorize_rss.py:221-223 | `re.sub` of a `[…]+` class by one space; what squeezing whitespace leaves is stated by `Text.SqueezeSpacesLeavesBlanks` |
| Text.Clean | categorize_rss.py:222 | `CLEAN_REGEX.sub(' ', …)`, each match found by `Text.CleanMatch` from left to right; what remains is stated by `Text.CleanLeavesWordsAndSpaces` |
| Text.Normalize | categorize_rss.py:221-223 | `text_clean`: the three substitutions, `lower()` and `strip()` in the source's order; its shape is stated by `Text.NormalizeIsNormalized` |
| Text.CleanLeavesWordsAndSpaces | categorize_rss.py:222 | after `CLEAN_REGEX.sub` only word characters and whitespace remain |
| Text.SqueezeSpacesLeavesBlanks | categorize_rss.py:223 | after `SPACES_REGEX.sub` whitespace occurs only as single blanks |
| Text.NormalizeIsNormalized | categorize_rss.py:221-223 | `text_clean` holds word characters separated by single blanks, is lower case, and neither starts nor ends with a blank |
| Text.CleanKeepsPlainText | categorize_rss.py:222 | `CLEAN_REGEX.sub` gives back a text of word characters and whitespace that never contains `http` unchanged |
| Text.SqueezeKeepsSingleBlanks | categorize_rss.py:223 | `SPACES_REGEX.sub` gives back a text of word characters and single blanks unchanged |
| Text.NormalizeFixesCleanText | categorize_rss.py:221-223 | a text that already has the shape `Text.Normalized` and contains no `http` is its own `text_clean`: normalising keeps every word of such a text |
| Text.NormalizeIsNotIdempotent | categorize_rss.py:221-223 | normalising twice differs from normalising once: "HTTPx" gives "httpx", and "httpx" gives "" |
| Patterns.SearchFrom | categorize_rss.py:56 | succeeds exactly when the alternative occurs, ignoring case, between word boundaries at a position from `i` on |
| Patterns.SearchAlternatives | categorize_rss.py:56 | succeeds exactly when one of the alternatives from index `a` on occurs between word boundaries |
| Patterns.Matches | categorize_rss.py:56-78 | a pattern of alternatives between `\b` anchors, compiled with `re.I`, matches when some alternative occurs, ignoring case, between word boundaries |
| Patterns.Search | categorize_rss.py:234-243 | `pattern.search(text_clean)` as a scan over alternatives and positions; it decides `Patterns.Matches`, by `Patterns.SearchIsMatches` |
| Patterns.SearchIsMatches | categorize_rss.py:243 | `pattern.search(text_clean)` succeeds exactly when some alternative occurs between `\b` boundaries |
| Patterns.UncleanAlternativeNeverMatches | categorize_rss.py:222 | an alternative holding a character that cleaning removes never matches a cleaned text |
| Rules.CategoriesAreWellFormed | categorize_rss.py:53-80 | the table has distinct names, none of them "Altro"; its thresholds are positive and its weights non-negative |
| Classifier.Excluded | categorize_rss.py:231-236 | a category is excluded when one of its exclusion patterns matches `text_clean` |
| Classifier.KeywordSum | categorize_rss.py:242-244 | the weights of the matching keyword patterns, added up; bounded by `Classifier.KeywordSumBounds` |
| Classifier.Score | categorize_rss.py:238-244 | 0 for an excluded category, else its keyword sum; the loops of `Classifier.CategoryScores` compute it |
| Classifier.Qualifies | categorize_rss.py:247-248 | the score reaches the threshold, 0 when none is given |
| Classifier.FirstMax | categorize_rss.py:247-249 | the chosen index is -1 or one of the categories scanned |
| Classifier.FirstMaxIsFirstMaximum | categorize_rss.py:247-249 | -1 exactly when no category reaches its threshold; otherwise the chosen one qualifies, scores at least as much as every qualifying one, and strictly more than every qualifying one declared before it |
| Classifier.FirstMaxIsUnique | categorize_rss.py:249 | the first maximum is unique |
| Classifier.Classify | categorize_rss.py:219-253 | the result is "Altro" or the name of a category of the table |
| Classifier.ClassifyIsFirstBest | categorize_rss.py:219-253 | "Altro" exactly when `text_clean` is empty or nothing qualifies; otherwise the name of the first qualifying category with the highest score, in both directions |
| Classifier.ExcludedIsNeverChosen | categorize_rss.py:228-248 | an excluded category scores 0 and, with a positive threshold, is never returned |
| Classifier.ExcludedQualifiesWithoutPositiveThreshold | categorize_rss.py:247-248 | with a threshold of 0 or less, an excluded category still qualifies |
| Classifier.KeywordSumDependsOnlyOnMatchedPatterns | categorize_rss.py:242-244 | a score depends only on which patterns match, each counted once |
| Classifier.KeywordSumBounds | categorize_rss.py:242-244 | with non-negative weights, a score lies between 0 and the sum of all weights |
| Classifier.ClassifyLabels | categorize_rss.py:219-253 | with the configured table the result is "Italia", "Economy", "USA" or "Altro" |
| Classifier.EuropeExcludesItalia | categorize_rss.py:60-62 | a text matching `ue`, `eu`, `nato` or `europa` is never "Italia" |
| Classifier.GovernmentWordsAloneDoNotQualifyItalia | categorize_rss.py:56-63 | without the country or a city, "Italia" scores at most 4 and does not reach its threshold of 5 |
| Classifier.DottedUsaNeverMatches | categorize_rss.py:75 | the alternative `u\.s\.a` never matches `text_clean` |
| Classifier.ClassifyText | categorize_rss.py:219-253 | the imperative procedure returns exactly `Classify` |
| Classifier.ExcludedCategories | categorize_rss.py:231-236 | `excluded` holds exactly the categories one of whose exclusion patterns matches |
| Classifier.AnyMatches | categorize_rss.py:233-236 | the inner loop with `break` finds a match exactly when some pattern matches |
| Classifier.CategoryScores | categorize_rss.py:238-244 | after the loops each score is the category's `Score`: 0 when excluded, else the sum of the weights of its matching patterns |
| Classifier.FirstMaximum | categorize_rss.py:247-249 | the loop over `valid_cats` picks exactly the first maximum |
| Feed.Truncate | categorize_rss.py:163 | a slice `[:n]`: a prefix of at most `n` elements, the whole sequence when it is no longer |
| DedupCache.Values | categorize_rss.py:288 | `cache.values()` lists the records in key insertion order |
| DedupCache.Fresh | categorize_rss.py:125 | a record is kept when `now - timestamp < 3 * 86400` |
| DedupCache.KeepFresh | categorize_rss.py:124-125 | the kept keys are among the stored keys, and there are no more of them |
| DedupCache.KeepFreshIsFilter | categorize_rss.py:124-125 | a key is kept exactly when it is stored and its record is fresh |
| DedupCache.KeepFreshAppend | categorize_rss.py:124-125 | the filter keeps the insertion order: filtering a concatenation concatenates the filtered parts |
| DedupCache.LoadCache | categorize_rss.py:119-127 | exactly the stored records with `now - timestamp < 3 * 86400`, unchanged, with their keys in the stored order filtered by `KeepFresh`; empty when the file cannot be read or parsed; the result is well formed |
| DedupCache.ExpiryBoundary | categorize_rss.py:125 | a record exactly three days old is dropped; one a second younger is kept |
| DedupCache.ReloadIsLoad | categorize_rss.py:119-127 | loading an already loaded cache later is the same as one load at the later time |
| DedupCache.RawText | categorize_rss.py:199 | the title and the description joined by one space, each `''` when missing; the text that is hashed and classified |
| DedupCache.Process | categorize_rss.py:197-217 | processing keeps the cache well formed: distinct keys, each with a record |
| DedupCache.ProcessKnownEntry | categorize_rss.py:200-203 | a known fingerprint returns `None` and leaves the cache unchanged |
| DedupCache.ProcessNewEntry | categorize_rss.py:205-214 | a new fingerprint adds exactly one key, at the end. Its record holds the classification of the raw text, the time `now`, the title cut to its first 200 characters (the whole title when it is shorter), and the link. Every other record is unchanged |
| DedupCache.SameFingerprintIsSkipped | categorize_rss.py:200-203 | a second entry with the same fingerprint is not classified again, and the first record stays |
| DedupCache.ProcessBatch | categorize_rss.py:345-352 | a batch keeps the cache well formed |
| DedupCache.ProcessBatchKeepsRecords | categorize_rss.py:345-352 | a batch never drops or rewrites a record; it appends one key per entry that returned a category, and no more than one per entry |
| DedupCache.ProcessBatchKeys | categorize_rss.py:345-352 | after a batch the keys are exactly the old keys plus the entries' fingerprints |
| Fetcher.Fetch | categorize_rss.py:255-276 | while cooling down: no request, no entries, no state change. Otherwise a request, conditional when the feed was fetched before. On an error: a 300-second cool-down and no entries. On 304: nothing changes. On success: `last_fetch` is set to `now` and the first 10 entries are returned, all of them when there are fewer |
| Fetcher.FetchIsLocal | categorize_rss.py:255-276 | a fetch changes the state of its own URL only |
| Fetcher.CoolDownWindow | categorize_rss.py:257-275 | after a failure at `t`, a fetch before `t + 300` sends nothing and returns nothing; one from `t + 300` on sends a request |
| Fetcher.SuccessMakesNextRequestConditional | categorize_rss.py:261-270 | after a success at `t`, the next request carries `If-Modified-Since` of `t` |
| Fetcher.FetchRound | categorize_rss.py:334-340 | every URL of the list fetched once, in list order, with the entries of all of them; bounded by `Fetcher.FetchRoundBounds` |
| Fetcher.FetchRoundBounds | categorize_rss.py:334-340 | fetching a list gives at most 10 entries per URL and leaves the state of every other URL unchanged |
| Fetcher.FetchAsWritten | categorize_rss.py:255-276 | `fetch_feed` with the `NameError` of line 262: a request is sent and an entry returned only for a URL without a `last_fetch` entry, and once a URL has one, its `last_fetch` never changes |
| Fetcher.AsWrittenAgreesBeforeFirstSuccess | categorize_rss.py:261-262 | as written, a URL without a `last_fetch` entry is fetched as intended |
| Fetcher.AsWrittenNeverRefetches | categorize_rss.py:262 | as written, a URL with a `last_fetch` entry never gets a request or an entry, and only enters a cool-down |
| Fetcher.AsWrittenRun | categorize_rss.py:255-276 | repeated calls of `fetch_feed` as written for one URL, and the entries of all of them |
| Fetcher.AsWrittenDeadAfterSuccess | categorize_rss.py:262 | as written, after its first success a feed yields no entry on any later series of calls |
| Fetcher.AsWrittenLosesNewEntry | categorize_rss.py:262 | a feed fetched at 0 and asked again at 3600 with a new entry: as written no entry, as intended the entry |
| FeedList.XmlUrls | categorize_rss.py:159-162 | the `xmlUrl` attributes of the outlines that have one, in document order, at most one per outline |
| FeedList.XmlUrlsAreTheOutlineUrls | categorize_rss.py:159-163 | the collected URLs are exactly the `xmlUrl` attributes of the outlines, in both directions |
| FeedList.FeedListFrom | categorize_rss.py:157-170 | the two default feeds when parsing fails; otherwise the first 20 collected URLs, all of them when there are no more than 20 |
| FeedList.NeedsRefresh | categorize_rss.py:193 | a refresh is due when the list is empty or the last update is more than 86400 seconds old |
| FeedList.EmptyDocumentRefreshesEveryTime | categorize_rss.py:159-193 | a parsed file without `xmlUrl` leaves the list empty, so a refresh is always due |
| FeedList.Refreshed | categorize_rss.py:192-195 | no change unless the list is empty or a day old; after a refresh, the list comes from the file, and `last_opml_update` is `now` only when the download succeeded |
| FeedList.DownloadedListIsKeptForADay | categorize_rss.py:150-193 | a successfully downloaded, non-empty list is kept for a whole day |
| FeedList.FailedDownloadRefreshesAgain | categorize_rss.py:152-193 | after a failed download, a stale list is refreshed again at every later call |
| Publisher.Matching | categorize_rss.py:288-289 | the cache records whose category is `category`, in cache order, never more than there are records |
| Publisher.Selected | categorize_rss.py:287-293 | the records that get an outline: the first 100 of the category; bounded by `Publisher.SelectedIsCapped` |
| Publisher.OutlineLine | categorize_rss.py:290 | one `<outline>` line with the record's title as text and title and its link as `xmlUrl` |
| Publisher.Header | categorize_rss.py:280-285 | the XML declaration, `<opml>`, a head titled `<category> Feed`, and the opening `<body>` |
| Publisher.OpmlDocument | categorize_rss.py:280-295 | the header, the outline lines of the selected records, and the closing tags; the loop of `Processor.Outlines` builds it |
| Publisher.MatchingIsMembership | categorize_rss.py:288-289 | the records that get an outline line are exactly the cache records of the category |
| Publisher.MatchingAppend | categorize_rss.py:288-289 | filtering by category distributes over concatenation, which keeps cache order |
| Publisher.SelectedIsCapped | categorize_rss.py:287-293 | at most 100 records, all of the category; when fewer than 100 are listed, every record of the category is listed |
| Publisher.OutputFileName | categorize_rss.py:298 | the name is the category name, each character lower-cased, followed by `_feeds.opml` |
| Scheduler.SleepTime | categorize_rss.py:381 | the sleep is at least 60 seconds, at least `3600 - elapsed`, and one of the two |
| Scheduler.CycleCadence | categorize_rss.py:380-385 | a cycle and its sleep take at least an hour: exactly an hour when the cycle took at most 59 minutes, else the sleep is one minute |
| Scheduler.ShouldPush | categorize_rss.py:364 | push when more than 21600 seconds have passed since the last push |
| Scheduler.PushBoundary | categorize_rss.py:364 | six hours exactly do not trigger a push; one more second does |
| Processor.FeedProcessor.constructor | categorize_rss.py:83-90 | the cache is `load_cache` at `now`; the dicts and the feed list are empty; `last_opml_update` is 0; the table is `CATEGORIES` |
| Processor.FeedProcessor.ProcessEntry | categorize_rss.py:197-217 | the new cache and the result are exactly `Process` of the old cache; a returned category is `Classify` of the entry's raw text under the processor's rules, which the constructor fixes to `CATEGORIES`; the cache stays well formed |
| Processor.FeedProcessor.ProcessEntries | categorize_rss.py:345-352 | processing the entries one after another gives exactly `ProcessBatch` |
| Processor.FeedProcessor.FetchFeed | categorize_rss.py:255-276 | the new dicts, the entries and the request are exactly those of `Fetch` |
| Processor.FeedProcessor.FetchFeedAsWritten | categorize_rss.py:255-276 | the new dicts, the entries and the request are exactly those of `FetchAsWritten`: the object's behaviour with the `NameError` |
| Processor.FeedProcessor.FetchAll | categorize_rss.py:331-340 | fetching every feed of the list gives exactly `FetchRound` |
| Processor.FeedProcessor.ParseOpml | categorize_rss.py:192-195 | the new feed list and `last_opml_update` are exactly `Refreshed` of the old ones, and the list is returned |
| Processor.FeedProcessor.UpdateOpml | categorize_rss.py:136-170 | `last_opml_update` moves to `now` only on a successful download; the list becomes `FeedListFrom` of the parse |
| Processor.FeedProcessor.GenerateOpml | categorize_rss.py:278-295 | the content is the header, one outline line for each of the first 100 cache records of the category in cache order, and the footer |
| Processor.Outlines | categorize_rss.py:280-295 | the loop with its counter and its `break` at 100 builds exactly `OpmlDocument` |
| Processor.CapReached | categorize_rss.py:292-293 | once 100 records of the category are found, they are the selected ones |

## Findings

| source | as written | input that shows it | evidently intended | confidence | as-written member | corrected member |
|---|---|---|---|---|---|---|
| categorize_rss.py:262 | `formatdate` is called but never imported. For a URL that already has a `last_fetch` entry, the line raises `NameError` before any request. The handler replaces it with a 300-second cool-down. A feed therefore yields entries once and never again | "https://www.ansa.it/sito/ansait_rss.xml" fetched successfully at time 0 and asked again at 3600, when the server has one new entry: no request is sent and `[]` is returned | a conditional request with `If-Modified-Since` set to the last fetch time | not executed | Fetcher.AsWrittenLosesNewEntry | Fetcher.SuccessMakesNextRequestConditional |

`Fetcher.FetchAsWritten` models the code as written; `Fetcher.AsWrittenNeverRefetches` and `Fetcher.AsWrittenDeadAfterSuccess` show the consequence for every input. `Fetcher.Fetch` is the corrected state machine. On the object, `Processor.FeedProcessor.FetchFeedAsWritten` behaves as the source does, and `Processor.FeedProcessor.FetchFeed` and `FetchAll` use the corrected machine.

## Left out

- Git setup, commit and push (lines 92-117, 306-317, 387-392): a foreign library and remote I/O. Only the push test of line 364 is modelled.
- HTTP via `requests`, feed parsing via `feedparser`, and XML parsing via `ElementTree`. Their outcomes are inputs:
  - `Fetcher.Response` for a feed request;
  - `downloaded` and `parsed` for the OPML file.
- `create_default_opml` (lines 172-190) writes a file. What that file parses to is part of the `parsed` input.
- FeedList.Refreshed: does not model the failure of `create_default_opml`. It runs inside the `except` handler of `update_opml` (lines 152-155), so if its write fails (the OPML directory is missing, say), the exception escapes `update_opml` and `parse_opml`, and `main` ends the process with `os._exit(1)` (lines 394-396). The model always goes on with the parsed list or the two default feeds.
- Processor.FeedProcessor.UpdateOpml: the same failure of `create_default_opml` is not modelled; the method always sets a feed list.
- Processor.FeedProcessor.ParseOpml: inherits the missing `create_default_opml` failure from `UpdateOpml`.
- The formatting of the `If-Modified-Since` date: the model carries the timestamp itself.
- The fasttext model (line 50): loaded but never used.
- File reads and writes for the cache, the OPML input and the category files (which only the never-called `generate_opml` would write), and all logging. `save_cache` is not modelled. `LoadCache` takes the parsed file contents, or `None` for any read or parse failure.
- SHA-256: the fingerprint is the class's function-valued field `digest`, a parameter of the model.
- The regex engine. Patterns are modelled as lists of alternatives that match at word boundaries, ignoring case (`Patterns.Matches`).
- The Unicode tables of `\w`, `\s` and `str.lower` follow Python exactly on ASCII and Latin-1 only. Above U+00FF:
  - `Text.IsWordChar` approximates `\w` by excluding whitespace, combining diacritical marks, general punctuation, currency signs, the trade mark sign, arrows and mathematical and technical symbols, box drawing, shapes, miscellaneous symbols and dingbats, CJK punctuation, variation selectors, and emoji and pictographs (U+1F000 to U+1FAFF). Other symbols and marks above U+00FF count as word characters, though Python's `\w` does not match them;
  - `Text.Lower` leaves the character unchanged.
- Clocks and floats: `time.time()` is an integer parameter `now`, one per operation. `time.sleep` is left out.
- The thread pools and `as_completed` in `main` (lines 331-355). Fetching and processing are modelled sequentially, in feed order. In the source, entries arrive in completion order, and the unlocked check-then-insert of `process_entry` can race. `main`'s infinite loop is modelled by its pieces (`ParseOpml`, `FetchAll`, `ProcessEntries`, `SleepTime`, `ShouldPush`), not as one method.
- The exception handlers of `process_entry`, `classify_text` and `generate_opml` (lines 215-217, 251-253, 302-304). No operation of the model can fail, so these paths have no counterpart. `os._exit` and `KeyboardInterrupt` are process control.
- Titles and links are inserted into the generated OPML without XML escaping, exactly as the source does. The model states nothing about the well-formedness of that XML.
