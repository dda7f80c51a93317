# pockyll linkpost sync, modelled in Dafny

pockyll turns the bookmarks of a Pocket account into Jekyll "linkposts". A sync
takes the batch of bookmarks added since the stored cursor and walks through it.
It skips the records that lack a url or an id and treats untitled records as
drafts. For every other record it writes one markdown file into the draft or post
directory, and it never overwrites a file that is already there. Once the whole
batch has been visited, the cursor is advanced. Each file holds a front matter
block, the article's main content and a link back. The excerpt in the front matter
comes from the description meta tags or, failing those, from a generated summary.
Keywords come from the keywords meta tag or, failing that, from a keyword
extractor.

The model has five modules, one file each:

- `Wrappers` (wrappers.dfy): `Option` (Python's `None`) and `Result`.
- `Text` (text.dfy): the Python string operations the pipeline relies on. It has
  `str.split` with its inverse `Join`, `str.strip(' ')`, `xs[:n]`, and the
  zero-padded fields `strftime` prints.
- `Extraction` (extraction.dfy): `get_meta_desc` with the excerpt fallback, and
  `get_doc_keywords`.
- `Linkpost` (linkpost.dfy): `create_linkpost`. It covers the timestamp, the
  destination directory, the file name, the document text, and the file system as
  a `FileSystem` class. Its decision logic is the function `LinkpostOutcome`, and
  the method `CreateLinkpost` runs it against the file system object.
- `Sync` (sync.dfy): the `sync` loop. `Loop` is a `for` loop over a batch that
  stops at the first failure, for any loop body. Its lemmas are proved once, for
  every body with a given property. `Run` is `Loop` with the body of `sync`
  (`Step`), and it is the specification of the methods. `SyncItem` is one pass of
  the loop, `SyncBatch` the loop, and `Sync` the whole call. The methods update a
  `Config` object and the `FileSystem` in place.

The file system is a map from the paths of existing regular files to their
contents, plus a set of existing directories. `os.path.exists(p)` holds when `p`
is in either one. Opening a file for writing fails with `IOError` unless the part
of its path before the last `/` is an existing directory.

The model follows the code as written, including where its behaviour is
surprising:

- `get_meta_desc` returns the xpath result, which is a list. The fallback chain
  stops at the first tag name that has any element, even one whose content is
  empty (`Extraction.EmptyDescriptionStopsChain`). When a tag is found, what goes
  into the front matter is the printed form of that list, not a string.
- A file that already exists is refused with an `IOError`, and `sync` swallows it
  without counting the item as skipped. A rerun of the same batch over the files
  the first run left therefore reports the same post, draft and skipped counts,
  while writing nothing (`Sync.RerunWritesNothing`, `Sync.ThreeItemScenario`).
  This needs the rerun to stamp every item without `time_added` on the same day
  as the first run did, because the file name carries the day of the timestamp
  (see Findings).
- `n_drafts` is incremented before `create_linkpost` runs, so a draft whose file
  already exists is still counted as a draft.
- `%z` of a zone-less datetime is empty, so the `date:` line carries no UTC offset.
- Keywords are computed and never written into the document.
- A missing title is printed as `None` in the front matter.
- `strip(' ')` removes spaces only, not other whitespace.

## Model

| member | source | states |
|---|---|---|
| `Text.Split` | pockyll.py:191 | `str.split(',')` gives at least one piece, and no piece contains the separator |
| `Text.JoinSplit` | pockyll.py:191 | joining the pieces of a split with the separator gives back the original string |
| `Text.SplitJoin` | pockyll.py:191 | splitting a join of separator-free pieces gives back the pieces, so `Split` is exactly the inverse of `Join` |
| `Text.StripLeftSuffix` | pockyll.py:192 | `lstrip(' ')` leaves a suffix of the input, and every character it removes is a space |
| `Text.StripRightPrefix` | pockyll.py:192 | `rstrip(' ')` leaves a prefix of the input, and every character it removes is a space |
| `Text.Strip` | pockyll.py:192 | the result of `strip(' ')` has no space at either end |
| `Text.StripInfix` | pockyll.py:192 | `strip(' ')` returns the infix of the input between a run of spaces at each end |
| `Text.StripKeepsStripped` | pockyll.py:192 | a string with no space at either end is left unchanged by `strip(' ')` |
| `Text.StripLeadingSpace` | pockyll.py:192 | one more leading space does not change what `strip(' ')` returns |
| `Text.Take` | pockyll.py:191 | `xs[:n]` is the prefix of length min(n, \|xs\|) |
| `Text.Fixed` | pockyll.py:220 | a strftime field of width w is exactly w characters long |
| `Text.FixedDigits` | pockyll.py:220 | a strftime field consists of decimal digits only |
| `Text.FixedValue` | pockyll.py:220 | a number below 10^w is read back from its zero-padded w-digit form |
| `Text.FixedInjective` | pockyll.py:220 | numbers below 10^w have distinct zero-padded forms |
| `Extraction.MetaContents` | pockyll.py:147 | the xpath `//meta[@name=n]/@content` gives at most one entry per meta element |
| `Extraction.MetaContentsMembers` | pockyll.py:147 | a content is in the xpath result exactly when a meta element named n carries it |
| `Extraction.MetaContentsInOrder` | pockyll.py:147 | the xpath result follows document order with one entry per matching element: a single element contributes its content exactly when its name matches, and the result for two runs of elements is the concatenation of theirs |
| `Extraction.MetaContentsFirst` | pockyll.py:189-191 | the first entry of a non-empty xpath result is the content of the first element with that name; no earlier element has it |
| `Extraction.FirstNonEmpty` | pockyll.py:147-151 | the index of the first non-empty candidate: every earlier candidate is empty, and it is past the end only when all are empty |
| `Extraction.MetaDescription` | pockyll.py:142-152 | definition: the description, og:description and twitter:description queries in turn, each tried only when the previous result is empty (its properties are in `MetaDescriptionChain`) |
| `Extraction.MetaDescriptionChain` | pockyll.py:142-152 | `get_meta_desc` returns the first non-empty list in the order description, og:description, twitter:description, or the empty list |
| `Extraction.ResolveExcerpt` | pockyll.py:231-233 | definition: the meta description when it is non-empty, otherwise the generated summary (its properties are in `ExcerptSource`) |
| `Extraction.ExcerptSource` | pockyll.py:231-233 | the summariser is used exactly when all three description tags are absent; otherwise the excerpt is the contents of the first tag name present, and every earlier name is absent |
| `Extraction.EmptyDescriptionStopsChain` | pockyll.py:147-149 | a description tag with empty content wins over a non-empty og:description |
| `Extraction.StripAll` | pockyll.py:192 | definition: the list comprehension `[x.strip(' ') for x in xs]` of pockyll.py:192 and :202 (what it guarantees is in `DocKeywords` and `StripAllPair`) |
| `Extraction.DocKeywords` | pockyll.py:182-202 | at most five keywords, each without surrounding spaces. They are the first five comma-separated entries of the keywords tag in order when the tag is present, otherwise the top five of the ranking; the extractor is used exactly when there is no keywords tag |
| `Extraction.KeywordsAsWritten` | pockyll.py:189-192 | definition: `get_doc_keywords` as written, which fails when the keywords query returns a list and otherwise ranks with RAKE (its properties are in `KeywordsAsWrittenFailsOnKeywordsTag`) |
| `Extraction.KeywordsAsWrittenFailsOnKeywordsTag` | pockyll.py:189-192 | the code as written fails exactly on pages with a keywords tag and matches `DocKeywords` on all other pages |
| `Extraction.KeywordsTagCounterexample` | pockyll.py:191 | for `<meta name="keywords" content="a, b">` the code as written raises, while the documented behaviour gives `["a", "b"]` |
| `Linkpost.DateTextDeterminesDay` | pockyll.py:220 | the printed `YYYY-MM-DD` is ten characters long and determines the calendar day |
| `Linkpost.DateText` | pockyll.py:220 | definition: `strftime('%Y-%m-%d')` (its property is in `DateTextDeterminesDay`) |
| `Linkpost.DateTimeText` | pockyll.py:249 | definition: `strftime('%Y-%m-%dT%H:%M:%S%z')` of a zone-less datetime, whose `%z` is empty (its shape is in `DateTimeTextStartsWithDay`) |
| `Linkpost.DateTimeTextStartsWithDay` | pockyll.py:220-249 | the printed datetime is 19 characters: the same `YYYY-MM-DD` that names the file, a `T`, and the time of day with `:` separators, so the `date:` line agrees with the file name's day |
| `Linkpost.TargetDir` | pockyll.py:205-209 | definition: the draft directory setting (default `_drafts/linkposts`) for a draft, else the post directory setting (default `_posts/linkposts`); what the choice guarantees is in `PathDeterminesKey` |
| `Linkpost.LinkFileName` | pockyll.py:219-220 | definition: `<dir>/<YYYY-MM-DD>-<id>.markdown` (its properties are in `FileNameDeterminesKey` and `LinkFileInTargetDir`) |
| `Linkpost.FileNameDeterminesKey` | pockyll.py:219-220 | within one directory, `<dir>/<YYYY-MM-DD>-<id>.markdown` determines the day and the id |
| `Linkpost.LinkFileInTargetDir` | pockyll.py:219-220 | for an id without '/', the linkpost file lies directly in its destination directory |
| `Linkpost.PathDeterminesKey` | pockyll.py:205-220 | when the draft and post directories differ, the path of a linkpost determines the draft status, the calendar day and the id (for ids without '/') |
| `Linkpost.TitleText` | pockyll.py:249 | definition: `%s` of the title, which prints a missing title as `None` |
| `Linkpost.ExcerptText` | pockyll.py:249 | definition: the `%s` of `summary`, the printed meta list or the generated text as it is |
| `Linkpost.LinkpostText` | pockyll.py:237-249 | definition: the document template filled with title, date, url, excerpt and article (its layout is stated by `FrontMatterLines`) |
| `Linkpost.FrontMatterLines` | pockyll.py:237-249 | with single-line fields the document opens with the eight front matter lines (layout, type, title, date, ref, excerpt between `---` delimiters), then a blank line |
| `Linkpost.PathExists` | pockyll.py:212 | definition: `os.path.exists(p)` over the modelled file system, an existing file or directory (its use is stated by `LinkpostGuards`) |
| `Linkpost.FileSystem.Exists` | pockyll.py:223 | definition: `os.path.exists(p)` on the file system object, which is `PathExists` of its fields (used in `CreateLinkpost`) |
| `Linkpost.FileSystem.Write` | pockyll.py:236 | opening for writing succeeds exactly when `p` is not itself a directory and the path's directory part is a directory; the file is then created or replaced, otherwise nothing changes |
| `Linkpost.LinkpostOutcome` | pockyll.py:204-253 | definition: the decision of `create_linkpost` as a value (its properties are in `LinkpostGuards`, `GuardsPrecedeFetch` and `OutcomeKeepsFiles`) |
| `Linkpost.LinkpostGuards` | pockyll.py:204-234 | a missing destination directory gives the RuntimeError, whatever else holds. With the directory present, an existing file gives the IOError. A file is written only at a path that did not exist, and it contains the document built from the title, date, url, excerpt and article |
| `Linkpost.GuardsPrecedeFetch` | pockyll.py:210-228 | when the directory is missing or the file exists, the outcome is the same whatever the fetch returns and whatever the title and url are: both guards are decided before the article is fetched |
| `Linkpost.OutcomeKeepsFiles` | pockyll.py:222-225 | `create_linkpost` keeps every existing file with its contents and adds at most its own file |
| `Linkpost.RetryNeverWrites` | pockyll.py:219-236 | once a call for a key has passed the directory check, a later call for the same id and draft status with a timestamp on the same day never writes |
| `Linkpost.WriteOnce` | pockyll.py:219-225 | materialising the same day, id and draft status twice is refused as already existing, and the first file stays as it is |
| `Linkpost.CreateLinkpost` | pockyll.py:204-253 | the method returns what `LinkpostOutcome` says and changes the files only by the file it wrote |
| `Sync.Present` | pockyll.py:274-282 | definition: Python truthiness of a string or `None`, as used by `all([url, item_id])` and `title in [None, '']` |
| `Sync.Complete` | pockyll.py:272-274 | definition: the item has a url and an id |
| `Sync.IsDraft` | pockyll.py:280-284 | definition: the item's title is missing or empty |
| `Sync.Stamp` | pockyll.py:286-292 | definition: the item's `time_added` when present, else `datetime.now()` while the item is processed (its properties are in `StampsSameDay` and `NextDayRerunDuplicates`) |
| `Sync.Attempt` | pockyll.py:298-299 | definition: the call `create_linkpost(config, item_id, title, url, timestamp, is_draft)` for one item (its properties are in `RunAttempts`, `RunPastItem` and `RetryItemNeverWrites`) |
| `Sync.Step` | pockyll.py:270-302 | definition: one iteration of the `for` loop, which skips, counts drafts, and applies the outcome of `create_linkpost` (its properties are in the `SyncBody` and `Run` lemmas) |
| `Sync.Run` | pockyll.py:270-302 | definition: the loop over the first n items with the body `Step` (its properties are in the `Run` lemmas; it specifies `SyncBatch`) |
| `Sync.LoopHaltsAtFailure` | pockyll.py:270-302 | once an iteration has raised, no later item is visited and the state stays as it was |
| `Sync.LoopCountsBounded` | pockyll.py:270-284 | for a body that adds to at most one counter per item, the two counters grow by at most the number of items visited |
| `Sync.LoopCounts` | pockyll.py:270-284 | for a body that counts as `sync` does, the counters of an unfailed loop are the numbers of incomplete and of complete untitled items visited |
| `Sync.LoopKeepsFiles` | pockyll.py:270-302 | for a body that keeps every file, every file present part-way through the loop is there, unchanged, at every later point |
| `Sync.LoopAddsOnly` | pockyll.py:270-302 | for a body that adds files only at the paths allowed for its item, every file the loop creates is allowed for some item it visited |
| `Sync.LoopOverIdle` | pockyll.py:270-302 | for a body that writes nothing and never fails on the current files, the loop leaves the files unchanged and does not fail |
| `Sync.LoopCompletes` | pockyll.py:270-302 | for a body that never raises, the loop goes through the whole batch |
| `Sync.SyncBodyNeverFails` | pockyll.py:204-216 | with both destination directories present, no iteration of `sync` raises the `RuntimeError` |
| `Sync.SyncBodyIdle` | pockyll.py:222-225 | on files where no complete item would be written, no iteration writes or fails |
| `Sync.RunNext` | pockyll.py:270-302 | until a failure, one more item advances the run by exactly one iteration of the loop body |
| `Sync.RunSkips` | pockyll.py:274-277 | an item without url or id adds one to the skipped count and changes nothing else |
| `Sync.RunAttempts` | pockyll.py:280-302 | a complete item applies the outcome of `create_linkpost` to the files, counts a draft when it is untitled, and records the missing directory when the call raised |
| `Sync.RunNotFailedBefore` | pockyll.py:270-302 | a run that has not failed had not failed at any earlier point |
| `Sync.RunPastItem` | pockyll.py:294-302 | a run that got past a complete item found its destination directory, and the files after it are the files before it with that call applied |
| `Sync.RunCountsBounded` | pockyll.py:266-284 | `n_skipped + n_drafts` never exceeds the number of items visited, so the reported post count is never negative |
| `Sync.CountsPartition` | pockyll.py:274-284 | every item is either incomplete, a complete draft or a complete post |
| `Sync.RunHaltsAtFailure` | pockyll.py:212-216 | after a RuntimeError no later item is visited and nothing else changes |
| `Sync.RunCounts` | pockyll.py:272-284 | until a failure, every incomplete item is counted as skipped without stopping the loop, and every complete untitled item is counted as a draft, whether or not its file is written |
| `Sync.StepKeepsFiles` | pockyll.py:294-302 | one iteration never changes or removes an existing file |
| `Sync.RunKeepsFiles` | pockyll.py:270-302 | a file present at any point of the run is there, unchanged, at every later point |
| `Sync.RunWritesOnlyTargets` | pockyll.py:272-299 | every file a run creates is the linkpost of a complete item; incomplete items get none |
| `Sync.RunAroundItem` | pockyll.py:294-302 | in a run through the whole batch, every complete item found its destination directory, and the final files include what its call left |
| `Sync.StampsSameDay` | pockyll.py:286-292 | in a same-day rerun, every complete item gets a timestamp on the same day as in the first run |
| `Sync.RetryItemNeverWrites` | pockyll.py:219-236 | a complete item that passed the directory check is not written again on later files by a same-day rerun with the same settings and directories |
| `Sync.ItemSettled` | pockyll.py:286-302 | after a full run, no complete item of the batch would be written again by a same-day rerun |
| `Sync.RunOverSettled` | pockyll.py:270-302 | on files where no item would be written, a run changes nothing and only counts |
| `Sync.RerunWritesNothing` | pockyll.py:256-307 | syncing the same batch again over the files the first run left, with the same settings and directories and a clock that stamps items without `time_added` on the same day, writes nothing and gives the same counters; the fetched pages may differ |
| `Sync.NextDayRerunDuplicates` | pockyll.py:286-292 | a rerun on the next day of a batch whose item has no `time_added` writes a second file for the same bookmark |
| `Sync.ReportedCounts` | pockyll.py:304-307 | the summary counts incomplete items as skipped, complete untitled ones as drafts, and complete titled ones as posts, including those whose file already existed |
| `Sync.RunCompletes` | pockyll.py:212-216 | with both destination directories present, a run never aborts |
| `Sync.SyncOutcome` | pockyll.py:256-309 | definition: the whole `sync` call as a value, with the token check, the loop and the cursor update (its properties are in `ReportedCounts` and the `Sync` method) |
| `Sync.ThreeItemScenario` | pockyll.py:256-307 | a batch holding an untitled item, a titled item (both with `time_added`) and an item without a url reports 1 post, 1 draft and 1 skipped. A rerun at any later time, with any fetch results, writes nothing and reports the same |
| `Sync.SyncItem` | pockyll.py:270-302 | one pass of the loop advances the run by exactly one iteration: the method's files, counters and failure are those of `Run` one item further |
| `Sync.SyncBatch` | pockyll.py:270-302 | the loop ends with the files, counters and failure that `Run` gives for the whole batch, stopping at the first `RuntimeError` |
| `Sync.Sync` | pockyll.py:256-309 | a missing access token aborts before anything else. The files end as the loop specification `Run` says. The cursor becomes the batch's `since` exactly when a non-empty batch was visited to the end, and is unchanged otherwise |

## Left out

- Command-line dispatch and help text (`main`, `usage`): no decision logic.
- Loading and saving the YAML configuration, and `create_config`: file I/O. The
  configuration is a `Config` object whose directory settings and access token
  are fixed. After the cursor is updated, `save_config` writes it out; that write
  is not modelled.
- The OAuth flow in `auth`: browser interaction and network calls.
- The Pocket client in `get_list`: the batch, in dictionary iteration order, and
  its `since` value are inputs to `Sync`.
- `requests.get`, readability's `Document.summary`, lxml parsing, the sumy
  TextRank summariser and RAKE: these are library code. `Env.fetch` gives, for a
  url, a `Page` holding their results.
- The printed form of the list that `get_meta_desc` returns: Python's list repr is
  left abstract as `Env.listText`.
- `datetime.utcfromtimestamp` and `datetime.now()`. An item's `timeAdded` is
  already a `Timestamp`, and the current time while item `i` is processed is
  `clock(i)`.
- Timestamps before 1900 are outside the `Timestamp` type, because Python 2's
  `strftime` refuses them.
- Exceptions from the libraries, such as a failed fetch, a parse error or a
  non-numeric `time_added`. The model assumes these calls return, so which of
  their errors `sync` would swallow as `IOError` is not modelled.
- `print` logging and the summary message text: the counters are the report.
- Configuration values that are not strings, such as a directory setting holding
  `None`: settings are a map from strings to strings.
- Path normalisation, such as a trailing `/` or `..`: paths are compared as
  strings.
- Linkpost.CreateLinkpost: the document is built with the corrected `DocKeywords`.
  The code as written raises `AttributeError` at pockyll.py:234, before
  `io.open`, on every page with a keywords tag, so on such pages the method's
  `Written` outcome is not what the code does (see Findings).
- Sync.RunCompletes: "never aborts" holds for the corrected keyword step. With
  the code as written, a page with a keywords tag aborts the batch with the
  uncaught `AttributeError`, and the cursor is not saved.
- Character encoding: the file is written as UTF-8 text, and the model keeps
  characters.

## Findings

| source | as written | input that shows it | evidently intended | confidence | as-written member | corrected member |
|---|---|---|---|---|---|---|
| pockyll.py:286-292 | an item without `time_added` is stamped with `datetime.now()`, and the file name carries that day, so the existence check at pockyll.py:223 misses a file written on an earlier day | the batch `[url "u", id "1", title "B", no time_added]` synced on 2020-01-01 and again on 2020-01-02 over the first run's files, when the feed returns the same item again | one linkpost per bookmark, as the refusal to overwrite existing files intends | medium, not executed | `Sync.NextDayRerunDuplicates` | `Sync.RerunWritesNothing` |
| pockyll.py:191 | `keywords.split(',')` is called on the list that `xpath` returns. This raises `AttributeError`, which is not an `IOError`, so the whole sync aborts and the cursor is not advanced | a page with `<meta name="keywords" content="a, b">` | split the content of the first keywords tag, giving `["a", "b"]`, as the docstring at pockyll.py:183-186 describes | high, not executed | `Extraction.KeywordsTagCounterexample` | `Extraction.DocKeywords` |
