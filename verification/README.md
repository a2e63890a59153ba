# Places scraper and job manager, modelled in Dafny

This project models the core of a Google-Places business scraper and the web
job manager around it.

- `run_scraper` (scraper.py) works in these steps:
  - It turns category selections into an ordered list of searches.
  - It geocodes the location when no centre is given.
  - It runs each search over at most three result pages and collects a
    place-id → category table, in which the first writer wins.
  - It fetches each place's details and drops failed, non-OK, permanently
    closed and mismatched places.
  - It normalises the fields, sorts the records by category and then
    rating, and reports a percent schedule that never goes down.
- `get_summary` counts the records.
- The Flask app (app.py) does the rest:
  - It validates a submission and merges the preset categories with the
    custom terms.
  - It creates the job record.
  - It feeds the scraper's progress callback into the record.
  - It applies one of three terminal transitions, each guarded by "the job
    is still in the table".
  - It expires old jobs in memory and on disk, and looks a job up in
    memory first and then on disk.
  - It streams a job's progress to the browser.

Everything is a pure function over immutable datatypes:

- The provider's replies (geocoding, each search's pages, each place's
  details) are given as inputs.
- The job table is a `Store` with an in-memory map and a disk map. The
  worker and the stream reader are sequential transitions of that store.
- Ratings are `Option<nat>` in tenths of a star.
- Log lines are a `Line` datatype, not formatted strings.
- Whether a search result lies within the radius is a boolean given with
  the result.

Modules, one per file:

- `Wrappers`: `Option` and `Result`.
- `Text`: Python's `strip`, `lower`, `title`, `split` and `join`, and
  string order.
- `Lists`: one generic fact about element-by-element list building: it
  distributes over concatenation.
- `Taxonomy`: the preset, type and exclusion tables, `_resolve_category`
  and the mismatch rule.
- `Queries`: `resolve_search_queries`.
- `Fields`: price level, opening hours, phone, photo URL and `slugify`.
- `Sorting`: a stable insertion sort on a tuple key.
- `Events`: log lines and the percent schedule.
- `Collect`: the collection loop.
- `Details`: the detail pass.
- `Scraper`: `run_scraper`.
- `Summary`: `get_summary`.
- `Jobs`: the app's job table and worker.
- `Stream`: the progress stream.

## Model

| member | source | states |
|---|---|---|
| Text.Strip | scraper.py:387-388 | The result has no leading or trailing white space and is no longer than the input. |
| Text.StripRemovesSpace | app.py:308-312 | `strip()` removes only white space, and only at the two ends: the result is a slice of the input with all-space text on either side. |
| Text.StripTrimmed | app.py:308-312 | Stripping text that is already trimmed changes nothing. |
| Text.Lower | scraper.py:394 | Lower-casing keeps the length and maps each character on its own (ASCII letters only, see Left out). |
| Text.Title | scraper.py:398 | `title()` keeps the length and each character's letter. A letter comes out upper-case exactly when it starts a word, that is when no letter precedes it. Other characters are unchanged. |
| Text.Split | scraper.py:388 | `split(c)` gives at least one piece. No piece contains `c`, and joining the pieces with `c` gives back the input. |
| Text.SplitJoin | scraper.py:388 | Splitting pieces that were joined on a separator they do not contain gives back the same pieces. |
| Text.CommaTerms | app.py:331-332 | The comma terms of a text are all non-empty and stripped, and contain no comma. |
| Text.CommaTermsJoin | app.py:331-332 | Terms joined with commas split back into exactly those terms: the comma split inverts `join`. |
| Text.CommaTermsOnlySeparators | app.py:331-332 | Text made only of commas and white space gives no term. |
| Text.StrLessTransitive | scraper.py:606 | Python's string order on category names is transitive. |
| Text.StrLessTotal | scraper.py:606 | Python's string order on category names is total: two names are equal or one precedes the other. |
| Taxonomy.Preset | scraper.py:30-152 | Every preset key maps to a non-empty list of searches. |
| Taxonomy.ResolveCategory | scraper.py:360-370 | The category is the mapping of the first type tag that has one, in list order. When no tag has one, it is the fallback. |
| Taxonomy.ExcludeFor | scraper.py:226-234 | A category has a non-empty exclude set exactly when it has an entry in the exclusion table. |
| Taxonomy.AnyExpected | scraper.py:373-375 | Holds exactly when some tag belongs to the inverse image of the type → category table for the category. |
| Taxonomy.IsMismatch | scraper.py:562-568 | A place is a mismatch exactly when three things hold: its discovery category has a non-empty exclude set, some tag is in that set, and no tag maps to that category. |
| Taxonomy.NoExpectedTypes | scraper.py:171-222 | No type tag maps to "Guest House" or to "Yoga & Pilates". |
| Taxonomy.AnyExcludedTagDrops | scraper.py:562-568 | For "Guest House" and "Yoga & Pilates", any excluded tag makes a mismatch, in both directions. |
| Taxonomy.ExpectedTagRescues | scraper.py:565-568 | Adding a tag that maps to the category turns a mismatch into a keep. |
| Taxonomy.NoExclusionKeeps | scraper.py:562-564 | A category without an exclude entry never produces a mismatch. |
| Queries.AdHoc | scraper.py:397-399 | An unknown token gives one search whose query is the stripped token and whose label is that query title-cased (the same letters, each with its case chosen by word position), with no type filter. |
| Queries.Expand | scraper.py:393-399 | Every token contributes at least one search. |
| Queries.ExpandCases | scraper.py:393-399 | A token whose key is a preset contributes exactly that preset's list. Any other token contributes exactly one ad-hoc search. |
| Queries.ResolveTokens | scraper.py:392-400 | The result has at least one search per token, and is empty exactly when there are no tokens. |
| Queries.ResolveAppend | scraper.py:392-400 | Resolving two token lists one after the other is resolving their concatenation: each token's searches depend on that token alone. |
| Queries.ResolveOneToken | scraper.py:392-400 | Within any input, a token's searches sit at the position given by the tokens before it. They are the preset's list, or the token's single ad-hoc search. |
| Queries.Categories | scraper.py:385-390 | Every piece taken from a comma string is a non-empty stripped term. |
| Queries.ResolveSearchQueries | scraper.py:385-401 | The result is empty exactly when the input yields no categories. |
| Queries.BlankCommaStringResolvesToNothing | scraper.py:386-388 | A comma string of only commas and blanks resolves to no search. |
| Queries.CommaStringMatchesTerms | scraper.py:385-390 | A comma string resolves to the same searches as the list of its terms. |
| Fields.PriceLevelToString | scraper.py:354-357 | A missing level gives "". A level at most 0 gives "Free". A positive level n gives n dollar signs. |
| Fields.PriceLevelRoundTrip | scraper.py:354-357 | The string can be parsed back to the level, with every non-positive level read as 0. |
| Fields.FormatOpeningHours | scraper.py:347-351 | No hours object, or one without weekday lines, gives "". Otherwise the text starts with the first weekday line. Its inverse is `Fields.SplitFormattedHours`. |
| Fields.SplitFormattedHours | scraper.py:347-351 | Splitting the formatted hours on " \| " gives back the weekday lines, provided no line contains a bar. |
| Fields.PhotoUrl | scraper.py:572-581 | The URL is empty exactly when there is no photo or the first photo has no reference. Otherwise it is built from the first reference. |
| Fields.PhotoUrlUsesFirstOnly | scraper.py:575-577 | Photos after the first never change the URL. |
| Fields.PhotoReferenceRecoverable | scraper.py:578-581 | The photo reference appears verbatim at a fixed offset of the URL. |
| Fields.Phone | scraper.py:588 | The phone is the international number when it is non-empty, and otherwise the local number or "". |
| Fields.Slugify | scraper.py:378-382 | A slug holds only lower-case letters, digits, "_" and "-", and never two "_" in a row. |
| Fields.SlugifyIdempotent | scraper.py:378-382 | Slugifying a slug changes nothing. |
| Fields.SlugifyText | scraper.py:378-382 | Without its "_", a slug is exactly the letters, digits and "-" of the lower-cased, stripped text, in order. It holds one "_" for each run of white space and underscores left once the other characters are dropped. |
| Fields.KeepSlugInputText | scraper.py:380 | Dropping the characters that are not word characters, white space or "-" keeps every letter, digit and "-", in order. |
| Fields.CollapseKeepsText | scraper.py:381 | Collapsing runs neither adds nor drops any character outside the runs. |
| Fields.CollapseCountsRuns | scraper.py:381 | Collapsing leaves exactly one "_" per run of white space and underscores. |
| Sorting.Sort | scraper.py:606 | The result is a permutation of the input, ordered by the key. For every key, the records with that key keep their input order (stability). |
| Sorting.InsertSorted | scraper.py:606 | Inserting into an ordered list keeps it ordered. |
| Sorting.InsertMultiset | scraper.py:606 | Inserting adds exactly the one element. |
| Sorting.InsertWithKey | scraper.py:606 | Inserting into an ordered list puts the element before every element with an equal key and keeps their order. Since the sort inserts from the back, this is what makes it stable. |
| Sorting.KeyLessTotal | scraper.py:606 | Tuple order on (category, -rating, 0) keys is total. |
| Sorting.KeyLessTransitive | scraper.py:606 | Tuple order on the keys is transitive. |
| Events.SearchPct | scraper.py:457 | The percent of search qi of n lies in [5, 44], and the first search is at 5. |
| Events.SearchPctMonotone | scraper.py:457 | Later searches never report a lower percent. |
| Events.DetailPct | scraper.py:537 | The percent of place i of n lies in [45, 95], and equals 95 exactly at the last place. |
| Events.DetailPctMonotone | scraper.py:537 | Later places never report a lower percent. |
| Collect.Pages | scraper.py:475-490 | A search reads at least 1 and at most 3 pages. The first is the initial reply, and each later page is the reply to the matching follow-up call. |
| Collect.PagesFrom | scraper.py:487-495 | A follow-up page is read only after a page with a next-page token. Paging stops early only when a follow-up call raises. |
| Collect.Lookup | scraper.py:482 | The lookup finds a category exactly when the id is in the table, and then the table holds that (id, category) entry. |
| Collect.AddPlace | scraper.py:480-486 | A result adds an entry exactly when it has a non-empty id that is not yet in the table and lies within the radius. The new entry goes at the end. |
| Collect.AddPlaces | scraper.py:480-486 | A page only appends entries, all with the search's category, each offered within the radius by the page. Every in-radius result with an id ends up in the table. |
| Collect.FirstWriterWins | scraper.py:482-486 | Once an id is in the table, no later page changes its category. |
| Collect.LookupPrefix | scraper.py:482-486 | Appending entries never changes the category of an id already present. |
| Collect.AddPlacesHas | scraper.py:480-486 | After a page, the table holds exactly the ids it held and the ids the page offers within the radius. |
| Collect.AddPages | scraper.py:476-490 | A search's pages only append entries, each offered by one of the pages. Afterwards the table holds exactly the ids it held and the ids the pages offer. |
| Collect.PagesOffered | scraper.py:476-496 | Whatever the pages offer, one of the search's replies offered. |
| Collect.SearchPass | scraper.py:476-496 | A text search only appends entries of its category, each offered within the radius by one of its replies. Every id its pages offer ends up in the table. |
| Collect.NearbyPass | scraper.py:498-522 | The same holds for a nearby search, and a nearby search whose first call raises adds nothing. |
| Collect.LookupAdded | scraper.py:482-486 | When a table is extended with entries of one category, and holds exactly its old ids plus the flagged ones, a lookup returns the old answer. For a newly flagged id it returns that category. |
| Collect.ReadLabels | scraper.py:474-522 | After a descriptor's text search and its nearby search, a lookup returns the old answer. For an id that a page it read offers, it returns the descriptor's category. |
| Collect.SearchOneLabels | scraper.py:460-522 | After one descriptor's searches, a lookup returns the old answer. For a new id, it returns the descriptor's category when a page the descriptor read offers the id. The pages read are none after a raise or a bad status, else the text pages and then, for a typed descriptor, the nearby pages. |
| Collect.SearchOne | scraper.py:453-522 | One descriptor emits its "Searching" line at its percent and nothing else with a percent. It fails exactly when the text search replies REQUEST_DENIED, with that message. A text search that raises leaves the table unchanged. |
| Collect.SearchFrom | scraper.py:452-524 | The percents of the remaining searches climb within [SearchPct(qi), 44]. A success only appends entries, each from one of the remaining searches. A failure is a denied reply of one of them. |
| Collect.SearchFromLabels | scraper.py:452-524 | After the remaining searches, a lookup returns the old answer. For a new id, it returns the category of the first remaining descriptor whose pages offer the id. |
| Collect.CollectPlaces | scraper.py:446-524 | The collected table has distinct, non-empty ids. Each entry carries the category of a search whose replies offered that id within the radius. A lookup returns exactly the category of the first descriptor whose pages offer the id, and nothing when no descriptor's pages offer it. The percents climb within [5, 44]. |
| Collect.FirstLabelAt | scraper.py:452-486 | The first descriptor whose pages offer an id gives the label. |
| Collect.FirstLabelSome | scraper.py:452-486 | An id offered by some descriptor's pages gets a label. |
| Collect.FirstLabelNone | scraper.py:452-486 | An id offered by no descriptor's pages gets no label. |
| Collect.CollectFindsOffered | scraper.py:446-524 | Every id offered within the radius by a page some descriptor read is in the collected table. |
| Collect.CollectOnlyOffered | scraper.py:446-524 | An id that no page read by any descriptor offers is not in the collected table. |
| Collect.FirstFinderWins | scraper.py:446-524 | Suppose descriptor j is the first whose pages offer an id. Then the collected table maps the id to descriptor j's category, whatever later descriptors find. |
| Details.BuildBusiness | scraper.py:583-600 | The record keeps the place id. Its category is resolved from the type tags with the discovery category as fallback. Rating, phone, photo URL, price level and hours are the normalised fields. |
| Details.Judge | scraper.py:540-568 | A place is kept exactly when the call returned status OK, the place is not permanently closed and it is not a mismatch. A kept record has the place's id and resolved category. A failure is exactly a raised call. |
| Details.StepEvents | scraper.py:537-602 | A place's step starts with its "Fetching details" line at its percent. The step carries that percent once more exactly when the place is kept. |
| Details.DetailFrom | scraper.py:536-604 | The rest of the pass keeps exactly the places that the verdicts keep, in table order, with distinct ids. Its percents climb within [DetailPct(i+1), 95]. |
| Details.KeepStep | scraper.py:536-604 | Prepending one place's verdict keeps both the exact-membership and the distinct-id properties. |
| Details.DetailPass | scraper.py:532-604 | The pass keeps exactly the places the verdicts keep, in table order, at most one per collected place, with distinct ids. Its percents climb within [45, 95]. |
| Scraper.Locate | scraper.py:438-444 | Given coordinates, nothing is emitted. Otherwise "Geocoding" is emitted first, at 2, and the geocoder's answer or error is passed on. The percents stay within [2, 5]. |
| Scraper.DetailPhase | scraper.py:526-607 | An empty table ends with "No places" at 100. Otherwise the pass ends with "Done" at 100. The records are sorted, have distinct ids and are exactly the kept places. They are the kept places, in table order, run through the stable sort, so records with equal keys keep the table's order. |
| Scraper.SearchPhase | scraper.py:446-607 | The percents climb within [5, 100]. A run that returns ends at 100 with the kept places of the collected table, in table order and then stably sorted. |
| Scraper.RunScraper | scraper.py:405-607 | The run emits nothing exactly when no search resolves, and then it fails with "No categories selected". Its percents never go down and stay in [2, 100]. A run that returns ends at 100. Its records are sorted by category and then rating, have distinct ids, and are exactly the kept places of the collected table, in table order and then stably sorted. |
| Scraper.SortedByCategoryThenRating | scraper.py:606 | In the sorted records, an earlier record's category comes first, or the categories are equal and its rating (missing counted as 0) is not lower. |
| Scraper.SortKeepsDistinct | scraper.py:606 | Sorting keeps the ids distinct. |
| Summary.FirstSeen | scraper.py:742 | The categories are listed once each, and a category is listed exactly when some record has it. |
| Summary.Counts | scraper.py:742 | Each category's count is the number of records in it, in first-seen order. |
| Summary.CountsSumToTotal | scraper.py:742 | The counts sum to the number of records. Categories are distinct, every record's category is counted, and every count is at least 1. |
| Summary.Rated | scraper.py:743 | Every kept record has a rating, and no more records are kept than given. |
| Summary.RatedCounts | scraper.py:743 | Each record with a rating is kept exactly as often as it occurs; a record without one is never kept. |
| Summary.RatedAppend | scraper.py:743 | Filtering keeps input order: the rated records of a concatenation are those of the first part followed by those of the second, and one record is kept exactly when it is rated. |
| Summary.TopRated | scraper.py:746 | The top list holds min(5, rated) rated records, ordered by rating and then reviews descending. No record left out ranks above one kept. Records tied on both keep their input order, and for each tie the kept ones are the first of that tie among the rated records. |
| Summary.TopOrder | scraper.py:746 | Within the top list, an earlier record has a higher rating, or the same rating and at least as many reviews. |
| Summary.Entries | scraper.py:747-750 | Entry k carries record k's name, category and rating, and its review count or 0 when it has none. The entries are in descending order. |
| Summary.GetSummary | scraper.py:740-772 | `total` is the number of records and equals the sum of the category counts. `rated_count` counts the rated records and is at most `total`. `by_category` is the per-category count list. `top5` holds the entries of the top-rated records and has at most 5 of them, in descending order. The preview keeps the records' length and order. |
| Jobs.GetJob | app.py:208-215 | The in-memory record wins, then the disk snapshot. There is no job exactly when neither exists. |
| Jobs.Cleanup | app.py:220-246 | Exactly the expired records leave the table, whatever their status, and exactly the stale snapshots leave the disk. Everything else is unchanged. |
| Jobs.UndatedJobsKept | app.py:227-230 | A record without `created_at` is never removed. |
| Jobs.CleanupLater | app.py:220-246 | A cleanup followed by a later one is the later one alone. |
| Jobs.LookupAfterCleanup | app.py:208-246 | After cleanup the lookup returns the unexpired in-memory record, or else the fresh snapshot. It returns nothing exactly when both are gone. |
| Jobs.MergeCategories | app.py:329-333 | The merged list starts with the submitted categories and continues with non-empty stripped terms only. Empty custom text adds nothing. |
| Jobs.MergeTerms | app.py:329-333 | Custom text written as comma-joined terms merges to the categories followed by exactly those terms. |
| Jobs.NewJob | app.py:336-347 | A new job is running at progress 0, with no messages, summary, file or error, and is created now. |
| Jobs.Validate | app.py:304-320 | The checks run in order: no body, then a blank key, then a blank location, then neither categories nor custom text. Each gives its message exactly when the earlier checks passed. An accepted request carries the stripped key and location, the merged categories and the radius (default 3000). |
| Jobs.Submit | app.py:300-360 | Cleanup always runs first. A rejection answers 400 and adds no record. An acceptance adds exactly the new running record under the job id and launches the worker with the validated request. |
| Jobs.Record | app.py:369-371 | The callback appends the line, sets the progress only when a percent is given, and changes nothing else. |
| Jobs.Progress | app.py:366-371 | The callback does nothing when the job is gone. Otherwise it updates only that record. |
| Jobs.FeedEffect | app.py:366-380 | After a whole run of callbacks, the record holds its old messages plus every line in order. Its progress is the last percent reported, and nothing else changes. |
| Jobs.CompleteWith | app.py:382-406 | When the job is still present, a non-empty result completes it at 100. It gets the file paths named after the slug of the location, the summary and the "Exported" line, and is saved to disk. Otherwise nothing happens. |
| Jobs.CompleteEmpty | app.py:407-414 | An empty result completes the job at 100 with a zero summary, no file and the "No businesses found" line, and saves it. A removed job is untouched. |
| Jobs.Fail | app.py:416-422 | An exception marks the job as an error with its message, appends "Error: …" and saves it. Progress, file and summary are kept. A removed job is untouched. |
| Jobs.Work | app.py:363-422 | A job removed during the run is left exactly as it was. For a job still present, the log gains the run's lines in order and then one closing line. The job ends completed exactly when the run succeeded and failed exactly when it failed. |
| Jobs.RemovedJobUntouched | app.py:394-422 | If cleanup removed the job during the run, no terminal transition changes anything. |
| Jobs.SettleEffect | app.py:366-422 | For a present job, the run's lines are appended in order and then exactly one closing line. The status is completed exactly on success and error exactly on failure. The snapshot saved is the record. |
| Jobs.SettleCompleted | app.py:382-414 | On success, a non-empty result gets its summary, file path and "Exported N" line. An empty result gets the zero summary, no file and "No businesses found". |
| Jobs.FinishedJobReadable | app.py:184-246 | A finished job can be looked up through any cleanup up to two hours after it was saved. |
| Jobs.FinishedJobForgotten | app.py:220-246 | Once both its creation and its save are more than two hours old, cleanup makes the job unknown. |
| Jobs.CommaOnlyCustomQueryAccepted | app.py:312-333 | Custom text "," with no categories passes validation and merges to no category. |
| Jobs.EmptyLaunchFails | app.py:373-422 | A worker launched with no categories ends the job in error with "No categories selected" as its only new line. |
| Jobs.CommaOnlyCustomQueryFails | app.py:300-422 | A submission whose only custom text is "," is accepted, and its job then ends in error with "No categories selected". |
| Stream.PollLive | app.py:433-466 | One round sends the messages from the last index on and the progress only when it changed. It ends with completed or error exactly when the status it read is no longer running. The summary, the error and `has_file` come from the later reads of the record. A missing job gives one "Job not found" error. |
| Stream.Poll | app.py:433-466 | The same round on a record read under the lock, so that all three reads see one state. |
| Stream.Drain | app.py:429-466 | A stream makes at most one round per poll, and at least one when polled at all. A round's closing event, if it has one, is completed or error. |
| Stream.DrainEndsOnce | app.py:455-466 | Only the last round can carry the terminal event. Without one, every poll was used. |
| Stream.WireEndsOnce | app.py:455-466 | On the wire, no event before the last is terminal, and the last is terminal exactly when the stream stopped on completion or error. |
| Stream.DrainSendsEachMessageOnce | app.py:441-446 | Over an append-only log, the stream sends every message from its start index to the last log it saw, each exactly once and in order. |
| Stream.DrainProgressChanges | app.py:448-452 | No two progress events in a row carry the same percent, counting the reader's last one. |
| Stream.DrainLastProgress | app.py:448-452 | The reader remembers the last progress it sent. |
| Stream.Snapshot | app.py:434-439 | The stream reads the in-memory table only. A job on disk alone is not found. |
| Stream.UnknownJobStream | app.py:434-439 | A job not in memory gets exactly one "Job not found" error, even when `_get_job` would find it on disk. |
| Stream.FinishedJobStream | app.py:382-466 | A fresh reader of a finished job sends its whole log, then the final progress (100 for a completed job), then the terminal event. A completed job carries its summary, the empty-run summary for no records, and `has_file` exactly when the result was non-empty. |
| Stream.CompletedEventCanLackResult | app.py:394-460 | Without the lock, a round can read "completed" before the worker writes the file path and the summary. The stream then ends with no summary and no file for a run that exported records. |
| Stream.LockedStreamSendsWholeLog | app.py:433-466 | When every round reads under the lock, a stream that ends has sent the whole final log, closing line included. |
| Stream.ClosingLineCanBeLost | app.py:394-466 | With the reads as written, a round can find no new message, then find the status finished, and stop without sending the closing line. |

## Left out

- The licence gate (app.py:323-327) is not modelled: an invalid licence answers 403 before any job is created. So is the licensing code around it (HTTP calls, SHA-256 hashing, the cache file).
- `avg_rating` is not a field of the summary. It is a float average rounded to one decimal.
- Export to Excel and CSV and its file I/O are left out (app.py:390-391). An export or summary error raised inside the `try` reaches the `except` branch and marks the job as an error. The model takes the completed path for every non-empty result.
- The "Found" line after geocoding carries only the formatted address. The coordinates it prints are left out.
- Ratings are tenths of a star (`Option<nat>`), not floats. Coordinates are opaque integers that are never computed with.
- `_is_within_radius` (haversine distance, scraper.py:336-345) is the `inRadius` flag given with each search result.
- Geocoding, the search, nearby and details calls, and `time.sleep` are the provider's given replies. A missing reply stands for a raised request error.
- The job id (`uuid4`), the clock and the thread are parameters. The worker and the stream reader are sequential steps.
- Flask routes, JSON encoding, SSE framing, the 0.5 s poll sleep and the download route are left out.
- Reading a snapshot from disk cannot fail here. The source treats a corrupt `_meta.json` as no job.
- A snapshot's file modification time is its `savedAt` time. The `<id>_*` export files deleted together with a stale snapshot are not modelled.
- Jobs.Validate: a JSON body that is an empty object `{}` is falsy in Python and is answered "No data provided". The model writes it as a payload with every field absent and answers "Google API key is required". Both are 400 with no job created. A body whose key or location is not a string is also left out; it would raise.
- Text.Lower: only ASCII letters are lower-cased. Python's `str.lower()` also maps other letters.
- Text.Title: only ASCII letters are cased, and only they count as letters for word starts. Python's `str.title()` is Unicode-aware.
- Fields.Slugify: the `\w` class is restricted to ASCII letters, digits and "_". Python keeps the "ã" of "São Paulo", which the model drops, so the export file name can differ.
- Events.DetailPct: the percent is the exact floor 45 + ⌊50·i/n⌋. Python computes `int((i / n) * 50)` in floating point. For i = 29, n = 50 Python gets 28.999999999999996 and reports 73, where the model reports 74. Both stay in [45, 95] and never go down.
- Events.SearchPct: the percent is the exact floor 5 + ⌊40·qi/n⌋. Python's float product can likewise come out one lower. The range [5, 44] and monotonicity hold either way.
- The model keeps three behaviours of the source that a reader might not expect:
  - the status of a nearby search is never checked, so a REQUEST_DENIED there is not fatal (scraper.py:498-522);
  - the status of follow-up pages is not checked (scraper.py:487-495);
  - a text search that raises or replies with a bad status skips that descriptor's nearby search too (scraper.py:476-496).

## Findings

| source | as written | input that shows it | evidently intended | confidence | as-written member | corrected member |
|---|---|---|---|---|---|---|
| app.py:434-466 | Only `jobs.get` holds the lock. The messages, the progress and the status are then read from the live record, while the worker appends its closing line and sets the status in one locked block (app.py:394-422). | The reader's message loop finds no new message. The worker then appends "Exported N businesses…" (or "No businesses found." or "Error: …") and sets the status. Then the reader reads the status, sends completed or error, and stops. The closing line is never sent. | Hold the lock for the whole round, or read the status before the messages, so that a stream that stops has sent the whole log. | medium, not executed | Stream.ClosingLineCanBeLost | Stream.LockedStreamSendsWholeLog |
| app.py:455-460 | The round reads the status, then the summary, then the file path, all without the lock. The worker sets the status first and the file path and summary after it (app.py:396-402). | A run returns records. The worker has set "completed" but not yet the file path or the summary, and the reader reads all three in that gap. The stream sends `{"type": "completed", "summary": null, "has_file": false}` and stops. The error path can likewise send a null message. | Read the status, summary and file path under the lock, or set the status last, so that the completed event carries the summary and the file. | medium, not executed | Stream.CompletedEventCanLackResult | Stream.FinishedJobStream |
