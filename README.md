# WikiHow crawler and dataset builder, modelled in Dafny

The system collects how-to articles from the language editions of WikiHow and turns
them into a question-answering dataset. It works in four stages:

- **URL discovery** (`generate_urls_file` in `main.py`). It walks every category of every
  requested language, page by page. Each URL not seen before in the run is appended to a
  catalog file `urls.jsonl`, with a fresh identifier and `is_processed = false`.
- **Processing** (the main loop of `main.py`). It groups the catalog by (language,
  category) in sorted key order and keeps only the pending rows, capped at
  `max_per_category` when positive. Each article is fetched and converted by
  `process_article`. The result is appended to the shard `wikihow_{lang}_{category.lower()}.jsonl`
  (categories differing only in case append to the same shard),
  the row is flagged as processed and a per-category success counter is bumped. A later
  run resumes with the rows still pending.
- **The earlier crawler** (`main_old.py`). It scrapes categories directly, cuts every
  page's URLs to what the cap leaves, and deduplicates articles by their page id.
- **Dataset building**:
  - `merge_categories.py` concatenates the Spanish shards, tagging each row with the
    language and category parsed from its file name, and fills missing reference counts
    with 0;
  - `dataloader_example.py` renders each article's methods as long and short answer
    texts, and yields one example per line of the merged file for the selected
    configuration.

The model is split into these modules:

| module | file | models |
|---|---|---|
| `Common` | common.dfy | an option type and "kept in order" (subsequence) |
| `Text` | text.dfy | the Python string operations the code uses: `isspace`, `lower` (ASCII and Latin-1), `replace`, `strip`, `re.sub(r"\n+", "\n", …)`, `split`, `str(int)` |
| `ArticleRecord` | article.dfy | `process_article` |
| `Catalog` | catalog.dfy | the discovery helpers and the first-occurrence filter, as values |
| `KeyOrder` | keyorder.dfy | the group order of `groupby(["lang", "category"])` |
| `Processing` | processing.dfy | the processing run as a plan of steps and its execution |
| `Crawl` | crawler.dfy | class `Crawler`, whose methods perform discovery and the processing loop on its fields |
| `Legacy` | legacy.dfy | the `main_old.py` run, as values and as class `LegacyCrawler` |
| `Dataset` | dataset.dfy | `format_methods` and `_generate_examples` of the loader |
| `Merge` | merge.dfy | the merge script |

In three places the code does not do what its names and docstrings suggest; the model follows the code:

- `num_methods` is the API's `n_methods`, copied as is; it is not `len(methods)`;
- `is_steps` compares the single method's title with the fixed string "Pasos", case-sensitively;
- `get_num_pages` returns the `li` count of the first pagination list, which may be 0.

## Model

| member | source | states |
|---|---|---|
| Common.SubsequenceExtend | main.py:97-109 | appending to the walked sequence keeps the rows written so far a subsequence of it (the catalog keeps discovery order) |
| Text.LowerIdempotent | main.py:169 | lower-casing an already lower-cased name changes nothing |
| Text.ReplaceCharReplacesAll | main.py:73 | after `s.replace(a, b)` with `a != b` no `a` is left, `b` stands exactly where `s` held `a` or `b`, and replacing again changes nothing |
| Text.StripTrims | dataloader_example.py:45 | `str.strip` keeps a middle slice of the text, cutting only whitespace at either end, and what it keeps starts and ends with a non-space |
| Text.StripAround | dataloader_example.py:49 | stripping text that starts and ends with non-whitespace, followed by whitespace, removes exactly that whitespace |
| Text.StripKeepsPrefix | dataloader_example.py:49 | a prefix that starts and ends with non-whitespace survives stripping |
| Text.StripStripped | dataloader_example.py:45 | stripping an already stripped text changes nothing |
| Text.CollapseNewlines | dataloader_example.py:45 | `re.sub(r"\n+", "\n", s)` is no longer than `s`, is empty exactly when `s` is, starts with a newline exactly when `s` does, and has no blank line |
| Text.CollapseKeepsText | dataloader_example.py:45 | collapsing keeps every character other than newlines, in order |
| Text.CollapseFixedPoint | dataloader_example.py:45 | a text without blank lines is left unchanged |
| Text.CollapseRun | dataloader_example.py:45 | a leading run of newlines becomes one newline |
| Text.FirstLine | dataloader_example.py:47 | `s.split("\n")[0]` is a prefix of `s` without newline, followed in `s` by a newline when shorter |
| Text.FirstLineUpTo | dataloader_example.py:47 | the first line of `a + "\n…"` is `a` when `a` has no newline |
| Text.Split | merge_categories.py:29-30 | `s.split(sep)` has at least one piece and no piece contains `sep` |
| Text.SplitJoin | merge_categories.py:29-30 | joining the pieces with `sep` gives `s` back |
| Text.SplitAtLast | merge_categories.py:29-30 | text after the last separator is the last piece |
| Text.IntToStringRoundTrip | dataloader_example.py:41 | `int(str(n)) == n`, so different method numbers are written differently |
| ArticleRecord.ProcessArticle | main.py:112-144 | one method per API method, in order, same number and title, each step rendered as "{number}. {title}\n{description}"; `is_steps` exactly for a single method titled "Pasos"; url, title, intro, expert flag, reference count and `num_methods` copied from the API |
| ArticleRecord.StepTextFirstLine | main.py:119-121 | the first line of a rendered step is its number and title when the title has no line break |
| ArticleRecord.NumMethodsMayDisagree | main.py:134 | `num_methods` can differ from the number of methods |
| Catalog.CategoryName | main.py:73 | a category name is its anchor text with every space turned into "-", so it holds no space |
| Catalog.Categories | main.py:67-74 | one name per category anchor, in listing order, none holding a space |
| Catalog.CategoryPages | main.py:81-82 | without a pagination list only page 1 is visited; a first list with no items means no page is visited; otherwise pages 1 up to that list's item count |
| Catalog.PageCandidatesUrls | main.py:102-104 | the candidates of a page carry exactly the page's URLs |
| Catalog.NewRows | main.py:107-109 | one row per kept URL, carrying its language, category, page and URL, the k-th with the k-th fresh id, none processed |
| Catalog.FreshUrls | main.py:104-106 | the URLs written are exactly the URLs met that were not seen before |
| Catalog.FreshDistinct | main.py:96-106 | no URL is written twice, and none already in the seen-set is written |
| Catalog.FreshInOrder | main.py:97-109 | the rows written keep the order in which discovery met them |
| Catalog.FreshFirst | main.py:104-108 | every candidate written is the first one met with its URL, so a URL met on several pages keeps the language, category and page where it was met first |
| Catalog.PagesVisited | main.py:100-102 | discovery meets exactly the URLs of pages 1..npages of the category |
| KeyOrder.StrLtTransitive | main.py:160 | Python's string order is transitive |
| KeyOrder.StrLtTotal | main.py:160 | distinct strings are ordered one way or the other |
| KeyOrder.KeyLtTransitive | main.py:160 | the tuple order of group keys is transitive |
| KeyOrder.SortedKeys | main.py:160 | the groups are the distinct (language, category) keys of the catalog, in strictly ascending order |
| Processing.Pending | main.py:160 | a group holds exactly the catalog's rows with its key that are not processed |
| Processing.Cap | main.py:166-167 | `head(max)` for a positive cap: a prefix of length min(size, max); all rows otherwise |
| Processing.Bump | main.py:182-185 | the counter of one (language, category) grows by one and no other changes |
| Processing.MarkProcessed | main.py:178 | only `is_processed` changes, and it becomes true exactly for the rows with the id |
| Processing.WriteShard | main.py:175 | the record is appended to one shard and no other file changes |
| Processing.Run | main.py:159-188 | after a run, a row is flagged iff it was flagged or tried successfully; each counter equals the successes of its key; each shard grows by the records written to it, in order |
| Processing.ExecRows | main.py:178 | executing steps flags exactly the rows of successful tries |
| Processing.ExecCounts | main.py:182-185 | executing steps adds to each counter the successful tries of its key |
| Processing.ExecShards | main.py:170-175 | executing steps appends to each shard the records written to it, in order |
| Processing.ExecShardFiles | main.py:170 | every group's shard file exists afterwards, and no file disappears |
| Processing.PlanTries | main.py:160-171 | every try is of a pending catalog row of a listed key, to the shard of that key |
| Processing.PlanCovers | main.py:163-174 | every row of every capped group is tried |
| Processing.PlanTriesAllPending | main.py:160-174 | without a cap, every pending row is tried |
| Processing.PlanTryCount | main.py:163-171 | a key is tried as many times as its capped group holds rows |
| Processing.PlanCapped | main.py:166-167 | with a positive cap, no key is tried more than `max` times |
| Processing.SuccessesAtMostTries | main.py:173-185 | a key never has more successes than tries |
| Processing.TriedIsWritten | main.py:173-175 | every successful try appends its record to its shard |
| Processing.RunCountCapped | main.py:166-185 | with a positive cap, no success counter exceeds `max` |
| Processing.PlanSorted | main.py:160-163 | the tries come group by group in ascending key order |
| Processing.PendingInOrder | main.py:160 | a group's rows keep catalog order |
| Processing.ResumeSkipsSucceeded | main.py:160-178 | a later run never tries a row that an earlier run completed |
| Processing.InterruptedWriteIsRetried | main.py:175-180 | a run stopped between writing a record and flagging its row leaves the record written and the row pending, so an uncapped rerun tries it again |
| Processing.InterruptedRerunDuplicates | main.py:175-180 | after such an interruption, an uncapped rerun whose fetch succeeds appends the same record again: the shard holds it twice |
| Processing.RunFlipsExactlyTriedRows | main.py:173-178 | with unique ids, a run flags exactly the rows it tried successfully |
| Crawl.Crawler.constructor | main.py:159-161 | the crawler holds the catalog and the shards, and its counters start empty |
| Crawl.Crawler.ScanPage | main.py:104-109 | the page's URLs extend the discovery invariant: the catalog gains one row per URL not seen yet, in order, with the next ids |
| Crawl.Crawler.ScanCategory | main.py:100-109 | the category's pages 1..npages extend the discovery invariant |
| Crawl.Crawler.ScanLanguage | main.py:98-109 | the language's categories, in listing order, extend the discovery invariant |
| Crawl.Crawler.GenerateUrlsFile | main.py:94-110 | the catalog gains exactly `DiscoveredRows` and the shards and counters are unchanged |
| Crawl.Crawler.ProcessGroup | main.py:164-188 | one group performs exactly its steps: open its shard, then try its capped rows |
| Crawl.Crawler.TryRows | main.py:171-188 | the tries of a group, in order |
| Crawl.Crawler.TryRow | main.py:173-188 | one try: on success the record is appended, the row flagged and the counter bumped; otherwise nothing changes |
| Crawl.Crawler.ProcessCatalog | main.py:159-188 | the crawler's state afterwards is `Run` of its catalog and shards |
| Crawl.Crawler.RunScript | main.py:155-188 | discovery runs only when `urls.jsonl` is absent; the state afterwards is `Run` of the catalog found, or of the discovered rows |
| Crawl.DiscoveredRows | main.py:94-110 | the rows discovery appends carry distinct URLs, exactly the URLs met, all unprocessed, the k-th with the k-th fresh id, in walk order, each with the language, category and page of its URL's first occurrence |
| Crawl.ScanStep | main.py:105-109 | one URL met: it is written with the next id exactly when it was not seen |
| Legacy.SetStore | main_old.py:160 | storing under one (language, category) changes no other |
| Legacy.PyPrefix | main_old.py:151 | Python's `s[:n]`, where a negative `n` counts from the end |
| Legacy.PageShare | main_old.py:150-151 | with a positive cap, a page's first min(count of URLs, max - count) URLs, or with a counter already past the cap the URLs minus the excess at the end, as Python's slice gives; all URLs without a cap |
| Legacy.UrlStep | main_old.py:156-168 | an id already kept changes nothing; a failed id lookup or fetch logs the URL in the category's error file and the run's failures; otherwise the record is kept under its id, appended to the shard and counted; no other category changes |
| Legacy.UrlsFromInv | main_old.py:154-168 | the URLs of a page keep the counter equal to the records kept and written, adding at most one per URL |
| Legacy.PagesFromInv | main_old.py:148-168 | the pages keep that invariant and never take a positive cap past `max` |
| Legacy.CategoryRunInv | main_old.py:141-168 | a category starting at 0 ends with as many records kept as written and counted, at most `max` with a positive cap, and touches no other category |
| Legacy.CategoriesFromInv | main_old.py:139-168 | over distinct categories, each category's counter equals its kept records and respects the cap |
| Legacy.TotalsAgree | main_old.py:178 | the reported success total equals the number of records kept |
| Legacy.RepeatedCategoryOvercounts | main_old.py:138-168 | a category name listed twice keeps one counter across both occurrences while the second empties the kept records, so the counter ends above the records kept by exactly what the first occurrence kept |
| Legacy.LangRunOutcome | main_old.py:136-178 | after a language over distinct category names, the counters match the records kept and the cap, the success total is the kept total, and the failure file lists every failure of the run so far |
| Legacy.FailuresAccumulate | main_old.py:134-174 | failures are never reset: the last language's failure file lists the failures of every language |
| Legacy.LegacyCrawler.constructor | main_old.py:133-134 | no records and no failures to begin with |
| Legacy.LegacyCrawler.ProcessUrl | main_old.py:156-168 | the state afterwards is `UrlStep` of the state before |
| Legacy.LegacyCrawler.ProcessUrls | main_old.py:154-168 | the state afterwards is `UrlsFrom` of the state before |
| Legacy.LegacyCrawler.ProcessPages | main_old.py:148-168 | the state afterwards is `PagesFrom` of the state before, pages 1..npages |
| Legacy.LegacyCrawler.ProcessCategory | main_old.py:139-168 | the state afterwards is `CategoryRun` of the state before |
| Legacy.LegacyCrawler.ProcessLanguage | main_old.py:135-174 | the state afterwards is `LangRun` of the state before |
| Legacy.LegacyCrawler.RunLegacy | main_old.py:133-174 | the state afterwards is `LegacyRun` of the state before |
| Dataset.CleanStepShape | dataloader_example.py:45 | a cleaned step has no whitespace at either end and no blank line |
| Dataset.StepLineShape | dataloader_example.py:45-47 | a step contributes the start of its cleaned text: all of it in long mode, one line without newline in short mode |
| Dataset.FormatMethod | dataloader_example.py:39-49 | every answer text is stripped |
| Dataset.FormatMethods | dataloader_example.py:36-50 | one answer per method, in order, each `FormatMethod` of it |
| Dataset.FormatAnswer | dataloader_example.py:40-49 | the string built by appending header, steps and separators, then stripped, is `FormatMethod` |
| Dataset.BodyIsJoin | dataloader_example.py:44-48 | the appended steps are their lines joined by the separator, plus one separator |
| Dataset.AnswerHeader | dataloader_example.py:40-43 | an answer starts with "Método {number}: {title}" when the title ends in a non-space, always with "Método {number}:", and with "Sigue los siguientes pasos:" for a method titled "pasos" in any case |
| Dataset.AnswerIsJoin | dataloader_example.py:39-49 | when the last step line ends in non-whitespace, an answer is header, separator and the step lines joined by the separator |
| Dataset.ShortAnswerExample | dataloader_example.py:40-49 | the short answer of a "pasos" method with steps "a\n\nb\n" and "c\nd" is "Sigue los siguientes pasos:\na\nc" |
| Dataset.FirstStepLine | dataloader_example.py:45-47 | a step whose first line is followed by a blank line contributes that first line in short mode |
| Dataset.SecondStepLine | dataloader_example.py:45-47 | a two-line step contributes its first line in short mode |
| Dataset.ToExample | dataloader_example.py:104-113 | as many long and short answers as methods, and `num_answers` is `num_methods` |
| Dataset.QuestionWrapsTitle | dataloader_example.py:106 | the question is "¿", the title, then "?" |
| Dataset.GenerateExamples | dataloader_example.py:99-114 | every example comes from a selected line, is that line's example under its index, keys strictly increase, and every selected line yields one |
| Dataset.AllKeepsEveryLine | dataloader_example.py:101-104 | the "all" configuration yields every line, under its index |
| Merge.MergeFormatMethods | merge_categories.py:9-23 | the merge script's `format_methods` returns exactly the loader's long answers |
| Merge.MergeAnswer | merge_categories.py:12-22 | both branches give `FormatMethod(m, false)`; they differ only in the header |
| Merge.AppendSteps | merge_categories.py:14-16 | the inner loop appends each cleaned step followed by a blank line |
| Merge.ParseShardPath | merge_categories.py:29-30 | the parsed language and category contain neither "_" nor "." |
| Merge.ShardPathRoundTrip | merge_categories.py:29-30 | parsing a shard path written by the crawler (`wikihow_{lang}_{category.lower()}.jsonl`) gives back its language and lower-cased category, whatever the output directory, when neither contains "_" or "." |
| Merge.TaggedRowsLength | merge_categories.py:28-36 | when every name parses, the concatenation succeeds and has as many rows as the shards together |
| Merge.TaggedRowsAt | merge_categories.py:28-36 | row j of shard i sits after the rows of the earlier shards, tagged with its own file's language and category |
| Merge.BadNameAt | merge_categories.py:29-30 | a file name that cannot be indexed makes the whole merge fail |
| Merge.TaggedRowsFails | merge_categories.py:28-36 | the concatenation fails exactly when some file name does not parse |
| Merge.MergeShards | merge_categories.py:25-46 | no shard gives no-shards; the merge succeeds exactly when there are shards, every name parses and some shard holds a row; it fails with the name of a bad file exactly when some name does not parse; parsable shards that hold no row at all fail the column selection (`KeyError` at line 37); on success the row count is the sum of the shard sizes and each row is its tagged record with a missing reference count filled with 0 |
| Merge.MergeOfCrawlerShards | merge_categories.py:25-36 | the Spanish shards written by the crawler merge without error, each row tagged "es" and with its shard's lower-cased category |

## Left out

- HTTP and HTML scraping are not modelled: `requests.get`, the BeautifulSoup queries and the article API (main.py:57-92, main.py:114). Their results are the `Site` oracle and the `fetch` function; `fetch` returns `None` where fetching or processing raises.
- `get_id` (main_old.py:53-61) is the `pageId` oracle; `None` stands for a request that raises.
- `uuid.uuid4()` (main.py:107) is the `freshId` oracle, indexed by the number of rows written so far.
- `time.sleep`, argparse, printing, timing and the end-of-run summaries are I/O and are not modelled.
- JSON and pandas reading and writing are not modelled, including the whole-catalog rewrite after every success (main.py:179-180). Files are values: the catalog is a `seq<Entry>`, shards are a map from path to `seq<Record>`.
- The per-language dump `wikihow_{lang}.json` of the earlier crawler (main_old.py:171-172) is not modelled.
- The random shuffle and the `while aux_bool` / `pdb.set_trace()` loop (merge_categories.py:39-42) are random and interactive, and the loop never ends by itself. The merge is modelled as if the operator let it continue after one pass; row order is kept as concatenated.
- The `glob` of shard files (merge_categories.py:25) is I/O: the shards are given as (path, rows) pairs. The column selection (merge_categories.py:37) is the shape of `DatasetRow`; its `KeyError` when every shard is empty (an empty file reads as a frame without columns) is the `NoColumns` outcome.
- The `datasets` plumbing of the loader (`_info`, `_split_generators`, the configurations, dataloader_example.py:53-97) is not modelled. Reading the merged file is the input `seq<DatasetRow>`.
- Text.Lower: models Python's `lower` for ASCII and Latin-1 capitals only. Other Unicode case mappings are not modelled.
- The earlier crawler's quirks are modelled as written: `dict.fromkeys` merges duplicate category names; two categories that lower-case alike share a shard; `unprocessed` is never reset between languages. The invariants are proved for distinct category names only, because the script breaks them for a repeated name: `dict.fromkeys` (main_old.py:138) keeps one counter for both occurrences, while main_old.py:146 empties `data[lang][category]` for the second, so the counter ends at n1 + n2 with only n2 records kept and the success total of main_old.py:178 over-reports (`Legacy.RepeatedCategoryOvercounts`).
- Failures writing files (`IOError`) are not modelled; a write always succeeds.
- An exception inside discovery is not modelled: the `Site` oracle always answers. In the script the HTTP calls of `generate_urls_file` (main.py:98-102) are unguarded, so a failure aborts the run after part of `urls.jsonl` is written; since discovery is guarded only by the file's existence (main.py:155-157), later runs then skip discovery and never complete the catalog. `Crawl.Crawler.RunScript` models the guard, not the abort.
- When discovery visits no page at all, `urls.jsonl` is never created (main.py:103 opens it only inside the page loop), and `pd.read_json` at main.py:159 then raises. `Crawl.Crawler.RunScript` instead processes an empty catalog; no shard or counter differs, since nothing would have been processed.
- The legacy `pageId` and `fetch` oracles are functions of the URL, so a URL met in two categories gets the same outcome both times, whereas the script requests it again each time (main_old.py:157-159) and could get a different answer.
- ArticleRecord.NumMethodsMayDisagree: shows that `num_methods` is not tied to the number of methods; no invariant relating them is stated, because the code does not keep one.
