/** The earlier crawler of main_old.py (main_old.py:133-178), which scrapes every category
    page by page and stops a category once it holds `max_per_category` articles. The
    run is given as values (a state and functions that take one step of each loop) and
    as the object `LegacyCrawler` whose methods are proved to compute those functions.

    Besides the site (`Site`) and the article oracle `fetch`, the run consults `pageId`,
    the page id the site's query API returns for a URL (`get_id`), or `None` when that
    request raises. */
module Legacy {
  import opened Common
  import opened Text
  import opened ArticleRecord
  import opened Catalog
  import opened Processing

  /** The network as seen by the legacy run. */
  datatype Oracles = Oracles(site: Site, pageId: string -> Option<int>, fetch: string -> Option<ApiArticle>)

  /** What the legacy run reads and changes:
      - `data[lang][category][uid]`: the records kept, by page id;
      - `unprocessed`: the URLs that failed, over the whole run;
      - `counts`: `category_counts` of the language being crawled;
      - `shards` and `errLogs`: the shard files and the per-category error files, by path;
      - `failureLists`: the failure file written after each language, by language. */
  datatype LegacyState = LegacyState(
    data: map<string, map<string, map<int, Record>>>,
    unprocessed: seq<string>,
    counts: map<string, nat>,
    shards: map<string, seq<Record>>,
    errLogs: map<string, seq<string>>,
    failureLists: map<string, seq<string>>)

  /** The error file of a category (main_old.py:145). */
  function ErrPath(outDir: string, lang: string, category: string): string {
    outDir + "/unprocessed/" + lang + "_" + Lower(category) + ".txt"
  }

  /** The records kept for a category; none when there is no entry yet. */
  function Store(data: map<string, map<string, map<int, Record>>>, lang: string, category: string): map<int, Record> {
    if lang in data && category in data[lang] then data[lang][category] else map[]
  }

  function SetStore(data: map<string, map<string, map<int, Record>>>, lang: string, category: string,
                    m: map<int, Record>): (r: map<string, map<string, map<int, Record>>>)
    ensures Store(r, lang, category) == m
    ensures forall l, c :: (l, c) != (lang, category) ==> Store(r, l, c) == Store(data, l, c)
  {
    data[lang := (if lang in data then data[lang] else map[])[category := m]]
  }

  function CountOf(counts: map<string, nat>, category: string): nat {
    if category in counts then counts[category] else 0
  }

  function LogOf(logs: map<string, seq<string>>, path: string): seq<string> {
    if path in logs then logs[path] else []
  }

  /** Python's `s[:n]`: a negative `n` counts from the end. */
  function PyPrefix(s: seq<string>, n: int): (r: seq<string>)
    ensures r <= s
    ensures 0 <= n ==> |r| == if n < |s| then n else |s|
    ensures n < 0 ==> |r| == if -n < |s| then |s| + n else 0
  {
    if 0 <= n then (if n < |s| then s[..n] else s)
    else if -n < |s| then s[..|s| + n] else []
  }

  /** The URLs of a page that are tried (main_old.py:150-151): with a positive cap, the
      first ones, as many as the category still lacks; should the counter ever exceed
      the cap, Python's negative slice drops that excess from the end instead. */
  function PageShare(urls: seq<string>, max: int, count: nat): (r: seq<string>)
    ensures r <= urls
    ensures max > 0 && count <= max ==> |r| == if |urls| < max - count then |urls| else max - count
    ensures max > 0 && count > max ==> |r| == if count - max < |urls| then |urls| - (count - max) else 0
    ensures max <= 0 ==> r == urls
  {
    if max > 0 then PyPrefix(urls, max - count) else urls
  }

  /** A failure (main_old.py:164-168): the line `"{category}\t{url}"` goes to the
      category's error file and the URL to `unprocessed`. */
  function Fail(st: LegacyState, category: string, url: string, errPath: string): LegacyState {
    st.(errLogs := st.errLogs[errPath := LogOf(st.errLogs, errPath) + [category + "\t" + url]],
        unprocessed := st.unprocessed + [url])
  }

  /** Nothing about the category `category` of `lang` differs between `a` and `b`: every
      other category keeps its counter and its kept records. */
  ghost predicate SameOutside(a: LegacyState, b: LegacyState, lang: string, category: string) {
    && (forall c :: c != category ==> CountOf(a.counts, c) == CountOf(b.counts, c))
    && (forall l, c :: (l, c) != (lang, category) ==> Store(a.data, l, c) == Store(b.data, l, c))
  }

  /** One URL (main_old.py:156-168). When its page id cannot be had, or its id is new and
      its article cannot be had, it fails. When its id is already kept, nothing happens.
      Otherwise its record is kept under its id, appended to the shard and counted. */
  function UrlStep(st: LegacyState, lang: string, category: string, url: string, shard: string, errPath: string,
                   o: Oracles): (r: LegacyState)
    ensures SameOutside(st, r, lang, category)
    ensures st.unprocessed <= r.unprocessed && r.failureLists == st.failureLists
    ensures o.pageId(url).Some? && o.pageId(url).value in Store(st.data, lang, category) ==> r == st
    ensures o.pageId(url).None? || (o.pageId(url).value !in Store(st.data, lang, category) && o.fetch(url).None?) ==>
      && r.data == st.data && r.counts == st.counts && r.shards == st.shards
      && LogOf(r.errLogs, errPath) == LogOf(st.errLogs, errPath) + [category + "\t" + url]
      && r.unprocessed == st.unprocessed + [url]
    ensures o.pageId(url).Some? && o.pageId(url).value !in Store(st.data, lang, category) && o.fetch(url).Some? ==>
      var rec := Process(o.fetch(url).value);
      && Store(r.data, lang, category) == Store(st.data, lang, category)[o.pageId(url).value := rec]
      && CountOf(r.counts, category) == CountOf(st.counts, category) + 1
      && ShardOf(r.shards, shard) == ShardOf(st.shards, shard) + [rec]
      && r.unprocessed == st.unprocessed && r.errLogs == st.errLogs
  {
    match o.pageId(url)
    case None => Fail(st, category, url, errPath)
    case Some(uid) =>
      var kept := Store(st.data, lang, category);
      if uid in kept then st
      else
        match o.fetch(url)
        case None => Fail(st, category, url, errPath)
        case Some(a) =>
          var rec := Process(a);
          st.(data := SetStore(st.data, lang, category, kept[uid := rec]),
              shards := st.shards[shard := ShardOf(st.shards, shard) + [rec]],
              counts := st.counts[category := CountOf(st.counts, category) + 1])
  }

  /** The URLs of one page, in order (main_old.py:154). */
  function UrlsFrom(st: LegacyState, lang: string, category: string, urls: seq<string>, shard: string, errPath: string,
                    o: Oracles): LegacyState
    decreases |urls|
  {
    if urls == [] then st
    else UrlsFrom(UrlStep(st, lang, category, urls[0], shard, errPath, o), lang, category, urls[1..], shard, errPath, o)
  }

  /** Pages `page..last` of a category (main_old.py:148-152): a page's URLs are cut to
      what the cap leaves, and the loop stops at the first page that finds the category
      full. */
  function PagesFrom(st: LegacyState, lang: string, category: string, page: int, last: int, max: int,
                     shard: string, errPath: string, o: Oracles): LegacyState
    decreases last - page + 1
  {
    if page > last then st
    else
      var urls := PageShare(o.site.pageUrls(lang, category, page), max, CountOf(st.counts, category));
      if max > 0 && CountOf(st.counts, category) >= max then st
      else PagesFrom(UrlsFrom(st, lang, category, urls, shard, errPath, o), lang, category, page + 1, last, max, shard, errPath, o)
  }

  /** One category (main_old.py:141-152): a non-empty shard is emptied (an empty or
      missing one is created), the error file is created if missing, the kept records
      start empty, and every page from 1 to the page count is crawled. */
  function CategoryRun(st: LegacyState, lang: string, category: string, outDir: string, max: int, o: Oracles): LegacyState {
    var shard, errPath := ShardPath(outDir, lang, category), ErrPath(outDir, lang, category);
    var st1 := st.(shards := st.shards[shard := []],
                   errLogs := if errPath in st.errLogs then st.errLogs else st.errLogs[errPath := []],
                   data := SetStore(st.data, lang, category, map[]));
    PagesFrom(st1, lang, category, 1, NumPages(o.site.paginationSizes(lang, category)), max, shard, errPath, o)
  }

  function CategoriesFrom(st: LegacyState, lang: string, cats: seq<string>, outDir: string, max: int, o: Oracles): LegacyState
    decreases |cats|
  {
    if cats == [] then st
    else CategoriesFrom(CategoryRun(st, lang, cats[0], outDir, max, o), lang, cats[1..], outDir, max, o)
  }

  /** `dict.fromkeys(categories, 0)`. */
  function FromKeys(cats: seq<string>): (m: map<string, nat>)
    ensures forall c :: c in m <==> c in cats
    ensures forall c :: c in m ==> m[c] == 0
  {
    map c | c in cats :: 0
  }

  /** One language (main_old.py:136-174): its records and its counters start empty, its
      categories are crawled in listing order, and then the failure file of the language
      receives every URL that failed so far in the run. */
  function LangRun(st: LegacyState, lang: string, outDir: string, max: int, o: Oracles): LegacyState {
    var cats := Categories(o.site, lang);
    var st1 := st.(data := st.data[lang := map[]], counts := FromKeys(cats));
    var st2 := CategoriesFrom(st1, lang, cats, outDir, max, o);
    st2.(failureLists := st2.failureLists[lang := st2.unprocessed])
  }

  function LangsFrom(st: LegacyState, langs: seq<string>, outDir: string, max: int, o: Oracles): LegacyState
    decreases |langs|
  {
    if langs == [] then st
    else LangsFrom(LangRun(st, langs[0], outDir, max, o), langs[1..], outDir, max, o)
  }

  /** The whole legacy run: no records and no failures to begin with (main_old.py:133-134). */
  function LegacyRun(st: LegacyState, langs: seq<string>, outDir: string, max: int, o: Oracles): LegacyState {
    LangsFrom(st.(data := map[], unprocessed := []), langs, outDir, max, o)
  }

  // ----- the category invariant -----

  /** The counter of a category equals the number of records it keeps and the number of
      records in its shard. */
  ghost predicate CategoryInv(st: LegacyState, lang: string, category: string, shard: string) {
    CountOf(st.counts, category) == |Store(st.data, lang, category)| == |ShardOf(st.shards, shard)|
  }

  /** The URLs of a page keep the invariant, add at most one to the counter per URL, touch
      no other category, and only append to `unprocessed`. */
  lemma {:induction false} UrlsFromInv(st: LegacyState, lang: string, category: string, urls: seq<string>, shard: string,
                                       errPath: string, o: Oracles)
    requires CategoryInv(st, lang, category, shard)
    ensures var r := UrlsFrom(st, lang, category, urls, shard, errPath, o);
      && CategoryInv(r, lang, category, shard)
      && CountOf(r.counts, category) <= CountOf(st.counts, category) + |urls|
      && SameOutside(st, r, lang, category)
      && st.unprocessed <= r.unprocessed && r.failureLists == st.failureLists
    decreases |urls|
  {
    if urls != [] {
      var st1 := UrlStep(st, lang, category, urls[0], shard, errPath, o);
      UrlsFromInv(st1, lang, category, urls[1..], shard, errPath, o);
    }
  }

  /** The pages of a category keep the invariant and never take the counter past a
      positive cap. */
  lemma {:induction false} PagesFromInv(st: LegacyState, lang: string, category: string, page: int, last: int, max: int,
                                        shard: string, errPath: string, o: Oracles)
    requires CategoryInv(st, lang, category, shard)
    requires max > 0 ==> CountOf(st.counts, category) <= max
    ensures var r := PagesFrom(st, lang, category, page, last, max, shard, errPath, o);
      && CategoryInv(r, lang, category, shard)
      && (max > 0 ==> CountOf(r.counts, category) <= max)
      && SameOutside(st, r, lang, category)
      && st.unprocessed <= r.unprocessed && r.failureLists == st.failureLists
    decreases last - page + 1
  {
    if page <= last && !(max > 0 && CountOf(st.counts, category) >= max) {
      var urls := PageShare(o.site.pageUrls(lang, category, page), max, CountOf(st.counts, category));
      UrlsFromInv(st, lang, category, urls, shard, errPath, o);
      var st1 := UrlsFrom(st, lang, category, urls, shard, errPath, o);
      PagesFromInv(st1, lang, category, page + 1, last, max, shard, errPath, o);
    }
  }

  /** A category whose counter starts at 0 ends with as many records kept as written to
      its shard and counted, at most `max` of them when the cap is positive; no other
      category is touched. */
  lemma CategoryRunInv(st: LegacyState, lang: string, category: string, outDir: string, max: int, o: Oracles)
    requires CountOf(st.counts, category) == 0
    ensures var r := CategoryRun(st, lang, category, outDir, max, o);
      && CategoryInv(r, lang, category, ShardPath(outDir, lang, category))
      && (max > 0 ==> CountOf(r.counts, category) <= max)
      && SameOutside(st, r, lang, category)
      && st.unprocessed <= r.unprocessed && r.failureLists == st.failureLists
  {
    var shard, errPath := ShardPath(outDir, lang, category), ErrPath(outDir, lang, category);
    var st1 := st.(shards := st.shards[shard := []],
                   errLogs := if errPath in st.errLogs then st.errLogs else st.errLogs[errPath := []],
                   data := SetStore(st.data, lang, category, map[]));
    PagesFromInv(st1, lang, category, 1, NumPages(o.site.paginationSizes(lang, category)), max, shard, errPath, o);
  }

  /** The categories not crawled keep their counters and records. */
  lemma {:induction false} CategoriesFromFrame(st: LegacyState, lang: string, cats: seq<string>, outDir: string, max: int,
                                               o: Oracles)
    ensures var r := CategoriesFrom(st, lang, cats, outDir, max, o);
      && (forall c :: c !in cats ==> CountOf(r.counts, c) == CountOf(st.counts, c) && Store(r.data, lang, c) == Store(st.data, lang, c))
      && st.unprocessed <= r.unprocessed && r.failureLists == st.failureLists
    decreases |cats|
  {
    if cats != [] {
      var st1 := CategoryRun(st, lang, cats[0], outDir, max, o);
      CategoryRunFrame(st, lang, cats[0], outDir, max, o);
      CategoriesFromFrame(st1, lang, cats[1..], outDir, max, o);
    }
  }

  lemma CategoryRunFrame(st: LegacyState, lang: string, category: string, outDir: string, max: int, o: Oracles)
    ensures var r := CategoryRun(st, lang, category, outDir, max, o);
      && SameOutside(st, r, lang, category)
      && st.unprocessed <= r.unprocessed && r.failureLists == st.failureLists
  {
    var shard, errPath := ShardPath(outDir, lang, category), ErrPath(outDir, lang, category);
    var st1 := st.(shards := st.shards[shard := []],
                   errLogs := if errPath in st.errLogs then st.errLogs else st.errLogs[errPath := []],
                   data := SetStore(st.data, lang, category, map[]));
    PagesFrameOnly(st1, lang, category, 1, NumPages(o.site.paginationSizes(lang, category)), max, shard, errPath, o);
  }

  lemma {:induction false} PagesFrameOnly(st: LegacyState, lang: string, category: string, page: int, last: int, max: int,
                                          shard: string, errPath: string, o: Oracles)
    ensures var r := PagesFrom(st, lang, category, page, last, max, shard, errPath, o);
      && SameOutside(st, r, lang, category)
      && st.unprocessed <= r.unprocessed && r.failureLists == st.failureLists
    decreases last - page + 1
  {
    if page <= last && !(max > 0 && CountOf(st.counts, category) >= max) {
      var urls := PageShare(o.site.pageUrls(lang, category, page), max, CountOf(st.counts, category));
      UrlsFrameOnly(st, lang, category, urls, shard, errPath, o);
      PagesFrameOnly(UrlsFrom(st, lang, category, urls, shard, errPath, o), lang, category, page + 1, last, max, shard, errPath, o);
    }
  }

  lemma {:induction false} UrlsFrameOnly(st: LegacyState, lang: string, category: string, urls: seq<string>, shard: string,
                                         errPath: string, o: Oracles)
    ensures var r := UrlsFrom(st, lang, category, urls, shard, errPath, o);
      && SameOutside(st, r, lang, category)
      && st.unprocessed <= r.unprocessed && r.failureLists == st.failureLists
    decreases |urls|
  {
    if urls != [] {
      UrlsFrameOnly(UrlStep(st, lang, category, urls[0], shard, errPath, o), lang, category, urls[1..], shard, errPath, o);
    }
  }

  /** With distinct category names whose counters start at 0, every category of the
      language ends with its counter equal to the number of records it keeps, and at most
      `max` when the cap is positive. */
  lemma {:induction false} CategoriesFromInv(st: LegacyState, lang: string, cats: seq<string>, outDir: string, max: int,
                                             o: Oracles)
    requires forall i, j :: 0 <= i < j < |cats| ==> cats[i] != cats[j]
    requires forall c :: c in cats ==> CountOf(st.counts, c) == 0
    ensures var r := CategoriesFrom(st, lang, cats, outDir, max, o);
      forall c :: c in cats ==>
        && CountOf(r.counts, c) == |Store(r.data, lang, c)|
        && (max > 0 ==> CountOf(r.counts, c) <= max)
    decreases |cats|
  {
    if cats != [] {
      var c0, rest := cats[0], cats[1..];
      var st1 := CategoryRun(st, lang, c0, outDir, max, o);
      CategoryRunInv(st, lang, c0, outDir, max, o);
      assert c0 !in rest by {
        forall k | 0 <= k < |rest| ensures rest[k] != c0 {
          assert rest[k] == cats[k + 1];
        }
      }
      assert forall c :: c in rest ==> c in cats && c != c0;
      CategoriesFromInv(st1, lang, rest, outDir, max, o);
      CategoriesFromFrame(st1, lang, rest, outDir, max, o);
    }
  }

  /** `sum(category_counts.values())` over the distinct categories. */
  function SuccessTotal(counts: map<string, nat>, cats: seq<string>): nat {
    if cats == [] then 0 else CountOf(counts, cats[0]) + SuccessTotal(counts, cats[1..])
  }

  /** The number of records kept for the given categories. */
  function KeptTotal(data: map<string, map<string, map<int, Record>>>, lang: string, cats: seq<string>): nat {
    if cats == [] then 0 else |Store(data, lang, cats[0])| + KeptTotal(data, lang, cats[1..])
  }

  lemma {:induction false} TotalsAgree(counts: map<string, nat>, data: map<string, map<string, map<int, Record>>>,
                                       lang: string, cats: seq<string>)
    requires forall c :: c in cats ==> CountOf(counts, c) == |Store(data, lang, c)|
    ensures SuccessTotal(counts, cats) == KeptTotal(data, lang, cats)
  {
    if cats != [] {
      assert forall c :: c in cats[1..] ==> c in cats;
      TotalsAgree(counts, data, lang, cats[1..]);
    }
  }

  /** After a language with distinct category names, every counter equals the records
      kept for its category and respects a positive cap, so the reported success total
      (main_old.py:178) is the number of records kept for the language; the language's
      failure file lists every failure of the run so far. */
  lemma LangRunOutcome(st: LegacyState, lang: string, outDir: string, max: int, o: Oracles)
    requires var cats := Categories(o.site, lang); forall i, j :: 0 <= i < j < |cats| ==> cats[i] != cats[j]
    ensures var r := LangRun(st, lang, outDir, max, o); var cats := Categories(o.site, lang);
      && (forall c :: c in cats ==> CountOf(r.counts, c) == |Store(r.data, lang, c)| && (max > 0 ==> CountOf(r.counts, c) <= max))
      && SuccessTotal(r.counts, cats) == KeptTotal(r.data, lang, cats)
      && lang in r.failureLists && r.failureLists[lang] == r.unprocessed
      && st.unprocessed <= r.unprocessed
  {
    var cats := Categories(o.site, lang);
    var st1 := st.(data := st.data[lang := map[]], counts := FromKeys(cats));
    CategoriesFromInv(st1, lang, cats, outDir, max, o);
    CategoriesFromFrame(st1, lang, cats, outDir, max, o);
    var st2 := CategoriesFrom(st1, lang, cats, outDir, max, o);
    TotalsAgree(st2.counts, st2.data, lang, cats);
  }

  /** `unprocessed` is never reset between languages: the failure file written after the
      last language lists the failures of every language of the run. */
  lemma {:induction false} FailuresAccumulate(st: LegacyState, langs: seq<string>, outDir: string, max: int, o: Oracles)
    requires langs != []
    ensures var r := LangsFrom(st, langs, outDir, max, o);
      && st.unprocessed <= r.unprocessed
      && langs[|langs| - 1] in r.failureLists && r.failureLists[langs[|langs| - 1]] == r.unprocessed
    decreases |langs|
  {
    var lang := langs[0];
    var cats := Categories(o.site, lang);
    var st1 := st.(data := st.data[lang := map[]], counts := FromKeys(cats));
    CategoriesFromFrame(st1, lang, cats, outDir, max, o);
    var st2 := LangRun(st, lang, outDir, max, o);
    if |langs| > 1 {
      FailuresAccumulate(st2, langs[1..], outDir, max, o);
      assert langs[1..][|langs[1..]| - 1] == langs[|langs| - 1];
    }
  }

  /** The page loop ends past the last page or at the first page that finds the
      category full. */
  lemma PagesFromStop(st: LegacyState, lang: string, category: string, page: int, last: int, max: int,
                      shard: string, errPath: string, o: Oracles)
    requires page > last || (max > 0 && CountOf(st.counts, category) >= max)
    ensures PagesFrom(st, lang, category, page, last, max, shard, errPath, o) == st
  {
  }

  /** Otherwise the page's share of URLs is processed and the loop goes on. */
  lemma PagesFromStep(st: LegacyState, lang: string, category: string, page: int, last: int, max: int,
                      shard: string, errPath: string, o: Oracles)
    requires page <= last && !(max > 0 && CountOf(st.counts, category) >= max)
    ensures PagesFrom(st, lang, category, page, last, max, shard, errPath, o)
      == PagesFrom(UrlsFrom(st, lang, category, PageShare(o.site.pageUrls(lang, category, page), max, CountOf(st.counts, category)),
                            shard, errPath, o),
                   lang, category, page + 1, last, max, shard, errPath, o)
  {
  }

  // ----- a category name listed twice -----

  /** The URLs of a page raise the counter of a category exactly as much as they add to
      its kept records, whatever the counter started at. */
  lemma {:induction false} UrlsFromOffset(st: LegacyState, lang: string, category: string, urls: seq<string>, shard: string,
                                          errPath: string, o: Oracles)
    ensures var r := UrlsFrom(st, lang, category, urls, shard, errPath, o);
      CountOf(r.counts, category) - |Store(r.data, lang, category)| == CountOf(st.counts, category) - |Store(st.data, lang, category)|
    decreases |urls|
  {
    if urls != [] {
      UrlsFromOffset(UrlStep(st, lang, category, urls[0], shard, errPath, o), lang, category, urls[1..], shard, errPath, o);
    }
  }

  lemma {:induction false} PagesFromOffset(st: LegacyState, lang: string, category: string, page: int, last: int, max: int,
                                           shard: string, errPath: string, o: Oracles)
    ensures var r := PagesFrom(st, lang, category, page, last, max, shard, errPath, o);
      CountOf(r.counts, category) - |Store(r.data, lang, category)| == CountOf(st.counts, category) - |Store(st.data, lang, category)|
    decreases last - page + 1
  {
    if page <= last && !(max > 0 && CountOf(st.counts, category) >= max) {
      var urls := PageShare(o.site.pageUrls(lang, category, page), max, CountOf(st.counts, category));
      UrlsFromOffset(st, lang, category, urls, shard, errPath, o);
      PagesFromOffset(UrlsFrom(st, lang, category, urls, shard, errPath, o), lang, category, page + 1, last, max, shard, errPath, o);
    }
  }

  /** A category name listed twice (main_old.py:138, 146): `dict.fromkeys` gives both
      occurrences one counter, while the second occurrence empties the kept records. The
      counter then ends above the records kept by exactly what the first occurrence kept,
      so the success total of main_old.py:178 over-reports. */
  lemma RepeatedCategoryOvercounts(st: LegacyState, lang: string, category: string, outDir: string, max: int, o: Oracles)
    requires CountOf(st.counts, category) == 0
    ensures var first := CategoryRun(st, lang, category, outDir, max, o);
      var r := CategoriesFrom(st, lang, [category, category], outDir, max, o);
      CountOf(r.counts, category) == |Store(r.data, lang, category)| + |Store(first.data, lang, category)|
  {
    var first := CategoryRun(st, lang, category, outDir, max, o);
    CategoryRunInv(st, lang, category, outDir, max, o);
    var second := CategoryRun(first, lang, category, outDir, max, o);
    TwiceIsTwoRuns(st, lang, category, outDir, max, o);
    var shard, errPath := ShardPath(outDir, lang, category), ErrPath(outDir, lang, category);
    var st1 := first.(shards := first.shards[shard := []],
                      errLogs := if errPath in first.errLogs then first.errLogs else first.errLogs[errPath := []],
                      data := SetStore(first.data, lang, category, map[]));
    assert second == PagesFrom(st1, lang, category, 1, NumPages(o.site.paginationSizes(lang, category)), max, shard, errPath, o);
    assert CountOf(st1.counts, category) == |Store(first.data, lang, category)|;
    assert |Store(st1.data, lang, category)| == 0;
    PagesFromOffset(st1, lang, category, 1, NumPages(o.site.paginationSizes(lang, category)), max, shard, errPath, o);
  }

  /** Crawling the list `[category, category]` is crawling the category twice. */
  lemma TwiceIsTwoRuns(st: LegacyState, lang: string, category: string, outDir: string, max: int, o: Oracles)
    ensures CategoriesFrom(st, lang, [category, category], outDir, max, o)
      == CategoryRun(CategoryRun(st, lang, category, outDir, max, o), lang, category, outDir, max, o)
  {
    var first := CategoryRun(st, lang, category, outDir, max, o);
    assert [category, category][1..] == [category];
    assert CategoriesFrom(st, lang, [category, category], outDir, max, o) == CategoriesFrom(first, lang, [category], outDir, max, o);
    assert [category][1..] == [];
  }

  // ----- the legacy crawler as an object -----

  class LegacyCrawler {
    var data: map<string, map<string, map<int, Record>>>
    var unprocessed: seq<string>
    var counts: map<string, nat>
    var shards: map<string, seq<Record>>
    var errLogs: map<string, seq<string>>
    var failureLists: map<string, seq<string>>

    /** A crawler over the given output directory contents. */
    constructor (shards: map<string, seq<Record>>, errLogs: map<string, seq<string>>, failureLists: map<string, seq<string>>)
      ensures State() == LegacyState(map[], [], map[], shards, errLogs, failureLists)
    {
      data := map[];
      unprocessed := [];
      counts := map[];
      this.shards := shards;
      this.errLogs := errLogs;
      this.failureLists := failureLists;
    }

    function State(): LegacyState
      reads this
    {
      LegacyState(data, unprocessed, counts, shards, errLogs, failureLists)
    }

    /** One URL (main_old.py:156-168). */
    method ProcessUrl(lang: string, category: string, url: string, shard: string, errPath: string, o: Oracles)
      modifies this
      ensures State() == UrlStep(old(State()), lang, category, url, shard, errPath, o)
    {
      var uid := o.pageId(url);
      if uid.None? {
        errLogs := errLogs[errPath := LogOf(errLogs, errPath) + [category + "\t" + url]];
        unprocessed := unprocessed + [url];
        return;
      }
      var kept := Store(data, lang, category);
      if uid.value !in kept {
        var article := o.fetch(url);
        if article.None? {
          errLogs := errLogs[errPath := LogOf(errLogs, errPath) + [category + "\t" + url]];
          unprocessed := unprocessed + [url];
          return;
        }
        var rec := ProcessArticle(article.value);
        data := SetStore(data, lang, category, kept[uid.value := rec]);
        shards := shards[shard := ShardOf(shards, shard) + [rec]];
        counts := counts[category := CountOf(counts, category) + 1];
      }
    }

    /** The URLs of one page, in order (main_old.py:154-168). */
    method ProcessUrls(lang: string, category: string, urls: seq<string>, shard: string, errPath: string, o: Oracles)
      modifies this
      ensures State() == UrlsFrom(old(State()), lang, category, urls, shard, errPath, o)
    {
      ghost var goal := UrlsFrom(State(), lang, category, urls, shard, errPath, o);
      for j := 0 to |urls|
        invariant UrlsFrom(State(), lang, category, urls[j..], shard, errPath, o) == goal
      {
        assert urls[j..][1..] == urls[j + 1..];
        ProcessUrl(lang, category, urls[j], shard, errPath, o);
      }
    }

    /** The pages of one category, stopping once it is full (main_old.py:148-152). */
    method ProcessPages(lang: string, category: string, npages: int, max: int, shard: string, errPath: string, o: Oracles)
      modifies this
      ensures State() == PagesFrom(old(State()), lang, category, 1, npages, max, shard, errPath, o)
    {
      ghost var goal := PagesFrom(State(), lang, category, 1, npages, max, shard, errPath, o);
      var page := 1;
      while page <= npages
        invariant PagesFrom(State(), lang, category, page, npages, max, shard, errPath, o) == goal
        decreases npages - page
      {
        var urls := PageShare(o.site.pageUrls(lang, category, page), max, CountOf(counts, category));
        if max > 0 && CountOf(counts, category) >= max {
          PagesFromStop(State(), lang, category, page, npages, max, shard, errPath, o);
          break;
        }
        PagesFromStep(State(), lang, category, page, npages, max, shard, errPath, o);
        ProcessUrls(lang, category, urls, shard, errPath, o);
        page := page + 1;
      }
      if page > npages {
        PagesFromStop(State(), lang, category, page, npages, max, shard, errPath, o);
      }
    }

    /** One category (main_old.py:141-168). */
    method ProcessCategory(lang: string, category: string, outDir: string, max: int, o: Oracles)
      modifies this
      ensures State() == CategoryRun(old(State()), lang, category, outDir, max, o)
    {
      var shard := ShardPath(outDir, lang, category);
      shards := shards[shard := []];
      var errPath := ErrPath(outDir, lang, category);
      if errPath !in errLogs {
        errLogs := errLogs[errPath := []];
      }
      data := SetStore(data, lang, category, map[]);
      var npages := NumPages(o.site.paginationSizes(lang, category));
      ProcessPages(lang, category, npages, max, shard, errPath, o);
    }

    /** One language (main_old.py:136-174). */
    method ProcessLanguage(lang: string, outDir: string, max: int, o: Oracles)
      modifies this
      ensures State() == LangRun(old(State()), lang, outDir, max, o)
    {
      data := data[lang := map[]];
      var cats := Categories(o.site, lang);
      counts := FromKeys(cats);
      ghost var goal := CategoriesFrom(State(), lang, cats, outDir, max, o);
      for i := 0 to |cats|
        invariant CategoriesFrom(State(), lang, cats[i..], outDir, max, o) == goal
      {
        assert cats[i..][1..] == cats[i + 1..];
        ProcessCategory(lang, cats[i], outDir, max, o);
      }
      failureLists := failureLists[lang := unprocessed];
    }

    /** The legacy run over the given languages (main_old.py:133-178). */
    method RunLegacy(langs: seq<string>, outDir: string, max: int, o: Oracles)
      modifies this
      ensures State() == LegacyRun(old(State()), langs, outDir, max, o)
    {
      data := map[];
      unprocessed := [];
      ghost var goal := LangsFrom(State(), langs, outDir, max, o);
      for i := 0 to |langs|
        invariant LangsFrom(State(), langs[i..], outDir, max, o) == goal
      {
        assert langs[i..][1..] == langs[i + 1..];
        ProcessLanguage(langs[i], outDir, max, o);
      }
    }
  }
}
