/** The crawler of main.py as a stateful object: the catalog file `urls.jsonl`, the shard
    files and the success counters are its fields, and URL discovery
    (`generate_urls_file`, main.py:94-110) and the processing loop (main.py:159-188) are
    its methods, each proved to do what the value-level definitions of `Catalog` and
    `Processing` say. */
module Crawl {
  import opened Common
  import opened ArticleRecord
  import opened Catalog
  import opened KeyOrder
  import opened Processing

  class Crawler {
    /** The rows of `urls.jsonl`, in file order. */
    var catalog: seq<Entry>
    /** The shard files, by path. */
    var shards: map<string, seq<Record>>
    /** `counts[lang][category]`: the successes of the current run. */
    var counts: map<string, map<string, nat>>

    constructor (catalog: seq<Entry>, shards: map<string, seq<Record>>)
      ensures this.catalog == catalog && this.shards == shards && counts == map[]
    {
      this.catalog := catalog;
      this.shards := shards;
      counts := map[];
    }

    function State(): RunState
      reads this
    {
      RunState(catalog, shards, counts)
    }

    /** Discovery so far: the catalog is `base` followed by the rows written for the
        candidates met (`done`), `seen` holds every URL met, and `written` rows have
        been written. */
    ghost predicate Scanned(base: seq<Entry>, done: seq<Candidate>, seen: set<string>, written: nat,
                            freshId: nat -> string)
      reads this
    {
      ScanInvariant(catalog, base, done, seen, written, freshId)
    }

    /** The URLs of one page (main.py:104-109): each URL not seen yet is added to the
        seen-set and gets a new unprocessed row with the next identifier. */
    method ScanPage(lang: string, category: string, page: int, urls: seq<string>, freshId: nat -> string,
                    ghost base: seq<Entry>, ghost done: seq<Candidate>, seen: set<string>, written: nat)
      returns (seenAfter: set<string>, writtenAfter: nat)
      modifies this
      requires Scanned(base, done, seen, written, freshId)
      ensures Scanned(base, done + PageCandidates(lang, category, page, urls), seenAfter, writtenAfter, freshId)
      ensures shards == old(shards) && counts == old(counts)
    {
      ghost var cs := PageCandidates(lang, category, page, urls);
      seenAfter, writtenAfter := seen, written;
      assert done + cs[..0] == done;
      for i := 0 to |urls|
        invariant Scanned(base, done + cs[..i], seenAfter, writtenAfter, freshId)
        invariant shards == old(shards) && counts == old(counts)
      {
        assert done + cs[..i + 1] == done + cs[..i] + [cs[i]];
        ScanStep(catalog, base, done + cs[..i], cs[i], seenAfter, writtenAfter, freshId);
        var url := urls[i];
        if url !in seenAfter {
          seenAfter := seenAfter + {url};
          catalog := catalog + [Entry(freshId(writtenAfter), lang, category, page, false, url)];
          writtenAfter := writtenAfter + 1;
        }
      }
      assert cs[..|urls|] == cs;
    }

    /** All pages of one category, 1 to the page count (main.py:100-102). */
    method ScanCategory(site: Site, lang: string, category: string, freshId: nat -> string,
                        ghost base: seq<Entry>, ghost done: seq<Candidate>, seen: set<string>, written: nat)
      returns (seenAfter: set<string>, writtenAfter: nat)
      modifies this
      requires Scanned(base, done, seen, written, freshId)
      ensures Scanned(base, done + CategoryCandidates(site, lang, category), seenAfter, writtenAfter, freshId)
      ensures shards == old(shards) && counts == old(counts)
    {
      var npages := NumPages(site.paginationSizes(lang, category));
      seenAfter, writtenAfter := seen, written;
      assert done + PagesCandidates(site, lang, category, 0) == done;
      for page := 1 to npages + 1
        invariant Scanned(base, done + PagesCandidates(site, lang, category, page - 1), seenAfter, writtenAfter, freshId)
        invariant shards == old(shards) && counts == old(counts)
      {
        var urls := site.pageUrls(lang, category, page);
        ghost var prev := done + PagesCandidates(site, lang, category, page - 1);
        seenAfter, writtenAfter := ScanPage(lang, category, page, urls, freshId, base, prev, seenAfter, writtenAfter);
        PagesSnoc(site, lang, category, page, done);
      }
    }

    /** All categories of one language, in listing order (main.py:98-99). */
    method ScanLanguage(site: Site, lang: string, freshId: nat -> string,
                        ghost base: seq<Entry>, ghost done: seq<Candidate>, seen: set<string>, written: nat)
      returns (seenAfter: set<string>, writtenAfter: nat)
      modifies this
      requires Scanned(base, done, seen, written, freshId)
      ensures Scanned(base, done + CategoriesCandidates(site, lang, Categories(site, lang)), seenAfter, writtenAfter, freshId)
      ensures shards == old(shards) && counts == old(counts)
    {
      var cats := Categories(site, lang);
      seenAfter, writtenAfter := seen, written;
      assert done + CategoriesCandidates(site, lang, cats[..0]) == done;
      for i := 0 to |cats|
        invariant Scanned(base, done + CategoriesCandidates(site, lang, cats[..i]), seenAfter, writtenAfter, freshId)
        invariant shards == old(shards) && counts == old(counts)
      {
        ghost var prev := done + CategoriesCandidates(site, lang, cats[..i]);
        seenAfter, writtenAfter := ScanCategory(site, lang, cats[i], freshId, base, prev, seenAfter, writtenAfter);
        CategoriesSnoc(site, lang, cats, i, done);
      }
      assert cats[..|cats|] == cats;
    }

    /** `generate_urls_file`: walks languages, categories, pages and URLs in that order,
        with one seen-set for the whole walk, and appends a row for the first occurrence
        of every URL. The rows it appends are `DiscoveredRows`. */
    method GenerateUrlsFile(langs: seq<string>, site: Site, freshId: nat -> string)
      modifies this
      ensures catalog == old(catalog) + DiscoveredRows(site, langs, freshId)
      ensures shards == old(shards) && counts == old(counts)
    {
      ghost var base := catalog;
      var seen: set<string> := {};
      var written: nat := 0;
      assert NewRows([], freshId) == [];
      for i := 0 to |langs|
        invariant Scanned(base, LanguagesCandidates(site, langs[..i]), seen, written, freshId)
        invariant shards == old(shards) && counts == old(counts)
      {
        seen, written := ScanLanguage(site, langs[i], freshId, base, LanguagesCandidates(site, langs[..i]), seen, written);
        assert langs[..i + 1][..i] == langs[..i];
      }
      assert langs[..|langs|] == langs;
    }

    /** One group of the processing loop (main.py:164-188): nothing when no row of it is
        pending; otherwise the pending rows are capped at `max` when it is positive, the
        shard named after the first of them is opened for appending, and they are tried
        one after the other. A success appends the record to the shard, flags every row
        with that id and counts it; a failure changes nothing. */
    method ProcessGroup(df: seq<Entry>, max: int, outDir: string, fetch: string -> Option<ApiArticle>,
                        ghost st0: RunState, ghost before: seq<Step>)
      modifies this
      requires State() == Exec(st0, before, fetch)
      ensures State() == Exec(st0, before + GroupSteps(df, max, outDir), fetch)
    {
      if df == [] {
        assert before + GroupSteps(df, max, outDir) == before;
        return;
      }
      var d := Cap(df, max);
      var path := ShardPath(outDir, d[0].lang, d[0].category);
      ExecSnoc(st0, before, Open(path), fetch);
      if path !in shards {
        shards := shards[path := []];
      }
      TryRows(d, path, fetch, st0, before + [Open(path)]);
      GroupStepsOf(df, max, outDir, before);
    }

    /** The tries of one group, in order (main.py:171-188). */
    method TryRows(d: seq<Entry>, path: string, fetch: string -> Option<ApiArticle>, ghost st0: RunState, ghost prefix: seq<Step>)
      modifies this
      requires State() == Exec(st0, prefix, fetch)
      ensures State() == Exec(st0, prefix + Tries(d, path), fetch)
    {
      assert Tries(d[..0], path) == [];
      assert prefix + Tries(d[..0], path) == prefix;
      for j := 0 to |d|
        invariant State() == Exec(st0, prefix + Tries(d[..j], path), fetch)
      {
        var e := d[j];
        TriesSnoc(d, j, path);
        assert prefix + Tries(d[..j + 1], path) == prefix + Tries(d[..j], path) + [Try(e, path)];
        ExecSnoc(st0, prefix + Tries(d[..j], path), Try(e, path), fetch);
        TryRow(e, path, fetch);
      }
      assert d[..|d|] == d;
    }

    /** One try (main.py:173-188): when the article can be had, its record is appended to
        the shard, every row with the row's id is flagged, and the group's counter is
        incremented, the inner dictionary being created on demand; otherwise nothing
        changes. */
    method TryRow(e: Entry, path: string, fetch: string -> Option<ApiArticle>)
      modifies this
      ensures State() == Apply(old(State()), Try(e, path), fetch)
    {
      ghost var st := State();
      var article := fetch(e.url);
      if article.Some? {
        var rec := ProcessArticle(article.value);
        shards := shards[path := ShardOf(shards, path) + [rec]];
        catalog := MarkProcessed(catalog, e.id);
        ghost var before := counts;
        var inner := if e.lang in counts then counts[e.lang] else map[];
        if e.category in inner {
          counts := counts[e.lang := inner[e.category := inner[e.category] + 1]];
        } else {
          counts := counts[e.lang := inner[e.category := 1]];
        }
        assert counts == Bump(before, e.lang, e.category);
        assert State() == Commit(WriteShard(st, path, rec), e);
      }
    }

    /** The processing loop of main.py:159-188: the catalog is grouped by (language,
        category) in ascending order, each group keeping the rows not processed when the
        run started, and the groups are processed one after the other. The new state is
        exactly `Run` of the old catalog and shards. */
    method ProcessCatalog(outDir: string, max: int, fetch: string -> Option<ApiArticle>)
      modifies this
      ensures State() == Run(old(catalog), old(shards), max, outDir, fetch)
    {
      var snapshot := catalog;
      counts := map[];
      ghost var st0 := State();
      var keys := SortedKeys(Keys(snapshot));
      for i := 0 to |keys|
        invariant State() == Exec(st0, PlanFor(snapshot, keys[..i], max, outDir), fetch)
      {
        assert keys[..i + 1][..i] == keys[..i];
        var df := Pending(snapshot, keys[i]);
        ProcessGroup(df, max, outDir, fetch, st0, PlanFor(snapshot, keys[..i], max, outDir));
      }
      assert keys[..|keys|] == keys;
    }

    /** The script's top level (main.py:155-188): discovery runs only when `urls.jsonl`
        does not exist yet, and then the catalog, fresh or found, is processed. */
    method RunScript(catalogFileExists: bool, langs: seq<string>, site: Site, freshId: nat -> string,
                     outDir: string, max: int, fetch: string -> Option<ApiArticle>)
      modifies this
      requires !catalogFileExists ==> catalog == []
      ensures catalogFileExists ==> State() == Run(old(catalog), old(shards), max, outDir, fetch)
      ensures !catalogFileExists ==> State() == Run(DiscoveredRows(site, langs, freshId), old(shards), max, outDir, fetch)
    {
      ghost var found := catalog;
      if !catalogFileExists {
        GenerateUrlsFile(langs, site, freshId);
        EmptyAppend(found, DiscoveredRows(site, langs, freshId));
      }
      ghost var rows := catalog;
      ghost var files := shards;
      ProcessCatalog(outDir, max, fetch);
      assert State() == Run(rows, files, max, outDir, fetch);
    }
  }

  /** The rows discovery appends: one per URL, for its first occurrence in the walk. */
  function DiscoveredRows(site: Site, langs: seq<string>, freshId: nat -> string): (rows: seq<Entry>)
    ensures forall i, j :: 0 <= i < j < |rows| ==> rows[i].url != rows[j].url
    ensures (set i | 0 <= i < |rows| :: rows[i].url) == Urls(LanguagesCandidates(site, langs))
    ensures forall i :: 0 <= i < |rows| ==> !rows[i].isProcessed && rows[i].id == freshId(i)
    ensures IsSubsequence(seq(|rows|, i requires 0 <= i < |rows| => Origin(rows[i])), LanguagesCandidates(site, langs))
    ensures forall k :: 0 <= k < |rows| ==> FirstWithUrl(LanguagesCandidates(site, langs), Origin(rows[k]))
  {
    var cs := LanguagesCandidates(site, langs);
    var kept := Fresh({}, cs);
    FreshDistinct({}, cs);
    FreshUrls({}, cs);
    FreshInOrder({}, cs);
    FreshFirst({}, cs);
    var rows := NewRows(kept, freshId);
    assert seq(|rows|, i requires 0 <= i < |rows| => Origin(rows[i])) == kept;
    assert (set i | 0 <= i < |rows| :: rows[i].url) == Urls(kept);
    rows
  }

  lemma EmptyAppend(a: seq<Entry>, b: seq<Entry>)
    requires a == []
    ensures a + b == b
  {
  }

  lemma PagesSnoc(site: Site, lang: string, category: string, page: int, done: seq<Candidate>)
    requires page >= 1
    ensures done + PagesCandidates(site, lang, category, page)
      == done + PagesCandidates(site, lang, category, page - 1)
         + PageCandidates(lang, category, page, site.pageUrls(lang, category, page))
  {
  }

  lemma CategoriesSnoc(site: Site, lang: string, cats: seq<string>, i: nat, done: seq<Candidate>)
    requires i < |cats|
    ensures done + CategoriesCandidates(site, lang, cats[..i + 1])
      == done + CategoriesCandidates(site, lang, cats[..i]) + CategoryCandidates(site, lang, cats[i])
  {
    assert cats[..i + 1][..i] == cats[..i];
  }

  lemma GroupStepsOf(df: seq<Entry>, max: int, outDir: string, before: seq<Step>)
    requires df != []
    ensures var d := Cap(df, max); var path := ShardPath(outDir, d[0].lang, d[0].category);
      before + GroupSteps(df, max, outDir) == before + [Open(path)] + Tries(d, path)
  {
  }

  lemma TriesSnoc(d: seq<Entry>, j: nat, path: string)
    requires j < |d|
    ensures Tries(d[..j + 1], path) == Tries(d[..j], path) + [Try(d[j], path)]
  {
  }

  lemma ExecSnoc(st0: RunState, done: seq<Step>, s: Step, fetch: string -> Option<ApiArticle>)
    ensures Exec(st0, done + [s], fetch) == Apply(Exec(st0, done, fetch), s, fetch)
  {
    assert (done + [s])[..|done|] == done;
  }

  /** Discovery so far, as values: `catalog` is `base` followed by the rows written for
      the candidates met (`done`), `seen` holds every URL met, and `written` rows have
      been written. */
  ghost predicate ScanInvariant(catalog: seq<Entry>, base: seq<Entry>, done: seq<Candidate>, seen: set<string>,
                                written: nat, freshId: nat -> string)
  {
    && seen == Urls(done)
    && written == |Fresh({}, done)|
    && catalog == base + NewRows(Fresh({}, done), freshId)
  }

  /** One URL met by discovery: it is written, with the next identifier, exactly when it
      was not met before. */
  lemma ScanStep(catalog: seq<Entry>, base: seq<Entry>, done: seq<Candidate>, c: Candidate, seen: set<string>,
                 written: nat, freshId: nat -> string)
    requires ScanInvariant(catalog, base, done, seen, written, freshId)
    ensures c.url in seen ==> ScanInvariant(catalog, base, done + [c], seen, written, freshId)
    ensures c.url !in seen ==>
      ScanInvariant(catalog + [Entry(freshId(written), c.lang, c.category, c.page, false, c.url)],
                    base, done + [c], seen + {c.url}, written + 1, freshId)
  {
    UrlsSnoc(done, c);
    assert (done + [c])[..|done|] == done;
    var kept := Fresh({}, done);
    if c.url !in seen {
      assert Fresh({}, done + [c]) == kept + [c];
      assert NewRows(kept + [c], freshId) == NewRows(kept, freshId) + [Entry(freshId(written), c.lang, c.category, c.page, false, c.url)];
    }
  }
}
