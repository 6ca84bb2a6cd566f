/** URL discovery of main.py (`get_categories`, `get_num_pages`, `get_urls` and
    `generate_urls_file`, main.py:67-110) as values: what the site offers becomes the
    `Site` oracle, and the order in which discovery meets URLs becomes a sequence of
    candidates, from which the catalog keeps the first occurrence of every URL. */
module Catalog {
  import opened Common
  import opened Text

  /** One line of `urls.jsonl`. */
  datatype Entry = Entry(id: string, lang: string, category: string, page: int, isProcessed: bool, url: string)

  /** What the site's pages yield once fetched and parsed:
      - the texts of the `a#cat_list_*` anchors of a language's category listing,
      - for a category page, the number of `li` items of each `ul.pagination` list,
      - the link targets of the `div.responsive_thumb` elements of one page of a category. */
  datatype Site = Site(
    categoryLabels: string -> seq<string>,
    paginationSizes: (string, string) -> seq<nat>,
    pageUrls: (string, string, int) -> seq<string>)

  /** `get_categories` turns every space of an anchor text into a dash. */
  function CategoryName(anchorText: string): (r: string)
    ensures |r| == |anchorText| && ' ' !in r
    ensures forall i :: 0 <= i < |anchorText| && anchorText[i] != ' ' ==> r[i] == anchorText[i]
    ensures forall i :: 0 <= i < |anchorText| && anchorText[i] == ' ' ==> r[i] == '-'
  {
    ReplaceChar(anchorText, ' ', '-')
  }

  /** `get_categories(lang)`: the category names of a language, in listing order. */
  function Categories(site: Site, lang: string): (cats: seq<string>)
    ensures |cats| == |site.categoryLabels(lang)|
    ensures forall i :: 0 <= i < |cats| ==> cats[i] == CategoryName(site.categoryLabels(lang)[i]) && ' ' !in cats[i]
  {
    var labels := site.categoryLabels(lang);
    seq(|labels|, i requires 0 <= i < |labels| => CategoryName(labels[i]))
  }

  /** `get_num_pages`: the item count of the first pagination list, or 1 when the page
      has none. */
  function NumPages(paginationSizes: seq<nat>): (n: nat)
    ensures paginationSizes == [] ==> n == 1
    ensures paginationSizes != [] ==> n == paginationSizes[0]
  {
    if paginationSizes != [] then paginationSizes[0] else 1
  }

  /** A URL as discovery meets it, with where it was met. */
  datatype Candidate = Candidate(lang: string, category: string, page: int, url: string)

  /** The URLs of one page, in page order. */
  function PageCandidates(lang: string, category: string, page: int, urls: seq<string>): (cs: seq<Candidate>)
    ensures |cs| == |urls|
    ensures forall i :: 0 <= i < |urls| ==> cs[i] == Candidate(lang, category, page, urls[i])
  {
    seq(|urls|, i requires 0 <= i < |urls| => Candidate(lang, category, page, urls[i]))
  }

  /** The URLs of pages `1..last` of a category, page after page. */
  function PagesCandidates(site: Site, lang: string, category: string, last: int): seq<Candidate>
    decreases last
  {
    if last < 1 then []
    else PagesCandidates(site, lang, category, last - 1)
         + PageCandidates(lang, category, last, site.pageUrls(lang, category, last))
  }

  /** The URLs of every page of a category. */
  function CategoryCandidates(site: Site, lang: string, category: string): seq<Candidate> {
    PagesCandidates(site, lang, category, NumPages(site.paginationSizes(lang, category)))
  }

  /** The URLs of the given categories, category after category. */
  function CategoriesCandidates(site: Site, lang: string, cats: seq<string>): seq<Candidate>
  {
    if cats == [] then []
    else CategoriesCandidates(site, lang, cats[..|cats| - 1]) + CategoryCandidates(site, lang, cats[|cats| - 1])
  }

  /** Everything discovery meets for the given languages, in the order it meets it. */
  function LanguagesCandidates(site: Site, langs: seq<string>): seq<Candidate>
  {
    if langs == [] then []
    else
      var lang := langs[|langs| - 1];
      LanguagesCandidates(site, langs[..|langs| - 1]) + CategoriesCandidates(site, lang, Categories(site, lang))
  }

  /** The URLs among some candidates. */
  function Urls(cs: seq<Candidate>): set<string> {
    set i | 0 <= i < |cs| :: cs[i].url
  }

  /** The candidates that discovery writes: each one whose URL is neither in `seen` nor
      met earlier. */
  function Fresh(seen: set<string>, cs: seq<Candidate>): seq<Candidate>
  {
    if cs == [] then []
    else
      var init, c := cs[..|cs| - 1], cs[|cs| - 1];
      if c.url in seen || c.url in Urls(init) then Fresh(seen, init) else Fresh(seen, init) + [c]
  }

  /** Where a catalog row's URL was met: its language, category, page and URL. */
  function Origin(e: Entry): Candidate {
    Candidate(e.lang, e.category, e.page, e.url)
  }

  /** The candidate at `i` is the first one with its URL. */
  ghost predicate FirstMet(cs: seq<Candidate>, i: int) {
    0 <= i < |cs| && forall j :: 0 <= j < i ==> cs[j].url != cs[i].url
  }

  /** `c` is the first candidate of `cs` with its URL. */
  ghost predicate FirstWithUrl(cs: seq<Candidate>, c: Candidate) {
    exists i :: FirstMet(cs, i) && cs[i] == c
  }

  /** The catalog rows written for some kept candidates, the `k`-th with the `k`-th
      identifier of the run and all of them not yet processed. */
  function NewRows(kept: seq<Candidate>, freshId: nat -> string): (rows: seq<Entry>)
    ensures |rows| == |kept|
    ensures forall i :: 0 <= i < |rows| ==> Origin(rows[i]) == kept[i]
    ensures forall i :: 0 <= i < |rows| ==> rows[i].id == freshId(i) && !rows[i].isProcessed
  {
    seq(|kept|, i requires 0 <= i < |kept| =>
      Entry(freshId(i), kept[i].lang, kept[i].category, kept[i].page, false, kept[i].url))
  }

  lemma UrlsSnoc(cs: seq<Candidate>, c: Candidate)
    ensures Urls(cs + [c]) == Urls(cs) + {c.url}
  {
    var s := cs + [c];
    assert s[|cs|].url == c.url;
    forall u | u in Urls(cs) ensures u in Urls(s) {
      var i :| 0 <= i < |cs| && cs[i].url == u;
      assert s[i] == cs[i];
    }
  }

  /** Discovery keeps exactly the URLs it met that were not already seen. */
  lemma {:induction false} FreshUrls(seen: set<string>, cs: seq<Candidate>)
    ensures Urls(Fresh(seen, cs)) == Urls(cs) - seen
  {
    if cs != [] {
      var init, c := cs[..|cs| - 1], cs[|cs| - 1];
      FreshUrls(seen, init);
      assert cs == init + [c];
      UrlsSnoc(init, c);
      if !(c.url in seen || c.url in Urls(init)) {
        UrlsSnoc(Fresh(seen, init), c);
      }
    }
  }

  /** No URL is written twice, and no URL that was already seen is written. */
  lemma {:induction false} FreshDistinct(seen: set<string>, cs: seq<Candidate>)
    ensures var f := Fresh(seen, cs);
      && (forall i, j :: 0 <= i < j < |f| ==> f[i].url != f[j].url)
      && (forall i :: 0 <= i < |f| ==> f[i].url !in seen)
  {
    if cs != [] {
      var init, c := cs[..|cs| - 1], cs[|cs| - 1];
      FreshDistinct(seen, init);
      if !(c.url in seen || c.url in Urls(init)) {
        var f0 := Fresh(seen, init);
        FreshUrls(seen, init);
        forall i | 0 <= i < |f0| ensures f0[i].url != c.url {
          assert f0[i].url in Urls(f0);
        }
        var f := f0 + [c];
        forall i, j | 0 <= i < j < |f| ensures f[i].url != f[j].url {
          assert f[i] == f0[i];
          if j < |f0| { assert f[j] == f0[j]; }
        }
        assert Fresh(seen, cs) == f;
      } else {
        assert Fresh(seen, cs) == Fresh(seen, init);
      }
    }
  }

  /** Every candidate discovery writes is the first one met with its URL: a URL met on
      several pages is written with the language, category and page where it was met
      first. */
  lemma FreshFirst(seen: set<string>, cs: seq<Candidate>)
    ensures forall k :: 0 <= k < |Fresh(seen, cs)| ==> FirstWithUrl(cs, Fresh(seen, cs)[k])
  {
    forall k | 0 <= k < |Fresh(seen, cs)| ensures FirstWithUrl(cs, Fresh(seen, cs)[k]) {
      var i := FreshFirstAt(seen, cs, k);
    }
  }

  /** The `k`-th written candidate, and the position `i` where it was first met. */
  lemma {:induction false} FreshFirstAt(seen: set<string>, cs: seq<Candidate>, k: nat) returns (i: nat)
    requires k < |Fresh(seen, cs)|
    ensures FirstMet(cs, i) && cs[i] == Fresh(seen, cs)[k]
  {
    var init, c := cs[..|cs| - 1], cs[|cs| - 1];
    var f0 := Fresh(seen, init);
    if !(c.url in seen || c.url in Urls(init)) && k == |f0| {
      i := |cs| - 1;
      forall j | 0 <= j < i ensures cs[j].url != cs[i].url {
        assert cs[j] == init[j];
        assert init[j].url in Urls(init);
      }
    } else {
      assert Fresh(seen, cs)[k] == f0[k];
      i := FreshFirstAt(seen, init, k);
      assert cs[i] == init[i];
      assert forall j :: 0 <= j < i ==> cs[j] == init[j];
    }
  }

  /** What discovery writes keeps the order in which it met the URLs. */
  lemma {:induction false} FreshInOrder(seen: set<string>, cs: seq<Candidate>)
    ensures IsSubsequence(Fresh(seen, cs), cs)
  {
    if cs != [] {
      var init, c := cs[..|cs| - 1], cs[|cs| - 1];
      FreshInOrder(seen, init);
      assert cs == init + [c];
      if c.url in seen || c.url in Urls(init) {
        SubsequenceExtend(Fresh(seen, init), init, c);
      } else {
        var f := Fresh(seen, init) + [c];
        assert f[..|f| - 1] == Fresh(seen, init);
      }
    }
  }

  /** A page's candidates carry exactly the page's URLs. */
  lemma PageCandidatesUrls(lang: string, category: string, page: int, urls: seq<string>)
    ensures Urls(PageCandidates(lang, category, page, urls)) == set u | u in urls
  {
    var cs := PageCandidates(lang, category, page, urls);
    forall u | u in urls ensures u in Urls(cs) {
      var i :| 0 <= i < |urls| && urls[i] == u;
      assert cs[i].url == u;
    }
  }

  /** The pages discovery visits in a category: only page 1 when the category page has no
      pagination list, none at all when its first list has no items, and otherwise pages
      1 up to that list's item count. */
  lemma CategoryPages(site: Site, lang: string, category: string)
    ensures var sizes := site.paginationSizes(lang, category);
      sizes == [] ==> CategoryCandidates(site, lang, category) == PageCandidates(lang, category, 1, site.pageUrls(lang, category, 1))
    ensures var sizes := site.paginationSizes(lang, category);
      sizes != [] && sizes[0] == 0 ==> CategoryCandidates(site, lang, category) == []
    ensures var sizes := site.paginationSizes(lang, category);
      sizes != [] ==> forall c :: c in CategoryCandidates(site, lang, category) ==> 1 <= c.page <= sizes[0]
  {
    var sizes := site.paginationSizes(lang, category);
    PagesVisited(site, lang, category, NumPages(sizes));
    if sizes == [] {
      assert PagesCandidates(site, lang, category, 0) == [];
    }
  }

  /** Every candidate of a category carries a page number between 1 and `last`, and every
      URL of each of those pages is a candidate: discovery visits exactly pages 1..last. */
  lemma {:induction false} PagesVisited(site: Site, lang: string, category: string, last: int)
    ensures forall c :: c in PagesCandidates(site, lang, category, last) ==>
      c.lang == lang && c.category == category && 1 <= c.page <= last && c.url in site.pageUrls(lang, category, c.page)
    ensures forall p, u :: 1 <= p <= last && u in site.pageUrls(lang, category, p) ==>
      Candidate(lang, category, p, u) in PagesCandidates(site, lang, category, last)
    decreases last
  {
    if last >= 1 {
      PagesVisited(site, lang, category, last - 1);
      var urls := site.pageUrls(lang, category, last);
      var page := PageCandidates(lang, category, last, urls);
      forall u | u in urls ensures Candidate(lang, category, last, u) in page {
        var i :| 0 <= i < |urls| && urls[i] == u;
        assert page[i] == Candidate(lang, category, last, u);
      }
    }
  }
}
