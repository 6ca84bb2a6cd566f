/** The resumable processing run of main.py (main.py:159-188) as values. The run is read
    as a plan, the sequence of steps the loop takes (open a group's shard, try one row),
    and the plan's execution against an article oracle: `fetch(url)` is the article the
    API returns, or `None` when fetching or processing it raises. */
module Processing {
  import opened Common
  import opened Text
  import opened ArticleRecord
  import opened Catalog
  import opened KeyOrder

  /** What a run reads and changes: the catalog rows (`df_all`), the shard files by path,
      and the success counters by language and category. */
  datatype RunState = RunState(rows: seq<Entry>, shards: map<string, seq<Record>>, counts: map<string, map<string, nat>>)

  /** The shard a group's records are appended to (main.py:169). */
  function ShardPath(outDir: string, lang: string, category: string): string {
    outDir + "/wikihow_" + lang + "_" + Lower(category) + ".jsonl"
  }

  function KeyOf(e: Entry): Key {
    (e.lang, e.category)
  }

  function Keys(rows: seq<Entry>): (ks: seq<Key>)
    ensures |ks| == |rows|
    ensures forall i :: 0 <= i < |rows| ==> ks[i] == KeyOf(rows[i])
  {
    seq(|rows|, i requires 0 <= i < |rows| => KeyOf(rows[i]))
  }

  /** The rows of one group that are not processed yet, in catalog order (main.py:160). */
  function Pending(rows: seq<Entry>, k: Key): (df: seq<Entry>)
    ensures forall e :: e in df ==> e in rows && KeyOf(e) == k && !e.isProcessed
    ensures forall e :: e in rows && KeyOf(e) == k && !e.isProcessed ==> e in df
  {
    if rows == [] then []
    else
      var init, e := rows[..|rows| - 1], rows[|rows| - 1];
      assert rows == init + [e];
      if KeyOf(e) == k && !e.isProcessed then Pending(init, k) + [e] else Pending(init, k)
  }

  /** `df.head(max)` when `max > 0`, every row otherwise (main.py:166-167). */
  function Cap(df: seq<Entry>, max: int): (d: seq<Entry>)
    ensures d <= df
    ensures max > 0 ==> |d| == if |df| < max then |df| else max
    ensures max <= 0 ==> d == df
  {
    if max > 0 && max < |df| then df[..max] else df
  }

  /** One thing the loop does: open a shard for appending, or try one row. */
  datatype Step = Open(path: string) | Try(entry: Entry, path: string)

  function Tries(d: seq<Entry>, path: string): (ts: seq<Step>)
    ensures |ts| == |d|
    ensures forall i :: 0 <= i < |d| ==> ts[i] == Try(d[i], path)
  {
    seq(|d|, i requires 0 <= i < |d| => Try(d[i], path))
  }

  /** One group: nothing when no row of it is pending; otherwise open the shard named
      after its first row, then try the pending rows up to the cap, in order. */
  function GroupSteps(df: seq<Entry>, max: int, outDir: string): seq<Step> {
    if df == [] then []
    else
      var d := Cap(df, max);
      var path := ShardPath(outDir, d[0].lang, d[0].category);
      [Open(path)] + Tries(d, path)
  }

  /** The groups with the given keys, one after the other. */
  function PlanFor(rows: seq<Entry>, keys: seq<Key>, max: int, outDir: string): seq<Step> {
    if keys == [] then []
    else PlanFor(rows, keys[..|keys| - 1], max, outDir) + GroupSteps(Pending(rows, keys[|keys| - 1]), max, outDir)
  }

  /** Everything a run does, group by group in ascending (language, category) order. */
  function Plan(rows: seq<Entry>, max: int, outDir: string): seq<Step> {
    PlanFor(rows, SortedKeys(Keys(rows)), max, outDir)
  }

  // ----- executing a plan -----

  /** The records of a shard file; a missing file reads as empty. */
  function ShardOf(shards: map<string, seq<Record>>, path: string): seq<Record> {
    if path in shards then shards[path] else []
  }

  /** How often a language/category pair has been counted; a missing entry counts 0. */
  function Count(counts: map<string, map<string, nat>>, lang: string, category: string): nat {
    if lang in counts && category in counts[lang] then counts[lang][category] else 0
  }

  /** One more success for `(lang, category)`, the nested dictionary being created on
      demand (main.py:182-185). */
  function Bump(counts: map<string, map<string, nat>>, lang: string, category: string): (r: map<string, map<string, nat>>)
    ensures Count(r, lang, category) == Count(counts, lang, category) + 1
    ensures forall l, c :: (l, c) != (lang, category) ==> Count(r, l, c) == Count(counts, l, c)
  {
    var inner := if lang in counts then counts[lang] else map[];
    if category in inner then counts[lang := inner[category := inner[category] + 1]]
    else counts[lang := inner[category := 1]]
  }

  /** Every row carrying `id` becomes processed; nothing else of any row changes
      (main.py:178). */
  function MarkProcessed(rows: seq<Entry>, id: string): (r: seq<Entry>)
    ensures |r| == |rows|
    ensures forall i :: 0 <= i < |rows| ==>
      && r[i].(isProcessed := rows[i].isProcessed) == rows[i]
      && (r[i].isProcessed <==> rows[i].isProcessed || rows[i].id == id)
  {
    seq(|rows|, i requires 0 <= i < |rows| => if rows[i].id == id then rows[i].(isProcessed := true) else rows[i])
  }

  /** Appending one record to a shard (main.py:175). */
  function WriteShard(st: RunState, path: string, rec: Record): (r: RunState)
    ensures r.rows == st.rows && r.counts == st.counts
    ensures ShardOf(r.shards, path) == ShardOf(st.shards, path) + [rec]
    ensures forall p :: p != path ==> ShardOf(r.shards, p) == ShardOf(st.shards, p)
  {
    st.(shards := st.shards[path := ShardOf(st.shards, path) + [rec]])
  }

  /** What follows the shard write of a success: the row's flag and its counter
      (main.py:178-185). */
  function Commit(st: RunState, e: Entry): RunState {
    st.(rows := MarkProcessed(st.rows, e.id), counts := Bump(st.counts, e.lang, e.category))
  }

  /** Opening creates an empty shard file if there is none; a try changes nothing when the
      article cannot be had, and otherwise writes its record and commits the row. */
  function Apply(st: RunState, s: Step, fetch: string -> Option<ApiArticle>): RunState {
    match s
    case Open(p) => if p in st.shards then st else st.(shards := st.shards[p := []])
    case Try(e, p) =>
      match fetch(e.url)
      case None => st
      case Some(a) => Commit(WriteShard(st, p, Process(a)), e)
  }

  function Exec(st: RunState, steps: seq<Step>, fetch: string -> Option<ApiArticle>): RunState {
    if steps == [] then st
    else Apply(Exec(st, steps[..|steps| - 1], fetch), steps[|steps| - 1], fetch)
  }

  predicate Succeeds(s: Step, fetch: string -> Option<ApiArticle>) {
    s.Try? && fetch(s.entry.url).Some?
  }

  /** The ids of the rows tried successfully. */
  function Succeeded(steps: seq<Step>, fetch: string -> Option<ApiArticle>): set<string> {
    set s | s in steps && Succeeds(s, fetch) :: s.entry.id
  }

  /** The number of successful tries of rows with key `k`. */
  function Successes(steps: seq<Step>, fetch: string -> Option<ApiArticle>, k: Key): nat {
    if steps == [] then 0
    else
      var s := steps[|steps| - 1];
      Successes(steps[..|steps| - 1], fetch, k) + if Succeeds(s, fetch) && KeyOf(s.entry) == k then 1 else 0
  }

  /** The records written to `path`, in order. */
  function Written(steps: seq<Step>, fetch: string -> Option<ApiArticle>, path: string): seq<Record> {
    if steps == [] then []
    else
      var s := steps[|steps| - 1];
      Written(steps[..|steps| - 1], fetch, path) + if Succeeds(s, fetch) && s.path == path then [Process(fetch(s.entry.url).value)] else []
  }

  /** The number of tries of rows with key `k`, successful or not. */
  function TryCount(steps: seq<Step>, k: Key): nat {
    if steps == [] then 0
    else
      var s := steps[|steps| - 1];
      TryCount(steps[..|steps| - 1], k) + if s.Try? && KeyOf(s.entry) == k then 1 else 0
  }

  /** A run of main.py: the counters start empty (main.py:161). */
  function Run(rows: seq<Entry>, shards: map<string, seq<Record>>, max: int, outDir: string,
               fetch: string -> Option<ApiArticle>): (r: RunState)
    ensures var plan := Plan(rows, max, outDir);
      && |r.rows| == |rows|
      && (forall i :: 0 <= i < |rows| ==>
            r.rows[i] == rows[i].(isProcessed := rows[i].isProcessed || rows[i].id in Succeeded(plan, fetch)))
      && (forall l, c :: Count(r.counts, l, c) == Successes(plan, fetch, (l, c)))
      && (forall p :: ShardOf(r.shards, p) == ShardOf(shards, p) + Written(plan, fetch, p))
  {
    var st := RunState(rows, shards, map[]);
    var plan := Plan(rows, max, outDir);
    ExecRows(st, plan, fetch);
    ExecCounts(st, plan, fetch);
    ExecShards(st, plan, fetch);
    Exec(st, plan, fetch)
  }

  // ----- what executing a plan does -----

  lemma SucceededSnoc(steps: seq<Step>, s: Step, fetch: string -> Option<ApiArticle>)
    ensures Succeeded(steps + [s], fetch) == Succeeded(steps, fetch) + if Succeeds(s, fetch) then {s.entry.id} else {}
  {
    assert forall t :: t in steps + [s] <==> t in steps || t == s;
  }

  /** A row becomes processed exactly when its id was tried successfully; no other field of
      any row changes, and no row is added or removed. */
  lemma {:induction false} ExecRows(st: RunState, steps: seq<Step>, fetch: string -> Option<ApiArticle>)
    ensures var r := Exec(st, steps, fetch);
      && |r.rows| == |st.rows|
      && forall i :: 0 <= i < |st.rows| ==>
           r.rows[i] == st.rows[i].(isProcessed := st.rows[i].isProcessed || st.rows[i].id in Succeeded(steps, fetch))
  {
    if steps != [] {
      var init, s := steps[..|steps| - 1], steps[|steps| - 1];
      ExecRows(st, init, fetch);
      assert steps == init + [s];
      SucceededSnoc(init, s, fetch);
    }
  }

  /** Each counter grows by the successes of its group, and by nothing else. */
  lemma {:induction false} ExecCounts(st: RunState, steps: seq<Step>, fetch: string -> Option<ApiArticle>)
    ensures forall l, c :: Count(Exec(st, steps, fetch).counts, l, c) == Count(st.counts, l, c) + Successes(steps, fetch, (l, c))
  {
    if steps != [] {
      ExecCounts(st, steps[..|steps| - 1], fetch);
    }
  }

  lemma ApplyShards(st: RunState, s: Step, fetch: string -> Option<ApiArticle>, p: string)
    ensures ShardOf(Apply(st, s, fetch).shards, p)
      == ShardOf(st.shards, p) + if Succeeds(s, fetch) && s.path == p then [Process(fetch(s.entry.url).value)] else []
  {
  }

  /** Each shard grows by the records of the successes written to it, in order. */
  lemma {:induction false} ExecShards(st: RunState, steps: seq<Step>, fetch: string -> Option<ApiArticle>)
    ensures forall p :: ShardOf(Exec(st, steps, fetch).shards, p) == ShardOf(st.shards, p) + Written(steps, fetch, p)
  {
    if steps != [] {
      var init, s := steps[..|steps| - 1], steps[|steps| - 1];
      ExecShards(st, init, fetch);
      forall p ensures ShardOf(Exec(st, steps, fetch).shards, p) == ShardOf(st.shards, p) + Written(steps, fetch, p) {
        ApplyShards(Exec(st, init, fetch), s, fetch, p);
      }
    }
  }

  /** Opening creates a shard file, and no step removes one: every group that had a
      pending row leaves a file behind, even when all its tries fail. */
  lemma {:induction false} ExecShardFiles(st: RunState, steps: seq<Step>, fetch: string -> Option<ApiArticle>)
    ensures var r := Exec(st, steps, fetch);
      && (forall p :: p in st.shards ==> p in r.shards)
      && (forall i :: 0 <= i < |steps| && steps[i].Open? ==> steps[i].path in r.shards)
  {
    if steps != [] {
      var init := steps[..|steps| - 1];
      ExecShardFiles(st, init, fetch);
      assert forall i :: 0 <= i < |init| ==> steps[i] == init[i];
    }
  }

  // ----- what the plan tries -----

  lemma GroupTries(df: seq<Entry>, k: Key, max: int, outDir: string)
    requires forall e :: e in df ==> KeyOf(e) == k
    ensures forall s :: s in GroupSteps(df, max, outDir) && s.Try? ==>
      s.entry in df && s.path == ShardPath(outDir, s.entry.lang, s.entry.category)
  {
    if df != [] {
      var d := Cap(df, max);
      assert d[0] in df;
      forall s | s in GroupSteps(df, max, outDir) && s.Try?
        ensures s.entry in df && s.path == ShardPath(outDir, s.entry.lang, s.entry.category)
      {
        var i :| 0 <= i < |[Open(ShardPath(outDir, d[0].lang, d[0].category))] + Tries(d, ShardPath(outDir, d[0].lang, d[0].category))|
          && ([Open(ShardPath(outDir, d[0].lang, d[0].category))] + Tries(d, ShardPath(outDir, d[0].lang, d[0].category)))[i] == s;
        assert d[i - 1] in df;
      }
    }
  }

  /** The loop tries only rows of the catalog that were pending when it started, each
      with the shard of its own group. */
  lemma {:induction false} PlanTries(rows: seq<Entry>, keys: seq<Key>, max: int, outDir: string)
    ensures forall s :: s in PlanFor(rows, keys, max, outDir) && s.Try? ==>
      && s.entry in rows && !s.entry.isProcessed && KeyOf(s.entry) in keys
      && s.path == ShardPath(outDir, s.entry.lang, s.entry.category)
  {
    if keys != [] {
      var init, k := keys[..|keys| - 1], keys[|keys| - 1];
      PlanTries(rows, init, max, outDir);
      GroupTries(Pending(rows, k), k, max, outDir);
      assert forall x :: x in init ==> x in keys;
    }
  }

  lemma GroupCovers(df: seq<Entry>, k: Key, max: int, outDir: string)
    requires forall e :: e in df ==> KeyOf(e) == k
    ensures forall i :: 0 <= i < |Cap(df, max)| ==>
      Try(Cap(df, max)[i], ShardPath(outDir, k.0, k.1)) in GroupSteps(df, max, outDir)
  {
    if df != [] {
      var d := Cap(df, max);
      assert d[0] in df;
      var g := GroupSteps(df, max, outDir);
      forall i | 0 <= i < |d| ensures Try(d[i], ShardPath(outDir, k.0, k.1)) in g {
        assert g[i + 1] == Try(d[i], ShardPath(outDir, k.0, k.1));
      }
    }
  }

  /** The rows tried from one group are exactly its first pending rows up to the cap, and
      every one of them is tried, with the group's shard. */
  lemma {:induction false} PlanCovers(rows: seq<Entry>, keys: seq<Key>, max: int, outDir: string)
    ensures forall k, i :: k in keys && 0 <= i < |Cap(Pending(rows, k), max)| ==>
      Try(Cap(Pending(rows, k), max)[i], ShardPath(outDir, k.0, k.1)) in PlanFor(rows, keys, max, outDir)
  {
    if keys != [] {
      var init, last := keys[..|keys| - 1], keys[|keys| - 1];
      PlanCovers(rows, init, max, outDir);
      GroupCovers(Pending(rows, last), last, max, outDir);
      var p0, g := PlanFor(rows, init, max, outDir), GroupSteps(Pending(rows, last), max, outDir);
      assert forall x :: x in p0 || x in g ==> x in p0 + g;
      assert forall k :: k in keys ==> k in init || k == last;
    }
  }

  /** Without a cap, every pending row of the catalog is tried. */
  lemma PlanTriesAllPending(rows: seq<Entry>, max: int, outDir: string)
    requires max <= 0
    ensures forall e :: e in rows && !e.isProcessed ==>
      Try(e, ShardPath(outDir, e.lang, e.category)) in Plan(rows, max, outDir)
  {
    var keys := SortedKeys(Keys(rows));
    PlanCovers(rows, keys, max, outDir);
    forall e | e in rows && !e.isProcessed
      ensures Try(e, ShardPath(outDir, e.lang, e.category)) in Plan(rows, max, outDir)
    {
      var j :| 0 <= j < |rows| && rows[j] == e;
      assert Keys(rows)[j] == KeyOf(e);
      var df := Pending(rows, KeyOf(e));
      var i :| 0 <= i < |df| && df[i] == e;
      assert Cap(df, max)[i] == e;
    }
  }

  lemma {:induction false} TryCountConcat(a: seq<Step>, b: seq<Step>, k: Key)
    ensures TryCount(a + b, k) == TryCount(a, k) + TryCount(b, k)
    decreases |b|
  {
    if b == [] {
      assert a + b == a;
    } else {
      TryCountConcat(a, b[..|b| - 1], k);
      assert (a + b)[..|a + b| - 1] == a + b[..|b| - 1];
    }
  }

  lemma {:induction false} TryCountTries(d: seq<Entry>, path: string, k: Key, k': Key)
    requires forall e :: e in d ==> KeyOf(e) == k'
    ensures TryCount(Tries(d, path), k) == if k == k' then |d| else 0
  {
    if d != [] {
      var init := d[..|d| - 1];
      TryCountTries(init, path, k, k');
      assert Tries(d, path)[..|d| - 1] == Tries(init, path);
      assert d[|d| - 1] in d;
    }
  }

  lemma GroupTryCount(df: seq<Entry>, max: int, outDir: string, k: Key, k': Key)
    requires forall e :: e in df ==> KeyOf(e) == k'
    ensures TryCount(GroupSteps(df, max, outDir), k) == if k == k' then |Cap(df, max)| else 0
  {
    if df != [] {
      var d := Cap(df, max);
      var path := ShardPath(outDir, d[0].lang, d[0].category);
      TryCountConcat([Open(path)], Tries(d, path), k);
      assert TryCount([Open(path)], k) == 0 by {
        assert [Open(path)][..0] == [];
      }
      assert forall e :: e in d ==> e in df;
      TryCountTries(d, path, k, k');
    }
  }

  /** With distinct keys, a group is tried exactly as often as its capped pending rows. */
  lemma {:induction false} PlanTryCount(rows: seq<Entry>, keys: seq<Key>, max: int, outDir: string, k: Key)
    requires forall i, j :: 0 <= i < j < |keys| ==> keys[i] != keys[j]
    ensures TryCount(PlanFor(rows, keys, max, outDir), k) == if k in keys then |Cap(Pending(rows, k), max)| else 0
  {
    if keys != [] {
      var init, last := keys[..|keys| - 1], keys[|keys| - 1];
      PlanTryCount(rows, init, max, outDir, k);
      var df := Pending(rows, last);
      TryCountConcat(PlanFor(rows, init, max, outDir), GroupSteps(df, max, outDir), k);
      GroupTryCount(df, max, outDir, k, last);
      assert k in keys <==> k in init || k == last;
      assert last !in init by {
        forall a | 0 <= a < |init| ensures init[a] != last {
          assert keys[a] == init[a];
        }
      }
    }
  }

  /** With a positive cap, no group is tried more than `max` times: the cap bounds
      attempts (main.py:166-167). */
  lemma PlanCapped(rows: seq<Entry>, max: int, outDir: string, k: Key)
    requires max > 0
    ensures TryCount(Plan(rows, max, outDir), k) <= max
  {
    var keys := SortedKeys(Keys(rows));
    forall i, j | 0 <= i < j < |keys| ensures keys[i] != keys[j] {
      if keys[i] == keys[j] {
        KeyLtIrreflexive(keys[i]);
      }
    }
    PlanTryCount(rows, keys, max, outDir, k);
  }

  lemma {:induction false} SuccessesAtMostTries(steps: seq<Step>, fetch: string -> Option<ApiArticle>, k: Key)
    ensures Successes(steps, fetch, k) <= TryCount(steps, k)
  {
    if steps != [] {
      SuccessesAtMostTries(steps[..|steps| - 1], fetch, k);
    }
  }

  /** With a positive cap, no counter of a run exceeds the cap. */
  lemma RunCountCapped(rows: seq<Entry>, shards: map<string, seq<Record>>, max: int, outDir: string,
                       fetch: string -> Option<ApiArticle>, lang: string, category: string)
    requires max > 0
    ensures Count(Run(rows, shards, max, outDir, fetch).counts, lang, category) <= max
  {
    SuccessesAtMostTries(Plan(rows, max, outDir), fetch, (lang, category));
    PlanCapped(rows, max, outDir, (lang, category));
  }

  /** No try of a row comes before a try of a row with a smaller key. */
  ghost predicate TriesSorted(p: seq<Step>) {
    forall i, j :: 0 <= i < j < |p| && p[i].Try? && p[j].Try? ==>
      KeyOf(p[i].entry) == KeyOf(p[j].entry) || KeyLt(KeyOf(p[i].entry), KeyOf(p[j].entry))
  }

  lemma TriesSortedConcat(p0: seq<Step>, g: seq<Step>, last: Key)
    requires TriesSorted(p0)
    requires forall s :: s in p0 && s.Try? ==> KeyLt(KeyOf(s.entry), last)
    requires forall s :: s in g && s.Try? ==> KeyOf(s.entry) == last
    ensures TriesSorted(p0 + g)
  {
    var p := p0 + g;
    forall i, j | 0 <= i < j < |p| && p[i].Try? && p[j].Try?
      ensures KeyOf(p[i].entry) == KeyOf(p[j].entry) || KeyLt(KeyOf(p[i].entry), KeyOf(p[j].entry))
    {
      if j < |p0| {
        assert p[i] == p0[i] && p[j] == p0[j];
      } else if i < |p0| {
        assert p[i] == p0[i] && p0[i] in p0;
        assert p[j] == g[j - |p0|] && g[j - |p0|] in g;
      } else {
        assert p[i] == g[i - |p0|] && g[i - |p0|] in g;
        assert p[j] == g[j - |p0|] && g[j - |p0|] in g;
      }
    }
  }

  /** Groups are tried in ascending key order: a try of a later group never comes before
      one of an earlier group. */
  lemma {:induction false} PlanSorted(rows: seq<Entry>, keys: seq<Key>, max: int, outDir: string)
    requires StrictlySorted(keys)
    ensures TriesSorted(PlanFor(rows, keys, max, outDir))
  {
    if keys != [] {
      var init, last := keys[..|keys| - 1], keys[|keys| - 1];
      PlanSorted(rows, init, max, outDir);
      PlanTries(rows, init, max, outDir);
      var df := Pending(rows, last);
      GroupTries(df, last, max, outDir);
      var p0 := PlanFor(rows, init, max, outDir);
      forall s | s in p0 && s.Try? ensures KeyLt(KeyOf(s.entry), last) {
        var a :| 0 <= a < |init| && init[a] == KeyOf(s.entry);
        assert keys[a] == init[a];
      }
      TriesSortedConcat(p0, GroupSteps(df, max, outDir), last);
    }
  }

  /** The rows of one group are tried in catalog order. */
  lemma {:induction false} PendingInOrder(rows: seq<Entry>, k: Key)
    ensures IsSubsequence(Pending(rows, k), rows)
  {
    if rows != [] {
      var init, e := rows[..|rows| - 1], rows[|rows| - 1];
      PendingInOrder(init, k);
      assert rows == init + [e];
      if KeyOf(e) == k && !e.isProcessed {
        var df := Pending(init, k) + [e];
        assert df[..|df| - 1] == Pending(init, k);
      } else {
        SubsequenceExtend(Pending(init, k), init, e);
      }
    }
  }

  // ----- across runs -----

  /** A later run never tries a row whose id an earlier run completed, whatever its cap,
      output directory and article oracle. */
  lemma ResumeSkipsSucceeded(rows: seq<Entry>, shards: map<string, seq<Record>>, max: int, outDir: string,
                             fetch: string -> Option<ApiArticle>, max2: int, outDir2: string)
    ensures var r := Run(rows, shards, max, outDir, fetch);
      forall s :: s in Plan(r.rows, max2, outDir2) && s.Try? ==> s.entry.id !in Succeeded(Plan(rows, max, outDir), fetch)
  {
    var r := Run(rows, shards, max, outDir, fetch);
    PlanTries(r.rows, SortedKeys(Keys(r.rows)), max2, outDir2);
    forall s | s in Plan(r.rows, max2, outDir2) && s.Try?
      ensures s.entry.id !in Succeeded(Plan(rows, max, outDir), fetch)
    {
      var i :| 0 <= i < |r.rows| && r.rows[i] == s.entry;
    }
  }

  /** A run that stops after writing a record (main.py:175) but before flagging its row
      (main.py:178) leaves the record in the shard and the row pending: an uncapped rerun
      tries the row again and appends its record a second time. */
  lemma InterruptedWriteIsRetried(st: RunState, e: Entry, path: string, rec: Record, outDir: string)
    requires e in st.rows && !e.isProcessed
    ensures var st' := WriteShard(st, path, rec);
      && ShardOf(st'.shards, path) == ShardOf(st.shards, path) + [rec]
      && Try(e, ShardPath(outDir, e.lang, e.category)) in Plan(st'.rows, 0, outDir)
  {
    PlanTriesAllPending(st.rows, 0, outDir);
  }

  /** Every successful try writes its record to its shard. */
  lemma {:induction false} TriedIsWritten(steps: seq<Step>, fetch: string -> Option<ApiArticle>, s: Step)
    requires s in steps && Succeeds(s, fetch)
    ensures Process(fetch(s.entry.url).value) in Written(steps, fetch, s.path)
  {
    var init, last := steps[..|steps| - 1], steps[|steps| - 1];
    assert steps == init + [last];
    if last != s {
      TriedIsWritten(init, fetch, s);
    }
  }

  /** The interrupted run of `InterruptedWriteIsRetried`, followed by an uncapped rerun
      whose fetch succeeds again: the shard ends up holding the record twice, once from
      the interrupted write and once more from the retry. */
  lemma InterruptedRerunDuplicates(st: RunState, e: Entry, outDir: string, fetch: string -> Option<ApiArticle>)
    requires e in st.rows && !e.isProcessed && fetch(e.url).Some?
    ensures var path := ShardPath(outDir, e.lang, e.category);
      var rec := Process(fetch(e.url).value);
      var prior := ShardOf(st.shards, path);
      var st' := WriteShard(st, path, rec);
      var after := ShardOf(Run(st'.rows, st'.shards, 0, outDir, fetch).shards, path);
      && |after| > |prior|
      && after[|prior|] == rec
      && rec in after[|prior| + 1..]
  {
    var path := ShardPath(outDir, e.lang, e.category);
    var rec := Process(fetch(e.url).value);
    var st' := WriteShard(st, path, rec);
    var plan := Plan(st'.rows, 0, outDir);
    InterruptedWriteIsRetried(st, e, path, rec, outDir);
    TriedIsWritten(plan, fetch, Try(e, path));
    var prior := ShardOf(st.shards, path);
    var after := ShardOf(Run(st'.rows, st'.shards, 0, outDir, fetch).shards, path);
    assert after == prior + [rec] + Written(plan, fetch, path);
    assert after[|prior| + 1..] == Written(plan, fetch, path);
  }

  /** When ids are unique, a run flips exactly the rows it tried successfully. */
  lemma RunFlipsExactlyTriedRows(rows: seq<Entry>, shards: map<string, seq<Record>>, max: int, outDir: string,
                                 fetch: string -> Option<ApiArticle>)
    requires forall i, j :: 0 <= i < j < |rows| ==> rows[i].id != rows[j].id
    ensures var r := Run(rows, shards, max, outDir, fetch);
      forall i :: 0 <= i < |rows| ==>
        (r.rows[i].isProcessed <==>
           rows[i].isProcessed || exists s :: s in Plan(rows, max, outDir) && Succeeds(s, fetch) && s.entry == rows[i])
  {
    var plan := Plan(rows, max, outDir);
    PlanTries(rows, SortedKeys(Keys(rows)), max, outDir);
    forall i | 0 <= i < |rows| && rows[i].id in Succeeded(plan, fetch)
      ensures exists s :: s in plan && Succeeds(s, fetch) && s.entry == rows[i]
    {
      var s :| s in plan && Succeeds(s, fetch) && s.entry.id == rows[i].id;
      var j :| 0 <= j < |rows| && rows[j] == s.entry;
      assert rows[j].id == rows[i].id;
      if j < i { assert false; } else if j > i { assert false; }
    }
  }
}
