/** The shard merge of merge_categories.py: its own long-form `format_methods`
    (merge_categories.py:9-23), the file-name parsing that recovers a shard's language and
    category (merge_categories.py:29-30), the tagging and concatenation of the shards'
    rows (merge_categories.py:28-37) and the filling of missing reference counts
    (merge_categories.py:45-46). */
module Merge {
  import opened Common
  import opened Text
  import opened ArticleRecord
  import opened Dataset
  import opened Processing

  // ----- format_methods, long form -----

  /** `format_methods(methods)` of the merge script: one answer per method, in order, each
      the same text as the loader's long answer. */
  method MergeFormatMethods(methods: seq<Method>) returns (formatted: seq<string>)
    ensures |formatted| == |methods|
    ensures forall i :: 0 <= i < |methods| ==> formatted[i] == FormatMethod(methods[i], false)
    ensures formatted == Formatted(methods, false)
  {
    formatted := [];
    for i := 0 to |methods|
      invariant |formatted| == i
      invariant forall k :: 0 <= k < i ==> formatted[k] == FormatMethod(methods[k], false)
    {
      var answer := MergeAnswer(methods[i]);
      formatted := formatted + [answer];
    }
    FormattedPointwise(methods, false, formatted);
  }

  /** The body of the outer loop: the two branches differ only in the header. */
  method MergeAnswer(m: Method) returns (answer: string)
    ensures answer == FormatMethod(m, false)
  {
    ghost var head := HeaderText(m) + Eol(false);
    var content: string;
    if Lower(m.title) != "pasos" {
      content := "Método " + IntToString(m.number) + ": " + m.title + "\n\n";
      assert content == head;
      content := AppendSteps(content, m.steps);
    } else {
      content := "Sigue los siguientes pasos:\n\n";
      assert content == head;
      content := AppendSteps(content, m.steps);
    }
    assert content == HeaderText(m) + Eol(false) + Body(m.steps, false);
    answer := Strip(content);
  }

  /** The inner loop of either branch: each step, its newline runs collapsed and its ends
      stripped, followed by a blank line. */
  method AppendSteps(start: string, steps: seq<string>) returns (content: string)
    ensures content == start + Body(steps, false)
  {
    content := start;
    for j := 0 to |steps|
      invariant content == start + Body(steps[..j], false)
    {
      var stepContent := Strip(CollapseNewlines(steps[j]));
      assert steps[..j + 1][..j] == steps[..j];
      AppendAssoc(start, Body(steps[..j], false), stepContent, "\n\n");
      content := content + stepContent + "\n\n";
    }
    assert steps[..|steps|] == steps;
  }

  // ----- shard file names -----

  /** `path.split(".")[-2].split("_")`, then the last piece as the category and the one
      before it as the language; None where Python would raise an IndexError. */
  function ParseShardPath(path: string): (r: Option<(string, string)>)
    ensures r.Some? ==> '_' !in r.value.0 && '_' !in r.value.1 && '.' !in r.value.0 && '.' !in r.value.1
  {
    var dots := Split(path, '.');
    if |dots| < 2 then None
    else
      var pieces := Split(dots[|dots| - 2], '_');
      if |pieces| < 2 then None
      else
        SplitPieceNoDot(dots[|dots| - 2], pieces);
        Some((pieces[|pieces| - 2], pieces[|pieces| - 1]))
  }

  /** The pieces of a dot-free text have no dot. */
  lemma SplitPieceNoDot(stem: string, pieces: seq<string>)
    requires '.' !in stem && pieces == Split(stem, '_')
    ensures forall k :: 0 <= k < |pieces| ==> '.' !in pieces[k]
  {
    SplitJoin(stem, '_');
    forall k | 0 <= k < |pieces| ensures '.' !in pieces[k] {
      JoinContainsPiece(pieces, '_', k);
    }
  }

  /** Every piece is a slice of the joined text. */
  lemma {:induction false} JoinContainsPiece(parts: seq<string>, sep: char, k: nat)
    requires |parts| >= 1 && k < |parts|
    ensures forall c :: c in parts[k] ==> c in Join(parts, sep)
    decreases |parts|
  {
    if |parts| > 1 {
      var init := parts[..|parts| - 1];
      if k < |parts| - 1 {
        JoinContainsPiece(init, sep, k);
        assert init[k] == parts[k];
      }
    }
  }

  /** A shard written by the crawler is read back as the language and the lower-cased
      category it was written for, whatever the output directory, provided neither
      contains "_" or ".". */
  lemma ShardPathRoundTrip(outDir: string, lang: string, category: string)
    requires '_' !in lang && '.' !in lang && '_' !in category && '.' !in category
    ensures ParseShardPath(ShardPath(outDir, lang, category)) == Some((lang, Lower(category)))
  {
    var low := Lower(category);
    LowerKeepsSeparators(category);
    var a := outDir + "/wikihow";
    var b := "_" + lang + "_" + low;
    var path := ShardPath(outDir, lang, category);
    assert path == (a + b) + ['.'] + "jsonl";
    var q := Split(a, '.');
    var stem := q[|q| - 1] + b;
    StemOfShard(path, a, b, stem);
    PiecesOfStem(stem, q[|q| - 1], lang, low, b);
    ParseFromPieces(path, stem);
  }

  /** What the parsing returns, once the piece before the extension is known. */
  lemma ParseFromPieces(path: string, stem: string)
    requires var d := Split(path, '.'); |d| >= 2 && d[|d| - 2] == stem
    requires |Split(stem, '_')| >= 2
    ensures var u := Split(stem, '_'); ParseShardPath(path) == Some((u[|u| - 2], u[|u| - 1]))
  {
  }

  /** Lower-casing neither adds nor removes the separators "_" and ".". */
  lemma LowerKeepsSeparators(s: string)
    requires '_' !in s && '.' !in s
    ensures '_' !in Lower(s) && '.' !in Lower(s)
  {
    forall i | 0 <= i < |s| ensures Lower(s)[i] != '_' && Lower(s)[i] != '.' {
      assert Lower(s)[i] == LowerChar(s[i]);
    }
  }

  /** The piece before the extension is what follows the last dot before the dot-free
      tail `b`. */
  lemma StemOfShard(path: string, a: string, b: string, stem: string)
    requires '.' !in b && path == (a + b) + ['.'] + "jsonl"
    requires var q := Split(a, '.'); stem == q[|q| - 1] + b
    ensures var d := Split(path, '.'); |d| >= 2 && d[|d| - 2] == stem
  {
    SplitAtLast(a + b, '.', "jsonl");
    SplitLastPiece(a, '.', b);
  }

  /** The last two "_"-pieces of `p_lang_low` are `lang` and `low`. */
  lemma PiecesOfStem(stem: string, p: string, lang: string, low: string, b: string)
    requires '_' !in lang && '_' !in low && b == "_" + lang + "_" + low && stem == p + b
    ensures var u := Split(stem, '_');
      |u| >= 2 && u[|u| - 2] == lang && u[|u| - 1] == low
  {
    assert stem == (p + "_" + lang) + ['_'] + low;
    SplitAtLast(p + "_" + lang, '_', low);
    assert p + "_" + lang == p + ['_'] + lang;
    SplitAtLast(p, '_', lang);
  }

  // ----- tagging and concatenation -----

  /** A row of a shard tagged with its file's language and category (merge_categories.py:32-33). */
  datatype Tagged = Tagged(language: string, category: string, record: Record)

  /** How the merge ends: the concatenated rows, no shard to concatenate (`pd.concat([])`
      raises), a file name the parsing cannot index, or shards that hold no row at all:
      `read_json` of an empty file has no columns, so the concatenation holds only the two
      tag columns and the column selection of merge_categories.py:37 raises `KeyError`. */
  datatype MergeOutcome = Merged(rows: seq<DatasetRow>) | NoShards | BadName(path: string) | NoColumns

  function TagAll(lang: string, category: string, records: seq<Record>): (r: seq<Tagged>)
    ensures |r| == |records|
    ensures forall j :: 0 <= j < |records| ==> r[j] == Tagged(lang, category, records[j])
  {
    seq(|records|, j requires 0 <= j < |records| => Tagged(lang, category, records[j]))
  }

  /** The number of rows of all shards together. */
  function TotalRows(files: seq<(string, seq<Record>)>): nat {
    if files == [] then 0 else TotalRows(files[..|files| - 1]) + |files[|files| - 1].1|
  }

  /** The tagged rows of all shards, in file order; None when a name does not parse. */
  function TaggedRows(files: seq<(string, seq<Record>)>): Option<seq<Tagged>> {
    if files == [] then Some([])
    else
      match (TaggedRows(files[..|files| - 1]), ParseShardPath(files[|files| - 1].0))
      case (Some(rows), Some(key)) => Some(rows + TagAll(key.0, key.1, files[|files| - 1].1))
      case _ => None
  }

  /** Every shard's file name parses. */
  ghost predicate AllNamesParse(files: seq<(string, seq<Record>)>) {
    forall i :: 0 <= i < |files| ==> ParseShardPath(files[i].0).Some?
  }

  /** When every name parses the merge succeeds, with as many rows as the shards hold
      together. */
  lemma {:induction false} TaggedRowsLength(files: seq<(string, seq<Record>)>)
    requires AllNamesParse(files)
    ensures TaggedRows(files).Some? && |TaggedRows(files).value| == TotalRows(files)
    decreases |files|
  {
    if files != [] {
      var init := files[..|files| - 1];
      assert AllNamesParse(init) by {
        forall i | 0 <= i < |init| ensures ParseShardPath(init[i].0).Some? {
          assert init[i] == files[i];
        }
      }
      assert ParseShardPath(files[|files| - 1].0).Some?;
      TaggedRowsLength(init);
    }
  }

  /** Row `j` of shard `i` sits after the rows of the shards before it, tagged with its own
      file's language and category. */
  lemma {:induction false} TaggedRowsAt(files: seq<(string, seq<Record>)>, i: nat, j: nat)
    requires AllNamesParse(files) && i < |files| && j < |files[i].1|
    ensures TaggedRows(files).Some? && TotalRows(files[..i]) + j < |TaggedRows(files).value|
    ensures var key := ParseShardPath(files[i].0).value;
      TaggedRows(files).value[TotalRows(files[..i]) + j] == Tagged(key.0, key.1, files[i].1[j])
    decreases |files|
  {
    TaggedRowsLength(files);
    var init := files[..|files| - 1];
    assert AllNamesParse(init) by {
      forall k | 0 <= k < |init| ensures ParseShardPath(init[k].0).Some? {
        assert init[k] == files[k];
      }
    }
    TaggedRowsLength(init);
    var rows := TaggedRows(init).value;
    var key := ParseShardPath(files[|files| - 1].0).value;
    assert TaggedRows(files).value == rows + TagAll(key.0, key.1, files[|files| - 1].1);
    if i == |files| - 1 {
      assert files[..i] == init;
    } else {
      TaggedRowsAt(init, i, j);
      assert files[..i] == init[..i] && init[i] == files[i];
    }
  }

  /** A reference count with the missing ones filled with 0 (merge_categories.py:45-46). */
  function FilledNumRefs(refs: Option<int>): int {
    if refs.Some? then refs.value else 0
  }

  /** A tagged row in the merged file's columns, its reference count filled. */
  function ToRow(t: Tagged): DatasetRow {
    var r := t.record;
    DatasetRow(t.language, t.category, r.url, r.title, r.intro, r.methods, r.numMethods, r.isSteps,
      r.expertAuthor, FilledNumRefs(r.numRefs))
  }

  /** The script body: reads each shard (given here as its path and rows), tags its rows,
      concatenates them and fills the missing reference counts. */
  method MergeShards(files: seq<(string, seq<Record>)>) returns (out: MergeOutcome)
    ensures out.NoShards? <==> files == []
    ensures out.Merged? <==> files != [] && AllNamesParse(files) && TotalRows(files) > 0
    ensures out.NoColumns? <==> files != [] && AllNamesParse(files) && TotalRows(files) == 0
    ensures out.BadName? <==> !AllNamesParse(files)
    ensures out.BadName? <==> files != [] && TaggedRows(files).None?
    ensures out.BadName? ==>
      exists i :: 0 <= i < |files| && files[i].0 == out.path && ParseShardPath(out.path).None?
    ensures out.Merged? ==> AllNamesParse(files) && TaggedRows(files).Some?
    ensures out.Merged? ==> |out.rows| == TotalRows(files) && |out.rows| == |TaggedRows(files).value|
    ensures out.Merged? ==>
      forall k :: 0 <= k < |out.rows| ==> out.rows[k] == ToRow(TaggedRows(files).value[k])
  {
    var tagged: seq<Tagged> := [];
    for i := 0 to |files|
      invariant TaggedRows(files[..i]) == Some(tagged)
    {
      var key := ParseShardPath(files[i].0);
      if key.None? {
        assert files[..i + 1][..i] == files[..i];
        BadNameStays(files, i + 1);
        TaggedRowsFails(files);
        return BadName(files[i].0);
      }
      var category := key.value.1;
      var language := key.value.0;
      var rows := TagAll(language, category, files[i].1);
      assert files[..i + 1][..i] == files[..i];
      tagged := tagged + rows;
    }
    assert files[..|files|] == files;
    if files == [] {
      return NoShards;
    }
    forall i | 0 <= i < |files| ensures ParseShardPath(files[i].0).Some? {
      if ParseShardPath(files[i].0).None? {
        BadNameAt(files, i);
      }
    }
    TaggedRowsLength(files);
    if |tagged| == 0 {
      return NoColumns;
    }
    var merged: seq<DatasetRow> := [];
    for k := 0 to |tagged|
      invariant |merged| == k
      invariant forall l :: 0 <= l < k ==> merged[l] == ToRow(tagged[l])
    {
      merged := merged + [ToRow(tagged[k])];
    }
    return Merged(merged);
  }

  /** The concatenation fails exactly when some file name does not parse. */
  lemma TaggedRowsFails(files: seq<(string, seq<Record>)>)
    ensures TaggedRows(files).None? <==> !AllNamesParse(files)
  {
    if AllNamesParse(files) {
      TaggedRowsLength(files);
    } else {
      var i :| 0 <= i < |files| && ParseShardPath(files[i].0).None?;
      BadNameAt(files, i);
    }
  }

  /** A file name that does not parse makes the whole merge fail. */
  lemma BadNameAt(files: seq<(string, seq<Record>)>, i: nat)
    requires i < |files| && ParseShardPath(files[i].0).None?
    ensures TaggedRows(files).None?
  {
    assert files[..i + 1][..i] == files[..i];
    BadNameStays(files, i + 1);
  }

  /** Once a file name fails to parse, the whole merge fails. */
  lemma {:induction false} BadNameStays(files: seq<(string, seq<Record>)>, n: nat)
    requires 0 < n <= |files| && TaggedRows(files[..n]).None?
    ensures TaggedRows(files).None?
    decreases |files| - n
  {
    if n < |files| {
      assert files[..n + 1][..n] == files[..n];
      BadNameStays(files, n + 1);
    } else {
      assert files[..n] == files;
    }
  }

  /** Shards the crawler wrote for Spanish merge without error, with as many rows as the
      shards hold, and row `j` of shard `i` is there, after the rows of the shards before
      it, tagged "es" and with the lower-cased category its shard was written for. */
  lemma MergeOfCrawlerShards(outDir: string, categories: seq<string>, shards: seq<seq<Record>>,
                             files: seq<(string, seq<Record>)>, i: nat, j: nat)
    requires |categories| == |shards| == |files|
    requires forall k :: 0 <= k < |files| ==> files[k] == (ShardPath(outDir, "es", categories[k]), shards[k])
    requires forall k :: 0 <= k < |categories| ==> '_' !in categories[k] && '.' !in categories[k]
    requires i < |files| && j < |shards[i]|
    ensures TaggedRows(files).Some? && |TaggedRows(files).value| == TotalRows(files)
    ensures TotalRows(files[..i]) + j < TotalRows(files)
    ensures TaggedRows(files).value[TotalRows(files[..i]) + j] == Tagged("es", Lower(categories[i]), shards[i][j])
  {
    assert AllNamesParse(files) by {
      forall k | 0 <= k < |files| ensures ParseShardPath(files[k].0).Some? {
        ShardPathRoundTrip(outDir, "es", categories[k]);
      }
    }
    TaggedRowsLength(files);
    ShardPathRoundTrip(outDir, "es", categories[i]);
    TaggedRowsAt(files, i, j);
  }
}
