/** The dataset loader of dataloader_example.py: `format_methods`, which renders the
    methods of an article as answer texts (dataloader_example.py:36-50), and
    `_generate_examples`, which turns the lines of the merged file into examples for one
    configuration (dataloader_example.py:99-114). */
module Dataset {
  import opened Text
  import opened ArticleRecord

  /** One line of the merged file `wikihow_es.jsonl`. */
  datatype DatasetRow = DatasetRow(
    language: string, category: string, url: string, title: string, intro: string, methods: seq<Method>,
    numMethods: int, isSteps: bool, expertAuthor: bool, numRefs: int)

  /** One example of the dataset. */
  datatype Example = Example(
    category: string, question: string, introduction: string, answers: seq<string>, shortAnswers: seq<string>,
    url: string, numAnswers: int, numRefs: int, expertAuthor: bool)

  /** The separator after the header and after each step. */
  function Eol(short: bool): string {
    if short then "\n" else "\n\n"
  }

  /** The method header without its separator; a method titled "pasos" in any case gets
      the generic one. */
  function HeaderText(m: Method): string {
    if Lower(m.title) != "pasos" then "Método " + IntToString(m.number) + ": " + m.title
    else "Sigue los siguientes pasos:"
  }

  /** `re.sub(r"\n+", "\n", step).strip()`. */
  function CleanStep(step: string): string {
    Strip(CollapseNewlines(step))
  }

  /** A cleaned step has no whitespace at either end and no blank line. */
  lemma CleanStepShape(step: string)
    ensures IsStripped(CleanStep(step)) && NoBlankLines(CleanStep(step))
  {
    StripKeepsNoBlankLines(CollapseNewlines(step));
  }

  /** What a step contributes: its cleaned text, or only the first line of it in short
      mode. */
  function StepLine(step: string, short: bool): string {
    if short then FirstLine(CleanStep(step)) else CleanStep(step)
  }

  /** A step contributes the start of its cleaned text: all of it in long mode, and a
      single line in short mode. */
  lemma StepLineShape(step: string, short: bool)
    ensures StepLine(step, short) <= CleanStep(step)
    ensures !short ==> StepLine(step, short) == CleanStep(step)
    ensures short ==> '\n' !in StepLine(step, short)
  {
  }

  /** The steps' contributions, each followed by the separator. */
  function Body(steps: seq<string>, short: bool): string {
    if steps == [] then []
    else Body(steps[..|steps| - 1], short) + StepLine(steps[|steps| - 1], short) + Eol(short)
  }

  /** The answer text of one method: header, separator and body, stripped. */
  function FormatMethod(m: Method, short: bool): (r: string)
    ensures IsStripped(r)
  {
    Strip(HeaderText(m) + Eol(short) + Body(m.steps, short))
  }

  /** `format_methods(methods, short)`: one answer per method, in order. */
  function Formatted(methods: seq<Method>, short: bool): seq<string> {
    seq(|methods|, i requires 0 <= i < |methods| => FormatMethod(methods[i], short))
  }

  /** Answers that agree with `FormatMethod` one by one are `Formatted`. */
  lemma FormattedPointwise(methods: seq<Method>, short: bool, answers: seq<string>)
    requires |answers| == |methods|
    requires forall i :: 0 <= i < |methods| ==> answers[i] == FormatMethod(methods[i], short)
    ensures answers == Formatted(methods, short)
  {
  }

  /** `format_methods` as written: each answer is built by appending to a string. */
  method FormatMethods(methods: seq<Method>, short: bool) returns (formatted: seq<string>)
    ensures |formatted| == |methods|
    ensures forall i :: 0 <= i < |methods| ==> formatted[i] == FormatMethod(methods[i], short)
    ensures formatted == Formatted(methods, short)
  {
    formatted := [];
    for i := 0 to |methods|
      invariant |formatted| == i
      invariant forall k :: 0 <= k < i ==> formatted[k] == FormatMethod(methods[k], short)
    {
      var answer := FormatAnswer(methods[i], short);
      formatted := formatted + [answer];
    }
    FormattedPointwise(methods, short, formatted);
  }

  /** The body of the outer loop of `format_methods`: the header, then each step's
      contribution followed by the separator, stripped at the end. */
  method FormatAnswer(m: Method, short: bool) returns (answer: string)
    ensures answer == FormatMethod(m, short)
  {
    var eol := if short then "\n" else "\n\n";
    var content: string;
    if Lower(m.title) != "pasos" {
      content := "Método " + IntToString(m.number) + ": " + m.title + eol;
    } else {
      content := "Sigue los siguientes pasos:" + eol;
    }
    ghost var head := HeaderText(m) + Eol(short);
    assert content == head + Body(m.steps[..0], short);
    for j := 0 to |m.steps|
      invariant content == head + Body(m.steps[..j], short)
    {
      var stepContent := Strip(CollapseNewlines(m.steps[j]));
      if short {
        stepContent := FirstLine(stepContent);
      }
      assert m.steps[..j + 1][..j] == m.steps[..j];
      AppendAssoc(head, Body(m.steps[..j], short), stepContent, eol);
      content := content + stepContent + eol;
    }
    assert m.steps[..|m.steps|] == m.steps;
    answer := Strip(content);
  }

  lemma AppendAssoc(a: string, b: string, c: string, d: string)
    ensures a + b + c + d == a + (b + c + d)
  {
  }

  /** `sep.join(parts)` for a separator string. */
  function JoinWith(parts: seq<string>, sep: string): string
    requires parts != []
  {
    if |parts| == 1 then parts[0] else JoinWith(parts[..|parts| - 1], sep) + sep + parts[|parts| - 1]
  }

  /** What the steps contribute, one after another. */
  function StepLines(steps: seq<string>, short: bool): (lines: seq<string>) {
    seq(|steps|, i requires 0 <= i < |steps| => StepLine(steps[i], short))
  }

  /** The body is the steps' lines joined by the separator, plus one separator: one line
      per step in short mode, one paragraph per step otherwise. */
  lemma {:induction false} BodyIsJoin(steps: seq<string>, short: bool)
    requires steps != []
    ensures Body(steps, short) == JoinWith(StepLines(steps, short), Eol(short)) + Eol(short)
  {
    var n := |steps| - 1;
    var lines := StepLines(steps, short);
    if n == 0 {
      assert steps[..n] == [];
    } else {
      BodyIsJoin(steps[..n], short);
      assert lines[..n] == StepLines(steps[..n], short);
    }
  }

  /** Every answer starts with its header: "Método {n}: {title}" for an ordinary method
      whose title ends in a non-space, at least "Método {n}:" for any ordinary method (a
      title ending in whitespace can lose that whitespace to `strip` when no step text
      follows), and "Sigue los siguientes pasos:" for one titled "pasos" in any case. */
  lemma AnswerHeader(m: Method, short: bool)
    ensures Lower(m.title) != "pasos" ==> "Método " + IntToString(m.number) + ":" <= FormatMethod(m, short)
    ensures Lower(m.title) != "pasos" && m.title != [] && !IsSpace(m.title[|m.title| - 1]) ==>
      "Método " + IntToString(m.number) + ": " + m.title <= FormatMethod(m, short)
    ensures Lower(m.title) == "pasos" ==> "Sigue los siguientes pasos:" <= FormatMethod(m, short)
  {
    var rest := Eol(short) + Body(m.steps, short);
    HeaderSurvives(m, rest);
    assert HeaderText(m) + Eol(short) + Body(m.steps, short) == HeaderText(m) + rest;
    if Lower(m.title) != "pasos" && m.title != [] && !IsSpace(m.title[|m.title| - 1]) {
      TitledHeaderSurvives(m, rest);
    }
  }

  lemma TitledHeaderSurvives(m: Method, rest: string)
    requires Lower(m.title) != "pasos" && m.title != [] && !IsSpace(m.title[|m.title| - 1])
    ensures HeaderText(m) <= Strip(HeaderText(m) + rest)
  {
    var h := HeaderText(m);
    assert h[0] == 'M';
    assert h[|h| - 1] == m.title[|m.title| - 1];
    StripKeepsPrefix(h, h + rest);
  }

  lemma HeaderSurvives(m: Method, rest: string)
    ensures Lower(m.title) != "pasos" ==> "Método " + IntToString(m.number) + ":" <= Strip(HeaderText(m) + rest)
    ensures Lower(m.title) == "pasos" ==> "Sigue los siguientes pasos:" <= Strip(HeaderText(m) + rest)
  {
    var p := if Lower(m.title) != "pasos" then "Método " + IntToString(m.number) + ":" else "Sigue los siguientes pasos:";
    var s := HeaderText(m) + rest;
    assert p <= s by {
      if Lower(m.title) != "pasos" {
        assert s == p + (" " + m.title + rest);
      }
    }
    StripKeepsPrefix(p, s);
  }

  /** When the last step contributes text ending in a non-space, nothing but the final
      separator is stripped: the answer is the header, the separator, and the step lines
      joined by the separator. */
  lemma AnswerIsJoin(m: Method, short: bool)
    requires var lines := StepLines(m.steps, short);
      lines != [] && lines[|lines| - 1] != [] && !IsSpace(lines[|lines| - 1][|lines[|lines| - 1]| - 1])
    ensures FormatMethod(m, short) == HeaderText(m) + Eol(short) + JoinWith(StepLines(m.steps, short), Eol(short))
  {
    var lines := StepLines(m.steps, short);
    var sep := Eol(short);
    BodyIsJoin(m.steps, short);
    EolIsSpace(short);
    HeaderJoinedStripped(m, lines, sep);
  }

  lemma EolIsSpace(short: bool)
    ensures AllSpaces(Eol(short))
  {
  }

  lemma HeaderJoinedStripped(m: Method, lines: seq<string>, sep: string)
    requires lines != [] && lines[|lines| - 1] != [] && !IsSpace(lines[|lines| - 1][|lines[|lines| - 1]| - 1])
    requires AllSpaces(sep)
    ensures Strip(HeaderText(m) + sep + (JoinWith(lines, sep) + sep)) == HeaderText(m) + sep + JoinWith(lines, sep)
  {
    HeaderStart(m, sep);
    StripJoined(HeaderText(m) + sep, lines, sep);
  }

  lemma HeaderStart(m: Method, sep: string)
    ensures HeaderText(m) + sep != [] && !IsSpace((HeaderText(m) + sep)[0])
  {
  }

  lemma StripJoined(head: string, lines: seq<string>, sep: string)
    requires head != [] && !IsSpace(head[0])
    requires lines != [] && lines[|lines| - 1] != [] && !IsSpace(lines[|lines| - 1][|lines[|lines| - 1]| - 1])
    requires AllSpaces(sep)
    ensures Strip(head + (JoinWith(lines, sep) + sep)) == head + JoinWith(lines, sep)
  {
    JoinEndsWithLast(lines, sep);
    StripAround(head, JoinWith(lines, sep), sep);
  }

  lemma JoinEndsWithLast(lines: seq<string>, sep: string)
    requires lines != [] && lines[|lines| - 1] != []
    ensures var j := JoinWith(lines, sep); var last := lines[|lines| - 1];
      j != [] && j[|j| - 1] == last[|last| - 1]
  {
  }

  /** A single line with no whitespace at either end. */
  predicate PlainLine(s: string) {
    s != [] && '\n' !in s && IsStripped(s)
  }

  /** The short answer of a method titled "pasos" in any case is the generic header
      followed by the first line of each cleaned step: with steps "1. X\n\nfoo\n" and
      "2. Y\nbar" (a = "1. X", b = "foo", c = "2. Y", d = "bar") it is
      "Sigue los siguientes pasos:\n1. X\n2. Y". */
  lemma ShortAnswerExample(m: Method, a: string, b: string, c: string, d: string)
    requires Lower(m.title) == "pasos"
    requires m.steps == [a + "\n\n" + b + "\n", c + "\n" + d]
    requires PlainLine(a) && PlainLine(b) && PlainLine(c) && PlainLine(d)
    ensures FormatMethod(m, true) == "Sigue los siguientes pasos:" + "\n" + (a + "\n" + c)
  {
    ExampleStepLines(m.steps, a, b, c, d);
    AnswerIsJoin(m, true);
    ExampleJoin(StepLines(m.steps, true), a, c);
  }

  lemma ExampleStepLines(steps: seq<string>, a: string, b: string, c: string, d: string)
    requires steps == [a + "\n\n" + b + "\n", c + "\n" + d]
    requires PlainLine(a) && PlainLine(b) && PlainLine(c) && PlainLine(d)
    ensures StepLines(steps, true) == [a, c]
  {
    FirstStepLine(a, b);
    SecondStepLine(c, d);
  }

  lemma ExampleJoin(lines: seq<string>, a: string, c: string)
    requires lines == [a, c]
    ensures JoinWith(lines, "\n") == a + "\n" + c
  {
    assert lines[..1] == [a];
  }

  /** A step whose first line is followed by a blank line: the blank line collapses and
      only the first line is kept. */
  lemma FirstStepLine(a: string, b: string)
    requires PlainLine(a) && PlainLine(b)
    ensures StepLine(a + "\n\n" + b + "\n", true) == a
  {
    FirstStepCollapse(a, b);
    StripAround(a, "\n" + b, "\n");
    FirstLineUpTo(a, "\n" + b);
  }

  lemma FirstStepCollapse(a: string, b: string)
    requires PlainLine(a) && PlainLine(b)
    ensures CollapseNewlines(a + "\n\n" + b + "\n") == a + (("\n" + b) + "\n")
  {
    var rest := b + "\n";
    BlankLineCollapse(b, rest);
    CollapseKeepsLine(a, "\n\n" + rest);
    assert a + "\n\n" + b + "\n" == a + ("\n\n" + rest);
  }

  /** A blank line before a line collapses into one newline. */
  lemma BlankLineCollapse(b: string, rest: string)
    requires PlainLine(b) && rest == b + "\n"
    ensures CollapseNewlines("\n\n" + rest) == "\n" + rest
  {
    var tail := "\n\n" + rest;
    CollapseRun(tail, 2);
    assert tail[2..] == rest;
    NewlineCollapse(b);
  }

  /** A line and its newline collapse to themselves. */
  lemma NewlineCollapse(b: string)
    requires '\n' !in b
    ensures CollapseNewlines(b + "\n") == b + "\n"
  {
    CollapseKeepsLine(b, "\n");
    CollapseRun("\n", 1);
    assert "\n"[1..] == [];
  }

  /** A two-line step keeps its first line. */
  lemma SecondStepLine(c: string, d: string)
    requires PlainLine(c) && PlainLine(d)
    ensures StepLine(c + "\n" + d, true) == c
  {
    SecondStepCollapse(c, d);
    SecondStepStrip(c, d);
    FirstLineUpTo(c, "\n" + d);
  }

  lemma SecondStepCollapse(c: string, d: string)
    requires PlainLine(c) && PlainLine(d)
    ensures CollapseNewlines(c + "\n" + d) == c + ("\n" + d)
  {
    assert c + "\n" + d == c + ("\n" + d);
    CollapseKeepsLine(c, "\n" + d);
    CollapseRun("\n" + d, 1);
    assert ("\n" + d)[1..] == d;
    CollapseKeepsLine(d, []);
    assert d + [] == d;
  }

  lemma SecondStepStrip(c: string, d: string)
    requires PlainLine(c) && PlainLine(d)
    ensures Strip(c + ("\n" + d)) == c + ("\n" + d)
  {
    StripAround(c, "\n" + d, []);
    assert ("\n" + d) + [] == "\n" + d;
  }

  // ----- examples -----

  /** `self.config.name in ["all", data["category"].lower()]`. */
  predicate Selected(config: string, row: DatasetRow) {
    config == "all" || config == Lower(row.category)
  }

  /** The example of one line. */
  function ToExample(row: DatasetRow): (ex: Example)
    ensures |ex.answers| == |row.methods| && |ex.shortAnswers| == |row.methods|
    ensures ex.numAnswers == row.numMethods
  {
    Example(row.category, "¿" + row.title + "?", row.intro, Formatted(row.methods, false), Formatted(row.methods, true),
            row.url, row.numMethods, row.numRefs, row.expertAuthor)
  }

  /** The question wraps the title in Spanish question marks, and the title can be read
      back from it. */
  lemma QuestionWrapsTitle(row: DatasetRow)
    ensures var q := ToExample(row).question;
      |q| == |row.title| + 2 && q[0] == '¿' && q[|q| - 1] == '?' && q[1..|q| - 1] == row.title
  {
  }

  /** `_generate_examples`: the examples of the lines selected by `config`, keyed by their
      line number. */
  function GenerateExamples(rows: seq<DatasetRow>, config: string): (r: seq<(int, Example)>)
    ensures forall k :: 0 <= k < |r| ==>
      0 <= r[k].0 < |rows| && Selected(config, rows[r[k].0]) && r[k].1 == ToExample(rows[r[k].0])
    ensures forall k, l :: 0 <= k < l < |r| ==> r[k].0 < r[l].0
    ensures forall i :: 0 <= i < |rows| && Selected(config, rows[i]) ==> (i, ToExample(rows[i])) in r
  {
    if rows == [] then []
    else
      var n := |rows| - 1;
      var init := GenerateExamples(rows[..n], config);
      assert forall i :: 0 <= i < n ==> rows[..n][i] == rows[i];
      if Selected(config, rows[n]) then init + [(n, ToExample(rows[n]))] else init
  }

  /** The "all" configuration keeps every line, in order, keyed by its line number. */
  lemma {:induction false} AllKeepsEveryLine(rows: seq<DatasetRow>)
    ensures var r := GenerateExamples(rows, "all");
      |r| == |rows| && forall k :: 0 <= k < |rows| ==> r[k] == (k, ToExample(rows[k]))
  {
    if rows != [] {
      var n := |rows| - 1;
      AllKeepsEveryLine(rows[..n]);
    }
  }
}
