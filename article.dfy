/** `process_article` (main.py:112-144, repeated verbatim in main_old.py:90-122): turns
    the article returned by the unofficial WikiHow API into the record stored in a shard. */
module ArticleRecord {
  import opened Common
  import opened Text

  /** One numbered instruction, as the article API returns it. */
  datatype ApiStep = ApiStep(number: int, title: string, description: string)

  /** One method of an article, as the article API returns it. */
  datatype ApiMethod = ApiMethod(number: int, title: string, steps: seq<ApiStep>)

  /** The fields of the API's article that `process_article` reads. `nMethods` is the
      API's own count and `references` may be missing. */
  datatype ApiArticle = ApiArticle(
    url: string, title: string, intro: string, methods: seq<ApiMethod>,
    nMethods: int, isExpert: bool, references: Option<int>)

  /** A method of a stored record: its steps are already rendered as text. */
  datatype Method = Method(number: int, title: string, steps: seq<string>)

  /** One line of a shard file. */
  datatype Record = Record(
    url: string, title: string, intro: string, methods: seq<Method>,
    numMethods: int, isSteps: bool, expertAuthor: bool, numRefs: Option<int>)

  /** The one method title that marks an article as a plain list of steps. */
  const StepsTitle: string := "Pasos"

  /** A step rendered as `"{number}. {title}\n{description}"`. */
  function StepText(s: ApiStep): string {
    IntToString(s.number) + ". " + s.title + "\n" + s.description
  }

  function ConvertMethod(m: ApiMethod): Method {
    Method(m.number, m.title, seq(|m.steps|, j requires 0 <= j < |m.steps| => StepText(m.steps[j])))
  }

  /** The record `process_article` builds, as a value. */
  function Process(a: ApiArticle): Record {
    var methods := seq(|a.methods|, i requires 0 <= i < |a.methods| => ConvertMethod(a.methods[i]));
    Record(a.url, a.title, a.intro, methods, a.nMethods,
           |methods| == 1 && methods[0].title == StepsTitle, a.isExpert, a.references)
  }

  /** `process_article` once the API call has returned: one method per API method, in
      order, each step rendered by `StepText`; `is_steps` exactly for a single method
      titled "Pasos"; the remaining fields copied, `num_methods` from the API's count. */
  method ProcessArticle(a: ApiArticle) returns (r: Record)
    ensures |r.methods| == |a.methods|
    ensures forall i :: 0 <= i < |a.methods| ==>
      && r.methods[i].number == a.methods[i].number
      && r.methods[i].title == a.methods[i].title
      && |r.methods[i].steps| == |a.methods[i].steps|
      && forall j :: 0 <= j < |a.methods[i].steps| ==> r.methods[i].steps[j] == StepText(a.methods[i].steps[j])
    ensures r.isSteps <==> |a.methods| == 1 && a.methods[0].title == StepsTitle
    ensures r.url == a.url && r.title == a.title && r.intro == a.intro
    ensures r.numMethods == a.nMethods && r.expertAuthor == a.isExpert && r.numRefs == a.references
    ensures r == Process(a)
  {
    var methods: seq<Method> := [];
    for i := 0 to |a.methods|
      invariant |methods| == i
      invariant forall k :: 0 <= k < i ==> methods[k] == ConvertMethod(a.methods[k])
    {
      var m := a.methods[i];
      var steps: seq<string> := [];
      for j := 0 to |m.steps|
        invariant |steps| == j
        invariant forall k :: 0 <= k < j ==> steps[k] == StepText(m.steps[k])
      {
        steps := steps + [StepText(m.steps[j])];
      }
      methods := methods + [Method(m.number, m.title, steps)];
    }
    var isSteps := |methods| == 1 && methods[0].title == StepsTitle;
    r := Record(a.url, a.title, a.intro, methods, a.nMethods, isSteps, a.isExpert, a.references);
  }

  /** The first line of a rendered step is its number and title, as long as the title
      itself has no line break. */
  lemma StepTextFirstLine(s: ApiStep)
    requires '\n' !in s.title
    ensures FirstLine(StepText(s)) == IntToString(s.number) + ". " + s.title
  {
    var head := IntToString(s.number) + ". " + s.title;
    assert '\n' !in head by {
      forall i | 0 <= i < |head| ensures head[i] != '\n' {
        var n := IntToString(s.number);
        if i < |n| {
          assert head[i] == n[i];
          DigitsAreNotNewlines(s.number, i);
        } else if i >= |n| + 2 {
          assert head[i] == s.title[i - |n| - 2];
        }
      }
    }
    FirstLineAt(head, s.description);
  }

  lemma DigitsAreNotNewlines(n: int, i: nat)
    requires i < |IntToString(n)|
    ensures IntToString(n)[i] != '\n'
  {
    if n < 0 {
      if i > 0 {
        assert IntToString(n)[i] == NatToString(-n)[i - 1];
      }
    }
  }

  lemma {:induction false} FirstLineAt(head: string, rest: string)
    requires '\n' !in head
    ensures FirstLine(head + "\n" + rest) == head
  {
    if head != [] {
      assert (head + "\n" + rest)[1..] == head[1..] + "\n" + rest;
      FirstLineAt(head[1..], rest);
    }
  }

  /** `num_methods` is the API's own count, not the length of `methods`: the two can
      disagree. */
  lemma NumMethodsMayDisagree()
    ensures var r := Process(ApiArticle("u", "t", "i", [], 1, false, None));
      r.numMethods != |r.methods|
  {
  }
}
