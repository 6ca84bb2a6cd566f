/** Small shared vocabulary: an optional value and the "kept in order" relation
    between two sequences. */
module Common {

  datatype Option<+T> = None | Some(value: T)

  /** `sub` can be obtained from `s` by deleting elements, the rest kept in order. */
  ghost predicate IsSubsequence<T>(sub: seq<T>, s: seq<T>)
    decreases |s|
  {
    if sub == [] then true
    else if s == [] then false
    else if sub[|sub| - 1] == s[|s| - 1] then IsSubsequence(sub[..|sub| - 1], s[..|s| - 1])
    else IsSubsequence(sub, s[..|s| - 1])
  }

  /** Appending one element to the base keeps a subsequence a subsequence. */
  lemma {:induction false} SubsequenceExtend<T>(sub: seq<T>, s: seq<T>, x: T)
    requires IsSubsequence(sub, s)
    ensures IsSubsequence(sub, s + [x])
    decreases |s|, 1
  {
    if sub != [] {
      assert (s + [x])[..|s|] == s;
      if sub[|sub| - 1] == x {
        // Dropping the match from both sides must still leave a subsequence.
        SubsequencePrefix(sub, s);
      }
    }
  }

  /** Dropping the last element of a subsequence keeps it a subsequence. */
  lemma {:induction false} SubsequencePrefix<T>(sub: seq<T>, s: seq<T>)
    requires sub != [] && IsSubsequence(sub, s)
    ensures IsSubsequence(sub[..|sub| - 1], s)
    decreases |s|, 0
  {
    assert s != [];
    var init := s[..|s| - 1];
    if sub[|sub| - 1] == s[|s| - 1] {
      if sub[..|sub| - 1] != [] {
        SubsequenceExtend(sub[..|sub| - 1], init, s[|s| - 1]);
        assert init + [s[|s| - 1]] == s;
      }
    } else {
      SubsequencePrefix(sub, init);
      if sub[..|sub| - 1] != [] {
        SubsequenceExtend(sub[..|sub| - 1], init, s[|s| - 1]);
        assert init + [s[|s| - 1]] == s;
      }
    }
  }

  /** Every element of a subsequence is an element of the sequence. */
  lemma {:induction false} SubsequenceElements<T>(sub: seq<T>, s: seq<T>)
    requires IsSubsequence(sub, s)
    ensures forall x :: x in sub ==> x in s
    decreases |s|
  {
    if sub != [] {
      var init := s[..|s| - 1];
      if sub[|sub| - 1] == s[|s| - 1] {
        SubsequenceElements(sub[..|sub| - 1], init);
        assert sub == sub[..|sub| - 1] + [s[|s| - 1]];
      } else {
        SubsequenceElements(sub, init);
      }
    }
  }
}
