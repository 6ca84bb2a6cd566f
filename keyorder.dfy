/** The order in which pandas' `groupby(["lang", "category"])` hands out its groups
    (main.py:160): the distinct (language, category) keys sorted as Python compares
    tuples of strings, code point by code point. */
module KeyOrder {

  /** Python's `a < b` on strings. */
  predicate StrLt(a: string, b: string)
    decreases |a|
  {
    if a == [] then b != []
    else if b == [] then false
    else if a[0] != b[0] then a[0] < b[0]
    else StrLt(a[1..], b[1..])
  }

  lemma {:induction false} StrLtIrreflexive(a: string)
    ensures !StrLt(a, a)
    decreases |a|
  {
    if a != [] { StrLtIrreflexive(a[1..]); }
  }

  lemma {:induction false} StrLtTransitive(a: string, b: string, c: string)
    requires StrLt(a, b) && StrLt(b, c)
    ensures StrLt(a, c)
    decreases |a|
  {
    if a != [] && b != [] && c != [] && a[0] == b[0] == c[0] {
      StrLtTransitive(a[1..], b[1..], c[1..]);
    }
  }

  lemma {:induction false} StrLtTotal(a: string, b: string)
    requires a != b
    ensures StrLt(a, b) || StrLt(b, a)
    decreases |a|
  {
    if a != [] && b != [] && a[0] == b[0] {
      assert a == [a[0]] + a[1..] && b == [b[0]] + b[1..];
      StrLtTotal(a[1..], b[1..]);
    }
  }

  /** A group key: (language, category). */
  type Key = (string, string)

  /** Python's `<` on pairs of strings. */
  predicate KeyLt(x: Key, y: Key) {
    StrLt(x.0, y.0) || (x.0 == y.0 && StrLt(x.1, y.1))
  }

  lemma KeyLtIrreflexive(x: Key)
    ensures !KeyLt(x, x)
  {
    StrLtIrreflexive(x.0);
    StrLtIrreflexive(x.1);
  }

  lemma KeyLtTransitive(x: Key, y: Key, z: Key)
    requires KeyLt(x, y) && KeyLt(y, z)
    ensures KeyLt(x, z)
  {
    if StrLt(x.0, y.0) && StrLt(y.0, z.0) { StrLtTransitive(x.0, y.0, z.0); }
    if x.0 == y.0 == z.0 && StrLt(x.1, y.1) && StrLt(y.1, z.1) { StrLtTransitive(x.1, y.1, z.1); }
  }

  lemma KeyLtTotal(x: Key, y: Key)
    requires x != y
    ensures KeyLt(x, y) || KeyLt(y, x)
  {
    if x.0 != y.0 { StrLtTotal(x.0, y.0); } else { StrLtTotal(x.1, y.1); }
  }

  /** Every key comes strictly before the ones after it, so no key repeats. */
  ghost predicate StrictlySorted(ks: seq<Key>) {
    forall i, j :: 0 <= i < j < |ks| ==> KeyLt(ks[i], ks[j])
  }

  /** Puts `k` in its place in a strictly sorted sequence, unless it is already there. */
  function Insert(k: Key, ks: seq<Key>): (r: seq<Key>)
    requires StrictlySorted(ks)
    ensures StrictlySorted(r)
    ensures forall x :: x in r <==> x == k || x in ks
  {
    if ks == [] then [k]
    else if k == ks[0] then ks
    else if KeyLt(k, ks[0]) then
      assert forall j :: 0 <= j < |ks| ==> KeyLt(k, ks[j]) by {
        forall j | 0 <= j < |ks| ensures KeyLt(k, ks[j]) {
          if j > 0 { KeyLtTransitive(k, ks[0], ks[j]); }
        }
      }
      [k] + ks
    else
      KeyLtTotal(k, ks[0]);
      var rest := Insert(k, ks[1..]);
      assert forall x :: x in rest ==> KeyLt(ks[0], x) by {
        forall x | x in rest ensures KeyLt(ks[0], x) {
          if x != k {
            var j :| 0 <= j < |ks[1..]| && ks[1..][j] == x;
            assert ks[j + 1] == x;
          }
        }
      }
      [ks[0]] + rest
  }

  /** The distinct keys among `keys`, in ascending order: the order of the groups. */
  function SortedKeys(keys: seq<Key>): (r: seq<Key>)
    ensures StrictlySorted(r)
    ensures forall x :: x in r <==> x in keys
  {
    if keys == [] then []
    else
      var rest := SortedKeys(keys[..|keys| - 1]);
      assert forall x :: x in keys <==> x == keys[|keys| - 1] || x in keys[..|keys| - 1] by {
        assert keys == keys[..|keys| - 1] + [keys[|keys| - 1]];
      }
      Insert(keys[|keys| - 1], rest)
  }
}
