/** The few Python string operations the crawler and its dataset scripts rely on:
    `str.isspace`, `str.lower`, `str.strip`, `re.sub(r"\n+", "\n", s)`,
    `s.split(sep)`, `str.replace` of one character and `str(int)`. */
module Text {

  /** Python's `str.isspace` on one character: the ASCII controls TAB to CR and FS to US,
      the space, NEL, NBSP, OGHAM SPACE MARK, EN QUAD to HAIR SPACE, the line and paragraph
      separators, NNBSP, MMSP and the ideographic space. */
  predicate IsSpace(c: char) {
    c == ' ' || ('\t' <= c <= '\r') || ('\U{1C}' <= c <= '\U{1F}') || c == '\U{85}' || c == '\U{A0}'
    || c == '\U{1680}' || ('\U{2000}' <= c <= '\U{200A}') || c == '\U{2028}' || c == '\U{2029}'
    || c == '\U{202F}' || c == '\U{205F}' || c == '\U{3000}'
  }

  /** Python's `str.lower` on one character, for the ASCII and Latin-1 capitals. */
  function LowerChar(c: char): (r: char)
    ensures r == c || ('A' <= c <= 'Z') || ('\U{C0}' <= c <= '\U{DE}')
    ensures !IsSpace(c) ==> !IsSpace(r)
    ensures c == '_' || c == '.' || c == '-' ==> r == c
  {
    if 'A' <= c <= 'Z' || ('\U{C0}' <= c <= '\U{DE}' && c != '\U{D7}') then (c as int + 32) as char
    else c
  }

  /** Python's `str.lower`. */
  function Lower(s: string): (r: string)
    ensures |r| == |s|
    ensures forall i :: 0 <= i < |s| ==> r[i] == LowerChar(s[i])
  {
    seq(|s|, i requires 0 <= i < |s| => LowerChar(s[i]))
  }

  /** `s.replace(old, new)` for single characters. */
  function ReplaceChar(s: string, from: char, to: char): (r: string)
    ensures |r| == |s|
    ensures forall i :: 0 <= i < |s| ==> r[i] == if s[i] == from then to else s[i]
  {
    seq(|s|, i requires 0 <= i < |s| => if s[i] == from then to else s[i])
  }

  /** Lower-casing twice is lower-casing once: `s.lower().lower() == s.lower()`. */
  lemma LowerIdempotent(s: string)
    ensures Lower(Lower(s)) == Lower(s)
  {
    var l := Lower(s);
    forall i | 0 <= i < |s| ensures LowerChar(l[i]) == l[i] {
      var c := s[i];
      if 'A' <= c <= 'Z' || ('\U{C0}' <= c <= '\U{DE}' && c != '\U{D7}') {
        assert l[i] as int == c as int + 32;
      }
    }
  }

  /** After `s.replace(from, to)` with two different characters, `from` no longer
      occurs, every `to` stands where `s` held `from` or `to`, and a second replacement
      changes nothing. */
  lemma ReplaceCharReplacesAll(s: string, from: char, to: char)
    requires from != to
    ensures from !in ReplaceChar(s, from, to)
    ensures ReplaceChar(ReplaceChar(s, from, to), from, to) == ReplaceChar(s, from, to)
    ensures forall i :: 0 <= i < |s| ==> (ReplaceChar(s, from, to)[i] == to <==> s[i] in {from, to})
  {
    var r := ReplaceChar(s, from, to);
    forall i | 0 <= i < |r| ensures r[i] != from {
    }
  }

  /** The text has no whitespace at either end. */
  predicate IsStripped(s: string) {
    s == [] || (!IsSpace(s[0]) && !IsSpace(s[|s| - 1]))
  }

  /** How many whitespace characters `s` starts with. */
  function LeadingSpaces(s: string): (n: nat)
    ensures n <= |s|
  {
    if s != [] && IsSpace(s[0]) then 1 + LeadingSpaces(s[1..]) else 0
  }

  /** The leading whitespace is the longest run of whitespace at the start. */
  lemma {:induction false} LeadingSpacesRun(s: string)
    ensures forall i :: 0 <= i < LeadingSpaces(s) ==> IsSpace(s[i])
    ensures LeadingSpaces(s) < |s| ==> !IsSpace(s[LeadingSpaces(s)])
  {
    if s != [] && IsSpace(s[0]) {
      LeadingSpacesRun(s[1..]);
      assert forall i :: 1 <= i < |s| ==> s[i] == s[1..][i - 1];
    }
  }

  /** How many whitespace characters `s` ends with. */
  function TrailingSpaces(s: string): (n: nat)
    ensures n <= |s|
  {
    if s != [] && IsSpace(s[|s| - 1]) then 1 + TrailingSpaces(s[..|s| - 1]) else 0
  }

  /** The trailing whitespace is the longest run of whitespace at the end. */
  lemma {:induction false} TrailingSpacesRun(s: string)
    ensures forall i :: |s| - TrailingSpaces(s) <= i < |s| ==> IsSpace(s[i])
    ensures TrailingSpaces(s) < |s| ==> !IsSpace(s[|s| - TrailingSpaces(s) - 1])
  {
    if s != [] && IsSpace(s[|s| - 1]) {
      TrailingSpacesRun(s[..|s| - 1]);
      assert forall i :: 0 <= i < |s| - 1 ==> s[i] == s[..|s| - 1][i];
    }
  }

  /** Python's `str.lstrip()`: the text after its leading whitespace. */
  function LStrip(s: string): string {
    s[LeadingSpaces(s)..]
  }

  /** Python's `str.rstrip()`: the text before its trailing whitespace. */
  function RStrip(s: string): string {
    s[..|s| - TrailingSpaces(s)]
  }

  /** Python's `str.strip()`. */
  function Strip(s: string): (r: string)
    ensures IsStripped(r)
  {
    LeadingSpacesRun(s);
    TrailingSpacesRun(LStrip(s));
    RStrip(LStrip(s))
  }

  /** Every character of the text is whitespace. */
  ghost predicate AllSpaces(w: string) {
    forall k :: 0 <= k < |w| ==> IsSpace(w[k])
  }

  /** `s.strip()` is the middle of `s`: what is cut off at either end is whitespace only,
      and what is kept starts and ends with a non-space, so the runs cut off are the
      longest ones. */
  lemma StripTrims(s: string)
    ensures exists i, j :: 0 <= i <= j <= |s| && Strip(s) == s[i..j] && AllSpaces(s[..i]) && AllSpaces(s[j..])
    ensures IsStripped(Strip(s))
  {
    var i := LeadingSpaces(s);
    var j := i + |s[i..]| - TrailingSpaces(s[i..]);
    LeadingCut(s);
    TrailingCut(s);
    assert Strip(s) == s[i..j] && AllSpaces(s[..i]) && AllSpaces(s[j..]);
  }

  lemma LeadingCut(s: string)
    ensures AllSpaces(s[..LeadingSpaces(s)])
  {
    LeadingSpacesRun(s);
  }

  lemma TrailingCut(s: string)
    ensures var i := LeadingSpaces(s); var t := s[i..];
      AllSpaces(s[i + |t| - TrailingSpaces(t)..])
  {
    var i := LeadingSpaces(s);
    var t := s[i..];
    TrailingSpacesRun(t);
    assert s[i + |t| - TrailingSpaces(t)..] == t[|t| - TrailingSpaces(t)..];
  }

  /** Cutting trailing whitespace off a text that ends in a non-space leaves that text. */
  lemma RStripTrailingSpaces(x: string, w: string)
    requires x == [] || !IsSpace(x[|x| - 1])
    requires forall i :: 0 <= i < |w| ==> IsSpace(w[i])
    ensures RStrip(x + w) == x
  {
    var s := x + w;
    TrailingSpacesRun(s);
    assert s[..|x|] == x;
  }

  /** A stripped text is its own strip. */
  lemma StripStripped(s: string)
    requires IsStripped(s)
    ensures Strip(s) == s
  {
    LeadingSpacesRun(s);
    TrailingSpacesRun(s);
    assert LeadingSpaces(s) == 0;
    assert LStrip(s) == s;
    assert TrailingSpaces(s) == 0;
  }

  /** Stripping a text that starts with a non-space and ends with a non-space followed
      only by whitespace removes just that whitespace. */
  lemma StripAround(head: string, body: string, tail: string)
    requires head != [] && !IsSpace(head[0])
    requires body != [] && !IsSpace(body[|body| - 1])
    requires forall i :: 0 <= i < |tail| ==> IsSpace(tail[i])
    ensures Strip(head + (body + tail)) == head + body
  {
    var x := head + body;
    assert head + (body + tail) == x + tail;
    assert x[|x| - 1] == body[|body| - 1];
    assert (x + tail)[0] == head[0];
    LeadingSpacesRun(x + tail);
    RStripTrailingSpaces(x, tail);
  }

  /** A prefix that starts and ends with a non-space survives `strip()`. */
  lemma StripKeepsPrefix(p: string, s: string)
    requires p <= s && p != []
    requires !IsSpace(p[0]) && !IsSpace(p[|p| - 1])
    ensures p <= Strip(s)
  {
    assert s[0] == p[0];
    LeadingSpacesRun(s);
    assert LStrip(s) == s;
    TrailingSpacesRun(s);
  }

  /** Two consecutive newlines never occur. */
  ghost predicate NoBlankLines(s: string) {
    forall i, j :: 0 <= i < j < |s| && j == i + 1 ==> !(s[i] == '\n' && s[j] == '\n')
  }

  /** A piece of a text without blank lines has none either. */
  lemma NoBlankLinesSlice(s: string, i: nat, j: nat)
    requires i <= j <= |s| && NoBlankLines(s)
    ensures NoBlankLines(s[i..j])
  {
    var t := s[i..j];
    forall k | 0 <= k < |t| - 1 && t[k] == '\n' ensures t[k + 1] != '\n' {
      assert t[k] == s[i + k] && t[k + 1] == s[i + k + 1];
    }
  }

  /** Stripping cannot create a blank line. */
  lemma StripKeepsNoBlankLines(s: string)
    requires NoBlankLines(s)
    ensures NoBlankLines(Strip(s))
  {
    var t := LStrip(s);
    NoBlankLinesSlice(s, LeadingSpaces(s), |s|);
    NoBlankLinesSlice(t, 0, |t| - TrailingSpaces(t));
  }

  /** How many newlines `s` starts with. */
  function LeadingNewlines(s: string): (n: nat)
    ensures n <= |s|
    ensures s != [] && s[0] == '\n' ==> n >= 1
  {
    if s != [] && s[0] == '\n' then 1 + LeadingNewlines(s[1..]) else 0
  }

  /** The leading newlines are the longest run of newlines at the start. */
  lemma {:induction false} LeadingNewlinesRun(s: string)
    ensures forall i :: 0 <= i < LeadingNewlines(s) ==> s[i] == '\n'
    ensures LeadingNewlines(s) < |s| ==> s[LeadingNewlines(s)] != '\n'
  {
    if s != [] && s[0] == '\n' {
      LeadingNewlinesRun(s[1..]);
      assert forall i :: 1 <= i < |s| ==> s[i] == s[1..][i - 1];
    }
  }

  /** `re.sub(r"\n+", "\n", s)`: every run of newlines becomes a single newline. */
  function CollapseNewlines(s: string): (r: string)
    ensures |r| <= |s|
    ensures r == [] <==> s == []
    ensures r != [] ==> (r[0] == '\n' <==> s[0] == '\n')
    ensures NoBlankLines(r)
    decreases |s|
  {
    if s == [] then []
    else if s[0] == '\n' then
      LeadingNewlinesRun(s);
      "\n" + CollapseNewlines(s[LeadingNewlines(s)..])
    else [s[0]] + CollapseNewlines(s[1..])
  }

  /** The characters of a text other than newlines, in order. */
  function NonNewlines(s: string): (r: string)
    ensures '\n' !in r
  {
    if s == [] then [] else (if s[0] == '\n' then [] else [s[0]]) + NonNewlines(s[1..])
  }

  lemma {:induction false} NonNewlinesOfNewlines(s: string, n: nat)
    requires n <= |s| && forall i :: 0 <= i < n ==> s[i] == '\n'
    ensures NonNewlines(s) == NonNewlines(s[n..])
  {
    if n > 0 {
      NonNewlinesOfNewlines(s[1..], n - 1);
      assert s[1..][n - 1..] == s[n..];
    }
  }

  /** Collapsing newline runs changes nothing but newlines. */
  lemma {:induction false} CollapseKeepsText(s: string)
    ensures NonNewlines(CollapseNewlines(s)) == NonNewlines(s)
    decreases |s|
  {
    if s == [] {
    } else if s[0] == '\n' {
      LeadingNewlinesRun(s);
      var d := s[LeadingNewlines(s)..];
      CollapseKeepsText(d);
      NonNewlinesOfNewlines(s, LeadingNewlines(s));
      assert ("\n" + CollapseNewlines(d))[1..] == CollapseNewlines(d);
    } else {
      CollapseKeepsText(s[1..]);
      assert ([s[0]] + CollapseNewlines(s[1..]))[1..] == CollapseNewlines(s[1..]);
    }
  }

  /** Text before the first newline passes through unchanged. */
  lemma {:induction false} CollapseKeepsLine(a: string, b: string)
    requires '\n' !in a
    ensures CollapseNewlines(a + b) == a + CollapseNewlines(b)
    decreases |a|
  {
    if a == [] {
      assert a + b == b;
    } else {
      assert (a + b)[0] == a[0] && (a + b)[1..] == a[1..] + b;
      CollapseKeepsLine(a[1..], b);
      assert a == [a[0]] + a[1..];
    }
  }

  /** A run of newlines becomes a single one. */
  lemma CollapseRun(s: string, n: nat)
    requires 0 < n <= |s| && forall i :: 0 <= i < n ==> s[i] == '\n'
    requires n < |s| ==> s[n] != '\n'
    ensures CollapseNewlines(s) == "\n" + CollapseNewlines(s[n..])
  {
    LeadingNewlinesRun(s);
    assert LeadingNewlines(s) == n;
  }

  /** A text without blank lines is left as it is. */
  lemma {:induction false} CollapseFixedPoint(s: string)
    requires NoBlankLines(s)
    ensures CollapseNewlines(s) == s
    decreases |s|
  {
    if s != [] {
      NoBlankLinesSlice(s, 1, |s|);
      CollapseFixedPoint(s[1..]);
      if s[0] == '\n' {
        assert |s| > 1 ==> s[1] != '\n';
        assert LeadingNewlines(s) == 1;
      }
    }
  }

  /** `s.split("\n")[0]`: the text up to its first newline. */
  function FirstLine(s: string): (r: string)
    ensures r <= s && '\n' !in r
    ensures |r| < |s| ==> s[|r|] == '\n'
  {
    if s == [] || s[0] == '\n' then [] else [s[0]] + FirstLine(s[1..])
  }

  /** The first line of a text is everything before its first newline. */
  lemma {:induction false} FirstLineUpTo(a: string, b: string)
    requires '\n' !in a && b != [] && b[0] == '\n'
    ensures FirstLine(a + b) == a
    decreases |a|
  {
    if a == [] {
      assert a + b == b;
    } else {
      assert (a + b)[0] == a[0] && (a + b)[1..] == a[1..] + b;
      FirstLineUpTo(a[1..], b);
      assert a == [a[0]] + a[1..];
    }
  }

  /** The position of the last occurrence of `c` in `s`. */
  function LastIndex(s: string, c: char): (i: nat)
    requires c in s
    ensures i < |s| && s[i] == c && c !in s[i + 1..]
  {
    if s[|s| - 1] == c then |s| - 1
    else
      assert c in s[..|s| - 1] by { var k :| 0 <= k < |s| && s[k] == c; assert s[..|s| - 1][k] == c; }
      LastIndex(s[..|s| - 1], c)
  }

  /** Python's `s.split(sep)` for a one-character separator. */
  function Split(s: string, sep: char): (parts: seq<string>)
    ensures |parts| >= 1
    ensures forall k :: 0 <= k < |parts| ==> sep !in parts[k]
    decreases |s|
  {
    if sep !in s then [s]
    else
      var i := LastIndex(s, sep);
      Split(s[..i], sep) + [s[i + 1..]]
  }

  /** `sep.join(parts)`. */
  function Join(parts: seq<string>, sep: char): string
    requires |parts| >= 1
  {
    if |parts| == 1 then parts[0] else Join(parts[..|parts| - 1], sep) + [sep] + parts[|parts| - 1]
  }

  /** Splitting and joining again gives the original text back. */
  lemma {:induction false} SplitJoin(s: string, sep: char)
    ensures Join(Split(s, sep), sep) == s
    decreases |s|
  {
    if sep in s {
      var i := LastIndex(s, sep);
      SplitJoin(s[..i], sep);
      var parts := Split(s, sep);
      assert parts[..|parts| - 1] == Split(s[..i], sep);
      assert s == s[..i] + [sep] + s[i + 1..];
    }
  }

  /** The last occurrence is the one with no occurrence after it. */
  lemma LastIndexUnique(s: string, c: char, i: nat)
    requires i < |s| && s[i] == c && c !in s[i + 1..]
    ensures LastIndex(s, c) == i
  {
    var j := LastIndex(s, c);
    assert forall k :: i < k < |s| ==> s[k] == s[i + 1..][k - i - 1];
    assert forall k :: j < k < |s| ==> s[k] == s[j + 1..][k - j - 1];
  }

  /** A separator followed by separator-free text ends the split with that text. */
  lemma SplitAtLast(a: string, sep: char, b: string)
    requires sep !in b
    ensures Split(a + [sep] + b, sep) == Split(a, sep) + [b]
  {
    var s := a + [sep] + b;
    assert s[|a|] == sep && s[|a| + 1..] == b && s[..|a|] == a;
    LastIndexUnique(s, sep, |a|);
  }

  /** Separator-free text appended to `a` is appended to the last piece of `a`'s split. */
  lemma SplitLastPiece(a: string, sep: char, b: string)
    requires sep !in b
    ensures var p := Split(a + b, sep); var q := Split(a, sep);
      p[..|p| - 1] == q[..|q| - 1] && p[|p| - 1] == q[|q| - 1] + b
  {
    if sep in a {
      SplitLastPieceAt(a, sep, b);
    } else {
      NotInAppend(a, b, sep);
    }
  }

  lemma SplitLastPieceAt(a: string, sep: char, b: string)
    requires sep !in b && sep in a
    ensures var p := Split(a + b, sep); var q := Split(a, sep);
      p[..|p| - 1] == q[..|q| - 1] && p[|p| - 1] == q[|q| - 1] + b
  {
    var i := LastIndex(a, sep);
    AppendSlices(a, b, i);
    AppendSlices(a, b, i + 1);
    NotInAppend(a[i + 1..], b, sep);
    LastIndexUnique(a + b, sep, i);
  }

  lemma NotInAppend(a: string, b: string, c: char)
    requires c !in a && c !in b
    ensures c !in a + b
  {
  }

  lemma AppendSlices(a: string, b: string, i: nat)
    requires i <= |a|
    ensures (a + b)[..i] == a[..i] && (a + b)[i..] == a[i..] + b
  {
  }

  function DigitChar(d: nat): (c: char)
    requires d < 10
    ensures '0' <= c <= '9'
  {
    ('0' as int + d) as char
  }

  /** Decimal digits of a natural number, as Python's `str(n)`. */
  function NatToString(n: nat): (r: string)
    ensures |r| >= 1
    ensures forall i :: 0 <= i < |r| ==> '0' <= r[i] <= '9'
  {
    if n < 10 then [DigitChar(n)] else NatToString(n / 10) + [DigitChar(n % 10)]
  }

  /** Python's `str(n)` for an integer, with a leading minus for negatives. */
  function IntToString(n: int): (r: string)
    ensures |r| >= 1 && !IsSpace(r[0]) && !IsSpace(r[|r| - 1])
  {
    if n < 0 then "-" + NatToString(-n) else NatToString(n)
  }

  /** The value of a string of decimal digits, as Python's `int(s)` reads it. */
  function DigitsValue(s: string): int {
    if s == [] then 0 else DigitsValue(s[..|s| - 1]) * 10 + (s[|s| - 1] as int - '0' as int)
  }

  /** Python's `int(s)` on what `str` writes: an optional minus, then digits. */
  function ParseInt(s: string): int {
    if s != [] && s[0] == '-' then -DigitsValue(s[1..]) else DigitsValue(s)
  }

  /** The digits of `n` read back as `n`, with no leading zero except for 0 itself. */
  lemma {:induction false} NatToStringValue(n: nat)
    ensures DigitsValue(NatToString(n)) == n
    ensures NatToString(n)[0] != '0' || n == 0
  {
    if n >= 10 {
      NatToStringValue(n / 10);
      var p := NatToString(n / 10);
      var s := p + [DigitChar(n % 10)];
      assert s[..|s| - 1] == p;
      assert s[0] == p[0];
    }
  }

  /** `int(str(n)) == n`: the decimal text of an integer determines it, so different
      numbers are written differently. */
  lemma IntToStringRoundTrip(n: int)
    ensures ParseInt(IntToString(n)) == n
    ensures forall m :: IntToString(m) == IntToString(n) ==> m == n
  {
    IntToStringValue(n);
    forall m | IntToString(m) == IntToString(n) ensures m == n {
      IntToStringValue(m);
    }
  }

  lemma IntToStringValue(n: int)
    ensures ParseInt(IntToString(n)) == n
  {
    if n < 0 {
      NatToStringValue(-n);
      assert ("-" + NatToString(-n))[1..] == NatToString(-n);
    } else {
      NatToStringValue(n);
    }
  }
}
