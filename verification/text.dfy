/** String operations the plugin borrows from PHP: `strpos`, `explode`,
    `implode`, `trim`, `strtolower`, `str_replace` and WordPress' `esc_html`.
    Strings are sequences of characters; PHP's byte strings are not
    distinguished from them. */
module Text {

  /** Characters PHP's `trim()` strips by default: " \t\n\r\0\x0B". */
  const PhpTrimChars: set<char> := {' ', '\t', '\n', '\r', '\0', '\U{000B}'}

  /** Characters matched by `\s` in the plugin's regular expressions. */
  const RegexSpace: set<char> := {' ', '\t', '\n', '\r', '\U{000B}', '\U{000C}'}

  predicate StartsWith(s: string, p: string) {
    |p| <= |s| && s[..|p|] == p
  }

  /** A prefix stays a prefix when text is appended. */
  lemma StartsWithAppend(a: string, b: string, p: string)
    requires StartsWith(a, p)
    ensures StartsWith(a + b, p)
  {
    assert (a + b)[..|p|] == a[..|p|];
  }

  /** Text framed by a prefix-carrying front keeps that prefix and contains
      the middle. */
  lemma FramedFacts(front: string, mid: string, back: string, p: string)
    requires StartsWith(front, p)
    ensures StartsWith(front + mid + back, p) && Contains(front + mid + back, mid)
  {
    ContainsMiddle(front, mid, back);
    assert front + mid + back == front + (mid + back);
    StartsWithAppend(front, mid + back, p);
  }

  predicate EndsWith(s: string, p: string) {
    |p| <= |s| && s[|s| - |p|..] == p
  }

  /** The two halves of a concatenation are its prefix and its suffix. */
  lemma ConcatEnds(a: string, b: string)
    ensures StartsWith(a + b, a) && EndsWith(a + b, b)
  {
    assert (a + b)[..|a|] == a;
    assert (a + b)[|a|..] == b;
  }

  lemma StartsWithTrans(s: string, q: string, p: string)
    requires StartsWith(s, q) && StartsWith(q, p)
    ensures StartsWith(s, p)
  {
    assert s[..|p|] == q[..|p|];
  }

  lemma EndsWithTrans(s: string, q: string, p: string)
    requires EndsWith(s, q) && EndsWith(q, p)
    ensures EndsWith(s, p)
  {
    assert s[|s| - |p|..] == q[|q| - |p|..];
  }

  /** The parts of `front + mid + back`, recovered by position. */
  lemma FramedParts(front: string, mid: string, back: string)
    ensures var s := front + mid + back;
      StartsWith(s, front) && EndsWith(s, back) &&
      |s| == |front| + |mid| + |back| && s[|front|..|s| - |back|] == mid
  {
    var s := front + mid + back;
    assert s[..|front|] == front;
    assert s[|s| - |back|..] == back;
    assert s[|front|..|s| - |back|] == mid;
  }

  predicate OccursAt(s: string, p: string, i: int) {
    0 <= i && i + |p| <= |s| && s[i..i + |p|] == p
  }

  /** `strpos($s, $p, $from)`: the first occurrence of `p` at or after `from`,
      or -1. */
  function IndexFrom(s: string, p: string, from: nat): (r: int)
    ensures r == -1 || (from <= r && OccursAt(s, p, r))
    ensures forall i :: from <= i && (r == -1 || i < r) ==> !OccursAt(s, p, i)
    decreases |s| - from
  {
    if from + |p| > |s| then -1
    else if s[from..from + |p|] == p then from
    else IndexFrom(s, p, from + 1)
  }

  function IndexOf(s: string, p: string): (r: int)
    ensures r == -1 || OccursAt(s, p, r)
    ensures forall i :: 0 <= i && (r == -1 || i < r) ==> !OccursAt(s, p, i)
  {
    IndexFrom(s, p, 0)
  }

  /** `strpos($s, $p) !== false`. */
  predicate Contains(s: string, p: string) {
    IndexOf(s, p) != -1
  }

  /** A literal found at a known position is contained. */
  /** An occurrence past the end of `a` is an occurrence in `t`. */
  lemma OccursInSuffix(a: string, t: string, p: string, i: int)
    requires i >= |a| && OccursAt(a + t, p, i)
    ensures OccursAt(t, p, i - |a|)
  {
    assert (a + t)[i..i + |p|] == t[i - |a|..i - |a| + |p|];
  }

  lemma OccursContains(s: string, p: string, i: int)
    requires OccursAt(s, p, i)
    ensures Contains(s, p)
  {
  }

  lemma ContainsMiddle(a: string, p: string, b: string)
    ensures Contains(a + p + b, p)
  {
    var s := a + p + b;
    assert s[|a|..|a| + |p|] == p;
    OccursContains(s, p, |a|);
  }

  /** A pattern found in a string is still found once text is appended. */
  lemma ContainsAppend(s: string, b: string, p: string)
    requires Contains(s, p)
    ensures Contains(s + b, p)
  {
    ContainsExtend([], s, b, p);
    assert [] + s + b == s + b;
  }

  /** A pattern found in a prefix is found in the whole string. */
  lemma ContainsPrefix(s: string, q: string, p: string)
    requires StartsWith(s, q) && Contains(q, p)
    ensures Contains(s, p)
  {
    ContainsAppend(q, s[|q|..], p);
    assert q + s[|q|..] == s;
  }

  /** A pattern found in a string is still found once text is added around it. */
  lemma ContainsExtend(a: string, s: string, b: string, p: string)
    requires Contains(s, p)
    ensures Contains(a + s + b, p)
  {
    var i := IndexOf(s, p);
    var t := a + s + b;
    assert t[|a| + i..|a| + i + |p|] == s[i..i + |p|];
    OccursContains(t, p, |a| + i);
  }

  function LowerChar(c: char): char {
    if 'A' <= c <= 'Z' then (c as int + 32) as char else c
  }

  /** `strtolower` (ASCII letters only, as PHP 8 does). */
  function Lower(s: string): (r: string)
    ensures |r| == |s|
    ensures forall i :: 0 <= i < |s| ==> r[i] == LowerChar(s[i])
  {
    seq(|s|, i requires 0 <= i < |s| => LowerChar(s[i]))
  }

  /** Case-insensitive containment (`stripos`). */
  predicate ContainsNoCase(s: string, p: string) {
    Contains(Lower(s), Lower(p))
  }

  function IndexOfChar(s: string, c: char): (r: int)
    ensures r == -1 <==> c !in s
    ensures r != -1 ==> 0 <= r < |s| && s[r] == c && c !in s[..r]
  {
    if |s| == 0 then -1
    else if s[0] == c then 0
    else
      var k := IndexOfChar(s[1..], c);
      assert s == [s[0]] + s[1..];
      if k == -1 then -1 else
        assert s[..k + 1] == [s[0]] + s[1..][..k];
        k + 1
  }

  /** `explode($sep, $s)` for a one-character separator. */
  function Split(s: string, sep: char): (r: seq<string>)
    ensures |r| >= 1
    ensures forall i :: 0 <= i < |r| ==> sep !in r[i]
    decreases |s|
  {
    var i := IndexOfChar(s, sep);
    if i == -1 then [s] else [s[..i]] + Split(s[i + 1..], sep)
  }

  /** `implode($sep, $parts)`. */
  function Join(parts: seq<string>, sep: string): string {
    if |parts| == 0 then ""
    else if |parts| == 1 then parts[0]
    else parts[0] + sep + Join(parts[1..], sep)
  }

  /** Joining the pieces of a split with the separator gives the string back. */
  lemma {:induction false} JoinSplit(s: string, sep: char)
    ensures Join(Split(s, sep), [sep]) == s
    decreases |s|
  {
    var i := IndexOfChar(s, sep);
    if i != -1 {
      var rest := Split(s[i + 1..], sep);
      JoinSplit(s[i + 1..], sep);
      var parts := [s[..i]] + rest;
      assert Split(s, sep) == parts;
      assert parts[0] == s[..i] && parts[1..] == rest;
      assert Join(parts, [sep]) == s[..i] + [sep] + Join(rest, [sep]);
      assert s == s[..i] + [sep] + s[i + 1..];
    }
  }

  /** Splitting text that starts with a separator-free piece peels that piece off. */
  lemma SplitCons(a: string, sep: char, b: string)
    requires sep !in a
    ensures Split(a + [sep] + b, sep) == [a] + Split(b, sep)
  {
    var s := a + [sep] + b;
    var i := IndexOfChar(s, sep);
    assert s[|a|] == sep;
    assert s[..|a|] == a;
    assert s[..i] == a;
    assert s[i + 1..] == b;
  }

  /** Splitting the join of separator-free pieces gives the pieces back. */
  lemma {:induction false} SplitJoin(parts: seq<string>, sep: char)
    requires |parts| >= 1
    requires forall i :: 0 <= i < |parts| ==> sep !in parts[i]
    ensures Split(Join(parts, [sep]), sep) == parts
    decreases |parts|
  {
    if |parts| == 1 {
      assert Split(parts[0], sep) == [parts[0]];
    } else {
      SplitJoin(parts[1..], sep);
      SplitCons(parts[0], sep, Join(parts[1..], [sep]));
      assert [parts[0]] + parts[1..] == parts;
    }
  }

  function TrimLeftBy(s: string, cs: set<char>): (r: string)
    ensures |r| <= |s| && r == s[|s| - |r|..]
    ensures |r| > 0 ==> r[0] !in cs
    ensures forall i :: 0 <= i < |s| - |r| ==> s[i] in cs
  {
    if |s| > 0 && s[0] in cs then TrimLeftBy(s[1..], cs) else s
  }

  function TrimRightBy(s: string, cs: set<char>): (r: string)
    ensures |r| <= |s| && r == s[..|r|]
    ensures |r| > 0 ==> r[|r| - 1] !in cs
    ensures forall i :: |r| <= i < |s| ==> s[i] in cs
  {
    if |s| > 0 && s[|s| - 1] in cs then TrimRightBy(s[..|s| - 1], cs) else s
  }

  /** `trim($s, $chars)`. */
  function TrimBy(s: string, cs: set<char>): string {
    TrimRightBy(TrimLeftBy(s, cs), cs)
  }

  /** `trim($s)` with PHP's default character list. */
  function Trim(s: string): string {
    TrimBy(s, PhpTrimChars)
  }

  /** Neither end of `s` holds a character of `cs`. */
  predicate TrimmedBy(s: string, cs: set<char>) {
    |s| == 0 || (s[0] !in cs && s[|s| - 1] !in cs)
  }

  /** Trimming removes exactly the characters of `cs` at both ends, and a
      string with none there is left unchanged. */
  lemma TrimByFacts(s: string, cs: set<char>)
    ensures TrimmedBy(TrimBy(s, cs), cs)
    ensures TrimmedBy(s, cs) ==> TrimBy(s, cs) == s
    ensures forall c :: c in TrimBy(s, cs) ==> c in s
  {
    var l := TrimLeftBy(s, cs);
    var r := TrimRightBy(l, cs);
    if |r| > 0 {
      assert r[0] == l[0];
    }
    if TrimmedBy(s, cs) && |s| > 0 {
      assert l == s;
    }
    forall c | c in r ensures c in s {
      var k :| 0 <= k < |r| && r[k] == c;
      assert l[k] == c;
      assert s[|s| - |l| + k] == c;
    }
  }

  /** `str_replace($from, $to, $s)`: every non-overlapping occurrence, left to
      right. PHP leaves the subject unchanged for an empty search string. */
  function ReplaceAll(s: string, from: string, to: string): (r: string)
    ensures !Contains(s, from) && |from| > 0 ==> r == s
    decreases |s|
  {
    if |from| == 0 || |s| == 0 then s
    else if StartsWith(s, from) then
      assert OccursAt(s, from, 0);
      to + ReplaceAll(s[|from|..], from, to)
    else
      NotContainedTail(s, from);
      [s[0]] + ReplaceAll(s[1..], from, to)
  }

  lemma NotContainedTail(s: string, p: string)
    requires |s| > 0
    ensures !Contains(s, p) ==> !Contains(s[1..], p)
  {
    var t := s[1..];
    if Contains(t, p) {
      var i := IndexOf(t, p);
      assert s[i + 1..i + 1 + |p|] == t[i..i + |p|];
      OccursContains(s, p, i + 1);
    }
  }

  /** WordPress `esc_html`: the five HTML-special characters become entities. */
  function EscHtmlChar(c: char): string {
    if c == '&' then "&amp;"
    else if c == '<' then "&lt;"
    else if c == '>' then "&gt;"
    else if c == '"' then "&quot;"
    else if c == '\'' then "&#039;"
    else [c]
  }

  function EscHtml(s: string): (r: string)
    ensures '<' !in r && '>' !in r && '"' !in r
  {
    if |s| == 0 then "" else EscHtmlChar(s[0]) + EscHtml(s[1..])
  }

  /** The parts written one after another (`implode('', $parts)`, or a loop
      of `.=`). */
  function Concat(parts: seq<string>): string {
    if |parts| == 0 then "" else parts[0] + Concat(parts[1..])
  }

  lemma {:induction false} ConcatAppend(a: seq<string>, b: seq<string>)
    ensures Concat(a + b) == Concat(a) + Concat(b)
    decreases |a|
  {
    if |a| == 0 {
      assert a + b == b;
    } else {
      assert (a + b)[1..] == a[1..] + b;
      ConcatAppend(a[1..], b);
    }
  }

  /** A pattern inside a longer one is found wherever the longer one is. */
  lemma ContainsPart(s: string, x: string, p: string, y: string)
    requires Contains(s, x + p + y)
    ensures Contains(s, p)
  {
    var w := x + p + y;
    var i := IndexOf(s, w);
    assert s[i + |x|..i + |x| + |p|] == s[i..i + |w|][|x|..|x| + |p|];
    assert w[|x|..|x| + |p|] == p;
    OccursContains(s, p, i + |x|);
  }

  /** A character that cannot start the pattern adds no occurrence in front. */
  lemma ContainsCons(c: char, s: string, p: string)
    requires |p| > 0 && p[0] != c && !Contains(s, p)
    ensures !Contains([c] + s, p)
  {
    var t := [c] + s;
    if Contains(t, p) {
      var i := IndexOf(t, p);
      assert t[1..] == s;
      assert i > 0;
      assert s[i - 1..i - 1 + |p|] == t[i..i + |p|];
      OccursContains(s, p, i - 1);
    }
  }

  /** `preg_replace('/(p)/', '$1' . $ins, $s, 1)` for a literal `p`: `ins`
      goes right after the first occurrence, and nothing happens without
      one. */
  function InsertAfterFirst(s: string, p: string, ins: string): (r: string)
    ensures !Contains(s, p) ==> r == s
    ensures Contains(s, p) ==>
      var k := IndexOf(s, p) + |p|;
      k <= |s| && |r| == |s| + |ins| && r[..k] == s[..k] && r[k..k + |ins|] == ins && r[k + |ins|..] == s[k..]
  {
    var i := IndexOf(s, p);
    if i == -1 then s else s[..i + |p|] + ins + s[i + |p|..]
  }

  /** `a` is never directly followed by `b` in `s`. */
  predicate NoPair(s: string, a: char, b: char) {
    forall i :: 0 <= i < |s| - 1 ==> !(s[i] == a && s[i + 1] == b)
  }

  lemma NoPairConcat(x: string, y: string, a: char, b: char)
    requires NoPair(x, a, b) && NoPair(y, a, b)
    requires |x| == 0 || |y| == 0 || x[|x| - 1] != a || y[0] != b
    ensures NoPair(x + y, a, b)
  {
    var s := x + y;
    forall i | 0 <= i < |s| - 1
      ensures !(s[i] == a && s[i + 1] == b)
    {
      if i + 1 < |x| {
        assert s[i] == x[i] && s[i + 1] == x[i + 1];
      } else if i >= |x| {
        assert s[i] == y[i - |x|] && s[i + 1] == y[i + 1 - |x|];
      }
    }
  }

  /** Escaping loses nothing: different texts escape differently. */
  lemma {:induction false} EscHtmlInjective(s: string, t: string)
    requires EscHtml(s) == EscHtml(t)
    ensures s == t
    decreases |s|
  {
    if |s| > 0 && |t| > 0 {
      var x, y := EscHtmlChar(s[0]), EscHtmlChar(t[0]);
      assert EscHtml(s) == x + EscHtml(s[1..]);
      assert EscHtml(t) == y + EscHtml(t[1..]);
      EscCharHead(s[0], t[0], EscHtml(s[1..]), EscHtml(t[1..]));
      EscHtmlInjective(s[1..], t[1..]);
      assert s == [s[0]] + s[1..];
      assert t == [t[0]] + t[1..];
    }
  }

  /** The escape of a character is told apart by its first two characters,
      and never runs into what follows it. */
  lemma EscCharHead(c: char, d: char, u: string, v: string)
    requires EscHtmlChar(c) + u == EscHtmlChar(d) + v
    ensures c == d && u == v
  {
    var x, y := EscHtmlChar(c), EscHtmlChar(d);
    var w := x + u;
    assert w[0] == x[0] && w[0] == y[0];
    if |x| > 1 && |y| > 1 {
      assert w[1] == x[1] && w[1] == y[1];
    }
    assert x == y;
    assert u == w[|x|..] == v;
  }

  /** A non-empty sequence is its head followed by its tail. */
  lemma ConsTail<T>(s: seq<T>)
    requires |s| > 0
    ensures [s[0]] + s[1..] == s
  {
  }

  lemma Assoc<T>(a: seq<T>, b: seq<T>, c: seq<T>)
    ensures a + b + c == a + (b + c)
  {
  }

  /** Regrouping a framed concatenation, stated over variables so that long
      literal frames are never unfolded. */
  lemma Regroup(o: string, x: string, y: string, c: string)
    ensures o + (x + y) + c == o + x + y + c
  {
  }

  lemma Regroup5(o: string, f: string, x: string, b: string, c: string)
    ensures o + (f + x) + b + c == (o + f) + x + (b + c)
  {
  }
}
