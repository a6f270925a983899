/** Shared vocabulary of the model: optional values, the plugin's WP_Error codes,
    results that carry them, and the few PHP value semantics the plugin leans on
    (`empty()`, `array_slice`, `array_unique`, `round()`). */
module Common {

  datatype Option<+T> = None | Some(value: T) {
    function GetOr(default: T): T {
      match this
      case Some(v) => v
      case None => default
    }
  }

  /** The error codes the plugin returns inside a WP_Error. Errors that come
      from WordPress' HTTP layer are passed through with their own code. */
  datatype ErrorCode =
    | NoApiKey
    | ApiError
    | JsonDecodeError
    | NoProfile
    | PostNotFound
    | UnknownIssueType
    | NotImplemented
    | NoHeadings
    | NotApplicable
    | NoLinks
    | InvalidJob
    | FixNotFound
    | IssueNotFound
    | NoParagraph
    | UpdateFailed
    | Transport(code: string)

  /** A value or a WP_Error; usable with `:-`. */
  datatype Result<+T> = Ok(value: T) | Err(error: ErrorCode) {
    predicate IsFailure() {
      Err?
    }

    function PropagateFailure<U>(): Result<U>
      requires Err?
    {
      Err(error)
    }

    function Extract(): T
      requires Ok?
    {
      value
    }
  }

  /** PHP `empty()` on a string: the empty string and "0" are both empty. */
  predicate PhpEmpty(s: string) {
    s == "" || s == "0"
  }

  /** PHP truthiness of an optional string (null, "" and "0" are falsy). */
  predicate Truthy(s: Option<string>) {
    s.Some? && !PhpEmpty(s.value)
  }

  /** `array_slice($a, -$n)`: the last `n` entries, all of them when there are fewer. */
  function KeepLast<T>(s: seq<T>, n: nat): (r: seq<T>)
    ensures |r| == if |s| <= n then |s| else n
    ensures r == s[|s| - |r|..]
  {
    if |s| <= n then s else s[|s| - n..]
  }

  /** `array_slice($a, 0, $len)`: a negative length stops that many entries
      before the end, as PHP does. */
  function SliceHead<T>(s: seq<T>, len: int): (r: seq<T>)
    ensures len >= 0 ==> |r| == if |s| <= len then |s| else len
    ensures len < 0 ==> |r| == if |s| + len <= 0 then 0 else |s| + len
    ensures r == s[..|r|]
  {
    if len >= 0 then (if |s| <= len then s else s[..len])
    else if |s| + len <= 0 then []
    else s[..|s| + len]
  }

  predicate Distinct<T(==)>(s: seq<T>) {
    forall i, j :: 0 <= i < j < |s| ==> s[i] != s[j]
  }

  /** `array_unique`: the first occurrence of each value, in input order. */
  function Dedupe<T(==)>(s: seq<T>): (r: seq<T>)
    ensures Distinct(r)
    ensures forall i :: 0 <= i < |s| ==> s[i] in r
    ensures forall i :: 0 <= i < |r| ==> r[i] in s
    ensures |s| > 0 ==> |r| > 0 && r[0] == s[0]
    ensures |r| <= |s|
  {
    if |s| == 0 then []
    else
      var prefix := Dedupe(s[..|s| - 1]);
      if s[|s| - 1] in prefix then prefix else prefix + [s[|s| - 1]]
  }

  /** Appending a value already present leaves the deduplicated list unchanged;
      appending a new one puts it at the end. */
  lemma DedupeAppend<T>(s: seq<T>, x: T)
    ensures x in s ==> Dedupe(s + [x]) == Dedupe(s)
    ensures x !in s ==> Dedupe(s + [x]) == Dedupe(s) + [x]
  {
    assert (s + [x])[..|s + [x]| - 1] == s;
  }

  /** The position of the first occurrence of `x` in `s`. */
  function FirstIndex<T(==)>(s: seq<T>, x: T): (r: nat)
    requires x in s
    ensures r < |s| && s[r] == x
    ensures forall i :: 0 <= i < r ==> s[i] != x
  {
    if s[0] == x then 0
    else
      var k := FirstIndex(s[1..], x);
      assert forall i :: 1 <= i <= k ==> s[i] == s[1..][i - 1];
      1 + k
  }

  /** Appending to a list moves no first occurrence; a new value's first
      occurrence is the appended one. */
  lemma FirstIndexAppend<T>(s: seq<T>, y: T, x: T)
    ensures x in s ==> FirstIndex(s + [y], x) == FirstIndex(s, x)
    ensures x !in s && x == y ==> FirstIndex(s + [y], x) == |s|
  {
    assert forall i :: 0 <= i < |s| ==> (s + [y])[i] == s[i];
  }

  /** `array_unique` keeps first occurrences in the order they first occur. */
  lemma {:induction false} DedupeOrder<T>(s: seq<T>)
    ensures forall i, j :: 0 <= i < j < |Dedupe(s)| ==>
      FirstIndex(s, Dedupe(s)[i]) < FirstIndex(s, Dedupe(s)[j])
    decreases |s|
  {
    if |s| > 0 {
      var p, y := s[..|s| - 1], s[|s| - 1];
      assert s == p + [y];
      DedupeOrder(p);
      var d, e := Dedupe(p), Dedupe(s);
      assert e == if y in p then d else d + [y];
      forall i, j | 0 <= i < j < |e| ensures FirstIndex(s, e[i]) < FirstIndex(s, e[j]) {
        FirstIndexAppend(p, y, e[i]);
        FirstIndexAppend(p, y, e[j]);
        if j < |d| {
          assert e[i] == d[i] && e[j] == d[j];
        } else {
          assert e[i] == d[i] && e[j] == y;
        }
      }
    }
  }

  /** SQL's `LIMIT limit OFFSET offset` over an ordered list: the entries
      from the offset on, at most `limit` of them. */
  function Window<T>(s: seq<T>, limit: nat, offset: nat): (r: seq<T>)
    ensures |r| == if offset >= |s| then 0 else if |s| - offset <= limit then |s| - offset else limit
    ensures var lo := if offset <= |s| then offset else |s|;
      r == s[lo..lo + |r|]
  {
    if offset >= |s| then []
    else s[offset..if |s| - offset <= limit then |s| else offset + limit]
  }

  /** Consecutive windows put together are the window that spans both. */
  lemma WindowsTile<T>(s: seq<T>, a: nat, b: nat, offset: nat)
    ensures Window(s, a, offset) + Window(s, b, offset + a) == Window(s, a + b, offset)
  {
    var p, q := Window(s, a, offset), Window(s, b, offset + a);
    if offset + a < |s| {
      assert s[offset..offset + a + |q|] == s[offset..offset + a] + s[offset + a..offset + a + |q|];
    }
  }

  /** PHP `round($a / $n)` computed exactly: the nearest integer, halves
      rounded away from zero. */
  function RoundDiv(a: int, n: int): (r: int)
    requires n > 0
    ensures a >= 0 ==> 2 * (a - r * n) < n && 2 * (r * n - a) <= n
    ensures a < 0 ==> 2 * (a - r * n) <= n && 2 * (r * n - a) < n
  {
    if a >= 0 then
      var q := (2 * a + n) / (2 * n);
      assert 2 * a + n == 2 * n * q + (2 * a + n) % (2 * n);
      q
    else
      var q := (-2 * a + n) / (2 * n);
      assert -2 * a + n == 2 * n * q + (-2 * a + n) % (2 * n);
      -q
  }

  /** `$results[$id] = f($id)` for every id of a list (bulk analysis and
      bulk optimisation): one entry per distinct id. */
  function KeyedResults<K, V>(ids: seq<K>, f: K -> V): (m: map<K, V>)
    ensures m.Keys == set k | k in ids
    ensures forall k :: k in m ==> m[k] == f(k)
  {
    map k | k in ids :: f(k)
  }
}
