/** Content quality of one post (`modules/analysis/class-content-analyzer.php`):
    word count, a sentence-length readability band and the ten densest long
    words. Tag stripping and word splitting are WordPress/PHP functions and
    are parameters here. */
module ContentAnalyzer {
  import opened Common
  import opened Text
  import opened Sorting
  import opened WordPress

  /** The characters `preg_split('/[.!?]+/')` splits sentences on. */
  const Terminators: set<char> := {'.', '!', '?'}

  /** The pieces between single terminators. Splitting on runs of terminators,
      as the source does, differs only by empty pieces, which are dropped
      before counting anyway. */
  function Pieces(s: string): (r: seq<string>)
    ensures |r| >= 1
    ensures forall i :: 0 <= i < |r| ==> forall j :: 0 <= j < |r[i]| ==> r[i][j] !in Terminators
  {
    if |s| == 0 then [""]
    else
      var rest := Pieces(s[1..]);
      if s[0] in Terminators then [""] + rest
      else [[s[0]] + rest[0]] + rest[1..]
  }

  /** `count(array_filter($sentences))`: pieces that are neither "" nor "0". */
  function CountFilled(ps: seq<string>): (r: nat)
    ensures r <= |ps|
  {
    if |ps| == 0 then 0 else (if PhpEmpty(ps[0]) then 0 else 1) + CountFilled(ps[1..])
  }

  function SentenceCount(text: string): nat {
    CountFilled(Pieces(text))
  }

  /** `calculate_readability($text)` given its word count: 0 without a
      sentence, otherwise 90, 70 or 50 as the average sentence length is at
      most 15, at most 20, or longer. The source divides; the model compares
      products, and the contract states the bands on the real average. */
  function Readability(text: string, words: nat): (r: int)
    ensures SentenceCount(text) == 0 ==> r == 0
    ensures SentenceCount(text) > 0 ==>
      var avg := words as real / SentenceCount(text) as real;
      (avg <= 15.0 ==> r == 90) && (15.0 < avg <= 20.0 ==> r == 70) && (avg > 20.0 ==> r == 50)
  {
    var n := SentenceCount(text);
    if n == 0 then 0
    else
      AverageBands(words, n);
      if words <= 15 * n then 90 else if words <= 20 * n then 70 else 50
  }

  lemma AverageBands(words: nat, n: nat)
    requires n > 0
    ensures words as real / n as real <= 15.0 <==> words <= 15 * n
    ensures words as real / n as real <= 20.0 <==> words <= 20 * n
  {
    var avg := words as real / n as real;
    assert avg * n as real == words as real;
  }

  /** A terminator closes a sentence: the sentences of `a` followed by a
      terminator and `b` are those of the terminator-free `a` and those of `b`. */
  lemma {:induction false} PiecesAfterTerminator(a: string, t: char, b: string)
    requires t in Terminators
    requires forall i :: 0 <= i < |a| ==> a[i] !in Terminators
    ensures Pieces(a + [t] + b) == [a] + Pieces(b)
    decreases |a|
  {
    if |a| == 0 {
      assert a + [t] + b == [t] + b;
      assert ([t] + b)[1..] == b;
    } else {
      assert (a + [t] + b)[1..] == a[1..] + [t] + b;
      PiecesAfterTerminator(a[1..], t, b);
      assert [a[0]] + a[1..] == a;
    }
  }

  /** A non-empty sentence ending in a terminator adds exactly one to the count. */
  lemma SentenceCountStep(a: string, t: char, b: string)
    requires t in Terminators && !PhpEmpty(a)
    requires forall i :: 0 <= i < |a| ==> a[i] !in Terminators
    ensures SentenceCount(a + [t] + b) == 1 + SentenceCount(b)
  {
    PiecesAfterTerminator(a, t, b);
    assert ([a] + Pieces(b))[1..] == Pieces(b);
  }

  /** More words over the same sentences never read as easier. */
  lemma ReadabilityMonotone(text: string, w1: nat, w2: nat)
    requires SentenceCount(text) > 0 && w1 <= w2
    ensures Readability(text, w1) >= Readability(text, w2)
  {
  }

  /** A word and how often it occurs, as `array_count_values` builds it. */
  type Tally = (string, nat)

  function TallyCount(t: Tally): int {
    t.1
  }

  /** `strlen($word) >= 4`; the model counts characters. */
  predicate LongWord(t: Tally) {
    |t.0| >= 4
  }

  /** `array_count_values($words)`: each distinct word, in first-seen order,
      with its number of occurrences. */
  function Tallies(ws: seq<string>): (r: seq<Tally>)
    ensures |r| <= |ws|
    ensures Distinct(r)
    ensures forall i :: 0 <= i < |r| ==> r[i].0 in ws && r[i].1 == multiset(ws)[r[i].0]
    ensures forall k :: 0 <= k < |ws| ==> (ws[k], multiset(ws)[ws[k]]) in r
  {
    var d := Dedupe(ws);
    var r := seq(|d|, i requires 0 <= i < |d| => (d[i], multiset(ws)[d[i]]));
    forall k | 0 <= k < |ws| ensures (ws[k], multiset(ws)[ws[k]]) in r {
      var i :| 0 <= i < |d| && d[i] == ws[k];
      assert r[i] == (ws[k], multiset(ws)[ws[k]]);
    }
    r
  }

  /** The long words, most frequent first, ties in first-seen order
      (the order PHP 8's stable `arsort` keeps). */
  function Ranked(ws: seq<string>): (r: seq<Tally>)
    ensures SortedDesc(r, TallyCount)
    ensures Distinct(r)
    ensures forall i :: 0 <= i < |r| ==> LongWord(r[i]) && r[i].0 in ws && r[i].1 == multiset(ws)[r[i].0]
    ensures forall k :: 0 <= k < |ws| && |ws[k]| >= 4 ==> (ws[k], multiset(ws)[ws[k]]) in r
  {
    var t := Tallies(ws);
    var s := SortDesc(t, TallyCount);
    PermutationDistinct(t, s);
    FilterSorted(s, LongWord, TallyCount);
    FilterDistinct(s, LongWord);
    var r := Filter(s, LongWord);
    forall i | 0 <= i < |r| ensures r[i].0 in ws && r[i].1 == multiset(ws)[r[i].0] {
      assert r[i] in multiset(s);
    }
    forall k | 0 <= k < |ws| && |ws[k]| >= 4 ensures (ws[k], multiset(ws)[ws[k]]) in r {
      var x := (ws[k], multiset(ws)[ws[k]]);
      assert x in multiset(t);
      FilterMember(s, LongWord, x);
    }
    r
  }

  /** The first ten ranked words (`$i >= 10` stops the table). */
  function TopTallies(ws: seq<string>): (r: seq<Tally>)
    ensures |r| <= 10 && |r| <= |Ranked(ws)|
    ensures r == Ranked(ws)[..|r|]
    ensures |r| < 10 ==> r == Ranked(ws)
  {
    var ranked := Ranked(ws);
    ranked[..if |ranked| <= 10 then |ranked| else 10]
  }

  /** An entry of `s` that is not among its first `n` comes after them. */
  lemma LaterThanPrefix<T>(s: seq<T>, n: nat, x: T) returns (p: nat)
    requires x in s && n <= |s| && x !in s[..n]
    ensures n <= p < |s| && s[p] == x
  {
    p :| 0 <= p < |s| && s[p] == x;
    assert forall i :: 0 <= i < n ==> s[..n][i] == s[i];
    assert p >= n;
  }

  /** A long word missing from the top ten is outranked by all ten. */
  lemma TopComplete(ws: seq<string>, k: int)
    requires 0 <= k < |ws| && |ws[k]| >= 4
    requires (ws[k], multiset(ws)[ws[k]]) !in TopTallies(ws)
    ensures |TopTallies(ws)| == 10
    ensures forall i :: 0 <= i < 10 ==> TopTallies(ws)[i].1 >= multiset(ws)[ws[k]]
  {
    var ranked := Ranked(ws);
    var top := TopTallies(ws);
    var p := LaterThanPrefix(ranked, |top|, (ws[k], multiset(ws)[ws[k]]));
    forall i | 0 <= i < 10 ensures top[i].1 >= multiset(ws)[ws[k]] {
      assert TallyCount(ranked[i]) >= TallyCount(ranked[p]);
    }
  }

  /** One entry of the density table; `hundredths` is the percentage
      rounded to two decimals, times 100. */
  datatype Density = Density(word: string, hundredths: int)

  function Densities(ts: seq<Tally>, total: nat): (r: seq<Density>)
    requires total > 0
    ensures |r| == |ts|
    ensures forall i :: 0 <= i < |r| ==> r[i].word == ts[i].0 && r[i].hundredths == RoundDiv(ts[i].1 * 10000, total)
  {
    seq(|ts|, i requires 0 <= i < |ts| => Density(ts[i].0, RoundDiv(ts[i].1 * 10000, total)))
  }

  /** `analyze_keyword_density($text)` over the words of the lower-cased text. */
  function KeywordDensity(ws: seq<string>): (r: seq<Density>)
    ensures |ws| == 0 ==> r == []
    ensures |ws| > 0 ==> |r| == |TopTallies(ws)| && forall i :: 0 <= i < |r| ==> r[i].word == TopTallies(ws)[i].0
    ensures |r| <= 10
    ensures forall i :: 0 <= i < |r| ==>
      |r[i].word| >= 4 && r[i].word in ws && r[i].hundredths == RoundDiv(multiset(ws)[r[i].word] * 10000, |ws|)
  {
    if |ws| == 0 then []
    else Densities(TopTallies(ws), |ws|)
  }

  /** The table lists distinct words, most frequent first. */
  lemma KeywordDensityOrder(ws: seq<string>)
    ensures forall i, j :: 0 <= i < j < |KeywordDensity(ws)| ==>
      KeywordDensity(ws)[i].word != KeywordDensity(ws)[j].word &&
      multiset(ws)[KeywordDensity(ws)[i].word] >= multiset(ws)[KeywordDensity(ws)[j].word]
  {
    var r, ranked := KeywordDensity(ws), Ranked(ws);
    forall i, j | 0 <= i < j < |r|
      ensures r[i].word != r[j].word && multiset(ws)[r[i].word] >= multiset(ws)[r[j].word]
    {
      assert r[i].word == ranked[i].0 && r[j].word == ranked[j].0;
      assert TallyCount(ranked[i]) >= TallyCount(ranked[j]);
    }
  }

  /** The table is the top ten: a long word that is not listed occurs no more
      often than any listed word, and the table is full. */
  lemma KeywordDensityTop(ws: seq<string>, k: int)
    requires 0 <= k < |ws| && |ws[k]| >= 4 && ws[k] !in Words(KeywordDensity(ws))
    ensures |KeywordDensity(ws)| == 10
    ensures forall i :: 0 <= i < 10 ==> multiset(ws)[KeywordDensity(ws)[i].word] >= multiset(ws)[ws[k]]
  {
    var r := KeywordDensity(ws);
    var top := TopTallies(ws);
    forall i | 0 <= i < |top| ensures top[i].0 != ws[k] {
      assert Words(r)[i] == top[i].0;
    }
    assert (ws[k], multiset(ws)[ws[k]]) !in top;
    TopComplete(ws, k);
    forall i | 0 <= i < 10 ensures multiset(ws)[r[i].word] >= multiset(ws)[ws[k]] {
      assert top[i] in Ranked(ws);
    }
  }

  function Words(r: seq<Density>): (w: seq<string>)
    ensures |w| == |r|
    ensures forall i :: 0 <= i < |r| ==> w[i] == r[i].word
  {
    seq(|r|, i requires 0 <= i < |r| => r[i].word)
  }

  /** The report `analyze_post` returns. */
  datatype ContentReport = ContentReport(
    wordCount: nat,
    isThin: bool,
    readability: int,
    keywordDensity: seq<Density>,
    hasImages: bool,
    hasLists: bool,
    hasHeadings: bool)

  /** `preg_match('/<h[2-6]/')`. */
  predicate HasSubheading(html: string) {
    exists d :: d in "23456" && Contains(html, "<h" + [d])
  }

  /** `analyze_post($post_id)`. `strip` is `wp_strip_all_tags` and `wordsOf`
      is `str_word_count(…, 1)`, whose length is `str_word_count`. */
  function AnalyzePost(site: Site, postId: int, strip: string -> string, wordsOf: string -> seq<string>): (r: Result<ContentReport>)
    ensures postId !in site.posts <==> r == Err(PostNotFound)
    ensures r.Ok? ==>
      var text := strip(site.posts[postId].content);
      r.value.wordCount == |wordsOf(text)| &&
      (r.value.isThin <==> |wordsOf(text)| < 300) &&
      r.value.readability == Readability(text, |wordsOf(text)|) &&
      r.value.keywordDensity == KeywordDensity(wordsOf(Lower(text)))
    ensures r.Ok? ==>
      var html := site.posts[postId].content;
      (r.value.hasImages <==> Contains(html, "<img")) &&
      (r.value.hasLists <==> Contains(html, "<ul") || Contains(html, "<ol")) &&
      (r.value.hasHeadings <==> HasSubheading(html))
  {
    match GetPost(site, postId)
    case None => Err(PostNotFound)
    case Some(post) =>
      var text := strip(post.content);
      var n := |wordsOf(text)|;
      Ok(ContentReport(n, n < 300, Readability(text, n), KeywordDensity(wordsOf(Lower(text))),
        Contains(post.content, "<img"), Contains(post.content, "<ul") || Contains(post.content, "<ol"),
        HasSubheading(post.content)))
  }
}
