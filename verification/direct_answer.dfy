/** Direct answers, tables of contents and summary boxes
    (`modules/intelligence/class-direct-answer-optimizer.php`): the retry
    rule for a generated answer, the "Quick Answer" box and where it goes,
    the table of contents built from the post's H2/H3 headings, and the
    key-takeaways box. The AI replies, `strip_tags`/`str_word_count`,
    `sanitize_title` and the heading regex are inputs. */
module DirectAnswer {
  import opened Common
  import opened Text
  import opened WordPress
  import AiAnalyzer

  // ---------------------------------------------------------------- generation

  /** A first reply outside 30..100 words is asked for again, once. */
  predicate NeedsRetry(words: nat) {
    words < 30 || words > 100
  }

  /** What `generate_direct_answer` returns, and how many AI calls it made. */
  datatype Generated = Generated(answer: Result<string>, calls: nat)

  /** `generate_direct_answer($post_id)`: `first` and `retry` are the two
      replies the AI would give; `wordCount` is `str_word_count(strip_tags(·))`.
      The answer is the last reply received, trimmed. A failed retry is not
      checked for: `trim` of the error object gives null under PHP 7.4, which
      every caller treats as the empty answer. */
  function GenerateDirectAnswer(site: Site, postId: int, first: Result<string>, retry: Result<string>,
                                wordCount: string -> nat): (r: Generated)
    ensures postId !in site.posts ==> r == Generated(Err(PostNotFound), 0)
    ensures postId in site.posts ==> 1 <= r.calls <= 2
    ensures r.calls == 2 <==> postId in site.posts && first.Ok? && NeedsRetry(wordCount(first.value))
    ensures r.calls == 1 ==> r.answer.Ok? == first.Ok? && (first.Ok? ==> r.answer.value == Trim(first.value))
    ensures r.calls == 2 ==> r.answer == Ok(if retry.Ok? then Trim(retry.value) else "")
    ensures r.answer.Ok? ==> TrimmedBy(r.answer.value, PhpTrimChars)
  {
    if postId !in site.posts then Generated(Err(PostNotFound), 0)
    else match first
      case Err(e) => Generated(Err(e), 1)
      case Ok(text) =>
        var last := if NeedsRetry(wordCount(text)) then retry else first;
        TrimByFacts(if last.Ok? then last.value else "", PhpTrimChars);
        var answer := if last.Ok? then Ok(Trim(last.value)) else Ok("");
        Generated(answer, if NeedsRetry(wordCount(text)) then 2 else 1)
  }

  /** A first reply of acceptable length is used as it is: what the AI would
      have said on a retry does not matter. */
  lemma RetryUnusedInRange(site: Site, postId: int, first: Result<string>, retry1: Result<string>,
                           retry2: Result<string>, wordCount: string -> nat)
    requires first.Err? || !NeedsRetry(wordCount(first.value))
    ensures GenerateDirectAnswer(site, postId, first, retry1, wordCount) ==
            GenerateDirectAnswer(site, postId, first, retry2, wordCount)
  {
  }

  /** After a retry the first reply's text is discarded: only its word
      count mattered. */
  lemma FirstDiscardedOnRetry(site: Site, postId: int, a: string, b: string, retry: Result<string>,
                              wordCount: string -> nat)
    requires NeedsRetry(wordCount(a)) && NeedsRetry(wordCount(b))
    ensures GenerateDirectAnswer(site, postId, Ok(a), retry, wordCount) ==
            GenerateDirectAnswer(site, postId, Ok(b), retry, wordCount)
  {
  }

  // ---------------------------------------------------------------- the answer box

  /** The class attribute that marks a direct-answer box. */
  const Marker := "class=\"sap-direct-answer\""
  const DivClose := "</div>"

  const StyleA := " style=\"background: #f0f7ff; "
  const StyleB := "border-left: 4px solid #0066cc; "
  const StyleC := "padding: 20px; margin-bottom: 30px;\">\n"
  const ParaA := "  <p style=\"margin: 0; font-size: 1.1em; "
  const ParaB := "line-height: 1.6;\">\n"
  const LabelA := "    <strong style=\"color: #0066cc;\">"
  const LabelB := "Quick Answer:</strong> "

  /** The box's opening tag up to its class attribute. */
  const BoxTagStart := "<div " + Marker

  /** The rest of the box's opening, up to the escaped answer. */
  const HeadTail := StyleA + StyleB + StyleC + ParaA + ParaB + LabelA + LabelB
  const BoxHead := BoxTagStart + HeadTail
  const BoxFoot := "\n  </p>\n" + DivClose

  /** `format_direct_answer($answer)`: the escaped answer behind a "Quick
      Answer:" label, inside a div carrying the marker class. */
  function FormatDirectAnswer(answer: string): (r: string)
    ensures StartsWith(r, BoxTagStart) && Contains(r, Marker)
    ensures EndsWith(r, DivClose)
    ensures |r| == |BoxHead| + |EscHtml(answer)| + |BoxFoot|
    ensures r[|BoxHead|..|r| - |BoxFoot|] == EscHtml(answer)
  {
    var r := BoxHead + EscHtml(answer) + BoxFoot;
    FramedParts(BoxHead, EscHtml(answer), BoxFoot);
    ConcatEnds(BoxTagStart, HeadTail);
    StartsWithTrans(r, BoxHead, BoxTagStart);
    ConcatEnds("\n  </p>\n", DivClose);
    EndsWithTrans(r, BoxFoot, DivClose);
    ContainsMiddle("<div ", Marker, HeadTail);
    ContainsPrefix(r, BoxHead, Marker);
    r
  }

  /** The box gives its answer back: different answers make different boxes. */
  lemma BoxDeterminesAnswer(a: string, b: string)
    requires FormatDirectAnswer(a) == FormatDirectAnswer(b)
    ensures a == b
  {
    var r := FormatDirectAnswer(a);
    assert EscHtml(a) == r[|BoxHead|..|r| - |BoxFoot|] == EscHtml(b);
    EscHtmlInjective(a, b);
  }

  /** Neither "v>" nor "<d" occurs in a text: the two character pairs that
      locate a box's closing `</div>` and its opening `<div`. */
  predicate Clean(s: string) {
    NoPair(s, 'v', '>') && NoPair(s, '<', 'd')
  }

  lemma CleanConcat(x: string, y: string)
    requires Clean(x) && Clean(y)
    requires |x| > 0 && |y| > 0
    requires (x[|x| - 1] != 'v' || y[0] != '>') && (x[|x| - 1] != '<' || y[0] != 'd')
    ensures Clean(x + y) && (x + y)[0] == x[0] && (x + y)[|x + y| - 1] == y[|y| - 1]
  {
    NoPairConcat(x, y, 'v', '>');
    NoPairConcat(x, y, '<', 'd');
  }

  const Tail1 := StyleA + StyleB + StyleC
  const Tail2 := Tail1 + ParaA + ParaB

  // One lemma per markup piece keeps each literal's check separate.

  lemma StyleAClean()
    ensures Clean(StyleA)
  {
  }

  lemma StyleBClean()
    ensures Clean(StyleB)
  {
  }

  lemma StyleCClean()
    ensures Clean(StyleC)
  {
  }

  lemma ParaAClean()
    ensures Clean(ParaA)
  {
  }

  lemma ParaBClean()
    ensures Clean(ParaB)
  {
  }

  lemma LabelAClean()
    ensures Clean(LabelA)
  {
  }

  lemma LabelBClean()
    ensures Clean(LabelB)
  {
  }

  lemma Tail1Clean()
    ensures Clean(Tail1) && |Tail1| > 0 && Tail1[0] == ' ' && Tail1[|Tail1| - 1] == '\n'
  {
    StyleAClean();
    StyleBClean();
    StyleCClean();
    CleanConcat(StyleA, StyleB);
    CleanConcat(StyleA + StyleB, StyleC);
  }

  lemma Tail2Clean()
    ensures Clean(Tail2) && |Tail2| > 0 && Tail2[0] == ' ' && Tail2[|Tail2| - 1] == '\n'
  {
    Tail1Clean();
    ParaAClean();
    ParaBClean();
    CleanConcat(Tail1, ParaA);
    CleanConcat(Tail1 + ParaA, ParaB);
  }

  lemma HeadTailClean()
    ensures Clean(HeadTail) && |HeadTail| > 0 && HeadTail[0] == ' ' && HeadTail[|HeadTail| - 1] == ' '
  {
    Tail2Clean();
    LabelAClean();
    LabelBClean();
    CleanConcat(Tail2, LabelA);
    CleanConcat(Tail2 + LabelA, LabelB);
    assert HeadTail == Tail2 + LabelA + LabelB;
  }

  /** The box after its leading "<d", up to its closing tags. */
  function BoxMiddle(answer: string): string {
    "iv " + Marker + (HeadTail + EscHtml(answer))
  }

  lemma OpenClean()
    ensures var open := "iv " + Marker;
      Clean(open) && |open| > 0 && open[0] == 'i' && open[|open| - 1] == '"'
  {
  }

  lemma BoxMiddleClean(answer: string)
    ensures var m := BoxMiddle(answer);
      Clean(m) && |m| > 0 && m[0] == 'i'
  {
    var e := EscHtml(answer);
    var open := "iv " + Marker;
    OpenClean();
    HeadTailClean();
    assert Clean(e);
    if |e| > 0 {
      CleanConcat(HeadTail, e);
    } else {
      assert HeadTail + e == HeadTail;
    }
    CleanConcat(open, HeadTail + e);
  }

  lemma BoxSplit(answer: string)
    ensures FormatDirectAnswer(answer) == "<d" + BoxMiddle(answer) + BoxFoot
  {
    var e := EscHtml(answer);
    var open := "iv " + Marker;
    assert "<div " == "<d" + "iv ";
    Assoc("<d", "iv ", Marker);
    assert BoxTagStart == "<d" + open;
    Assoc("<d", open, HeadTail);
    Assoc("<d" + open, HeadTail, e);
    Assoc("<d", open + HeadTail, e);
    Assoc(open, HeadTail, e);
    assert BoxHead + e == "<d" + BoxMiddle(answer);
  }

  /** The closing tags hold "v>" only at their end and no "<d". */
  lemma FootPairs()
    ensures ClosesOnlyAtEnd(BoxFoot)
    ensures NoPair(BoxFoot, '<', 'd') && BoxFoot[0] == '\n'
  {
  }

  /** "v>" occurs in `b` only as the end of its final `</div>`. */
  predicate ClosesOnlyAtEnd(b: string) {
    forall i :: 0 <= i < |b| - 1 && b[i] == 'v' && b[i + 1] == '>' ==> i == |b| - 2
  }

  /** "<d" occurs in `b` only as the start of its opening `<div`. */
  predicate OpensOnlyAtStart(b: string) {
    forall i :: 0 <= i < |b| - 1 && b[i] == '<' && b[i + 1] == 'd' ==> i == 0
  }

  /** In a box, "v>" occurs only in its final `</div>` and "<d" only in its
      opening `<div`. */
  lemma BoxPairs(answer: string)
    ensures ClosesOnlyAtEnd(FormatDirectAnswer(answer))
    ensures OpensOnlyAtStart(FormatDirectAnswer(answer))
  {
    BoxMiddleClean(answer);
    BoxSplit(answer);
    FootPairs();
    FramedCloses(BoxMiddle(answer), BoxFoot);
    FramedOpens(BoxMiddle(answer), BoxFoot);
  }

  lemma FramedCloses(m: string, f: string)
    requires Clean(m) && |m| > 0 && m[0] == 'i'
    requires |f| >= 2 && f[0] == '\n' && ClosesOnlyAtEnd(f)
    ensures ClosesOnlyAtEnd("<d" + m + f)
  {
    var b := "<d" + m + f;
    forall i | 0 <= i < |b| - 1 && b[i] == 'v' && b[i + 1] == '>'
      ensures i == |b| - 2
    {
      if i >= 2 + |m| {
        assert f[i - 2 - |m|] == 'v' && f[i - 1 - |m|] == '>';
      }
    }
  }

  lemma FramedOpens(m: string, f: string)
    requires Clean(m) && |m| > 0 && m[0] == 'i'
    requires |f| >= 2 && f[0] == '\n' && NoPair(f, '<', 'd')
    ensures OpensOnlyAtStart("<d" + m + f)
  {
  }

  // ---------------------------------------------------------------- inserting the box

  /** The opening of a match for the replacement pattern: `Exact` is the
      pattern as written (`<div class="sap-direct-answer">`, attribute list
      closed right after the class), `WithAttributes` also allows the
      attributes the box carries (`<div class="sap-direct-answer"[^>]*>`). */
  datatype BoxPattern = Exact | WithAttributes

  const ExactOpen := BoxTagStart + ">"

  /** Where the opening tag of a match starting at the front of `s` ends, or
      -1 when none starts there. */
  function OpenTagEnd(s: string, pat: BoxPattern): (r: int)
    ensures r == -1 || (0 < r <= |s| && StartsWith(s, BoxTagStart))
  {
    match pat
    case Exact => if StartsWith(s, ExactOpen) then |ExactOpen| else -1
    case WithAttributes =>
      if !StartsWith(s, BoxTagStart) then -1
      else
        var g := IndexFrom(s, ">", |BoxTagStart|);
        if g == -1 then -1 else g + 1
  }

  /** `preg_replace('/<open>.*?<\/div>/s', $html, $s)`: every match, left to
      right, runs from an opening tag to the first `</div>` after it. */
  function ReplaceBoxes(s: string, html: string, pat: BoxPattern): (r: string)
    decreases |s|
  {
    if |s| == 0 then s
    else
      var e := OpenTagEnd(s, pat);
      var k := if e == -1 then -1 else IndexFrom(s, DivClose, e);
      if k >= 0 then html + ReplaceBoxes(s[k + |DivClose|..], html, pat)
      else [s[0]] + ReplaceBoxes(s[1..], html, pat)
  }

  /** Text with no box opening is left alone. */
  lemma {:induction false} NoBoxUnchanged(s: string, html: string, pat: BoxPattern)
    requires !Contains(s, BoxTagStart)
    ensures ReplaceBoxes(s, html, pat) == s
    decreases |s|
  {
    if |s| > 0 {
      assert !OccursAt(s, BoxTagStart, 0);
      NotContainedTail(s, BoxTagStart);
      NoBoxUnchanged(s[1..], html, pat);
      assert s == [s[0]] + s[1..];
    }
  }

  /** The box goes first on a post without one, and replaces the existing
      one otherwise. */
  function WithBox(content: string, html: string, pat: BoxPattern): (r: string)
    ensures !Contains(content, Marker) ==> r == html + "\n\n" + content
  {
    if Contains(content, Marker) then ReplaceBoxes(content, html, pat)
    else html + "\n\n" + content
  }

  /** `insert_direct_answer($post_id, $answer)`: false for a missing post,
      otherwise whether the write succeeded. */
  function InsertDirectAnswer(site: Site, postId: int, answer: string, w: WriteOutcome): (r: (bool, Site))
    ensures r.0 <==> postId in site.posts && w.Stored?
    ensures !r.0 ==> r.1 == site
    ensures r.0 ==>
      GetPost(r.1, postId) ==
      Some(site.posts[postId].(content := WithBox(site.posts[postId].content, FormatDirectAnswer(answer), Exact)))
    ensures forall i :: i != postId ==> GetPost(r.1, i) == GetPost(site, i)
  {
    match GetPost(site, postId)
    case None => (false, site)
    case Some(post) =>
      (w.Stored?, UpdateContent(site, postId, WithBox(post.content, FormatDirectAnswer(answer), Exact), w))
  }

  lemma MarkerInTags(s: string)
    ensures Contains(s, BoxTagStart) ==> Contains(s, Marker)
    ensures Contains(s, ExactOpen) ==> Contains(s, Marker)
  {
    assert BoxTagStart == "<div " + Marker + "";
    assert ExactOpen == "<div " + Marker + ">";
    if Contains(s, BoxTagStart) {
      ContainsPart(s, "<div ", Marker, "");
    }
    if Contains(s, ExactOpen) {
      ContainsPart(s, "<div ", Marker, ">");
    }
  }

  /** What the placement lemmas need to know of a box: how it opens, that a
      space follows the class attribute, that it closes with `</div>`, and
      that "v>" and "<d" occur in it only there. */
  predicate BoxShaped(b: string) {
    StartsWith(b, BoxTagStart) && |b| > |BoxTagStart| + |BoxFoot| && b[|BoxTagStart|] == ' ' &&
    EndsWith(b, BoxFoot) && ClosesOnlyAtEnd(b) && OpensOnlyAtStart(b)
  }

  lemma FormattedBoxShaped(answer: string)
    ensures BoxShaped(FormatDirectAnswer(answer))
  {
    BoxPairs(answer);
    BoxSpace(answer);
    BoxEndsWithFoot(answer);
  }

  lemma BoxSpace(answer: string)
    ensures FormatDirectAnswer(answer)[|BoxTagStart|] == ' '
  {
    var b := FormatDirectAnswer(answer);
    FramedParts(BoxHead, EscHtml(answer), BoxFoot);
    ConcatEnds(BoxTagStart, HeadTail);
    HeadTailClean();
    assert b[|BoxTagStart|] == b[..|BoxHead|][|BoxTagStart|] == BoxHead[|BoxTagStart|];
    assert BoxHead[|BoxTagStart|] == BoxHead[|BoxTagStart|..][0] == HeadTail[0];
  }

  lemma BoxEndsWithFoot(answer: string)
    ensures EndsWith(FormatDirectAnswer(answer), BoxFoot)
  {
    FramedParts(BoxHead, EscHtml(answer), BoxFoot);
  }

  /** A post that starts with a box holds the marker. */
  lemma BoxedHasMarker(b: string, c: string)
    requires BoxShaped(b)
    ensures Contains(b + "\n\n" + c, Marker)
  {
    var s := b + "\n\n" + c;
    assert s[5..5 + |Marker|] == b[5..5 + |Marker|] == BoxTagStart[5..];
    OccursContains(s, Marker, 5);
  }

  /** Two newlines in front of a text add no tag opening. */
  lemma NewlinesAddNoOpening(c: string, p: string)
    requires |p| > 0 && p[0] == '<' && !Contains(c, p)
    ensures !Contains("\n\n" + c, p)
  {
    ContainsCons('\n', c, p);
    ContainsCons('\n', "\n" + c, p);
    assert "\n\n" + c == ['\n'] + (['\n'] + c);
  }

  /** An exact opening tag in a post that starts with a box lies past the
      box and the two newlines after it. */
  lemma ExactOpenPastBox(b: string, c: string, i: nat)
    requires BoxShaped(b) && OccursAt(b + "\n\n" + c, ExactOpen, i)
    ensures i >= |b| + 2
  {
    var s := b + "\n\n" + c;
    assert s[i..i + |ExactOpen|] == ExactOpen;
    assert s[i] == '<' && s[i + 1] == 'd' && s[i + |BoxTagStart|] == '>';
    assert b[|b| - |BoxFoot|..] == BoxFoot;
  }

  /** The exact opening tag never occurs in a post that starts with a box,
      unless the rest of the post has one. */
  lemma ExactNotAfterBox(b: string, c: string)
    requires BoxShaped(b) && !Contains(c, ExactOpen)
    ensures !Contains(b + "\n\n" + c, ExactOpen)
  {
    var s := b + "\n\n" + c;
    NewlinesAddNoOpening(c, ExactOpen);
    if Contains(s, ExactOpen) {
      var i := IndexOf(s, ExactOpen);
      ExactOpenPastBox(b, c, i);
      assert s[i..i + |ExactOpen|] == ("\n\n" + c)[i - |b|..i - |b| + |ExactOpen|];
      OccursContains("\n\n" + c, ExactOpen, i - |b|);
    }
  }

  lemma {:induction false} ExactNoMatch(s: string, html: string)
    requires !Contains(s, ExactOpen)
    ensures ReplaceBoxes(s, html, Exact) == s
    decreases |s|
  {
    if |s| > 0 {
      assert !OccursAt(s, ExactOpen, 0);
      NotContainedTail(s, ExactOpen);
      ExactNoMatch(s[1..], html);
      assert s == [s[0]] + s[1..];
    }
  }

  /** As written, the replacement pattern never matches a box this plugin
      made, because the box carries a style attribute after its class: a
      post that already has a box keeps it and its old answer. */
  lemma ReinsertKeepsOldAnswer(prev: string, answer: string, c: string)
    requires !Contains(c, Marker)
    ensures WithBox(FormatDirectAnswer(prev) + "\n\n" + c, FormatDirectAnswer(answer), Exact) ==
            FormatDirectAnswer(prev) + "\n\n" + c
  {
    var b := FormatDirectAnswer(prev);
    FormattedBoxShaped(prev);
    BoxedHasMarker(b, c);
    MarkerInTags(c);
    ExactNotAfterBox(b, c);
    ExactNoMatch(b + "\n\n" + c, FormatDirectAnswer(answer));
  }

  /** So a second `insert_direct_answer` on a post whose box this plugin
      wrote reports success and leaves the post as the first one wrote it. */
  lemma SecondInsertKeepsFirst(site: Site, postId: int, a: string, b: string, w: WriteOutcome)
    requires postId in site.posts && !Contains(site.posts[postId].content, Marker) && w.Stored?
    ensures var s1 := InsertDirectAnswer(site, postId, a, w).1;
      InsertDirectAnswer(s1, postId, b, w) == (true, s1)
  {
    var c := site.posts[postId].content;
    var s1 := InsertDirectAnswer(site, postId, a, w).1;
    ReinsertKeepsOldAnswer(a, b, c);
    assert s1.posts[postId] == site.posts[postId].(content := FormatDirectAnswer(a) + "\n\n" + c);
    assert s1.posts[postId := s1.posts[postId]] == s1.posts;
  }

  /** With the attributes allowed, inserting again replaces the box: the
      post ends up with the new answer and the rest of its content. */
  lemma ReinsertReplacesAnswer(prev: string, html: string, c: string)
    requires !Contains(c, Marker)
    ensures WithBox(FormatDirectAnswer(prev) + "\n\n" + c, html, WithAttributes) == html + "\n\n" + c
  {
    var b := FormatDirectAnswer(prev);
    FormattedBoxShaped(prev);
    BoxedHasMarker(b, c);
    MarkerInTags(c);
    ReplaceFirstBox(b, html, c);
  }

  lemma ReplaceFirstBox(b: string, html: string, c: string)
    requires BoxShaped(b) && !Contains(c, BoxTagStart)
    ensures ReplaceBoxes(b + "\n\n" + c, html, WithAttributes) == html + "\n\n" + c
  {
    var s := b + "\n\n" + c;
    BoxEnd(b, c);
    var k := IndexFrom(s, DivClose, OpenTagEnd(s, WithAttributes));
    assert k + |DivClose| == |b|;
    ConcatEnds(b, "\n\n" + c);
    Assoc(b, "\n\n", c);
    assert s[k + |DivClose|..] == "\n\n" + c;
    NewlinesAddNoOpening(c, BoxTagStart);
    NoBoxUnchanged("\n\n" + c, html, WithAttributes);
    assert ReplaceBoxes(s, html, WithAttributes) == html + ("\n\n" + c);
    Assoc(html, "\n\n", c);
  }

  /** The first match in a post that starts with a box ends with that box. */
  lemma BoxEnd(b: string, c: string)
    requires BoxShaped(b)
    ensures var s := b + "\n\n" + c;
      var e := OpenTagEnd(s, WithAttributes);
      e != -1 && IndexFrom(s, DivClose, e) == |b| - |DivClose|
  {
    var s := b + "\n\n" + c;
    assert StartsWith(s, BoxTagStart) by {
      assert s[..|BoxTagStart|] == b[..|BoxTagStart|];
    }
    var g := IndexFrom(s, ">", |BoxTagStart|);
    var p := |b| - |BoxFoot| + 6;
    assert b[|b| - |BoxFoot|..] == BoxFoot;
    assert s[p] == b[p] == BoxFoot[6] == '>';
    assert s[p..p + 1] == ">";
    assert OccursAt(s, ">", p);
    assert g != -1 && g <= p;
    FootEndsBox(b);
    LastClosing(b, c, g + 1);
  }

  lemma FootEndsBox(b: string)
    requires |b| >= |BoxFoot| && EndsWith(b, BoxFoot)
    ensures EndsWith(b, DivClose)
  {
    assert b[|b| - |DivClose|..] == BoxFoot[|BoxFoot| - |DivClose|..];
  }

  /** Every `</div>` of a post that starts with a box, from offset `from`
      up to the box's end, is the box's own. */
  lemma LastClosing(b: string, c: string, from: nat)
    requires |b| >= |DivClose| && EndsWith(b, DivClose) && ClosesOnlyAtEnd(b)
    requires from <= |b| - |DivClose|
    ensures IndexFrom(b + "\n\n" + c, DivClose, from) == |b| - |DivClose|
  {
    var s := b + "\n\n" + c;
    var k := |b| - |DivClose|;
    assert s[k..k + |DivClose|] == b[k..];
    assert OccursAt(s, DivClose, k);
    var r := IndexFrom(s, DivClose, from);
    assert r != -1 && r <= k;
    DivCloseChars(s, r);
    assert r + 5 < |b| && b[r + 4] == s[r + 4] && b[r + 5] == s[r + 5];
  }

  /** An occurrence of `</div>` has "v>" at its fifth and sixth characters. */
  lemma DivCloseChars(s: string, r: int)
    requires OccursAt(s, DivClose, r)
    ensures r + 5 < |s| && s[r + 4] == 'v' && s[r + 5] == '>'
  {
    assert s[r..r + 6][4] == s[r + 4] && s[r..r + 6][5] == s[r + 5];
  }

  // ---------------------------------------------------------------- table of contents

  /** One match of `/<h([23])[^>]*>(.*?)<\/h\1>/i`: the level digit, the
      inner markup and the whole tag. */
  datatype Heading = Heading(level: char, inner: string, whole: string)

  /** `strip_tags` and `sanitize_title`. */
  datatype TocTools = TocTools(stripTags: string -> string, sanitize: string -> string)

  /** A table-of-contents line: H3 entries are indented. */
  datatype TocEntry = TocEntry(indented: bool, anchor: string, text: string)

  function Entry(h: Heading, t: TocTools): TocEntry {
    var text := t.stripTags(h.inner);
    TocEntry(h.level == '3', t.sanitize(text), text)
  }

  /** One entry per heading, in document order. */
  function TocEntries(hs: seq<Heading>, t: TocTools): (r: seq<TocEntry>)
    ensures |r| == |hs|
    ensures forall i :: 0 <= i < |hs| ==>
      (r[i].indented <==> hs[i].level == '3') &&
      r[i].text == t.stripTags(hs[i].inner) && r[i].anchor == t.sanitize(r[i].text)
  {
    seq(|hs|, i requires 0 <= i < |hs| => Entry(hs[i], t))
  }

  /** The heading rewritten with an id the entry links to. */
  function AnchoredHeading(h: Heading, t: TocTools): string {
    "<h" + [h.level] + " id=\"" + Entry(h, t).anchor + "\">" + h.inner + "</h" + [h.level] + ">"
  }

  /** Each heading's tag replaced, everywhere, by its anchored form, one
      heading after another. */
  function AddAnchors(content: string, hs: seq<Heading>, t: TocTools): string
    decreases |hs|
  {
    if |hs| == 0 then content
    else AddAnchors(ReplaceAll(content, hs[0].whole, AnchoredHeading(hs[0], t)), hs[1..], t)
  }

  /** Anchoring is done heading by heading: the headings of a list in two
      parts are anchored part after part. */
  lemma {:induction false} AddAnchorsAppend(content: string, a: seq<Heading>, b: seq<Heading>, t: TocTools)
    ensures AddAnchors(content, a + b, t) == AddAnchors(AddAnchors(content, a, t), b, t)
    decreases |a|
  {
    if |a| == 0 {
      assert a + b == b;
    } else {
      assert (a + b)[0] == a[0];
      assert (a + b)[1..] == a[1..] + b;
      AddAnchorsAppend(ReplaceAll(content, a[0].whole, AnchoredHeading(a[0], t)), a[1..], b, t);
    }
  }

  const Indent := "margin-left: 20px;"
  const TocOpen := "<div class=\"sap-table-of-contents\" style=\"background: #f9f9f9; padding: 20px; margin: 20px 0; border-radius: 5px;\">\n  <h2 style=\"margin-top: 0;\">Table of Contents</h2>\n  <ul style=\"list-style: none; padding-left: 0;\">\n"
  const TocClose := "  </ul>\n</div>"
  const EntryA := "    <li style=\""
  const EntryB := " margin-bottom: 8px;\"><a href=\"#"
  const EntryC := "\" style=\"text-decoration: none; color: #0066cc;\">"
  const EntryD := "</a></li>\n"

  function EntryHtml(e: TocEntry): string {
    EntryA + (if e.indented then Indent else "") + EntryB + e.anchor + EntryC + EscHtml(e.text) + EntryD
  }

  function EntryLines(es: seq<TocEntry>): (r: seq<string>)
    ensures |r| == |es|
    ensures forall i :: 0 <= i < |es| ==> r[i] == EntryHtml(es[i])
  {
    seq(|es|, i requires 0 <= i < |es| => EntryHtml(es[i]))
  }

  function TocHtml(es: seq<TocEntry>): string {
    TocOpen + Concat(EntryLines(es)) + TocClose
  }

  /** The list grows line by line: a table for more entries is the table
      for fewer with their lines added at the end of the list. */
  lemma TocAppend(a: seq<TocEntry>, b: seq<TocEntry>)
    ensures TocHtml(a + b) == TocOpen + Concat(EntryLines(a)) + Concat(EntryLines(b)) + TocClose
  {
    var la, lb := EntryLines(a), EntryLines(b);
    forall i | 0 <= i < |a + b| ensures EntryLines(a + b)[i] == (la + lb)[i] {
      if i < |a| {
        assert (a + b)[i] == a[i];
      } else {
        assert (a + b)[i] == b[i - |a|];
      }
    }
    assert EntryLines(a + b) == la + lb;
    ConcatAppend(la, lb);
    Assoc(TocOpen, Concat(la), Concat(lb));
  }

  /** The comment the placement looks for when a box is present. */
  const TocAnchor := DivClose + "<!-- .sap-direct-answer -->"
  const ParaClose := "</p>"

  /** Where the table goes as written: after the first "</p>", or, on a post
      with a box, after the first `</div><!-- .sap-direct-answer -->`. */
  function PlaceToc(content: string, toc: string): (r: string)
    ensures !Contains(content, Marker) ==> r == InsertAfterFirst(content, ParaClose, "\n\n" + toc)
    ensures Contains(content, Marker) && !Contains(content, TocAnchor) ==> r == content
  {
    if Contains(content, Marker) then InsertAfterFirst(content, TocAnchor, "\n\n" + toc)
    else InsertAfterFirst(content, ParaClose, "\n\n" + toc)
  }

  /** A `</div><!--` anchor in a post that starts with a box lies past the
      box and the two newlines after it: the box's own `</div>` is followed
      by a newline. */
  lemma AnchorPastBox(b: string, c: string, i: nat)
    requires BoxShaped(b) && OccursAt(b + "\n\n" + c, TocAnchor, i)
    ensures i >= |b| + 2
  {
    var s := b + "\n\n" + c;
    assert TocAnchor[0] == '<' && TocAnchor[4] == 'v' && TocAnchor[5] == '>' && TocAnchor[6] == '<';
    assert s[i..i + |TocAnchor|] == TocAnchor;
    assert s[i] == '<' && s[i + 4] == 'v' && s[i + 5] == '>' && s[i + 6] == '<';
    assert b[|b| - |BoxFoot|..] == BoxFoot;
  }

  /** The box never ends in the comment the placement looks for, so on a
      post that starts with a box the table is dropped. */
  lemma TocDroppedAfterBox(b: string, rest: string, toc: string)
    requires BoxShaped(b) && !Contains(rest, TocAnchor)
    ensures PlaceToc(b + "\n\n" + rest, toc) == b + "\n\n" + rest
  {
    var s := b + "\n\n" + rest;
    BoxedHasMarker(b, rest);
    NewlinesAddNoOpening(rest, TocAnchor);
    if Contains(s, TocAnchor) {
      var i := IndexOf(s, TocAnchor);
      AnchorPastBox(b, rest, i);
      Assoc(b, "\n\n", rest);
      OccursInSuffix(b, "\n\n" + rest, TocAnchor, i);
      OccursContains("\n\n" + rest, TocAnchor, i - |b|);
    }
  }

  /** So a post whose box this plugin made loses its table. */
  lemma TocDroppedAfterFormattedBox(answer: string, rest: string, toc: string)
    requires !Contains(rest, TocAnchor)
    ensures var s := FormatDirectAnswer(answer) + "\n\n" + rest;
      PlaceToc(s, toc) == s
  {
    FormattedBoxShaped(answer);
    TocDroppedAfterBox(FormatDirectAnswer(answer), rest, toc);
  }

  /** Where the table evidently should go on a post with a box: right after
      the box, that is after the first `</div>` following the marker. */
  function PlaceTocAfterBox(content: string, toc: string): (r: string)
    ensures !Contains(content, Marker) ==> r == InsertAfterFirst(content, ParaClose, "\n\n" + toc)
  {
    if Contains(content, Marker) then
      var m := IndexOf(content, Marker);
      var k := IndexFrom(content, DivClose, m);
      if k == -1 then content
      else content[..k + |DivClose|] + "\n\n" + toc + content[k + |DivClose|..]
    else InsertAfterFirst(content, ParaClose, "\n\n" + toc)
  }

  /** On a post that starts with a box the table follows the box. */
  lemma TocFollowsBox(answer: string, rest: string, toc: string)
    ensures var b := FormatDirectAnswer(answer);
      PlaceTocAfterBox(b + "\n\n" + rest, toc) == b + "\n\n" + toc + "\n\n" + rest
  {
    var b := FormatDirectAnswer(answer);
    var s := b + "\n\n" + rest;
    Assoc(b, "\n\n", rest);
    ConcatEnds(b, "\n\n" + rest);
    StartsWithTrans(s, b, BoxTagStart);
    ConcatEnds("<div ", Marker);
    assert OccursAt(s, Marker, 5) by {
      assert s[5..5 + |Marker|] == s[..|BoxTagStart|][5..] == BoxTagStart[5..];
    }
    OccursContains(s, Marker, 5);
    var m := IndexOf(s, Marker);
    assert m <= 5;
    BoxPairs(answer);
    LastClosing(b, rest, m);
    var k := IndexFrom(s, DivClose, m);
    assert k + |DivClose| == |b|;
    assert PlaceTocAfterBox(s, toc) == b + "\n\n" + toc + ("\n\n" + rest);
    Assoc(b + "\n\n" + toc, "\n\n", rest);
  }

  /** `generate_table_of_contents($post_id)`: no_headings without H2/H3;
      otherwise every heading gets its anchor, the table lists one entry per
      heading, and the result is whether the write succeeded. */
  function GenerateTableOfContents(site: Site, postId: int, hs: seq<Heading>, t: TocTools, w: WriteOutcome): (r: Result<(bool, Site)>)
    ensures postId !in site.posts ==> r == Err(PostNotFound)
    ensures postId in site.posts ==> (r == Err(NoHeadings) <==> |hs| == 0)
    ensures r.Ok? ==> (r.value.0 <==> w.Stored?) && (!r.value.0 ==> r.value.1 == site)
    ensures r.Ok? && w.Stored? ==> GetPost(r.value.1, postId) == Some(site.posts[postId].(content :=
      PlaceToc(AddAnchors(site.posts[postId].content, hs, t), TocHtml(TocEntries(hs, t)))))
    ensures r.Ok? ==> forall i :: i != postId ==> GetPost(r.value.1, i) == GetPost(site, i)
  {
    match GetPost(site, postId)
    case None => Err(PostNotFound)
    case Some(post) =>
      if |hs| == 0 then Err(NoHeadings)
      else
        var content := PlaceToc(AddAnchors(post.content, hs, t), TocHtml(TocEntries(hs, t)));
        Ok((w.Stored?, UpdateContent(site, postId, content, w)))
  }

  // ---------------------------------------------------------------- summary box

  const SummaryOpen := "<div class=\"sap-summary-box\" style=\"background: #fff3cd; border: 2px solid #ffc107; padding: 20px; margin: 20px 0; border-radius: 5px;\">\n  <h3 style=\"margin-top: 0; color: #856404;\">Key Takeaways</h3>\n  <ul>\n"
  const SummaryClose := "  </ul>\n</div>"

  function PointLine(p: string): string {
    "    <li>" + EscHtml(p) + "</li>\n"
  }

  function PointLines(ps: seq<string>): (r: seq<string>)
    ensures |r| == |ps|
    ensures forall i :: 0 <= i < |ps| ==> r[i] == PointLine(ps[i])
  {
    seq(|ps|, i requires 0 <= i < |ps| => PointLine(ps[i]))
  }

  function SummaryHtml(ps: seq<string>): string {
    SummaryOpen + Concat(PointLines(ps)) + SummaryClose
  }

  /** One list item per point, in order: the box for more points is the box
      for fewer with their items added at the end of the list. */
  lemma SummaryAppend(a: seq<string>, b: seq<string>)
    ensures SummaryHtml(a + b) == SummaryOpen + Concat(PointLines(a)) + Concat(PointLines(b)) + SummaryClose
  {
    assert PointLines(a + b) == PointLines(a) + PointLines(b);
    ConcatAppend(PointLines(a), PointLines(b));
    Regroup(SummaryOpen, Concat(PointLines(a)), Concat(PointLines(b)), SummaryClose);
  }

  datatype Summary = Summary(html: string, points: seq<string>)

  /** `generate_summary_box($post_id)`: `decode` is `json_decode` to a list
      of strings. */
  function GenerateSummaryBox(site: Site, postId: int, reply: Result<string>, decode: string -> Option<seq<string>>): (r: Result<Summary>)
    ensures postId !in site.posts ==> r == Err(PostNotFound)
    ensures postId in site.posts && reply.Err? ==> r == Err(reply.error)
    ensures postId in site.posts && reply.Ok? && decode(AiAnalyzer.JsonCandidate(reply.value)).None? ==> r == Err(JsonDecodeError)
    ensures r.Ok? ==>
      reply.Ok? && decode(AiAnalyzer.JsonCandidate(reply.value)) == Some(r.value.points) &&
      r.value.html == SummaryHtml(r.value.points)
  {
    if postId !in site.posts then Err(PostNotFound)
    else
      var points :- AiAnalyzer.ExtractJson(reply, decode);
      Ok(Summary(SummaryHtml(points), points))
  }
}
