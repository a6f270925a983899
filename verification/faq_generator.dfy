/** FAQ sections (`modules/intelligence/class-faq-generator.php`): the
    plain-text question/answer parser used when the AI's reply is not JSON,
    the HTML and FAQPage schema built from the pairs, and the placement of
    the section in a post. `wpautop`, `strip_tags` and `json_encode` are
    parameters. */
module FaqGenerator {
  import opened Common
  import opened Text
  import opened WordPress
  import opened AiAnalyzer
  import Settings
  import opened Sorting

  datatype Pair = Pair(question: string, answer: string)

  // ---------------------------------------------------------------- plain-text parser

  /** How many digits `s` starts with. */
  function DigitRun(s: string): (r: nat)
    ensures r <= |s|
    ensures forall i :: 0 <= i < r ==> Settings.IsDigit(s[i])
    ensures r < |s| ==> !Settings.IsDigit(s[r])
  {
    if |s| > 0 && Settings.IsDigit(s[0]) then 1 + DigitRun(s[1..]) else 0
  }

  /** The length of a leading `\d+\.`, or 0 when there is none. */
  function NumberedPrefix(line: string): (r: nat)
    ensures r <= |line|
    ensures r > 0 ==> line[r - 1] == '.'
  {
    var d := DigitRun(line);
    if 0 < d < |line| && line[d] == '.' then d + 1 else 0
  }

  /** `^Q:|^\d+\.|\?$` on a trimmed line. */
  predicate IsQuestionLine(line: string) {
    StartsWith(line, "Q:") || NumberedPrefix(line) > 0 || (|line| > 0 && line[|line| - 1] == '?')
  }

  /** `preg_replace('/^(Q:|\d+\.)\s*\/', '', $line)`: without a prefix the
      pattern does not match and the line is kept whole. */
  function QuestionText(line: string): (r: string)
    ensures !StartsWith(line, "Q:") && NumberedPrefix(line) == 0 ==> r == line
  {
    var k := if StartsWith(line, "Q:") then 2 else NumberedPrefix(line);
    if k == 0 then line else TrimLeftBy(line[k..], RegexSpace)
  }

  /** `preg_replace('/^A:\s*\/', '', $line)` on a line starting with "A:". */
  function AnswerText(line: string): string
    requires StartsWith(line, "A:")
  {
    TrimLeftBy(line[2..], RegexSpace)
  }

  /** The parser's state between lines: the open question (PHP `null` until
      the first one), its answer lines so far, and the pairs completed. */
  datatype Scan = Scan(question: Option<string>, answers: seq<string>, pairs: seq<Pair>)

  const Start := Scan(None, [], [])

  /** The pairs completed once the open question is closed: it counts only
      with a truthy question and at least one answer line. */
  function Flush(s: Scan): (r: seq<Pair>)
    ensures |s.pairs| <= |r| <= |s.pairs| + 1
    ensures r[..|s.pairs|] == s.pairs
  {
    if Truthy(s.question) && |s.answers| > 0 then s.pairs + [Pair(s.question.value, Join(s.answers, " "))]
    else s.pairs
  }

  /** What a line of the reply is, once trimmed: blank (skipped), a
      question (its prefix removed) or an answer line (a leading "A:"
      removed). */
  datatype Line = BlankLine | QuestionLine(text: string) | AnswerLine(text: string)

  /** The kind of an already trimmed line. */
  function Kind(line: string): (r: Line)
    ensures r.BlankLine? <==> PhpEmpty(line)
    ensures r.QuestionLine? <==> !PhpEmpty(line) && IsQuestionLine(line)
  {
    if PhpEmpty(line) then BlankLine
    else if IsQuestionLine(line) then QuestionLine(QuestionText(line))
    else if StartsWith(line, "A:") then AnswerLine(AnswerText(line))
    else AnswerLine(line)
  }

  function Classify(raw: string): Line {
    Kind(Trim(raw))
  }

  /** One classified line: a question line closes the open question and
      opens its own, an answer line extends the open question's answer, a
      blank line changes nothing. */
  function Step(s: Scan, l: Line): (r: Scan)
    ensures l.BlankLine? ==> r == s
    ensures l.QuestionLine? ==> r.question == Some(l.text) && r.answers == [] && r.pairs == Flush(s)
    ensures l.AnswerLine? ==> r.question == s.question && r.pairs == s.pairs && r.answers == s.answers + [l.text]
  {
    match l
    case BlankLine => s
    case QuestionLine(q) => Scan(Some(q), [], Flush(s))
    case AnswerLine(a) => s.(answers := s.answers + [a])
  }

  function Run(s: Scan, lines: seq<Line>): Scan
    decreases |lines|
  {
    if |lines| == 0 then s else Run(Step(s, lines[0]), lines[1..])
  }

  /** The reply's lines, each trimmed and classified, read from the start. */
  function ParseLines(raw: seq<string>): seq<Pair> {
    Flush(Run(Start, Map(raw, Classify)))
  }

  /** `parse_plain_text_faq($text)`: every pair has a truthy question. */
  function ParsePlainTextFaq(text: string): (r: seq<Pair>)
    ensures forall i :: 0 <= i < |r| ==> !PhpEmpty(r[i].question)
  {
    var r := ParseLines(Split(text, '\n'));
    RunKeepsTruthy(Start, Map(Split(text, '\n'), Classify));
    r
  }

  /** Only truthy questions ever reach the completed pairs. */
  lemma {:induction false} RunKeepsTruthy(s: Scan, lines: seq<Line>)
    requires forall i :: 0 <= i < |s.pairs| ==> !PhpEmpty(s.pairs[i].question)
    ensures forall i :: 0 <= i < |Flush(Run(s, lines))| ==> !PhpEmpty(Flush(Run(s, lines))[i].question)
    decreases |lines|
  {
    if |lines| > 0 {
      assert forall i :: 0 <= i < |Flush(s)| ==> !PhpEmpty(Flush(s)[i].question);
      RunKeepsTruthy(Step(s, lines[0]), lines[1..]);
    } else {
      assert forall i :: 0 <= i < |Flush(s)| ==> !PhpEmpty(Flush(s)[i].question);
    }
  }

  /** Reading lines in two parts is reading them at once. */
  lemma {:induction false} RunAppend(s: Scan, a: seq<Line>, b: seq<Line>)
    ensures Run(s, a + b) == Run(Run(s, a), b)
    decreases |a|
  {
    if |a| > 0 {
      assert (a + b)[0] == a[0];
      assert (a + b)[1..] == a[1..] + b;
      RunAppend(Step(s, a[0]), a[1..], b);
    } else {
      assert a + b == b;
    }
  }

  /** Blank lines change nothing, wherever they stand. */
  lemma BlankLineIgnored(s: Scan, a: seq<Line>, b: seq<Line>)
    ensures Run(s, a + [BlankLine] + b) == Run(s, a + b)
  {
    RunAppend(s, a + [BlankLine], b);
    RunAppend(s, a, [BlankLine]);
    RunAppend(s, a, b);
  }

  /** Lines before the first question line open nothing: the parser is still
      without a question and without pairs after them. */
  lemma {:induction false} PreambleOpensNothing(s: Scan, pre: seq<Line>)
    requires s.question == None && s.pairs == []
    requires forall i :: 0 <= i < |pre| ==> !pre[i].QuestionLine?
    ensures Run(s, pre).question == None && Run(s, pre).pairs == []
    decreases |pre|
  {
    if |pre| > 0 {
      PreambleOpensNothing(Step(s, pre[0]), pre[1..]);
    }
  }

  /** Lines before the first question line are discarded: reading them and
      then a question line is reading from that question line. */
  lemma PreambleDiscarded(pre: seq<Line>, rest: seq<Line>)
    requires forall i :: 0 <= i < |pre| ==> !pre[i].QuestionLine?
    requires |rest| > 0 && rest[0].QuestionLine?
    ensures Flush(Run(Start, pre + rest)) == Flush(Run(Start, rest))
  {
    PreambleOpensNothing(Start, pre);
    RunAppend(Start, pre, rest);
    QuestionFromIdle(Run(Start, pre), rest);
  }

  /** Lines opening with a question read the same from any state without a
      question or pairs. */
  lemma QuestionFromIdle(s: Scan, lines: seq<Line>)
    requires s.question == None && s.pairs == []
    requires |lines| > 0 && lines[0].QuestionLine?
    ensures Run(s, lines) == Run(Start, lines)
  {
    assert Step(s, lines[0]) == Step(Start, lines[0]);
  }

  // ---------------------------------------------------------------- rendering pairs as text

  /** Characters that neither `trim` nor `\s` would leave at an end. */
  const Blank: set<char> := PhpTrimChars + RegexSpace

  /** A pair that survives being written as "Q: …" / "A: …" lines: one-line,
      trimmed, a truthy question, a non-empty answer not ending in '?'. */
  predicate Plain(p: Pair) {
    '\n' !in p.question && '\n' !in p.answer &&
    TrimmedBy(p.question, Blank) && TrimmedBy(p.answer, Blank) &&
    !PhpEmpty(p.question) && |p.answer| > 0 && p.answer[|p.answer| - 1] != '?'
  }

  const QTag := "Q: "
  const ATag := "A: "

  function QLine(p: Pair): string {
    QTag + p.question
  }

  function ALine(p: Pair): string {
    ATag + p.answer
  }

  function Lines(ps: seq<Pair>): (r: seq<string>)
    ensures |r| == 2 * |ps|
  {
    if |ps| == 0 then [] else [QLine(ps[0]), ALine(ps[0])] + Lines(ps[1..])
  }

  /** The pairs as the plain text the parser reads. */
  function Render(ps: seq<Pair>): string {
    Join(Lines(ps), "\n")
  }

  lemma TrimLine(prefix: string, body: string)
    requires |prefix| > 0 && prefix[0] !in PhpTrimChars
    requires |body| > 0 && TrimmedBy(body, Blank)
    ensures Trim(prefix + body) == prefix + body
  {
    var s := prefix + body;
    assert s[|s| - 1] == body[|body| - 1];
    TrimByFacts(s, PhpTrimChars);
  }

  /** A plain pair's question line is read as a question line carrying
      exactly its question. */
  lemma QLineTrimmed(p: Pair)
    requires Plain(p)
    ensures Trim(QLine(p)) == QLine(p)
  {
    TrimLine(QTag, p.question);
  }

  lemma QLineQuestion(p: Pair)
    requires Plain(p)
    ensures StartsWith(QLine(p), "Q:") && QuestionText(QLine(p)) == p.question
  {
    assert QTag[..2] == "Q:";
    PrefixFacts(QTag, p.question);
    TaggedText(QTag, p.question);
  }

  /** A two-character tag and a space before a text. */
  lemma PrefixFacts(prefix: string, t: string)
    requires |prefix| == 3 && prefix[2] == ' '
    ensures StartsWith(prefix + t, prefix[..2])
    ensures (prefix + t)[2..] == " " + t
    ensures (prefix + t)[0] == prefix[0]
  {
    assert (prefix + t)[..2] == prefix[..2];
  }

  /** What follows a two-character tag, its space skipped, is the text. */
  lemma TaggedText(prefix: string, t: string)
    requires |prefix| == 3 && prefix[2] == ' '
    requires |t| > 0 && TrimmedBy(t, Blank)
    ensures TrimLeftBy((prefix + t)[2..], RegexSpace) == t
  {
    PrefixFacts(prefix, t);
    SkipOneSpace(t);
  }

  /** `\s*` after the prefix removes the one space and nothing of a trimmed
      text. */
  lemma SkipOneSpace(t: string)
    requires |t| > 0 && TrimmedBy(t, Blank)
    ensures TrimLeftBy(" " + t, RegexSpace) == t
  {
    assert (" " + t)[1..] == t;
    assert t[0] !in RegexSpace;
  }

  /** A plain pair's answer line is read as an answer line carrying exactly
      its answer. */
  lemma LongNotEmpty(s: string)
    requires |s| >= 2
    ensures !PhpEmpty(s)
  {
    assert |s| != |""| && |s| != |"0"|;
  }

  lemma ALineTrimmed(p: Pair)
    requires Plain(p)
    ensures Trim(ALine(p)) == ALine(p)
  {
    TrimLine(ATag, p.answer);
  }

  lemma ALineNotQuestion(p: Pair)
    requires Plain(p)
    ensures !IsQuestionLine(ALine(p))
  {
    PrefixFacts(ATag, p.answer);
    var a := ALine(p);
    assert a[|a| - 1] == p.answer[|p.answer| - 1];
    assert DigitRun(a) == 0;
  }

  lemma ALineAnswer(p: Pair)
    requires Plain(p)
    ensures StartsWith(ALine(p), "A:") && AnswerText(ALine(p)) == p.answer
  {
    assert ATag[..2] == "A:";
    PrefixFacts(ATag, p.answer);
    TaggedText(ATag, p.answer);
  }

  lemma ClassifyQLine(p: Pair)
    requires Plain(p)
    ensures Classify(QLine(p)) == QuestionLine(p.question)
  {
    QLineTrimmed(p);
    KindQLine(p);
  }

  lemma KindQLine(p: Pair)
    requires Plain(p)
    ensures Kind(QLine(p)) == QuestionLine(p.question)
  {
    QLineQuestion(p);
    LongNotEmpty(QLine(p));
  }

  lemma ClassifyALine(p: Pair)
    requires Plain(p)
    ensures Classify(ALine(p)) == AnswerLine(p.answer)
  {
    ALineTrimmed(p);
    KindALine(p);
  }

  lemma KindALine(p: Pair)
    requires Plain(p)
    ensures Kind(ALine(p)) == AnswerLine(p.answer)
  {
    ALineNotQuestion(p);
    ALineAnswer(p);
    LongNotEmpty(ALine(p));
  }

  /** How the lines written for `ps` are classified. */
  function Kinds(ps: seq<Pair>): (r: seq<Line>)
    ensures |r| == 2 * |ps|
  {
    if |ps| == 0 then [] else [QuestionLine(ps[0].question), AnswerLine(ps[0].answer)] + Kinds(ps[1..])
  }

  /** The lines written for plain pairs are read as their questions and
      answers. */
  lemma {:induction false} ClassifyLines(ps: seq<Pair>)
    requires forall i :: 0 <= i < |ps| ==> Plain(ps[i])
    ensures Map(Lines(ps), Classify) == Kinds(ps)
    decreases |ps|
  {
    if |ps| > 0 {
      var p := ps[0];
      ClassifyLines(ps[1..]);
      ClassifyQLine(p);
      ClassifyALine(p);
      MapAppend([QLine(p), ALine(p)], Lines(ps[1..]), Classify);
    }
  }

  /** A question line and then an answer line close into exactly that pair. */
  lemma StepPair(s: Scan, p: Pair)
    requires !PhpEmpty(p.question)
    ensures Step(Step(s, QuestionLine(p.question)), AnswerLine(p.answer)) == Scan(Some(p.question), [p.answer], Flush(s))
    ensures Flush(Step(Step(s, QuestionLine(p.question)), AnswerLine(p.answer))) == Flush(s) + [p]
  {
    FlushOne(p.question, p.answer, Flush(s));
  }

  /** An open question with one answer line closes into that pair. */
  lemma FlushOne(q: string, a: string, pairs: seq<Pair>)
    requires !PhpEmpty(q)
    ensures Flush(Scan(Some(q), [a], pairs)) == pairs + [Pair(q, a)]
  {
    assert Join([a], " ") == a;
  }

  /** Pairs flushed so far, one more pair, and the rest make up the whole list. */
  lemma FlushedThenRest(f: seq<Pair>, ps: seq<Pair>, tail: seq<Pair>)
    requires |ps| > 0 && tail == f + [ps[0]] + ps[1..]
    ensures tail == f + ps
  {
    ConsTail(ps);
    Assoc(f, [ps[0]], ps[1..]);
  }

  /** Reading the lines of pairs with truthy questions gives back the pairs. */
  lemma {:induction false} RunPairs(s: Scan, ps: seq<Pair>)
    requires forall i :: 0 <= i < |ps| ==> !PhpEmpty(ps[i].question)
    ensures Flush(Run(s, Kinds(ps))) == Flush(s) + ps
    decreases |ps|
  {
    if |ps| > 0 {
      var p := ps[0];
      var s2 := Step(Step(s, QuestionLine(p.question)), AnswerLine(p.answer));
      var k := Kinds(ps);
      assert k[0] == QuestionLine(p.question) && k[1] == AnswerLine(p.answer) && k[2..] == Kinds(ps[1..]);
      StepPair(s, p);
      RunPairs(s2, ps[1..]);
      FlushedThenRest(Flush(s), ps, Flush(s2) + ps[1..]);
    }
  }

  /** Plain pairs written as text are parsed back exactly. */
  lemma ParseRender(ps: seq<Pair>)
    requires forall i :: 0 <= i < |ps| ==> Plain(ps[i])
    ensures ParsePlainTextFaq(Render(ps)) == ps
  {
    if |ps| == 0 {
      assert Render(ps) == "";
      assert Split("", '\n') == [""];
      assert Trim("") == "";
      assert Map([""], Classify) == [BlankLine];
      assert Run(Start, [BlankLine]) == Start;
    } else {
      LinesOneLine(ps);
      SplitJoin(Lines(ps), '\n');
      ClassifyLines(ps);
      RunPairs(Start, ps);
    }
  }

  lemma {:induction false} LinesOneLine(ps: seq<Pair>)
    requires forall i :: 0 <= i < |ps| ==> Plain(ps[i])
    ensures forall i :: 0 <= i < |Lines(ps)| ==> '\n' !in Lines(ps)[i]
    decreases |ps|
  {
    if |ps| > 0 {
      LinesOneLine(ps[1..]);
      var l := Lines(ps);
      assert l[0] == QLine(ps[0]) && l[1] == ALine(ps[0]);
      assert forall i :: 2 <= i < |l| ==> l[i] == Lines(ps[1..])[i - 2];
    }
  }

  // ---------------------------------------------------------------- HTML and schema

  const FaqOpen := "<div class=\"sap-faq-section\">\n<h2>Frequently Asked Questions</h2>\n\n"
  const FaqClose := "</div>"

  const ItemOpen := "<div class=\"faq-item\" itemscope itemprop=\"mainEntity\" itemtype=\"https://schema.org/Question\">\n  <h3 itemprop=\"name\">"
  const ItemMiddle := "</h3>\n  <div itemscope itemprop=\"acceptedAnswer\" itemtype=\"https://schema.org/Answer\">\n    <div itemprop=\"text\">\n      "
  const ItemClose := "\n    </div>\n  </div>\n</div>\n\n"

  /** One `faq-item` block: the escaped question and the paragraphed answer. */
  function ItemHtml(p: Pair, autop: string -> string): string {
    ItemOpen + EscHtml(p.question) + ItemMiddle + autop(p.answer) + ItemClose
  }

  /** The items, one per pair, in order. */
  function Items(ps: seq<Pair>, autop: string -> string): (r: seq<string>)
    ensures |r| == |ps|
    ensures forall i :: 0 <= i < |ps| ==> r[i] == ItemHtml(ps[i], autop)
  {
    seq(|ps|, i requires 0 <= i < |ps| => ItemHtml(ps[i], autop))
  }

  /** The items of a list are the items of its parts, in order. */
  lemma ItemsAppend(a: seq<Pair>, b: seq<Pair>, autop: string -> string)
    ensures Items(a + b, autop) == Items(a, autop) + Items(b, autop)
    ensures Concat(Items(a + b, autop)) == Concat(Items(a, autop)) + Concat(Items(b, autop))
  {
    assert Items(a + b, autop) == Items(a, autop) + Items(b, autop);
    ConcatAppend(Items(a, autop), Items(b, autop));
  }

  /** `format_faq_html($faq_data)`: the section wrapper around one item per
      pair, in order. */
  function FormatFaqHtml(ps: seq<Pair>, autop: string -> string): (r: string)
    ensures StartsWith(r, FaqOpen) && EndsWith(r, FaqClose)
    ensures |ps| == 0 ==> r == FaqOpen + FaqClose
  {
    FramedParts(FaqOpen, Concat(Items(ps, autop)), FaqClose);
    FaqOpen + Concat(Items(ps, autop)) + FaqClose
  }

  /** The section for a list holds the items of its parts, in order, inside
      one wrapper. */
  lemma FaqHtmlAppend(a: seq<Pair>, b: seq<Pair>, autop: string -> string)
    ensures FormatFaqHtml(a + b, autop) == FaqOpen + Concat(Items(a, autop)) + Concat(Items(b, autop)) + FaqClose
  {
    ItemsAppend(a, b, autop);
    Regroup(FaqOpen, Concat(Items(a, autop)), Concat(Items(b, autop)), FaqClose);
  }

  /** Every pair's block, with its escaped question and its answer, appears
      in the section. */
  lemma FaqHtmlHasItem(ps: seq<Pair>, autop: string -> string, i: int)
    requires 0 <= i < |ps|
    ensures Contains(FormatFaqHtml(ps, autop), ItemHtml(ps[i], autop))
  {
    var front, back := ps[..i], ps[i + 1..];
    assert ps == front + [ps[i]] + back;
    ItemsAppend(front + [ps[i]], back, autop);
    ItemsAppend(front, [ps[i]], autop);
    assert Concat(Items([ps[i]], autop)) == ItemHtml(ps[i], autop);
    var x := ItemHtml(ps[i], autop);
    var cf, cb := Concat(Items(front, autop)), Concat(Items(back, autop));
    FaqHtmlAppend(front + [ps[i]], back, autop);
    Regroup5(FaqOpen, cf, x, cb, FaqClose);
    ContainsMiddle(FaqOpen + cf, x, cb + FaqClose);
  }

  datatype SchemaQuestion = SchemaQuestion(name: string, answerText: string)

  /** The FAQPage object `generate_faq_schema` encodes. */
  datatype FaqSchema = FaqSchema(mainEntity: seq<SchemaQuestion>)

  /** `generate_faq_schema($faq_data)` before encoding: one question per pair,
      in order, the answer stripped of tags. */
  function GenerateFaqSchema(ps: seq<Pair>, stripTags: string -> string): (r: FaqSchema)
    ensures |r.mainEntity| == |ps|
    ensures forall i :: 0 <= i < |ps| ==>
      r.mainEntity[i].name == ps[i].question && r.mainEntity[i].answerText == stripTags(ps[i].answer)
  {
    FaqSchema(seq(|ps|, i requires 0 <= i < |ps| => SchemaQuestion(ps[i].question, stripTags(ps[i].answer))))
  }

  // ---------------------------------------------------------------- generation

  /** What `generate_faq` returns: the formatted section when the reply
      decoded as JSON, otherwise the bare parsed pairs (the source returns
      the parser's array itself, with no html, schema or count). */
  datatype Faq =
    | Formatted(html: string, schema: string, pairs: seq<Pair>, questionCount: nat)
    | PlainPairs(pairs: seq<Pair>)

  /** Tag-level formatting the source delegates to WordPress and PHP. */
  datatype Formatters = Formatters(autop: string -> string, stripTags: string -> string, encode: FaqSchema -> string)

  /** `generate_faq($post_id, $count)`; `reply` is what the AI returned for
      the post and `decode` is `json_decode` to a list of pairs. */
  function GenerateFaq(site: Site, postId: int, reply: Result<string>, decode: string -> Option<seq<Pair>>, f: Formatters): (r: Result<Faq>)
    ensures postId !in site.posts ==> r == Err(PostNotFound)
    ensures postId in site.posts && reply.Err? ==> r == Err(reply.error)
    ensures r.Ok? ==> reply.Ok? && postId in site.posts
    ensures r.Ok? && r.value.Formatted? ==>
      r.value.questionCount == |r.value.pairs| &&
      r.value.html == FormatFaqHtml(r.value.pairs, f.autop) &&
      r.value.schema == f.encode(GenerateFaqSchema(r.value.pairs, f.stripTags)) &&
      decode(JsonCandidate(reply.value)) == Some(r.value.pairs)
    ensures r.Ok? && r.value.PlainPairs? ==>
      decode(JsonCandidate(reply.value)).None? && r.value.pairs == ParsePlainTextFaq(reply.value)
  {
    if postId !in site.posts then Err(PostNotFound)
    else
      var text :- reply;
      match ExtractJson(Ok(text), decode)
      case Err(_) => Ok(PlainPairs(ParsePlainTextFaq(text)))
      case Ok(ps) =>
        Ok(Formatted(FormatFaqHtml(ps, f.autop), f.encode(GenerateFaqSchema(ps, f.stripTags)), ps, |ps|))
  }

  /** `$faq['faq_html']`: PHP's null, read as "", for bare pairs. */
  function HtmlOf(faq: Faq): string {
    if faq.Formatted? then faq.html else ""
  }

  function SchemaOf(faq: Faq): string {
    if faq.Formatted? then faq.schema else ""
  }

  // ---------------------------------------------------------------- placement

  /** Where the section goes: the `$position` argument. */
  function PlaceFaq(content: string, html: string, position: string, conclusion: Option<nat>): (r: string)
    ensures position == "start" ==> r == html + "\n\n" + content
    ensures position != "start" && (position != "before_conclusion" || conclusion.None?) ==>
      r == content + "\n\n" + html
    ensures position == "before_conclusion" && conclusion.Some? ==>
      var k := if conclusion.value < |content| then conclusion.value else |content|;
      r == content[..k] + html + "\n\n" + content[k..]
  {
    if position == "start" then html + "\n\n" + content
    else if position == "before_conclusion" && conclusion.Some? then
      var k := if conclusion.value < |content| then conclusion.value else |content|;
      content[..k] + html + "\n\n" + content[k..]
    else content + "\n\n" + html
  }

  /** Splicing before the conclusion leaves the content around the section
      as it was. */
  lemma SpliceKeepsContent(content: string, html: string, k: nat)
    requires k <= |content|
    ensures var r := PlaceFaq(content, html, "before_conclusion", Some(k));
      |r| == |content| + |html| + 2 &&
      r[..k] == content[..k] && r[k..k + |html|] == html && r[k + |html| + 2..] == content[k..]
  {
  }

  /** `insert_faq_into_post($post_id, $html, $position)`: false for a missing
      post, otherwise whether the write succeeded. `conclusionAt` is the
      offset of the first Conclusion/Summary/Final Thoughts/Wrap Up heading. */
  function InsertFaqIntoPost(site: Site, postId: int, html: string, position: string,
                             conclusionAt: string -> Option<nat>, w: WriteOutcome): (r: (bool, Site))
    ensures r.0 <==> postId in site.posts && w.Stored?
    ensures !r.0 ==> r.1 == site
    ensures r.0 ==> r.1 == site.(posts := site.posts[postId := site.posts[postId].(content :=
      PlaceFaq(site.posts[postId].content, html, position, conclusionAt(site.posts[postId].content)))])
  {
    match GetPost(site, postId)
    case None => (false, site)
    case Some(post) =>
      var content := PlaceFaq(post.content, html, position, conclusionAt(post.content));
      (w.Stored?, UpdateContent(site, postId, content, w))
  }

  const FaqSchemaKey := "sap_faq_schema"

  /** `save_faq_schema($post_id, $schema)`. */
  function SaveFaqSchema(site: Site, postId: int, schema: string, w: WriteOutcome): (r: Site)
    ensures w.Stored? ==> GetMeta(r, postId, FaqSchemaKey) == schema
    ensures w.Refused? ==> r == site
    ensures r.posts == site.posts
  {
    UpdateMeta(site, postId, FaqSchemaKey, schema, w)
  }
}
