/** The AI gateway (`modules/analysis/class-ai-analyzer.php`): key-guarded
    calls to Claude and Gemini, the search-assisted Claude call, JSON
    extraction from model replies and the usage counters. The HTTP layer is an
    oracle: it maps a request to what the endpoint answered. */
module AiAnalyzer {
  import opened Common
  import opened Text
  import opened Sorting

  datatype Endpoint = ClaudeMessages | GeminiText | GeminiVision

  /** One request: the endpoint, the prompt (or image bytes) and the token budget. */
  datatype Request = Request(endpoint: Endpoint, payload: string, maxTokens: int)

  /** What the HTTP layer produced: a transport error (`WP_Error`), or the
      decoded body, with the reply text at the endpoint's path when present. */
  datatype HttpReply = TransportFailure(code: string) | Decoded(text: Option<string>)

  /** `!$api_key`: a missing, empty or "0" credential. */
  predicate MissingKey(apiKey: Option<string>) {
    !Truthy(apiKey)
  }

  /** The shared shape of `call_claude`, `call_gemini` and the second half of
      `describe_image_gemini`: the key guard, one request, then the reply text
      or `api_error`. */
  function CallModel(apiKey: Option<string>, req: Request, http: Request -> HttpReply): (r: Result<string>)
    ensures MissingKey(apiKey) <==> r == Err(NoApiKey)
    ensures r.Ok? <==> !MissingKey(apiKey) && http(req).Decoded? && http(req).text.Some?
    ensures r.Ok? ==> r.value == http(req).text.value
    ensures r == Err(ApiError) <==> !MissingKey(apiKey) && http(req) == Decoded(None)
  {
    if MissingKey(apiKey) then Err(NoApiKey)
    else
      match http(req)
      case TransportFailure(code) => Err(Transport(code))
      case Decoded(text) => if text.Some? then Ok(text.value) else Err(ApiError)
  }

  function CallClaude(apiKey: Option<string>, prompt: string, maxTokens: int, http: Request -> HttpReply): Result<string> {
    CallModel(apiKey, Request(ClaudeMessages, prompt, maxTokens), http)
  }

  function CallGemini(apiKey: Option<string>, prompt: string, maxTokens: int, http: Request -> HttpReply): Result<string> {
    CallModel(apiKey, Request(GeminiText, prompt, maxTokens), http)
  }

  /** `describe_image_gemini`: the key guard, then the image download (whose
      error is passed through), then the vision request. */
  function DescribeImage(apiKey: Option<string>, download: Result<string>, http: Request -> HttpReply): (r: Result<string>)
    ensures MissingKey(apiKey) ==> r == Err(NoApiKey)
    ensures !MissingKey(apiKey) && download.Err? ==> r == download
    ensures r.Ok? ==> download.Ok? && http(Request(GeminiVision, download.value, 0)) == Decoded(Some(r.value))
  {
    if MissingKey(apiKey) then Err(NoApiKey)
    else
      var image :- download;
      CallModel(apiKey, Request(GeminiVision, image, 0), http)
  }

  /** With no key, every call fails with `no_api_key` whatever the endpoint
      would have said, so no request is made. */
  lemma NoKeyNoRequest(apiKey: Option<string>, prompt: string, download: Result<string>, h1: Request -> HttpReply, h2: Request -> HttpReply)
    requires MissingKey(apiKey)
    ensures CallClaude(apiKey, prompt, 1000, h1) == CallClaude(apiKey, prompt, 1000, h2) == Err(NoApiKey)
    ensures CallGemini(apiKey, prompt, 2000, h1) == CallGemini(apiKey, prompt, 2000, h2) == Err(NoApiKey)
    ensures DescribeImage(apiKey, download, h1) == DescribeImage(apiKey, download, h2) == Err(NoApiKey)
  {
  }

  /** The characters `trim($query, '- ')` strips. */
  const QueryTrimChars: set<char> := {'-', ' '}

  /** The search queries taken from the query step's reply: its first three
      lines (after trimming the reply), each trimmed of dashes and spaces,
      without the empty ones. */
  function SearchQueries(reply: string): (r: seq<string>)
    ensures |r| <= 3
    ensures forall i :: 0 <= i < |r| ==> !PhpEmpty(r[i]) && '\n' !in r[i] && TrimmedBy(r[i], QueryTrimChars)
    ensures r == Filter(Map(SliceHead(Split(Trim(reply), '\n'), 3), TrimQuery), Nonblank)
  {
    var head := SliceHead(Split(Trim(reply), '\n'), 3);
    HeadLinesOneLine(Split(Trim(reply), '\n'), 3);
    NonEmptyQueriesExactly(head);
    NonEmptyQueries(head)
  }

  /** `trim($query, '- ')`. */
  function TrimQuery(line: string): string {
    TrimBy(line, QueryTrimChars)
  }

  /** A query `empty()` does not skip. */
  predicate Nonblank(q: string) {
    !PhpEmpty(q)
  }

  /** The queries are the lines' trimmed forms, in order, less the empty ones. */
  lemma {:induction false} NonEmptyQueriesExactly(lines: seq<string>)
    requires forall i :: 0 <= i < |lines| ==> '\n' !in lines[i]
    ensures NonEmptyQueries(lines) == Filter(Map(lines, TrimQuery), Nonblank)
  {
    if |lines| > 0 {
      assert forall i :: 1 <= i < |lines| ==> lines[i] == lines[1..][i - 1];
      NonEmptyQueriesExactly(lines[1..]);
      assert Map(lines, TrimQuery) == [TrimQuery(lines[0])] + Map(lines[1..], TrimQuery);
    }
  }

  /** The first lines of a split are still separator-free. */
  lemma HeadLinesOneLine(lines: seq<string>, n: nat)
    requires forall i :: 0 <= i < |lines| ==> '\n' !in lines[i]
    ensures var head := SliceHead(lines, n);
      |head| <= n && forall i :: 0 <= i < |head| ==> '\n' !in head[i]
  {
    var head := SliceHead(lines, n);
    assert forall i :: 0 <= i < |head| ==> head[i] == lines[i];
  }

  function NonEmptyQueries(lines: seq<string>): (r: seq<string>)
    requires forall i :: 0 <= i < |lines| ==> '\n' !in lines[i]
    ensures |r| <= |lines|
    ensures forall i :: 0 <= i < |r| ==> !PhpEmpty(r[i]) && '\n' !in r[i] && TrimmedBy(r[i], QueryTrimChars)
    ensures forall i :: 0 <= i < |lines| && !PhpEmpty(TrimBy(lines[i], QueryTrimChars)) ==> TrimBy(lines[i], QueryTrimChars) in r
  {
    if |lines| == 0 then []
    else
      var q := TrimBy(lines[0], QueryTrimChars);
      TrimByFacts(lines[0], QueryTrimChars);
      assert '\n' !in q;
      var rest := NonEmptyQueries(lines[1..]);
      assert forall i :: 1 <= i < |lines| ==> lines[i] == lines[1..][i - 1];
      if PhpEmpty(q) then rest
      else
        assert forall x :: x in rest ==> x in [q] + rest;
        [q] + rest
  }

  /** `call_claude_with_search`: a first call asks for queries; its error is
      returned as is. Otherwise the answering call receives the prompt with the
      (placeholder) results of each selected query. `answer` stands for that
      second call, given the queries. */
  function CallClaudeWithSearch(queryStep: Result<string>, answer: seq<string> -> Result<string>): (r: Result<string>)
    ensures queryStep.Err? ==> r == queryStep
    ensures queryStep.Ok? ==> r == answer(SearchQueries(queryStep.value))
  {
    match queryStep
    case Err(e) => Err(e)
    case Ok(reply) => answer(SearchQueries(reply))
  }

  /** `preg_match('/<open>\s*(.*?)\s*```/s')`: the text after the first `open`
      and any whitespace, up to the next fence, without trailing whitespace. */
  function FencedBody(s: string, open: string): (r: Option<string>)
    ensures IndexOf(s, open) == -1 ==> r.None?
  {
    var a := IndexOf(s, open);
    if a == -1 then None else FenceFrom(s, a + |open|)
  }

  /** The fence body once the opening marker ends at `start`. */
  function FenceFrom(s: string, start: nat): Option<string>
    requires start <= |s|
  {
    var q := |s| - |TrimLeftBy(s[start..], RegexSpace)|;
    var f := IndexFrom(s, "```", q);
    if f == -1 then None else Some(TrimRightBy(s[q..f], RegexSpace))
  }

  /** The text `extract_json` hands to the decoder: the body of a ```json
      fence, else of any ``` fence, else the whole reply. */
  function JsonCandidate(s: string): string {
    match FencedBody(s, "```json")
    case Some(body) => body
    case None => FencedBody(s, "```").GetOr(s)
  }

  /** `extract_json($response)`; `decode` is `json_decode`, None on failure. */
  function ExtractJson<J>(response: Result<string>, decode: string -> Option<J>): (r: Result<J>)
    ensures response.Err? ==> r == Err(response.error)
    ensures response.Ok? && decode(JsonCandidate(response.value)).None? ==> r == Err(JsonDecodeError)
    ensures r.Ok? ==> response.Ok? && decode(JsonCandidate(response.value)) == Some(r.value)
  {
    match response
    case Err(e) => Err(e)
    case Ok(s) =>
      match decode(JsonCandidate(s))
      case None => Err(JsonDecodeError)
      case Some(v) => Ok(v)
  }

  /** A decoded JSON value as the plugin tests it with `is_array`: an array
      carrying the fields the caller reads, or any other value. */
  datatype Json<T> = JArray(fields: T) | JOther

  /** A reply with no fence is decoded whole. */
  lemma UnfencedReply(s: string)
    requires !Contains(s, "```")
    ensures JsonCandidate(s) == s
  {
    if IndexOf(s, "```json") != -1 {
      var a := IndexOf(s, "```json");
      assert s[a..a + 3] == s[a..a + 7][..3];
      assert OccursAt(s, "```", a);
    }
  }

  /** A payload wrapped in a ```json fence is recovered exactly, whatever
      prose surrounds it, provided the prose before it has no backtick and
      the payload is non-empty, has no fence of its own and no surrounding
      whitespace. */
  lemma FencedRoundTrip(pre: string, payload: string, post: string)
    requires '`' !in pre
    requires |payload| > 0 && !Contains(payload, "```") && TrimmedBy(payload, RegexSpace)
    ensures JsonCandidate(pre + "```json\n" + payload + "\n```" + post) == payload
  {
    var s := pre + "```json\n" + payload + "\n```" + post;
    var rest := "```json" + ("\n" + payload + "\n```" + post);
    assert s == pre + rest;
    assert rest[..7] == "```json";
    FirstAfterPrefix(pre, "```json", rest);
    assert s[|pre| + 7..] == "\n" + payload + "\n```" + post;
    FencedBodyAt(s, "```json", payload, post);
  }

  /** A value whose JSON text survives decoding is extracted from a fenced
      reply unchanged. */
  lemma ExtractJsonRoundTrip<J>(pre: string, v: J, post: string, encode: J -> string, decode: string -> Option<J>)
    requires '`' !in pre
    requires |encode(v)| > 0 && !Contains(encode(v), "```") && TrimmedBy(encode(v), RegexSpace)
    requires decode(encode(v)) == Some(v)
    ensures ExtractJson(Ok(pre + "```json\n" + encode(v) + "\n```" + post), decode) == Ok(v)
  {
    FencedRoundTrip(pre, encode(v), post);
  }

  /** The body of a fence opened by a newline and closed after the payload
      and another newline. */
  lemma FencedBodyAt(s: string, open: string, payload: string, post: string)
    requires IndexOf(s, open) != -1
    requires s[IndexOf(s, open) + |open|..] == "\n" + payload + "\n```" + post
    requires |payload| > 0 && !Contains(payload, "```") && TrimmedBy(payload, RegexSpace)
    ensures FencedBody(s, open) == Some(payload)
  {
    FenceAt(s, IndexOf(s, open) + |open|, payload, post);
  }

  lemma FenceAt(s: string, start: nat, payload: string, post: string)
    requires start <= |s| && s[start..] == "\n" + payload + "\n```" + post
    requires |payload| > 0 && !Contains(payload, "```") && TrimmedBy(payload, RegexSpace)
    ensures FenceFrom(s, start) == Some(payload)
  {
    var body := payload + "\n```" + post;
    SkipOneSpace(s[start..], body);
    var q := start + 1;
    assert |s| - |TrimLeftBy(s[start..], RegexSpace)| == q;
    assert s[q..] == s[start..][1..] == body;
    ClosingFence(s, q, payload, post);
    var f := q + |payload| + 1;
    assert IndexFrom(s, "```", q) == f;
    assert s[q..f] == body[..|payload| + 1] == payload + "\n";
    TrimRightNewline(payload);
    assert TrimRightBy(s[q..f], RegexSpace) == payload;
  }

  lemma SkipOneSpace(after: string, rest: string)
    requires after == "\n" + rest && |rest| > 0 && rest[0] !in RegexSpace
    ensures |after| - |TrimLeftBy(after, RegexSpace)| == 1
  {
    assert after[1..] == rest;
  }

  lemma TrimRightNewline(payload: string)
    requires |payload| > 0 && payload[|payload| - 1] !in RegexSpace
    ensures TrimRightBy(payload + "\n", RegexSpace) == payload
  {
    assert (payload + "\n")[..|payload|] == payload;
  }

  /** A pattern whose first character does not occur in `pre` is first found
      where `rest` starts with it. */
  lemma FirstAfterPrefix(pre: string, p: string, rest: string)
    requires |p| > 0 && p[0] !in pre && StartsWith(rest, p)
    ensures IndexOf(pre + rest, p) == |pre|
  {
    var s := pre + rest;
    assert s[|pre|..|pre| + |p|] == p;
    assert OccursAt(s, p, |pre|);
    forall i | 0 <= i < |pre| ensures !OccursAt(s, p, i) {
      assert s[i] == pre[i];
      assert i + |p| <= |s| ==> s[i..i + |p|][0] == s[i];
    }
  }

  /** After a fence-free payload and a newline, the next fence closes it. */
  lemma ClosingFence(s: string, q: nat, payload: string, post: string)
    requires q <= |s| && s[q..] == payload + "\n```" + post
    requires !Contains(payload, "```")
    ensures IndexFrom(s, "```", q) == q + |payload| + 1
  {
    var e := q + |payload|;
    var f := e + 1;
    var t := payload + "\n```" + post;
    assert s[f..f + 3] == t[|payload| + 1..|payload| + 4];
    assert OccursAt(s, "```", f);
    assert s[e] == t[|payload|] == '\n';
    assert s[q..e] == t[..|payload|] == payload;
    NotBeforeBreak(s, q, payload, "```");
  }

  /** A pattern that a stretch of text does not contain, and whose
      characters differ from the one after that stretch, does not start
      anywhere in the stretch or at that character. */
  lemma NotBeforeBreak(s: string, q: nat, payload: string, p: string)
    requires q + |payload| < |s| && s[q..q + |payload|] == payload
    requires !Contains(payload, p) && s[q + |payload|] !in p
    ensures forall i :: q <= i <= q + |payload| ==> !OccursAt(s, p, i)
  {
    var e := q + |payload|;
    forall i | q <= i <= e ensures !OccursAt(s, p, i) {
      if i + |p| <= e {
        NowhereIfNotContained(payload, p, i - q);
        OccursShift(s, q, payload, p, i - q);
      } else if i + |p| <= |s| {
        MismatchAt(s, p, i, e);
      }
    }
  }

  /** Inside a copy of `t` at `q`, `p` occurs exactly where it occurs in `t`. */
  lemma OccursShift(s: string, q: nat, t: string, p: string, j: nat)
    requires q + |t| <= |s| && s[q..q + |t|] == t && j + |p| <= |t|
    ensures OccursAt(s, p, q + j) <==> OccursAt(t, p, j)
  {
    var a, b := s[q + j..q + j + |p|], t[j..j + |p|];
    forall k | 0 <= k < |p| ensures a[k] == b[k] {
      assert s[q + j + k] == s[q..q + |t|][j + k];
    }
    assert a == b;
  }

  /** A character that differs from the pattern's rules out an occurrence. */
  lemma MismatchAt(s: string, p: string, i: int, k: int)
    requires 0 <= i <= k < i + |p| && k < |s| && s[k] != p[k - i]
    ensures !OccursAt(s, p, i)
  {
    if i + |p| <= |s| {
      assert s[i..i + |p|][k - i] == s[k];
    }
  }

  /** A pattern a string does not contain occurs at none of its positions. */
  lemma NowhereIfNotContained(s: string, p: string, i: int)
    requires !Contains(s, p)
    ensures !OccursAt(s, p, i)
  {
  }

  /** The `sap_ai_usage_stats` option. */
  datatype UsageStats = UsageStats(claudeCalls: int, geminiCalls: int, totalTokens: int)

  /** `increment_usage($service, $tokens)`: one more call for the named
      service (none for any other name) and the tokens added. */
  function IncrementUsage(stats: UsageStats, service: string, tokens: int): (r: UsageStats)
    ensures r.totalTokens == stats.totalTokens + tokens
    ensures r.claudeCalls == stats.claudeCalls + (if service == "claude" then 1 else 0)
    ensures r.geminiCalls == stats.geminiCalls + (if service == "gemini" then 1 else 0)
    ensures r.claudeCalls + r.geminiCalls - (stats.claudeCalls + stats.geminiCalls) <= 1
  {
    var s1 := if service == "claude" then stats.(claudeCalls := stats.claudeCalls + 1)
      else if service == "gemini" then stats.(geminiCalls := stats.geminiCalls + 1)
      else stats;
    s1.(totalTokens := s1.totalTokens + tokens)
  }
}
