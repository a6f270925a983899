/** Request-level safeguards (`includes/class-security.php`): the per-user
    rate limiter kept in transients, API-key format checks, the rolling
    security log, client-IP extraction and schema-driven sanitising. */
module Security {
  import opened Common
  import opened Text

  /** A live transient: a counter and the time it lapses. */
  datatype Counter = Counter(count: int, expiresAt: int)

  /** Transients are keyed by action and user id; the source joins them into
      one key string, which is injective because user ids are digits. */
  type Limits = map<(string, int), Counter>

  /** `get_transient`: only an unexpired counter is seen. WordPress deletes
      a transient once its timeout lies before the current time, so a
      counter is still live at the very second it lapses. */
  function LiveCount(store: Limits, key: (string, int), now: int): Option<int> {
    if key in store && store[key].expiresAt >= now then Some(store[key].count) else None
  }

  /** `check_rate_limit($action, $limit, $period)` for the user `key.1` at
      time `now`. Every stored counter is given a fresh `period`. */
  function CheckRateLimit(store: Limits, key: (string, int), limit: int, period: nat, now: int): (r: (bool, Limits))
    ensures LiveCount(store, key, now).None? ==> r.0 && r.1 == store[key := Counter(1, now + period)]
    ensures LiveCount(store, key, now).Some? && LiveCount(store, key, now).value >= limit ==> !r.0 && r.1 == store
    ensures LiveCount(store, key, now).Some? && LiveCount(store, key, now).value < limit ==>
      r.0 && r.1 == store[key := Counter(LiveCount(store, key, now).value + 1, now + period)]
    ensures forall k :: k != key ==> LiveCount(r.1, k, now) == LiveCount(store, k, now)
  {
    match LiveCount(store, key, now)
    case None => (true, store[key := Counter(1, now + period)])
    case Some(c) =>
      if c >= limit then (false, store)
      else (true, store[key := Counter(c + 1, now + period)])
  }

  /** Calls at the given times, in order; returns how many were allowed. */
  function RunCalls(store: Limits, key: (string, int), limit: int, period: nat, times: seq<int>): (r: (nat, Limits))
    ensures r.0 <= |times|
    decreases |times|
  {
    if |times| == 0 then (0, store)
    else
      var (ok, next) := CheckRateLimit(store, key, limit, period, times[0]);
      var (n, last) := RunCalls(next, key, limit, period, times[1..]);
      ((if ok then 1 else 0) + n, last)
  }

  function Min(a: int, b: int): int {
    if a <= b then a else b
  }

  function Max(a: int, b: int): int {
    if a >= b then a else b
  }

  /** Calls made while a counter `c` stays live are allowed until it reaches the limit. */
  lemma {:induction false} LiveCounterBurst(store: Limits, key: (string, int), limit: int, period: nat, times: seq<int>, c: int)
    requires key in store && store[key].count == c
    requires forall i :: 0 <= i < |times| ==> times[i] <= store[key].expiresAt
    requires forall i, j :: 0 <= i < j < |times| ==> times[i] <= times[j]
    requires |times| > 0 ==> store[key].expiresAt <= times[0] + period
    ensures RunCalls(store, key, limit, period, times).0 == Min(|times|, Max(0, limit - c))
    decreases |times|
  {
    if |times| > 0 {
      var (ok, next) := CheckRateLimit(store, key, limit, period, times[0]);
      assert LiveCount(store, key, times[0]) == Some(c);
      if c >= limit {
        LiveCounterBurst(next, key, limit, period, times[1..], c);
      } else {
        assert next[key] == Counter(c + 1, times[0] + period);
        LiveCounterBurst(next, key, limit, period, times[1..], c + 1);
      }
    }
  }

  /** Within one period of the first call, a burst of calls against an absent
      or lapsed counter is allowed exactly `max(limit, 1)` times (the first call
      is always allowed). */
  lemma BurstAllowance(store: Limits, key: (string, int), limit: int, period: nat, times: seq<int>)
    requires |times| > 0 && period > 0
    requires LiveCount(store, key, times[0]).None?
    requires forall i, j :: 0 <= i < j < |times| ==> times[i] <= times[j]
    requires forall i :: 0 <= i < |times| ==> times[i] <= times[0] + period
    ensures RunCalls(store, key, limit, period, times).0 == Min(|times|, Max(1, limit))
  {
    var (ok, next) := CheckRateLimit(store, key, limit, period, times[0]);
    assert ok && next[key] == Counter(1, times[0] + period);
    var rest := times[1..];
    assert forall i :: 0 <= i < |rest| ==> rest[i] == times[i + 1];
    LiveCounterBurst(next, key, limit, period, rest, 1);
  }

  /** `validate_api_key($key, $service)`. */
  predicate ValidApiKey(key: string, service: string) {
    if PhpEmpty(key) then false
    else if service == "claude" then StartsWith(key, "sk-ant-")
    else if service == "gemini" || service == "pagespeed" then |key| == 39
    else |key| > 10
  }

  /** Every accepted key is non-empty and at least seven characters long, and
      each service has its own rule. */
  lemma ApiKeyRules(key: string, service: string)
    ensures ValidApiKey(key, service) ==> |key| >= 7
    ensures service == "claude" ==> (ValidApiKey(key, service) <==> StartsWith(key, "sk-ant-"))
    ensures service == "gemini" || service == "pagespeed" ==> (ValidApiKey(key, service) <==> |key| == 39)
    ensures service !in {"claude", "gemini", "pagespeed"} ==> (ValidApiKey(key, service) <==> |key| > 10)
  {
  }

  /** The security log keeps the newest 100 entries. */
  const SecurityLogSize: nat := 100

  /** `log_security_event`: append, then keep the newest entries. */
  function AppendLog<E>(logs: seq<E>, entry: E, keep: nat): (r: seq<E>)
    requires keep > 0
    ensures |r| == Min(|logs| + 1, keep)
    ensures r[|r| - 1] == entry
    ensures r[..|r| - 1] == logs[|logs| - (|r| - 1)..]
  {
    KeepLast(logs + [entry], keep)
  }

  /** The header keys consulted for the client address, in priority order. */
  const IpHeaders: seq<string> := [
    "HTTP_CF_CONNECTING_IP", "HTTP_CLIENT_IP", "HTTP_X_FORWARDED_FOR", "HTTP_X_FORWARDED",
    "HTTP_FORWARDED_FOR", "HTTP_FORWARDED", "REMOTE_ADDR"]

  function ServerValue(server: map<string, string>, key: string): string {
    if key in server then server[key] else ""
  }

  /** The address part of one header value: before the first comma, trimmed. */
  function FirstAddress(v: string): (r: string)
    ensures ',' !in r && TrimmedBy(r, PhpTrimChars)
  {
    var i := IndexOfChar(v, ',');
    var part := if i == -1 then v else v[..i];
    TrimByFacts(part, PhpTrimChars);
    Trim(part)
  }

  /** The first non-empty header value among `keys`, in their order. */
  function FirstHeader(server: map<string, string>, keys: seq<string>): (r: Option<string>)
    ensures r.Some? ==> !PhpEmpty(r.value)
  {
    if |keys| == 0 then None
    else if !PhpEmpty(ServerValue(server, keys[0])) then Some(ServerValue(server, keys[0]))
    else FirstHeader(server, keys[1..])
  }

  function ClientIpFrom(server: map<string, string>, keys: seq<string>): (r: string)
    ensures ',' !in r && TrimmedBy(r, PhpTrimChars)
  {
    match FirstHeader(server, keys)
    case None => "UNKNOWN"
    case Some(v) => FirstAddress(v)
  }

  /** `get_client_ip`: the first non-empty header wins; the address never
      holds a comma or surrounding whitespace. */
  function ClientIp(server: map<string, string>): (r: string)
    ensures ',' !in r && TrimmedBy(r, PhpTrimChars)
  {
    ClientIpFrom(server, IpHeaders)
  }

  /** `keys[i]` is the first key with a non-empty header value. */
  predicate FirstNonEmpty(server: map<string, string>, keys: seq<string>, i: int)
    requires 0 <= i < |keys|
  {
    !PhpEmpty(ServerValue(server, keys[i])) && forall j :: 0 <= j < i ==> PhpEmpty(ServerValue(server, keys[j]))
  }

  /** The address is taken from the first header, in priority order, whose
      value is non-empty. */
  lemma {:induction false} ClientIpPriority(server: map<string, string>, keys: seq<string>, i: int)
    requires 0 <= i < |keys| && FirstNonEmpty(server, keys, i)
    ensures FirstHeader(server, keys) == Some(ServerValue(server, keys[i]))
    ensures ClientIpFrom(server, keys) == FirstAddress(ServerValue(server, keys[i]))
    decreases |keys|
  {
    if i > 0 {
      assert PhpEmpty(ServerValue(server, keys[0]));
      assert keys[1..][i - 1] == keys[i];
      assert forall j :: 0 <= j < i - 1 ==> keys[1..][j] == keys[j + 1];
      ClientIpPriority(server, keys[1..], i - 1);
    }
  }

  /** With every header empty the address is "UNKNOWN". */
  lemma {:induction false} ClientIpUnknown(server: map<string, string>, keys: seq<string>)
    requires forall i :: 0 <= i < |keys| ==> PhpEmpty(ServerValue(server, keys[i]))
    ensures FirstHeader(server, keys) == None
    ensures ClientIpFrom(server, keys) == "UNKNOWN"
    decreases |keys|
  {
    if |keys| > 0 {
      assert PhpEmpty(ServerValue(server, keys[0]));
      assert forall j :: 0 <= j < |keys| - 1 ==> keys[1..][j] == keys[j + 1];
      ClientIpUnknown(server, keys[1..]);
    }
  }

  /** `sanitize_array($data, $schema)`: each value is sanitised by the type
      the schema names for its key, "text" when none. The per-type cleaning
      is WordPress' and is a parameter here. */
  function SanitizeArray<V>(data: seq<(string, V)>, schema: map<string, string>, sanitize: (V, string) -> V): (r: seq<(string, V)>)
    ensures |r| == |data|
    ensures forall i :: 0 <= i < |data| ==> r[i].0 == data[i].0
    ensures forall i :: 0 <= i < |data| && data[i].0 !in schema ==> r[i].1 == sanitize(data[i].1, "text")
    ensures forall i :: 0 <= i < |data| && data[i].0 in schema ==> r[i].1 == sanitize(data[i].1, schema[data[i].0])
  {
    seq(|data|, i requires 0 <= i < |data| =>
      (data[i].0, sanitize(data[i].1, if data[i].0 in schema then schema[data[i].0] else "text")))
  }
}
