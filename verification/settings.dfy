/** Plugin settings (`includes/class-settings.php`): a key/value array loaded
    over fixed defaults, with typed getters that apply PHP casts. */
module Settings {
  import opened Common

  /** A PHP scalar as stored in the `sap_settings` option. */
  datatype Value = VNull | VBool(b: bool) | VInt(i: int) | VStr(s: string)

  type Store = map<string, Value>

  const Defaults: Store := map[
    "pm_quality_threshold" := VInt(80),
    "enable_content_research" := VBool(true),
    "auto_fix_enabled" := VBool(false),
    "notification_email" := VStr(""),
    "audit_frequency" := VStr("daily"),
    "max_fixes_per_run" := VInt(50),
    "thin_content_threshold" := VInt(300),
    "target_word_count" := VInt(800),
    "enable_competitor_analysis" := VBool(true),
    "profile_update_frequency" := VStr("monthly")
  ]

  /** `wp_parse_args($args, $defaults)`: every key of either, `args` winning. */
  function ParseArgs(args: Store, defaults: Store): (r: Store)
    ensures r.Keys == args.Keys + defaults.Keys
    ensures forall k :: k in args ==> r[k] == args[k]
    ensures forall k :: k in defaults && k !in args ==> r[k] == defaults[k]
  {
    map k | k in args.Keys + defaults.Keys :: if k in args then args[k] else defaults[k]
  }

  /** `load_settings`: the saved option laid over the defaults. */
  function Load(saved: Store): (r: Store)
    ensures r.Keys == saved.Keys + Defaults.Keys
    ensures forall k :: k in Defaults && k !in saved ==> r[k] == Defaults[k]
    ensures forall k :: k in saved ==> r[k] == saved[k]
  {
    ParseArgs(saved, Defaults)
  }

  /** `get($key, $default)`: the stored value unless absent or null. */
  function Get(s: Store, key: string, default: Value): (r: Value)
    ensures key in s && s[key] != VNull ==> r == s[key]
    ensures key !in s || s[key] == VNull ==> r == default
  {
    if key in s && s[key] != VNull then s[key] else default
  }

  /** `set($key, $value)`: the value is read back, other keys are untouched. */
  function Set(s: Store, key: string, v: Value): (r: Store)
    ensures forall d :: v != VNull ==> Get(r, key, d) == v
    ensures forall k, d :: k != key ==> Get(r, k, d) == Get(s, k, d)
  {
    s[key := v]
  }

  /** `update($settings)`: the new values laid over the current ones; keys
      not mentioned keep their values. */
  function Update(s: Store, changes: Store): (r: Store)
    ensures forall k, d :: k !in changes ==> Get(r, k, d) == Get(s, k, d)
    ensures forall k, d :: k in changes ==> Get(r, k, d) == Get(changes, k, d)
  {
    ParseArgs(changes, s)
  }

  /** `reset()`: exactly the state of a fresh install. */
  function Reset(): (r: Store)
    ensures r == Load(map[])
  {
    Defaults
  }

  predicate IsDigit(c: char) {
    '0' <= c <= '9'
  }

  function DigitValue(c: char): int
    requires IsDigit(c)
  {
    c as int - '0' as int
  }

  /** The longest prefix of decimal digits. */
  function LeadingDigits(s: string): (r: string)
    ensures |r| <= |s| && r == s[..|r|]
    ensures forall i :: 0 <= i < |r| ==> IsDigit(r[i])
    ensures |r| < |s| ==> !IsDigit(s[|r|])
  {
    if |s| > 0 && IsDigit(s[0]) then [s[0]] + LeadingDigits(s[1..]) else ""
  }

  /** The number a digit string denotes. */
  function DigitsValue(ds: string): (r: nat)
    requires forall i :: 0 <= i < |ds| ==> IsDigit(ds[i])
  {
    if |ds| == 0 then 0 else DigitsValue(ds[..|ds| - 1]) * 10 + DigitValue(ds[|ds| - 1])
  }

  const CastSpace: set<char> := {' ', '\t', '\n', '\r', '\U{000B}', '\U{000C}'}

  /** PHP `(int)` of a string: leading whitespace, an optional sign, then the
      leading decimal digits; 0 when there are none. */
  function StringToInt(s: string): int {
    if |s| > 0 && s[0] in CastSpace then StringToInt(s[1..])
    else if |s| > 0 && s[0] == '-' then -(DigitsValue(LeadingDigits(s[1..])) as int)
    else if |s| > 0 && s[0] == '+' then DigitsValue(LeadingDigits(s[1..]))
    else DigitsValue(LeadingDigits(s))
  }

  /** PHP `(int)` cast. */
  function IntCast(v: Value): int {
    match v
    case VNull => 0
    case VBool(b) => if b then 1 else 0
    case VInt(i) => i
    case VStr(s) => StringToInt(s)
  }

  /** PHP `(bool)` cast; `empty()` is its negation. */
  predicate BoolCast(v: Value) {
    match v
    case VNull => false
    case VBool(b) => b
    case VInt(i) => i != 0
    case VStr(s) => !PhpEmpty(s)
  }

  /** The decimal form PHP prints for a natural number. */
  function DecimalString(n: nat): (r: string)
    ensures |r| > 0
    ensures forall i :: 0 <= i < |r| ==> IsDigit(r[i])
  {
    var d := ('0' as int + n % 10) as char;
    if n < 10 then [d] else DecimalString(n / 10) + [d]
  }

  /** A number saved from a form as its decimal string reads back as itself. */
  lemma {:induction false} DecimalStringRoundTrip(n: nat)
    ensures DigitsValue(DecimalString(n)) == n
    ensures LeadingDigits(DecimalString(n)) == DecimalString(n)
    ensures StringToInt(DecimalString(n)) == n
  {
    var s := DecimalString(n);
    if n >= 10 {
      DecimalStringRoundTrip(n / 10);
      assert s[..|s| - 1] == DecimalString(n / 10);
    }
    AllDigitsLeading(s);
  }

  /** The decimal form PHP prints for any integer. */
  function IntString(n: int): (r: string)
    ensures |r| > 0 && (n < 0 <==> r[0] == '-')
  {
    if n < 0 then "-" + DecimalString(-n) else DecimalString(n)
  }

  /** An integer stored as its decimal form reads back as itself. */
  lemma IntStringRoundTrip(n: int)
    ensures StringToInt(IntString(n)) == n
  {
    if n < 0 {
      var s := IntString(n);
      DecimalStringRoundTrip(-n);
      assert s[1..] == DecimalString(-n);
      assert s[0] !in CastSpace;
    } else {
      DecimalStringRoundTrip(n);
    }
  }

  lemma {:induction false} AllDigitsLeading(s: string)
    requires forall i :: 0 <= i < |s| ==> IsDigit(s[i])
    ensures LeadingDigits(s) == s
  {
    if |s| > 0 {
      AllDigitsLeading(s[1..]);
    }
  }

  function PmQualityThreshold(s: Store): int {
    IntCast(Get(s, "pm_quality_threshold", VInt(80)))
  }

  predicate ContentResearchEnabled(s: Store) {
    BoolCast(Get(s, "enable_content_research", VBool(true)))
  }

  predicate AutoFixEnabled(s: Store) {
    BoolCast(Get(s, "auto_fix_enabled", VBool(false)))
  }

  function MaxFixesPerRun(s: Store): int {
    IntCast(Get(s, "max_fixes_per_run", VInt(50)))
  }

  function ThinContentThreshold(s: Store): int {
    IntCast(Get(s, "thin_content_threshold", VInt(300)))
  }

  function TargetWordCount(s: Store): int {
    IntCast(Get(s, "target_word_count", VInt(800)))
  }

  function AuditFrequency(s: Store): Value {
    Get(s, "audit_frequency", VStr("daily"))
  }

  predicate CompetitorAnalysisEnabled(s: Store) {
    BoolCast(Get(s, "enable_competitor_analysis", VBool(true)))
  }

  /** `get_notification_email`: the configured address unless empty, else the
      site's admin address. */
  function NotificationEmail(s: Store, adminEmail: string): (r: Value)
    ensures BoolCast(Get(s, "notification_email", VNull)) ==> r == s["notification_email"]
    ensures !BoolCast(Get(s, "notification_email", VNull)) ==> r == VStr(adminEmail)
  {
    var v := Get(s, "notification_email", VNull);
    if BoolCast(v) then v else VStr(adminEmail)
  }

  /** With nothing saved, the typed getters return the documented defaults. */
  lemma FreshInstallDefaults()
    ensures PmQualityThreshold(Load(map[])) == 80
    ensures ContentResearchEnabled(Load(map[]))
    ensures !AutoFixEnabled(Load(map[]))
    ensures MaxFixesPerRun(Load(map[])) == 50
    ensures ThinContentThreshold(Load(map[])) == 300
    ensures TargetWordCount(Load(map[])) == 800
    ensures AuditFrequency(Load(map[])) == VStr("daily")
    ensures CompetitorAnalysisEnabled(Load(map[]))
    ensures forall admin :: NotificationEmail(Load(map[]), admin) == VStr(admin)
  {
    FreshFixDefaults();
    FreshContentDefaults();
    FreshAuditDefaults();
  }

  lemma FreshFixDefaults()
    ensures PmQualityThreshold(Load(map[])) == 80
    ensures ContentResearchEnabled(Load(map[]))
    ensures !AutoFixEnabled(Load(map[]))
    ensures MaxFixesPerRun(Load(map[])) == 50
  {
    assert Load(map[]) == Defaults;
  }

  lemma FreshContentDefaults()
    ensures ThinContentThreshold(Load(map[])) == 300
    ensures TargetWordCount(Load(map[])) == 800
  {
    assert Load(map[]) == Defaults;
  }

  lemma FreshAuditDefaults()
    ensures AuditFrequency(Load(map[])) == VStr("daily")
    ensures CompetitorAnalysisEnabled(Load(map[]))
    ensures forall admin :: NotificationEmail(Load(map[]), admin) == VStr(admin)
  {
    assert Load(map[]) == Defaults;
  }

  /** The quality threshold falls back to 80 when the key is absent or null,
      and a threshold saved as a decimal string reads back as its number. */
  lemma ThresholdFallback(s: Store, n: nat)
    ensures "pm_quality_threshold" !in s || s["pm_quality_threshold"] == VNull ==> PmQualityThreshold(s) == 80
    ensures PmQualityThreshold(Set(s, "pm_quality_threshold", VStr(DecimalString(n)))) == n
  {
    DecimalStringRoundTrip(n);
  }
}
