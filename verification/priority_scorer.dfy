/** Issue priority scoring (`modules/analysis/class-priority-scorer.php`):
    a severity weight, a bonus for auto-fixable issues and a per-type weight,
    capped at 100. */
module PriorityScorer {
  import opened Common
  import opened Database

  function SeverityWeight(s: Option<Severity>): int {
    match s
    case Some(Critical) => 50
    case Some(Warning) => 30
    case Some(Info) => 10
    case None => 0
  }

  /** Type weights are looked up by the type's name, as the source does. */
  function TypeWeight(k: IssueKind): int {
    var n := KindName(k);
    if n == "missing_meta_description" then 15
    else if n == "missing_title" then 25
    else if n == "thin_content" then 10
    else if n == "missing_alt_text" then 10
    else if n == "missing_h1" then 15
    else if n == "broken_link" then 20
    else 5
  }

  /** `calculate_score($issue)`; an unrecognised severity weighs nothing. */
  function CalculateScore(severity: Option<Severity>, autoFixable: bool, kind: IssueKind): (r: int)
    ensures 5 <= r <= 95
    ensures r == SeverityWeight(severity) + (if autoFixable then 20 else 0) + TypeWeight(kind)
  {
    var raw := SeverityWeight(severity) + (if autoFixable then 20 else 0) + TypeWeight(kind);
    if raw < 100 then raw else 100
  }

  /** The cap of 100 is never reached: the largest score, 95, belongs to a
      critical, auto-fixable missing title. Being auto-fixable adds exactly 20
      and a more severe issue always scores higher, all else equal. */
  lemma ScoreShape(severity: Option<Severity>, kind: IssueKind)
    ensures CalculateScore(severity, true, kind) == CalculateScore(severity, false, kind) + 20
    ensures CalculateScore(Some(Critical), true, MissingTitle) == 95
    ensures CalculateScore(Some(Critical), true, kind) == 95 ==> KindName(kind) == "missing_title"
    ensures forall f :: (CalculateScore(Some(Critical), f, kind) > CalculateScore(Some(Warning), f, kind)
      > CalculateScore(Some(Info), f, kind) > CalculateScore(None, f, kind))
  {
  }
}
