/** The PM agent (`modules/intelligence/class-pm-agent.php`): the AI quality
    reviewer between fix generation and application. It reviews single fixes,
    sorts a batch into approved / needs-revision / rejected, checks the
    approved set for consistency, keeps running review statistics and checks
    the format of a fix. Every failure of a review call falls back to a
    default approval scored 70. */
module PmAgent {
  import opened Common
  import opened Sorting
  import opened AiAnalyzer
  import opened Database
  import Settings
  import Text

  /** The fields of a review the plugin reads. A field absent from the AI's
      JSON is None; an absent improvement list is empty, as `?? []` makes it. */
  datatype Review = Review(
    decision: Option<string>,
    score: Option<int>,
    reasoning: Option<string>,
    improvements: seq<string>)

  const NoProfileReason := "No site profile available - using default approval"
  const ReviewFailedReason := "Review failed, defaulting to approval"
  const UnparsedReason := "Could not parse review, defaulting to approval"

  /** The review `review_fix` falls back to. */
  function DefaultReview(reason: string): Review {
    Review(Some("approve"), Some(70), Some(reason), [])
  }

  /** `review_fix($issue, $proposed_fix)`. `reply` is what `call_claude` (2000
      tokens) answered; `decode` is `json_decode` on the extracted text. */
  function ReviewFix(hasProfile: bool, reply: Result<string>, decode: string -> Option<Json<Review>>): (r: Review)
    ensures !hasProfile ==> r == DefaultReview(NoProfileReason)
    ensures hasProfile && reply.Err? ==> r == DefaultReview(ReviewFailedReason)
    ensures hasProfile && reply.Ok? ==>
      var decoded := decode(JsonCandidate(reply.value));
      if decoded.Some? && decoded.value.JArray? then r == decoded.value.fields
      else r == DefaultReview(UnparsedReason)
  {
    if !hasProfile then DefaultReview(NoProfileReason)
    else if reply.Err? then DefaultReview(ReviewFailedReason)
    else
      match ExtractJson<Json<Review>>(reply, decode)
      case Ok(JArray(review)) => review
      case _ => DefaultReview(UnparsedReason)
  }

  /** PHP's `$score >= $threshold` when the score may be missing: a null score
      compares as `false` against the threshold's truth value, so it reaches
      only a zero threshold. `$score < $threshold` is always its negation. */
  predicate ScoreAtLeast(score: Option<int>, threshold: int) {
    match score
    case Some(s) => s >= threshold
    case None => threshold == 0
  }

  datatype Verdict = Approved | NeedsRevision | Rejected

  /** The decision rule of `review_all_fixes`, also used for the re-review. */
  function Classify(review: Review, threshold: int): Verdict {
    if review.decision == Some("approve") && ScoreAtLeast(review.score, threshold) then Approved
    else if review.decision == Some("revise")
      || (review.decision == Some("approve") && !ScoreAtLeast(review.score, threshold)) then NeedsRevision
    else Rejected
  }

  /** A review is rejected only when the AI actually answered with a parsable
      review; every fallback approves at 70, so it passes a threshold up to 70
      and otherwise asks for a revision. */
  lemma FallbackNeverRejects(hasProfile: bool, reply: Result<string>, decode: string -> Option<Json<Review>>, threshold: int)
    ensures Classify(ReviewFix(hasProfile, reply, decode), threshold) == Rejected ==>
      hasProfile && reply.Ok? && decode(JsonCandidate(reply.value)).Some?
      && decode(JsonCandidate(reply.value)).value.JArray?
    ensures !hasProfile ==>
      Classify(ReviewFix(hasProfile, reply, decode), threshold) == if threshold <= 70 then Approved else NeedsRevision
  {
  }

  /** One entry of a review batch; `issue` and `proposed_fix` may be missing. */
  datatype Entry = Entry(issueId: int, issue: Option<Issue>, fix: Option<string>)

  /** `!$issue || !$proposed_fix` skips an entry. An issue row is an object,
      which PHP always treats as true. */
  predicate Reviewable(e: Entry) {
    e.issue.Some? && Truthy(e.fix)
  }

  datatype Revision = Revision(entry: Entry, review: Review, improvements: seq<string>)

  datatype Rejection = Rejection(entry: Entry, review: Review, reasoning: string)

  datatype Batch = Batch(approved: seq<Entry>, needsRevision: seq<Revision>, rejected: seq<Rejection>)

  datatype BatchStats = BatchStats(total: nat, approved: nat, needsRevision: nat, rejected: nat)

  datatype BatchReview = BatchReview(batch: Batch, stats: BatchStats)

  /** Where an entry belongs: nowhere when it is skipped. */
  function VerdictOf(e: Entry, threshold: int, reviewOf: Entry -> Review): Option<Verdict> {
    if Reviewable(e) then Some(Classify(reviewOf(e), threshold)) else None
  }

  /** Reference definition of one partition: the entries given verdict `v`,
      in batch order. */
  function SortedInto(entries: seq<Entry>, threshold: int, reviewOf: Entry -> Review, v: Verdict): seq<Entry> {
    if |entries| == 0 then []
    else if VerdictOf(entries[0], threshold, reviewOf) == Some(v) then
      [entries[0]] + SortedInto(entries[1..], threshold, reviewOf, v)
    else SortedInto(entries[1..], threshold, reviewOf, v)
  }

  lemma SortedIntoHead(entries: seq<Entry>, threshold: int, reviewOf: Entry -> Review)
    requires |entries| > 0
    ensures forall v :: (SortedInto(entries, threshold, reviewOf, v) ==
      (if VerdictOf(entries[0], threshold, reviewOf) == Some(v) then [entries[0]] else [])
      + SortedInto(entries[1..], threshold, reviewOf, v))
  {
  }

  function RevisionEntries(rs: seq<Revision>): (r: seq<Entry>)
    ensures |r| == |rs|
  {
    if |rs| == 0 then [] else [rs[0].entry] + RevisionEntries(rs[1..])
  }

  function RejectionEntries(rs: seq<Rejection>): (r: seq<Entry>)
    ensures |r| == |rs|
  {
    if |rs| == 0 then [] else [rs[0].entry] + RejectionEntries(rs[1..])
  }

  lemma {:induction false} RevisionEntriesAppend(a: seq<Revision>, b: seq<Revision>)
    ensures RevisionEntries(a + b) == RevisionEntries(a) + RevisionEntries(b)
    decreases |a|
  {
    if |a| > 0 {
      assert (a + b)[1..] == a[1..] + b;
      RevisionEntriesAppend(a[1..], b);
      assert RevisionEntries(a + b) == [a[0].entry] + RevisionEntries(a[1..] + b);
    } else {
      assert a + b == b;
    }
  }

  lemma {:induction false} RejectionEntriesAppend(a: seq<Rejection>, b: seq<Rejection>)
    ensures RejectionEntries(a + b) == RejectionEntries(a) + RejectionEntries(b)
    decreases |a|
  {
    if |a| > 0 {
      assert (a + b)[1..] == a[1..] + b;
      RejectionEntriesAppend(a[1..], b);
      assert RejectionEntries(a + b) == [a[0].entry] + RejectionEntries(a[1..] + b);
    } else {
      assert a + b == b;
    }
  }

  /** A revision or rejection record carries the entry's own review. */
  predicate Recorded(b: Batch, reviewOf: Entry -> Review) {
    (forall i :: 0 <= i < |b.needsRevision| ==>
      b.needsRevision[i].review == reviewOf(b.needsRevision[i].entry)
      && b.needsRevision[i].improvements == b.needsRevision[i].review.improvements)
    && (forall i :: 0 <= i < |b.rejected| ==>
      b.rejected[i].review == reviewOf(b.rejected[i].entry)
      && b.rejected[i].reasoning == b.rejected[i].review.reasoning.GetOr("Quality too low"))
  }

  /** One iteration of the `foreach` of `review_all_fixes`. */
  function Step(acc: Batch, e: Entry, threshold: int, reviewOf: Entry -> Review): Batch {
    if !Reviewable(e) then acc
    else
      var review := reviewOf(e);
      match Classify(review, threshold)
      case Approved => acc.(approved := acc.approved + [e])
      case NeedsRevision => acc.(needsRevision := acc.needsRevision + [Revision(e, review, review.improvements)])
      case Rejected => acc.(rejected := acc.rejected + [Rejection(e, review, review.reasoning.GetOr("Quality too low"))])
  }

  /** One step appends the entry to the list its verdict names, and only there. */
  lemma StepFacts(acc: Batch, e: Entry, threshold: int, reviewOf: Entry -> Review)
    requires Recorded(acc, reviewOf)
    ensures var next := Step(acc, e, threshold, reviewOf);
      var v := VerdictOf(e, threshold, reviewOf);
      Recorded(next, reviewOf)
      && next.approved == acc.approved + (if v == Some(Approved) then [e] else [])
      && RevisionEntries(next.needsRevision) == RevisionEntries(acc.needsRevision) + (if v == Some(NeedsRevision) then [e] else [])
      && RejectionEntries(next.rejected) == RejectionEntries(acc.rejected) + (if v == Some(Rejected) then [e] else [])
  {
    var review := reviewOf(e);
    RevisionEntriesAppend(acc.needsRevision, [Revision(e, review, review.improvements)]);
    RejectionEntriesAppend(acc.rejected, [Rejection(e, review, review.reasoning.GetOr("Quality too low"))]);
  }

  /** The `foreach` over the batch, appending to the three lists. */
  function Walk(entries: seq<Entry>, threshold: int, reviewOf: Entry -> Review, acc: Batch): (r: Batch)
    requires Recorded(acc, reviewOf)
    ensures Recorded(r, reviewOf)
    ensures r.approved == acc.approved + SortedInto(entries, threshold, reviewOf, Approved)
    ensures RevisionEntries(r.needsRevision) ==
      RevisionEntries(acc.needsRevision) + SortedInto(entries, threshold, reviewOf, NeedsRevision)
    ensures RejectionEntries(r.rejected) ==
      RejectionEntries(acc.rejected) + SortedInto(entries, threshold, reviewOf, Rejected)
    decreases |entries|
  {
    if |entries| == 0 then acc
    else
      var e := entries[0];
      var next := Step(acc, e, threshold, reviewOf);
      StepFacts(acc, e, threshold, reviewOf);
      var r := Walk(entries[1..], threshold, reviewOf, next);
      var v := VerdictOf(e, threshold, reviewOf);
      SortedIntoHead(entries, threshold, reviewOf);
      Text.Assoc(acc.approved, if v == Some(Approved) then [e] else [],
        SortedInto(entries[1..], threshold, reviewOf, Approved));
      Text.Assoc(RevisionEntries(acc.needsRevision), if v == Some(NeedsRevision) then [e] else [],
        SortedInto(entries[1..], threshold, reviewOf, NeedsRevision));
      Text.Assoc(RejectionEntries(acc.rejected), if v == Some(Rejected) then [e] else [],
        SortedInto(entries[1..], threshold, reviewOf, Rejected));
      r
  }

  /** `review_all_fixes($fixes)`: each reviewable entry lands in the partition
      its verdict names, in batch order, and the statistics count the lists;
      the total counts every entry, skipped ones included. */
  function ReviewAll(entries: seq<Entry>, threshold: int, reviewOf: Entry -> Review): (r: BatchReview)
    ensures r.batch.approved == SortedInto(entries, threshold, reviewOf, Approved)
    ensures RevisionEntries(r.batch.needsRevision) == SortedInto(entries, threshold, reviewOf, NeedsRevision)
    ensures RejectionEntries(r.batch.rejected) == SortedInto(entries, threshold, reviewOf, Rejected)
    ensures Recorded(r.batch, reviewOf)
    ensures r.stats == BatchStats(|entries|, |r.batch.approved|, |r.batch.needsRevision|, |r.batch.rejected|)
  {
    var b := Walk(entries, threshold, reviewOf, Batch([], [], []));
    BatchReview(b, BatchStats(|entries|, |b.approved|, |b.needsRevision|, |b.rejected|))
  }

  /** An entry is in a partition exactly when it is in the batch and has
      that verdict. */
  lemma {:induction false} SortedIntoMember(entries: seq<Entry>, threshold: int, reviewOf: Entry -> Review, v: Verdict, e: Entry)
    ensures e in SortedInto(entries, threshold, reviewOf, v) <==> e in entries && VerdictOf(e, threshold, reviewOf) == Some(v)
    decreases |entries|
  {
    if |entries| > 0 {
      SortedIntoMember(entries[1..], threshold, reviewOf, v, e);
      assert e in entries <==> e == entries[0] || e in entries[1..];
    }
  }

  /** The three partitions share out the reviewable entries. */
  lemma {:induction false} PartitionSizes(entries: seq<Entry>, threshold: int, reviewOf: Entry -> Review)
    ensures |SortedInto(entries, threshold, reviewOf, Approved)| + |SortedInto(entries, threshold, reviewOf, NeedsRevision)|
      + |SortedInto(entries, threshold, reviewOf, Rejected)| == |Filter(entries, Reviewable)|
    decreases |entries|
  {
    if |entries| > 0 {
      PartitionSizes(entries[1..], threshold, reviewOf);
    }
  }

  /** Every reviewable entry of the batch is in exactly one of the three
      lists, and a skipped one is in none. The counts add up to the total
      exactly when no entry was skipped. */
  lemma ExactlyOnePartition(entries: seq<Entry>, threshold: int, reviewOf: Entry -> Review, e: Entry)
    requires e in entries
    ensures var b := ReviewAll(entries, threshold, reviewOf).batch;
      var inA, inN, inR := e in b.approved, e in RevisionEntries(b.needsRevision), e in RejectionEntries(b.rejected);
      (Reviewable(e) ==> (inA && !inN && !inR) || (!inA && inN && !inR) || (!inA && !inN && inR))
      && (!Reviewable(e) ==> !inA && !inN && !inR)
    ensures var s := ReviewAll(entries, threshold, reviewOf).stats;
      s.approved + s.needsRevision + s.rejected <= s.total
      && (s.approved + s.needsRevision + s.rejected == s.total <==> forall i :: 0 <= i < |entries| ==> Reviewable(entries[i]))
  {
    SortedIntoMember(entries, threshold, reviewOf, Approved, e);
    SortedIntoMember(entries, threshold, reviewOf, NeedsRevision, e);
    SortedIntoMember(entries, threshold, reviewOf, Rejected, e);
    PartitionSizes(entries, threshold, reviewOf);
    FilterAll(entries, Reviewable);
  }

  /** What `ensure_consistency` returns; a field absent from the reply is None. */
  datatype Consistency = Consistency(score: Option<int>, consistent: Option<bool>, recommendations: seq<string>)

  const DefaultConsistency := Consistency(Some(100), Some(true), [])

  /** `ensure_consistency($all_fixes)`: with a profile and at least one fix,
      the first ten fixes go to the AI (2500 tokens) and its parsed answer is
      returned; anything else gives a perfect default score. */
  function EnsureConsistency(hasProfile: bool, fixes: seq<Entry>, ai: seq<Entry> -> Result<string>,
                             decode: string -> Option<Json<Consistency>>): (r: Consistency)
    ensures !hasProfile || |fixes| == 0 ==> r == DefaultConsistency
    ensures r != DefaultConsistency ==>
      var reply := ai(SliceHead(fixes, 10));
      reply.Ok? && decode(JsonCandidate(reply.value)) == Some(JArray(r))
    ensures hasProfile && |fixes| > 0 ==>
      var reply := ai(SliceHead(fixes, 10));
      (reply.Ok? && decode(JsonCandidate(reply.value)).Some? && decode(JsonCandidate(reply.value)).value.JArray?) ==>
        r == decode(JsonCandidate(reply.value)).value.fields
  {
    if !hasProfile || |fixes| == 0 then DefaultConsistency
    else
      match ExtractJson<Json<Consistency>>(ai(SliceHead(fixes, 10)), decode)
      case Ok(JArray(c)) => c
      case _ => DefaultConsistency
  }

  /** Fixes after the tenth never influence the consistency check. */
  lemma ConsistencySample(hasProfile: bool, a: seq<Entry>, b: seq<Entry>, ai: seq<Entry> -> Result<string>,
                          decode: string -> Option<Json<Consistency>>)
    requires SliceHead(a, 10) == SliceHead(b, 10)
    ensures EnsureConsistency(hasProfile, a, ai, decode) == EnsureConsistency(hasProfile, b, ai, decode)
  {
    assert |a| == 0 <==> |SliceHead(a, 10)| == 0;
    assert |b| == 0 <==> |SliceHead(b, 10)| == 0;
  }

  /** `generate_improvement_suggestions`: the parsed list, or none at all
      when the call fails or the reply is not a JSON array. */
  function ImprovementSuggestions(reply: Result<string>, decode: string -> Option<Json<seq<string>>>): (r: seq<string>)
    ensures reply.Err? ==> r == []
    ensures r != [] ==> reply.Ok? && decode(JsonCandidate(reply.value)) == Some(JArray(r))
    ensures (reply.Ok? && decode(JsonCandidate(reply.value)).Some? && decode(JsonCandidate(reply.value)).value.JArray?) ==>
      r == decode(JsonCandidate(reply.value)).value.fields
  {
    match ExtractJson<Json<seq<string>>>(reply, decode)
    case Ok(JArray(list)) => list
    case _ => []
  }

  /** The `sap_pm_review_stats` option; `avgScore` is kept exactly. */
  datatype ReviewStats = ReviewStats(totalReviews: int, approved: int, rejected: int, revised: int, avgScore: real)

  /** `get_review_stats` before anything was stored. */
  const NoReviews := ReviewStats(0, 0, 0, 0, 0.0)

  /** `update_review_stats($review_result)`: one more review, its decision
      counted when it is one of the three, and the average moved to take in
      its score when it has one. */
  function UpdateReviewStats(stats: ReviewStats, decision: Option<string>, score: Option<int>): (r: ReviewStats)
    requires stats.totalReviews >= 0
    ensures r.totalReviews == stats.totalReviews + 1
    ensures r.approved + r.rejected + r.revised - (stats.approved + stats.rejected + stats.revised)
      == if decision in {Some("approve"), Some("reject"), Some("revise")} then 1 else 0
    ensures r.approved - stats.approved == if decision == Some("approve") then 1 else 0
    ensures r.rejected - stats.rejected == if decision == Some("reject") then 1 else 0
    ensures r.revised - stats.revised == if decision == Some("revise") then 1 else 0
    ensures score.Some? ==>
      r.avgScore * r.totalReviews as real == stats.avgScore * stats.totalReviews as real + score.value as real
    ensures score.None? ==> r.avgScore == stats.avgScore
  {
    var total := stats.totalReviews + 1;
    var counted :=
      if decision == Some("approve") then stats.(approved := stats.approved + 1)
      else if decision == Some("reject") then stats.(rejected := stats.rejected + 1)
      else if decision == Some("revise") then stats.(revised := stats.revised + 1)
      else stats;
    var avg :=
      if score.Some? then (stats.avgScore * (total - 1) as real + score.value as real) / total as real
      else stats.avgScore;
    counted.(totalReviews := total, avgScore := avg)
  }

  /** The statistics after a sequence of reviews, oldest first. */
  function RecordReviews(reviews: seq<Review>): (r: ReviewStats)
    ensures r.totalReviews >= 0
    decreases |reviews|
  {
    if |reviews| == 0 then NoReviews
    else
      var last := reviews[|reviews| - 1];
      UpdateReviewStats(RecordReviews(reviews[..|reviews| - 1]), last.decision, last.score)
  }

  predicate Scored(r: Review) {
    r.score.Some?
  }

  function ScoreSum(reviews: seq<Review>): int
    requires forall i :: 0 <= i < |reviews| ==> Scored(reviews[i])
    decreases |reviews|
  {
    if |reviews| == 0 then 0
    else
      var last := reviews[|reviews| - 1];
      assert Scored(last);
      ScoreSum(reviews[..|reviews| - 1]) + last.score.value
  }

  /** When every review carried a score, the stored average is the mean of
      all scores, and the three decision counters never exceed the total. */
  lemma {:induction false} RunningMean(reviews: seq<Review>)
    requires forall i :: 0 <= i < |reviews| ==> Scored(reviews[i])
    ensures RecordReviews(reviews).totalReviews == |reviews|
    ensures RecordReviews(reviews).avgScore * |reviews| as real == ScoreSum(reviews) as real
    ensures |reviews| > 0 ==> RecordReviews(reviews).avgScore == ScoreSum(reviews) as real / |reviews| as real
    ensures 0 <= RecordReviews(reviews).approved && 0 <= RecordReviews(reviews).rejected
      && 0 <= RecordReviews(reviews).revised
    ensures RecordReviews(reviews).approved + RecordReviews(reviews).rejected + RecordReviews(reviews).revised
      <= RecordReviews(reviews).totalReviews
    decreases |reviews|
  {
    if |reviews| > 0 {
      var init := reviews[..|reviews| - 1];
      assert forall i :: 0 <= i < |init| ==> init[i] == reviews[i];
      RunningMean(init);
      var last := reviews[|reviews| - 1];
      StatsStep(RecordReviews(init), |init|, ScoreSum(init), last.decision, last.score.value, RecordReviews(reviews));
    }
  }

  /** One more scored review keeps the average the mean of the scores and the
      decision counters within the total. */
  lemma StatsStep(prev: ReviewStats, n: nat, sum: int, decision: Option<string>, score: int, r: ReviewStats)
    requires prev.totalReviews == n && prev.avgScore * n as real == sum as real
    requires 0 <= prev.approved && 0 <= prev.rejected && 0 <= prev.revised
    requires prev.approved + prev.rejected + prev.revised <= n
    requires r == UpdateReviewStats(prev, decision, Some(score))
    ensures r.totalReviews == n + 1
    ensures r.avgScore * (n + 1) as real == (sum + score) as real
    ensures r.avgScore == (sum + score) as real / (n + 1) as real
    ensures 0 <= r.approved && 0 <= r.rejected && 0 <= r.revised
    ensures r.approved + r.rejected + r.revised <= r.totalReviews
  {
    MeanOf(r.avgScore, n + 1, (sum + score) as real);
  }

  /** An average times the count giving the sum is the sum over the count. */
  lemma MeanOf(avg: real, n: nat, sum: real)
    requires n > 0 && avg * n as real == sum
    ensures avg == sum / n as real
  {
  }

  datatype Validation = Validation(valid: bool, errors: seq<string>)

  /** `validate_fix_format($fix, $fix_type)`; `wordCount` is
      `str_word_count`. Both errors of a kind can be reported at once. */
  function ValidateFixFormat(fix: string, fixType: string, wordCount: string -> nat): (r: Validation)
    ensures r.valid <==> |r.errors| == 0
    ensures |r.errors| <= 2
    ensures fixType == "meta_description" ==> (r.valid <==> 120 <= |fix| <= 160)
    ensures fixType == "alt_text" ==> (r.valid <==> !PhpEmpty(fix) && 5 <= wordCount(fix) <= 20)
    ensures fixType == "content" ==> (r.valid <==> !PhpEmpty(fix))
    ensures fixType !in {"meta_description", "alt_text", "content"} ==> r == Validation(true, [])
  {
    var errors :=
      if fixType == "meta_description" then
        (if PhpEmpty(fix) then ["Meta description must be a non-empty string"] else [])
        + (if |fix| < 120 || |fix| > 160 then
             ["Meta description length (" + Settings.DecimalString(|fix|) + ") should be between 120-160 characters"]
           else [])
      else if fixType == "alt_text" then
        (if PhpEmpty(fix) then ["Alt text must be a non-empty string"] else [])
        + (if wordCount(fix) < 5 || wordCount(fix) > 20 then
             ["Alt text word count (" + Settings.DecimalString(wordCount(fix)) + ") should be between 5-20 words"]
           else [])
      else if fixType == "content" then
        (if PhpEmpty(fix) then ["Content must be a non-empty string"] else [])
      else [];
    Validation(|errors| == 0, errors)
  }
}
