# SEO Autopilot Pro, modelled in Dafny

SEO Autopilot Pro is a WordPress plugin. It crawls a site and detects technical SEO issues, scores them, and has an AI model propose fixes. A second AI pass, the "PM agent", reviews each fix before it is written to the post. The plugin also scores and rewrites posts for AI search engines, with direct answers, FAQ sections, tables of contents and E-E-A-T signals. It profiles the site, watches it for harmful changes (robots.txt, sitemap, noindex, schema, homepage), keeps an alert store and runs all of this from WordPress cron.

This project models the plugin's decision logic: everything that happens between its calls to the AI, the network and the database. One Dafny module corresponds to each class of the plugin:
- `AutoFixer`, `PmAgent`: the fix pipeline and its quality gate.
- `AiSearchOptimizer`, `AiSearchFixer`, `FaqGenerator`, `DirectAnswer`, `EeatEnhancer`: AI-search readiness.
- `PriorityScorer`, `TechnicalAnalyzer`, `ContentAnalyzer`, `SiteCrawler`, `PageSpeed`: analysis and data collection.
- `ContextGenerator`, `AiAnalyzer`, `SiteProfiler`: AI-backed generation and the site profile.
- `ChangeTracker`, `AlertSystem`, `CronScheduler`: monitoring.
- `Settings`, `Security`, `Database`: infrastructure.

`Common`, `Text`, `Sorting` and `WordPress` hold the shared vocabulary: PHP's `empty()`, `round()` and `array_slice`, string search and escaping, a stable descending sort that stands in for `ORDER BY … DESC`, and the posts, meta, users and options the plugin reads and writes.

How the environment is modelled:
- Every AI reply, HTTP response, hash, clock reading and write outcome is a parameter. An AI reply is a `Result<string>`: the text, or the error the gateway returned. A write is `Stored` or refused.
- Library routines the plugin calls are uninterpreted function parameters. This covers `json_decode`, `strip_tags`, `sanitize_title`, `str_word_count`, `esc_url`, `wpautop`, DOM queries and regular expressions whose matches are a list of strings.
- The database tables, the options table and post meta are immutable maps and sequences. Each operation returns the new state.
- Mails and notices are returned as lists of events.

Every operation has a contract. A lemma relates each one to a partner: an independent reference definition, an inverse, or an invariant it keeps. Examples:
- the partition of reviewed fixes is checked against a reference definition;
- a parsed FAQ renders back to its items;
- alert counts change by exactly one when an alert is created;
- detectors alert once per episode.

## Model

| member | source | states |
|---|---|---|
| PriorityScorer.CalculateScore | seo-autopilot-pro/modules/analysis/class-priority-scorer.php:16-46 | The score is the severity weight (50, 30, 10; 0 for an unknown severity), plus 20 when auto-fixable, plus the type weight (5 for an unlisted type). It always lies between 5 and 95. |
| PriorityScorer.ScoreShape | seo-autopilot-pro/modules/analysis/class-priority-scorer.php:16-46 | The cap of 100 never binds. Being auto-fixable adds exactly 20. A more severe issue outscores a less severe one of the same type. Only a critical, auto-fixable missing title reaches 95. |
| Security.CheckRateLimit | seo-autopilot-pro/includes/class-security.php:111-128 | With no live counter, the call is allowed and the counter starts at 1 for a fresh period. With a counter at or above the limit, the call is refused and nothing is stored. Otherwise the call is allowed and the counter rises by one. Other users' and actions' counters never change. |
| Security.RunCalls | seo-autopilot-pro/includes/class-security.php:111-128 | Over a series of calls, no more calls are allowed than were made. |
| Security.LiveCounterBurst | seo-autopilot-pro/includes/class-security.php:111-128 | While a counter that stands at c stays live, exactly min(calls, limit - c) further calls are allowed. |
| Security.BurstAllowance | seo-autopilot-pro/includes/class-security.php:111-128 | Within one period, a burst against an absent or lapsed counter gets exactly max(limit, 1) calls through. The first call always passes, even with a limit of 0. |
| Security.ApiKeyRules | seo-autopilot-pro/includes/class-security.php:133-151 | A Claude key is valid iff it starts with "sk-ant-". Gemini and PageSpeed keys are valid iff they have exactly 39 characters. Any other service needs more than 10 characters. An accepted key is never empty. |
| Security.AppendLog | seo-autopilot-pro/includes/class-security.php:156-173 | The new entry is last. The log keeps only the newest entries up to the bound, and the older ones kept are the tail of the previous log, in order. |
| Security.FirstAddress | seo-autopilot-pro/includes/class-security.php:190-195 | The address taken from a header holds no comma and no surrounding whitespace. |
| Security.ClientIp | seo-autopilot-pro/includes/class-security.php:178-200 | The client address never holds a comma or surrounding whitespace. |
| Security.ClientIpPriority | seo-autopilot-pro/includes/class-security.php:178-200 | The address comes from the first header, in priority order, whose value is non-empty. |
| Security.ClientIpUnknown | seo-autopilot-pro/includes/class-security.php:178-200 | When every header is empty, the address is "UNKNOWN". |
| Security.SanitizeArray | seo-autopilot-pro/includes/class-security.php:97-106 | Every key is kept in order. Each value is cleaned by the type its key has in the schema, or by "text" when the key is not in the schema. |
| Settings.ParseArgs | seo-autopilot-pro/includes/class-settings.php:34-37 | The merge holds every key of either map, and the given arguments win over the defaults. |
| Settings.Load | seo-autopilot-pro/includes/class-settings.php:13-37 | Saved values override the defaults. Defaults fill every key not saved. |
| Settings.Get | seo-autopilot-pro/includes/class-settings.php:42-44 | Get returns the stored value, or the default when the key is missing or null. |
| Settings.Set | seo-autopilot-pro/includes/class-settings.php:49-52 | A set value reads back. No other key changes. |
| Settings.Update | seo-autopilot-pro/includes/class-settings.php:64-67 | Keys named in the update read back their new values. Keys not named keep their old values. |
| Settings.Reset | seo-autopilot-pro/includes/class-settings.php:72-75 | Reset gives exactly the state of a fresh install. |
| Settings.LeadingDigits | seo-autopilot-pro/includes/class-settings.php:80-82 | This is the digit prefix PHP's (int) cast reads from a plain integer string. It is a prefix of the input, all digits, and ends where the digits stop. |
| Settings.DecimalStringRoundTrip | seo-autopilot-pro/includes/class-settings.php:80-82 | A natural number saved as its decimal string reads back through (int) as itself. |
| Settings.IntStringRoundTrip | seo-autopilot-pro/includes/class-settings.php:80-82 | Any integer stored as its decimal form reads back through (int) as itself. |
| Settings.NotificationEmail | seo-autopilot-pro/includes/class-settings.php:101-104 | The configured address is used unless it is empty, in which case the admin address is used. |
| Settings.FreshInstallDefaults | seo-autopilot-pro/includes/class-settings.php:13-25 | On a fresh install, each typed getter returns its documented default: threshold 80, research on, auto-fix off, 50 fixes per run, 300 and 800 words, daily audits, competitor analysis on, and the admin address. |
| Settings.ThresholdFallback | seo-autopilot-pro/includes/class-settings.php:80-82 | The quality threshold falls back to 80 when the key is absent or null. A threshold saved as a decimal string reads back as its number. |
| Database.GetIssue | seo-autopilot-pro/modules/fixes/class-auto-fixer.php:259-264 | The lookup finds a stored row with that id, or reports none only when no row has it. |
| Database.GetIssues | seo-autopilot-pro/includes/class-database.php:195-211 | The result is exactly the audit's issues, of the given status when one is given. It is a permutation of the matching rows, sorted by priority score, highest first. |
| Database.GetIssuesMembers | seo-autopilot-pro/includes/class-database.php:195-211 | An issue is listed exactly when it is a row of the table that belongs to the audit, with the given status when one is given. |
| Database.SetIssueStatus | seo-autopilot-pro/includes/class-database.php:238-247 | Every row with that id takes the new status and no other row changes. The fix and research tables are untouched. |
| Database.FindIssueAfterStatus | seo-autopilot-pro/includes/class-database.php:238-247 | After a status change, every lookup finds the same row as before. When it is the changed issue, that row has the new status. |
| Database.InsertFix | seo-autopilot-pro/includes/class-database.php:252-258 | The fix is appended under the next auto-increment id, and that id is returned. The ids stay sequential and the other tables are untouched. |
| Database.FindRollbackFix | seo-autopilot-pro/modules/fixes/class-auto-fixer.php:345-350 | The lookup finds a fix with that id that can be rolled back, or reports none only when no such fix exists. |
| Database.GetCachedResearch | seo-autopilot-pro/includes/class-database.php:263-273 | Data is returned iff the topic is cached and not yet expired, and it is the cached data. |
| Database.CacheResearch | seo-autopilot-pro/includes/class-database.php:278-290 | Cached research reads back for exactly 168 hours and is gone at the 168-hour mark. Other topics and tables are untouched. |
| TechnicalAnalyzer.FiredKindsFacts | seo-autopilot-pro/modules/analysis/class-technical-analyzer.php:22-120 | Each rule fires exactly when its own condition holds: an empty description or title, under 300 words, an image without alt, no H1, several H1s, or a load over 3 seconds. At most six fire at once. |
| TechnicalAnalyzer.AnalyzePage | seo-autopilot-pro/modules/analysis/class-technical-analyzer.php:22-120 | One page yields a finding of each kind iff that kind's condition holds. Each finding carries the page's URL and post id, and that rule's severity, priority and fixability. |
| TechnicalAnalyzer.FindingsFor | seo-autopilot-pro/modules/analysis/class-technical-analyzer.php:22-120 | There is one finding per fired kind, in order, with the rule's fixed attributes. |
| TechnicalAnalyzer.AnalyzeCrawl | seo-autopilot-pro/modules/analysis/class-technical-analyzer.php:16-124 | A crawl yields at most six findings per page. |
| TechnicalAnalyzer.AnalyzeCrawlAppend | seo-autopilot-pro/modules/analysis/class-technical-analyzer.php:22-121 | Pages are analysed independently and in order: a crawl split in two yields the findings of each part, concatenated. |
| ContentAnalyzer.Pieces | seo-autopilot-pro/modules/analysis/class-content-analyzer.php:41 | The text splits into at least one piece, and no piece contains a sentence terminator. |
| ContentAnalyzer.CountFilled | seo-autopilot-pro/modules/analysis/class-content-analyzer.php:43 | The number of non-empty pieces never exceeds the number of pieces. |
| ContentAnalyzer.Readability | seo-autopilot-pro/modules/analysis/class-content-analyzer.php:40-59 | The score is 0 with no sentence. Otherwise it is 90, 70 or 50 as the real average words per sentence is at most 15, at most 20, or more. |
| ContentAnalyzer.SentenceCountStep | seo-autopilot-pro/modules/analysis/class-content-analyzer.php:41-43 | A non-empty sentence ended by a terminator adds exactly one to the sentence count. |
| ContentAnalyzer.ReadabilityMonotone | seo-autopilot-pro/modules/analysis/class-content-analyzer.php:49-58 | Over the same sentences, more words never read as easier. |
| ContentAnalyzer.Tallies | seo-autopilot-pro/modules/analysis/class-content-analyzer.php:72 | Each distinct word appears once, in first-seen order, with its number of occurrences. Every word of the text is tallied. |
| ContentAnalyzer.Ranked | seo-autopilot-pro/modules/analysis/class-content-analyzer.php:72-81 | Exactly the words of four or more characters are ranked, each once with its true count, most frequent first. |
| ContentAnalyzer.TopTallies | seo-autopilot-pro/modules/analysis/class-content-analyzer.php:75-85 | The table is the first ten ranked words, or all of them when fewer than ten. |
| ContentAnalyzer.TopComplete | seo-autopilot-pro/modules/analysis/class-content-analyzer.php:75-85 | A long word missing from the table is outranked by ten listed words. |
| ContentAnalyzer.KeywordDensity | seo-autopilot-pro/modules/analysis/class-content-analyzer.php:64-88 | With no words, the table is empty. Otherwise it lists the top words, at most ten, each with count/total*100 rounded to two places. |
| ContentAnalyzer.KeywordDensityOrder | seo-autopilot-pro/modules/analysis/class-content-analyzer.php:72-73 | Listed words are distinct and in non-increasing order of frequency. |
| ContentAnalyzer.KeywordDensityTop | seo-autopilot-pro/modules/analysis/class-content-analyzer.php:75-85 | A long word that is not listed occurs no more often than any listed word, and the table is then full. |
| ContentAnalyzer.AnalyzePost | seo-autopilot-pro/modules/analysis/class-content-analyzer.php:16-35 | A missing post yields post_not_found, and only then. Otherwise the analysis holds the word count, thinness under 300 words, readability, keyword density, and the three markup flags. |
| AiAnalyzer.CallModel | seo-autopilot-pro/modules/analysis/class-ai-analyzer.php:24-61 | With no key, the result is no_api_key. A transport error passes through. A reply holding text yields that text, and a reply without text yields api_error. |
| AiAnalyzer.DescribeImage | seo-autopilot-pro/modules/analysis/class-ai-analyzer.php:155-210 | The key is checked first. A failed image download is returned as is. A description is returned only when the vision request on the downloaded image answered with that text. |
| AiAnalyzer.NoKeyNoRequest | seo-autopilot-pro/modules/analysis/class-ai-analyzer.php:27-29 | With no key, Claude, Gemini and the vision call fail with no_api_key whatever the endpoint would answer, so no request is made. |
| AiAnalyzer.SearchQueries | seo-autopilot-pro/modules/analysis/class-ai-analyzer.php:79-83 | The queries are the first three lines of the trimmed reply, each trimmed of dashes and spaces, with the empty ones left out, in order: so at most three, each non-empty and a single line. |
| AiAnalyzer.NonEmptyQueries | seo-autopilot-pro/modules/analysis/class-ai-analyzer.php:81-83 | Every line that is non-empty after trimming is kept as a query, and only those lines. |
| AiAnalyzer.NonEmptyQueriesExactly | seo-autopilot-pro/modules/analysis/class-ai-analyzer.php:81-83 | The queries are exactly the lines' trimmed forms, in order, less the empty ones. |
| AiAnalyzer.CallClaudeWithSearch | seo-autopilot-pro/modules/analysis/class-ai-analyzer.php:67-96 | An error from the query step is returned unchanged. Otherwise the answer is the second call, given the queries selected from the first reply. |
| AiAnalyzer.FencedBody | seo-autopilot-pro/modules/analysis/class-ai-analyzer.php:222-225 | Without the opening fence, nothing is extracted. |
| AiAnalyzer.ExtractJson | seo-autopilot-pro/modules/analysis/class-ai-analyzer.php:216-237 | A transport error passes through. Undecodable text gives json_decode_error. A decoded value is exactly what the chosen candidate text decodes to. |
| AiAnalyzer.UnfencedReply | seo-autopilot-pro/modules/analysis/class-ai-analyzer.php:226-228 | A reply with no fence is decoded whole. |
| AiAnalyzer.FencedRoundTrip | seo-autopilot-pro/modules/analysis/class-ai-analyzer.php:222-223 | A payload wrapped in a ```json fence is recovered exactly, whatever prose surrounds it. This holds when the prose before it has no backtick and the payload is non-empty, fence-free and trimmed. |
| AiAnalyzer.ExtractJsonRoundTrip | seo-autopilot-pro/modules/analysis/class-ai-analyzer.php:216-237 | A value whose JSON text decodes back to it is extracted unchanged from a fenced reply. |
| AiAnalyzer.FencedBodyAt | seo-autopilot-pro/modules/analysis/class-ai-analyzer.php:222-225 | The non-greedy match stops at the first closing fence after a newline. |
| AiAnalyzer.IncrementUsage | seo-autopilot-pro/modules/analysis/class-ai-analyzer.php:261-273 | The named service gains exactly one call, and any other name gains none. The tokens are added to the total. |
| ContextGenerator.Guarded | seo-autopilot-pro/modules/intelligence/class-context-aware-generator.php:27-36 | no_profile is returned before the post is looked up. post_not_found comes next. Only then is the generator asked. |
| ContextGenerator.GenerateMetaDescription | seo-autopilot-pro/modules/intelligence/class-context-aware-generator.php:27-68 | The profile and post guards apply. The description is the AI's answer to the post's meta-description request. |
| ContextGenerator.ImageDescription | seo-autopilot-pro/modules/intelligence/class-context-aware-generator.php:85-90 | The vision description is used when it succeeded, and "Image for " plus the title otherwise. |
| ContextGenerator.GenerateAltText | seo-autopilot-pro/modules/intelligence/class-context-aware-generator.php:70-107 | The profile and post guards apply. The alt text is the AI's answer to a request built from the image description, with its fallback. |
| ContextGenerator.GenerateTitleTag | seo-autopilot-pro/modules/intelligence/class-context-aware-generator.php:164-195 | The profile and post guards apply. The title is the AI's answer to the post's title request. |
| ContextGenerator.ResearchTopic | seo-autopilot-pro/modules/intelligence/class-context-aware-generator.php:242-269 | A live, non-empty cache entry is returned without a call. Otherwise the search call's answer is returned. Only a successful answer is cached, and a failure leaves the cache as it was. |
| ContextGenerator.CachedResearchNoCall | seo-autopilot-pro/modules/intelligence/class-context-aware-generator.php:244-247 | On a cache hit the answer is the same whatever the AI would say, so no call is made. |
| ContextGenerator.ResearchCachedForAWeek | seo-autopilot-pro/modules/intelligence/class-context-aware-generator.php:263-266 | Research that succeeded is served from the cache, unchanged, for the following 168 hours. |
| ContextGenerator.ExpandThinContent | seo-autopilot-pro/modules/intelligence/class-context-aware-generator.php:109-162 | The profile and post guards apply. The target falls back to the configured word count. With research enabled, the prompt carries `research_topic`'s answer for the post's title when that answer succeeded with non-empty text, and the cache is what `research_topic` leaves. With research disabled, the prompt carries no research and the cache is untouched. |
| ContextGenerator.ExpandServedFromCache | seo-autopilot-pro/modules/intelligence/class-context-aware-generator.php:125-145 | A live cached research entry for the title goes into the prompt as it is, and the cache is unchanged. |
| ContextGenerator.Category | seo-autopilot-pro/modules/intelligence/class-context-aware-generator.php:278-279 | The category is the first category's name, or "General" for an uncategorised post. |
| ContextGenerator.GenerateSchemaMarkup | seo-autopilot-pro/modules/intelligence/class-context-aware-generator.php:197-237 | It needs no profile, and a missing post (only a missing post) gives post_not_found. The schema carries the given type, the title as headline, the excerpt as description, the publish and modify times in ISO 8601 form, and an image only for a thumbnail with a URL. |
| ContextGenerator.ExtractKeywords | seo-autopilot-pro/modules/intelligence/class-context-aware-generator.php:317-328 | The result is at most five distinct non-stop-words of the lower-cased title, in order of first occurrence. Fewer than five are returned only when the title has no others. |
| ContextGenerator.ExtractKeywordsExactly | seo-autopilot-pro/modules/intelligence/class-context-aware-generator.php:317-328 | The keywords are ordered by where each first occurs in the title, and a candidate word is missing only when five keywords already occur before it. |
| PmAgent.ReviewFix | seo-autopilot-pro/modules/intelligence/class-pm-agent.php:28-92 | Without a profile, a failed call, or an unparsable reply, the review is the default approval at 70, with the matching reason. A parsed array reply is returned as it stands. |
| PmAgent.FallbackNeverRejects | seo-autopilot-pro/modules/intelligence/class-pm-agent.php:28-92 | A rejection can only come from a parsed AI review. Without a profile, a fix is approved when the threshold is at most 70 and sent for revision otherwise. |
| PmAgent.Walk | seo-autopilot-pro/modules/intelligence/class-pm-agent.php:104-130 | The loop appends each entry to the list its verdict names and to no other list. Each list keeps the batch order. |
| PmAgent.ReviewAll | seo-autopilot-pro/modules/intelligence/class-pm-agent.php:97-143 | Each of the three lists holds exactly the entries with that verdict, in batch order. The statistics count the lists, and the total counts every entry, skipped ones included. |
| PmAgent.SortedIntoMember | seo-autopilot-pro/modules/intelligence/class-pm-agent.php:115-129 | An entry is in a partition iff it is in the batch and its review gives that verdict. |
| PmAgent.PartitionSizes | seo-autopilot-pro/modules/intelligence/class-pm-agent.php:104-130 | The three partitions share out the reviewable entries: their sizes add up to the number of entries reviewed. |
| PmAgent.ExactlyOnePartition | seo-autopilot-pro/modules/intelligence/class-pm-agent.php:104-142 | A reviewable entry lands in exactly one list, and a skipped entry lands in none. The list counts equal the total iff no entry was skipped. |
| PmAgent.EnsureConsistency | seo-autopilot-pro/modules/intelligence/class-pm-agent.php:148-200 | Without a profile or without fixes, the result is the perfect default. Otherwise, when the reply about the first ten fixes decodes to a JSON array, that array is the result; any result other than the default comes from such a reply. |
| PmAgent.ConsistencySample | seo-autopilot-pro/modules/intelligence/class-pm-agent.php:163-164 | Fixes after the tenth never influence the consistency check. |
| PmAgent.ImprovementSuggestions | seo-autopilot-pro/modules/intelligence/class-pm-agent.php:251-276 | A failed call gives no suggestions. A reply that decodes to a JSON array gives exactly that array, and any suggestions come from such a reply. |
| PmAgent.UpdateReviewStats | seo-autopilot-pro/modules/intelligence/class-pm-agent.php:220-246 | The total rises by one. The counter the decision names rises by one, and an unknown or missing decision changes no counter. With a score, the average takes that score in; without one, the average is unchanged. |
| PmAgent.RunningMean | seo-autopilot-pro/modules/intelligence/class-pm-agent.php:239-243 | When every review carries a score, the stored average is the mean of all the scores, and the decision counters never exceed the total. |
| PmAgent.ValidateFixFormat | seo-autopilot-pro/modules/intelligence/class-pm-agent.php:281-324 | A meta description is valid iff it has 120 to 160 characters. Alt text is valid iff it is non-empty and has 5 to 20 words. Content is valid iff it is non-empty. Other types are always valid. It is valid iff there are no errors, and there are at most two errors. |
| AutoFixer.GenerateH1 | seo-autopilot-pro/modules/fixes/class-auto-fixer.php:294-303 | The H1 is the post's own title, and post_not_found is returned exactly when the post is missing. |
| AutoFixer.FixDuplicateTitle | seo-autopilot-pro/modules/fixes/class-auto-fixer.php:308-321 | A missing post gives post_not_found. Otherwise the new title is the AI's variation of the current title, and no profile is needed. |
| AutoFixer.SchemaFix | seo-autopilot-pro/modules/fixes/class-auto-fixer.php:131-132 | The stored schema is the encoded object the generator builds with the default type. It fails exactly when the post is missing. |
| AutoFixer.GenerateFix | seo-autopilot-pro/modules/fixes/class-auto-fixer.php:114-146 | Each issue type is routed to its generator. An unlisted type gives unknown_issue_type, and a broken link gives not_implemented. Only a thin-content expansion can change a table, and then only the research cache. A fix is produced only when its generator can succeed. |
| AutoFixer.WriteTo | seo-autopilot-pro/modules/fixes/class-auto-fixer.php:159-199 | A stored write to an existing target reads back. A refused write or a missing target changes nothing. |
| AutoFixer.CurrentValue | seo-autopilot-pro/modules/fixes/class-auto-fixer.php:270-289 | The old value is captured exactly for the meta description, thin content, alt text and title types: what is at the fix's target, or "" when there is nothing. Every other type gives null. |
| AutoFixer.ApplyFix | seo-autopilot-pro/modules/fixes/class-auto-fixer.php:151-235 | The fix succeeds iff the write is stored at an existing target, and then it reads back. Exactly one fix record is appended under the next id, with the old value. Only that issue changes, to fixed or failed. An unhandled type reports "No apply logic", and thin content for a missing post reports "Invalid post ID.". |
| AutoFixer.RollbackAvailability | seo-autopilot-pro/modules/fixes/class-auto-fixer.php:211 | A fix record can be rolled back iff its captured old value was non-empty. That never holds for types whose old value is not captured. |
| AutoFixer.Rollback | seo-autopilot-pro/modules/fixes/class-auto-fixer.php:343-397 | A missing or non-rollbackable fix gives fix_not_found, and a missing issue gives issue_not_found. A successful restore puts the old value back for the meta description, thin content or alt text types, and makes the issue pending again. The result is a plain success flag, and no fix record is written. |
| AutoFixer.FindSequentialFix | seo-autopilot-pro/modules/fixes/class-auto-fixer.php:347-350 | In a sequentially numbered fix table, the fix with id n is the n-th row. |
| AutoFixer.ApplyThenRollback | seo-autopilot-pro/modules/fixes/class-auto-fixer.php:151-397 | Applying a meta description, thin content or alt text fix over a non-empty old value, then rolling it back, restores the site exactly and leaves the issue pending. |
| AutoFixer.Propose | seo-autopilot-pro/modules/fixes/class-auto-fixer.php:33-50 | Ids whose issue is missing, or whose fix generation fails, are skipped. The rest become entries in id order. Only the research cache can change. |
| AutoFixer.ProposeOne | seo-autopilot-pro/modules/fixes/class-auto-fixer.php:34-49 | A missing issue gives no entry and leaves the tables alone. For an existing issue the tables are those fix generation leaves, and there is an entry iff generation succeeds: the id, the issue and the generated fix. |
| AutoFixer.ThreadAppend | seo-autopilot-pro/modules/fixes/class-auto-fixer.php:33-50 | Running the loop of step 1 over two id lists in a row gives the first list's entries, then the second's on the tables the first left behind. |
| AutoFixer.ProposeAt | seo-autopilot-pro/modules/fixes/class-auto-fixer.php:33-50 | The entries of the first k+1 ids are those of the first k plus what the k-th id gives on the threaded tables. Each such list is a prefix of the whole. |
| AutoFixer.ProposeComplete | seo-autopilot-pro/modules/fixes/class-auto-fixer.php:33-50 | The k-th id gets an entry iff its issue exists and its generation on the threaded tables succeeds. That entry sits right after the entries of the earlier ids. |
| AutoFixer.ReviseFix | seo-autopilot-pro/modules/fixes/class-auto-fixer.php:240-252 | With no improvements, the original comes back without a call. Otherwise the result is the AI's revision. |
| AutoFixer.RevisitOne | seo-autopilot-pro/modules/fixes/class-auto-fixer.php:63-85 | A fix sent back comes out, with the revised text, iff the revision call succeeds and the re-review approves the revised fix at the threshold. |
| AutoFixer.RevisitMember | seo-autopilot-pro/modules/fixes/class-auto-fixer.php:63-85 | An entry comes out of step 3 iff it is the approved revision of one of the fixes sent back. |
| AutoFixer.SentBack | seo-autopilot-pro/modules/intelligence/class-pm-agent.php:115-122 | The fixes sent back are exactly the proposals given that verdict, each recorded with its own review and improvements. |
| AutoFixer.Revisit | seo-autopilot-pro/modules/fixes/class-auto-fixer.php:63-85 | Each fix sent back is revised and re-reviewed once. It joins the approved list, with the revised text, only when the re-review approves it at the threshold. |
| AutoFixer.ApplyAll | seo-autopilot-pro/modules/fixes/class-auto-fixer.php:90-99 | Every approved fix is applied in order. Each adds one result and one fix record, and the existing records are kept as a prefix. |
| AutoFixer.FinalApproved | seo-autopilot-pro/modules/fixes/class-auto-fixer.php:61-85 | Every approved fix carries an issue and a fix. The list is at least as long as the first-round approvals and at most that plus the fixes sent back. |
| AutoFixer.FinalApprovedMembers | seo-autopilot-pro/modules/fixes/class-auto-fixer.php:61-85 | The approved list starts with the first-round approvals. An entry is in it iff it is a proposal approved at once, or the revised form of a proposal sent back whose re-review approves it. |
| AutoFixer.ReviewAndApply | seo-autopilot-pro/modules/fixes/class-auto-fixer.php:60-108 | The applied count is the length of the final approved list, and the i-th result is for the i-th approved issue. The consistency score is taken over that list. The rejected and revised counts and the summary come from the review. One fix record is appended per approved fix. |
| AutoFixer.ExecuteFixes | seo-autopilot-pro/modules/fixes/class-auto-fixer.php:30-109 | With no fix generated, the run reports "No valid fixes" and changes no post, issue or fix record. Otherwise the applied count is the length of the final approved list of the proposals, and the i-th result is for the i-th approved issue. One fix record is appended per applied fix, old records are kept, and the counts agree with the review. Without a profile, the consistency score is 100. |
| AutoFixer.NoProfileReviews | seo-autopilot-pro/modules/intelligence/class-pm-agent.php:29-37 | Without a profile, every review is the fallback approval at 70. |
| AutoFixer.NoProfileNoPromotion | seo-autopilot-pro/modules/fixes/class-auto-fixer.php:72-83 | Without a profile and with a threshold above 70, no re-review approves. |
| AutoFixer.NoProfileStrictThreshold | seo-autopilot-pro/modules/fixes/class-auto-fixer.php:30-109 | Without a profile and with a threshold above 70, a run changes no post and writes no fix record: nothing is approved, rejected or applied. |
| AutoFixer.NoProfileLenientThreshold | seo-autopilot-pro/modules/fixes/class-auto-fixer.php:30-109 | Without a profile and with a threshold of at most 70, every reviewable fix is approved at once and applied, and none is revised or rejected. |
| AutoFixer.EmptyRunMakesNoReviewCall | seo-autopilot-pro/modules/fixes/class-auto-fixer.php:52-58 | When no fix could be generated, the run is the same whatever the review, revision, consistency and write calls would answer, so none of them is made. |
| AutoFixer.NoProfileProposals | seo-autopilot-pro/modules/fixes/class-auto-fixer.php:114-146 | Without a profile, only schema, H1 and duplicate-title fixes are generated. |
| AutoFixer.CountsAddUp | seo-autopilot-pro/modules/fixes/class-auto-fixer.php:406-411 | Every fix record is either a success or a failure, and the rollbackable ones never outnumber the records. |
| AutoFixer.GetFixStats | seo-autopilot-pro/modules/fixes/class-auto-fixer.php:402-418 | Successes and failures add up to the total. The success rate in hundredths lies between 0 and 100.00 and is successes/total rounded to two places. It is 0 with no successes and 100.00 with no failures. |
| AutoFixer.RateBounds | seo-autopilot-pro/modules/fixes/class-auto-fixer.php:413-415 | The rounded percentage lies between 0 and 100.00 and is exact at both ends. |
| AiSearchOptimizer.Clamp | seo-autopilot-pro/modules/intelligence/class-ai-search-optimizer.php:132 | The clamped score lies in 0..100, and a score already in range is kept. |
| AiSearchOptimizer.FirstParagraph | seo-autopilot-pro/modules/intelligence/class-ai-search-optimizer.php:84 | The first paragraph is the text up to its first blank line. It is the first 300 characters when there is no blank line, and also when the text starts with one, because position 0 is falsy. |
| AiSearchOptimizer.CheckDirectAnswer | seo-autopilot-pro/modules/intelligence/class-ai-search-optimizer.php:79-137 | The score lies in 0..100 and the answer counts as direct iff it scores 50. A score of 50 or more needs 40-80 words, or a long, answer-like and fluff-free opening. 100 needs all of these. A fluffy opening caps the score at 70. Each issue appears iff its condition holds. |
| AiSearchOptimizer.CheckFaqSection | seo-autopilot-pro/modules/intelligence/class-ai-search-optimizer.php:142-183 | The score is 60 or more iff there are five questions, or a heading with three. It is 100 iff there is a heading and five questions. There is one issue per missing element. |
| AiSearchOptimizer.CheckStructuredData | seo-autopilot-pro/modules/intelligence/class-ai-search-optimizer.php:188-227 | Each schema counts iff its meta is non-empty. HowTo counts only for a "how to" title. The score reaches 70 iff both the FAQ and the Article schema are stored. |
| AiSearchOptimizer.CheckEeatSignals | seo-autopilot-pro/modules/intelligence/class-ai-search-optimizer.php:232-293 | The score is 100 iff all five signals are present: a bio over 100 characters, a later modification, three external links, two expertise keywords, and statistics. A score of 60 needs the links or the keywords. There is one issue per missing signal other than the date. |
| AiSearchOptimizer.CheckContentDepth | seo-autopilot-pro/modules/intelligence/class-ai-search-optimizer.php:298-349 | The score is 100 iff there are 1500 words, four H2s, two lists and a table. Short content without sections scores at most 30. There is one issue per missing element. |
| AiSearchOptimizer.CheckCitations | seo-autopilot-pro/modules/intelligence/class-ai-search-optimizer.php:354-400 | The authoritative links are exactly those matching the list, and never outnumber the links. The score reaches 50 iff there are three authoritative links, or one plus a recent year. It is 100 iff there are three plus a year. |
| AiSearchOptimizer.CheckConversationalTone | seo-autopilot-pro/modules/intelligence/class-ai-search-optimizer.php:405-440 | The question count is the number of "?" characters. Without formal words, the score is at least 50. Above 70 needs questioning. 100 iff there is questioning, five "you"s and no formal word. |
| AiSearchOptimizer.RatioThreshold | seo-autopilot-pro/modules/intelligence/class-ai-search-optimizer.php:411-419 | The real question ratio reaches 0.05 iff 20 × questions ≥ sentences. |
| AiSearchOptimizer.CheckEntityOptimization | seo-autopilot-pro/modules/intelligence/class-ai-search-optimizer.php:445-466 | The score lies in 50..100. It is 100 iff there are ten proper nouns. There is an issue iff there are fewer than five. |
| AiSearchOptimizer.WeightsSumTo100 | seo-autopilot-pro/modules/intelligence/class-ai-search-optimizer.php:52-61 | The eight weights add up to exactly 100. |
| AiSearchOptimizer.Overall | seo-autopilot-pro/modules/intelligence/class-ai-search-optimizer.php:63-68 | The overall score of in-range checks lies in 0..100. |
| AiSearchOptimizer.OverallMonotone | seo-autopilot-pro/modules/intelligence/class-ai-search-optimizer.php:63-68 | The overall score never drops when any check's score rises. |
| AiSearchOptimizer.OverallOfUniform | seo-autopilot-pro/modules/intelligence/class-ai-search-optimizer.php:63-68 | A post scoring c on every check scores c overall. |
| AiSearchOptimizer.Recommendations | seo-autopilot-pro/modules/intelligence/class-ai-search-optimizer.php:471-541 | A category is recommended iff its score is below its bar, and the recommendations come in check order. |
| AiSearchOptimizer.RecommendationBars | seo-autopilot-pro/modules/intelligence/class-ai-search-optimizer.php:471-541 | The bars are 50, 60, 70, 60, 60 and 50, and every high-priority recommendation precedes every medium one. |
| AiSearchOptimizer.RunChecks | seo-autopilot-pro/modules/intelligence/class-ai-search-optimizer.php:38-49 | Every check's score is in range. Structured data reaches 70 iff both the FAQ and the Article schema are stored. |
| AiSearchOptimizer.Analyze | seo-autopilot-pro/modules/intelligence/class-ai-search-optimizer.php:28-74 | It fails exactly for a missing post. The overall score is the rounded weighted mean, in 0..100, and the recommendations follow the scores. |
| AiSearchOptimizer.SchemaRecommendation | seo-autopilot-pro/modules/intelligence/class-ai-search-optimizer.php:496-505 | Only the FAQ and Article schema together lift a post clear of the schema recommendation. |
| AiSearchOptimizer.BulkAnalyze | seo-autopilot-pro/modules/intelligence/class-ai-search-optimizer.php:546-554 | There is one analysis per distinct id, and it fails exactly for missing posts. |
| FaqGenerator.NumberedPrefix | seo-autopilot-pro/modules/intelligence/class-faq-generator.php:204 | A numbered prefix ("<digits>.") is a prefix of the line ending in its dot, or absent. |
| FaqGenerator.QuestionText | seo-autopilot-pro/modules/intelligence/class-faq-generator.php:213 | A question line with neither a "Q:" nor a "<digits>." prefix is kept whole, leading whitespace included, as the unmatched pattern leaves it. |
| FaqGenerator.Kind | seo-autopilot-pro/modules/intelligence/class-faq-generator.php:199-219 | A trimmed line is blank iff it is empty ("0" included). It is a question iff it is non-empty and starts with "Q:" or "<digits>." or ends with "?". Otherwise it is an answer line. |
| FaqGenerator.Flush | seo-autopilot-pro/modules/intelligence/class-faq-generator.php:206-211 | Closing the open question adds at most one pair after the completed ones. |
| FaqGenerator.Step | seo-autopilot-pro/modules/intelligence/class-faq-generator.php:196-220 | A blank line changes nothing. A question line closes the open question and opens its own. An answer line extends the open answer. |
| FaqGenerator.ParsePlainTextFaq | seo-autopilot-pro/modules/intelligence/class-faq-generator.php:188-231 | Every parsed pair has a non-empty question. |
| FaqGenerator.RunAppend | seo-autopilot-pro/modules/intelligence/class-faq-generator.php:196-220 | Reading the lines in two parts is the same as reading them at once. |
| FaqGenerator.BlankLineIgnored | seo-autopilot-pro/modules/intelligence/class-faq-generator.php:199-201 | A blank line changes nothing, wherever it stands: the parser ends in the same state as without it. |
| FaqGenerator.PreambleDiscarded | seo-autopilot-pro/modules/intelligence/class-faq-generator.php:193-220 | Lines before the first question line are discarded: the result is the same as reading from that question line. |
| FaqGenerator.StepPair | seo-autopilot-pro/modules/intelligence/class-faq-generator.php:204-219 | A question line with a non-empty question followed by one answer line closes into exactly that pair. |
| FaqGenerator.ClassifyLines | seo-autopilot-pro/modules/intelligence/class-faq-generator.php:197-219 | The "Q: …"/"A: …" lines written for plain pairs are classified as those pairs' question and answer lines, in order. |
| FaqGenerator.RunPairs | seo-autopilot-pro/modules/intelligence/class-faq-generator.php:196-220 | Reading the question and answer lines of pairs with non-empty questions adds exactly those pairs, in order. |
| FaqGenerator.ParseRender | seo-autopilot-pro/modules/intelligence/class-faq-generator.php:188-231 | Plain pairs written as "Q:"/"A:" lines are parsed back exactly, in order. |
| FaqGenerator.Items | seo-autopilot-pro/modules/intelligence/class-faq-generator.php:142-154 | There is one item per pair, in order. |
| FaqGenerator.ItemsAppend | seo-autopilot-pro/modules/intelligence/class-faq-generator.php:142-154 | The items of a list are the items of its parts, concatenated. |
| FaqGenerator.FormatFaqHtml | seo-autopilot-pro/modules/intelligence/class-faq-generator.php:138-159 | The section starts with the FAQ wrapper and heading and ends by closing it; with no pairs it is the bare wrapper. |
| FaqGenerator.FaqHtmlAppend | seo-autopilot-pro/modules/intelligence/class-faq-generator.php:138-159 | The section for a joined list holds the items of the first part, then those of the second, inside one wrapper. |
| FaqGenerator.FaqHtmlHasItem | seo-autopilot-pro/modules/intelligence/class-faq-generator.php:142-154 | Every pair's block, with its escaped question and its paragraphed answer, appears in the section. |
| FaqGenerator.GenerateFaqSchema | seo-autopilot-pro/modules/intelligence/class-faq-generator.php:164-183 | The schema holds one question per pair, in order, each with the pair's question and its answer stripped of tags. |
| FaqGenerator.GenerateFaq | seo-autopilot-pro/modules/intelligence/class-faq-generator.php:24-63 | A missing post and an AI error come back as errors. A decoded reply gives the HTML, the schema and question_count equal to the number of pairs. An undecodable reply falls back to the plain-text parser. |
| FaqGenerator.PlaceFaq | seo-autopilot-pro/modules/intelligence/class-faq-generator.php:245-264 | The section goes before the content for "start". It is spliced at the conclusion heading for "before_conclusion" when one is found. It goes after the content otherwise. |
| FaqGenerator.SpliceKeepsContent | seo-autopilot-pro/modules/intelligence/class-faq-generator.php:255-259 | Splicing before the conclusion keeps the content before and after the section unchanged. |
| FaqGenerator.InsertFaqIntoPost | seo-autopilot-pro/modules/intelligence/class-faq-generator.php:236-273 | It reports success iff the post exists and the write succeeds. Only then does the post's content change, and only that post's. |
| FaqGenerator.SaveFaqSchema | seo-autopilot-pro/modules/intelligence/class-faq-generator.php:278-280 | A stored schema reads back from sap_faq_schema, and a refused write changes nothing. |
| DirectAnswer.GenerateDirectAnswer | seo-autopilot-pro/modules/intelligence/class-direct-answer-optimizer.php:24-73 | A missing post makes no call. Otherwise one call is made, and a second exactly when the first reply's word count lies outside 30..100. The answer is the last reply received, trimmed. A failed first call is the error; a failed retry gives the empty answer, as `trim` of the error object does under PHP 7.4. |
| DirectAnswer.RetryUnusedInRange | seo-autopilot-pro/modules/intelligence/class-direct-answer-optimizer.php:64-70 | A first reply of acceptable length is used as it is, whatever a retry would have said. |
| DirectAnswer.FirstDiscardedOnRetry | seo-autopilot-pro/modules/intelligence/class-direct-answer-optimizer.php:64-72 | After a retry, the first reply's text is discarded: only its word count mattered. |
| DirectAnswer.FormatDirectAnswer | seo-autopilot-pro/modules/intelligence/class-direct-answer-optimizer.php:115-123 | The box is the escaped answer between a fixed head, which carries the marker class and the "Quick Answer:" label, and a fixed foot ending in </div>. |
| DirectAnswer.BoxDeterminesAnswer | seo-autopilot-pro/modules/intelligence/class-direct-answer-optimizer.php:115-123 | Different answers make different boxes. |
| DirectAnswer.BoxPairs | seo-autopilot-pro/modules/intelligence/class-direct-answer-optimizer.php:115-123 | In a box, "v>" occurs only in its final </div> and "<d" only in its opening <div, so a lazy match from the box's start ends at the box's end. |
| DirectAnswer.NoBoxUnchanged | seo-autopilot-pro/modules/intelligence/class-direct-answer-optimizer.php:93-97 | Text with no box opening is left alone by the replacement. |
| DirectAnswer.WithBox | seo-autopilot-pro/modules/intelligence/class-direct-answer-optimizer.php:90-101 | On a post without the marker, the box goes first, followed by a blank line. |
| DirectAnswer.InsertDirectAnswer | seo-autopilot-pro/modules/intelligence/class-direct-answer-optimizer.php:78-110 | It reports success iff the post exists and the write succeeds. Only that post changes. A post without the marker gets the box first, followed by a blank line; on a post with the marker the literal pattern is applied, which does not match a box this plugin wrote (see Findings). |
| DirectAnswer.SecondInsertKeepsFirst | seo-autopilot-pro/modules/intelligence/class-direct-answer-optimizer.php:91-110 | Inserting a second answer into a post whose box the first insertion wrote reports success and leaves the post exactly as the first insertion left it. |
| DirectAnswer.ExactNotAfterBox | seo-autopilot-pro/modules/intelligence/class-direct-answer-optimizer.php:94 | The literal opening tag the pattern needs never occurs in a post that starts with one of the plugin's boxes, unless the rest of the post holds it. |
| DirectAnswer.ReinsertKeepsOldAnswer | seo-autopilot-pro/modules/intelligence/class-direct-answer-optimizer.php:91-97 | As written, re-inserting into a post that already has a box leaves the post unchanged, old answer included. |
| DirectAnswer.ReinsertReplacesAnswer | seo-autopilot-pro/modules/intelligence/class-direct-answer-optimizer.php:91-97 | With the box's attributes allowed in the pattern, re-inserting replaces the old box, and the rest of the post is kept. |
| DirectAnswer.ReplaceFirstBox | seo-autopilot-pro/modules/intelligence/class-direct-answer-optimizer.php:93-97 | The lazy match replaces exactly the leading box and nothing after it. |
| DirectAnswer.BoxEnd | seo-autopilot-pro/modules/intelligence/class-direct-answer-optimizer.php:94 | In a post that starts with a box, the first match ends where the box ends. |
| DirectAnswer.TocEntries | seo-autopilot-pro/modules/intelligence/class-direct-answer-optimizer.php:202-215 | There is one entry per heading, in order. Each is indented iff it is an H3, and its anchor is the sanitised stripped heading text. |
| DirectAnswer.AddAnchorsAppend | seo-autopilot-pro/modules/intelligence/class-direct-answer-optimizer.php:202-211 | Anchors are added heading by heading, in order. |
| DirectAnswer.TocAppend | seo-autopilot-pro/modules/intelligence/class-direct-answer-optimizer.php:198-218 | The table holds one list line per entry, in order, between the fixed opening and closing. |
| DirectAnswer.PlaceToc | seo-autopilot-pro/modules/intelligence/class-direct-answer-optimizer.php:220-235 | As written, the table goes after the first </p> on a post without a box. On a post with a box, it goes only after a "</div><!-- .sap-direct-answer -->" comment, and is dropped without one. |
| DirectAnswer.AnchorPastBox | seo-autopilot-pro/modules/intelligence/class-direct-answer-optimizer.php:116-123 | In a post that starts with a box, the comment the placement looks for can only occur past the box. |
| DirectAnswer.TocDroppedAfterBox | seo-autopilot-pro/modules/intelligence/class-direct-answer-optimizer.php:220-227 | As written, a post that starts with a box and has no such comment elsewhere loses the table. |
| DirectAnswer.TocDroppedAfterFormattedBox | seo-autopilot-pro/modules/intelligence/class-direct-answer-optimizer.php:115-123 | As written, a post whose box this plugin made loses its table. |
| DirectAnswer.PlaceTocAfterBox | seo-autopilot-pro/modules/intelligence/class-direct-answer-optimizer.php:220-235 | In the corrected placement, a post without a box gets the table after its first </p>. |
| DirectAnswer.TocFollowsBox | seo-autopilot-pro/modules/intelligence/class-direct-answer-optimizer.php:220-227 | In the corrected placement, on a post that starts with a box the table follows the box directly, and the rest of the post is kept. |
| DirectAnswer.GenerateTableOfContents | seo-autopilot-pro/modules/intelligence/class-direct-answer-optimizer.php:182-244 | A missing post gives post_not_found, and no_headings comes iff there is no H2 or H3. Otherwise every heading gets its anchor, the table is placed as written (after the first </p>, or after the direct-answer comment when the marker is present), and success is reported iff the write succeeded. No other post changes. |
| DirectAnswer.SummaryAppend | seo-autopilot-pro/modules/intelligence/class-direct-answer-optimizer.php:278-287 | The summary box holds one list item per point, in order. |
| DirectAnswer.GenerateSummaryBox | seo-autopilot-pro/modules/intelligence/class-direct-answer-optimizer.php:249-293 | A missing post, an AI error, and an undecodable reply each come back as errors. Otherwise the points are exactly the decoded list and the HTML lists them. |
| EeatEnhancer.GenerateAuthorBio | seo-autopilot-pro/modules/intelligence/class-eeat-enhancer.php:96-128 | A failed AI call gives the empty bio and saves nothing. A successful one is returned and saved as the author's description. |
| EeatEnhancer.ShownBio | seo-autopilot-pro/modules/intelligence/class-eeat-enhancer.php:65-73 | An author's non-empty description is shown as it is, with no AI call. Only an empty one is generated. |
| EeatEnhancer.AddAuthorBioBox | seo-autopilot-pro/modules/intelligence/class-eeat-enhancer.php:58-91 | It fails with post_not_found iff the post is missing. Otherwise the box opens with the author-bio container and contains the author's escaped name, the escaped shown bio and the escaped link to the author's posts. No post changes. |
| EeatEnhancer.SavedBioReused | seo-autopilot-pro/modules/intelligence/class-eeat-enhancer.php:71-73 | After a generated bio is saved, the next box for the same author reuses it and needs no AI call. |
| EeatEnhancer.JsonSuggestions | seo-autopilot-pro/modules/intelligence/class-eeat-enhancer.php:133-166 | Citation and expertise suggestions are the decoded JSON of the AI's reply for an existing post. An AI error passes through, and a missing post gives post_not_found. |
| EeatEnhancer.UpdatedNotice | seo-autopilot-pro/modules/intelligence/class-eeat-enhancer.php:193-195 | The notice opens with the "sap-updated-date" box and carries the marker that later runs look for. |
| EeatEnhancer.AddUpdatedDate | seo-autopilot-pro/modules/intelligence/class-eeat-enhancer.php:171-206 | It answers true iff the post exists, its modified date differs from its published date, and it has no notice yet. Only then is the notice put in front of the content. Otherwise the site is unchanged. |
| EeatEnhancer.UpdatedDateOnce | seo-autopilot-pro/modules/intelligence/class-eeat-enhancer.php:188-191 | Once a notice is stored, a second run adds no other. |
| EeatEnhancer.NoticeKeepsContent | seo-autopilot-pro/modules/intelligence/class-eeat-enhancer.php:197-203 | The notice and a blank line go in front, and the earlier content follows unchanged. |
| EeatEnhancer.AddMethodologySection | seo-autopilot-pro/modules/intelligence/class-eeat-enhancer.php:246-285 | A missing post gives post_not_found and a title that is not a review gives not_applicable. A review title gets the AI's reply, error included. |
| EeatEnhancer.MethodologyOnlyForReviews | seo-autopilot-pro/modules/intelligence/class-eeat-enhancer.php:253-263 | For an article that is not a review, the outcome does not depend on the AI at all. |
| EeatEnhancer.ReviewTitleIgnoresCase | seo-autopilot-pro/modules/intelligence/class-eeat-enhancer.php:254-259 | The review test is blind to letter case. |
| EeatEnhancer.LaptopIsReview | seo-autopilot-pro/modules/intelligence/class-eeat-enhancer.php:255-259 | The test matches substrings, so "Laptop stands" counts as a review title because it contains "top ". |
| EeatEnhancer.ExternalLinks | seo-autopilot-pro/modules/intelligence/class-eeat-enhancer.php:330-337 | The listed links are never more than the page's links. |
| EeatEnhancer.ExternalLinksMembers | seo-autopilot-pro/modules/intelligence/class-eeat-enhancer.php:330-337 | A link is listed exactly when it is on the page and does not contain the site's URL. |
| EeatEnhancer.ExternalLinksAppend | seo-autopilot-pro/modules/intelligence/class-eeat-enhancer.php:330-340 | Filtering keeps the page's order: it distributes over concatenation. |
| EeatEnhancer.GenerateSourcesSection | seo-autopilot-pro/modules/intelligence/class-eeat-enhancer.php:312-346 | A missing post gives post_not_found. no_links comes iff the content has no absolute link. Otherwise the section lists exactly the external links, in order. |
| EeatEnhancer.SourcesAppend | seo-autopilot-pro/modules/intelligence/class-eeat-enhancer.php:326-343 | The section for more links is the section for fewer, with the new items appended to the list. |
| EeatEnhancer.NoExternalLinks | seo-autopilot-pro/modules/intelligence/class-eeat-enhancer.php:334-337 | When every link contains the site's URL, none is listed. |
| EeatEnhancer.AllInternalEmptyList | seo-autopilot-pro/modules/intelligence/class-eeat-enhancer.php:322-345 | A page whose links are all internal still gets a section, with an empty list. |
| EeatEnhancer.EnhancePost | seo-autopilot-pro/modules/intelligence/class-eeat-enhancer.php:25-53 | The four enhancers run in order, and a part is present iff its enhancer did not fail. The bio is present iff the post exists, and the updated date iff a notice was needed. When the notice is added and stored, the post's content is the notice, a blank line and the earlier content. Without a stored notice no post changes, and otherwise only the post itself can change. |
| AiSearchFixer.WithDefaults | seo-autopilot-pro/modules/fixes/class-ai-search-fixer.php:34-43 | Every option is on unless the caller turns it off, and an empty option array turns everything on. |
| AiSearchFixer.FirstAnalysis | seo-autopilot-pro/modules/fixes/class-ai-search-fixer.php:55-60 | The first analysis fails for a missing post with post_not_found. A success implies the post exists. |
| AiSearchFixer.DirectAnswerStep | seo-autopilot-pro/modules/fixes/class-ai-search-fixer.php:67-94 | It acts only when the option is on and the direct-answer score is below 70. With the review on, the answer is inserted only on an approval scoring at least 70. A generation error is recorded and changes nothing. When the answer is added, the site is the one `insert_direct_answer` leaves. Only the post itself can change, and the other report fields are kept. |
| AiSearchFixer.PlaceFaq | seo-autopilot-pro/modules/fixes/class-ai-search-fixer.php:111-112 | Inserting the FAQ and saving its schema change only the post itself. |
| AiSearchFixer.FaqStep | seo-autopilot-pro/modules/fixes/class-ai-search-fixer.php:96-127 | It is given the generator's outcome for the post, which ContentFixes computes with GenerateFaq. It acts only when the option is on and the FAQ score is below 60. With the review on, the FAQ and its schema are stored only on an approval scoring at least 70. When the FAQ is added, the site is the generated FAQ placed before the conclusion with its schema saved, and the FAQ count is the generated question count. Otherwise the site and the FAQ count are unchanged. Only the post can change. |
| AiSearchFixer.TocStep | seo-autopilot-pro/modules/fixes/class-ai-search-fixer.php:129-136 | It acts only when the option is on and there are at least four H2 headings. toc is marked added iff the generator did not fail, that is iff the post has an H2 or H3 heading, and then the site is the one `generate_table_of_contents` leaves. Only the post can change. |
| AiSearchFixer.EeatStep | seo-autopilot-pro/modules/fixes/class-ai-search-fixer.php:138-147 | The enhancements run iff the option is on and the signals score below 60. Their result is always recorded, since enhance_post never returns an error. Only the post can change. |
| AiSearchFixer.AppendLog | seo-autopilot-pro/modules/fixes/class-ai-search-fixer.php:256-260 | The log gains the entry at its end and keeps the last 100, older entries in their order. |
| AiSearchFixer.LogOptimization | seo-autopilot-pro/modules/fixes/class-ai-search-fixer.php:244-267 | The entry is appended to the log. When the write is stored, the post's stored score reads back as the after score, and a non-zero after score is stored as a set value, so the post is no longer listed at thresholds up to that score. No post content changes. |
| AiSearchFixer.ApplyFixes | seo-autopilot-pro/modules/fixes/class-ai-search-fixer.php:65-147 | The four steps run in order. Each optimisation is reported only when its condition held, and E-E-A-T exactly when its condition held. Only the post can change. |
| AiSearchFixer.RunFixes | seo-autopilot-pro/modules/fixes/class-ai-search-fixer.php:62-159 | The before score is the first analysis' overall. The after score and improvement come from the second analysis, or are 0 and absent when it fails. The last log entry is this run's. The stored score reads back as the after score. |
| AiSearchFixer.OptimizePost | seo-autopilot-pro/modules/fixes/class-ai-search-fixer.php:33-162 | A failed first analysis ends the run with its error, both scores 0, and nothing changed or logged; a missing post always fails it. Otherwise the fixes run, the post is analysed again and logged, and no other post changes. |
| AiSearchFixer.BulkOptimize | seo-autopilot-pro/modules/fixes/class-ai-search-fixer.php:167-178 | There is one report per distinct id, and each is about its own id. Posts not in the list are unchanged. |
| AiSearchFixer.GetRecommendations | seo-autopilot-pro/modules/fixes/class-ai-search-fixer.php:183-191 | The result fails iff the analysis fails, and a missing post gives post_not_found. |
| AiSearchFixer.RealRecommendations | seo-autopilot-pro/modules/fixes/class-ai-search-fixer.php:183-191 | With the plugin's own analysis, a post is recommended exactly the categories it scores below the bar for. |
| AiSearchFixer.QuickFixOne | seo-autopilot-pro/modules/fixes/class-ai-search-fixer.php:206-231 | Only a high-priority recommendation acts. A direct answer is inserted or a FAQ appended when its generation succeeds, and the fix's name is reported; a reported direct answer leaves the site `insert_direct_answer` writes. add_schema does nothing. Only the post can change. |
| AiSearchFixer.QuickFixes | seo-autopilot-pro/modules/fixes/class-ai-search-fixer.php:203-232 | Recommendations are handled in order, and at most one fix is applied per recommendation. Only the post can change. For recommendations in check order the fixes reported are the direct answer, when recommended and generated, then the FAQ, when recommended and the AI replied. |
| AiSearchFixer.QuickFix | seo-autopilot-pro/modules/fixes/class-ai-search-fixer.php:196-239 | The analysis' error passes through. Otherwise the count equals the number of fixes applied, which follow the recommendation order. |
| AiSearchFixer.RealAnalysisQuickFix | seo-autopilot-pro/modules/fixes/class-ai-search-fixer.php:196-239 | With the plugin's own analysis, quick_fix applies at most the direct answer (direct-answer score below 50) and then the FAQ (FAQ score below 60), in that order. |
| AiSearchFixer.Band | seo-autopilot-pro/modules/fixes/class-ai-search-fixer.php:304-312 | Each score falls in exactly one band: 80 and up excellent, 60-79 good, 40-59 needs work, below 40 poor. |
| AiSearchFixer.ScoresOf | seo-autopilot-pro/modules/fixes/class-ai-search-fixer.php:300-301 | Each stored score is read with PHP's integer cast, one per row. |
| AiSearchFixer.TallyCount | seo-autopilot-pro/modules/fixes/class-ai-search-fixer.php:300-313 | The four band counts add up to the number of scores. |
| AiSearchFixer.TallyAppend | seo-autopilot-pro/modules/fixes/class-ai-search-fixer.php:300-313 | The tally of two batches is the sum of their tallies. |
| AiSearchFixer.TallyOrderFree | seo-autopilot-pro/modules/fixes/class-ai-search-fixer.php:288-313 | The statistics do not depend on the order the database returns the rows in. |
| AiSearchFixer.TallyBounds | seo-autopilot-pro/modules/fixes/class-ai-search-fixer.php:300-303 | Scores within 0-100 give a total within 0-100 per score. |
| AiSearchFixer.OptimizationStats | seo-autopilot-pro/modules/fixes/class-ai-search-fixer.php:272-319 | total_posts is the published count and optimized_posts the number of score rows. With no rows, the average and every band are 0. Otherwise the bands partition the rows, and the average is the integer nearest to the total over the count; at an exact half it is the one farther from zero. |
| AiSearchFixer.AverageInRange | seo-autopilot-pro/modules/fixes/class-ai-search-fixer.php:315 | When the stored scores are within 0-100, so is their average. |
| AiSearchFixer.NeedingIds | seo-autopilot-pro/modules/fixes/class-ai-search-fixer.php:333-345 | The posts that need optimising are a subsequence of the published posts. |
| AiSearchFixer.NeedingIdsExactly | seo-autopilot-pro/modules/fixes/class-ai-search-fixer.php:336-337 | A published post is kept exactly when its score is empty, "0", or below the threshold. |
| AiSearchFixer.NeedingIdsFilter | seo-autopilot-pro/modules/fixes/class-ai-search-fixer.php:333-345 | The listed posts are exactly the published posts whose score is empty, "0" or below the threshold, in publishing order. |
| AiSearchFixer.FindPostsNeedingOptimization | seo-autopilot-pro/modules/fixes/class-ai-search-fixer.php:324-348 | Each candidate carries its own title, its score ("0" when none is stored) and its last optimisation time. There are no more candidates than published posts. |
| AiSearchFixer.CandidatesExactly | seo-autopilot-pro/modules/fixes/class-ai-search-fixer.php:333-345 | A published post is listed exactly when it needs optimising. |
| AiSearchFixer.ScoredPostNotListed | seo-autopilot-pro/modules/fixes/class-ai-search-fixer.php:333-345 | A post whose stored score is set and reaches the threshold is not listed. |
| SiteProfiler.PublishingFrequency | seo-autopilot-pro/modules/intelligence/class-site-profiler.php:349-373 | Fewer than two posts rate sporadic. Otherwise the rating depends only on how many of the ten newest posts were read and on the span from the oldest of them to the newest. |
| SiteProfiler.ClassifyMatchesRate | seo-autopilot-pro/modules/intelligence/class-site-profiler.php:366-372 | The rating agrees with posts per week computed as in the source: daily from 5, multiple_per_week from 2, weekly from 0.5, otherwise sporadic, and sporadic for a zero span. |
| SiteProfiler.FrequencyMonotone | seo-autopilot-pro/modules/intelligence/class-site-profiler.php:366-372 | The same number of posts over a longer span never rates higher. |
| SiteProfiler.OnlyEndpointsMatter | seo-autopilot-pro/modules/intelligence/class-site-profiler.php:362-367 | Two histories with the same count, newest date and oldest read date rate the same. |
| SiteProfiler.FrequencyExamples | seo-autopilot-pro/modules/intelligence/class-site-profiler.php:358-372 | Ten posts a day apart rate daily. Because posts, not gaps, are divided by the span, two posts a week apart rate multiple_per_week and two posts four weeks apart rate weekly. Two posts at the same moment rate sporadic. |
| SiteProfiler.PhpMod | seo-autopilot-pro/modules/intelligence/class-site-profiler.php:415 | PHP's remainder takes the sign of the dividend: it equals Dafny's for non-negative operands and lies in (-b, 0] otherwise. |
| SiteProfiler.GetSiteAge | seo-autopilot-pro/modules/intelligence/class-site-profiler.php:398-422 | With no post, the age is zero years and months and has no date. Otherwise the first post's date string is reported. |
| SiteProfiler.SiteAgeBounds | seo-autopilot-pro/modules/intelligence/class-site-profiler.php:410-421 | For a first post in the past, years and months never overstate the elapsed time, less than a year plus a month is left over, and there are at most 12 months. |
| SiteProfiler.FutureFirstPost | seo-autopilot-pro/modules/intelligence/class-site-profiler.php:410-421 | A first post dated in the future gives a negative number of years, and months as low as -13. |
| SiteProfiler.GetContentVolume | seo-autopilot-pro/modules/intelligence/class-site-profiler.php:427-436 | The total is the published posts plus the published pages. |
| SiteProfiler.AverageWordCount | seo-autopilot-pro/modules/intelligence/class-site-profiler.php:326-336 | A site with no sampled post averages 0 words. |
| SiteProfiler.AverageBetween | seo-autopilot-pro/modules/intelligence/class-site-profiler.php:330-336 | The rounded average lies between the shortest and the longest sampled post. |
| SiteProfiler.Described | seo-autopilot-pro/modules/intelligence/class-site-profiler.php:104-113 | An AI error, or a reply that does not decode to an array, gives the default. Anything else is the decoded description. |
| SiteProfiler.DetectNiche | seo-autopilot-pro/modules/intelligence/class-site-profiler.php:49-114 | A site with no published post, or a failed call, gets the default niche. Otherwise the niche is the AI's description. |
| SiteProfiler.NoPostsNoNicheCall | seo-autopilot-pro/modules/intelligence/class-site-profiler.php:58-70 | With no posts, the niche does not depend on the AI. |
| SiteProfiler.AnalyzeTargetAudience | seo-autopilot-pro/modules/intelligence/class-site-profiler.php:119-160 | Without the Search Console connector, or on an AI error, the audience is the default. Otherwise it is the AI's description. |
| SiteProfiler.LoadedPosts | seo-autopilot-pro/modules/intelligence/class-site-profiler.php:172-178 | The samples are exactly the top performers that still load. |
| SiteProfiler.ExtractWritingStyle | seo-autopilot-pro/modules/intelligence/class-site-profiler.php:165-208 | With no top performer that loads, or on an AI error, the style is the default. Otherwise it is the AI's description. |
| SiteProfiler.BuildSiteProfile | seo-autopilot-pro/modules/intelligence/class-site-profiler.php:25-44 | Each field is what its part computes: the niche from `detect_niche`, the audience from `analyze_target_audience`, the word count from the sampled average, the rate from `analyze_publishing_frequency`, the style from `extract_writing_style`, the age from `get_site_age`, and the volume from `get_content_volume`. Volume totals posts plus pages. |
| SiteProfiler.ProfileOfEmptySite | seo-autopilot-pro/modules/intelligence/class-site-profiler.php:25-44 | A site without published posts gets the default niche and style, no age, a sporadic rate, and zero posts and words, whatever the AI answers. |
| ChangeTracker.CheckRobotsTxt | seo-autopilot-pro/modules/monitoring/class-change-tracker.php:59-90 | A failed request changes nothing. The first body is remembered without an alert. Later, an alert comes iff the body's hash differs and the body disallows something, ignoring case, and the new hash is remembered only then. |
| ChangeTracker.RobotsAlertsOnce | seo-autopilot-pro/modules/monitoring/class-change-tracker.php:71-81 | After an alert, the same body is quiet. |
| ChangeTracker.RobotsQuietChangeForgotten | seo-autopilot-pro/modules/monitoring/class-change-tracker.php:71-87 | A change that blocks nothing is not remembered. So the original body is quiet afterwards, and a blocking body still alerts against the original hash. |
| ChangeTracker.ProbeSitemaps | seo-autopilot-pro/modules/monitoring/class-change-tracker.php:102-111 | The sitemap counts as found iff one of the three URLs answers 200. |
| ChangeTracker.StoreSitemapStatus | seo-autopilot-pro/modules/monitoring/class-change-tracker.php:116 | Only the sitemap status changes. Storing true, or storing over a stored status, stores the value. Storing false over a status never stored leaves the memory unchanged, as WordPress skips an update equal to the option's default. |
| ChangeTracker.CheckSitemap | seo-autopilot-pro/modules/monitoring/class-change-tracker.php:95-130 | It alerts iff no sitemap URL answers 200 and the previous status, true when never stored, is true. A stored status then follows the sitemap. A status never stored stays unstored. |
| ChangeTracker.SitemapEpisodes | seo-autopilot-pro/modules/monitoring/class-change-tracker.php:113-127 | Once a status is stored, a sitemap missing twice alerts once. After it comes back, a new absence alerts again. |
| ChangeTracker.UnstoredSitemapAlertsEveryRun | seo-autopilot-pro/modules/monitoring/class-change-tracker.php:113-116 | When the status was never stored, any number of runs that miss the sitemap leave the memory as it was, so every run alerts. |
| ChangeTracker.CheckSitemapIntended | seo-autopilot-pro/modules/monitoring/class-change-tracker.php:95-130 | The corrected check: alerts under the same condition, and an absence always stores false. |
| ChangeTracker.IntendedSitemapEpisodes | seo-autopilot-pro/modules/monitoring/class-change-tracker.php:113-127 | Under the corrected check, from any memory, a sitemap missing twice alerts once, and a new absence after recovery alerts again. |
| ChangeTracker.IntendedSitemapAlertsOnce | seo-autopilot-pro/modules/monitoring/class-change-tracker.php:113-127 | Under the corrected check, after one or more runs missing the sitemap the status is false and the next such run is silent, a fresh install included. |
| ChangeTracker.NoindexStep | seo-autopilot-pro/modules/monitoring/class-change-tracker.php:147-168 | After a post is seen, it is tracked iff it has noindex. Other posts' tracking and all posts are unchanged. |
| ChangeTracker.CheckMetaRobots | seo-autopilot-pro/modules/monitoring/class-change-tracker.php:135-172 | Every listed post ends tracked iff it has noindex, and unlisted posts keep their tracking. Each report is about a listed noindex post, with its title. There are no more reports than posts. |
| ChangeTracker.QuietWhenInStep | seo-autopilot-pro/modules/monitoring/class-change-tracker.php:151-164 | When tracking already matches the noindex flags, nothing is reported. |
| ChangeTracker.NoindexReportedOnce | seo-autopilot-pro/modules/monitoring/class-change-tracker.php:151-168 | A second run over the same posts reports nothing: each noindex is reported once per episode. |
| ChangeTracker.NewNoindexReported | seo-autopilot-pro/modules/monitoring/class-change-tracker.php:151-164 | A listed post whose noindex is new is reported. |
| ChangeTracker.SchemaStep | seo-autopilot-pro/modules/monitoring/class-change-tracker.php:238-241 | A post that has schema is remembered as having had it. The schema state, titles and posts are unchanged. |
| ChangeTracker.CheckSchemaChanges | seo-autopilot-pro/modules/monitoring/class-change-tracker.php:213-245 | The run changes only the had-schema flags and never the schema itself or any post. |
| ChangeTracker.SchemaReports | seo-autopilot-pro/modules/monitoring/class-change-tracker.php:229-236 | Each report is about a listed post whose schema is gone, with its title. |
| ChangeTracker.SchemaRunReports | seo-autopilot-pro/modules/monitoring/class-change-tracker.php:225-242 | A run reports exactly the listed posts whose schema is gone, read before the run's own writes. |
| ChangeTracker.SchemaReportedEveryRun | seo-autopilot-pro/modules/monitoring/class-change-tracker.php:229-241 | The flag is never cleared, so while the schema stays away the removal is reported on every run. |
| ChangeTracker.AllBroken | seo-autopilot-pro/modules/monitoring/class-change-tracker.php:187-205 | Every report is a broken_link warning for a URL whose request failed or answered 404. |
| ChangeTracker.PostBroken | seo-autopilot-pro/modules/monitoring/class-change-tracker.php:191-204 | Every broken URL of a post is reported, as a warning. |
| ChangeTracker.CheckBrokenLinks | seo-autopilot-pro/modules/monitoring/class-change-tracker.php:177-208 | The result is the first ten broken links, in order, and all of them when there are fewer. |
| ChangeTracker.CriticalChecks | seo-autopilot-pro/modules/monitoring/class-change-tracker.php:23-39 | The findings are exactly the robots.txt alert, then the sitemap alert, then the noindex alerts, each as its detector reports it; all are critical, at most two plus one per modified post. The options are what the robots.txt and sitemap checks leave, and the site what the noindex check leaves. |
| ChangeTracker.WarningChecks | seo-autopilot-pro/modules/monitoring/class-change-tracker.php:41-51 | The findings are exactly the first ten broken links followed by the schema removals, as their detectors report them; all are warnings. The site is what the schema check leaves. |
| ChangeTracker.CheckForChanges | seo-autopilot-pro/modules/monitoring/class-change-tracker.php:16-54 | The critical list is the robots.txt, sitemap and noindex detectors' findings in that order, and the warning list is the broken-link then schema detectors' findings. Critical findings are critical and warnings are warnings. Nothing is ever informational. No post changes. |
| ChangeTracker.CheckHomepageChanges | seo-autopilot-pro/modules/monitoring/class-change-tracker.php:309-335 | Without a front page, nothing happens. The first hash is remembered silently. A different hash later warns and is remembered. |
| ChangeTracker.HomepageWarnsOnce | seo-autopilot-pro/modules/monitoring/class-change-tracker.php:320-331 | An edit warns once: the next check of the same homepage is quiet. |
| ChangeTracker.DetectChanges | seo-autopilot-pro/modules/monitoring/class-change-tracker.php:252-282 | A title change is listed iff the titles differ, and a slug change iff the slugs differ. A content change is listed iff the word count moved by more than 100, and it carries that absolute difference. Each change carries the before and after values. No kind occurs twice, and they come in the order title, slug, content. |
| ChangeTracker.TrackPostUpdate | seo-autopilot-pro/modules/monitoring/class-change-tracker.php:250-297 | With no change, the log is untouched. Otherwise one record of the changes joins the end of the log, which keeps its last ten. |
| ChangeTracker.UnchangedPostNotLogged | seo-autopilot-pro/modules/monitoring/class-change-tracker.php:284-296 | Saving a post unchanged leaves its log alone. |
| AlertSystem.CriticalMail | seo-autopilot-pro/modules/monitoring/class-alert-system.php:116-130 | The mail goes to the notification address with "[CRITICAL] " and the title as its subject. The body is the message and a blank line, then the affected URL when one is set, then the dashboard link. |
| AlertSystem.CreateAlert | seo-autopilot-pro/modules/monitoring/class-alert-system.php:16-30 | The row is appended unread under the next id, which is returned, and the table stays well formed. Exactly a critical alert sends one mail, the notification. |
| AlertSystem.CreateAlertSafe | seo-autopilot-pro/modules/monitoring/class-alert-system.php:164-198 | An alert of the same type, and of the same URL when one is given, created within the last hour is a duplicate. A duplicate creates nothing and mails nobody. Anything else is created as by create_alert. |
| AlertSystem.RepeatSuppressed | seo-autopilot-pro/modules/monitoring/class-alert-system.php:164-197 | An alert just created suppresses the same alert, critical or not, for the next hour. |
| AlertSystem.Page | seo-autopilot-pro/modules/monitoring/class-alert-system.php:51-55 | A page holds only rows of the table, newest first. It has the limit's number of rows, or all the rows after the offset when fewer remain, and none when the offset is past the end. |
| AlertSystem.PagesTile | seo-autopilot-pro/modules/monitoring/class-alert-system.php:51-55 | A page of `a` rows followed by the page of `b` rows after it is the page of `a + b` rows. |
| AlertSystem.PageHoldsNewest | seo-autopilot-pro/modules/monitoring/class-alert-system.php:51-55 | A row left off a first page means the page is full and every row on it is at least as new as the missing row. |
| AlertSystem.PageAfterEarlier | seo-autopilot-pro/modules/monitoring/class-alert-system.php:51-55 | The rows skipped by the offset are each at least as new as every row on the page. |
| AlertSystem.PageLeavesOlder | seo-autopilot-pro/modules/monitoring/class-alert-system.php:51-55 | A row neither skipped nor on the page is no newer than any row on the page. |
| AlertSystem.WholePage | seo-autopilot-pro/modules/monitoring/class-alert-system.php:51-55 | With room for all of them, the page is a reordering of all the rows. |
| AlertSystem.GetUnreadAlerts | seo-autopilot-pro/modules/monitoring/class-alert-system.php:35-42 | At most 50 unread alerts are listed, newest first. An unread alert is left out only when 50 are listed, each at least as new as it. |
| AlertSystem.UnreadAllListed | seo-autopilot-pro/modules/monitoring/class-alert-system.php:39-41 | When there are no more than 50 unread alerts, every one of them is listed. |
| AlertSystem.GetAlerts | seo-autopilot-pro/modules/monitoring/class-alert-system.php:47-56 | The rows listed are the newest after the skipped ones: as many as the limit allows, newest first, each no newer than a skipped row and at least as new as any row neither skipped nor listed. |
| AlertSystem.GetRecentCritical | seo-autopilot-pro/modules/monitoring/class-alert-system.php:149-159 | Exactly the critical alerts created within the last given days are listed, newest first. |
| AlertSystem.MarkAsRead | seo-autopilot-pro/modules/monitoring/class-alert-system.php:61-70 | Only the alert with that id becomes read. Every other row and the next id are unchanged. |
| AlertSystem.MarkAllAsRead | seo-autopilot-pro/modules/monitoring/class-alert-system.php:75-80 | Every row becomes read and nothing else changes. |
| AlertSystem.NothingUnreadAfterMarkAll | seo-autopilot-pro/modules/monitoring/class-alert-system.php:75-111 | After marking everything read, nothing is unread and every count is 0. |
| AlertSystem.DeleteAlert | seo-autopilot-pro/modules/monitoring/class-alert-system.php:85-90 | Exactly the rows with that id are removed. |
| AlertSystem.CleanOldAlerts | seo-autopilot-pro/modules/monitoring/class-alert-system.php:135-144 | Exactly the read alerts older than 30 days are removed, so the unread alerts are untouched. |
| AlertSystem.UnreadSurviveCleaning | seo-autopilot-pro/modules/monitoring/class-alert-system.php:139-143 | Removing stale alerts keeps every unread alert, in order. |
| AlertSystem.CleaningKeepsUnreadList | seo-autopilot-pro/modules/monitoring/class-alert-system.php:35-42 | Cleaning never changes the unread list. |
| AlertSystem.CountUnread | seo-autopilot-pro/modules/monitoring/class-alert-system.php:99-104 | A severity's count is at most the number of rows. |
| AlertSystem.GetAlertCounts | seo-autopilot-pro/modules/monitoring/class-alert-system.php:95-111 | The three counts add up to the unread alerts, and a severity with no unread alert counts 0. |
| AlertSystem.CountsSplit | seo-autopilot-pro/modules/monitoring/class-alert-system.php:99-110 | Every unread alert is counted under exactly one of the three severities. |
| AlertSystem.NoUnreadNoCount | seo-autopilot-pro/modules/monitoring/class-alert-system.php:106-110 | A severity absent from the unread alerts counts 0. |
| AlertSystem.CountAppend | seo-autopilot-pro/modules/monitoring/class-alert-system.php:99-104 | A new row adds one to its severity's count iff it is unread. |
| AlertSystem.CreateAlertCounts | seo-autopilot-pro/modules/monitoring/class-alert-system.php:16-30 | A new alert adds one to its own severity's count and nothing to the others. |
| AlertSystem.MarkAsReadCount | seo-autopilot-pro/modules/monitoring/class-alert-system.php:61-70 | Marking an alert read never raises a count. |
| AlertSystem.MarkAsReadNeverRaisesCounts | seo-autopilot-pro/modules/monitoring/class-alert-system.php:61-111 | After mark_as_read, no severity's unread count is higher. |
| CronScheduler.ScheduleJobs | seo-autopilot-pro/modules/monitoring/class-cron-scheduler.php:16-48 | Each of the five hooks not yet scheduled is added with its recurrence. A scheduled hook, and every other hook, is left as it is. |
| CronScheduler.ClearJobs | seo-autopilot-pro/modules/monitoring/class-cron-scheduler.php:53-59 | Exactly the five hooks are removed, and the others are kept. |
| CronScheduler.ScheduleIdempotent | seo-autopilot-pro/modules/monitoring/class-cron-scheduler.php:16-59 | Scheduling twice is scheduling once. Clearing after scheduling leaves what clearing alone leaves. |
| CronScheduler.CountOf | seo-autopilot-pro/modules/monitoring/class-cron-scheduler.php:91-99 | The count of one severity is at most the number of findings. |
| CronScheduler.CountsPartition | seo-autopilot-pro/modules/monitoring/class-cron-scheduler.php:94-99 | Every finding has exactly one of the three severities. |
| CronScheduler.CountBySeverity | seo-autopilot-pro/modules/monitoring/class-cron-scheduler.php:91-99 | The tallies are the critical and the warning findings. Info findings count only towards the total. |
| CronScheduler.StoreFindings | seo-autopilot-pro/modules/monitoring/class-cron-scheduler.php:101-113 | Every finding is stored after the existing issues, in order, under the new audit with consecutive ids and its own fields. |
| CronScheduler.SelectAutoFix | seo-autopilot-pro/modules/monitoring/class-cron-scheduler.php:274-281 | Only the audit's pending, auto-fixable issues are handed over, highest priority first. A non-negative limit caps them. |
| CronScheduler.FewAreAllSelected | seo-autopilot-pro/modules/monitoring/class-cron-scheduler.php:274-281 | When there are no more than the limit, every pending auto-fixable issue of the audit is handed to the fixer. |
| CronScheduler.LeftOutRanksLower | seo-autopilot-pro/modules/monitoring/class-cron-scheduler.php:274-281 | A pending, auto-fixable issue of the audit that is not selected was crowded out. With a non-negative limit the selection is full, and every selected issue has at least its priority. |
| CronScheduler.TriggerAutoFix | seo-autopilot-pro/modules/monitoring/class-cron-scheduler.php:270-289 | The fixer is called iff there is something to fix, with exactly the selected ids. |
| CronScheduler.FreshInstallDoesNotAudit | seo-autopilot-pro/modules/monitoring/class-cron-scheduler.php:67-70 | auto_audit_enabled is not among the defaults, so a fresh install does not audit on its own. |
| CronScheduler.RunDailyAudit | seo-autopilot-pro/modules/monitoring/class-cron-scheduler.php:64-144 | Nothing happens iff auditing is off. Otherwise the audit is completed with the total and the per-severity counts, and every finding is stored. The critical mail goes out iff something critical was found. The fixer runs iff auto-fix is on and there is something to fix. |
| CronScheduler.ProfileDueMeansAWeek | seo-autopilot-pro/modules/monitoring/class-cron-scheduler.php:154-157 | The integer test agrees with the source's real-valued age in days: due iff never stamped or at least seven days old. |
| CronScheduler.RunProfileUpdate | seo-autopilot-pro/modules/monitoring/class-cron-scheduler.php:149-169 | The profile is rebuilt iff it is due, and the notice is sent iff it was rebuilt. |
| CronScheduler.FreshProfileKept | seo-autopilot-pro/modules/monitoring/class-cron-scheduler.php:154-158 | A profile stamped less than a week ago is left alone. |
| CronScheduler.RunMonitoringCheck | seo-autopilot-pro/modules/monitoring/class-cron-scheduler.php:174-196 | No critical change raises nothing. Otherwise one critical alert is created, which also mails. |
| CronScheduler.MonitoringMessageCount | seo-autopilot-pro/modules/monitoring/class-cron-scheduler.php:188 | The alert's message begins with the number of critical changes, which reads back as that count. |
| CronScheduler.CleanExpiredCache | seo-autopilot-pro/includes/class-database.php:295-300 | Exactly the research entries past their expiry go. Issues, fixes and the other entries are untouched. |
| CronScheduler.CleaningKeepsLookups | seo-autopilot-pro/modules/monitoring/class-cron-scheduler.php:203-204 | Cleaning changes no cache lookup from then on. |
| CronScheduler.CleanOldAudits | seo-autopilot-pro/modules/monitoring/class-cron-scheduler.php:211-212 | Exactly the audits older than 90 days go. |
| CronScheduler.RunAiOptimizationBatch | seo-autopilot-pro/modules/monitoring/class-cron-scheduler.php:224-265 | Nothing happens when the batch is off. Otherwise the posts handed to the optimiser are the first ten, in publishing order, of the published posts that need optimising, and the summary is sent iff there was at least one. |
| CronScheduler.BatchNeedsOptimization | seo-autopilot-pro/modules/monitoring/class-cron-scheduler.php:235-238 | Every post taken from the candidate list is published and needs optimising. |
| CronScheduler.TriggerJob | seo-autopilot-pro/modules/monitoring/class-cron-scheduler.php:338-353 | A known name runs the job of that name, and anything else gives invalid_job. |
| CronScheduler.TriggerJobExactly | seo-autopilot-pro/modules/monitoring/class-cron-scheduler.php:338-353 | Every job can be triggered by its name, and only the five names trigger anything. |
| PageSpeed.Lookup | seo-autopilot-pro/modules/data-collection/class-pagespeed-connector.php:102-103 | An audit is found iff its id is among the report's audits, and the value returned is one recorded under that id. |
| PageSpeed.Round | seo-autopilot-pro/modules/data-collection/class-pagespeed-connector.php:64 | PHP's round to an integer: halves go away from zero. |
| PageSpeed.MetricsOf | seo-autopilot-pro/modules/data-collection/class-pagespeed-connector.php:65-74 | Each metric is the numericValue of its own audit: LCP from largest-contentful-paint, FID from max-potential-fid, CLS from cumulative-layout-shift, and so on. |
| PageSpeed.OpportunitiesOver | seo-autopilot-pro/modules/data-collection/class-pagespeed-connector.php:99-115 | Each opportunity is a listed id whose audit is present and scores below 1, with that audit's fields. |
| PageSpeed.OpportunityIdsFilter | seo-autopilot-pro/modules/data-collection/class-pagespeed-connector.php:99-115 | The ids of the opportunities are the listed ids, filtered to those whose audit is present and scores below 1, in list order. |
| PageSpeed.OpportunitiesExactly | seo-autopilot-pro/modules/data-collection/class-pagespeed-connector.php:101-102 | An id of the list is reported exactly when its audit is present and scores below 1. |
| PageSpeed.OpportunitiesInListOrder | seo-autopilot-pro/modules/data-collection/class-pagespeed-connector.php:101-113 | Opportunities come in the order of the list. |
| PageSpeed.ExtractOpportunitiesOrdered | seo-autopilot-pro/modules/data-collection/class-pagespeed-connector.php:84-116 | The plugin's opportunities follow its fixed list of eleven audits, and each of them that is failing is among them. |
| PageSpeed.ExtractOpportunities | seo-autopilot-pro/modules/data-collection/class-pagespeed-connector.php:84-116 | The opportunities' ids are exactly the failing ones among the eleven listed audits, in the list's order. |
| PageSpeed.DiagnosticsOver | seo-autopilot-pro/modules/data-collection/class-pagespeed-connector.php:134-150 | Each diagnostic is a listed id whose audit is present, with that audit's fields. |
| PageSpeed.ExtractDiagnostics | seo-autopilot-pro/modules/data-collection/class-pagespeed-connector.php:121-151 | The diagnostics are exactly the nine listed audits that are present, in the list's order, each with that audit's fields. |
| PageSpeed.DiagnosticsExactly | seo-autopilot-pro/modules/data-collection/class-pagespeed-connector.php:134-150 | The ids reported are exactly the listed ids whose audit is present, in list order. |
| PageSpeed.ExtractPassed | seo-autopilot-pro/modules/data-collection/class-pagespeed-connector.php:156-169 | Every passed entry is an audit whose score is exactly the integer 1, with its title. |
| PageSpeed.PassedComplete | seo-autopilot-pro/modules/data-collection/class-pagespeed-connector.php:159-165 | Every audit scored the integer 1 is listed as passed. |
| PageSpeed.FloatOneNotPassed | seo-autopilot-pro/modules/data-collection/class-pagespeed-connector.php:160 | The strict comparison means a float 1.0 is not the integer 1, so such an audit is not listed. |
| PageSpeed.ParseResults | seo-autopilot-pro/modules/data-collection/class-pagespeed-connector.php:59-79 | The performance score is the category score times 100, rounded, and a score within 0-1 gives 0-100. Metrics, opportunities, diagnostics and passed audits come from the report's audits. |
| PageSpeed.AnalyzeUrl | seo-autopilot-pro/modules/data-collection/class-pagespeed-connector.php:24-54 | No key gives no_api_key, a failed request passes its error, and a status other than 200 gives api_error. The call succeeds iff none of these happens, with the parsed report. |
| PageSpeed.AnalyzeMultipleUrls | seo-autopilot-pro/modules/data-collection/class-pagespeed-connector.php:174-189 | Exactly the URLs whose analysis succeeds are keys, each with its own analysis. |
| PageSpeed.NoKeyNoResults | seo-autopilot-pro/modules/data-collection/class-pagespeed-connector.php:25-27 | Without a key, nothing is analysed. |
| PageSpeed.Grade | seo-autopilot-pro/modules/data-collection/class-pagespeed-connector.php:234-253 | A metric strictly above the poor threshold is poor, and one at or below the first threshold is good. |
| PageSpeed.AssessCoreWebVitals | seo-autopilot-pro/modules/data-collection/class-pagespeed-connector.php:222-263 | Missing metrics read as 0. LCP, FID and CLS are graded against 2500/4000 ms, 100/300 ms and 0.1/0.25. The overall verdict is one of the three and no better than any of them. |
| PageSpeed.OverallIsWorst | seo-autopilot-pro/modules/data-collection/class-pagespeed-connector.php:255-260 | The overall verdict is the worst of the three, and with no metrics at all it is good. |
| PageSpeed.GradeMonotone | seo-autopilot-pro/modules/data-collection/class-pagespeed-connector.php:234-253 | A slower page never grades better. |
| PageSpeed.GetCoreWebVitals | seo-autopilot-pro/modules/data-collection/class-pagespeed-connector.php:194-217 | A failed mobile run is the error. Otherwise the mobile part carries the mobile run's LCP, FID, CLS and performance score. The desktop part carries the same four values of the desktop run, and is empty when that run failed. The verdict is the mobile one. |
| PageSpeed.FromOpportunities | seo-autopilot-pro/modules/data-collection/class-pagespeed-connector.php:278-288 | Each high-priority recommendation is an opportunity scored below 0.5 (or unscored), with its title. |
| PageSpeed.FromOpportunitiesExactly | seo-autopilot-pro/modules/data-collection/class-pagespeed-connector.php:278-288 | The high-priority recommendations are, in order, one per opportunity scored below 0.5 or unscored, and none for the others. |
| PageSpeed.FromDiagnostics | seo-autopilot-pro/modules/data-collection/class-pagespeed-connector.php:291-301 | Each medium-priority recommendation is a diagnostic with a score below 0.5, with its title. |
| PageSpeed.FromDiagnosticsExactly | seo-autopilot-pro/modules/data-collection/class-pagespeed-connector.php:291-301 | The medium-priority recommendations are, in order, one per diagnostic with a score below 0.5, and none for the others. |
| PageSpeed.GetRecommendations | seo-autopilot-pro/modules/data-collection/class-pagespeed-connector.php:268-304 | An analysis error passes through. High-priority recommendations all come before medium ones, and there is at most one per opportunity or diagnostic. |
| PageSpeed.RecommendationsExactly | seo-autopilot-pro/modules/data-collection/class-pagespeed-connector.php:268-304 | For an analysis, the recommendations are exactly the urgent opportunities' high-priority ones followed by the weak diagnostics' medium-priority ones. |
| PageSpeed.NoLowDiagnostics | seo-autopilot-pro/modules/data-collection/class-pagespeed-connector.php:291-292 | Diagnostics all scored at least 0.5 recommend nothing. |
| PageSpeed.AllPassingNoRecommendations | seo-autopilot-pro/modules/data-collection/class-pagespeed-connector.php:275-303 | An analysis with nothing failing recommends nothing. |
| SiteCrawler.GetUrlsToCrawl | seo-autopilot-pro/modules/data-collection/class-site-crawler.php:206-224 | The homepage comes first, every URL appears once, and the URLs are exactly the homepage and the permalinks. They keep the order in which each URL first occurs in the homepage-then-permalinks list. |
| SiteCrawler.Classify | seo-autopilot-pro/modules/data-collection/class-site-crawler.php:161-167 | A link is internal iff it contains the site URL or starts with "/". It is external iff it is not internal and starts with "http". |
| SiteCrawler.CountKind | seo-autopilot-pro/modules/data-collection/class-site-crawler.php:159-168 | A count of one kind is at most the number of links. |
| SiteCrawler.LinkCountsPartition | seo-autopilot-pro/modules/data-collection/class-site-crawler.php:161-168 | Every link is internal, external or neither, so the three counts add up to the number of links. |
| SiteCrawler.CountLinks | seo-autopilot-pro/modules/data-collection/class-site-crawler.php:159-168 | The loop's tallies are the numbers of internal and external links, and together they never exceed the links. |
| SiteCrawler.RelativeLinksInternal | seo-autopilot-pro/modules/data-collection/class-site-crawler.php:163 | Relative links are all internal, whatever the site URL. |
| SiteCrawler.ImagesWithoutAlt | seo-autopilot-pro/modules/data-collection/class-site-crawler.php:170-177 | An image counts when its alt is absent or empty in PHP's sense ("0" included). The count is 0 iff no image lacks one, and all of them iff every image does. |
| SiteCrawler.RobotsFlags | seo-autopilot-pro/modules/data-collection/class-site-crawler.php:135-141 | Without a robots tag, both flags are false. Otherwise each flag is whether the first tag's lower-cased content contains "noindex" or "nofollow". |
| SiteCrawler.UpperCaseNoindex | seo-autopilot-pro/modules/data-collection/class-site-crawler.php:138-139 | The test ignores case: "NOINDEX" counts. |
| SiteCrawler.SchemaTypes | seo-autopilot-pro/modules/data-collection/class-site-crawler.php:149-156 | Each type listed is the @type of one of the JSON-LD blocks, and there are no more types than blocks. |
| SiteCrawler.SchemaTypesExactly | seo-autopilot-pro/modules/data-collection/class-site-crawler.php:149-156 | The types are exactly the @types of the blocks that have one, one per block, in document order. |
| SiteCrawler.Properties | seo-autopilot-pro/modules/data-collection/class-site-crawler.php:179-191 | A property is a key iff some tag carries it. |
| SiteCrawler.LastPropertyWins | seo-autopilot-pro/modules/data-collection/class-site-crawler.php:183 | A repeated property keeps its last value. |
| SiteCrawler.PropertyIsLastValue | seo-autopilot-pro/modules/data-collection/class-site-crawler.php:179-191 | A property's value is the value of the last tag that carries it, wherever that tag stands. |
| SiteCrawler.ParseHtml | seo-autopilot-pro/modules/data-collection/class-site-crawler.php:92-201 | The title, description and canonical come from the first tag of their kind, or are empty. All H1s are kept. The robots flags, link counts and image counts are as above. The word count is the body's, or 0 without a body. The schema types, Open Graph and Twitter maps are those of the JSON-LD blocks and the og:/twitter: tags. Every field is fixed by the DOM. |
| SiteCrawler.CrawlUrl | seo-autopilot-pro/modules/data-collection/class-site-crawler.php:46-87 | A failed request is the error. Any status is read: the URL, status, load time and size are recorded, and the page is what `parse_html` reads from the body's DOM, field by field. |
| SiteCrawler.SavedRow | seo-autopilot-pro/modules/data-collection/class-site-crawler.php:229-253 | The stored row carries the crawl's URL, title, meta description, H1s, word count, images without alt and load time, as the technical analyzer later reads them. |
| SiteCrawler.Visited | seo-autopilot-pro/modules/data-collection/class-site-crawler.php:27 | A crawl visits a prefix of the URLs, at most the page limit. |
| SiteCrawler.Succeeded | seo-autopilot-pro/modules/data-collection/class-site-crawler.php:28-34 | Only visited URLs whose request succeeded are kept. |
| SiteCrawler.SucceededAppend | seo-autopilot-pro/modules/data-collection/class-site-crawler.php:27-38 | One more visited URL adds itself to the results iff its request succeeds. |
| SiteCrawler.CrawlSite | seo-autopilot-pro/modules/data-collection/class-site-crawler.php:23-41 | At most the page limit of URLs is visited. The successful crawls are returned and saved, in visiting order, and failures are skipped. |
| Common.KeepLast | seo-autopilot-pro/modules/monitoring/class-change-tracker.php:293 | A negative slice keeps the last n entries, in order, or all of them when there are fewer. |
| Common.SliceHead | seo-autopilot-pro/modules/monitoring/class-cron-scheduler.php:281 | A slice from 0 keeps a prefix: with a non-negative length, that many entries or all of them. A negative length stops that many entries before the end. |
| Common.Dedupe | seo-autopilot-pro/modules/data-collection/class-site-crawler.php:223 | Removing repeats keeps each value once, with the same set of values and the first element first. |
| Common.DedupeAppend | seo-autopilot-pro/modules/data-collection/class-site-crawler.php:223 | Deduplication keeps first occurrences: a repeated value adds nothing and a new one goes at the end. |
| Common.RoundDiv | seo-autopilot-pro/modules/fixes/class-ai-search-fixer.php:315 | Rounding an integer quotient gives the nearest integer, with halves going away from zero. |
| Common.KeyedResults | seo-autopilot-pro/modules/intelligence/class-ai-search-optimizer.php:546-554 | Results are keyed by id: one entry per distinct id, each holding that id's own result. |

## Left out

- Prompt texts and the HTTP requests to Claude, Gemini and the vision API. The AI is an oracle parameter, and prompts are never modelled.
- SQL, table creation and `$wpdb` return values. The tables are in-memory sequences and maps, and an SQL `ORDER BY created_at DESC` with ties is modelled as a stable sort whose tie order is insertion order. MySQL does not promise that order.
- Regular expressions, `DOMDocument`/`DOMXPath`, `json_decode`/`json_encode`, `strip_tags`, `wpautop`, `sanitize_title`, `esc_url` and `str_word_count`. They are parameters: their results (matches, decoded values, counts) are inputs.
- Floating-point arithmetic. Scores and averages are exact integers or rationals, `round()` is exact half-away-from-zero rounding, and a PHP `(int)` cast of a float is not modelled.
- Time, `sleep`/`usleep`, `wp_schedule_event` timing and `wp_mail` delivery. Timestamps are parameters, and mails are returned as events.
- Credential storage and encryption (`class-api-manager.php`), the competitor-intelligence module, the backlink and log-analyzer placeholders, the REST endpoints, admin pages, plugin bootstrap and uninstall. None of them holds decision logic of the core.
- The Search Console connector: it is reduced to whether it is available.
- `generate_keyword_faq`, `enhance_existing_faq` and `extract_existing_faq` in the FAQ generator. They consist of a prompt plus `extract_json`, and a regular expression over the post.
- `optimize_existing_intro` in the direct-answer optimiser: a prompt and a replacement of the first paragraph by a regular expression.
- `generate_trust_badges` in the E-E-A-T enhancer: a constant HTML string.
- The site profiler's keyword universe, competitor list, monetisation detection (regular expressions over content), content-type list and the two option writes of `build_site_profile`. `BuildSiteProfile` takes these parts as inputs.
- `get_crawl_results`, `get_post_change_history`, `get_profile`, `has_profile`, `is_configured`, `get_next_run` and `get_jobs_status`. These are plain reads of stored values.
- `test_connection` in the PageSpeed connector: a network round trip.
- PageSpeed.ParseResults: JSON objects with repeated keys and the "ms" suffix of `potential_savings` are not modelled. Numbers are the integers and floats `json_decode` produces, kept apart so that the strict `=== 1` test can be stated.
- SiteCrawler.CrawlUrl: load time is an input. The JSON encoding of `h1_tags` and `schema_types` in the stored row is not modelled.
- CronScheduler.RunDailyAudit: exceptions and the error mail of the `catch` blocks are not modelled, and neither is the crawl it starts. The findings are an input.
- CronScheduler.RunMonitoringCheck, CronScheduler.RunProfileUpdate, CronScheduler.RunAiOptimizationBatch: only the decisions and notices are modelled. The profile rebuild and the optimiser runs themselves are separate members.
- CronScheduler.CleanOldAudits: the two transient-cleanup queries of `run_cleanup` are not modelled.
- AiSearchFixer.FindPostsNeedingOptimization: a non-empty, non-numeric stored score is compared with the threshold through PHP's integer cast. PHP 8 compares such a string with an integer as a string.
- AiSearchFixer.OptimizePost: the report's `faq_count` is an integer that is absent until a FAQ is added. The difference between an unset and a null array entry is not modelled.
- EeatEnhancer.GenerateAuthorBio: `update_user_meta` for a user that does not exist is a write refused by the outcome parameter.
- ChangeTracker.CheckForChanges: the option and meta writes of the detectors are assumed to succeed.
- LeadingDigits: PHP's `(int)` of a string also reads a decimal point and an exponent (`"1e3"` gives 1000 from PHP 7.1 on), and it saturates at the 64-bit limits. Only the sign and the digit prefix are modelled, which is what every value the plugin stores itself looks like. Settings.StringToInt inherits this.
- PmAgent.ValidateFixFormat: lengths are counted in characters, where PHP's `strlen` counts UTF-8 bytes. A text with multi-byte characters can pass here and fail in the plugin.
- AiSearchOptimizer.FirstParagraph: the 300 cut is counted in characters, where `substr` counts bytes.
- AiSearchOptimizer.CheckDirectAnswer: the 50-character test and the 300 cut are counted in characters, where `strlen` and `substr` count bytes.
- AiSearchOptimizer.CheckEeatSignals: the "bio over 100" test counts characters, where `strlen` counts bytes.
- SiteCrawler.CrawlUrl: the stored page size is the length of the body in characters, where `strlen` counts bytes.
- ContentAnalyzer.Ranked: equal counts keep first-seen order, as PHP 8's stable `arsort` does. The plugin also runs on PHP 7.4, whose sort may put equal counts in any order.
- DirectAnswer.PlaceToc: `preg_replace` reads `$n`, `${n}` and `\n` in the replacement text as references to captured groups. The table's HTML carries raw heading text, so a heading such as "Plans under $100" loses its `$1` in the plugin. The model inserts the text as it is.
- DirectAnswer.InsertDirectAnswer: the same holds for the answer box used as the replacement of an existing box. The model inserts it as it is.
- DirectAnswer.GenerateDirectAnswer: under PHP 8, `trim` of the error object after a failed retry throws a TypeError. The model follows PHP 7.4, where the result is null and callers use it as the empty answer.
- WordPress: `get_post`, `update_post_meta`, `wp_update_post` and `get_option` are modelled as reads and writes of the in-memory site. A refused write leaves the site unchanged.

## Findings

| source | as written | input that shows it | evidently intended | confidence | as-written member | corrected member |
|---|---|---|---|---|---|---|
| seo-autopilot-pro/modules/intelligence/class-direct-answer-optimizer.php:91-97 | the replacement pattern looks for the literal `<div class="sap-direct-answer">`, but the box the plugin writes carries a `style` attribute after the class | a post that already starts with a box from `format_direct_answer`, given a new answer | the old box is replaced by the new one, as the branch's own comment states | high, not executed | DirectAnswer.ReinsertKeepsOldAnswer | DirectAnswer.ReinsertReplacesAnswer |
| seo-autopilot-pro/modules/intelligence/class-direct-answer-optimizer.php:220-235 | with a box present, the table is placed only after `</div><!-- .sap-direct-answer -->`, a comment `format_direct_answer` never writes | a post with at least one H2 heading whose content starts with a box from `format_direct_answer` | the table of contents goes directly after the direct-answer box | high, not executed | DirectAnswer.TocDroppedAfterFormattedBox | DirectAnswer.TocFollowsBox |
| seo-autopilot-pro/modules/monitoring/class-change-tracker.php:113-116 | the absence is recorded with `update_option('sap_sitemap_status', false)`, which WordPress skips when the option was never stored, because `false` is then what `get_option` already returns | a site where `sap_sitemap_status` was never stored and no sitemap URL answers 200, checked on consecutive runs | a missing sitemap alerts once, then stays silent until it comes back | medium, not executed | ChangeTracker.UnstoredSitemapAlertsEveryRun | ChangeTracker.IntendedSitemapAlertsOnce |
