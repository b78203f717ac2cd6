# resume_analysis in Dafny

This project models the analysis core of `resume_analysis`, a Python tool that profiles a candidate and recommends hackathons. The flow it covers:

- It collects a resume PDF, a GitHub account and a LinkedIn PDF export.
- It parses them into one concatenated text with tagged sections.
- It scores the candidate in five domains (AI/ML, web development, blockchain, cloud, cybersecurity).
- It combines those keyword-based scores with an LLM analysis into "enhanced" scores and recommendations.
- It matches the result against hackathon tracks.

The helper utilities are modelled too: a TTL cache and a sliding-window rate limiter.

There is one Dafny module per source file, plus a few shared ones:

- `Common`: `Option`/`Result`, the error kinds, the domain enumeration in the source's table order, and two-decimal rounding.
- `Text`: Python's `str.strip`, `str.split()`, `str.split(sep)`, `lower()` and the `in` substring test.
- `Sorting`: a stable descending sort, standing in for `sorted(..., reverse=True)`.
- `Counting`: `defaultdict(int)` counters and their totals.
- `LinkedInScan`: hand-written scanners that reproduce the LinkedIn regular expressions, with their leftmost, lazy and greedy choices.

Code that changes state step by step is written as methods with loops and invariants. Each such method is proved against a specification function. Examples:

- `CacheUtil.Cache` and `RateLimit.RateLimiter` are classes whose methods update fields.
- The loops of `extract_skills`, `analyze_profile`, `_chunk_text`, `_format_linkedin_data` and `match_hackathons` are methods with invariants.

Pure computations are functions, and what the code promises is proved about them as lemmas.

The model handles these inputs and outputs as follows:

- The clock, network responses, PDF page texts and the LLM's HTTP outcomes are parameters.
- Python dictionaries whose iteration order is observable are sequences of pairs in insertion order. Counters are maps.
- Where the project's written description and its code differ, the model follows the code:
  - `_clean_text` is not idempotent.
  - The GitHub domain score counts distinct topics, not repositories.
  - A learning-path item's focus areas come from the technical analysis. The bundled LLM stub gives none there, so they are always empty.

## Model

| member | source | states |
|---|---|---|
| Common.ParseDomain | resume_analysis/models/hackathon_matcher.py:52-54 | a track key is accepted exactly when it is the name of one of the five domains |
| Common.DomainsComplete | resume_analysis/models/resume_scorer.py:59 | the domain loop visits every domain |
| Common.Round2Near | resume_analysis/models/resume_scorer.py:93 | `round(x, 2)` lies within half a hundredth of `x` |
| Common.Round2Monotone | resume_analysis/models/enhanced_resume_scorer.py:86-91 | rounding to two decimals preserves order |
| Common.Round2Within | resume_analysis/models/llm_analyzer.py:185 | rounding keeps a value inside any interval whose ends are whole hundredths |
| Common.Round2Exact | resume_analysis/models/hackathon_matcher.py:79 | a value that is already a whole number of hundredths is unchanged by rounding |
| Common.Round2 | resume_analysis/models/resume_scorer.py:93 | `round(x, 2)`; its meaning is stated by `Round2Near`, `Round2Monotone`, `Round2Within` and `Round2Exact` |
| Text.TrimLeft | resume_analysis/parsers/profile_parser.py:171 | strips exactly the leading whitespace: the result is a suffix starting with a non-space |
| Text.TrimRight | resume_analysis/parsers/profile_parser.py:171 | strips exactly the trailing whitespace: the result is a prefix ending with a non-space |
| Text.Strip | resume_analysis/parsers/profile_parser.py:171 | `str.strip()`; `StripIsTrimmedSlice`, `StripEnds`, `StripAllSpace` and `StripPadded` state that it removes exactly the surrounding whitespace |
| Text.StripIsTrimmedSlice | resume_analysis/parsers/profile_parser.py:171 | `strip()` returns a slice of the input with only whitespace before and after it |
| Text.StripEnds | resume_analysis/parsers/profile_parser.py:171 | the result of `strip()` neither starts nor ends with whitespace |
| Text.StripAllSpace | resume_analysis/parsers/profile_parser.py:208 | a whitespace-only string strips to empty (the `if not role.strip()` skip) |
| Text.StripPadded | resume_analysis/models/enhanced_resume_scorer.py:60 | whitespace added on either side does not change what `strip()` returns |
| Text.Lower | resume_analysis/models/skill_extractor.py:36 | `lower()` maps each character and keeps the length |
| Text.LowerIdempotent | resume_analysis/main.py:63 | lowering twice equals lowering once |
| Text.FindFrom | resume_analysis/models/enhanced_resume_scorer.py:59-64 | finds the first occurrence of a substring at or after a position, or reports there is none |
| Text.ContainsIff | resume_analysis/models/skill_extractor.py:38 | the substring test `skill in text` holds iff some position holds an occurrence |
| Text.SplitJoin | resume_analysis/models/enhanced_resume_scorer.py:57 | splitting on a separator undoes joining pieces that do not contain it |
| Text.Words | resume_analysis/models/llm_analyzer.py:253 | `split()` yields non-empty pieces with no whitespace |
| Text.WordsOfJoin | resume_analysis/models/llm_analyzer.py:83 | splitting `' '.join(words)` gives back the words |
| Sorting.SortDesc | resume_analysis/models/hackathon_matcher.py:95 | the sorted list is a permutation of the input |
| Sorting.SortDescSorted | resume_analysis/models/hackathon_matcher.py:95 | the result is in descending key order and a permutation of the input |
| Sorting.SortDescStable | resume_analysis/models/hackathon_matcher.py:95 | elements with equal keys keep their input order (Python's sort is stable under `reverse=True`) |
| Sorting.SortDescSpec | resume_analysis/models/hackathon_matcher.py:95 | `sorted(..., reverse=True)` gives descending keys, a permutation, and equal-key elements in input order |
| Counting.Increment | resume_analysis/models/github_analyzer.py:29 | `d[k] += 1` on a default-zero counter raises that key's count by one and adds the key |
| Counting.MapSumIncrement | resume_analysis/models/github_analyzer.py:29 | each increment raises the counters' total by one |
| CacheUtil.Cache.constructor | resume_analysis/utils/cache.py:5-8 | a new cache is empty, with a default TTL of one hour or the given seconds |
| CacheUtil.Cache.Get | resume_analysis/utils/cache.py:10-19 | returns the value while `now` is not past its expiry; an expired entry is deleted and `None` returned; a missing key changes nothing |
| CacheUtil.Cache.Set | resume_analysis/utils/cache.py:21-24 | stores the value and sets its expiry to `now` plus the TTL; a missing or zero TTL falls back to the default |
| CacheUtil.Cache.Delete | resume_analysis/utils/cache.py:26-29 | removes the key from both maps and is a no-op for an absent key |
| CacheUtil.SetThenGet | resume_analysis/utils/cache.py:10-24 | after `set`, `get` returns the stored value exactly until the expiry instant |
| CacheUtil.SetTwiceThenGet | resume_analysis/utils/cache.py:21-24 | a second `set` overrides the first one's value and expiry |
| CacheUtil.DeleteThenGet | resume_analysis/utils/cache.py:26-29 | after `delete` the key is absent while other keys are untouched |
| CacheUtil.ExpiredIsRemoved | resume_analysis/utils/cache.py:15-17 | an expired entry is evicted, so it is gone even for a later query at an earlier time |
| RateLimit.StaleCount | resume_analysis/utils/rate_limiter.py:14-15 | the eviction loop pops exactly the front entries strictly older than the window |
| RateLimit.Evict | resume_analysis/utils/rate_limiter.py:14-15 | the deque after the eviction loop; `EvictKeepsWindow` and `BoundaryKept` state what it keeps |
| RateLimit.Step | resume_analysis/utils/rate_limiter.py:10-22 | one call's new deque and answer; `StepKeepsWindow` and the replay lemmas state its invariants |
| RateLimit.RateLimiter.constructor | resume_analysis/utils/rate_limiter.py:5-8 | a new limiter has the given limits and an empty deque |
| RateLimit.RateLimiter.Default | resume_analysis/utils/rate_limiter.py:5 | the default limits are 100 requests per 3600 seconds |
| RateLimit.RateLimiter.CanMakeRequest | resume_analysis/utils/rate_limiter.py:10-22 | evicts stale timestamps, then admits and records `now` iff fewer than `max_requests` remain |
| RateLimit.BoundaryKept | resume_analysis/utils/rate_limiter.py:14 | an entry exactly one window old is kept, since the comparison is strict |
| RateLimit.StepKeepsWindow | resume_analysis/utils/rate_limiter.py:10-22 | one call keeps the deque sorted and inside the window |
| RateLimit.EvictKeepsWindow | resume_analysis/utils/rate_limiter.py:14-15 | after eviction a sorted deque stays sorted and holds only entries at most one window older than `now` |
| RateLimit.ReplayCounts | resume_analysis/utils/rate_limiter.py:10-22 | over any run, whatever the clock does, one answer per call, the deque never exceeds `max_requests`, and a non-positive limit refuses every call |
| RateLimit.ReplayInWindow | resume_analysis/utils/rate_limiter.py:10-22 | with a non-decreasing clock the deque stays sorted and inside the window of the latest call |
| RateLimit.ReplayInvariant | resume_analysis/utils/rate_limiter.py:10-22 | over any run the deque never holds more than `max_requests` entries, a non-positive limit refuses every call, and with a monotone clock the deque stays sorted and within the window |
| SkillExtractor.DomainSkillsDistinct | resume_analysis/models/skill_extractor.py:9-30 | each domain's keyword list has no repeats |
| SkillExtractor.MatchedInOrder | resume_analysis/models/skill_extractor.py:37-40 | the matched skills are exactly the keywords found in the lowered text, in keyword-list order |
| SkillExtractor.MatchedNoDuplicates | resume_analysis/models/skill_extractor.py:37-40 | no skill is reported twice for a domain |
| SkillExtractor.MaxOf | resume_analysis/models/skill_extractor.py:60 | `max` of the matches is one of them and bounds all of them |
| SkillExtractor.ExperienceYears | resume_analysis/models/skill_extractor.py:50-61 | the years `_extract_experience` returns; `ExperienceYearsSpec` states the first-matching-pattern rule and `ExperienceIgnoresCase` its case independence |
| SkillExtractor.ExtractExperience | resume_analysis/models/skill_extractor.py:50-61 | the loop returns the years computed by the pattern specification |
| SkillExtractor.ExperienceYearsSpec | resume_analysis/models/skill_extractor.py:57-61 | the first pattern with any match decides and yields its largest match; otherwise 0 |
| SkillExtractor.ExperienceIgnoresCase | resume_analysis/models/skill_extractor.py:36 | skills and years depend only on the lowered text |
| SkillExtractor.AddDomainMatches | resume_analysis/models/skill_extractor.py:37-40 | one domain's pass adds that domain's matches only if there are any, leaving other domains unchanged |
| SkillExtractor.FindSkills | resume_analysis/models/skill_extractor.py:37-40 | a domain is present exactly when some keyword matched, holding its matches |
| SkillExtractor.FoundAfterKeys | resume_analysis/models/skill_extractor.py:37-40 | after any prefix of the domain table, exactly its domains with a match are keys, each holding its matches |
| SkillExtractor.FindExperience | resume_analysis/models/skill_extractor.py:43-46 | a domain gets an experience entry exactly when its years are non-zero |
| SkillExtractor.ExtractSkills | resume_analysis/models/skill_extractor.py:32-48 | the result holds each domain's matches and non-zero experience years, and nothing else |
| GitHubAnalyzer.WithLanguage | resume_analysis/models/github_analyzer.py:28-29 | the number of repositories with a language is at most the repository count |
| GitHubAnalyzer.AnyKeywordIn | resume_analysis/models/github_analyzer.py:51 | `any(k in topic for k in keywords)` holds iff some keyword occurs in the topic |
| GitHubAnalyzer.DomainScore | resume_analysis/models/github_analyzer.py:49-52 | a domain score is non-negative, and 0 when there are no topics |
| GitHubAnalyzer.CalculateDomainScores | resume_analysis/models/github_analyzer.py:40-54 | every domain gets its score from the distinct-topic formula |
| GitHubAnalyzer.AddTopics | resume_analysis/models/github_analyzer.py:32-33 | each topic's counter rises by its occurrences in the repository's topic list |
| GitHubAnalyzer.AnalyzeProfile | resume_analysis/models/github_analyzer.py:10-38 | totals, star sum, per-language and per-topic counts and domain scores all agree with their definitions over the repositories |
| GitHubAnalyzer.ScoreExceedsTen | resume_analysis/models/github_analyzer.py:51-52 | one repository with two web topics scores 20, above the nominal 0-10 range |
| GitHubAnalyzer.SharedTopicCountedOnce | resume_analysis/models/github_analyzer.py:51 | a topic shared by many repositories counts once, so the score is 10 divided by the repository count |
| GitHubAnalyzer.SingleMatchingTopic | resume_analysis/models/github_analyzer.py:52 | with one matching topic and `n` repositories the score is `10/n` |
| ResumeScorer.DomainWeights | resume_analysis/models/resume_scorer.py:11-42 | each domain's four weights are non-negative and sum to 1 |
| ResumeScorer.DomainScore | resume_analysis/models/resume_scorer.py:72-93 | the score is ten times the weighted sum, rounded to two decimals |
| ResumeScorer.ScoreResume | resume_analysis/models/resume_scorer.py:48-70 | GitHub analysis runs iff a username and a token are given; each domain gets its score in table order; the skills analysis is the extractor's |
| ResumeScorer.ScoreDomains | resume_analysis/models/resume_scorer.py:57-64 | the loop gives one score per domain, in table order, each computed from the extracted counts |
| ResumeScorer.AnalyzeAsync | resume_analysis/models/resume_scorer.py:44-46 | without GitHub, every domain scores between 0 and ten times its skills-plus-experience weight |
| ResumeScorer.ScoreBoundWithoutGitHub | resume_analysis/models/resume_scorer.py:77-86 | the capped skill and experience terms bound the score |
| ResumeScorer.ScoreMonotone | resume_analysis/models/resume_scorer.py:77-86 | more matched skills or more years never lower a domain score |
| ResumeScorer.GitHubTermUncapped | resume_analysis/models/resume_scorer.py:89-91 | the GitHub term is not capped: a GitHub score of 20 contributes twice its weight |
| LinkedInScan.FirstLine | resume_analysis/parsers/profile_parser.py:178 | `^([^\n]+)` matches iff the text starts with a non-newline character and captures the first line |
| LinkedInScan.SecondLine | resume_analysis/parsers/profile_parser.py:183 | the headline pattern matches iff a non-empty second line follows the first and captures it |
| LinkedInScan.LocationFrom | resume_analysis/parsers/profile_parser.py:188 | the captured location is a non-empty single line |
| LinkedInScan.LazyEnd | resume_analysis/parsers/profile_parser.py:199 | the lazy section body ends at the first position where a stop word or the end follows |
| LinkedInScan.SectionFrom | resume_analysis/parsers/profile_parser.py:199 | a section is found at the first heading occurrence, and none when the heading does not occur |
| LinkedInScan.PiecesFrom | resume_analysis/parsers/profile_parser.py:205 | `re.split` always yields at least one piece |
| LinkedInScan.SkillPiecesClean | resume_analysis/parsers/profile_parser.py:281 | splitting on bullets and newlines leaves pieces free of both |
| LinkedInScan.CompanyTitleFrom | resume_analysis/parsers/profile_parser.py:214 | company and title are non-empty single lines |
| LinkedInScan.RoleDatesFrom | resume_analysis/parsers/profile_parser.py:220 | a role date range starts with a month name |
| LinkedInScan.DescriptionFrom | resume_analysis/parsers/profile_parser.py:225 | a captured description is non-empty |
| LinkedInScan.SchoolFrom | resume_analysis/parsers/profile_parser.py:252 | a school is a non-empty single line |
| LinkedInScan.DegreeFrom | resume_analysis/parsers/profile_parser.py:257 | a degree starts with one of the eight degree words and has text after it |
| LinkedInScan.EduDatesFrom | resume_analysis/parsers/profile_parser.py:262 | an education date range starts with four digits and has at least nine characters |
| ProfileParser.CollapseSpaces | resume_analysis/parsers/profile_parser.py:162 | every whitespace run becomes one space: no two spaces are adjacent and non-space characters are kept |
| ProfileParser.RemoveSpecial | resume_analysis/parsers/profile_parser.py:165 | only word characters, whitespace and `.,;:!?-` survive |
| ProfileParser.ReplaceCR | resume_analysis/parsers/profile_parser.py:168 | carriage returns become newlines and nothing else changes |
| ProfileParser.BlankLinesIdentity | resume_analysis/parsers/profile_parser.py:169 | the blank-line substitution is the identity on text without newlines |
| ProfileParser.CleanText | resume_analysis/parsers/profile_parser.py:159-171 | `_clean_text`; `CleanTextSteps`, `CleanTextShape`, `CleanTextBlank` and `CleanTextNotIdempotent` state what it produces |
| ProfileParser.CleanTextSteps | resume_analysis/parsers/profile_parser.py:159-171 | after the first step no newline is left, so cleaning is `strip` of the two substitutions |
| ProfileParser.CleanTextShape | resume_analysis/parsers/profile_parser.py:159-171 | cleaned text is one line with no leading or trailing whitespace |
| ProfileParser.CleanTextBlank | resume_analysis/parsers/profile_parser.py:159-171 | whitespace-only text cleans to empty |
| ProfileParser.CleanTextNotIdempotent | resume_analysis/parsers/profile_parser.py:162-165 | removing a symbol can leave a double space, so cleaning twice differs from cleaning once |
| ProfileParser.CollapseFixpoint | resume_analysis/parsers/profile_parser.py:162 | text whose only whitespace is single spaces is unchanged by the collapse |
| ProfileParser.RemoveSpecialKept | resume_analysis/parsers/profile_parser.py:165 | text of kept characters is unchanged by the removal |
| ProfileParser.StripOpt | resume_analysis/parsers/profile_parser.py:180 | stripping an optional capture keeps presence and never introduces a newline |
| ProfileParser.ExtractBasicInfo | resume_analysis/parsers/profile_parser.py:173-192 | a name exists iff the text starts with a non-newline; a headline only with a name; all fields are single lines |
| ProfileParser.RoleOf | resume_analysis/parsers/profile_parser.py:211-229 | company and title are found together and are single lines; a date range starts with a month |
| ProfileParser.StripKeepsMonth | resume_analysis/parsers/profile_parser.py:222 | stripping the matched date range keeps the month it starts with |
| ProfileParser.RolesOfCount | resume_analysis/parsers/profile_parser.py:207-209 | one role per non-blank piece |
| ProfileParser.PiecesJoin | resume_analysis/parsers/profile_parser.py:205 | the split pieces rejoined with newlines rebuild the section |
| ProfileParser.SectionStops | resume_analysis/parsers/profile_parser.py:199 | the lazy section body contains no stop word after its first character |
| ProfileParser.ParseRoles | resume_analysis/parsers/profile_parser.py:207-229 | the loop builds the role list of the specification |
| ProfileParser.ExtractExperience | resume_analysis/parsers/profile_parser.py:194-231 | no section gives `[]`; otherwise one role per non-blank piece of the section |
| ProfileParser.EducationOf | resume_analysis/parsers/profile_parser.py:249-266 | a school is a single line, a degree starts with a degree word, dates start with four digits |
| ProfileParser.StripKeepsYear | resume_analysis/parsers/profile_parser.py:264 | stripping the matched date range keeps the four digits it starts with |
| ProfileParser.ParseEducations | resume_analysis/parsers/profile_parser.py:245-266 | the loop builds the education list of the specification |
| ProfileParser.ExtractEducation | resume_analysis/parsers/profile_parser.py:233-268 | no section gives `[]`; otherwise one entry per non-blank piece |
| ProfileParser.SkillItems | resume_analysis/parsers/profile_parser.py:281 | only non-blank pieces are kept, stripped |
| ProfileParser.ExtractSkills | resume_analysis/parsers/profile_parser.py:270-283 | `_extract_skills`; `ExtractSkillsClean` and `SkillLinesRoundTrip` state what it returns |
| ProfileParser.ExtractSkillsClean | resume_analysis/parsers/profile_parser.py:270-283 | no section gives `[]`; every skill is non-empty, stripped and free of bullets and newlines |
| ProfileParser.SkillLinesRoundTrip | resume_analysis/parsers/profile_parser.py:95-97 | the skills block can be read back into the skill list |
| ProfileParser.FormatLinkedIn | resume_analysis/parsers/profile_parser.py:67-99 | the loops produce the specified LinkedIn text |
| ProfileParser.AppendExperience | resume_analysis/parsers/profile_parser.py:78-84 | the experience loop appends one block per role |
| ProfileParser.AppendEducation | resume_analysis/parsers/profile_parser.py:87-92 | the education loop appends one block per entry |
| ProfileParser.AppendSkills | resume_analysis/parsers/profile_parser.py:95-97 | the skills loop appends one bullet line per skill |
| ProfileParser.JoinPages | resume_analysis/parsers/profile_parser.py:109-110 | page texts are concatenated, each followed by a newline |
| ProfileParser.ParseResume | resume_analysis/parsers/profile_parser.py:102-117 | the resume text is the cleaned page text |
| ProfileParser.ParseLinkedIn | resume_analysis/parsers/profile_parser.py:42-65 | the LinkedIn text is the formatted extraction from the raw page text |
| ProfileParser.ParseAllSources | resume_analysis/parsers/profile_parser.py:17-40 | fails with `ValueError` iff a username and a token are given and the GitHub fetch failed; otherwise each present source contributes a tagged section in resume, GitHub, LinkedIn order, GitHub only with a username and a token |
| ProfileParser.SourceSectionsTagged | resume_analysis/parsers/profile_parser.py:23-38 | one section per present source, the resume first and LinkedIn last, each with its tag line |
| GitHubProfile.DecimalRoundTrip | resume_analysis/parsers/profile_parser.py:144 | the star count is printed in decimal and reads back to the same number |
| GitHubProfile.RepoText | resume_analysis/parsers/profile_parser.py:140-146 | a repository's block; `RepoTextLines` reads its name and star count back |
| GitHubProfile.RepoTextLines | resume_analysis/parsers/profile_parser.py:140-146 | when no field holds a line break, the block is five lines and an empty tail; the first line is the name line and the star line reads back as the star count |
| GitHubProfile.OwnRepoTexts | resume_analysis/parsers/profile_parser.py:134-146 | one text per repository at most |
| GitHubProfile.ForksIgnored | resume_analysis/parsers/profile_parser.py:135 | forked repositories add nothing to the profile text |
| GitHubProfile.SummarizeRepos | resume_analysis/parsers/profile_parser.py:134-146 | languages and topics are exactly those of non-fork repositories, equal to their set definitions |
| GitHubProfile.OwnLanguagesSpec | resume_analysis/parsers/profile_parser.py:134-137 | a language is collected iff some non-fork repository has it |
| GitHubProfile.OwnTopicsSpec | resume_analysis/parsers/profile_parser.py:134-138 | a topic is collected iff some non-fork repository carries it |
| GitHubProfile.Enumerate | resume_analysis/parsers/profile_parser.py:149-150 | listing a set gives each element once: the same members, as many entries as elements, no two equal |
| GitHubProfile.ProfileText | resume_analysis/parsers/profile_parser.py:126-153 | the summary text; `ProfileTextRepos` states its shape |
| GitHubProfile.ProfileTextRepos | resume_analysis/parsers/profile_parser.py:126-153 | the summary opens with the user's line, and its tail splits on `\n---\n` back into the repository blocks when none runs into that separator |
| GitHubProfile.ParseGitHubText | resume_analysis/parsers/profile_parser.py:119-157 | the profile text lists the non-fork languages, topics and repository texts; each language and topic is listed exactly once |
| GitHubProfile.CountLanguages | resume_analysis/parsers/profile_parser.py:304-308 | counts repositories per language; the total is the number with a language |
| GitHubProfile.Entries | resume_analysis/parsers/profile_parser.py:314-320 | fails iff some repository lacks a name or URL; otherwise copies fields, with stars defaulting to 0 |
| GitHubProfile.PushesAfter | resume_analysis/parsers/profile_parser.py:339-341 | counts push events after the cutoff; any malformed event makes it fail |
| GitHubProfile.Contributions | resume_analysis/parsers/profile_parser.py:328-344 | at most the number of events; a failed request or malformed event gives 0 |
| GitHubProfile.PushesAfterAppend | resume_analysis/parsers/profile_parser.py:339-341 | counting is additive over concatenated event lists |
| GitHubProfile.ContributionsAntitone | resume_analysis/parsers/profile_parser.py:338-341 | a later clock never raises the contribution count |
| GitHubProfile.ParseGitHubProfile | resume_analysis/parsers/profile_parser.py:285-326 | fails with `ValueError` iff a request fails or a repository is malformed; otherwise copies user fields, repositories, language counts and contributions |
| LlmAnalyzer.AnalyzeResume | resume_analysis/models/llm_analyzer.py:18-70 | the stub returns fixed scores (depth 7.5, project 8.2, growth 8.5, overall 8.0) and no technical improvement areas |
| LlmAnalyzer.TooLongThreshold | resume_analysis/models/llm_analyzer.py:79-82 | a prompt is truncated iff it has more than 615 words, and 615 is `int(800/1.3)` |
| LlmAnalyzer.TruncatePrompt | resume_analysis/models/llm_analyzer.py:78-83 | the prompt sent; `TooLongThreshold` and `TruncatePromptWords` state when and how it is cut |
| LlmAnalyzer.TruncatePromptWords | resume_analysis/models/llm_analyzer.py:78-83 | short prompts are unchanged; long ones keep exactly their first 615 words |
| LlmAnalyzer.Decide | resume_analysis/models/llm_analyzer.py:85-119 | every failure is reported as `LLMError` |
| LlmAnalyzer.GetLlmResponse | resume_analysis/models/llm_analyzer.py:73-119 | the retry loop gives the outcome of the retry specification |
| LlmAnalyzer.DecideFails | resume_analysis/models/llm_analyzer.py:111-116 | fails iff no attempt succeeds and the third is not a 503 |
| LlmAnalyzer.DecideAnswers | resume_analysis/models/llm_analyzer.py:104-109 | the first success is returned; three 503s give the empty fallback |
| LlmAnalyzer.DecideUsesThree | resume_analysis/models/llm_analyzer.py:85 | only the first three attempts matter |
| LlmAnalyzer.ChunkText | resume_analysis/models/llm_analyzer.py:251-273 | chunks rejoin to the words; each fits the budget or is one word; only the first chunk can be empty, when the first word is too long |
| LlmAnalyzer.PackWords | resume_analysis/models/llm_analyzer.py:258-271 | the greedy packing groups the words in order within the budget |
| LlmAnalyzer.PackStateInv | resume_analysis/models/llm_analyzer.py:258-268 | after any prefix of the words, the closed groups and the open group spell that prefix, each fits the budget or is one word, and only the first group can be empty |
| LlmAnalyzer.PackDone | resume_analysis/models/llm_analyzer.py:258-271 | closing the open group at the end gives groups that spell all the words within the budget; the first is empty iff the first word alone is over budget |
| LlmAnalyzer.ChunkWordsJoinAll | resume_analysis/models/llm_analyzer.py:263 | splitting the joined chunks gives back all the words |
| LlmAnalyzer.Dedupe | resume_analysis/models/llm_analyzer.py:298 | `dict.fromkeys` keeps each item once with the same members; `DedupeFirstOrder` states the order |
| LlmAnalyzer.FirstIndex | resume_analysis/models/llm_analyzer.py:298 | the position of an item's first occurrence: it holds the item and no earlier position does |
| LlmAnalyzer.DedupeFirstOrder | resume_analysis/models/llm_analyzer.py:297-298 | the kept items are in the order of their first occurrences in the input |
| LlmAnalyzer.DedupeDistinct | resume_analysis/models/llm_analyzer.py:298 | a list without repeats is unchanged |
| LlmAnalyzer.MeanBounds | resume_analysis/models/llm_analyzer.py:290 | the mean lies within the bounds of its items |
| LlmAnalyzer.CombineChunkResults | resume_analysis/models/llm_analyzer.py:275-300 | depth is the mean of numeric depths; achievements are the concatenated chunk lists, each kept once in first-occurrence order; project score 0 and complexity "Medium" |
| LlmAnalyzer.CombinedDepthBounds | resume_analysis/models/llm_analyzer.py:288-290 | the combined depth stays within any interval holding 0 and the chunk depths |
| LlmAnalyzer.Scores | resume_analysis/models/llm_analyzer.py:177-180 | one score per dictionary analysis that has a score |
| LlmAnalyzer.CalculateOverallScore | resume_analysis/models/llm_analyzer.py:174-187 | over a dictionary's items (distinct keys), 0 when no scores; else their mean rounded to two decimals |
| LlmAnalyzer.OverallScoreBounds | resume_analysis/models/llm_analyzer.py:185 | scores in [0,10] give an overall score in [0,10] |
| LlmAnalyzer.Lookup | resume_analysis/models/llm_analyzer.py:165-168 | a missing key gives the empty dictionary; otherwise the value of the last entry for the key |
| LlmAnalyzer.StructureAnalysis | resume_analysis/models/llm_analyzer.py:161-172 | over a dictionary's items (distinct keys), the four categories are looked up and the overall score computed |
| LlmAnalyzer.LookupStored | resume_analysis/models/llm_analyzer.py:165-168 | over a dictionary's items, looking up a stored key gives the value stored with it |
| EnhancedScorer.SplitSections | resume_analysis/models/enhanced_resume_scorer.py:48-66 | the loop gives the sections of the split parts |
| EnhancedScorer.SectionAbsent | resume_analysis/models/enhanced_resume_scorer.py:50-64 | a source whose tag occurs in no part stays empty |
| EnhancedScorer.CleanTextNoMarker | resume_analysis/parsers/profile_parser.py:165 | cleaned text contains no `=`, so it cannot contain the section marker |
| EnhancedScorer.ClassifyPart | resume_analysis/models/enhanced_resume_scorer.py:58-64 | a tagged part fills its own source with the stripped body |
| EnhancedScorer.SourceEntries | resume_analysis/parsers/profile_parser.py:23-38 | the parser's sections are the tagged source entries |
| EnhancedScorer.WrapJoin | resume_analysis/parsers/profile_parser.py:40 | the `\n\n===\n\n` join equals a join on `\n===\n` of newline-wrapped pieces |
| EnhancedScorer.BlobParts | resume_analysis/parsers/profile_parser.py:40 | the concatenated text is the marker join of the parts |
| EnhancedScorer.SectionsOfParts | resume_analysis/models/enhanced_resume_scorer.py:58-64 | classifying the parts one after the other fills each present section with its stripped body |
| EnhancedScorer.FillEntries | resume_analysis/models/enhanced_resume_scorer.py:58-64 | filling the present sources in order sets each one's stripped body and leaves the absent ones empty |
| EnhancedScorer.SplitSomeSources | resume_analysis/models/enhanced_resume_scorer.py:57-64 | splitting the text of present sources recovers them |
| EnhancedScorer.SplitNoSources | resume_analysis/models/enhanced_resume_scorer.py:50-54 | the text of no sources splits to three empty sections |
| EnhancedScorer.SplitSourcesRoundTrip | resume_analysis/models/enhanced_resume_scorer.py:48-66 | splitting what `parse_all_sources` joined gives back each source's stripped text, or empty when absent, for bodies without `=` or tags |
| EnhancedScorer.EnhancedScoreBounds | resume_analysis/models/enhanced_resume_scorer.py:78-91 | inputs in [0,10] give an enhanced score in [0,10] |
| EnhancedScorer.MissingSourcesLower | resume_analysis/models/enhanced_resume_scorer.py:78-79 | missing GitHub or LinkedIn sections never raise the score |
| EnhancedScorer.EnhancedScore | resume_analysis/models/enhanced_resume_scorer.py:86-91 | one domain's enhanced score; `EnhancedScoreBounds` and `MissingSourcesLower` state its range and its response to missing sources |
| EnhancedScorer.CombineAnalyses | resume_analysis/models/enhanced_resume_scorer.py:68-111 | empty scores give `{}`; a non-dictionary analysis raises `ResumeAnalysisError`; otherwise one entry per domain, the recommendations of those entries, the LLM analysis and the whole rule-based result stored unchanged |
| EnhancedScorer.Strongest | resume_analysis/models/enhanced_resume_scorer.py:136-137 | at most one strongest domain per entry; `StrongestAppend` and `RecommendOne` state entry order |
| EnhancedScorer.StrongestAppend | resume_analysis/models/enhanced_resume_scorer.py:136-137 | the strongest domains of two runs of entries are those of the first run followed by those of the second |
| EnhancedScorer.StrongestMembers | resume_analysis/models/enhanced_resume_scorer.py:136-137 | a domain is strongest iff an entry for it scores at least 8 |
| EnhancedScorer.Weakest | resume_analysis/models/enhanced_resume_scorer.py:138-139 | at most one improvement area per entry; `WeakestAppend` and `RecommendOne` state entry order |
| EnhancedScorer.WeakestAppend | resume_analysis/models/enhanced_resume_scorer.py:138-139 | the improvement areas of two runs of entries are those of the first run followed by those of the second |
| EnhancedScorer.WeakestMembers | resume_analysis/models/enhanced_resume_scorer.py:138-139 | a domain needs improvement iff an entry for it scores below 6 |
| EnhancedScorer.RecommendDisjoint | resume_analysis/models/enhanced_resume_scorer.py:136-139 | no domain is both strongest and weakest; scores in [6,8) are neither |
| EnhancedScorer.StrongestHas | resume_analysis/models/enhanced_resume_scorer.py:136-137 | an entry scoring at least 8 puts its domain among the strongest |
| EnhancedScorer.StrongestExcludes | resume_analysis/models/enhanced_resume_scorer.py:136-137 | with one entry per domain, an entry scoring below 8 keeps its domain out of the strongest |
| EnhancedScorer.WeakestExcludes | resume_analysis/models/enhanced_resume_scorer.py:138-139 | with one entry per domain, an entry scoring at least 6 keeps its domain out of the improvement areas |
| EnhancedScorer.LearningPath | resume_analysis/models/enhanced_resume_scorer.py:142-147 | at most one learning item per entry; `LearningPathItems`, `LearningPathAppend` and `RecommendOne` state its contents and order |
| EnhancedScorer.ItemFor | resume_analysis/models/enhanced_resume_scorer.py:142-147 | the learning item of an entry: its domain, first improvement area and first recommended project |
| EnhancedScorer.LearningPathAppend | resume_analysis/models/enhanced_resume_scorer.py:142-147 | the learning path of two runs of entries is that of the first run followed by that of the second |
| EnhancedScorer.RecommendOne | resume_analysis/models/enhanced_resume_scorer.py:136-147 | one entry is strongest iff it scores at least 8, an improvement area iff below 6, and gives its learning item iff its growth is at least 7 |
| EnhancedScorer.LearningPathFrom | resume_analysis/models/enhanced_resume_scorer.py:142-147 | every learning item comes from an entry with growth at least 7 |
| EnhancedScorer.LearningPathHas | resume_analysis/models/enhanced_resume_scorer.py:142-147 | every entry with growth at least 7 contributes its learning item |
| EnhancedScorer.LearningPathItems | resume_analysis/models/enhanced_resume_scorer.py:142-147 | an item is on the path iff it is the item of some entry with growth at least 7; growth of at least 7 everywhere gives one item per entry; below 7 everywhere gives none |
| EnhancedScorer.LearningPathMembers | resume_analysis/models/enhanced_resume_scorer.py:142-147 | an item is on the path iff it is the item of some entry with growth at least 7 |
| EnhancedScorer.LearningPathAllGrow | resume_analysis/models/enhanced_resume_scorer.py:142-147 | when every entry grows at least 7, the path is each entry's item, in entry order |
| EnhancedScorer.LearningPathNoneGrow | resume_analysis/models/enhanced_resume_scorer.py:142-147 | when no entry grows 7 or more, the path is empty |
| EnhancedScorer.FocusShape | resume_analysis/models/enhanced_resume_scorer.py:150-153 | focus is the first two improvement areas (fewer when there are fewer), else the first strongest domain, else empty |
| EnhancedScorer.Focus | resume_analysis/models/enhanced_resume_scorer.py:150-153 | `recommended_focus`; `FocusShape` states its three cases |
| EnhancedScorer.Recommend | resume_analysis/models/enhanced_resume_scorer.py:113-158 | the recommendations; `StrongestMembers`, `WeakestMembers`, `RecommendDisjoint`, `LearningPathItems` and `FocusShape` state their contents, and the append lemmas their entry order |
| EnhancedScorer.StubLearningPath | resume_analysis/models/enhanced_resume_scorer.py:142-147 | with the stub analysis every domain gets a learning item with no focus areas |
| EnhancedScorer.GenerateRecommendations | resume_analysis/models/enhanced_resume_scorer.py:113-158 | fails iff some growth value is not a dictionary; otherwise the specified recommendations, whose lists keep entry order |
| EnhancedScorer.AnalyzeProfile | resume_analysis/models/enhanced_resume_scorer.py:18-46 | fails with `ResumeAnalysisError` iff a username and a token are given and the GitHub fetch failed; otherwise enhanced scores for all five domains in table order |
| EnhancedScorer.AnalyzeText | resume_analysis/models/enhanced_resume_scorer.py:25-42 | from the joined text, one enhanced entry per domain, in table order |
| HackathonMatcher.CatalogMinima | resume_analysis/models/hackathon_matcher.py:12-38 | track minima lie between 0.5 and 0.7 and are whole hundredths |
| HackathonMatcher.TrackOf | resume_analysis/models/hackathon_matcher.py:52-54 | a hackathon has a track iff its primary track names a domain |
| HackathonMatcher.ScoreOf | resume_analysis/models/hackathon_matcher.py:57-60 | the domain's enhanced score (the last entry for it), or 0 when absent |
| HackathonMatcher.Clamp | resume_analysis/models/hackathon_matcher.py:124 | the result is in [0,1], the identity inside it, and the nearer end outside it |
| HackathonMatcher.DifficultyFactor | resume_analysis/models/hackathon_matcher.py:112-122 | the difficulty multiplier; `DifficultyOrder` states its order and default |
| HackathonMatcher.Compatibility | resume_analysis/models/hackathon_matcher.py:97-124 | `_calculate_compatibility`; `Clamp` keeps it in [0,1] and `CompatibilityMonotone` makes it monotone in the domain score |
| HackathonMatcher.CompatibilityMonotone | resume_analysis/models/hackathon_matcher.py:97-124 | a higher domain score never lowers compatibility |
| HackathonMatcher.DifficultyOrder | resume_analysis/models/hackathon_matcher.py:112-122 | Advanced ≤ Intermediate ≤ Beginner, and an unknown difficulty counts as Intermediate |
| HackathonMatcher.Missing | resume_analysis/models/hackathon_matcher.py:130-135 | missing skills are the track skills not among the achievements |
| HackathonMatcher.MissingAppend | resume_analysis/models/hackathon_matcher.py:130-135 | the missing skills of two runs of track skills are those of the first run followed by those of the second |
| HackathonMatcher.MissingOne | resume_analysis/models/hackathon_matcher.py:130-135 | one skill is missing iff it is not among the achievements |
| HackathonMatcher.NoneHeld | resume_analysis/models/hackathon_matcher.py:130-135 | with no skill held, all track skills are missing, in order |
| HackathonMatcher.Tips | resume_analysis/models/hackathon_matcher.py:141-143 | one "Focus on learning" tip per missing skill for the first three (fewer when fewer are missing), or the core-skills message when nothing is missing |
| HackathonMatcher.TrackRecommendationsFor | resume_analysis/models/hackathon_matcher.py:126-144 | the track's name, minimum, tips, and its missing skills in catalog order |
| HackathonMatcher.StubMissesEverySkill | resume_analysis/models/hackathon_matcher.py:130-135 | with the stub analysis every track skill is reported missing |
| HackathonMatcher.MatchOfFilter | resume_analysis/models/hackathon_matcher.py:76-79 | a hackathon matches iff it has a track and its compatibility reaches the track minimum; the stored score is rounded |
| HackathonMatcher.MatchOf | resume_analysis/models/hackathon_matcher.py:52-93 | one hackathon's match; `MatchOfFilter`, `SkippedTrack` and `KeptMeetMinimum` state when it is kept and what it holds |
| HackathonMatcher.Outcomes | resume_analysis/models/hackathon_matcher.py:51-93 | one outcome per hackathon, in order |
| HackathonMatcher.MatchesMembers | resume_analysis/models/hackathon_matcher.py:51-93 | a match is kept iff some hackathon produced it |
| HackathonMatcher.MatchesSnoc | resume_analysis/models/hackathon_matcher.py:51-93 | each hackathon appends its match, if any, in input order |
| HackathonMatcher.SkippedTrack | resume_analysis/models/hackathon_matcher.py:53-54 | a hackathon without a known track adds nothing |
| HackathonMatcher.KeptMeetMinimum | resume_analysis/models/hackathon_matcher.py:76-79 | every kept score is between the track minimum and 1 |
| HackathonMatcher.MatchHackathons | resume_analysis/models/hackathon_matcher.py:47-95 | fails iff the analysis is malformed and some hackathon has a track; otherwise the matches sorted by descending score, as a permutation, stable on ties |
| HackathonMatcher.CollectMatches | resume_analysis/models/hackathon_matcher.py:51-93 | the loop fails iff the analysis is malformed and some hackathon has a track; otherwise it gives the matches in hackathon order |
| HackathonMatcher.MatchOne | resume_analysis/models/hackathon_matcher.py:52-93 | one hackathon raises iff it has a track and the analysis is malformed; otherwise it yields its match, if any |
| MainAnalysis.AnalyzeSkills | resume_analysis/main.py:53-54 | the count is the number of skills, which are returned as given |
| MainAnalysis.YearsAppend | resume_analysis/main.py:57 | total years are additive over concatenation |
| MainAnalysis.YearsNonNegative | resume_analysis/main.py:57 | non-negative durations give non-negative years |
| MainAnalysis.LevelOf | resume_analysis/main.py:58-60 | Entry iff under 2 years, Senior iff at least 5 |
| MainAnalysis.AnalyzeExperience | resume_analysis/main.py:56-60 | `analyze_experience`; `LevelOf`, `NoExperienceIsEntry` and `MoreExperienceNeverLower` state the level it gives |
| MainAnalysis.LevelMonotone | resume_analysis/main.py:58-60 | more years never give a lower level |
| MainAnalysis.NoExperienceIsEntry | resume_analysis/main.py:56-58 | no experience is Entry |
| MainAnalysis.MoreExperienceNeverLower | resume_analysis/main.py:56-60 | adding non-negative experience never lowers the level |
| MainAnalysis.Degrees | resume_analysis/main.py:63 | each degree is lowered, with a missing one read as empty |
| MainAnalysis.AnalyzeEducation | resume_analysis/main.py:62-67 | checked in the order PhD, Masters, Bachelors: each level holds iff some degree contains its word and no degree contains the word of a higher level; Other iff no degree contains any of the three words |
| MainAnalysis.NoEducationIsOther | resume_analysis/main.py:62-67 | no education is Other |
| MainAnalysis.EducationIgnoresCase | resume_analysis/main.py:63 | the answer does not depend on letter case |
| MainAnalysis.MoreEducationNeverLower | resume_analysis/main.py:64-67 | adding entries never lowers the degree |
| MainAnalysis.TotalStarsAppend | resume_analysis/main.py:121 | total stars are additive over concatenation |
| MainAnalysis.TotalStarsBounds | resume_analysis/main.py:121 | each repository's stars are at most the total |
| MainAnalysis.TotalStarsNonNegative | resume_analysis/main.py:121 | non-negative stars give a non-negative total |
| MainAnalysis.TotalStars | resume_analysis/main.py:121 | the star total; `TotalStarsAppend`, `TotalStarsBounds` and `TotalStarsNonNegative` state it |
| MainAnalysis.TopProjects | resume_analysis/main.py:124-128 | the top projects; `TopProjectsSorted`, `TopProjectsKeepMost` and `TopProjectsStable` state it |
| MainAnalysis.TopProjectsSorted | resume_analysis/main.py:124-128 | at most five projects, in descending stars, drawn from the repositories |
| MainAnalysis.TopProjectsKeepMost | resume_analysis/main.py:124-128 | no omitted repository has more stars than a kept one |
| MainAnalysis.TopProjectsStable | resume_analysis/main.py:124-128 | ties keep their input order |
| MainAnalysis.AnalyzeGitHubProfile | resume_analysis/main.py:111-134 | fails with `ValueError` iff parsing failed; otherwise the repository count, the star total over all repositories, the parsed languages and contributions, and the top projects: the first min(n, 5) of the stable descending sort by stars, sorted and drawn from the repositories |

## Left out

- PDF decoding (PyPDF2): each page's extracted text is an input. A PDF that PyPDF2 cannot read makes the source raise `ValueError`, re-raised as `ResumeAnalysisError`; that failure is not modelled.
- Network access: the GitHub API, the Hugging Face endpoint, `aiohttp`/`requests` and `Github()` are left out. Responses are inputs: status codes, records, event lists and attempt outcomes.
- `asyncio` concurrency and `sleep` are left out; the model runs sequentially.
- The wall clock (`datetime.now()`) is an explicit `now` argument in seconds.
- JSON decoding and `_parse_llm_response`/`_extract_structured_data` are left out. An LLM answer is a structured report.
- `_generate_analysis_prompts` and `analyze_text` are left out, along with its placeholder analyzers, which only return constants.
- The spaCy model loaded by `SkillExtractor` is left out: its parse result is never used.
- `SkillExtractor.ExperienceYears`: the two `re.findall` patterns of `_extract_experience` are a matcher parameter rather than a regex engine. The model fixes the order in which patterns are tried and the `max` rule.
- `HackathonMatcher` training (`_train_model`, pandas, scikit-learn) is left out: its model is never consulted.
- `initialize_llm`, `analyze_candidate`, `print_analysis_results`, the CLI, configuration and token utilities are left out (console I/O and glue).
- The cache key hashing is left out. Values are stored under string keys.
- `Common.Round2`: Python's `round` on binary floats is modelled as round-half-up on exact reals. Floating-point representation is not modelled.
- `Text.Lower`: `lower()` is modelled for ASCII letters only.
- `Text.IsSpace`: follows Python's `str.isspace`.
- `ProfileParser.RemoveSpecial`: regex `\w` is read as ASCII letters, digits and `_`. Python's Unicode `\w` also keeps non-ASCII letters and digits, which the model drops.
- `LinkedInScan`: regex `\d` is read as the ASCII digits 0-9, and `re.IGNORECASE` as folding A-Z only.
- `EnhancedScorer.SplitSourcesRoundTrip`: its precondition asks that no body contain `=` or a section tag. This is stronger than the exact condition under which the split recovers the sources.
- `EnhancedScorer.CombineAnalyses`: the enhanced-scores dictionary is a sequence in insertion order; a repeated domain key is kept and the later entry wins on lookup. The rule-based result is always the record `score_resume` builds, so a dictionary without a `domain_scores` key is not modelled.
- `LlmAnalyzer.Report`: a non-list `key_technical_achievements` is read as an empty list, and a non-numeric score as absent, hence 0. The source instead raises on a non-numeric score: `LLMError` from `_calculate_overall_score`, and `ResumeAnalysisError` from `_combine_analyses`.
- `LlmAnalyzer.Decide`: a 503 on the last attempt ends the loop with the empty fallback, as the code does.
- `CacheUtil.Cache.Set`: timedelta arithmetic is real-valued seconds.
- `RateLimit.RateLimiter.CanMakeRequest`: the deque is a sequence; the same real-valued seconds apply.
