# Ticket support core, modelled in Dafny

This project models the rule-bearing core of a ticket-support web application
(a Django site, a Telegram support bot and a small translation subsystem) and
proves properties of the model. The parts modelled are:

- **Priority scoring** (`priority.dfy`, `rounding.dfy`): a client's spend, its
  percentile rank among all clients, the importance multiplier in [1.10, 1.20],
  and the final ticket priority built from the multipliers, points and bonus
  of the client's services, clamped to [0, 100] and rounded half-to-even.
- **The alternative scorer** (`alt_scorer.dfy`): base score × client-type
  multiplier × logarithmic count factor × linear price factor, rounded to two
  decimals and not clamped.
- **Support models** (`support_models.dfy`): account and service numbers
  given on the first save, ticket status and defaults, an engineer's
  active-ticket count, and what deleting a client or an engineer does.
- **Administrator dashboard order** (`dashboard.dfy`): open tickets first, then
  by priority descending, then oldest first.
- **Response auditor** (`response_auditor.dfy`, `audit_summary.dfy`): per-IP
  403 counters, the 444 auto-answer, the exception classification, the summary
  buffer, and the grouped and deduplicated summary it logs.
- **Real-IP middleware** (`real_ip.dfy`): IP validity and masking, and the
  refuse-or-pass decision.
- **Translation subsystem**:
  - the language configuration and its validator (`translation_conf.dfy`);
  - the in-memory TTL cache (`translation_cache.dfy`);
  - the per-request active language (`active_language.dfy`);
  - URL language-prefix routing (`locale_middleware.dfy`);
  - the template context processor (`context_processor.dfy`);
  - the lookup chain and background queue of `get_translate` (`translator.dfy`).
- **Support bot helpers** (`bot.dfy`): the similar-solution search, its
  formatting, and the per-user language choice.
- **Log payload sanitiser** (`log_sanitiser.dfy`): the recursion that makes a
  log record's extra data storable as JSON.
- **Admin message truncation** (`admin_message.dfy`).

Python's `str.split`, `str.join`, `str.strip` and integer formatting are
written out in `strings.dfy`, with `str.lower` restricted to the Latin,
Russian and Kazakh letters (see "Left out").

Objects whose fields the source updates in place are classes with `modifies`
clauses: the model rows, the translation cache, the language context, the
translation service, the auditor and the bot's sessions. The clock, the
language model's answers, Python's `hash`, `math.log` and `ipaddress` parsing
are parameters. Money and priorities are reals.

A few facts about the code that the model follows:

- The alternative scorer's count factor is `1 + log10(count + 1)`
  (`cross/te.py:40`).
- A lone client with no spend gets the multiplier 1.10, because the all-zero
  test comes before the single-client branch (`cross/utils.py:29-36`). So a
  lone private client with no subscriptions scores 55 from an initial 50.
- The auditor flushes its summary at 200 events or after 12 hours
  (`apps/common/middleware/exception_response_auditor.py:33-35`).

## Model

| member | source | states |
|---|---|---|
| Rounding.RoundHalfEven | source/cross/utils.py:103 | the nearest integer to a real, ties to the even neighbour, as Python's `round` does; within one half of its argument |
| Rounding.RoundTieIsEven | source/cross/utils.py:103 | a value exactly half-way between two integers rounds to the even one |
| Rounding.RoundMonotone | source/cross/utils.py:103 | rounding never reverses the order of two reals |
| Rounding.Round4 | source/cross/utils.py:41 | `round(x, 4)`: scale by 10^4, round half-even, scale back |
| Rounding.Round4Monotone | source/cross/utils.py:41 | rounding to four places keeps the order of two reals |
| Rounding.Round4Within | source/cross/utils.py:40-41 | rounding to four places keeps a value inside bounds that are themselves written with four decimals, such as [1.10, 1.20] |
| Rounding.Round2 | source/cross/te.py:85 | `round(x, 2)`: scale by 100, round half-even, scale back |
| Sorting.Sort | source/cross/utils.py:32 | `list.sort()`: a permutation of the input of the same length |
| Sorting.SortSorted | source/cross/utils.py:32 | the sorted list is ordered for any total preorder |
| Priority.TotalPrice | source/cross/utils.py:7-11 | the client's spend: zero without subscriptions, non-negative when prices are |
| Priority.TotalPriceAppend | source/cross/utils.py:11 | the spend is additive over subscriptions |
| Priority.Totals | source/cross/utils.py:24-27 | one total per client of the population, in order |
| Priority.FirstIndex | source/cross/utils.py:33 | `list.index`: the first position holding the value, and past the end exactly when it is absent |
| Priority.ImportanceMultiplier | source/cross/utils.py:17-41 | 1.10 for an empty or all-zero population; the ValueError exactly when the client's total is not among the totals; otherwise a value in [1.10, 1.20] |
| Priority.CoefficientWithin | source/cross/utils.py:35-40 | the unrounded coefficient lies in [min_coef, max_coef] for every rank |
| Priority.CoefficientMonotone | source/cross/utils.py:38-40 | a higher rank never gives a smaller coefficient |
| Priority.RankIsCountBelow | source/cross/utils.py:32-33 | the rank is the number of clients whose spend is strictly smaller, whatever order the sort gave tied totals |
| Priority.MultiplierMonotone | source/cross/utils.py:17-41 | a client who spends at least as much as another never gets a smaller multiplier |
| Priority.LoneClientMultiplier | source/cross/utils.py:29-36 | a lone client gets 1.10 with no spend and 1.20 with any spend |
| Priority.ServiceTypeWeight | source/cross/utils.py:47-53 | the weight table: every known type multiplies by at least 1 and adds non-negative points |
| Priority.SubscriptionBonus | source/cross/utils.py:98 | two points per subscription, capped at 10 |
| Priority.Clamp | source/cross/utils.py:101 | the value clamped to [0, 100] |
| Priority.Score | source/cross/utils.py:69-103 | the final priority for a known multiplier lies in [0, 100] |
| Priority.ServiceWeights | source/cross/utils.py:82-91 | the loop's product of multipliers and sum of points over the known service types, unknown types skipped |
| Priority.WeightedPriority | source/cross/utils.py:73-103 | the steps after the importance multiplier compute `Score`, a value in [0, 100] |
| Priority.CalculateFinalPriority | source/cross/utils.py:59-103 | fails exactly when the importance multiplier raises; otherwise the clamped, rounded score in [0, 100] |
| Priority.ClampMonotone | source/cross/utils.py:101 | clamping keeps order |
| Priority.ScoreMonotone | source/cross/utils.py:69-103 | with the client fixed, a higher initial priority never gives a lower final one |
| Priority.ScoreAtLeastInitial | source/cross/utils.py:69-103 | every factor is at least 1 and every addend non-negative, so the final priority is never below an initial priority in [0, 100] |
| Priority.FinalPriorityMonotone | source/cross/utils.py:59-103 | end to end, the final priority is monotone in the initial priority |
| Priority.UnknownTypeOnlyCountsForBonus | source/cross/utils.py:85-98 | a subscription of an unknown type leaves the product and the points alone but still counts for the bonus |
| Priority.LoneZeroSpendClientScore | source/cross/utils.py:29-30 | a lone private client with no subscriptions gets the multiplier 1.10 and scores 55 from an initial 50 |
| Rounding.RoundWithin | source/cross/utils.py:101-103 | rounding a value already in [0, 100] keeps it in [0, 100] |
| AltScorer.BaseScore | source/cross/te.py:60-61 | the base score of a service type lies in [40, 70], and is 50 for an unknown type |
| AltScorer.BaseScoreTable | source/cross/te.py:8-14 | the five table entries and the default of 50 |
| AltScorer.ClientTypeMultiplier | source/cross/te.py:21-25 | at least 1, and above 1 exactly for a company |
| AltScorer.CountFactor | source/cross/te.py:32-40 | 1 + log10(count + 1): defined exactly for a non-negative count, 1 for no services, never below 1 |
| AltScorer.CountFactorIncreasing | source/cross/te.py:32-40 | strictly more services give a strictly larger factor |
| AltScorer.CountFactorNine | source/cross/te.py:40 | nine services give a factor of exactly 2 |
| AltScorer.PriceFactor | source/cross/te.py:47-53 | at least 1 for a non-negative total, and exactly 1 only for a zero total |
| AltScorer.PriceFactorExamples | source/cross/te.py:49-53 | 50 000 doubles the score and 10 000 multiplies it by 1.2, as the doc-comment says |
| AltScorer.PriceFactorMonotone | source/cross/te.py:53 | a larger total never gives a smaller factor |
| AltScorer.CalculatePriority | source/cross/te.py:68-85 | fails exactly when `math.log` raises on a negative count; otherwise within 0.005 of the unrounded product |
| AltScorer.CompanyScoresOnePointTwoTimes | source/cross/te.py:20-24 | before rounding, a company scores 1.2 times what a private person does |
| AltScorer.PriorityAtLeastBase | source/cross/te.py:68-85 | with a non-negative count and total the score is at least the base score |
| AltScorer.ScoreIsNotClamped | source/cross/te.py:68-85 | the score has no upper clamp: a company with nine services and 50 000 spent scores 336 on networks |
| SupportModels.AccountNumber | source/apps/support/models.py:54-60 | the account number is the decimal text of 100000 + id, with no leading zero |
| SupportModels.AccountNumberInjective | source/apps/support/models.py:15-20 | two clients never share an account number, as the unique field demands |
| SupportModels.ServiceNumber | source/apps/support/models.py:144-145 | the service number splits on '-' into "SL", the year, the two-digit month and the six-digit key |
| SupportModels.ServiceNumberDecodes | source/apps/support/models.py:145 | the year, the month and the key can be read back from a service number |
| SupportModels.ServiceNumberInjective | source/apps/support/models.py:119-124 | two subscriptions never share a service number, as the unique field demands |
| SupportModels.ClientRecord.constructor | source/apps/support/models.py:9-45 | a new client has no key and an empty account number |
| SupportModels.ClientRecord.Save | source/apps/support/models.py:54-60 | the first save takes the new key and derives the account number from it; a later save changes neither |
| SupportModels.ClientServiceRecord.constructor | source/apps/support/models.py:106-129 | a new subscription has no key, no service number and no creation time |
| SupportModels.ClientServiceRecord.Save | source/apps/support/models.py:126-146 | the first save stamps the creation time with the `auto_now_add` clock and derives the service number from the time read before the insert and the new key, two readings that may fall in different months; a later save changes neither |
| SupportModels.StatusCode | source/apps/support/models.py:184-188 | the stored code of each ticket status |
| SupportModels.ParseStatus | source/apps/support/models.py:233-238 | a stored string read back as a status, only when it is one of the choices |
| SupportModels.ParseStatusCode | source/apps/support/models.py:184-188 | reading a status's code gives the status back |
| SupportModels.NewTicket | source/apps/support/models.py:196-249 | a new ticket is "new", has priority 50, no engineer and no final resolution |
| SupportModels.ActiveTicketsCount | source/apps/support/models.py:171-175 | the engineer's tickets whose status is new or in progress; zero exactly when there are none |
| SupportModels.ActivePlusDone | source/apps/support/models.py:171-188 | an engineer's tickets are the active ones plus the done ones |
| SupportModels.CloseTicketLowersCount | source/apps/support/models.py:171-175 | closing one of the engineer's active tickets lowers the count by exactly one |
| SupportModels.DeleteEngineer | source/apps/support/models.py:196-202 | `SET_NULL`: the engineer's tickets lose their engineer, every other field and ticket is kept |
| SupportModels.DeleteClient | source/apps/support/models.py:107-111 | `CASCADE`: exactly the client's subscriptions and tickets disappear |
| SupportModels.DeleteEngineerCounts | source/apps/support/models.py:196-202 | after the deletion the engineer has no active tickets and every other engineer keeps its count |
| SupportModels.TicketsNotOfAppend | source/apps/support/models.py:190-194 | the cascade filter of a concatenation is the concatenation of the filters, so deleting a client keeps the other clients' tickets in their order wherever its own tickets sat |
| SupportModels.SubscriptionsNotOfAppend | source/apps/support/models.py:105-109 | the cascade filter over subscriptions distributes over concatenation, so deleting a client keeps the other clients' subscriptions in their order |
| SupportModels.DeleteClientKeepsOthers | source/apps/support/models.py:190-194 | deleting a client that owns no ticket leaves the ticket list as it was |
| Dashboard.StatusGroup | source/endpoints/admin/views.py:33-37 | the sort group is 2 exactly for a done ticket and 1 otherwise |
| Dashboard.DashboardLeIsTotalPreorder | source/endpoints/admin/views.py:32-40 | the three-key comparison is a total preorder, a valid sort key |
| Dashboard.DashboardOrder | source/endpoints/admin/views.py:29-41 | the listed tickets are a permutation of all tickets, sorted by the three keys |
| Dashboard.OpenBeforeDone | source/endpoints/admin/views.py:33-37 | every open ticket comes before every done ticket |
| Dashboard.PriorityNonIncreasingInGroup | source/endpoints/admin/views.py:38 | within a group the priority score never increases down the list |
| Dashboard.OlderFirstOnTies | source/endpoints/admin/views.py:39 | within a group and a score, older tickets come first |
| Dashboard.EveryTicketListed | source/endpoints/admin/views.py:29-41 | nothing is filtered out: every ticket is listed, and only those |
| AdminMessage.ShortMessage | source/apps/common/admin.py:14-15 | a message of at most 100 characters unchanged; a longer one as its first 100 characters and "..." |
| AdminMessage.ShortMessageKeepsPrefix | source/apps/common/admin.py:15 | the shortened message starts with the message's first min(100, length) characters |
| AdminMessage.ShortMessageIdempotent | source/apps/common/admin.py:15 | a message is cut exactly when it is longer than 100 characters, and shortening twice is shortening once |
| AuditSummary.FindKey | source/apps/common/middleware/exception_response_auditor.py:185 | the dictionary lookup behind `setdefault` and the dedup `key not in dedup` test: the position of the first item with the key, or past the end when there is none |
| AuditSummary.AddToGroupFacts | source/apps/common/middleware/exception_response_auditor.py:185-198 | `setdefault(k, []).append(e)` keeps a grouping well formed and adds exactly one member |
| AuditSummary.GroupByPartitions | source/apps/common/middleware/exception_response_auditor.py:183-198 | the groups partition the events: distinct keys, no empty group, members carry their group's key, sizes add up to the number of events |
| AuditSummary.GroupEvents | source/apps/common/middleware/exception_response_auditor.py:183-185 | the grouping loop builds the insertion-ordered grouping `GroupBy` |
| AuditSummary.DedupStepFacts | source/apps/common/middleware/exception_response_auditor.py:214-232 | one dedup step keeps the keys distinct, adds one hit to the event's entry only, and starts a new entry last for a new key |
| AuditSummary.DedupCounts | source/apps/common/middleware/exception_response_auditor.py:213-232 | deduplication loses no event: distinct keys, hits summing to the number of events, each entry's hits equal to the events with its key, and an entry for every key that occurs |
| AuditSummary.DedupEvents | source/apps/common/middleware/exception_response_auditor.py:213-237 | the dedup loop builds `Dedup` of the events |
| AuditSummary.Summarise | source/apps/common/middleware/exception_response_auditor.py:174-211 | nothing is logged exactly for an empty buffer; otherwise the total is the number of events and there is one block per slug |
| AuditSummary.SummaryCountsAddUp | source/apps/common/middleware/exception_response_auditor.py:179-211 | the per-slug counts, and the dedup hits, add up to the total; the per-IP counts of a slug add up to its count |
| AuditSummary.SummaryBlocksBySlug | source/apps/common/middleware/exception_response_auditor.py:192-193 | no slug gets two blocks |
| AuditSummary.FlushSummary | source/apps/common/middleware/exception_response_auditor.py:174-240 | `_flush_summary` logs `Summarise` of the buffer, and nothing for an empty one |
| AuditSummary.SumUpdate | source/apps/common/middleware/exception_response_auditor.py:230 | raising one count changes the sum by the same amount |
| ResponseAuditor.CounterKey | source/apps/common/middleware/exception_response_auditor.py:157-158 | the counter key is the rule's prefix followed by the real IP |
| ResponseAuditor.CounterKeyInjective | source/apps/common/middleware/exception_response_auditor.py:157-158 | two IPs never share a counter |
| ResponseAuditor.Bumped | source/apps/common/middleware/exception_response_auditor.py:159-160 | for three hours the counter reads one more than before, and every other counter is untouched |
| ResponseAuditor.FourForbiddenBlock | source/apps/common/middleware/exception_response_auditor.py:37-44 | four 403s from one IP, each within three hours of the last, make the counter read 4, the limit |
| ResponseAuditor.ResponseSlugForbiddenIff | source/apps/common/middleware/exception_response_auditor.py:147-154 | only a 403 response has the slug of the auto-answer rule |
| ResponseAuditor.AuditEvent | source/apps/common/middleware/exception_response_auditor.py:147-152 | the audited event carries the response's slug and status and the obscured IP |
| ResponseAuditor.AutoAnswerEvent | source/apps/common/middleware/exception_response_auditor.py:83-89 | the auto-answer event carries an "auto_answer_" slug, status 444 and the obscured IP |
| ResponseAuditor.AfterEvent | source/apps/common/middleware/exception_response_auditor.py:162-169 | a report is logged exactly when the grown buffer is full or older than twelve hours, and then the buffer restarts empty; otherwise the event is appended; a buffer below the limit stays below it |
| ResponseAuditor.IdleBufferIsDropped | source/apps/common/middleware/exception_response_auditor.py:162-171 | a buffer idle for more than twelve hours expires unreported and the next event starts a new one |
| ResponseAuditor.Classify | source/apps/common/middleware/exception_response_auditor.py:107-118 | 400 exactly for the validation family, 403 for PermissionDenied, 404 for Http404, 500 otherwise |
| ResponseAuditor.TemplateNames | source/apps/common/middleware/exception_response_auditor.py:31 | every code the classification gives has its own "<code>.html" template |
| ResponseAuditor.HandleException | source/apps/common/middleware/exception_response_auditor.py:106-139 | the page has the classified status; it is rendered exactly when the template exists, otherwise it is the text "<code> <reason>" |
| ResponseAuditor.Auditor.constructor | source/apps/common/middleware/exception_response_auditor.py:48-50 | an auditor starts with no counters, no buffer and no reports |
| ResponseAuditor.Auditor.RecordEvent | source/apps/common/middleware/exception_response_auditor.py:162-171 | the buffer is stored back with a new twelve-hour timeout, and a report is logged when `AfterEvent` makes one |
| ResponseAuditor.Auditor.CheckAutoAnswer | source/apps/common/middleware/exception_response_auditor.py:73-103 | answers 444 exactly when the IP's counter has reached 4, recording the auto-answer event; otherwise nothing changes |
| ResponseAuditor.Auditor.AuditResponse | source/apps/common/middleware/exception_response_auditor.py:142-171 | a safe status changes nothing; any other status is recorded, and a 403 also bumps the IP's counter |
| ResponseAuditor.Auditor.Call | source/apps/common/middleware/exception_response_auditor.py:52-66 | an auto-answered request never reaches the handler; an exception becomes its error page and is not audited; a response is passed on and audited; the summary buffer and the logged reports after an auto-answer or a non-safe response are those `AfterEvent` gives for its event, stored back with a twelve-hour timeout |
| RealIp.IsValidIp | source/apps/common/middleware/real_ip.py:36-51 | valid exactly for a non-empty text that parses to an address that is neither unspecified, loopback, multicast, link-local nor reserved |
| RealIp.MaskIp | source/apps/common/middleware/real_ip.py:53-67 | "unknown" for a missing, empty or unparsable IP |
| RealIp.MaskIpV4 | source/apps/common/middleware/real_ip.py:60-62 | "a.b.c.d" is masked to "a.*.*.d" |
| RealIp.MaskIpV6 | source/apps/common/middleware/real_ip.py:63-65 | an IPv6 address keeps its first and last groups around ":*:*:*::" |
| RealIp.Decide | source/apps/common/middleware/real_ip.py:22-30 | refused exactly when the IP is invalid and DEBUG is off; the real IP is kept when present and masked for the logs, "unknown" otherwise |
| RealIp.PassedRequestsAreValidOrDebug | source/apps/common/middleware/real_ip.py:27-28 | a request that gets through carries a parsable IP, unless DEBUG is on |
| TranslationConf.SupportedCodes | source/apps/translation/_core/conf.py:44-46 | the codes of the entries, one per entry, in declaration order |
| TranslationConf.VisibleLanguages | source/apps/translation/_core/conf.py:49-55 | exactly the entries flagged visible, as code and name |
| TranslationConf.VisibleFrom | source/apps/translation/_core/conf.py:53-54 | the positions of the visible entries, each once, in increasing order |
| TranslationConf.VisibleLanguagesInOrder | source/apps/translation/_core/conf.py:49-55 | from any starting entry on, the m-th listed item is the code and name of the m-th visible entry, so the list has one item per visible entry |
| TranslationConf.VisibleSelector | source/apps/translation/_core/conf.py:49-55 | the selector lists every visible entry exactly once, in declaration order, as code and name |
| TranslationConf.FindLanguage | source/apps/translation/_core/conf.py:60-62 | the first entry with the code, or past the end |
| TranslationConf.LanguageName | source/apps/translation/_core/conf.py:58-63 | the name of the first entry with the code, or the code itself when none has it |
| TranslationConf.LanguageDict | source/apps/translation/_core/conf.py:66-68 | the keys are exactly the codes, and a code maps to the name of its last entry |
| TranslationConf.OpenAiEnabledIff | source/apps/translation/_core/conf.py:71-73 | enabled exactly when the key has a character that is not white space |
| TranslationConf.Validate | source/apps/translation/_core/conf.py:76-112 | passes exactly for a well-formed configuration; an entry without a "code" key gives the KeyError first, naming the first such entry; each other error names what is wrong: the startup code, an entry missing its code or name, a repeated code, an excluded path without a leading '/' |
| TranslationConf.ShippedIsWellFormed | source/apps/translation/_core/conf.py:19-38 | the shipped configuration passes the validation run at import, with codes "ru", "en", "kk" |
| TranslationConf.LanguageDictAgreesWithName | source/apps/translation/_core/conf.py:58-68 | with distinct codes the dictionary and the name lookup agree |
| TranslationConf.ShippedAllVisible | source/apps/translation/_core/conf.py:49-55 | every shipped language is shown in the selector, in order |
| TranslationCache.Lookup | source/apps/translation/_core/cache.py:32-53 | nothing for an absent key; the stored value exactly while the time has not passed its expiry |
| TranslationCache.Pruned | source/apps/translation/_core/cache.py:48-51 | a lookup drops the key's entry exactly when it has expired and touches no other key |
| TranslationCache.Stored | source/apps/translation/_core/cache.py:56-66 | a save sets the key to the value with an expiry 480 seconds ahead and keeps every other key |
| TranslationCache.Cache.constructor | source/apps/translation/_core/cache.py:28 | the cache starts empty |
| TranslationCache.Cache.Get | source/apps/translation/_core/cache.py:32-53 | `get_from_cache` returns `Lookup` and leaves `Pruned` |
| TranslationCache.Cache.Save | source/apps/translation/_core/cache.py:56-66 | `save_to_cache` leaves `Stored` |
| TranslationCache.Cache.Invalidate | source/apps/translation/_core/cache.py:69-72 | `invalidate_cache` empties the cache |
| TranslationCache.SaveThenLookup | source/apps/translation/_core/cache.py:48-64 | a saved value is served for 480 seconds |
| TranslationCache.ServedAtExpiry | source/apps/translation/_core/cache.py:49 | the expiry test is strict: served at exactly 480 seconds, gone after |
| TranslationCache.ExpiredIsDropped | source/apps/translation/_core/cache.py:49-51 | after its expiry a value is not served and the lookup deletes it |
| TranslationCache.SaveOverwrites | source/apps/translation/_core/cache.py:66 | a second save overwrites the value and refreshes the expiry |
| TranslationCache.OtherKeysUnaffected | source/apps/translation/_core/cache.py:41-66 | saving or looking up one key does not change what another key serves |
| TranslationCache.PruningIsInvisible | source/apps/translation/_core/cache.py:49-51 | dropping an expired entry never changes what is served then or later |
| TranslationCache.ExpiryIsPermanent | source/apps/translation/_core/cache.py:49 | an expired entry stays expired until it is saved again |
| ActiveLanguage.LanguageContext.constructor | source/apps/translation/_core/active_language_context.py:17-18 | the context starts unset, with the shipped codes as the valid ones and "ru" as the fallback |
| ActiveLanguage.LanguageContext.SetLanguage | source/apps/translation/_core/active_language_context.py:21-35 | refused exactly for an unsupported code, leaving the context as it was; otherwise the code is set |
| ActiveLanguage.LanguageContext.GetLanguage | source/apps/translation/_core/active_language_context.py:38-45 | the code set for this request, or the startup language; always a supported code |
| ActiveLanguage.LanguageRoundTrip | source/apps/translation/_core/active_language_context.py:21-45 | a request that sets nothing reads "ru"; one that sets "kk" reads "kk" |
| ActiveLanguage.RefusedCodeKeepsLanguage | source/apps/translation/_core/active_language_context.py:30-34 | refusing "de" keeps the language set before |
| LocaleMiddleware.Route | source/apps/translation/middleware.py:43-62 | the request is redirected or served; whenever the startup language is supported, a served request's language is supported |
| LocaleMiddleware.PrefixedPathIsServed | source/apps/translation/middleware.py:44-50 | a path under a supported code is served in that language, with the prefix taken off `path_info`, and the session remembers it |
| LocaleMiddleware.UnprefixedPathIsRedirected | source/apps/translation/middleware.py:51-57 | outside the excluded prefixes a path without a code is redirected under the session's or the startup language, with "?" and the query only when there is one |
| LocaleMiddleware.ExcludedPathIsNotRedirected | source/apps/translation/middleware.py:53 | a path under an excluded prefix is never redirected |
| LocaleMiddleware.ApixIsExcluded | source/apps/translation/middleware.py:53-60 | the exclusion is a plain prefix test: "/apix" is served as "/api" is |
| LocaleMiddleware.AboutIsRedirected | source/apps/translation/middleware.py:52-57 | "/about" with no session is redirected to "/ru/about" |
| LocaleMiddleware.RedirectIsServedNext | source/apps/translation/middleware.py:44-57 | the redirect target is served next, in the remembered language, with the original path as `path_info` |
| ContextProcessor.PathWithoutLang | source/apps/translation/context_processors.py:31-35 | a path whose first segment after stripping slashes is a known code loses that segment; any other path is kept, an empty one as "/" |
| ContextProcessor.CurrentPathWithoutLang | source/apps/translation/context_processors.py:31-39 | the trimmed path, followed by "?" and the query only when there is one |
| ContextProcessor.CurrentLanguage | source/apps/translation/context_processors.py:17-46 | the context holds the active code, its configured name (the code itself when it is not supported), the trimmed path and the visible languages |
| ContextProcessor.RootPrefixIsTakenOff | source/apps/translation/context_processors.py:31-33 | "/<lang>/" trims to "/" |
| ContextProcessor.PrefixIsTakenOff | source/apps/translation/context_processors.py:31-33 | taking the prefix off undoes adding it, for every page path of non-empty segments |
| ContextProcessor.TrailingSlashIsDropped | source/apps/translation/context_processors.py:31-33 | "/<lang>/<page>/" trims to "/<page>": the trailing slash goes with the prefix |
| ContextProcessor.UnprefixedPathKept | source/apps/translation/context_processors.py:34-35 | a path without a known prefix is kept, an empty one becomes "/" |
| Translator.MakeTaskKey | source/apps/translation/_core/translator.py:37-41 | every pending-flag key starts with "translation-pending:" |
| Translator.MakeTaskKeyInjective | source/apps/translation/_core/translator.py:41 | two tasks share a flag only for the same language and texts that hash alike |
| Translator.SecondMarkIsRefused | source/apps/translation/_core/translator.py:50-53 | for 30 seconds after a flag is set, marking the same task again is refused |
| Translator.FlagLapses | source/apps/translation/_core/translator.py:30-51 | a flag nobody clears lapses after 30 seconds |
| Translator.GetOrCreate | source/apps/translation/_core/translator.py:147-166 | `get_or_create` adds the row when missing and changes no field of any row |
| Translator.Answer | source/apps/translation/_core/translator.py:146-233 | the answer is the source text, the cached value, the stored value or the model's answer, and is empty only for an empty source text |
| Translator.CacheHitComesFirst | source/apps/translation/_core/translator.py:159-161 | a non-empty cached translation is returned whatever the database or the model holds |
| Translator.SourceTextFallback | source/apps/translation/_core/translator.py:176-233 | with nothing cached or stored, only slow mode with a non-empty model answer returns other than the source text |
| Translator.TranslationService.constructor | source/apps/translation/_core/translator.py:24-25 | the service starts with an empty queue, no pending tasks and no flags |
| Translator.TranslationService.MarkPending | source/apps/translation/_core/translator.py:44-53 | answers true exactly when the flag is not live, and only then sets it for 30 seconds |
| Translator.TranslationService.ClearPending | source/apps/translation/_core/translator.py:56-57 | removes the pending flag of that text and language and nothing else |
| Translator.TranslationService.GetTranslate | source/apps/translation/_core/translator.py:133-233 | the RuntimeError exactly for an unset language; otherwise returns `Answer`; the reference language copies the source text into an empty reference field; a cache hit changes nothing else; a stored value is copied into the cache; fast mode queues, marks pending and flags a task only when it is neither pending nor flagged, and otherwise changes none of them; slow mode stores a non-empty answer in that one field and the cache, caches the source text otherwise, and leaves every other row and field, the queue, the pending set and the flags as they were; without the language model only the row's creation happens |
| Translator.TranslationService.RunTask | source/apps/translation/_core/translator.py:64-111 | the oldest task leaves the queue and its pending state in every case; a filled field is never overwritten; an empty field gets a non-empty answer in that one field, every other row and field unchanged, and in the cache; an empty answer caches the source text |
| Bot.Resolved | source/cross/bot.py:111-115 | exactly the tickets whose final resolution is neither NULL nor empty, never more than the query returns |
| Bot.ResolvedAppend | source/cross/bot.py:111-118 | the filter keeps query order: filtering a concatenation filters each part in turn, so `qs[:200]` scans the first resolved tickets in query order |
| Bot.MatchesIn | source/cross/bot.py:117-121 | at most one match per scanned ticket |
| Bot.MatchesInSound | source/cross/bot.py:118-121 | each match comes from a scanned ticket that matches, with its final resolution as the solution |
| Bot.MatchesInComplete | source/cross/bot.py:118-121 | every matching scanned ticket gives a match |
| Bot.ShortQueryMatchesNothing | source/cross/bot.py:120 | a query of five characters or fewer matches nothing |
| Bot.Take | source/cross/bot.py:118-126 | a slice `[:n]`: the first n elements, or all of them |
| Bot.SimilarSolutions | source/cross/bot.py:99-126 | at most three solutions, and none for an empty query |
| Bot.FindSimilarSolutions | source/cross/bot.py:99-126 | the loop, the sort and the cut compute `SimilarSolutions` |
| Bot.SimilarSolutionsSpec | source/cross/bot.py:99-126 | at most three solutions, newest first, each from a resolved ticket among the first 200 whose lowered description holds the lowered query |
| Bot.NewestAreKept | source/cross/bot.py:123-126 | a matching ticket is left out only when three newer or equally new solutions were kept |
| Bot.IdDescendingIsTotalPreorder | source/cross/bot.py:124 | the sort key is a valid ordering |
| Bot.Lines | source/cross/bot.py:138-140 | one "• Тикет #id: solution" line per solution, in order |
| Bot.FormatSimilarSolutions | source/cross/bot.py:129-142 | the block is empty exactly when there are no solutions |
| Bot.FormatLayout | source/cross/bot.py:133-142 | a non-empty block starts with the header for the language, holds every solution's line and ends with a blank line |
| Bot.FormatOne | source/cross/bot.py:133-142 | one solution is its line between the header and the blank line |
| Bot.BotSessions.constructor | source/cross/bot.py:75 | no user has chosen a language at start |
| Bot.BotSessions.HandleText | source/cross/bot.py:179-231 | a flag stores its language and confirms it; any other text from a user without a language asks for one; otherwise the answer is the similar-solutions block and the model's reply, or the apology in the user's language when the call fails; only a flag changes the stored languages |
| Bot.Fallback | source/cross/bot.py:227-231 | the apology for each of the two languages is a non-empty text |
| Bot.Answer | source/cross/bot.py:198-231 | a known user's reply is the similar-solutions block followed by the model's reply exactly when the model call succeeds, and the apology in their language exactly when it fails |
| Bot.NewUserIsAskedFirst | source/cross/bot.py:184-198 | a new user is asked to choose a language, and after a flag the same text is answered |
| Bot.AnsweredAfterFlag | source/cross/bot.py:181-231 | after a flag, with spaces around it or not, any other text is answered exactly when the model call succeeds and gets the apology exactly when it fails |
| Bot.FlagsAreTrimmed | source/cross/bot.py:181-189 | the strip leaves a bare flag as it is, so sending one picks its language |
| LogSanitiser.Process | source/hackaton_itfest_proj/logging.py:66-76 | a leaf becomes a JSON leaf: JSON-native values are kept, a class and a callable are described by name, anything else becomes its text or the "<Unserialisable: T>" marker |
| LogSanitiser.PutKeys | source/hackaton_itfest_proj/logging.py:80 | storing under a key adds exactly that key |
| LogSanitiser.PutAppends | source/hackaton_itfest_proj/logging.py:80 | a new key goes last, after every existing member |
| LogSanitiser.PutMembers | source/hackaton_itfest_proj/logging.py:80 | storing under a key adds no member other than the stored one |
| LogSanitiser.PutDistinct | source/hackaton_itfest_proj/logging.py:80 | storing under a key keeps the keys distinct |
| LogSanitiser.GetPut | source/hackaton_itfest_proj/logging.py:80 | after storing under a key, that key reads the stored value and every other key reads what it read before |
| LogSanitiser.Recurse | source/hackaton_itfest_proj/logging.py:78-83 | a list becomes a list of the same length, a dict an object with distinct keys, a leaf its `process` value |
| LogSanitiser.RecurseItems | source/hackaton_itfest_proj/logging.py:81-82 | the rebuilt list has one element per remaining item |
| LogSanitiser.RecurseEntries | source/hackaton_itfest_proj/logging.py:79-80 | the rebuilt dict is an object, with distinct keys when the members built so far have them |
| LogSanitiser.SanitizeExtra | source/hackaton_itfest_proj/logging.py:85-88 | the rebuilt value, or `{"_error": "sanitize_failed: <exception name>"}` when the rebuild raises |
| LogSanitiser.ListElementwise | source/hackaton_itfest_proj/logging.py:81-82 | each element of a rebuilt list is its item sanitised, in order |
| LogSanitiser.FailsIffKeyFails | source/hackaton_itfest_proj/logging.py:78-88 | the rebuild fails exactly when some dict key anywhere in the value has a `str` that raises |
| LogSanitiser.ItemsFailIff | source/hackaton_itfest_proj/logging.py:81-82 | a list fails exactly when one of its remaining items holds such a key |
| LogSanitiser.EntriesFailIff | source/hackaton_itfest_proj/logging.py:79-80 | a dict fails exactly when one of its remaining entries has or holds such a key |
| LogSanitiser.LaterEntryWins | source/hackaton_itfest_proj/logging.py:80 | keys whose text collides keep one member holding the last entry's value; a key no entry has keeps what it had |
| LogSanitiser.SanitiseJsonIsIdentity | source/hackaton_itfest_proj/logging.py:78-83 | a JSON value whose objects have distinct keys is rebuilt unchanged |
| LogSanitiser.ItemsIdentity | source/hackaton_itfest_proj/logging.py:81-82 | the items of a well-formed JSON list are rebuilt unchanged |
| LogSanitiser.EntriesIdentity | source/hackaton_itfest_proj/logging.py:79-80 | the members of a well-formed JSON object are rebuilt unchanged and in order |
| LogSanitiser.OutputWellFormed | source/hackaton_itfest_proj/logging.py:78-83 | every object in a rebuilt value has distinct keys |
| LogSanitiser.EntriesWellFormed | source/hackaton_itfest_proj/logging.py:79-80 | the object built from a dict is well formed at every depth |
| LogSanitiser.SanitizeIdempotent | source/hackaton_itfest_proj/logging.py:65-88 | sanitising what the sanitiser stored changes nothing |
| Strings.SplitJoin | source/apps/translation/middleware.py:44-49 | splitting a join of parts that hold no separator gives the parts back |
| Strings.JoinSplit | source/apps/translation/context_processors.py:31-33 | joining the parts of a split gives the text back |

## Left out

- Calls to the language model, the prompt texts and the regex clean-up of its reply. The reply, already cleaned, is a parameter, with None for a call that raises.
- Threads, locks, the worker pool and its start-up, and the worker's pause between requests. A queued task is run by an explicit `RunTask` step.
- Floating point. Priorities, prices and times are reals, and Python's rounding is modelled on the exact real value.
- `ipaddress` parsing and classification. It is a parameter, assumed only to give four dot-separated parts for an IPv4 address.
- `math.log`. It is a parameter obeying log10(1) = 0, log10(10) = 1 and strict monotonicity.
- Python's `hash` of a string. It is a parameter, and its per-process randomisation is not modelled.
- Django's cache culling and size limits. Cache entries only expire.
- Logging itself: message texts, log levels and the database log handler's write. The summary is modelled as the report it would log.
- Request parsing and the request-context dictionaries (`_ctx`) beyond the fields that are used.
- The Django `activate()` call in the locale middleware. It is switched off in the shipped configuration.
- Template rendering. A template either exists or not, given as a set of names.
- The bot's `/start`, `/help` and `/lang` commands, its keyboards, polling and message sending.
- Engineer assignment. The dashboard's URL table names an assignment view that the code does not define.
- LogSanitiser.Recurse: cyclic structures and Python's recursion limit are not modelled. A dict key is given with the outcome of its `str`, and any leaf with its text.
- ContextProcessor.PrefixIsTakenOff: a concrete "/ru/a/" instance is not stated. The general lemma `TrailingSlashIsDropped` covers it.
- TranslationConf.SupportedCodes: the accessors read every entry's code and do not model the KeyError of an entry without one. Validation runs at import (`apps/translation/_core/conf.py:117`) and `Validate` reports that KeyError, so no accessor runs on such a configuration.
- Strings.LowerChar: `str.lower` is written out for A-Z, А-Я, Ё, І and the Kazakh letters only; other cased Unicode letters are left as they are. The bot's case-insensitive matching of descriptions (`Bot.MatchesIn`) inherits this.
- Priority.ImportanceMultiplier: the coefficients are the defaults 1.10 and 1.20, the only ones any caller uses.
- Translator.TranslationService.RunTask: the `Translation.objects.get` by id is modelled as a lookup by source text. A missing row and a raising model call both leave the row and the cache alone.
