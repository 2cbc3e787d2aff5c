# devfinder: a verified model of the GitHub developer search

This project models the core of devfinder, a React front end for searching GitHub users. It covers:

- how a search query is built from a term, comma-separated locations and a language;
- which extra result pages are sampled for statistics;
- how every user found is enriched with profile details, top languages and a starred count, the count read from a `Link` header;
- how a commit email is mined from patches and push events;
- the seniority scorer and its six tiers;
- the insight charts (language and tier tallies, extrapolation, ordering, the top-10 slice, click toggles);
- the result list (language/tier filter, stable sort, the `handleSearch` state machine);
- the location chips of the filter bar;
- the blog link and email lookup of a user card;
- the classifiers the README viewer uses to lay out badges, skill tables, cells and links.

Every HTTP request is replaced by its response, which is given as input:

- `Response<T>` is `Rejected | NotOk | Ok(body)`;
- a `Link` header is an `Option<string>`;
- timestamps are integers in milliseconds;
- the current time `now` is a parameter;
- `Math.log10` is a parameter `log10: real -> real`. Where a property needs it, the lemma requires `IsLogLike(log10)`: `log10(1) = 0`, monotone, non-negative from 1 on.

Files and modules:

| file | module | models |
|---|---|---|
| wrappers.dfy | Wrappers | `Option`, `Result` |
| text.dfy | Text | `trim`, `split`, `join`, `includes`, `startsWith`, digits |
| seqs.dfy | Seqs | `filter`, subsequences, the stable `sort` by an integer key |
| users.dfy | Users | the `GitHubUser` record of src/types/github.ts |
| github.dfy | GitHub | query, sample pages, enrichment, the `Link` header, `searchUsers` |
| commit_email.dfy | CommitEmail | `findEmailInCommits`, `getCommitEmail` |
| seniority.dfy | Seniority | `calculateSeniorityScore` |
| insights.dfy | Insights | the `useMemo` aggregation, `displayLanguages`, the click toggle |
| app.dfy | App | `filteredUsers`, `sortedUsers`, the `App` state and its handlers |
| filters.dfy | SearchFilters | `locations`, `handleLocationKeyDown`, `removeLocation` |
| usercard.dfy | UserCard | blog link, shown email, `handleFetchEmail` |
| readme.dfy | ReadmeModal | `hasSkillIcons`, the `img`/`p`/`table`/`td`/`th`/`a` classifiers |

Each part takes its source's shape:

- **Loops.** Accumulating loops are methods with `while`/`for` loops proved equal to a specification function. These are the query `+=`, the sample-page `for`, the email searches with early `return`, the scorer's `+=` chain and the `forEach` tallies.
- **Component state.** State that a component updates in place is a class: `App.AppState`, `SearchFilters.LocationBox` and `UserCard.EmailLookup`.
- **Pure pipelines.** Map/filter/sort pipelines, regexes and tree predicates are functions with lemmas.

Details of the JavaScript semantics:

- `Object.entries` on the tally dictionaries is modelled as an insertion-ordered association list `Counts`.
- `Array.prototype.sort` is modelled as a stable insertion sort by an integer key, largest first.
- `Promise.all` is modelled as a sequential fold that fails with the first failure in list order.

Three behaviours of the code worth knowing:

- The scorer clamps only from above (`Math.min(…, 100)`). A negative score is possible when inputs are out of range, so `Seniority.ScoreNonNegative` needs timestamps at most `now` and non-negative counts.
- Locations are not escaped one by one; each entry is trimmed and put into the query text as it is.
- Sample pages are never checked for a 2xx status. An error answer without `items` puts `undefined` into the sample, and the enrichment that follows throws. This is `GitHub.SearchError.UndefinedSampleItem`.

## Model

| member | source | states |
|---|---|---|
| GitHub.BuildQuery | src/services/github.ts:118-126 | the method building `q` by `+=` returns exactly the query specification `QueryString(query, location, language)` |
| GitHub.NoFiltersKeepQuery | src/services/github.ts:118-126 | with no location and no language the query is the search term unchanged |
| GitHub.QueryOfLocationList | src/services/github.ts:120-126 | for a list of non-empty comma-free entries joined by commas, the query is the term, one ` location:`+trimmed entry per entry in order, then ` language:`+language only when the language is non-empty |
| GitHub.BlankLocationEntry | src/services/github.ts:121-123 | a whitespace-only entry survives `filter(Boolean)` and yields a bare ` location:` |
| GitHub.JoinedLocationTerms | src/services/github.ts:123 | a space before the space-joined `location:` terms gives the concatenation of one ` location:`+name per name |
| GitHub.Trimmed | src/services/github.ts:123 | trimming the entries keeps one entry per entry |
| GitHub.LocationTerms | src/services/github.ts:123 | one `location:` term per location |
| GitHub.BerlinNycQualifiers | src/services/github.ts:121-123 | `Berlin,NYC` yields ` location:Berlin location:NYC` |
| GitHub.BerlinNycList | src/services/github.ts:123 | the entries `Berlin`, `NYC` give ` location:Berlin location:NYC` |
| GitHub.BerlinNycTrimmed | src/services/github.ts:123 | trimming leaves `Berlin` and `NYC` as they are |
| GitHub.BerlinNycText | src/services/github.ts:123 | the qualifier text for `Berlin`, `NYC` is ` location:Berlin location:NYC` |
| GitHub.QueryWithLanguage | src/services/github.ts:126 | a non-empty language appends ` language:`+language after the location qualifiers |
| GitHub.AliceBerlinNycGo | src/services/github.ts:118-126 | term `alice`, locations `Berlin,NYC` and language `Go` give `alice location:Berlin location:NYC language:Go` |
| GitHub.AliceQueryText | src/services/github.ts:126 | the concatenated pieces of that query spell it out |
| GitHub.SamplePagesAreTwoToFour | src/services/github.ts:145-150 | sample pages are requested only with stats on page 1, and they are exactly pages 2, 3 and 4 |
| GitHub.StatsPageRequests | src/services/github.ts:147-163 | the loop skipping page 1 queues exactly the sample pages, each between 2 and 4 |
| GitHub.PresentLanguages | src/services/github.ts:239-241 | the kept languages are the non-empty ones the repos have, and every present non-empty language is kept |
| GitHub.Distinct | src/services/github.ts:243 | `Array.from(new Set(…))` has no duplicates and the same elements as its input |
| GitHub.DistinctFirstSeenOrder | src/services/github.ts:243 | the distinct languages appear in the order of their first occurrence |
| GitHub.TopLanguagesFacts | src/services/github.ts:239-243 | `top_languages` has at most 5 entries; they are distinct, non-empty and each some repo's language; they are in first-seen order; when fewer than 5, every present language is among them |
| GitHub.GetUserActivity | src/services/github.ts:227-249 | a non-2xx repos answer gives `[]`, only a rejected request fails, and a 2xx answer gives exactly the top languages of its repos (at most 5, distinct, non-empty, in first-seen order, as `GitHub.TopLanguagesFacts` states) |
| GitHub.DigitRunEnd | src/services/github.ts:268 | `\d+` extends exactly over the digits that follow |
| GitHub.FirstLastPageSound | src/services/github.ts:268 | a match found by the scan is the leftmost position where `page=(\d+)>; rel="last"` matches, and it yields that match's number |
| GitHub.FirstLastPageComplete | src/services/github.ts:268 | if the pattern matches somewhere from the scan start, the scan finds a match |
| GitHub.StarredCountOf | src/services/github.ts:259-269 | a non-2xx answer, a missing header or an empty header gives 0; otherwise the first match's number, and 0 when nothing matches |
| GitHub.GetUserStarredCount | src/services/github.ts:251-270 | only a rejected request fails; a non-2xx answer gives 0; a 2xx answer gives the count read from its `Link` header |
| GitHub.StarredThirtySeven | src/services/github.ts:263-269 | a header whose last link is `…?page=37>; rel="last"` gives 37 |
| GitHub.LastLinkMatch | src/services/github.ts:268 | in any header `pre`+`page=`+digits+`>; rel="last"`+`post`, the match at the end of `pre` yields those digits' value |
| GitHub.SkipWithoutPa | src/services/github.ts:268 | positions where no `p` is followed by `a` cannot start a match, so the scan may skip them |
| GitHub.GetUserReadme | src/services/github.ts:272-290 | the README is the body exactly when the answer is 2xx, otherwise `null`; it never fails |
| GitHub.GetUserDetails | src/services/github.ts:204-225 | a non-2xx profile fails with "Failed to fetch user details"; success needs a 2xx profile and non-rejected repos and starred requests; a result is the profile with `top_languages` set to the user's activity languages (at most 5) and `starred_repos` to the starred count (non-negative), and nothing else changed |
| GitHub.EnrichDisplayed | src/services/github.ts:173-185 | a shown user succeeds exactly when its details do, and is the detailed user with the README attached |
| GitHub.EnrichAll | src/services/github.ts:173-195 | the enrichment succeeds exactly when every user's details do; the result has one user per item, in order, each the item's details (with its README when `withReadme`) |
| GitHub.EnrichAllFailureIsSomeUsers | src/services/github.ts:173-195 | a failed enrichment reports the error of some user's details |
| GitHub.ReadmeNeverFails | src/services/github.ts:281-289 | fetching the README never changes whether the enrichment succeeds |
| GitHub.SampleEntries | src/services/github.ts:165-170 | one rejected sample request empties the whole sample |
| GitHub.SearchUsers | src/services/github.ts:111-202 | `searchUsers` sends the specified query, requests the specified sample pages only after a 2xx primary answer (none after a rejected or non-2xx one) and resolves with the search specification |
| GitHub.SearchItemsPrefixStats | src/services/github.ts:197-201 | on success the primary answer was 2xx; `items` are the enriched primary items with READMEs, one per primary item; no sample entry was `undefined`; `stats_items` are those `items` followed by the enriched sample items; `total_count` is passed on |
| GitHub.SearchWithoutSample | src/services/github.ts:144-170 | with stats off, not on page 1, or any sample request rejected, `stats_items` equals `items` |
| GitHub.SearchErrors | src/services/github.ts:138-140 | a non-2xx primary answer fails with "Failed to fetch users"; a non-2xx profile fails with "Failed to fetch user details" |
| CommitEmail.EmailMatchAtIsRegexMatch | src/services/github.ts:43 | the matcher at a position returns an address exactly when `From: [^<]*<([^>]+)>` matches there, with that capture |
| CommitEmail.PatchEmailLeftmost | src/services/github.ts:43 | the address taken from a patch is the capture of the leftmost match |
| CommitEmail.PatchEmailComplete | src/services/github.ts:43 | a patch with a match somewhere gives an address |
| CommitEmail.PatchEmailShape | src/services/github.ts:43 | a captured address is non-empty and contains no `>` |
| CommitEmail.FromLineEmail | src/services/github.ts:43 | a patch starting `From: name <e>` gives `e` |
| CommitEmail.PatchAddress | src/services/github.ts:42-47 | a patch yields only its first match, and only when that contains no `noreply.github.com` |
| CommitEmail.EmailInPatches | src/services/github.ts:38-50 | any address returned from the commits is usable (non-empty, not noreply) |
| CommitEmail.EmailInPatchesFirst | src/services/github.ts:38-48 | the address returned comes from the first 2xx patch with a usable match, after skipping non-2xx patches and patches without one |
| CommitEmail.FindEmailInCommits | src/services/github.ts:25-55 | the loop with early `return` returns the commit-email specification: `null` for a non-2xx commit list or a rejected request |
| CommitEmail.OwnRepos | src/services/github.ts:72-74 | only non-fork repos are kept, all of them, in non-increasing `pushed_at` order |
| CommitEmail.EmailInRepos | src/services/github.ts:76-79 | an address found in the repos is usable |
| CommitEmail.EmailInEvents | src/services/github.ts:94-102 | an address found in push events is usable |
| CommitEmail.EmailInPushCommits | src/services/github.ts:96-100 | an address found in one push event's commits is usable |
| CommitEmail.FindEmailInRepos | src/services/github.ts:76-79 | the repo loop returns the repo-stage specification |
| CommitEmail.FindEmailInEvents | src/services/github.ts:94-103 | the event loop returns the event-stage specification |
| CommitEmail.FindEmailInPushCommits | src/services/github.ts:96-100 | the inner commit loop returns the first usable author email |
| CommitEmail.GetCommitEmail | src/services/github.ts:57-109 | `getCommitEmail` returns the two-stage specification, `null` on any thrown error |
| CommitEmail.FailedListingGivesNothing | src/services/github.ts:66-68 | a repo listing that is not 2xx (thrown, then caught) gives `null` |
| CommitEmail.ForksIgnored | src/services/github.ts:72-73 | removing the forks from the listing changes nothing |
| CommitEmail.EventsOnlyAsFallback | src/services/github.ts:76-81 | once the repos give an address, the events do not matter |
| CommitEmail.MostRecentRepoFirst | src/services/github.ts:72-78 | an address from the most recently pushed own repo wins |
| CommitEmail.FirstUsableAuthor | src/services/github.ts:96-98 | the first commit with a usable author email, in order, is the one returned |
| Users.OrZero | src/utils/seniorityScore.ts:29 | a missing count reads as 0, a present one as itself |
| Users.LanguageCount | src/utils/seniorityScore.ts:32 | missing `top_languages` counts as 0 languages |
| Seniority.Round | src/utils/seniorityScore.ts:40 | `Math.round` gives the integer within half of its argument, halves rounded up |
| Seniority.RoundMonotone | src/utils/seniorityScore.ts:40 | rounding is monotone |
| Seniority.AgeTerm | src/utils/seniorityScore.ts:17 | the account-age term is at most 25, and non-negative for an account created by now |
| Seniority.FollowersTerm | src/utils/seniorityScore.ts:20 | the followers term is at most 15 |
| Seniority.ReposTerm | src/utils/seniorityScore.ts:23 | the repositories term is at most 15 |
| Seniority.RecencyTerm | src/utils/seniorityScore.ts:26 | the recency term is non-negative, at most 15 for an update by now, and 15 for an update just now |
| Seniority.StarsTerm | src/utils/seniorityScore.ts:29 | the stars term is at most 10 |
| Seniority.LanguagesTerm | src/utils/seniorityScore.ts:32 | the languages term lies in 0..10 and is 0 without languages |
| Seniority.CommitsTerm | src/utils/seniorityScore.ts:36 | the commits term is at most 5 |
| Seniority.ChurnTerm | src/utils/seniorityScore.ts:37 | the churn term is at most 5 |
| Seniority.ContributionTerms | src/utils/seniorityScore.ts:35-38 | the contribution terms add at most 10, and nothing when `commits` is missing or 0 |
| Seniority.RawScoreAtMostHundred | src/utils/seniorityScore.ts:14-38 | the unrounded sum is at most 100 for an update by now |
| Seniority.Score | src/utils/seniorityScore.ts:40 | the final score is an integer at most 100 |
| Seniority.Metrics | src/utils/seniorityScore.ts:40-65 | the result's score is the user's score, at most 100; its level is the tier of that score and its colour the tier's colour |
| Seniority.CalculateSeniorityScore | src/utils/seniorityScore.ts:9-66 | the `+=` chain and the if/else ladder compute the scorer specification, with score at most 100 and level the tier of the score |
| Seniority.TierBands | src/utils/seniorityScore.ts:45-63 | each tier is exactly one band: 85 and up Principal; 70..84 Staff; 55..69 Senior; 40..54 Mid-Level; 25..39 Junior; below 25 Entry |
| Seniority.TierMonotone | src/utils/seniorityScore.ts:45-63 | a higher score never gets a lower tier |
| Seniority.LabelInjective | src/utils/seniorityScore.ts:45-61 | distinct tiers have distinct labels |
| Seniority.ScoreNonNegative | src/utils/seniorityScore.ts:17-40 | with timestamps at most now and non-negative counts the score is non-negative |
| Seniority.FreshAccountScore | src/utils/seniorityScore.ts:11-32 | an account created and updated now with nothing else scores 15, tier Entry |
| Seniority.ChurnIgnoredWithoutCommits | src/utils/seniorityScore.ts:35-38 | without commits, `added` and `deleted` do not affect the score |
| Seniority.ScoreMonotoneInFollowers | src/utils/seniorityScore.ts:20 | more followers never lower the score |
| Insights.BumpKeys | src/components/SearchInsights.tsx:99 | counting a key adds it at the end of the entries exactly when it is new |
| Insights.BumpCount | src/components/SearchInsights.tsx:99 | counting a key adds 1 to its count and leaves every other count alone |
| Insights.BumpTotal | src/components/SearchInsights.tsx:104 | counting adds exactly 1 to the sum of the counts |
| Insights.BumpKeeps | src/components/SearchInsights.tsx:99 | counting keeps keys distinct and counts positive |
| Insights.AddAllCount | src/components/SearchInsights.tsx:98-100 | counting a user's languages adds to each count its number of occurrences among them |
| Insights.AddAllKeys | src/components/SearchInsights.tsx:98-100 | after counting, the keys are the old keys and the counted languages, distinct, with positive counts |
| Insights.UsersWithLanguages | src/components/SearchInsights.tsx:96-97 | at most every user has languages |
| Insights.LangTallyFacts | src/components/SearchInsights.tsx:95-101 | each language's tally is its number of occurrences over the users' `top_languages`; the tallied languages are exactly those occurring, once each; a non-empty tally means some user has languages |
| Insights.TierTallyFacts | src/components/SearchInsights.tsx:103-104 | each tier's tally is its number of users; the tallied tiers are exactly those occurring; the tallies sum to the number of users |
| Insights.CountLanguages | src/components/SearchInsights.tsx:98-100 | the inner `forEach` computes the language-counting specification |
| Insights.Tally | src/components/SearchInsights.tsx:91-105 | the `forEach` over users computes the language tally, the tier tally and `usersWithLanguages` |
| Insights.Entries | src/components/SearchInsights.tsx:110-115 | one bar per dictionary entry, in entry order, named by its key |
| Insights.EntryAt | src/components/SearchInsights.tsx:111-115 | each bar's count is the extrapolated tally and its percentage the tally over its base |
| Insights.SortedBar | src/components/SearchInsights.tsx:110-116 | after sorting, each bar still carries its own key's extrapolated count and percentage |
| Insights.BarPresent | src/components/SearchInsights.tsx:110-116 | sorting loses no key |
| Insights.BarsDistinct | src/components/SearchInsights.tsx:110-116 | sorting repeats no key |
| Insights.IndexOf | src/components/SearchInsights.tsx:125 | `indexOf` is the first position of the value, or -1 exactly when it is absent |
| Insights.LevelIndexOfTier | src/components/SearchInsights.tsx:124-125 | every tier's label is in the fixed order, at the position given by its rank from the top |
| Insights.CountedLevelsAreLabels | src/components/SearchInsights.tsx:103-104 | only tier labels are ever tallied |
| Insights.LanguageStatsFacts | src/components/SearchInsights.tsx:107-116 | the language chart is sorted by count, largest first; each bar is an occurring language with count `round(tally * totalCount / users.length)` and percentage relative to the users with languages; every occurring language has exactly one bar |
| Insights.SeniorityBars | src/components/SearchInsights.tsx:117-122 | each tier bar is a counted tier with its extrapolated count, and its percentage is relative to the number of users |
| Insights.StrictlyInLevelOrder | src/components/SearchInsights.tsx:123-126 | bars ordered by the fixed level index, with distinct known names, are strictly in that order |
| Insights.SeniorityDistributionFacts | src/components/SearchInsights.tsx:107-126 | the tier chart lists the tiers that have users, each once, strictly in the order Principal, Staff, Senior, Mid-Level, Junior, Entry, with extrapolated counts and percentages relative to the number of users |
| Insights.Aggregate | src/components/SearchInsights.tsx:90-128 | the `useMemo` computes the language chart and the tier chart of their specifications |
| Insights.ExtrapolateWholeSample | src/components/SearchInsights.tsx:107-113 | when the sample is the whole result, counts are not scaled |
| Insights.ExtrapolateFourOfTen | src/components/SearchInsights.tsx:107-113 | 4 of 10 sampled users with a total of 500 extrapolate to 200 |
| Insights.DisplayLanguages | src/components/SearchInsights.tsx:130-132 | the displayed languages are a prefix of the chart: all of them when `showAllLanguages` is set or there are at most 10, otherwise 10 |
| Insights.DisplayLanguagesFacts | src/components/SearchInsights.tsx:130-132 | with nothing hidden all bars are shown, and every shown bar counts at least as much as every hidden one |
| Insights.ClickToggle | src/components/SearchInsights.tsx:186 | a click emits `''` exactly when the entry is already active, otherwise its own key |
| Insights.ClickTwice | src/components/SearchInsights.tsx:155 | when no entry or that same entry was active, clicking a non-empty entry twice restores the filter it started from |
| App.FilteredUsersFacts | src/App.tsx:31-48 | the filtered users are a subsequence of the users; each user occurs as often as in `users` when it has the active language (if set) and the active tier (if set), and never otherwise; with neither set they are the users |
| App.BothFilters | src/App.tsx:34-45 | filtering by language and then by tier is one filter by both |
| App.OneFilter | src/App.tsx:31-48 | with one filter set it is the only test applied, and with none the list is unchanged |
| App.FilterCounts | src/App.tsx:35-44 | a filter keeps every occurrence of each accepted user and none of a rejected one |
| App.TierChartMatchesFilter | src/App.tsx:40-45 | filtering by a tier keeps as many users as the tier chart counts for it, because both use the same scorer |
| App.LevelFilterCounts | src/App.tsx:41-44 | the tier filter keeps as many users as are at that tier |
| App.SortedUsersFacts | src/App.tsx:50-69 | the sorted users are a permutation of the filtered users, in non-increasing order of the selected key; users with equal keys keep their relative order; an unknown sort keeps the input order |
| App.SortByFollowers | src/App.tsx:53-54 | sorting by followers is largest first |
| App.SortByStars | src/App.tsx:59-60 | sorting by stars is largest first, a missing starred count taken as 0 |
| App.SortByInactive | src/App.tsx:63-64 | sorting by inactivity is by `updated_at`, earliest first |
| App.SortOptionsAreKnown | src/components/SearchFilters.tsx:87-92 | every value the sort menu offers is one the comparator sorts by |
| App.InsightsUsers | src/App.tsx:208 | the charts use the stats sample when it is non-empty, otherwise the sorted users |
| App.AppState.constructor | src/App.tsx:13-29 | the initial state: empty query and lists, page 1, `hasMore`, no error, no active filters, sort by followers |
| App.AppState.SetSearchQuery | src/App.tsx:172 | typing sets the query; every other field of the state is unchanged |
| App.AppState.HandleFilterChange | src/App.tsx:192-193 | a filter change replaces the named field of `filters` and keeps the other two; every other field of the state is unchanged |
| App.AppState.HandleLanguageClick | src/App.tsx:115-118 | a language click sets the language and clears the tier; every other field of the state is unchanged |
| App.AppState.HandleSeniorityClick | src/App.tsx:120-123 | a tier click sets the tier and clears the language; every other field of the state is unchanged |
| App.AppState.BeginSearch | src/App.tsx:71-86 | a blank query only sets "Please enter a search query"; otherwise loading starts, the error and both filters clear, `hasSearched` is set, and page 1 empties the users |
| App.AppState.CompleteSearch | src/App.tsx:88-104 | on success page 1 replaces `users` and `statsUsers` and later pages append to `users` only; `totalCount` is set, `hasMore` is true exactly for 30 items, `page` becomes the page asked for; on failure the error message is set and nothing else changes; loading ends either way |
| App.AppState.HandleSearch | src/App.tsx:71-105 | the whole `handleSearch`: a blank query sends nothing, sets the error and changes nothing else; otherwise it sends the query for the current filters and the state after success or failure is as above, with a failed page-1 search leaving `users` empty and `totalCount`, `hasMore` and `page` as they were |
| SearchFilters.Locations | src/components/SearchFilters.tsx:15 | the chips are non-empty and comma-free, and an empty filter gives none |
| SearchFilters.Reparse | src/components/SearchFilters.tsx:15 | parsing comma-joined non-empty comma-free chips gives them back |
| SearchFilters.AddThenParse | src/components/SearchFilters.tsx:18-23 | with a comma-free non-blank input, reparsing the emitted filter gives the old chips with the trimmed input appended |
| SearchFilters.RemoveThenParse | src/components/SearchFilters.tsx:26-29 | after removal the chips are a subsequence of the old ones without the removed value, and every other chip keeps its number of occurrences |
| SearchFilters.AddThenRemove | src/components/SearchFilters.tsx:17-29 | adding a new chip and then removing it restores the chips |
| SearchFilters.LocationBox.constructor | src/components/SearchFilters.tsx:14 | the location input starts empty |
| SearchFilters.LocationBox.SetLocationInput | src/components/SearchFilters.tsx:14 | typing sets the location input |
| SearchFilters.LocationBox.HandleLocationKeyDown | src/components/SearchFilters.tsx:17-24 | Enter with non-blank input emits the location change with the trimmed input appended and clears the input; any other key or a blank input emits nothing and keeps the input |
| SearchFilters.LocationBox.RemoveLocation | src/components/SearchFilters.tsx:26-29 | removing emits the location change for the chips without the removed value |
| UserCard.BlogHrefAsWritten | src/components/UserCard.tsx:136 | the link target as written always starts with the letters `http` |
| UserCard.HttpNamedHostStaysRelative | src/components/UserCard.tsx:136 | as written, the blog `httpbin.org` stays `httpbin.org`, a relative link with no scheme |
| UserCard.BlogHref | src/components/UserCard.tsx:136 | the corrected link target always has an `http://` or `https://` scheme: the blog itself when it has one, `https://` in front otherwise |
| UserCard.BlogDisplay | src/components/UserCard.tsx:142 | the link text drops one leading `https://` or `http://`, and is the blog when it has no scheme |
| UserCard.DisplayOfHref | src/components/UserCard.tsx:136-142 | the link text is the same whether read from the blog field or from the link target |
| UserCard.DisplayIsSuffix | src/components/UserCard.tsx:142 | the link text is the blog less at most 8 leading characters |
| UserCard.DisplayOfHrefAsWritten | src/components/UserCard.tsx:136-142 | the link text read from the target as written is the same as read from the blog field |
| UserCard.BlogLink | src/components/UserCard.tsx:134-143 | the blog link is drawn exactly for a non-empty blog, with the target as written and the link text |
| UserCard.BlogLinkIntended | src/components/UserCard.tsx:134-143 | with the corrected target, the link is drawn exactly for a non-empty blog, its target has a scheme and its text is the target less that scheme |
| UserCard.BlogLinksAgree | src/components/UserCard.tsx:136 | the link as written and the corrected link differ exactly for a blog that starts with `http` but has no `http://` or `https://` scheme |
| UserCard.ShownEmail | src/components/UserCard.tsx:145-151 | the profile email when non-empty, otherwise the looked-up one |
| UserCard.ViewFacts | src/components/UserCard.tsx:145-173 | a mail link for a non-empty profile email or looked-up email; otherwise "No public email found" after a failed lookup; otherwise the lookup button, busy while loading |
| UserCard.CardMetrics | src/components/UserCard.tsx:20 | the card's score is the shared scorer's score for the user, at most 100, and its tier and colour are the shared scorer's |
| UserCard.EmailLookup.constructor | src/components/UserCard.tsx:16-18 | no email, not loading, no error |
| UserCard.EmailLookup.BeginFetch | src/components/UserCard.tsx:23-24 | the lookup starts loading and clears the error |
| UserCard.EmailLookup.CompleteFetch | src/components/UserCard.tsx:25-37 | an address sets `commitEmail`; `null`, an empty address or a throw sets `emailError` and keeps `commitEmail`; loading ends either way |
| UserCard.EmailLookup.HandleFetchEmail | src/components/UserCard.tsx:22-38 | the whole lookup ends not loading, storing the address the commit-email search finds, or setting the error when it finds none |
| ReadmeModal.NotObjectHasNone | src/components/ReadmeModal.tsx:68 | a non-object node has no skill icons |
| ReadmeModal.ImgDecidesBySrc | src/components/ReadmeModal.tsx:70-73 | an image has skill icons exactly when its `src` names `skillicons.dev` or `techstack-generator.vercel.app`, whatever its children |
| ReadmeModal.OtherDecidesByChildren | src/components/ReadmeModal.tsx:75-79 | any other object has skill icons exactly when some child has, and none without a children array |
| ReadmeModal.SomeHasSkillIconsIff | src/components/ReadmeModal.tsx:76 | the scan over the children is `.some` |
| ReadmeModal.NestedSkillIcon | src/components/ReadmeModal.tsx:67-80 | a skill icon inside `table > tr > td` is found from the table |
| ReadmeModal.TableLayoutOf | src/components/ReadmeModal.tsx:133-149 | a table gets the centred layout exactly when it has skill icons |
| ReadmeModal.AltText | src/components/ReadmeModal.tsx:83-106 | a non-empty alt is kept; otherwise it is `Badge` for an image whose `src` has one of the five markers and `Image` for any other |
| ReadmeModal.SkillIconIsBadge | src/components/ReadmeModal.tsx:84-88 | every skill-icon image is drawn as a badge |
| ReadmeModal.NoSrcNoBadge | src/components/ReadmeModal.tsx:84-104 | an image without `src` is not a badge and defaults to `Image` |
| ReadmeModal.ContainsOnlyBadgesIff | src/components/ReadmeModal.tsx:109-113 | a paragraph is a badge row exactly when every child is one whose `type` is `img` or blank text; an empty paragraph is one |
| ReadmeModal.ParagraphLayoutOf | src/components/ReadmeModal.tsx:108-131 | a badge row comes first and wins; otherwise `align="center"` centres; otherwise a plain paragraph |
| ReadmeModal.WordBreaksBadgeRow | src/components/ReadmeModal.tsx:109-113 | text that is not all whitespace anywhere in the paragraph stops it being a badge row |
| ReadmeModal.AlignClass | src/components/ReadmeModal.tsx:150-156 | the cell class is one of the three; it is `text-center` exactly for `center` and `text-right` exactly for `right`, so missing or any other value gives `text-left` |
| ReadmeModal.SomeBadgeImageIff | src/components/ReadmeModal.tsx:184-189 | the scan over a link's children is `.some` |
| ReadmeModal.BadgeLinkFacts | src/components/ReadmeModal.tsx:183-189 | a link is a badge link exactly when a direct child is an `img` element with a `shields.io` or `custom-icon-badges` source, and such an image is a badge |
| ReadmeModal.NestedBadgeIsNotBadgeLink | src/components/ReadmeModal.tsx:184-189 | a badge image one level down, inside a `span`, does not make a badge link |
| Text.Trim | src/App.tsx:72 | `trim` removes exactly the leading and trailing whitespace, and is empty exactly for all-whitespace text |
| Text.SplitNonEmpty | src/services/github.ts:121 | `split(',').filter(Boolean)` gives non-empty, separator-free parts, none for empty text |
| Text.SplitJoin | src/components/SearchFilters.tsx:21 | splitting the join of separator-free parts gives the parts back |
| Text.JoinSplit | src/components/SearchFilters.tsx:15 | joining the split parts gives the text back |
| Seqs.Filter | src/App.tsx:35 | `filter` gives a subsequence of accepted elements that keeps every accepted element |
| Seqs.FilterTwice | src/App.tsx:34-45 | two filters in a row are one filter by both tests |
| Seqs.SortDescSortedPermutation | src/App.tsx:51 | the sort gives a permutation in non-increasing key order |
| Seqs.SortDescStable | src/App.tsx:51 | the sort keeps the relative order of elements with equal keys |
| Seqs.SortDescConstantKey | src/App.tsx:65-66 | a comparator that always answers 0 leaves the list as it is |

## Left out

- HTTP itself (`fetch`, headers, `getAuthHeaders`, `.json()`, `.text()`) is not modelled. Each request is replaced by its settled response, given as input.
- `Promise.all` concurrency is not modelled. The enrichment is a fold that fails with the first failure in list order; the browser reports whichever rejection settles first.
- Floating point is not modelled. Scores, ratios and percentages are exact reals, and `toFixed`/`toLocaleString` are left out.
- `Math.log10` is a parameter. `Date` parsing, invalid dates and `NaN` are not modelled: timestamps are integers, and `now` replaces `new Date()`.
- `Object.entries` puts integer-like keys first. Language and tier names are not integer-like, so the model keeps insertion order only.
- Insights.Bump: the tally objects are plain object literals, so `stats[lang] || 0` for a language named `constructor`, `__proto__` or another prototype key would read the inherited member rather than a missing count. The model treats every name as an ordinary key.
- The alignment lookup on an object literal would also find prototype keys such as `constructor`. These are not modelled: any value other than `left`, `center` and `right` gives `text-left`.
- The seniority scorer has a second copy inside src/components/SearchInsights.tsx. That copy is identical, so it is modelled once, as `Seniority.Metrics`.
- Each tier's chart colour is taken from the first user rather than from the tier. This is presentation only and not modelled.
- Console logging, JSX rendering, Tailwind classes, `ReactMarkdown` and its sanitising schema are not modelled. Nor are the hero section, the sign-in URL and the language colour table.
- OAuth, the serverless functions and the auth context are not part of this model.
- GitHub.Message: the texts "Failed to fetch" (a rejected `fetch`) and "Cannot read properties of undefined (reading 'login')" (enriching an `undefined` sample entry) are the ones one browser engine gives; other engines word these errors differently.
- ReadmeModal.BadgeRowPart: a child counts as an image when its `type` is the string `img`. Because the `components` map replaces `img` with a custom renderer, a rendered image child may carry that component as its `type` instead; which one React passes here is not modelled.
- GitHub.Search: reading a body (`.json()`/`.text()`) that rejects is modelled as the request rejecting.
- App.AppState.HandleFilterChange: a change naming a field other than location, language or sort would add that key to `filters`. The model keeps the three fields and ignores such a change; the filter bar sends only those three names.
- App.AppState.HandleSearch: requires that the sample outcomes given as input are one per requested sample page. The code itself has no such demand; the requirement only shapes the input.
- Insights.Entries: states names and order only. The count and percentage of each bar are stated by `Insights.EntryAt`.
- A fixed `now` always gives the same score and the same tier, because every member is a function of its inputs. No separate lemma states this.

## Findings

| source | as written | input that shows it | evidently intended | confidence | as-written member | corrected member |
|---|---|---|---|---|---|---|
| src/components/UserCard.tsx:136 | `blog.startsWith('http') ? blog : 'https://' + blog` treats any text starting with the letters `http` as carrying a scheme | the blog `httpbin.org` keeps no scheme, so the anchor is a link relative to the app's own page | prefix `https://` unless the blog already starts with `http://` or `https://`, as the display text's `/^https?:\/\//` assumes | medium, not executed | UserCard.BlogHrefAsWritten, UserCard.HttpNamedHostStaysRelative, UserCard.BlogLink | UserCard.BlogHref, UserCard.BlogLinkIntended, UserCard.BlogLinksAgree |
