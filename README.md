# PayPro.se core logic in Dafny

PayPro.se is a bilingual (Swedish/English) Next.js site about payments and
the Swedish economy. It has a macro dashboard that pulls indicators from
SCB, the ECB and the Riksbank, a Markdown/HTML blog, and Python tooling that
configures CrewAI writing teams and renders article previews. This project
models the logic at the centre of those pieces and proves what it promises:

- **Macro aggregation** (`MacroSources`, `DataFetcher`). This covers the
  Riksbank range checks and the 2.25 → 2.00 repo-rate correction, the
  SEK/USD inversion, fallback resolution with `??` and with `||`, and the
  provenance lists. The rate-limited call schedule is a trace on a logical
  clock.
- **The get-or-compute cache** (`Cache`). A class holds the Redis store as
  a key → (payload, expiry) map with a clock, the credentials, and the
  lazily created client.
- **Strings, paths and structures** (`ProductionPreview`, `CrewCtl`,
  `Content`, `BlogCard`, `Translations`):
  - slug and keyword extraction, and AI-reference stripping, with a small
    regular-expression matcher for the six cleaning patterns;
  - the recursive config merge and the Markdown → HTML rules;
  - binding team tasks to agents;
  - blog file-name parsing, front-matter defaults and newest-first order;
  - reading time;
  - the translation fallback chain.
- **Locale URLs and the update calendar** (`Middleware`,
  `LanguageSwitcher`, `HomePage`, `Header`, `Footer`, `UpdateCalendar`):
  - the middleware's missing-locale redirect;
  - the three `getLocalizedHref` helpers, and how their links fare under
    the middleware;
  - the language switcher;
  - the header menu state;
  - event generation, sorting and relative-day labels, with dates as day
    numbers since 1970-01-01.

Everything outside the program becomes a parameter of the operation that
uses it:

- upstream HTTP replies, each value given as present, missing,
  non-numeric or failed;
- the Redis store and its clock;
- the blog directory listing and parsed front matter;
- the current instant;
- the date parser used for sorting;
- the latencies of remote calls.

Module `Common` holds the shared vocabulary: `Option`, the two locales and
string helpers. It also holds a stable insertion sort (`SortBy`), which is
what JavaScript's stable `Array.prototype.sort` does with a key-difference
comparator.

Where the system's design notes and the code differ, the model follows the
code:

- The design example uses a repo-rate fallback of 2.25. `CURRENT_DATA` in
  `lib/macroSources.ts` has 2.00, and 2.25 appears only as the live value the
  code corrects to 2.00.
- The design describes each snapshot entry as a value with a "live" or
  "fallback" source. The code keeps plain values and builds two lists of
  provenance labels.

## Model

| member | source | states |
|---|---|---|
| MacroSources.FetchScb | lib/macroSources.ts:29-112 | An SCB fetch gives null exactly when the request fails or the first value is missing or the empty string (these are falsy); otherwise it gives `parseFloat` of that value |
| MacroSources.FetchEcbRate | lib/macroSources.ts:115-129 | The ECB rate is always the constant 2.0 |
| MacroSources.FetchRiksbankData | lib/macroSources.ts:132-203 | Never throws. The value is accepted exactly when status is 200, data is present, the parse is a number and the number is in its series' accepted range. An accepted value goes through the 2.25 → 2.00 correction and is otherwise unchanged |
| MacroSources.AcceptedValueInRange | lib/macroSources.ts:158-185 | Every value returned for a series lies in that series' range: repo [0,10], SEK/EUR [8,15], SEK/USD [8,12], EUR/USD [0.7,1.2] |
| MacroSources.AllIndicatorsListed | lib/macroSources.ts:260-285 | The provenance pass visits every one of the eight indicators |
| MacroSources.Invert | lib/macroSources.ts:239-245 | USD/SEK is present exactly when SEK/USD was accepted |
| MacroSources.Resolve | lib/macroSources.ts:247-257 | Each field is the live value when it is non-null, else its `CURRENT_DATA` constant |
| MacroSources.AllFallback | lib/macroSources.ts:301-316 | The catch path gives every field its fallback constant |
| MacroSources.SnapshotTotal | lib/macroSources.ts:17-26 | A resolved field is the live value when there is one, and otherwise the fallback number, so no field is null |
| MacroSources.UsdSekUnits | lib/macroSources.ts:239-255 | A live USD/SEK lies in [1/12, 1/8]. Without one, the field is the fallback 9.60, which is in different units |
| MacroSources.LabelsDistinct | lib/macroSources.ts:263-285 | The eight API labels and the eight fallback labels are pairwise distinct, and no API label is a fallback label |
| MacroSources.GroupEnd | lib/macroSources.ts:217-222 | The `Promise.all` group ends once all four SCB/ECB calls have ended |
| MacroSources.ChainShape | lib/macroSources.ts:227-236 | The sequential chain makes the given Riksbank calls in order, with one delay fewer than calls |
| MacroSources.ChainStartsLate | lib/macroSources.ts:227-236 | No step of the chain starts before the chain's start time |
| MacroSources.ChainGaps | lib/macroSources.ts:228-234 | Each Riksbank call except the last is followed by a 15 000 ms delay, and the next call starts exactly 15 000 ms after it ended |
| MacroSources.ScheduleOrder | lib/macroSources.ts:217-236 | The calls are SCB GDP, inflation, unemployment, then ECB, then Riksbank REPO, SEKEUR, SEKUSD, EURUSD, with exactly three delays |
| MacroSources.ScheduleScbFirst | lib/macroSources.ts:217-227 | Every SCB/ECB call ends before any Riksbank step starts |
| MacroSources.FetchRiksbankSeries | lib/macroSources.ts:227-236 | The four sequential fetches give the validated values, and their trace is the chain |
| MacroSources.GetMacro | lib/macroSources.ts:211-317 | The trace is the schedule. Without an exception, each field is live-or-fallback and the provenance lists are built from the live set. An exception gives the all-fallback record |
| MacroSources.ProvenancePartition | lib/macroSources.ts:260-285 | Each indicator appears in exactly one list: its API label iff it is live, its fallback label iff it is not. The two lengths sum to the number of indicators |
| MacroSources.SourcesOfPass | lib/macroSources.ts:260-285 | For `getMacro`'s own upstream results, an indicator is listed as API iff its live value is non-null, and as fallback otherwise |
| MacroSources.RecordSources | lib/macroSources.ts:260-285 | The push loop builds exactly the provenance lists |
| Cache.Live | lib/cache.ts:37-38 | Redis GET answers the stored payload iff the key exists and has not expired |
| Cache.SetexLifetime | lib/cache.ts:50-52 | A SETEX with positive ttl is readable for exactly ttl seconds |
| Cache.SetNeverExpires | lib/cache.ts:86-87 | A plain SET stays readable at every later instant |
| Cache.WriteIsolated | lib/cache.ts:48-55 | Writing one key does not change what another key reads |
| Cache.RedisCache.constructor | lib/cache.ts:3 | Starts with no client, no constructions and no fetches |
| Cache.RedisCache.GetRedis | lib/cache.ts:5-21 | Available iff both credentials are set. The client is built on first use only, at most once, and nothing else changes |
| Cache.RedisCache.WithCache | lib/cache.ts:23-58 | On a hit, returns the cached payload without calling fetchFn. Otherwise (no client, miss, empty string or read error) it calls fetchFn exactly once and returns its value or rethrows. It writes with expiry ttl only with a client, a resolved value, ttl > 0 and no write error |
| Cache.RedisCache.GetCached | lib/cache.ts:60-72 | Returns the live payload on a hit, and null with no client, an absent or empty key, or a read error. It changes no store |
| Cache.RedisCache.SetCached | lib/cache.ts:74-92 | With a client and no write error, stores the payload with expiry ttl when ttl > 0 and with no expiry otherwise. Write errors are swallowed |
| Cache.RepeatWithinTtl | lib/cache.ts:23-58 | A second `withCache` within ttl of a miss returns the first result, and fetchFn ran once in all |
| DataFetcher.OrNumber | lib/dataFetcher.ts:86 | `x \|\| d` is d when x is NaN or 0, and x itself otherwise (an infinity included). It is never NaN |
| DataFetcher.MapRows | lib/dataFetcher.ts:84-88 | One entry per row, built by the series' own row rule |
| DataFetcher.FetchSeries | lib/dataFetcher.ts:52-207 | A failed request, missing data or (for GDP) a non-ok response gives []. Otherwise the result is the last 8 (GDP, house prices) or 12 (inflation, unemployment) mapped rows |
| DataFetcher.SeriesIsSuffix | lib/dataFetcher.ts:88 | The kept entries are the final ones of the mapped series, in order |
| DataFetcher.FirstEntries | lib/dataFetcher.ts:84-88 | The first GDP entry has change 0, and the first house-price entry has value 0 |
| DataFetcher.ValuesAreNumbers | lib/dataFetcher.ts:123-126 | GDP, inflation and unemployment values are never NaN, because of the `\|\| 0` |
| DataFetcher.FetchEconomicData | lib/dataFetcher.ts:251-269 | Dispatches on the type name, and gives [] for an unknown type |
| DataFetcher.LiveFigure | lib/dataFetcher.ts:220-236 | A missing or falsy upstream value (including 0 and "") becomes the default; otherwise it is the parsed value |
| DataFetcher.FetchLiveEconomicData | lib/dataFetcher.ts:210-248 | The result is the live record, and the number of requests issued stops at the first one that throws |
| DataFetcher.LiveFallbacks | lib/dataFetcher.ts:238-247 | A live repo rate of 0 becomes 4.00. Any thrown error gives 4.00, 11.42 and 185 together |
| DataFetcher.GdpChange | lib/dataFetcher.ts:279-280 | `latestGdp?.change \|\| 0`: 0 for no data or a missing, NaN or zero last change, otherwise exactly that change (+Infinity kept). Never NaN |
| DataFetcher.MonthlyCard | lib/dataFetcher.ts:291-306 | The value is the latest entry to 1 decimal, or "0.0" with no entries. The change is the latest difference to 1 decimal, or "0.0" with fewer than two entries. The trend is 'positive' iff that difference is below zero (-Infinity included), and is never 'neutral' |
| DataFetcher.KeyMetrics | lib/dataFetcher.ts:282-315 | Four cards in the order BNP, Inflation, Arbetslöshet, Reporänta. The BNP card shows the GDP change to 1 decimal, is 'positive' iff that change is > 0 (+Infinity included) and then prefixes the change with '+'. The inflation and unemployment cards are the monthly card of their series. The repo card shows the rate to 2 decimals and is 'neutral' with change "0.00" |
| DataFetcher.GdpCardFollowsLastChange | lib/dataFetcher.ts:279-290 | For a GDP reply with two or more rows, the BNP card is 'positive' iff the last row's ratio change is positive, and then shows it with a '+' |
| DataFetcher.GdpZeroPreviousQuarter | lib/dataFetcher.ts:87 | A previous quarter of 0 gives a +Infinity change, which `\|\| 0` keeps: the card is 'positive' with change '+Infinity' |
| DataFetcher.ChangeTypeEdges | lib/dataFetcher.ts:287-288 | No GDP data and zero GDP growth both count as 'negative' |
| DataFetcher.FetchKeyMetrics | lib/dataFetcher.ts:272-320 | The four cards are built from the live record and the three fetched series |
| DataFetcher.PaymentSharesTotal | lib/dataFetcher.ts:364-370 | The four payment shares sum to 100 |
| ProductionPreview.Lower | create_production_preview.py:273 | ASCII and Latin-1 capitals (Å, Ä, Ö among them) become the letter 32 code points up; every other character is kept; no capital is left |
| ProductionPreview.LowerIdempotent | create_production_preview.py:273 | Lower-casing twice is lower-casing once |
| ProductionPreview.LowerAll | create_production_preview.py:273 | `title.lower()` lower-cases each character in place |
| ProductionPreview.ReplaceChar | create_production_preview.py:275 | Each replacement maps exactly the one character and keeps the length |
| ProductionPreview.Prepare | create_production_preview.py:273-275 | Lower-cases each character, then turns å and ä into a and ö into o; the length is kept |
| ProductionPreview.KeepSlugChars | create_production_preview.py:277 | Keeps exactly the word characters, whitespace and dashes: every one of them, as often as it occurs, in order, and nothing else |
| ProductionPreview.KeepSlugCharsIdentity | create_production_preview.py:277 | Text made only of word characters, spaces and dashes comes through unchanged |
| ProductionPreview.DropRun | create_production_preview.py:278 | Removes the leading run of dashes and whitespace: everything removed is a dash or whitespace, and what is left starts with neither |
| ProductionPreview.Collapse | create_production_preview.py:278 | Each run of dashes and whitespace becomes one dash. Text without such characters is unchanged, a text made only of them becomes "-", and empty stays empty |
| ProductionPreview.CollapseSplit | create_production_preview.py:278 | Collapsing works piece by piece: cut a text anywhere outside a run of dashes and whitespace, and the pieces collapse independently |
| ProductionPreview.CollapseNoDoubleDash | create_production_preview.py:278 | After collapsing there is no "--" |
| ProductionPreview.StripLeading | create_production_preview.py:279 | Removes leading dashes only: the result is a suffix, what is removed is all dashes, and the result does not start with a dash |
| ProductionPreview.StripTrailing | create_production_preview.py:279 | Removes trailing dashes only: the result is a prefix, what is removed is all dashes, and the result does not end with a dash |
| ProductionPreview.StripDashes | create_production_preview.py:279 | `strip('-')` leaves no dash at either end and is never longer than its input |
| ProductionPreview.StripDashesFramed | create_production_preview.py:279 | `strip('-')` removes only dashes, and only at the two ends: the result sits inside the input with nothing but '-' before and after it |
| ProductionPreview.CreateSlugIsSlug | create_production_preview.py:271-279 | A slug has only word characters and '-', no whitespace, no "--", and no leading or trailing '-' |
| ProductionPreview.CreateSlugIdempotent | create_production_preview.py:271-279 | Slugging a slug gives it back |
| ProductionPreview.SlugFixed | create_production_preview.py:271-279 | Every well-formed slug is a fixed point of `create_slug` |
| ProductionPreview.WordRun | create_production_preview.py:263 | The longest prefix of word characters |
| ProductionPreview.Words | create_production_preview.py:263 | `\b\w+\b` finds non-empty runs of word characters. A text with no word character gives none, and a text that is one run gives that run |
| ProductionPreview.WordsSplit | create_production_preview.py:263 | Cutting a text between a non-word character and anything gives the words of the pieces, concatenated |
| ProductionPreview.Qualifying | create_production_preview.py:264 | Keeps, in title order, exactly the words longer than 3 characters that are not stopwords, each as often as it occurs in the title |
| ProductionPreview.KeywordList | create_production_preview.py:263-269 | Between 1 and 8 items |
| ProductionPreview.KeywordCount | create_production_preview.py:269 | The joined text has exactly one comma fewer than it has items, and there are at most 8 items |
| ProductionPreview.KeywordsFromTitle | create_production_preview.py:261-264 | Each keyword is 'PayPro.se' or a qualifying lower-cased title word, and the title words appear in title order |
| ProductionPreview.SiteKeywordLast | create_production_preview.py:266-269 | 'PayPro.se' appears iff fewer than 8 words qualify, and then it is last |
| ProductionPreview.KeywordsComplete | create_production_preview.py:263-269 | The keywords start with the qualifying words in title order; with fewer than 8 of them, every qualifying title word is a keyword |
| ProductionPreview.MatchAt | create_production_preview.py:285-290 | A match of a cleaning pattern ends right before a newline, '.' or '<' and starts with the pattern's literal, case-insensitively |
| ProductionPreview.MatchShape | create_production_preview.py:285-290 | A lazy `.*?` match stops at the first terminator after the literal |
| ProductionPreview.ReSub | create_production_preview.py:295 | Substitution only deletes characters, so the output is a subsequence of the input |
| ProductionPreview.ReSubNoMatch | create_production_preview.py:295 | Where the pattern matches nowhere, the text is unchanged |
| ProductionPreview.CleanAll | create_production_preview.py:294-295 | Applying the patterns in turn only deletes characters, and applying no pattern changes nothing |
| ProductionPreview.CleanAiReferences | create_production_preview.py:281-297 | Applies the six patterns in order, and the output is a subsequence of the input |
| ProductionPreview.CleanExample | create_production_preview.py:285 | "crewai x." loses everything before the '.' |
| ProductionPreview.SlugFileShape | create_production_preview.py:248-249 | `os.path.join(output_dir, slug + "-preview.html")` under the directory |
| ProductionPreview.PreviewPathShape | create_production_preview.py:245-256 | The written and returned path is `output_dir/<slug>-preview.html` |
| ProductionPreview.CreateProductionPreview | create_production_preview.py:14-256 | Writes exactly one file, at that path, holding the title's keywords and the unchanged content, and returns the path |
| ProductionPreview.DefaultDirectory | create_production_preview.py:22 | With the default `output_dir` "previews", the preview path starts with "previews/" |
| CrewCtl.Merged | crewctl.py:471-476 | The merged keys are the union. Target-only keys keep their values, and non-object pairs take the source value. Object pairs merge recursively |
| CrewCtl.DeepMerge | crewctl.py:471-476 | The loop over source keys computes exactly the merge, whatever order the keys are visited in |
| CrewCtl.MergeSelf | crewctl.py:471-476 | Merging a config into itself changes nothing |
| CrewCtl.MergeIdempotent | crewctl.py:471-476 | Merging the same source twice equals merging once |
| CrewCtl.PromptUpdateOnly | crewctl.py:687-694 | The update-prompt merge changes only `agents[agent].prompt_instructions` |
| CrewCtl.CrewManager.constructor | crewctl.py:45-53 | Holds the given config |
| CrewCtl.CrewManager.UpdateConfig | crewctl.py:463-483 | The new config is the deep merge of the old one with the updates |
| CrewCtl.CrewManager.ListAvailableThemes | crewctl.py:459-461 | Exactly the keys of `topic_themes`, each once; absent when there is no such object |
| CrewCtl.CrewManager.UpdatePrompt | crewctl.py:670-694 | An unknown agent, or one without a current prompt, is reported and changes nothing. A preview changes nothing. Otherwise the config becomes the prompt merge |
| CrewCtl.GetTool | crewctl.py:78-84 | Only "search" and "DallETool" name a tool |
| CrewCtl.KnownToolsSound | crewctl.py:99-103 | Every kept tool comes from a known name. All known names keep them all, and no known name gives none |
| CrewCtl.AgentTools | crewctl.py:99-103 | The loop keeps exactly the known tools, in order |
| CrewCtl.MakeAgent | crewctl.py:86-116 | The agent's tools are the known ones. Verbose defaults to true and delegation to false. The backstory starts with the configured backstory and ends with the prompt instructions |
| CrewCtl.CreateAgents | crewctl.py:153-157 | Succeeds iff every team agent key is configured, giving one agent per key, in order |
| CrewCtl.CreateTasks | crewctl.py:160-176 | Succeeds iff every task's agent is on the team. Task i is bound to the first index of its agent key, and its description is themed |
| CrewCtl.CreateTeam | crewctl.py:135-182 | An unknown team or theme fails. There is one agent per configured key and one task per configured task, and each task's agent has that task's key |
| CrewCtl.Lines | crewctl.py:446-450 | `re.MULTILINE` lines contain no newline |
| CrewCtl.LinesOfJoin | crewctl.py:446-450 | Splitting newline-joined lines gives them back |
| CrewCtl.JoinOfLines | crewctl.py:446-450 | Rejoining the lines of a text gives the text |
| CrewCtl.MapHeading | crewctl.py:448-450 | A heading rule rewrites each line on its own |
| CrewCtl.H1Line | crewctl.py:448 | A line starting with "# " becomes `<h1>` wrapping the rest |
| CrewCtl.H2Line | crewctl.py:449 | A line starting with "## " becomes `<h2>` wrapping the rest |
| CrewCtl.H3Line | crewctl.py:450 | A line starting with "### " becomes `<h3>` wrapping the rest |
| CrewCtl.HeadingLinePasses | crewctl.py:448-450 | The three passes together act on a line exactly as its heading level says |
| CrewCtl.HeadingsByLine | crewctl.py:448-450 | The heading passes act line by line |
| CrewCtl.CloseAt | crewctl.py:451-452 | A lazy `(.*?)` closes at the first delimiter on the same line |
| CrewCtl.EmphasisNoStar | crewctl.py:451-452 | Text without '*' passes the emphasis rules unchanged |
| CrewCtl.EmphasisSpan | crewctl.py:451-452 | A star-free, single-line text between two delimiters becomes that text wrapped in the tag pair |
| CrewCtl.NoBlankLineLeft | crewctl.py:453 | After "\n\n" → "</p><p>" no blank line is left |
| CrewCtl.EmptyMarkdown | crewctl.py:454-455 | Empty Markdown gives "", because "<p></p>" is removed |
| CrewCtl.ReplaceAllNoMatch | crewctl.py:453-455 | Replacing a pattern that occurs nowhere changes nothing |
| CrewCtl.MarkdownPlainParagraph | crewctl.py:442-457 | A non-empty text without #, *, newline or < becomes exactly one paragraph `<p>text</p>` |
| CrewCtl.InlineExamples | crewctl.py:451-453 | "\*\*a\*\*" becomes `<strong>a</strong>`, and "a\n\nb" becomes "a</p><p>b" |
| UpdateCalendar.AddDaysNumber | components/dashboards/UpdateCalendar.tsx:114 | Adding n calendar days adds n to the day number |
| UpdateCalendar.DateTextInjective | components/dashboards/UpdateCalendar.tsx:118 | 'YYYY-MM-DD' text determines the date |
| UpdateCalendar.IsAfterDay | components/dashboards/UpdateCalendar.tsx:30 | `dayjs(date).isAfter(now)` for a midnight date holds iff its day is after today |
| UpdateCalendar.Upcoming | components/dashboards/UpdateCalendar.tsx:29-40 | Filtering a date list keeps at most its length |
| UpdateCalendar.UpcomingMembers | components/dashboards/UpdateCalendar.tsx:29-40 | An event is kept iff its date is in the list and after now |
| UpdateCalendar.UpcomingDistinct | components/dashboards/UpdateCalendar.tsx:29-40 | Distinct dates give distinct events |
| UpdateCalendar.FixedDatesDistinct | components/dashboards/UpdateCalendar.tsx:26-28 | Each fixed date list has no repeats |
| UpdateCalendar.NextWeekdays | components/dashboards/UpdateCalendar.tsx:113-119 | The loop collects the weekdays among the next seven days |
| UpdateCalendar.WeekdaysInShape | components/dashboards/UpdateCalendar.tsx:113-119 | Each lies 1..n days after now, on Monday to Friday, in increasing order |
| UpdateCalendar.FiveWeekdays | components/dashboards/UpdateCalendar.tsx:113-119 | Any seven consecutive days hold exactly five weekdays |
| UpdateCalendar.FxEvents | components/dashboards/UpdateCalendar.tsx:121-130 | One FX event per chosen date |
| UpdateCalendar.BlockMembers | components/dashboards/UpdateCalendar.tsx:24-164 | A series' block holds exactly its scheduled events |
| UpdateCalendar.BlockDistinct | components/dashboards/UpdateCalendar.tsx:24-164 | A block has no repeats |
| UpdateCalendar.BlocksMembers | components/dashboards/UpdateCalendar.tsx:24-164 | The concatenated blocks hold exactly the scheduled events of the listed series |
| UpdateCalendar.BlocksDistinct | components/dashboards/UpdateCalendar.tsx:24-164 | Distinct series give blocks without repeats |
| UpdateCalendar.PushDates | components/dashboards/UpdateCalendar.tsx:29-40 | The forEach loop appends, in order, one event for each listed date after now and nothing else |
| UpdateCalendar.PushFixed | components/dashboards/UpdateCalendar.tsx:29-40 | The forEach appends exactly the series' upcoming events |
| UpdateCalendar.PushFx | components/dashboards/UpdateCalendar.tsx:111-130 | The FX step appends exactly the FX block |
| UpdateCalendar.PushFamily | components/dashboards/UpdateCalendar.tsx:24-164 | Each step extends the event list by the next series' block |
| UpdateCalendar.GetUpcomingEvents | components/dashboards/UpdateCalendar.tsx:21-167 | Returns the sorted list of all scheduled events |
| UpdateCalendar.UpcomingEventsMembers | components/dashboards/UpdateCalendar.tsx:21-166 | An event is listed iff it is scheduled |
| UpdateCalendar.FixedEventsAfterNow | components/dashboards/UpdateCalendar.tsx:29-30 | Every event from a fixed list is on one of its dates and strictly after today |
| UpdateCalendar.FxEventsShape | components/dashboards/UpdateCalendar.tsx:111-130 | Three FX dates, on weekdays, 1..7 days after now, in chronological order |
| UpdateCalendar.UpcomingSorted | components/dashboards/UpdateCalendar.tsx:166 | Events are in ascending date order |
| UpdateCalendar.UpcomingDistinctEvents | components/dashboards/UpdateCalendar.tsx:21-166 | No event is listed twice |
| UpdateCalendar.IdInjective | components/dashboards/UpdateCalendar.tsx:32 | The id `<prefix>-<date>` determines the event |
| UpdateCalendar.UpcomingIdsDistinct | components/dashboards/UpdateCalendar.tsx:21-166 | Event ids are pairwise distinct |
| UpdateCalendar.TypeColor | components/dashboards/UpdateCalendar.tsx:169-177 | The gray class is used exactly for unknown types |
| UpdateCalendar.ImportanceIcon | components/dashboards/UpdateCalendar.tsx:179-186 | '⚪' is used exactly for unknown importance |
| UpdateCalendar.EventBadges | components/dashboards/UpdateCalendar.tsx:37 | High importance is exactly the rate decision and GDP, and low is exactly Eurostat. No event gets the gray class or '⚪' |
| UpdateCalendar.NextEvents | components/dashboards/UpdateCalendar.tsx:190 | The first min(8, n) events, in order |
| UpdateCalendar.ShownAreEarliest | components/dashboards/UpdateCalendar.tsx:166-190 | The shown events are no later than any hidden one |
| UpdateCalendar.Bucket | components/dashboards/UpdateCalendar.tsx:209-213 | 0 is today and 1 is tomorrow. Up to 7 is this week (negatives too) and up to 14 is next week. Beyond that it is "<n> days away" |
| UpdateCalendar.DiffDaysAsWrittenValue | components/dashboards/UpdateCalendar.tsx:207 | The as-written `diff(now, 'day')` is one less than the day difference when the event is later and now is past midnight |
| UpdateCalendar.TomorrowShownAsToday | components/dashboards/UpdateCalendar.tsx:204-214 | As written, an event tomorrow is labelled "today" whenever now is past midnight |
| UpdateCalendar.RelativeTimeOfEvents | components/dashboards/UpdateCalendar.tsx:204-214 | Counting calendar days, a listed event tomorrow is labelled "tomorrow", and no listed event is labelled "today" |
| UpdateCalendar.AsciiUpper | components/dashboards/UpdateCalendar.tsx:248 | `toUpperCase` on ASCII: each lower-case letter becomes its capital, other characters are kept, and no lower-case letter is left |
| UpdateCalendar.TypeBadges | components/dashboards/UpdateCalendar.tsx:248 | The badge is one of RIKSBANK, FED, EUROSTAT, SCB, and RIKSBANK exactly for the rate decision and the FX fixing |
| UpdateCalendar.Calendar | components/dashboards/UpdateCalendar.tsx:188-279 | One row for each of the first 8 events. The empty message is shown iff there are no events. Each row carries its event and the as-written `getRelativeTime` label |
| UpdateCalendar.CalendarTomorrowRow | components/dashboards/UpdateCalendar.tsx:204-214 | On the rendered calendar, a shown event dated tomorrow is labelled "today" whenever now is past midnight |
| Common.SortBy | lib/content.ts:75 | The sort is ordered by the key and is a permutation of its input |
| Common.SortByStable | lib/content.ts:75 | The sort is stable: the elements sharing any one key keep their input order |
| Common.InsertStable | lib/content.ts:75 | Inserting into a sorted list puts the new element after those with an equal key |
| Content.ParseName | lib/content.ts:36 | A matching name is exactly `<slug>.<sv\|en>.<md\|html>` with a non-empty slug and no line terminator |
| Content.ParseFileName | lib/content.ts:36-38 | Every such name parses back to its slug, locale and extension |
| Content.GreedySlug | lib/content.ts:36-38 | The slug group is greedy: "a.sv.en.md" is the English post "a.sv" |
| Content.TitleSound | lib/content.ts:47 | A found `<title>` text has no line terminator and sits between the open and close tags, matched case-insensitively |
| Content.TitleOfLeading | lib/content.ts:47-49 | A document opening with `<title>t</title>` has title t |
| Content.PostDefaults | lib/content.ts:45-71 | An HTML post's title is its `<title>` text or the slug. Missing fields default: excerpt '', author 'PayPro Team', tags [], date now |
| Content.Collected | lib/content.ts:34-73 | Never more posts than files |
| Content.CollectedMembers | lib/content.ts:34-73 | A post is collected iff some file yields it for the locale |
| Content.GetBlogPosts | lib/content.ts:26-76 | The loop collects the posts, and the result is them sorted newest first |
| Content.BlogPostsCount | lib/content.ts:27-29 | A missing directory gives [], and the count never exceeds the number of files |
| Content.BlogPostsMembers | lib/content.ts:36-71 | A post is listed iff a file yields it. It carries the requested locale, and its slug names a file of that locale |
| Content.BlogPostsNewestFirst | lib/content.ts:75 | Newest first, and a permutation of the collected posts |
| Content.Find | lib/content.ts:80 | The first post with the slug, or null iff there is none |
| Content.GetBlogPostFound | lib/content.ts:78-81 | A post is found iff some file of the locale has that slug; it has the slug and the locale |
| Content.GetPageContent | lib/content.ts:83-98 | Present iff `page.<locale>.md` exists. The title falls back to the page name, and the content is the body |
| Content.ContentExists | lib/content.ts:101-113 | True iff `<slug>.<locale>.md` or `<slug>.<locale>.html` is in the directory |
| Content.ContentExistsMatchesLoader | lib/content.ts:101-113 | For a valid slug, content exists iff some file name parses to that slug and locale |
| Middleware.Handle | middleware.ts:4-20 | Redirects exactly the paths missing a locale, to "/sv" + path; all others pass |
| Middleware.PassesExactly | middleware.ts:9-11 | A path passes iff it is "/sv" or "/en" or starts with "/sv/" or "/en/" |
| Middleware.RedirectOnce | middleware.ts:9-18 | For a path starting with '/', the redirect target starts with "/sv/" and is not redirected again |
| Middleware.WholeSegmentOnly | middleware.ts:10 | "/svenska" and "/english" are redirected |
| LanguageSwitcher.BasePath | components/layout/LanguageSwitcher.tsx:19-24 | One raw "/en" prefix is removed, giving "/" when nothing remains; other paths are unchanged |
| LanguageSwitcher.LocalizedPath | components/layout/LanguageSwitcher.tsx:15-34 | A null or empty path gives "/" or "/en". An English link always starts with "/en" |
| LanguageSwitcher.SwitchToSwedish | components/layout/LanguageSwitcher.tsx:22-29 | The Swedish link drops one leading "/en" ("/" if nothing remains) and leaves other paths unchanged |
| LanguageSwitcher.EnglishIdempotent | components/layout/LanguageSwitcher.tsx:22-32 | A path already starting with "/en" (other than "/en/") keeps its English link |
| LanguageSwitcher.RawPrefix | components/layout/LanguageSwitcher.tsx:22-24 | The test is a raw prefix: "/english" becomes "glish" in Swedish |
| LanguageSwitcher.RoundTrip | components/layout/LanguageSwitcher.tsx:15-34 | Swedish path → English link → Swedish link gives the path back |
| LanguageSwitcher.EnglishLinkPasses | components/layout/LanguageSwitcher.tsx:30-33 | From a Swedish page under '/', the English link is not redirected |
| HomePage.LocalizedHref | components/HomePage.tsx:30-36 | "/" gives "/<locale>", and any other path gives "/<locale>" + path |
| HomePage.Links | components/HomePage.tsx:54-172 | The page links: four fixed ones (the two hero buttons, all posts, the final call to action) plus one per shown post |
| HomePage.PostLinks | components/HomePage.tsx:134 | One link `/blog/<slug>` per shown post |
| HomePage.HrefPasses | components/HomePage.tsx:30-36 | Every HomePage link to a path starting with '/' passes the middleware |
| HomePage.HrefInjective | components/HomePage.tsx:30-36 | Different paths under '/' give different links |
| HomePage.LinksPass | components/HomePage.tsx:30-172 | No link on the home page is redirected |
| HomePage.LoadHome | components/HomePage.tsx:13-27 | At most 3 posts. A failed load sets the loading flag and leaves both lists empty |
| Header.LocalizedHref | components/layout/Header.tsx:20-25 | English: "/" gives "/en" and any other path "/en" + path. Swedish: the path unchanged |
| Header.HrefRouting | components/layout/Header.tsx:20-25 | English links to '/' paths pass. Swedish links missing a locale are redirected to "/sv" + path |
| Header.Navigation | components/layout/Header.tsx:27-31 | Home, blog and macro, in that order, each localized |
| Header.NavigationLinks | components/layout/Header.tsx:27-31 | The names are Hem/Blogg/Makroekonomi or Home/Blog/Macroeconomics. Every Swedish link is redirected and every English one passes |
| Header.Menu.constructor | components/layout/Header.tsx:15 | The menu starts closed |
| Header.Menu.Toggle | components/layout/Header.tsx:65 | The button flips the open flag |
| Header.Menu.FollowMobileLink | components/layout/Header.tsx:87 | Following a mobile link closes the menu |
| Header.Menu.MobileLinks | components/layout/Header.tsx:79-91 | The mobile list is the navigation when open, and empty when closed |
| Footer.QuickLinks | components/layout/Footer.tsx:55-74 | Home, blog, makro and swish, in that order, each localized |
| Footer.QuickLinksExtendNavigation | components/layout/Footer.tsx:52-74 | The first three quick links are the header navigation. The swish label depends on the locale |
| Footer.QuickLinkHrefs | components/layout/Footer.tsx:17-22 | English links are "/en" or "/en" + path. Swedish links are unprefixed and redirected |
| BlogCard.SplitLength | components/blog/BlogCard.tsx:13 | There is one more piece than there are spaces |
| BlogCard.SplitJoin | components/blog/BlogCard.tsx:13 | Joining the pieces with ' ' gives the content back |
| BlogCard.WordCount | components/blog/BlogCard.tsx:13 | 1 + the number of spaces |
| BlogCard.ReadingTime | components/blog/BlogCard.tsx:14 | ceil(words / 200): the least n with 200n ≥ words |
| BlogCard.ReadingTimeBounds | components/blog/BlogCard.tsx:14 | At least 1, exactly 1 up to 200 words, and non-decreasing |
| BlogCard.ReadingTimeText | components/blog/BlogCard.tsx:15-17 | The decimal minutes from the reading time, then " min läsning" in Swedish or " min read" in English |
| BlogCard.Href | components/blog/BlogCard.tsx:20-25 | "/en/blog/<slug>" for English and "/blog/<slug>" otherwise |
| BlogCard.HrefRouting | components/blog/BlogCard.tsx:20-25 | English card links pass. Swedish ones redirect to "/sv/blog/<slug>" |
| Translations.KeyName | lib/translations.ts:3-53 | Every key's name is non-empty |
| Translations.SvTable | lib/translations.ts:56-106 | Every key has a non-empty Swedish text |
| Translations.EnTable | lib/translations.ts:108-158 | Every key has a non-empty English text |
| Translations.FirstNonEmpty | lib/translations.ts:162 | `a \|\| b \|\| c` on strings: the first non-empty one, else c |
| Translations.TranslationFallback | lib/translations.ts:161-163 | The locale's entry if non-empty, else the Swedish one, else the key. Never empty |
| Translations.GetTranslations | lib/translations.ts:165-167 | The locale's whole table |
| Translations.TablesComplete | lib/translations.ts:55-159 | Both tables define every key, so a lookup answers from the requested table |

## Left out

- HTTP. The axios and fetch calls to SCB, the ECB and the Riksbank, and JSON decoding:
  - every reply is a parameter (failed, missing, a number or a string with its `parseFloat` result);
  - an exception anywhere in `getMacro` is a flag.
- Concurrency and waiting: `Promise.all` and `setTimeout`. These become a trace on a logical clock in milliseconds, with one latency per call as a parameter.
- The ioredis client and Redis's own expiry. The store is a map with an expiry instant per key, read against a clock field. `JSON.stringify`/`JSON.parse` are the identity on payload text.
- Floating point:
  - finite values are exact `real`s, with NaN and the two infinities as extra values: rounding, overflow to an infinity and negative zero (so `x / -0`) are not modelled;
  - `toFixed` is abstract: a card holds the number and its number of decimals (`Fixed`, `PlusFixed`).
- MacroSources.FetchRiksbankData: for a series id other than the four with an interval, an infinite parsed value is rejected, where the source returns it. `getMacro` requests only the four series with intervals.
- `fetchBlogPosts` in lib/dataFetcher.ts: a constant list of four post summaries with no logic.
- `new Date()`, `dayjs()` and clocks: the instant is a parameter.
  - In `getBlogPosts`, every default date in one call is the same `now` string.
  - Parsing those strings for the sort is a `timeOf` parameter. A NaN date therefore cannot disturb the comparator here.
- gray-matter parsing: the front matter of a Markdown file is given already parsed. `getPageContent` reads it from a map of page files.
- `fs` and `path.join`: directories are sets or sequences of file names, and `os.path.join` is modelled only for a plain directory string.
- The middleware's `config.matcher` (middleware.ts:22-27), which decides which requests reach the middleware at all.
- Rendering: JSX, CSS classes other than the type colours, date formatting ('D MMM YYYY', `toLocaleDateString`), the footer's copyright year, its "#" resource links and other static labels.
- UpdateCalendar:
  - dates are calendar dates of years 1970 and later, and `now` is a day plus seconds since midnight;
  - time zones and daylight-saving time are not modelled;
  - UpdateCalendar.UpcomingIdsDistinct assumes the current year is below 9993, so that every date prints with four digits.
- ProductionPreview:
  - Python's `\w`, `\s` and `lower()` are modelled on Latin-1 only;
  - `re.IGNORECASE` folds ASCII letters only (not the Kelvin sign, long s or dotless i);
  - the HTML template text is a record of its fields.
- CrewCtl.DeepMerge: returns the merged map instead of updating `target` in place. A nested dict shared between two places of the config would be updated at both in Python, and the model does not capture that.
- CrewCtl.CrewManager.UpdatePrompt: requires `agents` to be an object in the config. The source raises a `KeyError` there instead, which the model does not represent.
- crewctl.py beyond the named operations:
  - JSON load and save, the API client and `llm` lookup;
  - crewai `Agent`/`Task`/`Crew` construction and `kickoff`;
  - the other CLI commands and the config template.
- Everything else in the repository (the CrewAI scripts, the API routes, dashboards and the remote translation helper): these are I/O or rendering.

## Findings

| source | as written | input that shows it | evidently intended | confidence | as-written member | corrected member |
|---|---|---|---|---|---|---|
| components/dashboards/UpdateCalendar.tsx:204-214 | `dayjs(date).diff(dayjs(), 'day')` truncates the exact time difference, and the event date is at midnight | now = 2025-03-10 09:00, event on 2025-03-11: the difference is 15 h, so 0 days and "Today" | an event on the next calendar day is labelled "Tomorrow", and an upcoming event is never "Today" | not executed | UpdateCalendar.TomorrowShownAsToday | UpdateCalendar.RelativeTimeOfEvents |
