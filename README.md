# workspace, modelled in Dafny

This project models the `workspace` package of utility37, a command-line
TODO tracker written in Go. A *workspace* holds tasks, daily *entries*
listing the tasks carried from one day to the next, and an index from tags
to tasks. A small *query language* turns words such as `tag:home`,
`from:2024-01-01`, `to:2024-02-01`, `last:2w`, `pri:H` or a title pattern
into a *filter chain*. The chain selects tasks from a task set and
remembers the date range the query covered.

The model follows the package file by file:

| file | module | form |
|---|---|---|
| `wrappers.dfy` | `Wrappers` | `Option` and `Result` |
| `common.dfy` | `Common` | time and durations, `Day`, `before`/`after`, `contains`, `strings.TrimSpace`, `normalize`, `strings.Split`, `Tokenize` |
| `calendar.dfy` | `Calendar` | `time.Parse` and `Time.Format` for the layout `2006-01-02`, on the proleptic Gregorian calendar |
| `task.dfy` | `Tasks` | priorities, `Task`, and the `TaskSet` filters |
| `filter.dfy` | `Filters` | filters, the query language, and the class `FilterChain` |
| `workspace.dfy` | `Workspaces` | entries, tagging, and the class `Workspace` |

The model takes the following forms:

- **Time** is an integer count of nanoseconds since the Unix epoch, in a
  single time zone. `Day(t)` is the midnight starting t's day. The zero
  `time.Time` is `ZeroTime`, which is 0001-01-01.
- **Durations** are 64-bit. Multiplying a count by a period wraps around
  as Go's `int64` does (`WrapInt64`).
- **Filters.** A Go `Filter` is a closure. Every closure the package builds
  has one of eleven shapes, so `Filters.Filter` is a datatype of those
  shapes. `Apply` runs a filter. `Keeps` is the test each shape applies to
  one task, written in plain time arithmetic. `Apply` is proved to keep
  exactly the tasks that pass `Keeps`.
- **The query language.**
  - `ProcessWord`, `ProcessWords` and `RunQuery` specify
    `processQueryWord` and `ProcessQuery` as functions.
  - The class `FilterChain` has the source's four fields. Its methods are
    proved against those functions.
- **Workspaces.** `Workspace` is a class with the source's five fields.
  `Tag` is proved against the function `TagTask`. `NewEntry` states the
  new entry outright.
- **Inputs from outside the package** are parameters:
  - the clock is `now`;
  - the regular-expression engine is `re: Regex`, a pair of functions
    saying whether a pattern compiles and whether it matches a string.

## Model

| member | source | states |
|---|---|---|
| Common.WrapInt64 | workspace/filter.go:187-195 | the result is a 64-bit value congruent to x modulo 2^64, and x itself when x fits |
| Common.DurationConstants | workspace/common.go:15-24 | a day is 24 hours, a week 7 days, a month 4 weeks, all in nanoseconds |
| Common.Day | workspace/common.go:41-45 | Day(t) is a multiple of a day, at or before t and less than a day before it |
| Common.MidnightsOrdered | workspace/common.go:41-45 | two midnights less than a day apart in one direction are ordered: a < b + 24h implies a <= b |
| Common.DayUnique | workspace/common.go:41-45 | a midnight d with d <= t < d + 24h is Day(t): the day of a time is unique |
| Common.DayIdempotent | workspace/common.go:41-45 | truncating a midnight to its day gives it back |
| Common.BeforeMeansEarlierThanDayEnd | workspace/common.go:47-52 | before(t1, t2) holds exactly when t1 is earlier than the midnight ending t2's day |
| Common.AfterMeansFromDayStart | workspace/common.go:54-59 | after(t1, t2) holds exactly when t1 is at or after the midnight starting t2's day |
| Common.BeforeOrAfter | workspace/common.go:47-59 | any two times are ordered by before or by after, and by both only on the same day |
| Common.Contains | workspace/common.go:61-69 | the loop reports whether s is an element of ss |
| Common.LeadingSpaces | workspace/common.go:74 | the count of leading white space: all of it is white space, and the next character is not |
| Common.TrailingSpaces | workspace/common.go:74 | the count of trailing white space: all of it is white space, and the character before it is not |
| Common.TrimSpace | workspace/common.go:74 | the result is empty exactly when s is all white space; otherwise it neither starts nor ends with white space |
| Common.TrimSpaceIsInfix | workspace/common.go:74 | the trimmed string is a run of s with only white space around it |
| Common.TrimSpaceIdempotent | workspace/common.go:74 | trimming twice is trimming once |
| Common.Normalized | workspace/common.go:71-81 | the result is no longer than the input, and each element is non-empty and already trimmed |
| Common.Normalize | workspace/common.go:71-81 | the loop returns Normalized(ins) |
| Common.NormalizedMember | workspace/common.go:71-81 | x is in the result exactly when x is non-empty and is the trimming of some input element |
| Common.NormalizedMembers | workspace/common.go:71-81 | the same for every x at once |
| Common.NormalizedAppend | workspace/common.go:71-81 | normalize distributes over concatenation, so it keeps the input order |
| Common.NormalizedIdempotent | workspace/common.go:71-81 | normalizing twice is normalizing once |
| Common.IndexFrom | workspace/common.go:86 | the result is the first offset at or after k where sep occurs, or -1 when there is none |
| Common.Split | workspace/common.go:86 | with a non-empty separator there is at least one piece |
| Common.SplitJoin | workspace/common.go:86 | joining the pieces with the separator gives s back |
| Common.SplitPiecesFree | workspace/common.go:86 | with a non-empty separator, no piece contains the separator |
| Common.Tokenize | workspace/common.go:83-93 | the tokens are the non-empty trimmed pieces of the split, each trimmed and non-empty, and no more tokens than pieces |
| Calendar.PadDigitsValue | workspace/filter.go:297 | the zero-padded digits of n spell n |
| Calendar.DigitsValuePadded | workspace/filter.go:68 | padding a digit string's value to its own length gives the string back |
| Calendar.CivilRoundTrip | workspace/filter.go:68 | a valid date converted to a day number and back is the same date |
| Calendar.EraDaySplit | workspace/filter.go:297 | every day of a 400-year era is a day of one of its years, day 365 only closing a leap year |
| Calendar.DateOfShiftedDay | workspace/filter.go:297 | each day of a year starting on March 1 has a month 1-12 and a day within it, and counts back to the same day of the year |
| Calendar.EraDateValid | workspace/filter.go:297 | the date of any day of an era is a valid calendar date |
| Calendar.EraDateCount | workspace/filter.go:297 | the date of any day of an era counts back to that day's number |
| Calendar.LeapEraEnd | workspace/filter.go:297 | the year closing a 4-year cycle of an era, other than a century that does not end the era, is a leap year |
| Calendar.DaysRoundTrip | workspace/filter.go:297 | every day number converts to a valid date that counts back to the same day number |
| Calendar.DateOf | workspace/filter.go:297 | the date of the day t falls on is valid and its midnight is Day(t) |
| Calendar.PadDigitsLength | workspace/filter.go:297 | padding to width w writes exactly w digits for a number below 10^w and more for a larger one |
| Calendar.FormatDate | workspace/filter.go:297-301 | Time.Format(DateFormat) always ends in "-MM-DD" with two digits each for month and day |
| Calendar.FormatThenParse | workspace/filter.go:297-301 | a time in the years 0000 to 9999 is written as a date text that parses back to the midnight of its day |
| Calendar.FormatOutsideFourDigitYears | workspace/filter.go:297-301 | outside the years 0000 to 9999 the written date does not parse: a negative year starts with "-" and a later one takes more than four digits |
| Calendar.FebruaryThirtieth | workspace/filter.go:68 | "2023-02-30" has the shape of a date but does not parse |
| Calendar.MidnightIsDay | workspace/common.go:41-45 | every whole number of days from the epoch is a midnight |
| Calendar.ParseDate | workspace/filter.go:67-71 | a date that parses (YYYY-MM-DD, month 01-12, day within the month, February 29 only in leap years) is a midnight |
| Calendar.FormatParsedDate | workspace/common.go:13 | formatting a parsed date gives back the exact text that was parsed |
| Tasks.PriorityString | workspace/task.go:30-45 | the code is one character, and a priority outside the table prints as "?" |
| Tasks.PriorityFromString | workspace/task.go:47-59 | the result is a named priority, and any string that is not L, N, H or ! reads as Unknown |
| Tasks.PriorityRoundTrip | workspace/task.go:30-59 | every named priority is read back from its code |
| Tasks.PriorityCodeRoundTrip | workspace/task.go:30-59 | reading and printing gives a string back exactly when it is one of the five codes |
| Tasks.NewTask | workspace/task.go:99-107 | a new task is unfinished, of normal priority, created now, with no notes or tags |
| Tasks.MarkDone | workspace/task.go:110-114 | the task is done and finished now, and nothing else about it changes |
| Tasks.Dup | workspace/task.go:124-131 | the loop builds a copy equal to the input |
| Tasks.FilterPriority | workspace/task.go:133-144 | keeps exactly the tasks of at least the given priority, unchanged |
| Tasks.FilterPriorityMonotone | workspace/task.go:133-144 | raising the threshold only drops tasks |
| Tasks.FilterTag | workspace/task.go:146-157 | keeps exactly the tasks carrying the tag, unchanged |
| Tasks.FilterTags | workspace/task.go:159-167 | keeps exactly the tasks carrying every one of the tags |
| Tasks.FilterTagsOnlySetMatters | workspace/task.go:159-167 | the order and repetition of the tags make no difference |
| Tasks.Unfinished | workspace/task.go:169-180 | keeps exactly the tasks not done |
| Tasks.MarkDoneLeavesUnfinished | workspace/task.go:110-180 | marking one task done removes exactly that task from the unfinished ones |
| Tasks.WindowStart | workspace/task.go:187 | now.Add(-1 * dur) is now - dur for every duration except the most negative one, which wraps |
| Tasks.CompletedDuration | workspace/task.go:182-197 | keeps exactly the done tasks finished strictly after the start of the window |
| Tasks.CreatedDuration | workspace/task.go:199-214 | keeps exactly the done tasks created strictly after the start of the window |
| Tasks.CompletedRange | workspace/task.go:216-230 | keeps exactly the done tasks finished from the midnight starting start's day up to the midnight ending end's day |
| Tasks.CreatedRange | workspace/task.go:232-246 | keeps exactly the done tasks created strictly between start and end, to the nanosecond |
| Tasks.Sort | workspace/task.go:248-261 | the result has one task per key, the task stored under the key, each key once in the order visited; its tasks are exactly the set's tasks |
| Filters.CompletedFilter | workspace/filter.go:27-35 | keeps exactly the done tasks |
| Filters.UncompletedFilter | workspace/filter.go:37-45 | keeps exactly the tasks not done |
| Filters.StatusFiltersPartition | workspace/filter.go:27-45 | the two status filters split a task set into two disjoint halves |
| Filters.KeepsAsClosures | workspace/filter.go:73-132 | Keeps is the test of each closure: before()/after() of the finish time for CompletedBefore/CompletedAfter, Time.Before/Time.After of the creation time for StartedBefore/StartedAfter, and CompletedDuration's window for the look-back closure of lines 200-202 |
| Filters.Apply | workspace/filter.go:11 | running a filter keeps exactly the tasks its test accepts, unchanged |
| Filters.BeforeEndOfDay | workspace/filter.go:76 | the test of CompletedBefore is "finished before the end of the date's day" |
| Filters.AfterStartOfDay | workspace/filter.go:110 | the test of CompletedAfter is "finished at or after the start of the date's day" |
| Filters.TagFilter | workspace/filter.go:47-52 | keeps the tasks carrying the tag with its surrounding white space removed |
| Filters.TagsFilter | workspace/filter.go:54-59 | keeps the tasks carrying every non-blank tag of the list, each trimmed |
| Filters.PriorityFilter | workspace/filter.go:61-65 | keeps the tasks of at least the given priority |
| Filters.CompletedBefore | workspace/filter.go:67-82 | succeeds exactly when the date parses, reporting the parsed time; keeps the tasks finished before that day ends, done or not |
| Filters.StartedBefore | workspace/filter.go:84-99 | succeeds exactly when the date parses; keeps the tasks created strictly before its midnight |
| Filters.CompletedAfter | workspace/filter.go:101-116 | succeeds exactly when the date parses; keeps the tasks finished from its midnight on, done or not |
| Filters.StartedAfter | workspace/filter.go:118-133 | succeeds exactly when the date parses; keeps the tasks created strictly after its midnight |
| Filters.TitleFilter | workspace/filter.go:135-150 | succeeds exactly when the pattern compiles; keeps the tasks whose title it matches |
| Filters.UnitLength | workspace/filter.go:187-195 | each period letter stands for a positive duration |
| Filters.FirstUnit | workspace/filter.go:164 | the position of the first period letter of the text |
| Filters.DigitRunBefore | workspace/filter.go:164 | the start of the longest run of digits that ends at the given position |
| Filters.PeriodOf | workspace/filter.go:181-185 | the period letter of the first duration match |
| Filters.CountText | workspace/filter.go:170-171 | the digits of the first duration match |
| Filters.Atoi | workspace/filter.go:170-174 | strconv.Atoi fails exactly on an empty count or one beyond int64, with the count in the error; otherwise it is the value of the digits |
| Filters.AtoiPadded | workspace/filter.go:170-174 | every int64 count written in decimal, with or without leading zeros, is read back |
| Filters.DurationFilter | workspace/filter.go:163-207 | fails exactly when the count is empty or beyond int64; otherwise the window is the count times the period, in 64-bit arithmetic, and the reported time is now minus it |
| Filters.LastWordWindow | workspace/filter.go:163-207 | "last:<n><p>" whose span fits keeps the tasks completed within n periods of when the filter runs, and reports now minus n periods |
| Filters.CountedWindow | workspace/filter.go:176-204 | a count and period whose product fits give exactly that window, with no wrap-around |
| Filters.WrapProduct | workspace/filter.go:176-195 | a non-negative product that fits in int64 does not wrap |
| Filters.LastWordParts | workspace/filter.go:156-164 | in "last:<digits><p>" the first period letter is the last character, and the count is exactly <digits> |
| Filters.LastWordNeedsCount | workspace/filter.go:170-174 | a look-back without a count, such as "last:w", is rejected because Atoi("") fails |
| Filters.WordCharPrefix | workspace/filter.go:160 | the length of the leading run of \w characters |
| Filters.Classify | workspace/filter.go:152-161 | the first pattern a word matches, with its capture: the tag after "t:" or "tag:", the date after "from:" or "to:", a priority code |
| Filters.TagBeforePriority | workspace/filter.go:213-245 | "t:pri:H" is the tag "pri:H", because the tag pattern is tried first |
| Filters.PriorityUnanchored | workspace/filter.go:159 | "xpri:H" asks for high priority, because the priority pattern is anchored only at the end |
| Filters.UnknownTagIsUnmatched | workspace/filter.go:246-247 | "foo:bar" is an unmatched-tag error, not a title pattern |
| Filters.ProcessWord | workspace/filter.go:209-258 | a success appends exactly one filter, keeps the earlier ones and the status, and never moves a bound to an earlier day; an unmatched tag is an error |
| Filters.ProcessWords | workspace/filter.go:282-288 | a success appends one filter per word, keeps the earlier ones and the status, and never moves a bound to an earlier day |
| Filters.RunQuery | workspace/filter.go:268-280 | a status other than completed, uncompleted or any is an error |
| Filters.Seed | workspace/filter.go:269-280 | the chain ProcessQuery starts from has both bounds at the zero time, the given status, and one status filter unless the status is any |
| Filters.SeedSelectsStatus | workspace/filter.go:271-280 | the seed chain keeps the done tasks for completed, the tasks not done for uncompleted, and every task for any |
| Filters.ProcessWordsAppend | workspace/filter.go:282-288 | processing a + b is processing a, then b from where a left off |
| Filters.QueryErrorIsFinal | workspace/filter.go:284-287 | a failing query fails the same way whatever words follow |
| Filters.QueryChainShape | workspace/filter.go:268-291 | a successful query keeps its status, holds one filter per word after the status filter, and starts with the status filter |
| Filters.FromStep | workspace/filter.go:217-226 | a "from:" word with a date that parses appends CreatedAfter for an uncompleted-tasks query and FinishedFrom otherwise, and moves start to the date when it is not on an earlier day |
| Filters.ToStep | workspace/filter.go:227-236 | a "to:" word with a date that parses appends CreatedBefore for an uncompleted-tasks query and FinishedBy otherwise, and moves end to the date when it is not on an earlier day |
| Filters.LastStep | workspace/filter.go:237-241 | a "last:" word appends the filter DurationFilter builds and moves start to its time, or fails with its error |
| Filters.TagStep | workspace/filter.go:214-216 | a "tag:<tag>" or "t:<tag>" word appends TagFilter(tag) |
| Filters.PriorityStep | workspace/filter.go:242-245 | a word ending in "pri:<c>" that is not a tag word appends PriorityFilter(PriorityFromString(c)), whatever comes before "pri:" |
| Filters.ColonFreeIsTitle | workspace/filter.go:152-161 | a word without a colon matches none of the patterns, so it is a title |
| Filters.TitleStep | workspace/filter.go:248-249 | a title word appends TitleFilter(word) exactly when the pattern compiles, and otherwise fails with the pattern error |
| Filters.BadDateStep | workspace/filter.go:217-236 | a "from:" or "to:" word of the right shape whose date is not on the calendar fails with the parse error |
| Filters.BadDateQuery | workspace/filter.go:268-291 | a query made of such a "from:" word fails with the parse error, whatever the status |
| Filters.FebruaryThirtiethQuery | workspace/filter.go:268-291 | the query "from:2023-02-30" fails with the parse error |
| Filters.PriorityWordAlone | workspace/filter.go:242-245 | the word "pri:<c>" needs no trimming and appends the priority filter |
| Filters.TagAndPriorityQuery | workspace/filter.go:268-291 | "tag:<tag> pri:<c>" gives the chain [tag filter, priority filter] with no time bounds |
| Filters.WorkAtHighPriority | workspace/filter.go:268-291 | "tag:work pri:H" gives the chain [WithTag("work"), AtLeastPriority(High)] with no time bounds |
| Filters.FromDependsOnStatus | workspace/filter.go:217-223 | the chain built by a one-word "from:" query, for each status |
| Filters.ToKeepsLaterDate | workspace/filter.go:234-236 | of two "to:" dates the later one becomes the end, whichever comes first |
| Filters.QueryBetween | workspace/filter.go:268-291 | "from:a to:b" gives the chain [FinishedFrom(a), FinishedBy(b)] with start a and end b |
| Filters.CompletedBeforeKeepsUnfinished | workspace/filter.go:73-81 | "to:" keeps tasks that were never finished, since their finish time is the zero time |
| Filters.ApplyChain | workspace/filter.go:19-25 | the chain keeps exactly the tasks every one of its filters keeps |
| Filters.ChainOrderIrrelevant | workspace/filter.go:19-25 | two chains holding the same filters select the same tasks, whatever the order or repeats |
| Filters.ChainIdempotent | workspace/filter.go:19-25 | filtering a second time with the same chain changes nothing |
| Filters.QueryStatusRespected | workspace/filter.go:268-291 | a completed-tasks query yields only done tasks, and an uncompleted-tasks query only tasks not done |
| Filters.FilterChain.constructor | workspace/filter.go:269 | a new chain has no filters, both bounds at the zero time, and the given status |
| Filters.FilterChain.Filter | workspace/filter.go:19-25 | the loop over a copy of ts keeps exactly the tasks every filter of the chain keeps |
| Filters.FilterChain.ProcessQueryWord | workspace/filter.go:209-258 | the new state is ProcessWord of the old one, and an error changes nothing |
| Filters.FilterChain.TimeRange | workspace/filter.go:293-303 | empty exactly when both bounds are the zero time; otherwise "starting " + FormatDate(start), "up to " + FormatDate(end) or "between " + FormatDate(start) + " and " + FormatDate(end), and each bound parsed from a date is written back as the text it was parsed from |
| Filters.TimeRangeReadsBack | workspace/filter.go:293-303 | each date TimeRange writes for a bound in the years 0000 to 9999 parses back to the midnight of the bound's day |
| Filters.ParsedDatesFormatBack | workspace/filter.go:297-301 | every date that parses is formatted back to its own text |
| Filters.ProcessQuery | workspace/filter.go:268-291 | a fresh chain whose state is RunQuery's on success; no chain and RunQuery's error on failure |
| Workspaces.EntryId | workspace/workspace.go:64 | the identifier is the seconds from the epoch to today's midnight, modulo 2^64 |
| Workspaces.EntryIdPerDay | workspace/workspace.go:64 | between 1970 and 2554, two times share an entry identifier exactly when they fall on the same day |
| Workspaces.StrLeq | workspace/workspace.go:117 | Go's string comparison puts a prefix no later than the longer string |
| Workspaces.StrLeqTotal | workspace/workspace.go:117 | the string order of sort.Strings is total |
| Workspaces.StrLeqAntisymmetric | workspace/workspace.go:117 | two strings each no greater than the other are equal |
| Workspaces.StrLeqTransitive | workspace/workspace.go:117 | the string order is transitive |
| Workspaces.Insert | workspace/workspace.go:117 | inserting into a sorted list gives a sorted list with one more occurrence of x |
| Workspaces.SortStrings | workspace/workspace.go:117 | the result is sorted and a permutation of the input |
| Workspaces.TagTask | workspace/workspace.go:88-120 | false exactly for an unknown task; nothing changes when the task already carries the tag or is already listed under it; otherwise the task is appended to the tag's list and its tags become the old ones plus the tag, sorted, and nothing else changes |
| Workspaces.TagKeepsIndexConsistent | workspace/workspace.go:88-120 | tagging keeps the index listing exactly the tasks that carry each tag, and afterwards the task carries the tag and is listed under it |
| Workspaces.SortedTagsMembers | workspace/workspace.go:116-117 | the sorted tags are the old tags and the new one |
| Workspaces.TagIdempotent | workspace/workspace.go:88-120 | tagging twice with the same tag changes nothing more |
| Workspaces.Workspace.constructor | workspace/workspace.go:36-43 | a new workspace has its name, no entries, no tasks and no tags |
| Workspaces.Workspace.EntryTasks | workspace/workspace.go:45-58 | nothing for an unknown entry; otherwise exactly the workspace tasks the entry lists |
| Workspaces.Workspace.CarriedOver | workspace/workspace.go:72-79 | the tasks a new entry takes over are unfinished tasks listed in the most recent entry |
| Workspaces.Workspace.NewEntry | workspace/workspace.go:60-86 | returns today's identifier; an existing entry leaves the workspace unchanged; otherwise a new entry dated now lists each carried-over task exactly once and becomes the most recent, and nothing else changes |
| Workspaces.Workspace.Tag | workspace/workspace.go:88-120 | the result and the new tasks and index are those TagTask gives, the name, last entry and entries do not change, and the workspace invariant (every task an entry lists exists) is kept |

## Left out

- The commands under `cmd/` are not part of this model.
- Persistence is not modelled: `Marshal`, `Unmarshal`, `ReadFile`, `WriteFile` and `FileName` (gob encoding and file I/O).
- `Wrap` (text layout by `go/doc`) and `Task.String`/`TagString` (display only) are not modelled.
- `NewTaskID` is not modelled: it reads the clock (`uint64(time.Now().UnixNano())`), and nothing in the core calls it.
- `Today` and `time.Now` are the parameter `now`. NewEntry reads the clock twice in the source; the model uses one reading for both.
- Time zones are not modelled: every time is in one zone, so `Day` is truncation to a multiple of 24 hours. `Time.Add` cannot overflow in the model, since times are unbounded integers.
- The regular-expression engine is not modelled. It is a parameter, and the model decides only which pattern of processQueryWord a word matches (`Classify`), by hand.
- Tasks are values, not shared pointers. `MarkDone` returns the changed task, and the aliasing between the `*Task` values held in several task sets is not modelled.
- Go map iteration order is left open: `Sort` and `NewEntry` state the order they use only as "every key once".
- Error texts are not modelled: errors are the datatype `Filters.Error`.
- Filters.DurationFilter: requires a period letter in its text; the source would index an empty match list and panic without one. processQueryWord only calls it on words that have one.
- Filters.DurationFilter: the source's "unable to parse duration" branch cannot be reached, since the second group always captures a letter, so it has no counterpart.
- Workspaces.Workspace.CarriedOver: requires every task of the most recent entry to be a workspace task. The source stores a nil task otherwise and Unfinished dereferences it.
- Workspaces.Workspace.NewEntry: requires the same as CarriedOver, for the same reason.
- Workspaces.Workspace.EntryTasks: requires every task of the entry to be a workspace task. Without that, the source would hand out nil tasks.
- Filters.FilterChain.Len: returns the chain length and has no contract of its own.
- A nil `Tags` map is modelled as the empty map.
- Invalid UTF-8 is not modelled: strings are sequences of code points, and sort.Strings's byte order is their code-point order.

## Behaviour of the source that the model keeps

- `TaskSet.Sort` does not sort: it lists the tasks in map order.
- Of several `to:` words the latest date is kept as the end, whatever the order (`ToKeepsLaterDate`).
- `last:w` without a count is rejected, because `strconv.Atoi("")` fails (`LastWordNeedsCount`).
- `CreatedRange` compares to the nanosecond, while `CompletedRange` compares by day.
- `CompletedBefore` and `CompletedAfter` do not check that a task is done, so `to:` keeps unfinished tasks (`CompletedBeforeKeepsUnfinished`).
- A bound of `from:0001-01-01` equals the zero time, so `TimeRange` shows it as unset.
