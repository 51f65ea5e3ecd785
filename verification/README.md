# gitcontrib core, modelled in Dafny

`gitcontrib` reads the history of one or more git repositories and draws a
contribution calendar: per-day commit counts over a window of weeks, an hour
histogram, a weekday histogram and per-author added/deleted line totals. This
project models the core of that computation as pure Dafny functions and
proves properties of it:

- `Window` — the scan window of `populateDurationInDays`:
  - the delta string (`3y`, `2m`, `1w`, `10d`, or empty);
  - the window length (365 days, or a number of weeks);
  - the snap of the window to whole weeks;
  - the trailing grid offset of `calcOffset`.
- `Date` — the day arithmetic of `internal/date`: beginning and end of day,
  `CountDaysSinceDate` (both as its loop and in closed form), and `DaysBetween`.
- `Filters` — the two filters of the commit callback. The author filter is a
  comma-separated list of names or e-mails. The path filter uses exclude and
  include regular expressions.
- `Interfaces` — the records of `internal/interfaces`, and the contribution
  ledger `AuthorsStats` with `AddContributions`.
- `Tally` — the `ForEach` callback of `fillCommits`. It works out the day key,
  applies the `OutOfRange` sentinel, passes the ledger updates through the
  filters and fills the three histograms. It also folds the callback over a
  whole history.
- `Engine` — `fillCommits` per folder, `processRepositories`, `Stats` and the
  shape of `Launch`.
- `Config` — the watch list in the dotfile: `sliceContains` and `joinSlices`,
  line reading as `bufio.ScanLines` does it, writing with `strings.Join`,
  `GetFolders` and `addNewSliceElementsToFile`.
- `Discovery` — `ShouldBeIgnored` and the recursive `ScanGitFolders` over an
  abstract directory tree.
- `Text`, `Folds`, `Wrappers` — support code:
  - `Text`: `strings.Split`, `strings.Join`, `TrimSuffix` and `strconv.Atoi`;
  - `Folds`: left folds, and why commuting steps make the order of a fold
    irrelevant;
  - `Wrappers`: `Option` and `Result`.

## How things are represented

- **Time.** An instant is an integer number of seconds on one local-time
  axis.
  - A day is `t / 86400`; 1970-01-01 was a Thursday, so the weekday is
    `(day + 4) % 7`, with 0 meaning Sunday as in Go.
  - Go's zero `time.Time` is `ZeroTime`.
  - `AddDate` by whole days is exact.
  - `AddDate` by years or months is left abstract, as the two function
    fields of `Calendar`.
  - The clock is read once: `now` is a parameter.
- **Repositories.** go-git is the parameter `LogSource`. It maps a path and
  the window to either `Unopenable` or the commits of the log.
- **Regular expressions.** `regexp.Compile(p).MatchString(s)` is the
  parameter `Matcher`.
- **Working directory.** Making a path absolute (`filepath.Join(os.Getwd(),
  path)`) is the parameter `Absolute`.
- **The dotfile.** It is the string it contains. Whether the current
  directory is a repository is a boolean input.

## Where the code and its description differ (the model follows the code)

- **Snap to Monday.** When the window does not begin on a Monday, both ends
  move by `1 - weekday(begin)` days, so a window that begins on a Sunday
  moves forward by one day. The end then moves `offset + 6` days, to 23:59:59.
  The recorded length is therefore `days + 6`, and the end falls on weekday
  `days % 7`.
- **Default window.** When the default window of 365 days does not begin on
  a Monday, it is snapped: it ends on a Monday and is 371 days long, so
  `calcOffset` gives 6. A window of `w` weeks that does not begin on a Monday
  ends on a Sunday after the snap, so `calcOffset` gives 7. A window that
  already begins on a Monday is neither snapped nor re-measured: the default
  window then ends at `now` itself, 365 days long (`Window.DefaultWindow`,
  `Window.WeeksWindow`, `Window.AlignMondayUnchanged`).
- **The `OutOfRange` sentinel.** The test at stats.go:189 compares the
  offset-shifted key, not the value `CountDaysSinceDate` returned. With an
  offset of 1 to 7 and a window shorter than `OutOfRange - 7` days it never
  fires, so commits after the end of the scan, or before its beginning, still
  add to the author ledger. They are not counted in the histograms
  (`Tally.SentinelNeverFires`, `Tally.LateCommitReachesLedger`). For windows
  of about 99992 days or more, a commit whose bucket plus the offset is
  exactly 99999 is dropped from the ledger as well; that case is not stated.
- **Include patterns.** Only the first include pattern is ever consulted
  (`Filters.OnlyFirstInclude`).
- **Author entries.** Entries of the author list are not trimmed (`Filters.EntriesNotTrimmed`).

## Model

| member | source | states |
|---|---|---|
| `Text.Split` | internal/scanner/stats.go:194 | no piece contains the separator, and the first piece is everything before the first separator |
| `Text.SplitJoin` | internal/scanner/stats.go:194 | splitting a comma-joined list of comma-free entries gives back exactly those entries |
| `Text.JoinSplit` | internal/config/configuration.go:137 | joining the pieces of a split with the separator rebuilds the string |
| `Text.TrimSuffix` | internal/scanner/scan.go:55 | removes the suffix when the string ends with it, and otherwise changes nothing |
| `Text.Join` | internal/config/configuration.go:137 | `strings.Join`; its meaning is given by `Text.SplitJoin` and `Text.JoinSplit`, which make it the inverse of `Text.Split` |
| `Text.Atoi` | internal/scanner/stats.go:89 | a parsed value is a 64-bit integer; the string is non-empty, every character is a digit except an optional leading sign, and the last is a digit, so at least one digit follows the sign; the value is negative only after a `-` |
| `Text.AtoiSigned` | internal/scanner/stats.go:89 | an optional `+` or `-` followed by digits is accepted exactly when its value fits in 64 bits, and then gives that signed value; with `Text.Atoi`'s contract this decides every string |
| `Text.LeadingZero` | internal/scanner/stats.go:89 | a leading zero does not change the value of a digit string |
| `Text.AtoiForms` | internal/scanner/stats.go:89 | `+3` and `03` read as 3, `-0` as 0; the empty string, a lone `-` and `3 ` are refused |
| `Text.AtoiItoa` | internal/scanner/stats.go:89 | every 64-bit integer written in decimal parses back to itself |
| `Text.SplitTrailingSeparator` | internal/config/configuration.go:101-104 | a separator at the end adds one empty last piece and leaves the others as they were |
| `Date.BeginningOfDay` | internal/date/date.go:13-17 | 00:00:00 of the same day, not after the instant and less than a day before it |
| `Date.EndOfDay` | internal/date/date.go:20-24 | 23:59:59 of the same day, not before the instant and less than a day after it |
| `Date.DayBoundsIdempotent` | internal/date/date.go:13-24 | both day bounds are idempotent, each gives the same day when applied to the other, and they bracket the instant |
| `Date.ShiftDays` | internal/scanner/stats.go:140 | moving by whole days keeps the time of day and shifts the day number and the weekday by that many days |
| `Date.DayBucket` | internal/date/date.go:27-43 | `OutOfRange` after end of day; 0 exactly at end of day; a date before it and within `durationInDays` days of it gets the number of day-steps needed to reach end of day, in 1..durationInDays; a date further back gets `OutOfRange` |
| `Date.CountDaysSinceDate` | internal/date/date.go:27-43 | the day-stepping loop returns exactly the closed-form day bucket |
| `Date.DaysBetween` | internal/date/date.go:45-47 | the whole number of days between the instants, truncated toward zero in both directions |
| `Date.DaysBetweenWholeDays` | internal/date/date.go:45-47 | k whole days apart gives k |
| `Date.DaysBetweenDayBounds` | internal/scanner/stats.go:145-149 | from the beginning of one day to the end of a later day is the difference of the day numbers |
| `Window.UnitOf` | internal/scanner/stats.go:87-128 | the unit whose letter the switch finds first (y, then m, then w, then d); none exactly when no unit letter occurs |
| `Window.UnitOfFirst` | internal/scanner/stats.go:87-128 | a letter that occurs, with no earlier-tested letter occurring, is the one chosen |
| `Window.ParseDelta` | internal/scanner/stats.go:86-133 | empty delta means no shift; no unit letter in a non-empty delta is the format error; otherwise the count is `Atoi` of the text before the first occurrence of the chosen letter, and a failing `Atoi` is the not-a-number error |
| `Window.ParseDeltaFormatted` | internal/scanner/stats.go:88-127 | a decimal number followed by a unit letter parses to that count of that unit, whatever follows it, provided no earlier-tested letter follows |
| `Window.ParseDeltaText` | internal/scanner/stats.go:88-127 | a delta `<text><letter><rest>` whose text and rest hold no earlier-tested letter is read as `Atoi` of the text: its value when it parses, the not-a-number error otherwise |
| `Window.DaysDelta` | internal/scanner/stats.go:118-127 | any text `Atoi` accepts, followed by `d`, is that many days |
| `Window.SignedAndPaddedDeltas` | internal/scanner/stats.go:118-127 | `+3d` and `03d` are both three days |
| `Window.TrailingTextIgnored` | internal/scanner/stats.go:118-119 | text after the unit letter is ignored: `3d5` is three days |
| `Window.Backwards` | internal/scanner/stats.go:94-96 | the count made non-positive: a positive count is negated, any other is kept |
| `Window.EndOf` | internal/scanner/stats.go:94-127 | the end of the scan moves back from now by the absolute count of years, months, weeks (times 7 days) or days |
| `Window.ShiftNeverForward` | internal/scanner/stats.go:114-127 | a week or day delta never moves the end forward, keeps the time of day and moves back exactly `|n|` weeks or days |
| `Window.NominalDays` | internal/scanner/stats.go:134-137 | weeks times 7 when the week count is positive, and 365 otherwise |
| `Window.AlignToWeeks` | internal/scanner/stats.go:140-150 | the snap to whole weeks; stated by `Window.AlignMondayUnchanged`, `Window.AlignSnapsToMonday` and `Window.AlignNeverShrinks` |
| `Window.AlignMondayUnchanged` | internal/scanner/stats.go:141 | a window that begins on a Monday is kept exactly as it is |
| `Window.AlignSnapsToMonday` | internal/scanner/stats.go:141-150 | otherwise the window begins at 00:00 on a Monday, `1 - weekday` days from the old beginning, and ends at 23:59:59 of day `days + 6` after that; its length is `days + 6`, and it ends on weekday `days % 7` |
| `Window.AlignNeverShrinks` | internal/scanner/stats.go:141-150 | the aligned window is at least as long as the nominal one, and it does not end before it begins |
| `Window.CalcOffset` | internal/scanner/stats.go:287-309 | `7 - weekday`, always in 1..7, and it completes the end's week up to the next Sunday |
| `Window.WindowFor` | internal/scanner/stats.go:134-150 | the window is at least as long as the nominal length, and it does not end before it begins |
| `Window.Populate` | internal/scanner/stats.go:82-151 | a delta error sets only the error and leaves every window field as it was; otherwise the window is set and is at least as long as asked (where it lies is `Window.PopulateWindow`); no other field changes |
| `Window.PopulateWindow` | internal/scanner/stats.go:82-151 | on a valid delta, with `end` the instant the delta gives and `begin` the nominal length before it: a window beginning on a Monday is `begin`..`end`; otherwise it ends at 23:59:59 on the day `7 - weekday(begin)` days after `end`, begins at 00:00:00 on the Monday of `begin`'s week, and is six days longer |
| `Window.TwoWeeksBack` | internal/scanner/stats.go:108-117 | `2w` is two weeks back, so the window ends 7 to 14 days before now; `2x` is the format error |
| `Window.DefaultWindow` | internal/scanner/stats.go:134-150 | with no delta and no week count, when the 365-day window does not begin on a Monday, the window is 371 days long and ends on a Monday, in the week after now, and the offset is 6 |
| `Window.WeeksWindow` | internal/scanner/stats.go:134-150 | with w weeks and a window that does not begin on a Monday, the window is 7w+6 days long and ends on a Sunday, and the offset is 7 |
| `Interfaces.AddContributions` | internal/interfaces/launch.go:44-50 | the author's totals become the old totals, or zero, plus the deltas; the author becomes a key; the stored value is returned |
| `Interfaces.AddContributionsFrame` | internal/interfaces/launch.go:44-50 | every other author is untouched |
| `Interfaces.LookupAfterEdit` | internal/interfaces/launch.go:44-50 | one call adds the deltas to that author's totals and nothing to anyone else's |
| `Interfaces.ReplayTotals` | internal/scanner/stats.go:239 | after a sequence of calls, each author's totals are the old totals plus the sum of that author's deltas |
| `Interfaces.ReplayKeys` | internal/scanner/stats.go:239 | after a sequence of calls, the authors are the old ones plus the callers |
| `Interfaces.AddContributionsCommute` | internal/interfaces/launch.go:44-50 | two calls give the same ledger in either order |
| `Interfaces.ReplayPermutation` | internal/scanner/stats.go:213-243 | any reordering of the calls gives the same ledger, so the order in which the per-stat goroutines run does not matter |
| `Interfaces.NewResult` | internal/scanner/stats.go:42-44 | a fresh result: the options, zero times and length, empty maps, zero histograms, no error |
| `Filters.FindUser` | internal/scanner/stats.go:196-204 | true exactly when some entry matches: by e-mail for an entry containing `@`, and by name for any entry |
| `Filters.AcceptsAuthor` | internal/scanner/stats.go:193-208 | no filter accepts every commit; otherwise some comma-separated entry must match |
| `Filters.AcceptsJoinedList` | internal/scanner/stats.go:194-207 | a filter written as a comma-joined list accepts exactly the commits one of the listed entries matches |
| `Filters.AtEntryMatchesName` | internal/scanner/stats.go:197-201 | an entry containing `@` still matches an author of that name |
| `Filters.EntriesNotTrimmed` | internal/scanner/stats.go:194 | an entry written after `", "` keeps its leading blank, so a list `first, name` does not accept an author whose name is `name` (and whose e-mail is not `" " + name`) unless `first` matches it |
| `Filters.ExcludeHit` | internal/scanner/stats.go:216-225 | true exactly when some exclude pattern matches the path |
| `Filters.KeepStat` | internal/scanner/stats.go:216-239 | a stat is kept exactly when no exclude pattern matches it and either there is no include pattern or the first one matches |
| `Filters.OnlyFirstInclude` | internal/scanner/stats.go:226-237 | include patterns after the first never change the outcome |
| `Filters.ExcludeWins` | internal/scanner/stats.go:216-237 | a matching exclude pattern drops the stat whatever the include patterns are |
| `Filters.KeptEdits` | internal/scanner/stats.go:213-239 | at most one ledger call per stat, all under the commit author's name |
| `Filters.KeptEditsTotal` | internal/scanner/stats.go:213-239 | a commit's calls add the line counts of its kept stats to its author, and nothing to anyone else |
| `Tally.DaysAgo` | internal/scanner/stats.go:186-189 | the day bucket plus the grid offset; `Tally.SentinelNeverFires` states when it can equal `OutOfRange` |
| `Tally.ProcessCommit` | internal/scanner/stats.go:185-251 | a sentinel key or a rejected author changes nothing; otherwise the kept stats reach the ledger, and the day, hour and weekday cells each grow by one exactly when the key is at most the window length; the window fields never change |
| `Tally.SentinelNeverFires` | internal/scanner/stats.go:186-191 | with an offset of 1..7 and a window shorter than `OutOfRange - 7` days, the key is never `OutOfRange`, so the author filter alone decides whether a commit reaches the ledger |
| `Tally.LateCommitReachesLedger` | internal/scanner/stats.go:186-249 | a commit after the end of the scan by an accepted author changes the ledger but no histogram |
| `Tally.ProcessCommitLedger` | internal/scanner/stats.go:193-239 | after one commit, its author gains the kept line counts when the commit reaches the ledger; every other author is unchanged |
| `Tally.FillCommits` | internal/scanner/stats.go:185-252 | the `ForEach` callback folded over a history; its meaning is given by `Tally.FillLedger`, `Tally.FillHistograms`, `Tally.FillCommitsCount`, `Tally.FillCommitsTallied` and `Tally.FillCommitsPermutation` |
| `Tally.FillHistograms` | internal/scanner/stats.go:245-249 | after a history, each day, hour and weekday cell has grown by the number of counted commits that fall into it |
| `Tally.FillLedger` | internal/scanner/stats.go:185-252 | after a history, the ledger is the old ledger with the calls of every commit that reached it, in log order |
| `Tally.FillCommitsCount` | internal/scanner/stats.go:245-249 | each histogram's total grows by the number of counted commits |
| `Tally.SeedCommits` | internal/scanner/stats.go:264-270 | the day map holds exactly the keys 1..DurationInDays, each with 0 |
| `Tally.SeededTallied` | internal/scanner/stats.go:264-270 | a seeded result with empty histograms satisfies the invariant: the day keys are exactly the grid, and the three totals are equal |
| `Tally.ProcessCommitTallied` | internal/scanner/stats.go:245-249 | one commit keeps that invariant, because a counted key lies in 1..DurationInDays |
| `Tally.FillCommitsTallied` | internal/scanner/stats.go:185-252 | a whole history keeps that invariant |
| `Tally.ProcessCommitCommute` | internal/scanner/stats.go:185-251 | two commits give the same result in either order |
| `Tally.FillCommitsPermutation` | internal/scanner/stats.go:185-252 | any reordering of a history gives the same result |
| `Engine.FillFolders` | internal/scanner/stats.go:272-282 | the folder loop keeps the window and options; its commits are `Engine.FillFoldersCommits`, its error `Engine.FillFoldersAllOpen` and `Engine.FillFoldersLastError` |
| `Engine.ProcessRepositories` | internal/scanner/stats.go:263-283 | seeds the day grid, then runs the folder loop; its effect is stated through `Engine.StatsContents` and `Engine.StatsError` |
| `Engine.FillFolder` | internal/scanner/stats.go:168-184 | a path that does not open gives the not-a-repository error and changes nothing; an error is reported only then; the window fields never change |
| `Engine.FillFoldersCommits` | internal/scanner/stats.go:272-281 | scanning the folders in turn is the callback over the concatenated histories of the openable ones |
| `Engine.LastFailing` | internal/scanner/stats.go:272-282 | the position of the last folder that does not open, or -1 exactly when every folder opens |
| `Engine.FillFoldersAllOpen` | internal/scanner/stats.go:272-282 | when every folder opens, the loop returns no new error |
| `Engine.FillFoldersLastError` | internal/scanner/stats.go:272-282 | otherwise the error returned is that of the last failing folder |
| `Engine.Stats` | internal/scanner/stats.go:154-164 | the options and the window are kept |
| `Engine.StatsError` | internal/scanner/stats.go:154-164 | with a failing folder, the error is the last failing folder's and the folder label is untouched; otherwise the error is kept and the label is the folders joined by commas |
| `Engine.StatsContents` | internal/scanner/stats.go:263-283 | after `Stats`, each day cell is its seed plus the counted commits keyed to it, each hour and weekday cell is its old value plus the counted commits in it, and the ledger holds the calls of every commit that reached it |
| `Engine.StatsTallied` | internal/scanner/stats.go:263-283 | `Stats` on empty histograms ends with the histogram invariant |
| `Engine.Analyze` | internal/scanner/stats.go:32-67 | one result: built from the options for its folders, given its window, then scanned; its options are those for the folders |
| `Engine.Launch` | internal/scanner/stats.go:26-80 | merge mode gives one result over all folders; otherwise there is one result per folder, in order, each holding that folder alone |
| `Engine.LaunchSingleFolder` | internal/scanner/stats.go:31-68 | with one folder, merge mode makes no difference |
| `Engine.LaunchTallied` | internal/scanner/stats.go:26-80 | every result of a launch satisfies the histogram invariant |
| `Config.SliceContains` | internal/config/configuration.go:115-122 | true exactly when the value is an element |
| `Config.JoinSlices` | internal/config/configuration.go:126-133 | the existing list is a prefix of the result; every new path is in it; nothing outside existing ∪ new is; at most one element is added per new path |
| `Config.JoinSlicesOrder` | internal/config/configuration.go:126-133 | the result is the existing list followed by the new paths not yet listed, each once, in the order of their first occurrence |
| `Config.JoinSlicesNoDuplicates` | internal/config/configuration.go:127-131 | a list without duplicates stays without duplicates, even when the new paths repeat |
| `Config.JoinSlicesCovered` | internal/config/configuration.go:126-133 | paths already listed add nothing (in particular, no new paths add nothing) |
| `Config.JoinSlicesIdempotent` | internal/config/configuration.go:126-133 | merging the same paths twice equals merging them once |
| `Config.DropCR` | internal/config/configuration.go:101-104 | removes one trailing carriage return, and only that |
| `Config.ScanLines` | internal/config/configuration.go:96-112 | no line contains a newline, and empty content has no lines |
| `Config.DumpContent` | internal/config/configuration.go:136-139 | the lines joined with newlines; `Config.ReadWritten` and `Config.WrittenRead` make it the inverse of `Config.ScanLines` |
| `Config.AddFilesToScan` | internal/config/configuration.go:143-147 | read, merge, write; its effect is stated by `Config.AddFilesReadBack` and `Config.AddFilesIdempotent` |
| `Config.ReadWritten` | internal/config/configuration.go:136-139 | reading back written lines gives them unchanged, when no line holds a newline or ends with a carriage return and the last is non-empty |
| `Config.WrittenRead` | internal/config/configuration.go:96-112 | writing back the lines read from content gives the content, when it has no carriage return and does not end with a newline |
| `Config.TrailingNewline` | internal/config/configuration.go:96-112 | a final newline ends the last line instead of adding an empty one: the content reads the same with it as without it |
| `Config.CarriageReturns` | internal/config/configuration.go:96-112 | lines ended by `"\r\n"` read as the lines without their carriage returns |
| `Config.GetFolders` | internal/config/configuration.go:43-55 | `["."]` when the stored list is empty or the current directory is a repository; the stored lines otherwise |
| `Config.GetFoldersStored` | internal/config/configuration.go:49-54 | a stored clean non-empty list is returned as written |
| `Config.AddFilesReadBack` | internal/config/configuration.go:143-147 | after adding, the file reads back as the old list followed by new paths, containing every added path and nothing else |
| `Config.AddFilesIdempotent` | internal/config/configuration.go:143-147 | adding the same paths a second time writes the same file |
| `Discovery.ShouldBeIgnored` | internal/scanner/scan.go:46-48 | the pruned names; stated by `Discovery.IgnoredNames` and `Discovery.Skipped` |
| `Discovery.IgnoredNames` | internal/scanner/scan.go:46-48 | exactly `vendor`, `node_modules` and `venv` are pruned; `tests`, `src` and `.git` are not |
| `Discovery.ScanGitFolders` | internal/scanner/scan.go:53-96 | the incoming list is a prefix of the result |
| `Discovery.ScanEntries` | internal/scanner/scan.go:75-93 | the loop over a listing only appends to the incoming list; what it appends is `Discovery.ScanEntriesFound` |
| `Discovery.ScanEntriesFound` | internal/scanner/scan.go:75-93 | the walk returns the incoming list followed by the repositories of the reference definition, in order |
| `Discovery.ScanGitFoldersFound` | internal/scanner/scan.go:53-96 | the same for `ScanGitFolders`, with the trailing `/` removed from the folder |
| `Discovery.FoundAppend` | internal/scanner/scan.go:75-93 | the listing is searched in order: two listings give their repositories one after the other |
| `Discovery.GitDirectory` | internal/scanner/scan.go:79-84 | a `.git` child contributes the parent's absolute path, whatever it contains, and its siblings are still searched |
| `Discovery.Skipped` | internal/scanner/scan.go:76-87 | files and pruned directories contribute nothing, whatever they contain |
| `Discovery.Descended` | internal/scanner/scan.go:77-88 | any other directory is searched under `folder + "/" + name`, in listing position |
| `Discovery.TrailingSlash` | internal/scanner/scan.go:55 | a trailing `/` on the starting folder makes no difference |
| `Discovery.NestedRepositories` | internal/scanner/scan.go:75-93 | a repository nested in another is found after it; one under `vendor` is not |

## Left out

- **Concurrency.**
  - The `Stats` goroutine per result.
  - The goroutine per file stat, and its lost-update race between `LoadOrStore` and `Store` on the ledger.
  - Each is modelled as sequential. Where order could matter, the results are proved independent of order.
- **Progress bar, dashboard and printing.** `dashboard.Print*`, `fmt` output and the `Silent` option are output only.
- **Fatal exits.** `log.Fatalf` on an invalid regular expression, on a failing `repo.Log` or `ForEach`, and on a failing `os.Open`/`Getwd`/`Readdir` ends the process. Patterns are taken as compiled and listings as readable.
- **File access.**
  - `openFile`, `os.WriteFile`, `user.Current` and `GetDotFilePath` are I/O. The dotfile is its content.
  - `isRepo(".")` is an input boolean.
  - `Scan`, `List` and `Get` are thin wrappers around the modelled functions.
- **Clock and calendar.**
  - The clock is read once per launch, while Go reads it once per result.
  - Time zones, daylight saving time, nanoseconds and the floating-point `Hours()` are left out; `DaysBetween` truncates toward zero as `int(...)` does.
  - The month-length normalisation of `AddDate` by years or months is abstract.
- **Integer width.** The model does not wrap the 64-bit overflow of `value * 7` or `weeks * 7`.
- `Window.AlignToWeeks`: `time.Time.Sub` saturates at about 292 years, which caps the recomputed `DurationInDays` at 106751 days; the model does not saturate, so it states nothing special for such windows.
- **Loop variables.** The per-stat goroutines read the loop variable `stat`. The model takes it to be a fresh variable per iteration, as in Go 1.22 and later. Before Go 1.22 all goroutines share one variable and may all read the last stat; the source does not fix the Go version.
- **bufio limits.** `bufio.Scanner`'s 64 KiB token limit, and the error it would raise, are left out.
- **Swagger.** The HTTP service and models under `pkg/swagger` are not part of this model.
- `Window.AlignSnapsToMonday`: requires a non-negative window length. The week count is positive when used and 365 otherwise, so only that case is stated.
- `Config.ScanLines`: its contract states only the shape of the lines. The round trips `Config.ReadWritten` and `Config.WrittenRead` give its meaning for content without carriage returns. `Config.TrailingNewline` and `Config.CarriageReturns` add a final newline and `"\r\n"` line ends. A carriage return inside a line, or one not followed by a newline, is covered only by the definition.
