# Development log keeper: a verified model

The tool commits, and optionally pushes, a project. Before committing it records the commit message in two Markdown files in the working directory:

- `Development.md`, the cumulative log, whose title line is `# 开发日志`;
- `TodayDevelopment.md`, the daily log: a `## YYYY/MM/DD` header, a blank line, and the numbered entries `1. msg`, `2. msg`, … of that day.

When a message arrives on a new date, the old daily log is appended to the cumulative log after one blank line, and a fresh daily log is started with entry `1.`. When it arrives on the same date, the next number is appended. The number is found by scanning the daily log for today's header and counting the lines from there whose trimmed form starts with a digit.

Before the log is written, `main` decides whether to push, to which remote, and whether CI runs. When CI is off and the repository has workflows, it appends ` [skip ci]` to the message. The message itself comes from the command line or from prompts: a title, then bullet lines `- …` until an empty reply.

The model is in five modules:

- `Text` (`text.dfy`): the standard-library string behaviour the code relies on. This covers `BufRead::lines`, `str::trim` with Unicode whitespace, `str::contains`, ASCII `is_digit(10)`, decimal `Display` and `join`.
- `LogManager` (`log_manager.dfy`): the changelog manager. The class `LogFiles` holds the two files' contents as `Option<string>` (absent or present with its text). Its methods follow `src/log_manager.rs` statement by statement. Each method is proved equal to a step function on the file contents and the date.
- `LogProperties` (`log_properties.dfy`): what those steps guarantee, over one call and over several.
- `Prompts` (`prompts.dfy`): `input_with_default` and `get_multiline_commit_message`, with the replies given as a sequence.
- `Cli` (`cli.dfy`): the push/remote defaulting on a mutable `Args`, the `ci_enabled` chain and the final message. It also proves that messages from the prompts, with or without the marker, are numbered 1..N in the daily log.

Some conventions:

- **Dates.** The date is a parameter.
- **Failures.** File failures are modelled by a parameter `fault`: the first file operation that fails during the run, if any. Every error in the source is propagated with `?`, so that operation alone decides the outcome. The writes completed before the failing operation are kept in the files.
- **Error context.** The context attached to a failure by `update_log_files` (lines 22, 26, 28) is the `Stage` of a `LogError`.
- **Messages are written verbatim.** `writeln!(file, "{}. {}", n, msg)` writes the message as it is, including any line breaks in it. No continuation indentation is added.

## Model

| member | source | states |
|---|---|---|
| LogManager.LogFiles.constructor | src/log_manager.rs:8-9 | the two files start with the given contents |
| LogManager.LogFiles.UpdateLogFiles | src/log_manager.rs:18-32 | the files and result are those of `UpdateStep`: ensure the cumulative log, then create or update the daily log, and wrap a failure with the stage that hit it |
| LogManager.LogFiles.CheckOrCreateMainLogFile | src/log_manager.rs:35-43 | new state and result equal `EnsureMainStep`: an existing cumulative log is kept; a missing one is created holding its title line; a failed title write leaves it empty |
| LogManager.LogFiles.CreateTodayLogFile | src/log_manager.rs:46-53 | new state and result equal `CreateTodayStep`: the daily log is truncated, then gets header, blank line and entry 1, stopping at the first failing write |
| LogManager.LogFiles.UpdateTodayLogFile | src/log_manager.rs:56-86 | new state and result equal `UpdateTodayStep`: on a date match the next entry is appended; otherwise the daily log is archived (append after a blank line, or a copy when the cumulative log is missing) and recreated |
| LogManager.LogFiles.CheckLogFileDate | src/log_manager.rs:95-117 | the line-by-line loop with its two accumulators returns `ScanStep`: an open failure, a line-read failure, or the match flag and the count of entry lines from the first header line on |
| LogManager.FirstLineContaining | src/log_manager.rs:102-108 | the first line containing the pattern: none exactly when no line contains it, and no earlier line contains it |
| LogManager.CountEntriesExtend | src/log_manager.rs:110-113 | counting one more line adds one exactly when that line is an entry line |
| LogProperties.ScanMeaning | src/log_manager.rs:95-116 | match iff some line contains `## date`; then the count is the number of entry lines at or after the first such line; no match means a count of 0; the count never exceeds the number of lines |
| LogProperties.CountEntriesAtMost | src/log_manager.rs:110-113 | at most one entry is counted per line |
| LogProperties.CreateWhenAbsent | src/log_manager.rs:46-50 | without a daily log, one call makes it exactly `"## date\n\n1. msg\n"` and ensures the cumulative log |
| LogProperties.EnsureMainIdempotent | src/log_manager.rs:35-42 | an existing cumulative log is never changed; a missing one becomes `"# 开发日志\n"`; ensuring twice is ensuring once |
| LogProperties.SameDayAppend | src/log_manager.rs:56-65 | on a date match the daily log gains exactly entry `count+1`; the cumulative log is unchanged, or created with its title when it was missing |
| LogProperties.Rollover | src/log_manager.rs:66-81 | on a new date the cumulative log (created with its title first when missing) becomes cumulative + `"\n"` + old daily log, which keeps both as prefix and suffix, and the daily log becomes a fresh log for the new date |
| LogProperties.RolloverWithoutMain | src/log_manager.rs:76-77 | without a cumulative log the rollover copies the daily log into it |
| LogProperties.CopyUnreachable | src/log_manager.rs:22 | inside `update_log_files` the copy branch is never reached: a failing copy changes nothing |
| LogProperties.CopyNotInUpdate | src/log_manager.rs:71-78 | with a cumulative log present, a failing copy does not change what updating the daily log does |
| LogProperties.FailureIsTheFault | src/log_manager.rs:18-32 | a fault-free run succeeds; a failed run reports exactly the faulty operation; a run the fault does not reach ends exactly as the fault-free run; a failure at the first stage leaves the daily log untouched |
| LogProperties.NoWriteAfterFailure | src/log_manager.rs:18-32 | no later step runs after a failure: a failed scan, same-day append or archive step before the content write leaves both files as ensuring the cumulative log left them; a failure while creating the daily log leaves the cumulative log as ensured |
| LogProperties.UpdateTodayFault | src/log_manager.rs:56-86 | `update_today_log_file` fails only at the given fault, changes no file when that fault comes before its first write, and otherwise ends as without a fault |
| LogProperties.CreateTodayFault | src/log_manager.rs:46-53 | `create_today_log_file` fails only at one of its four operations, never touches the cumulative log, and otherwise ends as without a fault |
| LogProperties.ScanFault | src/log_manager.rs:95-116 | the scan fails only at opening or reading the daily log, at the given fault when the log exists, and otherwise gives the fault-free result |
| LogProperties.EnsureMainFault | src/log_manager.rs:35-43 | ensuring the cumulative log fails only at its creation or title write, keeps the daily log, and otherwise ends as without a fault |
| LogProperties.FailedArchiveKeepsDaily | src/log_manager.rs:71-81 | a failure while archiving, with or without a cumulative log beforehand, leaves the daily log unreplaced and is reported in the update stage; before the content write the cumulative log is as ensured, and a failed content write leaves it with only the blank line added |
| LogProperties.RetryAfterInterruptedRollover | src/log_manager.rs:70-81 | when the recreation fails after the archive, the daily log stays; a retry archives the same day a second time |
| LogProperties.HeaderLine | src/log_manager.rs:48 | a date header reads back as one line, contains itself, and is not an entry line |
| LogProperties.EntryReadsAsOne | src/log_manager.rs:64 | an entry written for a safe message reads back as exactly one entry line |
| LogProperties.EntriesReadBack | src/log_manager.rs:111 | the entries of N safe messages count as N entry lines |
| LogProperties.CountEntriesConcat | src/log_manager.rs:110-113 | the count over two runs of lines is the sum of their counts |
| LogProperties.CountEntriesNone | src/log_manager.rs:111 | lines none of which is an entry count as 0 |
| LogProperties.DayLogLines | src/log_manager.rs:47-50 | a day's log reads as its header, the blank line, then the lines of its entries |
| LogProperties.DayLogScan | src/log_manager.rs:95-116 | scanning a day's log on its own day finds the header and one entry per safe message |
| LogProperties.NextEntry | src/log_manager.rs:58-64 | one more same-day call extends the day's log with the next numbered entry, and ensures the cumulative log |
| LogProperties.FirstRecord | src/log_manager.rs:46-50 | the first call of a day without a daily log gives the day's log of that one message |
| LogProperties.SameDayNumbering | src/log_manager.rs:58-64 | N same-day calls from an absent daily log number the safe messages 1..N in call order, and the scan then counts N |
| LogProperties.OtherHeader | src/log_manager.rs:106 | the header of one date does not contain the header of another |
| LogProperties.NoLineContains | src/log_manager.rs:102-106 | no line of a text contains a pattern the text lacks |
| LogProperties.OtherDayNotFound | src/log_manager.rs:102-108 | a scan for another date finds no match in a day's log whose entries do not mention that date's header |
| LogProperties.NewDayRollsOver | src/log_manager.rs:66-81 | such a log is archived whole after a blank line at the end of the (ensured) cumulative log and replaced by a fresh log for the new date |
| Text.EntryLineByFirstChar | src/log_manager.rs:111 | a line that does not start with whitespace is an entry line iff its first character is a digit |
| Text.ContainsSameLength | src/log_manager.rs:106 | a line as long as the pattern contains it only by being equal to it |
| Text.LineOccurrenceInText | src/log_manager.rs:102-106 | a pattern found in one of the lines read from a text is found in the text |
| Text.LinesConcat | src/log_manager.rs:102 | text ending in a line break reads as its own lines followed by those of what follows |
| Text.LineRoundTrip | src/log_manager.rs:102 | a break-free line followed by `\n` reads back as that line, without a trailing `\r` |
| Text.LinesPrefix | src/log_manager.rs:102 | break-free text, not ending in `\r`, written before a non-empty text joins its first line and leaves the other lines as they were |
| Text.LineIsSlice | src/log_manager.rs:102 | every line read from a text is a contiguous piece of it, and the first line starts it |
| Text.NoBreakConcat | src/log_manager.rs:102 | two break-free strings put together hold no line break |
| Text.Itoa | src/log_manager.rs:64 | the decimal form of the entry number: non-empty, all digits, no leading zero |
| Text.ItoaRoundTrip | src/log_manager.rs:64 | the digits written denote the entry number |
| Prompts.InputWithDefault | src/utils.rs:33-37 | `None` exactly when the reply is empty, otherwise the reply unchanged |
| Prompts.FirstEmpty | src/utils.rs:59-67 | the index of the first empty reply: every earlier reply is non-empty |
| Prompts.Bullets | src/utils.rs:69 | each body line gets `"- "` in front, in order |
| Prompts.GetMultilineCommitMessage | src/utils.rs:44-80 | the loop returns `CommitMessage(answers)` and reads exactly `AnswersRead(answers)` replies |
| Prompts.FirstEmptyAt | src/utils.rs:65-67 | the collection stops at the first empty reply |
| Prompts.FirstEmptyNone | src/utils.rs:59-63 | without an empty reply the collection runs to the end of the input |
| Prompts.EmptyTitle | src/utils.rs:50-52 | an empty title gives exactly `"Normal Update"` after one reply, and no body line is read |
| Prompts.TitleAndBody | src/utils.rs:65-77 | with no body line the message is exactly the title; with body lines b1..bk it is title + `"\n\n"` + the `"- "` lines joined by `"\n"`; k + 2 replies are read |
| Prompts.LaterAnswersIgnored | src/utils.rs:59-67 | replies after the terminating empty one change neither the message nor the number read |
| Prompts.BulletIsNotEntry | src/utils.rs:69 | a `"- "` line is never an entry line of the log |
| Prompts.BulletWithTail | src/utils.rs:69 | a bullet line with a break-free tail reads back as one bullet line |
| Prompts.AllBulletsConcat | src/utils.rs:76 | joining two runs of bullet lines gives bullet lines |
| Prompts.BodyLinesAreBullets | src/utils.rs:76 | the joined body, with a break-free tail, reads back as bullet lines only |
| Cli.Args.constructor | src/main.rs:12-32 | the arguments hold the given flags and values |
| Cli.Args.ResolvePushAndRemote | src/main.rs:117-126 | the push prompt is shown only without `--push`; the remote prompt only when pushing to `"github"`; a non-empty reply replaces the remote, an empty one keeps it; the other fields are unchanged |
| Cli.DecideCi | src/main.rs:129-142 | `--no-ci` disables CI whatever else is set; otherwise `--ci` enables it; the user is asked iff neither flag is set and there are workflows and a push, and then the answer decides; without workflows CI is on, with workflows and no push off, both without asking |
| Cli.AnswerOnlyWhenAsked | src/main.rs:133-135 | when the user is not asked, the answer has no effect |
| Cli.FinalCommitMessage | src/main.rs:145-149 | the message gets `" [skip ci]"` iff CI is off and workflows exist, otherwise it is unchanged; without workflows it is never altered |
| Cli.SkipCiDecision | src/main.rs:129-149 | from the flags: the marker is added iff workflows exist and CI was refused by `--no-ci`, by not pushing, or by the answer |
| Cli.DraftIsSafe | src/utils.rs:69-77 | a drafted message of single-line replies, with a break-free tail, has no entry line after its first line |
| Cli.TitleThenBullets | src/utils.rs:69-77 | a title line, a blank line and bullet lines: no line after the title reads as an entry |
| Cli.FinalDraftIsSafe | src/main.rs:145-149 | appending the skip-ci marker keeps a drafted message safe |
| Cli.PromptedDraft | src/utils.rs:44-80 | a message read at the prompts is the default or a draft of single-line replies |
| Cli.PromptedMessageIsSafe | src/utils.rs:69 | every message read at the prompts, with or without the marker, is safe to log |
| Cli.PromptedMessagesNumbered | src/log_manager.rs:111 | messages read at the prompts and logged on one day are numbered 1..N in order, and the scan counts N, whatever CI decision each run made |

## Left out

- `src/git.rs` is not part of this model. It runs `git add`, `commit`, `push` and `status` as subprocesses.
- Terminal output is left out as UI. This covers the separators, centred titles, the formatted message summary and coloured `println!` output.
- The final "continue?" confirmation (`src/main.rs` lines 178-181) is not modelled. Declining it ends the run before `update_log_files` is called, so nothing is logged. That step lies outside the modelled lines.
- Argument parsing with `clap` is replaced by the `Args` constructor.
- The prompts of `dialoguer` are replaced by given replies. A failing prompt is modelled only in `get_multiline_commit_message`, as running out of replies. The `confirm` prompts are plain boolean arguments, and their I/O errors are not modelled.
- `dialoguer` rejects an empty title. The model follows the code's own empty-title branch instead.
- `get_today` is left out because it reads the system clock. The date is a parameter, and `IsDate` describes its `%Y/%m/%d` form with a four-digit year.
- The existence check of `.github/workflows` is left out because it is a filesystem probe. It is the parameter `hasWorkflows`.
- Files are whole texts of Unicode scalar values. UTF-8 encoding, read errors on invalid UTF-8, paths and races with other processes are not modelled.
- A failing `writeln!` or `write!` is modelled as writing nothing. A partially written line is not modelled.
- The entry counter is a `usize` in the source and a `nat` here, so its overflow is not modelled.
- `CheckLogFileDate` reads the lines one by one. A read failure is modelled only at the first line, because the fault parameter names an operation rather than a position.
- `IsDate` restricts the multi-message lemmas to dates written the way the tool writes them. Dates of another shape are not covered by `SameDayNumbering` and `NewDayRollsOver`.
- `SameDayNumbering` needs safe messages. A message given on the command line can contain a line break followed by a digit, and the scan then counts that line as one more entry. For messages from the prompts, `PromptedMessagesNumbered` proves safety.
- `NewDayRollsOver` needs the old entries not to mention the new date's header. A message containing `## <next date>` makes the next day's scan find a match, so it appends instead of rolling over. The step functions model that behaviour as written.
- No indentation of continuation lines is modelled, because the code writes the message verbatim.
