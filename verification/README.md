# A verified model of the cron daemon and the mall advertisement server

The repository holds an advertisement server for shopping malls (ad selection, presence accounting of
devices seen by access points) and the cron daemon whose time records it shares. This project models
the parts where state, loops and arithmetic carry a theorem, and proves what they promise.

- **Crontab fields** (`BitString`, `CronText`, `CronSyntax`, `CronFields`, `CronWords`, `CronRecord`,
  `CronShorthand`, `CronTiming`, `CronSchedule`): the character-by-character parser, the byte masks, the
  flat record in which every `get_list` clears one bit past its field, and the tick test. Main result: the
  tick test on the compiled record is the direct reading of the five words of the line, for every text and
  every time (`CronRecord.CompiledLineMatches`). The parser is proved against a syntax tree that has a
  printer, with round trips in both directions. What the words mean in numbers is said without the parser:
  a schedule of stars, numbers, names, ranges and steps, printed with any blanks, is accepted and runs when
  its own definition says (`CronSchedule.ScheduleRuns`).
- **Crontab files** (`Environment`, `CronEntry`, `CronRejection`, `CronShortLine`, `CrontabLoader`,
  `CronPlain`): environments as arrays of strings that behave like maps, one entry with its defaults and
  overrides, what is skipped of a rejected line, what becomes of a line that ends too early, and the loop
  that reads a whole file and is shown to cover it line by line. A crontab of printed jobs, settings,
  comments and empty lines is loaded as its jobs and nothing else, each with its schedule, command, account
  and environment (`CronPlain.PlainCrontabLoads`, `JobEnvironment`).
- **The daemon** (`CronDatabase`, `JobQueue`, `CronLog`, `CronDaemon`, `CronSystem`): the incremental
  reload on two doubly linked lists against a reload from scratch; the job queue; and the main loop
  under any clock that does not go back, with any finite number of delays and interruptions. A run
  keeps a log whose truth is proved: the clock was asked what the log says, and the commands were
  started that the log says. The log meets the rules of `CronLog.MayFollow` (when the queue is run, when
  the daemon sleeps, what a tick queues, and that it finds the queue empty if the sleep before it began
  in time), and the theorems about runs follow from these rules. The daemon loads the crontabs with the
  loader of `CrontabLoader`, whose result the text determines byte for byte. Main results: every line of
  every user of the database is queued at a tick exactly when its text names the minute
  (`CronSystem.TickFollowsText`); and if every reload sees what has changed on disk, that holds of every
  line on disk (`TextIsQueued`), with the exact condition on successive states of the disk
  (`WhenUpToDate`). For printed crontabs it goes from the schedule to the queue (`PlainJobIsQueued`).
- **Ad selection** (`AdCampaign`, `AdEligibility`, `TopAds`, `AdServer`, `AdRotation`, `AdRuns`,
  `AdOutcome`, `StoreKeys`): the weighted bid, the next ad, the filters, the in-place top-n over three
  arrays, and whole runs of requests and clicks. Main results: shows are apportioned by highest averages within
  both quota bounds, and the counters are the ledger of charges. `AdOutcome` says it in terms of what is
  stored: the bid in prices and counters, who passes each filter, that a passing bid is shown or beaten, and
  what each show and click costs whom.
- **Presence** (`Presence`, `PresenceRuns`, `MacCodec`): the updates that one sighting makes, the
  message loop with its fixed stride, and theorems about every run of sightings: durations add up,
  credited time is covered time, the stored arrival is the start of the visit that goes on.
- **Standard input of a command** (`StdinTranslation`): the split at the first unescaped percent sign
  and the translation of what follows.

Conventions. A C `FILE` is a text with a position; the character that a `static char` function returns
is narrowed, so that byte 0xff becomes the end-of-file value (`CronText.Narrow`). A zero step, on which
the compiler's loop never ends, is an explicit outcome (`hang`, `Verdict.Hang`) and not a precondition.
The store of the advertisement server is a set of maps whose keys keep the parts of the printed keys
apart; `StoreKeys.KeysInjective` is why that loses nothing. Doubles are exact reals. `localtime`, the
password file, the directory contents, the clock and the database of devices are parameters.

`Common` holds what several parts share.

Where code and documentation disagree, the model follows the code. Where a documented or expected law
fails, there is an input that shows it and the condition under which the law holds:

- `check_cron_timing` looks at the bit of the next day (`CronTiming.FirstOfMonthIsMissed`); it agrees
  with the daemon's test exactly as `CronTiming.TimingAgreesWithTick` says. This is about records in
  cron's own encoding, day 1 at bit 0. What writes the stored record (`cron.time.set`) is not in the
  repository; a writer that puts day 1 at bit 1 would make up for it.
- `@monthly` and `@weekly` run daily, `@yearly` on every day of January, `@hourly` never: the exact times
  are in `CronShorthand.ShorthandMatches`.
- A rejected line is not always skipped (`CronRejection.RejectedLineIsReadOn`). If the list of its first
  bad time field is rejected, it is skipped exactly when that word is the last of the line and is read to
  its end, that is, when the first bad item ends the word and, in it, the first bad number
  (`RejectedListSkipsLine`); if only the character after the field cannot be read, exactly when the text
  ends there (`UnreadableFieldSkipsLine`). If its shorthand, user or command is rejected, exactly when no
  newline was read before the last look-ahead (`RejectedWordsSkipLine`).
- The manual asks for five time fields and a command. A line that ends after four fields is accepted: the empty
  field is the number 0, Sunday, and the command is empty (`CronShortLine.ShortLineIsAccepted`,
  `ShortLineIsEntry`). A line that ends before its fifth word is accepted if and only if the day of the week
  alone is missing and the other four fields are good (`ShortLineVerdict`).
- A job is taken for a setting, and so lost, if and only if there is no space among its first four fields and its
  last field and command would be a setting by themselves (`CronPlain.JobIsSetting`), as when tabs part the fields
  and the command sets a variable (`TabbedJobIsSetting`).
- A removed system crontab goes on running while the spool directory is the newer of the two
  (`CronSystem.RemovedCrontabStays`): a reload looks at the newer time only. A database that is up to date
  stays so exactly when the next reload sees what has changed on disk (`StaysUpToDate`), which with new
  directory times is when no crontab changes under an old time (`SeenIfStamped`).
- A crontab edited twice within a second keeps its old meaning (`CronDatabase.SameSecondEditIsMissed`);
  a reload is a full one exactly as `ReloadIsFullReload` says.
- The final newline of a command's input is missing (`StdinTranslation.NewlineIsForgotten`) exactly when the
  text ends in a backslash and its last other character is none, a newline, or a percent sign that becomes
  one (`LastNewline`). Of a percent sign, the split and the translation take the same view exactly when
  no backslash or an odd number of them stands before it (`BackslashViews`, with the instance
  `TwoBackslashes`).
- `set_intersection` on lists that are not ascending (`AdServer.IntersectionNeedsOrder`): a group of both
  is found exactly when the same greater groups stand in its way on both (`IntersectionFinds`). Such lists
  are real: they come from `ZRANGE` (redisDB.hpp:308-335), which orders by score and then as text, so that
  10 comes before 9.
- A time difference that does not fit a C int (`PresenceRuns.FirstSightingAfter2038`); the credit is right
  exactly as `CreditIsClamp` says.

## Model

| member | source | states |
|---|---|---|
| BitString.MasksAreShifts | bitstring.h:31-32 | the mask tables are the shifts of the macros, for every bit and byte boundary |
| BitString.BitstrSize | bitstring.h:36-37 | the bytes hold every bit, with less than a byte to spare |
| BitString.BitSet | bitstring.h:53-54 | exactly one bit of the whole record becomes set |
| BitString.BitClear | bitstring.h:57-58 | exactly one bit of the whole record becomes clear |
| BitString.BitNclear | bitstring.h:61-75 | exactly the bits start..stop are cleared, in the one-byte and the multi-byte case, anywhere in a larger record |
| BitString.BitNset | bitstring.h:78-92 | exactly the bits start..stop are set, likewise |
| BitString.BitFfs | bitstring.h:110-122 | the least set bit among the scanned bytes, or -1 if and only if there is none |
| BitString.BitFfc | bitstring.h:95-107 | the least clear bit among the scanned bytes, or -1 if and only if there is none |
| CronText.CrontabFile.GetString | third-party/cron-3.0pl1.orig/misc.c:336-355 | reads up to the first terminator, keeps what fits, returns the terminator or end of file |
| CronText.CrontabFile.SkipComments | third-party/cron-3.0pl1.orig/misc.c:361-395 | leaves the reader at the first useful character of the next useful line |
| CronText.OnlyCommentsPassed | third-party/cron-3.0pl1.orig/misc.c:361-395 | what is passed on the way is blank lines and comment lines only: each line of it is blanks and then its end, a number sign, or the useful character |
| CronSyntax.ListIsSpelled | third-party/cron-3.0pl1.orig/entry.c:335-339 | whatever text is read, the part that was read spells the list that was read, and cannot be read any further |
| CronSyntax.ListReads | third-party/cron-3.0pl1.orig/entry.c:354-423 | a text that spells a list, and does not continue it, reads as that list |
| CronSyntax.PrintedListReads | third-party/cron-3.0pl1.orig/entry.c:324-339 | round trip: the printed form of any list of numbers, names, ranges, stars and steps reads back as that list, in any surroundings that do not continue it |
| CronFields.GetNumber | third-party/cron-3.0pl1.orig/entry.c:439-490 | value or rejection of the run of letters and digits: name, number, too long, empty |
| CronFields.SetElement | third-party/cron-3.0pl1.orig/entry.c:494-507 | accepts exactly the numbers within bounds and sets exactly their bit |
| CronFields.SetSpan | third-party/cron-3.0pl1.orig/entry.c:430-432 | sets exactly the numbers of the span that the step meets, in at most (high - low) / step + 2 rounds; loops exactly on a zero step from a number within bounds |
| CronFields.GetRange | third-party/cron-3.0pl1.orig/entry.c:354-435 | one item: accepted, rejected or looping as its syntax says, if accepted exactly its elements are added, and where the reader is left in every case |
| CronFields.GetRanges | third-party/cron-3.0pl1.orig/entry.c:333-340 | the loop over a list adds exactly what the list denotes |
| CronFields.GetList | third-party/cron-3.0pl1.orig/entry.c:307-350 | an accepted field holds exactly what its list denotes, whatever the bits were before, and the one bit past it is clear; outside both nothing changes; accepted or not, where the reader is left |
| CronFields.FieldKept | third-party/cron-3.0pl1.orig/entry.c:329 | compiling one field keeps another that lies before it or past the one extra bit |
| CronWords.FieldIsWord | third-party/cron-3.0pl1.orig/entry.c:342-349 | what is compiled depends on the word alone, and the next field begins at the next word |
| CronRecord.LayoutIsConsecutive | third-party/cron-3.0pl1.orig/cron.h:154-158 | each bit string ends where the next begins |
| CronRecord.CompileField | third-party/cron-3.0pl1.orig/entry.c:163-164 | one field compiled from its word, at its place in the record |
| CronRecord.CompileNext | third-party/cron-3.0pl1.orig/entry.c:163-212 | the k-th field is compiled and all earlier ones are kept |
| CronRecord.EarlierFieldKept | third-party/cron-3.0pl1.orig/cron.h:154-158 | field independence: the bit cleared past a field, which for hour and day of week lies in the following byte, never belongs to an earlier field |
| CronRecord.CompileLine | third-party/cron-3.0pl1.orig/entry.c:163-212 | the five fields in order: accepted exactly when all five are, then all hold their words and every other bit of the record is clear, with the star flags of the two day fields |
| CronRecord.CompiledDetermines | third-party/cron-3.0pl1.orig/entry.c:108-212 | the line determines the record, down to the unused bits |
| CronRecord.MergeSundays | third-party/cron-3.0pl1.orig/entry.c:216-219 | day 0 and day 7 become the same and no other bit changes |
| CronRecord.CompiledLineMatches | third-party/cron-3.0pl1.orig/cron.c:165-190 | compilation preserves meaning: the test of the tick on the compiled record is the direct reading of the line, for every text and every time |
| CronTiming.TimingIsDayAfter | cron_timing.cpp:2-21 | on a record compiled from text, `check_cron_timing` says of every day what the text says of the number of the next day; on the 31st that number is in no field, and only the bit past the field is read |
| CronTiming.TimingAgreesWithTick | cron_timing.cpp:5-11 | it agrees with the daemon's test if and only if the bits of the two days agree or do not decide |
| CronTiming.FirstOfMonthIsMissed | cron_timing.cpp:10 | a concrete record and day on which the two tests differ |
| CronSchedule.SingleIsGood | third-party/cron-3.0pl1.orig/entry.c:439-507 | a word of letters and digits is accepted if and only if it has fewer than 100 characters and is a name of the field in any case, or a number within its bounds |
| CronSchedule.PartDenotes | third-party/cron-3.0pl1.orig/entry.c:354-435 | what a star, a number, a name, a range and a step denote, in numbers: a star everything from the least to the greatest value of the field, a step every k-th from the first |
| CronSchedule.FieldDenotes | third-party/cron-3.0pl1.orig/entry.c:307-350 | a printed list of these denotes what any of them does |
| CronSchedule.ScheduleRuns | third-party/cron-3.0pl1.orig/entry.c:163-212 | every printed schedule is accepted, and the line names exactly the minutes at which the schedule runs by its own definition, with the rule of the two kinds of day and both numbers of Sunday |
| CronShorthand.SetShorthand | third-party/cron-3.0pl1.orig/entry.c:123-159 | the bits that each shorthand sets, and no others |
| CronShorthand.ShorthandMatches | third-party/cron-3.0pl1.orig/entry.c:124-155 | when each shorthand really runs |
| Environment.UpdateIsSeen | third-party/cron-3.0pl1.orig/env.c:66-104 | whatever the array holds, the new value is what a lookup finds exactly when no earlier entry of the name hides it |
| Environment.UpdatedElsewhere | third-party/cron-3.0pl1.orig/env.c:66-104 | whatever the array holds, every other name keeps its value |
| Environment.UpdatedIsMapUpdate | third-party/cron-3.0pl1.orig/env.c:66-104 | with unique names, setting a variable is a map update: the new value for its name, the old value for every other |
| Environment.UpdatedUnique | third-party/cron-3.0pl1.orig/env.c:77-92 | unique names stay unique |
| Environment.DuplicateNamesBreakUpdate | third-party/cron-3.0pl1.orig/env.c:78-91 | an array with a name twice on which a lookup misses the update; the loader builds no such array |
| Environment.StrcmpUntil | third-party/cron-3.0pl1.orig/misc.c:52-72 | zero exactly when the parts before the separator are equal |
| Environment.EnvCopy | third-party/cron-3.0pl1.orig/env.c:49-62 | a copy of the same contents in a fresh array |
| Environment.EnvSet | third-party/cron-3.0pl1.orig/env.c:66-104 | in place or in a larger array, the contents are those of the updated environment |
| Environment.EnvGet | third-party/cron-3.0pl1.orig/env.c:164-178 | the value of the first variable of that name, or none |
| Environment.PlainSettingReads | third-party/cron-3.0pl1.orig/env.c:129-157 | a plain `name = value` line is read as that setting |
| Environment.SpacedSettingReads | third-party/cron-3.0pl1.orig/env.c:129-157 | blanks round the equals sign and behind the value do not matter, nor does a comment; exactly one pair of equal quotes is taken off |
| Environment.SettingHasParts | third-party/cron-3.0pl1.orig/env.c:129-137 | conversely, every line that is taken for a setting has these parts |
| Environment.QuotedSettingReads | third-party/cron-3.0pl1.orig/env.c:143-152 | `NAME = "value"` is read as NAME and the value between the quotes, blanks included |
| Environment.SettingShape | third-party/cron-3.0pl1.orig/env.c:129-157 | whatever line is taken for a setting, the string that is stored is one |
| Environment.LoadEnv | third-party/cron-3.0pl1.orig/env.c:112-160 | setting, no setting with the reader put back, or end of file, as the next useful line says |
| CronEntry.EntryEnvLookup | third-party/cron-3.0pl1.orig/entry.c:247-264 | SHELL, HOME and PATH are defaults, LOGNAME is always the account's name, every other variable keeps its value |
| CronEntry.EntryEnvironment | third-party/cron-3.0pl1.orig/entry.c:250-264 | the entry's own array holds that environment and the file's array is left alone |
| CronEntry.LoadTime | third-party/cron-3.0pl1.orig/entry.c:110-219 | the time part: five fields or a shorthand; if accepted, the record means what the text says |
| CronEntry.SkipLine | third-party/cron-3.0pl1.orig/entry.c:300-301 | skips to the end of the line, unless the character in hand is the end-of-file value |
| CronEntry.CommandIs | third-party/cron-3.0pl1.orig/entry.c:272-290 | the command is the rest of the line, of which the first 999 characters are kept |
| CronEntry.LoadEntry | third-party/cron-3.0pl1.orig/entry.c:70-303 | an entry is returned exactly when time, user and command are in order, and is then what the text describes; where an accepted and where a rejected entry leaves the reader |
| CronRejection.RejectedListSkipsLine | third-party/cron-3.0pl1.orig/entry.c:163-212 | of a line whose first bad time field has a bad list the rest is skipped if and only if that word is the last of the line and is read to its end, as its items and their numbers say |
| CronRejection.UnreadableFieldSkipsLine | third-party/cron-3.0pl1.orig/entry.c:342-349 | of a line of which only the character after a good field cannot be read the rest is skipped if and only if the text ends there |
| CronRejection.RejectedFieldsStop | third-party/cron-3.0pl1.orig/entry.c:300-301 | a rejected time field leaves the reader past something of the line and nowhere behind it |
| CronRejection.RejectedWordsSkipLine | third-party/cron-3.0pl1.orig/entry.c:223-301 | of a line whose shorthand, user or command is rejected the rest is skipped if and only if no newline stands before the character in hand |
| CronRejection.RejectedLineIsReadOn | third-party/cron-3.0pl1.orig/entry.c:165-168 | a line whose minute is rejected is not skipped: its rest is read as another line |
| CronShortLine.ShortLineVerdict | third-party/cron-3.0pl1.orig/entry.c:163-212 | a line that ends before its fifth word is accepted if and only if the day of the week alone is missing and the other fields are good |
| CronShortLine.ShortLineRuns | third-party/cron-3.0pl1.orig/entry.c:462-488 | four printed fields and nothing else run as with Sunday for the fifth |
| CronShortLine.ShortLineIsEntry | third-party/cron-3.0pl1.orig/entry.c:110-290 | in a user's crontab such a line is an entry of that user with an empty command |
| CronShortLine.ShortLineIsAccepted | third-party/cron-3.0pl1.orig/user.c:78-95 | the loader takes it for an entry and for nothing else |
| CrontabLoader.EnvAfterUnique | third-party/cron-3.0pl1.orig/user.c:91-93 | the environment of a file keeps unique names, whatever its settings |
| CrontabLoader.LoadRound | third-party/cron-3.0pl1.orig/user.c:78-95 | every round consumes text and does what its line calls for, although a line that is no setting is read twice and an entry gives a character back |
| CrontabLoader.LoadUser | third-party/cron-3.0pl1.orig/user.c:45-102 | loading ends exactly on the texts in which no line that is read has a looping field; the rounds cover the text, and the list holds exactly the accepted entries, each with the environment in force where it stands, the last first |
| CrontabLoader.RoundsAreDetermined | third-party/cron-3.0pl1.orig/user.c:78-95 | the text determines the rounds, and with them the accepted entries and their environments |
| CrontabLoader.LoadDetermined | third-party/cron-3.0pl1.orig/user.c:45-102 | the text determines what is loaded from it, byte for byte |
| CrontabLoader.CompleteNoHang | third-party/cron-3.0pl1.orig/user.c:78-95 | if some course through the text ends, no course comes to a looping field |
| CrontabLoader.TabEntry | third-party/cron-3.0pl1.orig/user.c:86-89 | line k of the list was loaded from the accepted entry that is k from the last |
| CronPlain.JobIsSetting | third-party/cron-3.0pl1.orig/env.c:129-137 | a printed job is taken for a setting if and only if there is no space among its first four fields and its last field and command are one by themselves |
| CronPlain.TabbedJobIsSetting | third-party/cron-3.0pl1.orig/env.c:130 | a job with tabs between its fields that is taken for a setting |
| CronPlain.PlainCrontabLoads | third-party/cron-3.0pl1.orig/user.c:45-102 | a text of printed jobs, settings, comments and empty lines is loaded as its jobs and nothing else, the last first; each has its command and account and the environment of the settings before it, fires exactly when its schedule runs, and never at a start |
| CronPlain.PlainNeverHangs | third-party/cron-3.0pl1.orig/user.c:78-95 | no course through such a text comes to a looping field |
| CronPlain.JobEnvironment | third-party/cron-3.0pl1.orig/entry.c:247-264 | a variable of a job is the last setting of its name before it, or /bin/sh, the home directory, /usr/bin:/bin for SHELL, HOME, PATH; LOGNAME is always the name of the account |
| CronDatabase.CronDb.LinkUser | third-party/cron-3.0pl1.orig/database.c:147-158 | the doubly linked list grows at its end and stays well formed |
| CronDatabase.CronDb.UnlinkUser | third-party/cron-3.0pl1.orig/database.c:162-175 | the list loses exactly that node and stays well formed |
| CronDatabase.CronDb.FindUser | third-party/cron-3.0pl1.orig/database.c:179-190 | the first user of the name, or none |
| CronDatabase.LoadTab | third-party/cron-3.0pl1.orig/database.c:250-254 | the entries of a user are what the loader makes of the text of the file |
| CronDatabase.ProcessCrontab | third-party/cron-3.0pl1.orig/database.c:194-261 | moves, replaces, loads or skips: what one file does to both lists, every node staying accounted for |
| CronDatabase.LoadDatabase | third-party/cron-3.0pl1.orig/database.c:41-143 | the new list is the incremental reload of the scanned files, it is the full reload if and only if no changed crontab was taken for unchanged, and every old node was moved or freed exactly once |
| CronDatabase.ReloadIsFullReload | third-party/cron-3.0pl1.orig/database.c:80-120 | incremental reload equals loading every readable crontab from scratch, in directory order, if and only if every reused user still is what its file gives |
| CronDatabase.FullReloadMembers | third-party/cron-3.0pl1.orig/database.c:206-254 | the full reload loads exactly the files whose name is `*system*` or has an account, which can be opened and examined, and whose text can be loaded |
| CronDatabase.FullReloadJoins | third-party/cron-3.0pl1.orig/database.c:102-120 | one after the other, in the order of the scan |
| CronDatabase.ScanMembers | third-party/cron-3.0pl1.orig/database.c:84-115 | a scan lets through the system crontab if it exists, and every name of the spool directory that does not begin with a dot |
| CronDatabase.SpoolJoins | third-party/cron-3.0pl1.orig/database.c:97-120 | in the order of the directory |
| CronDatabase.StampsSuffice | third-party/cron-3.0pl1.orig/database.c:228-236 | it suffices that equal name and modification time mean equal content |
| CronDatabase.StampsDecide | third-party/cron-3.0pl1.orig/database.c:228-236 | with no name twice, that is also necessary |
| CronDatabase.SameSecondEditIsMissed | third-party/cron-3.0pl1.orig/database.c:231 | a file whose content changes while its modification time, in seconds, stays: the reload keeps the old meaning |
| JobQueue.Queue.JobAdd | third-party/cron-3.0pl1.orig/job.c:37-57 | appends unless already queued; the linked queue stays well formed |
| JobQueue.Queue.RunQueue | third-party/cron-3.0pl1.orig/job.c:61-74 | starts the command of every job, in order, and leaves the queue empty |
| JobQueue.QueuedAllFirsts | third-party/cron-3.0pl1.orig/job.c:43-56 | adding jobs one by one leaves each once, in the order in which they first came |
| JobQueue.FirstsDetermine | third-party/cron-3.0pl1.orig/job.c:43-56 | which determines the queue |
| CronLog.DueMembers | third-party/cron-3.0pl1.orig/cron.c:177-196 | a job is due exactly when its user is in the database and its entry fires |
| CronLog.DueJoins | third-party/cron-3.0pl1.orig/cron.c:177-196 | the users come one after the other |
| CronLog.DueAscending | third-party/cron-3.0pl1.orig/cron.c:178-196 | the entries of a user come in their order, none twice |
| CronLog.FiresAsWritten | third-party/cron-3.0pl1.orig/cron.c:182-190 | an entry loaded from text fires exactly when the text names the time, and at a start exactly for `@reboot` |
| CronLog.LoadedLineFires | third-party/cron-3.0pl1.orig/user.c:78-95 | so a line of a crontab loaded from a whole text fires exactly when the entry of the text that it comes from says so |
| CronLog.PendingIsFirsts | third-party/cron-3.0pl1.orig/job.c:61-74 | the queue, and so every drain, is what came due since the last drain, each job once, first come first |
| CronLog.EveryDueIsServed | third-party/cron-3.0pl1.orig/cron.c:233 | no due job is lost: it is still queued, or a later drain started its command |
| CronLog.RunsAreAccounted | third-party/cron-3.0pl1.orig/job.c:43-45 | conservation: commands started + still queued + merged with an earlier one = times due; so nothing runs more often than it was due |
| CronLog.PunctualRuns | third-party/cron-3.0pl1.orig/cron.c:220-244 | if every `cron_sleep` of a run first reads the clock before its target time, the command of every job is started exactly as often as the job was due, but for a job still queued at the end |
| CronDaemon.QueueDue | third-party/cron-3.0pl1.orig/cron.c:177-196 | the loops over users and entries queue exactly what is due, in order, after what was queued |
| CronDaemon.Daemon.RunRebootJobs | third-party/cron-3.0pl1.orig/cron.c:137-151 | the log is the queueing of exactly the reboot jobs of the database and then, if there are any, the run of the queue; the shell has been given exactly these |
| CronDaemon.Daemon.CronTick | third-party/cron-3.0pl1.orig/cron.c:155-197 | one tick at the target time, logged with exactly what it queued |
| CronDaemon.Daemon.CronSync | third-party/cron-3.0pl1.orig/cron.c:210-216 | the first target is the next full minute after the clock was read |
| CronDaemon.Daemon.RunUntilIdle | third-party/cron-3.0pl1.orig/cron.c:223-233 | if the first reading of the clock is before the target, the queue has been run and is empty; otherwise it is as it was |
| CronDaemon.Daemon.CronSleep | third-party/cron-3.0pl1.orig/cron.c:220-244 | returns, after any interruptions, no earlier than at the target time, with the queue run exactly if the first reading was in time |
| CronDaemon.Daemon.Round | third-party/cron-3.0pl1.orig/cron.c:112-132 | sleep, reload, tick: the log, whose rules are kept, grows by one tick at the target, with the reloaded database |
| CronDaemon.Run | third-party/cron-3.0pl1.orig/cron.c:105-132 | over every run: the reboot jobs of the first database are queued and run; ticks at T0, T0 + 60, T0 + 120, ..., none skipped, repeated or early, each queueing exactly what fires in the database that the reloads so far make, and finding the queue empty unless its `cron_sleep` began late; the daemon sleeps only with an empty queue; the calls of the clock and the commands started are those of the log |
| CronSystem.UsersComeFromFiles | third-party/cron-3.0pl1.orig/database.c:112-120 | every user of the database after any reloads was loaded from a file that one of them found |
| CronSystem.TickFollowsText | third-party/cron-3.0pl1.orig/cron.c:105-197 | every user that a tick goes through comes from a crontab that was on disk at a reload before it, and each of his lines is queued exactly when its text there names the time of the tick |
| CronSystem.StaysUpToDate | third-party/cron-3.0pl1.orig/database.c:80-120 | a database that is up to date stays so if and only if the next reload sees what has changed: with unchanged directory times, loading everything gives what it gave before; otherwise, no crontab that is taken for unchanged has changed |
| CronSystem.WhenUpToDate | third-party/cron-3.0pl1.orig/database.c:80-120 | the database is up to date after every reload if and only if each pair of successive states of the disk is such |
| CronSystem.SeenIfStamped | third-party/cron-3.0pl1.orig/database.c:228-236 | with a new directory time and no name twice, the condition is that no usable crontab has name and time of a loaded one and another content |
| CronSystem.StampedIsSeen | third-party/cron-3.0pl1.orig/database.c:80-120 | it holds when directories and crontabs get new times with every change |
| CronSystem.RemovedCrontabStays | third-party/cron-3.0pl1.orig/database.c:80-85 | a system crontab that is removed while the spool directory is newer stays in the database |
| CronSystem.TextIsQueued | third-party/cron-3.0pl1.orig/cron.c:105-197 | if every reload sees what has changed on disk, every line of every usable crontab on disk is queued at a tick exactly when its text names the time of the tick |
| CronSystem.StampedTextIsQueued | third-party/cron-3.0pl1.orig/cron.c:105-197 | so it is if directories and crontabs get new times with every change |
| CronSystem.PlainJobIsQueued | third-party/cron-3.0pl1.orig/cron.c:105-197 | from the schedule to the queue: if every reload sees what has changed on disk, the n-th job of a printed crontab on disk is queued at a tick if and only if its schedule runs at the time of the tick |
| AdCampaign.GetECPM | ad_map.cpp:162-240 | the bid of a group and its next ad, as the accumulating loop finds them |
| AdCampaign.NextAdIsFirstLeast | ad_map.cpp:226-231 | the next ad is the first with the least (shows + 1) / weight |
| AdCampaign.BidderHasAd | ad_map.cpp:187-239 | a group whose bid is not zero has a valid member ad to show, whatever the weights |
| AdCampaign.BidIsMean | ad_map.cpp:217-239 | with positive weights the bid lies within every bound on what its ads would earn |
| AdOutcome.BidInNumbers | ad_map.cpp:187-239 | the bid from what is stored: the sum of earnings times weights over the sum of weights of the valid ads, 0 if that is 0; an unset weight is 1; an ad of fewer than 100 shows earns 1000 show prices and 50 click prices, another 1000 show prices and 1000 click prices times clicks over shows |
| AdOutcome.NextInNumbers | ad_map.cpp:185-231 | the next ad is the first valid one with the least (shows + 1) / weight, or -1 if none is valid |
| AdEligibility.CheckMarketShop | ad_map.cpp:306-344 | the choice by shop, with the list's first sign deciding its direction |
| AdEligibility.ReverseSelection | ad_map.cpp:313-343 | negating a list turns the choice round |
| AdEligibility.PrintedRange | ad_map.cpp:276-304 | a range printed in decimal admits exactly its times, both ends included |
| AdEligibility.StollReads | ad_map.cpp:276-304 | what the reading of a bound makes of any text: blanks, a sign and digits up to the next other character, or a failure |
| AdEligibility.CheckCronTimeSet | ad_map.cpp:242-274 | any record fits, or there is none |
| AdEligibility.CheckIntersection | tair_common.h:339-355 | whether two label sets share a label |
| AdEligibility.CheckEligible | ad_map.cpp:454-479 | all filters together, in the order of the source |
| AdOutcome.EligiblePasses | ad_map.cpp:306-344 | a group may bid if and only if each filter lets the visitor in: a list of shops only those in one of them, a negated list everyone but these, and likewise the valid flag, the range, the hours and the labels |
| StoreKeys.KeysInjective | ad_map.cpp:152-210 | keys of one form are equal only if their numbers are |
| TopAds.Push | ad_map.cpp:487-502 | one step of the shift in the three arrays |
| TopAds.Insert | ad_map.cpp:485-509 | the in-place loop inserts a bid behind its equals and drops the last |
| TopAds.TopGrows | ad_map.cpp:485-509 | after any stream of bids the arrays hold the first n of the ranked positive ones, padded with empties |
| TopAds.RankedIsTheStableSort | ad_map.cpp:487 | the ranking is the one descending order in which equal bids keep their order |
| AdServer.Amount | ad_map.cpp:387-390 | a charge takes the price's absolute value away, whatever its sign |
| AdServer.IntersectionFinds | ad_map.cpp:424-425 | on lists without repetition the merge finds an element exactly when it is in both and the same greater elements stand in its way on both |
| AdServer.IntersectionIsExact | ad_map.cpp:424-425 | on ascending lists the merge gives exactly what is in both |
| AdServer.IntersectionNeedsOrder | ad_map.cpp:424-425 | on two lists in the order of the store, the common group 9 is missed behind 10 |
| AdOutcome.CandidatesAre | ad_map.cpp:412-430 | an unknown visitor is offered the groups of the space, a known user those that the merge finds in the space and the location, on ascending lists exactly those of both |
| AdServer.AdServer.IncreaseAdTime | ad_map.cpp:346-353 | counts one show or one click |
| AdServer.AdServer.Collect | ad_map.cpp:452-510 | the loop over groups fills the board with the top of all offers |
| AdServer.AdServer.Emit | ad_map.cpp:512-525 | shows, counts and charges exactly the winners, up to the first empty place |
| AdServer.AdServer.Bidding | ad_map.cpp:406-537 | one request: the highest positive bids among the eligible candidates, at most n, all counted and charged |
| AdServer.AdServer.AdClick | ad_map.cpp:577-594 | refuses an ad of no group, otherwise counts and charges the click |
| AdRotation.ShownBalanced | ad_map.cpp:226-231 | showing a least shown ad keeps the step invariant s_i w_j <= (s_j + 1) w_i |
| AdRotation.QuotaBounds | ad_map.cpp:226-231 | the step invariant gives both quota bounds, (N + 1) w <= (s + 1) W and s W <= (N + m - 1) w |
| AdRotation.LowerQuota | ad_map.cpp:226-231 | an ad never falls below its quota rounded down |
| AdRuns.Serve | ad_map.cpp:548-594 | the server, call after call, is in the state of the run |
| AdRuns.WinnersAreOffers | ad_map.cpp:512-525 | what is shown is what the groups offered, with positive bids |
| AdOutcome.WinnerPasses | ad_map.cpp:406-525 | what is shown is of a group of the space, for a known user also of the location, that passes every filter, with a positive bid and its next ad, which is a valid member |
| AdOutcome.PassingIsShown | ad_map.cpp:481-525 | nothing better is left out: a candidate that passes with a positive bid is shown, or all places are taken by bids at least as high |
| AdOutcome.RequestCharges | ad_map.cpp:374-404 | a request charges its winners in order, one show each, to the owner of the group and at its show price, and nothing else |
| AdOutcome.TapCharges | ad_map.cpp:577-594 | a click charges one click to the owner of the group of the ad and at its click price; an ad of no group charges nothing |
| AdRuns.CountersAreTheLedger | ad_map.cpp:346-404 | after every run each counter is the number of charges of its kind |
| AdRuns.EveryChargeIsCaused | ad_map.cpp:374-404 | every charge has its call and goes to the owner of the group: a valid member ad of the group that bid, at the group's show price, or the ad that was clicked, at its group's click price |
| AdRuns.RunBalanced | ad_map.cpp:187-231 | the step invariant after every run, whatever other groups, prices, filters and clicks do |
| AdRuns.ShowsAreApportioned | ad_map.cpp:187-231 | proportional rotation by the stored weights over every run: both quota bounds, and never below the rounded quota |
| MacCodec.MacRoundTrip | user_map.cpp:655-680 | number to text to number is the identity on the low 48 bits; the high 16 are what was there before |
| MacCodec.MacPrinted | user_map.cpp:655-668 | the text is the six low bytes, the highest first, as two lower-case digits each, with colons between |
| MacCodec.ScanHexReads | user_map.cpp:670-680 | what one `%hhx` makes of any text |
| MacCodec.CloserRoundTrip | ap_signal_receiver.cpp:58-72 | on a printed message the loop visits exactly its entries, and each MAC reads back |
| Presence.PresenceStore.ShopUserDurationAdd | user_map.cpp:890-902 | one clamped credit to the user, the shop and the mall |
| Presence.PresenceStore.UpdateUserArriveTime | user_map.cpp:734-759 | an arrival is stored exactly after a long gap |
| Presence.PresenceStore.UpdateUserLocationTime | user_map.cpp:761-782 | the last time, and the day's list of devices |
| Presence.PresenceStore.Sight | ap_signal_receiver.cpp:74-84 | all updates of one sighting, in the order of the source |
| Presence.PresenceStore.ParseCloser | ap_signal_receiver.cpp:58-87 | a message makes exactly the updates of its entries, in order |
| Presence.CloserReports | ap_signal_receiver.cpp:58-87 | a printed message of any list of devices reports each of them once and in order, in mall 2 and the shop of the access point, with its user, and as a member by the text of its own entry |
| PresenceRuns.ShopTimeIsSum | user_map.cpp:870-902 | on each date a shop's total is the sum over its users |
| PresenceRuns.MallTimeIsSum | user_map.cpp:870-902 | on each date a mall's total is the sum over its shops |
| PresenceRuns.CreditIsClamp | user_map.cpp:890-893 | the credit is the gap clamped, if and only if the conversion to a C int does no harm, and never more |
| PresenceRuns.UserTimeIsCredited | user_map.cpp:890-902 | over all dates the user holds what the sightings of the device credit, whatever comes between |
| PresenceRuns.CreditedTimeIsCovered | ap_signal_receiver.cpp:76-80 | credited time is at most the number of seconds (from second 1 on) that the windows (t - G, t] cover together, equal to it if and only if no gap overflows, and at most G + (last - first) |
| PresenceRuns.FirstSightingAfter2038 | user_map.cpp:890-893 | from 2038 on a first sighting credits a negative time |
| PresenceRuns.ArrivalIsVisitStart | user_map.cpp:734-759 | the later of the two stored arrivals is the last sighting after a long gap |
| PresenceRuns.LatestArrivalIsVisit | ap_signal_receiver.cpp:78-83 | sessionization: that sighting is the first or follows a long gap, and no long gap has come since |
| PresenceRuns.ArrivalOfKind | user_map.cpp:734-759 | the stored arrival of a member, and apart from it that of any other visitor, is the last sighting of that kind that came after a long gap |
| PresenceRuns.SeenIsLast | user_map.cpp:761-782 | the list of a day's devices holds exactly those sighted, each with its last time |
| PresenceRuns.WhereaboutsAreLast | ap_signal_receiver.cpp:84 | a user is last known to be in the shop of his last sighting of the day |
| StdinTranslation.Split | third-party/cron-3.0pl1.orig/do_command.c:126-144 | ends the command, in place, at the first percent sign after an even number of backslashes |
| StdinTranslation.Translate | third-party/cron-3.0pl1.orig/do_command.c:284-301 | the loop with its two flags writes the translation |
| StdinTranslation.TranslatedIsPieces | third-party/cron-3.0pl1.orig/do_command.c:279-301 | character by character: a backslash directly before a percent sign is dropped, every other percent sign becomes a newline, the rest stays, and a newline is added exactly if the text does not end a line |
| StdinTranslation.NeedsUnlessEnded | third-party/cron-3.0pl1.orig/do_command.c:283-298 | the flag of the loop in characters of the text: its last character that is not a backslash is none, a newline, or a percent sign that becomes one |
| StdinTranslation.LastNewline | third-party/cron-3.0pl1.orig/do_command.c:258-259 | the output ends in a newline if and only if the text does not end in a backslash after a finished line |
| StdinTranslation.NewlineIsForgotten | third-party/cron-3.0pl1.orig/do_command.c:298-301 | a text on which the promised newline is missing |
| StdinTranslation.BackslashViews | third-party/cron-3.0pl1.orig/do_command.c:126-144 | the split ends the command at a percent sign exactly when the translation makes it a newline, if and only if no backslash or an odd number of them stands before it |
| StdinTranslation.TwoBackslashes | third-party/cron-3.0pl1.orig/do_command.c:130-142 | a percent sign that ends the command but would be kept in the input |
| StdinTranslation.TranslationInvertsEscape | third-party/cron-3.0pl1.orig/do_command.c:279-301 | it inverts the escaping exactly on texts with no newline directly after a backslash and a complete last line |

## Left out

- C integer overflow: `atoi` and `i += num3` are unbounded here; a time difference converted to a C int is modelled.
- Characters above 127: `isalnum` is that of the C locale, and plain `char` is taken to be signed.
- CrontabLoader.LoadUser: the list of entries holds them as values, not as linked nodes.
- `sscanf` into `name[MAX_TEMPSTR]` (env.c:130) has no width; the model has no buffer limit there.
- The variable USER, set on BSD only, and `LineNumber`, which only error messages use.
- CronDatabase.LoadDatabase: files on which the loader never ends (a zero step) are excluded; there the daemon would not come back.
- `exit` on a missing spool directory, logging, and the reuse of one `stat` buffer for all files.
- The pointers of queued jobs across a reload: a queued job keeps its user as an identity, although the source may have freed it.
- CronDaemon.Run: a run of as many rounds as there are states of the disk; the global target time is a variable of the main loop, and the casts of time differences to int in `cron_sleep` are not modelled.
- `do_command` beyond the split and the translation: processes, pipes, mail, signals. `JobQueue.Shell` records which commands are started, and in which order.
- Floating-point rounding, and with it ties between bids or ratios that differ by less than rounding; the initial largest double of `get_eCPM` is the absence of a minimum.
- The stored settings are those of one mall and are read once per request; atomicity between separate server processes; a time zone change or a clock tick within a request.
- A stored time record of the wrong size counts as not fitting.
- The text of the charge command and of the reply; `get_ad` beyond the choice of the ad.
- AdRuns.ShowsAreApportioned: for a group whose set of valid ads and weights stay fixed and are not shared with another group; the lists of groups are sorted sets, without repetition.
- Presence.PresenceStore.ParseCloser: messages at least as long as the fixed prefix but one; what the source reads beyond a shorter one is undefined.
- `parse_apmac_msg`, which overwrites the time that it is about to compare with, and the bidding loop of `ad_request.cpp`, which never runs.
- The wrappers of the key-value stores, PostgreSQL, Kafka, FastCGI, memory-mapped files, and the user interface.
