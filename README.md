# mortal-polarity core, modelled in Dafny

mortal-polarity is a Discord bot. It posts Destiny 2 announcements (Xur, the
weekly reset) into channels that subscribed to them. This project models the
sequential logic beneath its Discord and database plumbing, and proves
properties of that model:

- **URL-watched announcements** (`autopost_url.dfy`, module `AutopostUrl`).
  - The settings row is a class, `UrlPostSettings`, with these operations:
    - its constructor;
    - `update_url`, one poll of the redirecting infographic link;
    - `initialise_url_params`;
    - `wait_for_url_update`, the poll-until-changed loop, run over a finite sequence of poll outcomes.
  - The admin commands live on `UrlAutoposts`: `autopost_ctrl`, `gfx_url`, `post_url` and `rectify_announcement`.
  - The correction pass of `rectify_announcement` is a method over the enabled channel records. Its result is the ordered trace of edits, progress reports and the final count.
  - Python's `round` on `20 * (idx + 1) / n` is modelled exactly, with integers and round-half-to-even (`rounding.dfy`).
- **Migration commands** (`migration.dfy`, module `MigrationCommands`).
  - `migrate` and `disable_moved` are loops over an `array` of channel records. They tally each record's outcome and clear `enabled` in place. Each record's REST outcome is a function parameter.
  - `migratability` is a per-table census that aborts on an unexpected REST error.
- **User-defined commands** (`user_commands.dfy`, module `UserCommands`).
  - Class `CommandRegistry` holds:
    - the `commands` table;
    - the in-memory `command_registry` dict, whose insertion order is kept as a sequence;
    - the choice lists of `/delete` and `/edit`;
    - a count of command syncs with Discord.
  - Its methods are add, delete, edit, the choice refresher and startup loading. Each is proved against a function on registry values.
- **Configuration** (`cfg.dfy`, module `Cfg`). This is a derivation from an environment map:
  - the database URL scheme rewrite;
  - the `TEST_ENV` guild list;
  - the debug flag;
  - the required ids, flags and the Sheets private key, each of which stops the import when unset or malformed;
  - the control server id;
  - the port;
  - the bot parameters;
  - the per-announcement default URLs.
- **Permission check** (`custom_checks.dfy`, module `CustomChecks`). A permission mask is the set of its bit positions (0..63). Or, and and not become set union, intersection and complement.
- Shared pieces:
  - `base.dfy`: `Option`, `Result`, the channel record and the `enabled` filter;
  - `text.dfy`: the Python string builtins the core relies on (`lower`, `replace`, `find`, slicing, `split`, `strip`, `int`, `str`).

Discord, HTTP, the database and the clock do not appear. Each result they would deliver (a resolved URL, the current time, a REST outcome, the rows a `select` returns) is a parameter of the operation that uses it.

## Model

| member | source | states |
|---|---|---|
| Base.EnabledOnly | polarity/autopost_url.py:429-441 | the selected records are exactly the enabled ones, and there are no more of them than rows |
| Base.TryMap | polarity/cfg.py:27 | a comprehension that may raise yields one value per input when it succeeds |
| Base.TryMapSpec | polarity/cfg.py:27 | the comprehension succeeds iff every element converts, and then element i is the conversion of input i |
| Base.FirstFailing | polarity/cfg.py:27 | when some element fails, the position where the comprehension raises: an element that fails with every earlier one converting |
| Text.LowerChar | polarity/user_commands.py:66 | `lower()` on one character: the result is never upper case, other characters are unchanged, and A-Z map to a-z |
| Text.Lower | polarity/user_commands.py:66 | `str.lower()`: same length, no upper-case letter left, every character lowered pointwise |
| Text.ReplaceChar | polarity/autopost_url.py:163 | `replace(" ", "_")`: same length, each occurrence replaced and nothing else changed, none left |
| Text.Find | polarity/cfg.py:16 | `find`: -1 or an occurrence, with no occurrence before it |
| Text.FindFrom | polarity/cfg.py:16 | the search from a start index returns the first occurrence at or after it |
| Text.SliceFrom | polarity/cfg.py:17 | `s[i:]` with Python's index rules: a suffix of s, whose length is `len(s) - i` or `-i` for a negative index |
| Text.Split | polarity/cfg.py:27 | `split(",")`: one piece more than there are separators, and no piece contains the separator |
| Text.JoinSplit | polarity/cfg.py:27 | joining the pieces with the separator gives back the string |
| Text.SplitJoin | polarity/cfg.py:27 | splitting a join of separator-free pieces gives back the pieces |
| Text.SplitNoSep | polarity/cfg.py:27 | a string without separator splits into itself alone |
| Text.SplitPrefix | polarity/cfg.py:27 | the piece before the first separator comes first, then the split of the rest |
| Text.StripLeft | polarity/cfg.py:27 | `lstrip()`: the longest suffix whose removed prefix is all whitespace and that starts with non-whitespace |
| Text.StripRight | polarity/cfg.py:27 | `rstrip()`: the mirror image of `lstrip()` |
| Text.Strip | polarity/cfg.py:27 | `strip()`: a slice of the input that neither starts nor ends with whitespace, with only whitespace cut on both sides |
| Text.StripParts | polarity/cfg.py:27 | stripping left then right yields that slice |
| Text.StripNoSpace | polarity/cfg.py:27 | a string without whitespace is its own strip |
| Text.ParseInt | polarity/cfg.py:27 | `int(s)` succeeds iff the stripped text is an optional sign followed by digits; the result is the decimal value of the digits, negated iff the sign is `-` |
| Text.UnescapeNewlines | polarity/cfg.py:70 | `replace("\\n", "\n")`: never longer, and the identity on text without a backslash |
| Text.EscapeNewlines | polarity/cfg.py:70 | the escaping a stored key went through: each newline written as backslash and `n`, leaving no newline |
| Text.UnescapeEscaped | polarity/cfg.py:70 | the replacement turns every escaped newline back into a newline: a backslash-free key that was escaped comes back unchanged |
| Text.UnescapeNewlinesComplete | polarity/cfg.py:70 | no backslash-`n` pair survives the replacement, so replacing twice is replacing once |
| Text.DigitChar | polarity/cfg.py:81 | a digit value renders as the digit character of that value |
| Text.ShowNat | polarity/cfg.py:81 | `str(n)` of a natural number is a non-empty digit string |
| Text.ShowInt | polarity/cfg.py:81 | `str(n)` is non-empty and contains no whitespace |
| Text.ShowNatValue | polarity/cfg.py:81 | the digits of `str(n)` denote n |
| Text.ParseShow | polarity/cfg.py:81 | `int(str(n)) == n` for every integer |
| Text.ParseNonNegative | polarity/cfg.py:81 | the round trip for non-negative integers |
| Text.ParseNegative | polarity/cfg.py:81 | the round trip for negative integers |
| Rounding.RoundHalfEven | polarity/autopost_url.py:463 | `round(a / b)` is within half of `a / b`, and on an exact half it is even |
| Rounding.RoundChoiceNearest | polarity/autopost_url.py:463 | the floor-or-ceiling choice is nearest, and even on a tie |
| Rounding.RoundWhole | polarity/autopost_url.py:463 | a whole quotient rounds to itself, so the last channel gives `round(20) * 5 == 100` |
| Rounding.RoundBounded | polarity/autopost_url.py:463 | a quotient bounded by k rounds to at most k |
| Cfg.GetenvOr | polarity/cfg.py:25 | `getenv(name) or fallback`: the value when set and non-empty, else the fallback |
| Cfg.KeptSuffix | polarity/cfg.py:16-17 | `db_url[db_url.find("://"):]`: the suffix from the first `://`, or the last character when there is none |
| Cfg.RewriteDbUrl | polarity/cfg.py:15-19 | a `postgres` URL becomes `postgresql` plus the kept suffix, with an async `postgresql+asyncpg` twin; any other URL is unchanged |
| Cfg.DbUrlsFrom | polarity/cfg.py:14-19 | an unset `DATABASE_URL` is an error; otherwise the rewrite of its value |
| Cfg.FirstSeparatorAfterScheme | polarity/cfg.py:16 | a scheme without `:` does not move the first `://` |
| Cfg.RewriteIdempotent | polarity/cfg.py:15-19 | rewriting an already rewritten URL changes nothing |
| Cfg.RewriteScheme | polarity/cfg.py:15-19 | `postgres://h/d` becomes `postgresql://h/d` and `postgresql+asyncpg://h/d` |
| Cfg.ParseAll | polarity/cfg.py:27 | the guild list parses iff every piece does, piece by piece in order |
| Cfg.FirstBad | polarity/cfg.py:27 | when the list does not parse, the first piece `int` rejects is named: a rejected piece with only accepted pieces before it |
| Cfg.TestEnvFrom | polarity/cfg.py:25-28 | `False` iff `TEST_ENV` is unset, empty or `false`; otherwise one id per comma-separated piece; it fails iff some piece is not an integer |
| Cfg.RenderEach | polarity/cfg.py:27 | a list of ids rendered piece by piece |
| Cfg.RenderIdsSplit | polarity/cfg.py:27 | splitting a comma-joined id list gives back its pieces |
| Cfg.ParseAllRendered | polarity/cfg.py:27 | the rendered pieces parse back to the ids |
| Cfg.TestEnvRoundTrip | polarity/cfg.py:25-28 | `TEST_ENV` set to a comma-joined id list yields exactly that list |
| Cfg.ShowIntNoComma | polarity/cfg.py:27 | a rendered id holds no comma |
| Cfg.TriggerWithoutUrlUpdate | polarity/cfg.py:29-32 | true iff the variable is set and lowercases to `true` |
| Cfg.ControlServerId | polarity/cfg.py:37-43 | the control id when it is set and non-zero, else the kyber id; an error iff some variable `int` needs is unset or not an integer |
| Cfg.Port | polarity/cfg.py:81 | 5000 when `PORT` is unset or empty, else its integer value or an error |
| Cfg.PortRoundTrip | polarity/cfg.py:81 | `PORT` set to `str(p)` yields p |
| Cfg.LightbulbParamsFor | polarity/cfg.py:59-64 | the token is passed through, and the guild list is passed iff `test_env` is truthy |
| Cfg.GuildsPassedIffTesting | polarity/cfg.py:59-64 | the guilds are passed iff `TEST_ENV` named guilds (a parsed list is never empty) |
| Cfg.Load | polarity/cfg.py:14-81 | importing the module fails iff one of its eleven raising lines raises, and then with the error of the first such line in source order; otherwise the token is `MAIN_TOKEN` and the guilds are passed iff `test_env` names guilds |
| Cfg.FirstErrorFromSpec | polarity/cfg.py:14-81 | no error is reported iff no line from the given one on raises; a reported error is that of a raising line with no raising line before it |
| Cfg.LoadedValues | polarity/cfg.py:14-81 | a loaded configuration holds the rewritten database URL, `test_env`, the debug flag, the integer values of `ADMIN_ROLE`, `ALERTS_CHANNEL_ID` and the three follow channel ids, the control server id, the lowercase test of `DISABLE_BAD_CHANNELS`, the unescaped private key, the port, and the bot parameters built from `MAIN_TOKEN` and `test_env` |
| Cfg.LoadReportsFirstLine | polarity/cfg.py:14-34 | a missing `DATABASE_URL` is reported whatever else is missing; a missing `ADMIN_ROLE` is reported before the server ids are read |
| Cfg.RequiredInt | polarity/cfg.py:34-35 | `int(getenv(name))` succeeds iff the variable is set and is an integer literal, with that value; an unset variable is reported as unset |
| Cfg.DisableBadChannels | polarity/cfg.py:48 | fails iff the variable is unset; otherwise true iff it lowercases to `true` |
| Cfg.SheetsPrivateKey | polarity/cfg.py:70 | fails iff the variable is unset; otherwise its value with escaped newlines restored |
| CustomChecks.Reduce | polarity/custom_checks.py:51 | `reduce(or_, [p1, *ps])`: a bit is set iff it is set in some argument |
| CustomChecks.ReduceIncludes | polarity/custom_checks.py:51 | every argument's bits are in the reduced mask |
| CustomChecks.ReduceLeast | polarity/custom_checks.py:51 | the reduced mask is the least one covering all arguments |
| CustomChecks.ReduceOrder | polarity/custom_checks.py:51 | reordering the arguments does not change the reduced mask |
| CustomChecks.WitnessArgument | polarity/custom_checks.py:51 | each reduced bit comes from some argument |
| CustomChecks.ArgumentIncluded | polarity/custom_checks.py:51 | any argument is contained in the reduction |
| CustomChecks.Missing | polarity/custom_checks.py:23 | `~granted & required` is exactly the required bits not granted: within `required`, disjoint from `granted`, and with the granted part making up `required` |
| CustomChecks.CheckAsWritten | polarity/custom_checks.py:11-29 | as written: outside a guild it fails; with the channel not cached or the member absent the assertion fails; it passes iff the channel is cached, the member is present and all required bits are granted, and otherwise fails with exactly the missing bits |
| CustomChecks.Check | polarity/custom_checks.py:11-29 | corrected: outside a guild it fails; with the member absent the assertion fails; it passes iff the member is present and all required bits are granted, and otherwise fails with exactly the missing bits |
| CustomChecks.UncachedChannelRejected | polarity/custom_checks.py:16-22 | with the channel not cached, the check as written fails even when nothing is required; the corrected check passes |
| CustomChecks.CheckAgreesWhenCached | polarity/custom_checks.py:16-22 | with the channel cached, the two checks agree |
| CustomChecks.HasGuildPermissions | polarity/custom_checks.py:32-52 | the checked mask covers every argument |
| CustomChecks.PassesIffAllGranted | polarity/custom_checks.py:23-29 | the check passes iff in a guild with a member and every argument granted; in a guild with a member and some argument bit not granted it fails for missing permissions, and the missing bits are exactly the argument bits not granted |
| AutopostUrl.Fresh | polarity/autopost_url.py:65-75 | omitted URLs fall back to the defaults, given ones are kept, nothing is polled yet, and the watcher is unarmed |
| AutopostUrl.UpdatedUrl | polarity/autopost_url.py:89-96 | the target becomes the resolved URL and the check time becomes now; the modification time becomes now iff the target moved or had never been set; no other field changes |
| AutopostUrl.Initialised | polarity/autopost_url.py:77-87 | polls only if some URL field is unset, and leaves none unset |
| AutopostUrl.InitialiseIdempotent | polarity/autopost_url.py:82-87 | initialising twice is initialising once |
| AutopostUrl.FirstChange | polarity/autopost_url.py:104-120 | the first resolved poll whose URL differs from the target, if any |
| AutopostUrl.UrlPostSettings.constructor | polarity/autopost_url.py:65-75 | the new row is `Fresh` of the arguments |
| AutopostUrl.UrlPostSettings.UpdateUrl | polarity/autopost_url.py:89-96 | the row becomes `UpdatedUrl` of the old row |
| AutopostUrl.UrlPostSettings.InitialiseUrlParams | polarity/autopost_url.py:77-87 | the row becomes `Initialised` of the old row |
| AutopostUrl.UrlPostSettings.WaitForUrlUpdate | polarity/autopost_url.py:98-121 | it returns iff a poll finds a new target. That poll's URL and time are stored and the watcher disarmed; otherwise the watcher stays armed. Disconnections cost no sleep, the check time is never touched, and the sleeps equal the earlier resolved polls |
| AutopostUrl.FirstChangeAt | polarity/autopost_url.py:114-120 | the change the loop stops at is the first one |
| AutopostUrl.DisconnectsNeverChange | polarity/autopost_url.py:109-113 | dropped connections alone never end the watch and never sleep |
| AutopostUrl.CommandName | polarity/autopost_url.py:163 | `name.lower().replace(" ", "_")`: same length, no space, no upper-case letter, each space becomes `_` and each other character is lowered |
| AutopostUrl.CommandNameIdempotent | polarity/autopost_url.py:163 | a normalised name is its own normal form |
| AutopostUrl.CommandNameExamples | polarity/autopost_url.py:267 | `Xur` becomes `xur`, `Reset` becomes `reset`, and a two-word name such as `Weekly Reset` becomes `weekly_reset` |
| AutopostUrl.EmbedCommandDescription | polarity/autopost_url.py:164-167 | a non-empty description is kept, else `<name> post command` |
| AutopostUrl.Percent | polarity/autopost_url.py:463-464 | `round(20 * done / n) * 5` is a multiple of 5 in [0, 100], and 100 when all channels are done |
| AutopostUrl.RoundedShareBounds | polarity/autopost_url.py:463 | the rounded twentieths stay within 20 and reach 20 at the end |
| AutopostUrl.CorrectionPass | polarity/autopost_url.py:446-470 | the loop's trace of edits, reports and final count equals the correction trace of the records |
| AutopostUrl.SkippedStep | polarity/autopost_url.py:451-453 | the skip counter grows by one exactly for a record without a message |
| AutopostUrl.EditsAppend | polarity/autopost_url.py:455-461 | the edits of a joined trace are the joined edits |
| AutopostUrl.EditsForAppend | polarity/autopost_url.py:451-461 | the edits due and the skips of joined record lists add up |
| AutopostUrl.EditsOne | polarity/autopost_url.py:455-461 | a single action holds one edit or none |
| AutopostUrl.EditsForOne | polarity/autopost_url.py:451-461 | one record is edited iff it has a last message, and skipped otherwise |
| AutopostUrl.StepEdits | polarity/autopost_url.py:451-467 | one iteration edits exactly its record when it has a message, and never reports the end |
| AutopostUrl.LoopEdits | polarity/autopost_url.py:449-467 | the loop edits exactly the records with a message, in order, and never reports the end |
| AutopostUrl.CorrectionEditsAndCount | polarity/autopost_url.py:449-470 | every record with a message is edited in order and no other; the last action, and only it, reports `len - skipped`, which is the number of edits |
| AutopostUrl.EditsForCount | polarity/autopost_url.py:451-470 | edits plus skipped records make up all the records |
| AutopostUrl.StepReports | polarity/autopost_url.py:463-467 | one iteration reports at most once, above the previous report, right after its edit |
| AutopostUrl.LoopReports | polarity/autopost_url.py:449-467 | the loop's reports are multiples of 5 above the starting progress, at most 100, each right after an edit, and strictly increasing |
| AutopostUrl.CorrectionReports | polarity/autopost_url.py:446-470 | over the whole pass, the reports are strictly increasing multiples of 5 in [5, 100], each right after an edit |
| AutopostUrl.LoopReachesHundred | polarity/autopost_url.py:463-467 | when the last record has a message, progress 100 is reached |
| AutopostUrl.CorrectionReachesHundred | polarity/autopost_url.py:463-467 | a pass whose last record has a message reports 100% |
| AutopostUrl.UrlAutoposts.constructor | polarity/autopost_url.py:230-245 | the announcement keeps its defaults and its settings row |
| AutopostUrl.UrlAutoposts.AutopostCtrl | polarity/autopost_url.py:352-364 | autoposting is on iff the option lowercases to `enable`; an absent row is created with that flag; nothing else changes |
| AutopostUrl.UrlAutoposts.GfxUrl | polarity/autopost_url.py:367-390 | without a URL it reports the current one ("unset" when there is no row) and the default, changing nothing. With a URL it stores it lowercased; an absent row is created and initialised |
| AutopostUrl.UrlAutoposts.PostUrl | polarity/autopost_url.py:393-415 | the same for the post link, with no poll |
| AutopostUrl.UrlAutoposts.RectifyAnnouncement | polarity/autopost_url.py:418-470 | without a row it fails. Otherwise the URL is polled twice (by the command, then for the embed) and the correction trace of the enabled records is returned |
| MigrationCommands.AllEnabledMembers | polarity/migration_commands.py:111-125 | the batch holds exactly the enabled rows of the three tables |
| MigrationCommands.CollectBatch | polarity/migration_commands.py:108-125 | the batch is the enabled rows, table by table, and the leaked follow id is the last table's |
| MigrationCommands.MigrateRun | polarity/migration_commands.py:163-204 | one outcome per record, in batch order, together with the channels the loop made follow |
| MigrationCommands.MigrateOutcomeAt | polarity/migration_commands.py:163-204 | outcome i is the verdict on record i, its REST outcome and the channels the earlier records made follow |
| MigrationCommands.MigratedFollowed | polarity/migration_commands.py:179-187 | every migrated record's channel is among the channels the loop made follow |
| MigrationCommands.MigratedOnce | polarity/migration_commands.py:179-187 | a channel enabled in several tables is followed at most once: no two migrated records share a channel |
| MigrationCommands.CountSnoc | polarity/migration_commands.py:191-206 | counting one more outcome adds one exactly when it matches |
| MigrationCommands.CountIsMultiplicity | polarity/migration_commands.py:191-206 | a counter is the number of records with that outcome |
| MigrationCommands.TallyBounded | polarity/migration_commands.py:164-206 | the six counters add up to at most `iterations` |
| MigrationCommands.Migrate | polarity/migration_commands.py:163-206 | the counters are the tally of the batch's outcomes, each record judged after the follows made for earlier records; each record is disabled iff it was migrated and `disable_moved` is set, and is otherwise unchanged |
| MigrationCommands.MigrateCommand | polarity/migration_commands.py:104-206 | `migrate` over the collected batch: `iterations` is the batch size, every record is judged against the last table's follow id, and each returned record is the collected one, disabled iff migrated under `disable_moved` |
| MigrationCommands.KyberNeverMigrated | polarity/migration_commands.py:172-173 | a record on the kyber server is never migrated or altered |
| MigrationCommands.NegativeFollowMigratesNothing | polarity/migration_commands.py:175-178 | with following disabled nothing migrates, and the only errors counted are channel-fetch errors |
| MigrationCommands.KeepWhenNotDisabling | polarity/migration_commands.py:188-189 | without `disable_moved` no record changes, and with it only migrated enabled records do |
| MigrationCommands.DisableOutcomes | polarity/migration_commands.py:289-315 | one outcome per record |
| MigrationCommands.DisableOutcomeAt | polarity/migration_commands.py:289-315 | outcome i is the verdict on record i |
| MigrationCommands.DisableMovedChannels | polarity/migration_commands.py:289-317 | `iterations` is the batch size and `disabled` counts the records already following. A dry run changes no record; otherwise exactly those records are disabled |
| MigrationCommands.DisablePointwise | polarity/migration_commands.py:289-317 | outcomes gathered record by record are the specified outcomes |
| MigrationCommands.DisableMovedCommand | polarity/migration_commands.py:243-317 | `disable_moved` over the collected batch, judged against the last table's follow id; a dry run returns the batch unchanged |
| MigrationCommands.DisableSparesKyber | polarity/migration_commands.py:295-301 | kyber-server records, and every record when following is disabled, are never counted as disabled |
| MigrationCommands.CensusSpec | polarity/migration_commands.py:52-79 | the census aborts iff some channel aborts, with the first one's error. Otherwise each count is the number of channels in that class, and together they stay within the channels seen |
| MigrationCommands.CensusStep | polarity/migration_commands.py:56-79 | one more channel is one more tick |
| MigrationCommands.Ids | polarity/migration_commands.py:49 | the ids of the records, in order |
| MigrationCommands.TableCensus | polarity/migration_commands.py:52-79 | the loop over one table's ids computes its census |
| MigrationCommands.AbortStaysAborted | polarity/migration_commands.py:58-79 | once a channel aborts, later channels change nothing |
| MigrationCommands.Migratability | polarity/migration_commands.py:25-92 | one census per table in order, or the error of the first table that aborts |
| MigrationCommands.CensusBounded | polarity/migration_commands.py:43-90 | the total is the number of enabled records, and migratable, not applicable and not found add up to at most it |
| UserCommands.Remove | polarity/user_commands.py:121 | popping a key from the insertion order keeps every other key and drops that one |
| UserCommands.RemoveAt | polarity/user_commands.py:121 | in an order without duplicates, popping a key cuts out its one position and keeps the others in order |
| UserCommands.RemoveNoDups | polarity/user_commands.py:121 | popping keeps the keys distinct |
| UserCommands.RemoveLast | polarity/user_commands.py:204-206 | popping a key just inserted restores the previous order |
| UserCommands.RemoveAbsent | polarity/user_commands.py:121-123 | popping an absent key changes nothing |
| UserCommands.PutConsistent | polarity/user_commands.py:90 | `command_registry[k] = v` adds k to the keys, keeping them in insertion order and distinct |
| UserCommands.PopConsistent | polarity/user_commands.py:121 | `command_registry.pop(k)` removes k from the keys and cuts its one place out of the insertion order, the other keys keeping their order; popping an absent key changes nothing |
| UserCommands.ChoicesAreKeys | polarity/user_commands.py:253-258 | after a refresh the delete and edit choices both list every registry key exactly once, and a sync is counted iff requested |
| UserCommands.AddSpec | polarity/user_commands.py:65-95 | the name is lowercased. A reserved or stored name leaves everything unchanged. Otherwise exactly that key is added to the table and to the registry, last in order, both choice lists are refreshed to the keys and synced, and the registry still mirrors the table |
| UserCommands.DeleteSpec | polarity/user_commands.py:115-130 | an unknown name changes nothing but the refresh. A known one is removed from the registry, its order and the table, and nothing else is touched; both choice lists become the remaining keys and the registry still mirrors the table |
| UserCommands.AddThenDelete | polarity/user_commands.py:65-130 | adding a new command and deleting it again restores the table, the registry and its order |
| UserCommands.RenameStepSpec | polarity/user_commands.py:193-207 | renaming moves the row and the registry entry to the new key, last in order |
| UserCommands.DescriptionStepSpec | polarity/user_commands.py:212-225 | a new description updates the row and re-registers the command, last in order |
| UserCommands.ReplacedValid | polarity/user_commands.py:193-225 | replacing one row by its edited form, under a free or equal key, keeps the registry mirroring the table |
| UserCommands.EditSpec | polarity/user_commands.py:168-238 | an unknown name aborts, and nothing given reports the current values; both change nothing. A rename onto another stored name is refused. Otherwise the row is replaced by its edited form in the table and the registry, a refresh of both choice lists and a sync happen iff name or description changed, and the registry still mirrors the table |
| UserCommands.EditChanges | polarity/user_commands.py:192-238 | an accepted edit replies `Command updated`, replaces exactly the edited row, and refreshes both choice lists |
| UserCommands.EditStepsSpec | polarity/user_commands.py:193-225 | the three edit steps in order replace the row, and re-register it iff it was renamed or re-described |
| UserCommands.EditStepsRenamed | polarity/user_commands.py:193-225 | the steps when the name is given |
| UserCommands.EditStepsKept | polarity/user_commands.py:208-225 | the steps when the name is not given |
| UserCommands.UnguardedRenameDesyncs | polarity/user_commands.py:193-207 | as written, renaming onto another stored name leaves the old row without a command, and gives the other row's command the renamed row's description |
| UserCommands.Names | polarity/user_commands.py:269-270 | the names of the selected rows, in order |
| UserCommands.LoadedKeys | polarity/user_commands.py:269-272 | loading keeps the keys in order and distinct, and adds exactly the row names |
| UserCommands.LoadedValues | polarity/user_commands.py:269-272 | each loaded command is the slash form of its table row |
| UserCommands.StartupMirrorsTable | polarity/user_commands.py:261-277 | after startup the registry holds exactly the table's names, each as its row's slash command; the choices are refreshed without a sync |
| UserCommands.CommandRegistry.constructor | polarity/user_commands.py:21 | the registry starts empty beside the given table |
| UserCommands.CommandRegistry.SetItem | polarity/user_commands.py:90 | the state becomes `Put` of the old state |
| UserCommands.CommandRegistry.PopItem | polarity/user_commands.py:121-123 | it returns the popped entry, or none for an absent key, and the state becomes `Pop` of the old state |
| UserCommands.CommandRegistry.CommandOptionsUpdater | polarity/user_commands.py:253-258 | the state becomes the refreshed old state |
| UserCommands.CommandRegistry.AddCommand | polarity/user_commands.py:65-95 | state and reply are `AfterAdd` of the old state |
| UserCommands.CommandRegistry.DelCommand | polarity/user_commands.py:115-130 | state and reply are `AfterDelete` of the old state |
| UserCommands.CommandRegistry.RenameCommand | polarity/user_commands.py:193-207 | the state becomes `RenameStep` of the old state |
| UserCommands.CommandRegistry.DescribeCommand | polarity/user_commands.py:212-225 | the state becomes `DescriptionStep` of the old state |
| UserCommands.CommandRegistry.EditCommand | polarity/user_commands.py:168-238 | state and reply are `AfterEdit` of the old state |
| UserCommands.CommandRegistry.RegisterCommandsOnStartup | polarity/user_commands.py:261-277 | the state becomes `AfterStartup` of the old state and the selected rows |

## Left out

- Discord calls are left out: responses, embeds, `bot.command`/`bot.remove_command`, channel follows, webhooks and `toolbox.calculate_permissions`. The outcomes the model reads (fetched channels, follows, webhooks, permissions) are parameters; registration and responses are assumed to succeed.
- The `user_command` handler's link substitution (polarity/user_commands.py:307-326) is left out. It needs a URL regex and `str.format` brace semantics, neither of which is part of this model.
- `get_announce_embed` (polarity/autopost_url.py:123-149) needs calendar month names, `strftime` and validity-period functions that are not part of this model. The embed is left out, and only the poll it makes is kept.
- `embed_command_impl`, `register_embed_user_cmd`, `register`, `commands` and `manual_announce` of `autopost_url.py` are left out. They only wire commands into Discord. The name and description they compute are `CommandName` and `EmbedCommandDescription`.
- `BaseUrlSignal` (polarity/autopost_url.py:180-226) and the scheduler are left out. Event dispatch is Discord plumbing.
- The progress condition `iterations % round(10 / rate)` in `migrate` and `disable_moved` (polarity/migration_commands.py:207-208, 318-319) depends on the wall clock and floats, and only decides when the progress embed is refreshed. It is left out. When `round(10 / rate)` is 0 the modulo raises inside `finally` and aborts the batch; the model does not capture that abort.
- `asyncio.sleep` in the watcher is counted (`sleeps`) but takes no time.
- `wait_for_url_update` polls forever until the target changes. The model runs it over a finite sequence of polls and reports whether a change was seen.
- Database sessions, transactions and where commits happen are left out. The table is a map that changes when the source adds or deletes a row.
- The race on `url_watcher_armed` between concurrent watchers is left out, because the model is sequential.
- `RefreshCmdListEvent` is dispatched asynchronously. The model refreshes the choices immediately, as `command_options_updater` would on receiving the event.
- The `select` that loads the commands table at startup is the `rows` parameter. `StartupMirrorsTable` requires it to list each table row once (`SelectsTable`).
- The `/lstoday`, `on_error` and `register` handlers of `user_commands.py` are I/O only, and are left out.
- These files are not part of this model: `reset_signaller.py`, `main.py`, `controller.py`, `delete_commands.py`, `weekly_reset.py`, `xur.py` and the alembic revisions. The announcement names `Xur` and `Reset` appear as examples for `CommandName`, beside an illustrative two-word name.
- The cfg.py values that cannot stop the import are left out: `repeater_token`, `db_session_kwargs`, the migration strings and Twitter credentials (`str(getenv(...))` turns an unset variable into `"None"`), the Sheets fields other than the private key, `sheets_ls_url` and `kyber_pink` (polarity/cfg.py:9, 22, 45-47, 54-57, 66-79, 83). No modelled operation reads them. The follow channel ids enter the migration model as the tables' `followChannel`.
- Cfg.RequiredInt: Python raises `TypeError` for `int(None)`, and `AttributeError` for `None.lower()` or `None.replace` in `DisableBadChannels` and `SheetsPrivateKey`. The model reports all three as `Unset` of the variable and does not tell the exception types apart.
- Text.LowerChar: lowercases ASCII letters only; Python's `str.lower` also maps other scripts. This does not affect the comparisons with `enable` and `true`. It may affect names with non-ASCII capitals.
- Text.ParseInt: accepts an optional sign and ASCII digits. Python's `int` also accepts `_` between digits and non-ASCII decimal digits; those inputs are rejected here.
- AutopostUrl.Percent: Python computes `20 * (idx + 1) / n` in floating point before rounding. The model rounds the exact rational quotient.
- AutopostUrl.UrlAutoposts.RectifyAnnouncement: without a settings row the source replies, then fails on `None` while building the embed. The model returns an error, and the half-finished reply is left out.
- UserCommands.CommandRegistry.EditCommand: requires the registry to mirror the table (`Valid`), which startup and every command keep (`StartupMirrorsTable`, `AddSpec`, `DeleteSpec`, `EditSpec`). The lookup by name, which raises when the name is unknown, is modelled as the reply `Aborted`.
- UserCommands.AddSpec: the reserved names are the hard-coded `add`, `edit` and `delete` plus the stored rows. The name of a built-in command (`xur`, `reset`, `lstoday`) passes that test, and for a rename so do `add`, `edit` and `delete`, since `AfterEdit` refuses only stored names; the source then writes `command_registry` before `bot.command` raises because the name is taken (polarity/user_commands.py:90-91). The exception rolls back the new table row, but the registry keeps an entry for a command that neither Discord nor the table has. The model replies `Added` and leaves that failure out, since `bot.command` is not modelled. The same holds for `CommandRegistry.AddCommand`, for a rename onto such a name in `edit_command` (polarity/user_commands.py:207) and for startup loading.
- UserCommands.AfterEdit: a rename onto another stored name is refused with no change (see Findings). The source as written is `AfterEditAsWritten`.
- CustomChecks.Check: a permission mask is modelled as a set of bit positions, not a 64-bit integer. `~granted & required` is set difference, and the other bits of the complement do not matter.

## Findings

| source | as written | input that shows it | evidently intended | confidence | as-written member | corrected member |
|---|---|---|---|---|---|---|
| polarity/custom_checks.py:16-22 | when the channel is not in the context's cache, it is fetched but the result is discarded; `channel` stays `None` and the assertion fails | a guild invocation whose channel is not cached, requiring no permissions: the check fails on the assertion instead of passing | assign the fetched channel and go on to the permission test | high, not executed | CustomChecks.UncachedChannelRejected | CustomChecks.Check |
| polarity/user_commands.py:193-207 | a rename onto a name another stored command already has is not checked. The registry entry of the old name is popped and the other command's entry overwritten before the table write fails | commands `a` and `b` stored, then `/edit name:a new_name:b` | reject a new name that is already in use, as `add_command` does | medium, not executed | UserCommands.UnguardedRenameDesyncs | UserCommands.EditSpec |
