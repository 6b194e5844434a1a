# MySQL backup script — a Dafny model

This project models `backup.rb`, a command-line script that backs up MySQL databases.

The script reads its options and refuses two inconsistent combinations. It then fixes a date-partitioned target directory and a timestamp stem from a single clock reading. Finally it runs a pipeline of shell commands:

- `mysqldump`, redirected into a file whose name is built from the options;
- `lzma`, which compresses that file;
- when a passphrase is set, `openssl enc -bf-cbc -salt`, which encrypts the compressed file and then removes it.

In dry-run mode every command is still built and every file name is still handed on, but nothing is executed or removed.

The model is made of pure functions over immutable data:

- `Config`: the options record, its defaults, and the two start-up checks as a `Result`.
- `Decimal` and `Planner`: zero-padded `strftime` fields, the directory, the stem, and a parser that reads the stem back. Also the `check_directories` fallback.
- `Text`: `Array#join`, a character split that inverts it, and `gsub` of one character.
- `Commands`: each command is a list of tagged words (`Arg`). `Render` gives the exact text the script writes for each word. `CommandLine` joins the rendered words with single spaces. Effects are `Exec(command)` for `system` and `Delete(path)` for `FileUtils.rm_rf`.
- `Stages`: the skip-table clause, the dump file name (tagged `Segment`s joined with `_`), and the three stages. Each stage returns a `Step`: the file it consumed, its words, the file it produced, and its effects.
- `Backup`: validation, the run context, the pipeline, and properties of whole runs. These properties cover chaining, the final name, the effects of live and dry runs, which files are removed, and options that have no effect.

Behaviours of the script worth knowing, all kept in the model:

- `encrypt_file` removes its input only when not in dry run (backup.rb:147), so a dry run removes nothing (`Backup.DryRunQuiet`, `Backup.Removals`).
- Giving both `--database` and `--all` is accepted (backup.rb:36). The dump then scopes with `--all-databases`, and the file name carries both `all` and the database name (`Config.ValidateExamples`, `Stages.AllSegment`, `Stages.DatabaseSegment`, `Stages.DumpScopeWord`).
- The refusals end the script with a bare `exit` (backup.rb:38, 43), which reports success to the caller. The model returns an `Err` value and does not model exit statuses.
- Name segments are pushed even when their text is empty. The head `<data_dir>/<append_name>` is always pushed (backup.rb:115), so an empty append name gives `/_` in the name. The options segment is pushed whenever dump options are set (backup.rb:118), even when removing dashes leaves nothing, which gives `__` in the name (`Stages.SegmentTextEmpty`).
- `check_directories` (backup.rb:88-96) is defined but never called, so the target directory is not created by the script.

## Model

| member | source | states |
|---|---|---|
| Config.Validate | backup.rb:36-44 | Options are accepted exactly when a database or `--all` is given and skipped tables come with a database. Accepted options pass through unchanged. The first failing check decides the error: missing database and `--all` is reported even when tables are also skipped. |
| Config.ValidateExamples | backup.rb:36-44 | The defaults are refused. Database plus skipped tables is accepted, and so are database plus `--all`. `--all` with skipped tables and no database is refused with the skip-tables error. |
| Config.AcceptedSkipHasDatabase | backup.rb:41-44 | In accepted options, skipped tables imply a named database. No database implies `--all` and no skipped tables. |
| Stages.SkipClause | backup.rb:52-60 | The skip clause is empty exactly when there are no tables to skip. |
| Stages.SkipClauseEnds | backup.rb:54-57 | A non-empty clause starts with the first table's `--ignore-table=<db>.<table>` flag and ends with the last table's. |
| Stages.SkipClauseFlags | backup.rb:52-57 | When no name contains a space, splitting the clause at spaces gives back exactly one flag per table, in order. |
| Text.JoinCons | backup.rb:57 | Joining a first part in front of a non-empty list gives that part, the separator, then the join of the rest. |
| Text.JoinEnds | backup.rb:121 | A join starts with its first part and ends with its last, each next to a separator when there are more parts. |
| Text.JoinFront | backup.rb:126 | A join of three or more parts opens with the first two parts, each followed by the separator. |
| Text.JoinBack | backup.rb:126 | A join of three or more parts closes with the last two parts, each preceded by the separator. |
| Text.JoinEmptyIff | backup.rb:57 | With a non-empty separator, a join is empty exactly when it has no parts or a single empty part. |
| Text.SplitJoin | backup.rb:57 | Splitting at a character undoes joining with that character, when no part contains it. |
| Text.StripChar | backup.rb:118 | `gsub` of one character leaves a string without it. Every other character keeps its count, and the result is no longer than the input. |
| Text.StripCharOne | backup.rb:118 | One character is dropped when it is the removed character and kept otherwise. |
| Text.StripCharAppend | backup.rb:118 | Stripping a concatenation strips each piece and keeps the pieces in order. With `Text.StripCharOne` this fixes the result of every string, so kept characters stay in their original order. |
| Text.StripCharEmpty | backup.rb:118 | Stripping leaves nothing exactly when every character is the removed one. |
| Text.StripCharIdempotent | backup.rb:118 | Stripping a character twice is the same as stripping it once. |
| Decimal.Pad2 | backup.rb:62-63 | Two-digit padding yields two digits that read back as the number. |
| Decimal.Pad4 | backup.rb:62-63 | Four-digit padding yields four digits that read back as the number. |
| Decimal.Pad2Value | backup.rb:62-63 | Every two-digit field is the padding of its own value, so padding is onto two-digit strings. |
| Decimal.Pad4Value | backup.rb:62-63 | Every four-digit field is the padding of its own value. |
| Planner.Stem | backup.rb:63 | The stem has 15 characters: eight digits, an underscore, then six digits. |
| Planner.ParseStem | backup.rb:63 | A string parses exactly when it has the stem's shape. The script has no such reader; it exists only to state that the stem rendering loses nothing. |
| Planner.ParseOfStem | backup.rb:63 | Parsing a timestamp's stem returns that timestamp. |
| Planner.StemOfParse | backup.rb:63 | A string that parses to a valid timestamp is that timestamp's stem, so the stem rendering is injective. |
| Planner.DataDir | backup.rb:62 | The directory is `<destination>/backup/mysql/<Y>/<m>/<d>`. Its year, month and day are the first eight characters of the same reading's stem. |
| Planner.PlanExample | backup.rb:62-63 | 2024-03-07 10:15:30 under `/backup` gives `/backup/backup/mysql/2024/03/07` and stem `20240307_101530`. |
| Planner.CheckDirectories | backup.rb:88-96 | The planned directory is kept exactly when it could be created. Otherwise the result is exactly `/tmp/` followed by the path: it starts with `/tmp/`, ends with the path, and is five characters longer. |
| Stages.DumpArgsEnds | backup.rb:100-112 | The dump command starts with `nice -n <level>` and `mysqldump`, and ends with the scope, `>` and the dump file. |
| Commands.RenderReadsBack | backup.rb:102-105 | Every word carries its value verbatim after its fixed lead-in (`nice -n `, `-u`, `-p`, `-`, `pass:`, or surrounding double quotes), so the value reads back from the rendered text. |
| Stages.DumpLine | backup.rb:124-126 | The rendered dump command (`DumpArgs` through `CommandLine`) starts with `nice -n <nice> mysqldump ` and ends with ` > <file>`. |
| Stages.DumpArgsOrdered | backup.rb:101-125 | The dump words follow the order the script pushes them, so no role appears twice. |
| Stages.DumpUsernameWord | backup.rb:104 | `-u<user>` appears exactly when a username is set, and carries that username. |
| Stages.DumpPasswordWord | backup.rb:105 | `-p<password>` appears exactly when a password is set, and carries that password. |
| Stages.DumpOptionsWord | backup.rb:106 | The extra dump options appear verbatim exactly when they are set. |
| Stages.DumpIgnoreWord | backup.rb:107 | The skip clause appears exactly when tables are skipped. |
| Stages.DumpScopeWord | backup.rb:108-112 | `--all-databases` appears exactly when `all` is set. Otherwise the scope is the database name, and only one scope word appears. |
| Stages.DumpSegments | backup.rb:114-120 | The file name's segments start with `<data_dir>/<append_name>` and end with `<stem>.sql`. |
| Stages.SegmentTextEmpty | backup.rb:115-120 | A name segment's text is empty exactly when it is an empty database name or dump options made only of dashes. The head keeps its slash and the stamp keeps `.sql`. |
| Stages.AllSegment | backup.rb:116 | The name has an `all` segment exactly when `all` is set. |
| Stages.DatabaseSegment | backup.rb:117 | The database name is a segment exactly when a database is given. |
| Stages.OptionsSegment | backup.rb:118 | The dump options are a segment exactly when set, and that segment's text contains no dash. |
| Stages.SkippedSegment | backup.rb:119 | The skipped tables are a segment exactly when there are any, with text `no_<t1>_<t2>…`. |
| Stages.SkippedSegmentTables | backup.rb:119 | The skip segment starts with `no_`. When no table name contains an underscore, splitting the rest at underscores gives back the tables. |
| Stages.DumpSegmentsOrdered | backup.rb:114-120 | The name segments follow the order the script pushes them. |
| Stages.DumpNameEnds | backup.rb:114-121 | The dump file name starts with `<data_dir>/<append_name>` and ends with `_<stem>.sql`. |
| Backup.DumpNameTimestamp | backup.rb:120-121 | The dump name (`DumpName`) ends with the run's stem and `.sql`, so the run's clock reading parses back from the characters before `.sql`. |
| Stages.ShopNightlyName | backup.rb:114-121 | Database `shop`, append name `nightly` and skipped table `orders` give `<dir>/nightly_shop_no_orders_<stem>.sql`. |
| Stages.Dump | backup.rb:100-130 | The dump consumes nothing and returns the built name. Its command writes to that name. It runs that command exactly when not in dry run. |
| Stages.Compress | backup.rb:133-139 | Compressing `f` consumes `f` and returns `f.lzma`. It runs the command exactly when not in dry run. |
| Stages.CompressCommand | backup.rb:135 | The rendered compress command is `nice -n <nice> lzma -<level> -z <file>`, ending in a space and the file name. |
| Stages.Encrypt | backup.rb:142-149 | Encrypting `f` consumes `f` and returns `f.enc`. When not in dry run it runs the command, then removes `f`. In dry run it does neither. |
| Stages.EncryptCommand | backup.rb:144 | The command reads the quoted input and writes the quoted name the stage returns. The rendered text is the script's `openssl enc -bf-cbc -salt` string. |
| Stages.StagesIgnoreLogging | backup.rb:100-149 | Names and commands do not depend on verbosity, on the custom SQL text, or on dry run. |
| Backup.Context | backup.rb:62-63 | The directory and the stem come from one clock reading, and the stem reads back as that reading. |
| Backup.Pipeline | backup.rb:151-155 | A run is a chain of three stages when a passphrase is set and two otherwise. Each stage consumes what the previous one produced. The last stage's output is the result. |
| Backup.Backup | backup.rb:151-155 | The script is refused exactly when the options are unacceptable, with the validation error. Otherwise the run is exactly the pipeline on the directory and stem of the given clock reading: the stem parses back to that reading, the stages form a chain, and the run leaves the dump name plus `.lzma`, plus `.enc` when encrypting. So every property proved of `Pipeline` holds for the script's runs. |
| Backup.FinalName | backup.rb:151-155 | The result is the dump name plus `.lzma`. It ends there exactly when no passphrase is set, and otherwise `.enc` follows. |
| Backup.EffectsAppend | backup.rb:151-155 | The effects of stages run one after another are their effects in the same order, with nothing added or dropped. |
| Backup.EffectsOfRun | backup.rb:151-155 | The effects of a two- or three-stage run are the stages' own effects in stage order. |
| Backup.DryRunQuiet | backup.rb:128-147 | A dry run executes no command and removes no file. |
| Backup.LiveEffects | backup.rb:128-155 | A live run executes each stage's command once, in order. When encrypting, it then removes the compressed file. |
| Backup.Removals | backup.rb:147-155 | A run removes exactly the compressed dump when it is live and encrypting, and nothing otherwise. |
| Backup.FinalSurvives | backup.rb:147-155 | The file a run leaves behind is never one it removes. |
| Backup.StagesDry | backup.rb:128-147 | Each stage in dry run equals the live stage with its effects removed. |
| Backup.DryRunIsSilenced | backup.rb:128-147 | A dry run equals the live run with every effect removed. Commands, intermediate names and the final name are the same. |
| Backup.InertOptions | backup.rb:46-50 | Changing verbosity or the custom SQL text does not change the run. |

## Left out

- Option parsing with micro-optparse (backup.rb:7, 16-33) is not modelled. The model starts from a parsed `Options` record with the declared defaults, and `--help`, `--version` and parse errors are out of scope.
- The Ruby 1.8 compatibility requires (backup.rb:3-6) have no behaviour to model.
- `Time.now` (backup.rb:14) is a parameter: the run takes a `Timestamp` whose ranges are those of a local clock reading. Years from 0 to 9999 are covered, with `%Y` zero-padded to four digits. Negative years and years from 10000 up are excluded, because for them `%Y` no longer prints exactly four digits and the stem loses its fixed shape.
- `system`, `FileUtils.rm_rf` and `FileUtils.mkdir_p` are not performed. They are recorded as `Exec` and `Delete` effects, and `check_directories` receives whether the directory could be created as a parameter.
- Commands' exit statuses are ignored by the script and are not modelled. The file-system consequences of the tools are not tracked either, for example that `lzma -z` replaces its input with the `.lzma` file.
- Every `puts` (backup.rb:37, 42, 66-82, 92-93, 123, 127, 134, 136, 143, 145) is console logging and is left out. `Backup.InertOptions` states that verbosity changes nothing else. Line 143 prints even when not verbose.
- The script `exit`s with a success status after printing an error (backup.rb:38, 43). This is modelled as an `Err` result; exit statuses are not modelled.
- `check_directories` (backup.rb:88-96) is defined but never called by the script. It is modelled alone, and the pipeline uses the planned directory.
- Shell quoting is not modelled. The command is the text handed to the shell, and how the shell splits it into arguments is out of scope, so `Stages.SkipClauseFlags` and `Stages.SkippedSegmentTables` assume names without spaces or underscores.
