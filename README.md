# gpg key reconciliation, modelled in Dafny

Two Ansible modules drive the `gpg` command line to bring one key into a
declared state:

- `gpg_import` checks whether the key is in the keyring. It then deletes it
  (`state=absent`), refreshes it from the key servers (`latest`/`refreshed`),
  or receives it from them (`present`/`latest`/`refreshed` when missing).
- `gpg_keys_mod` checks for the key and then refreshes it (`refresh=true`),
  deletes it (`delete=true`), or receives it when it is missing. It supports
  check mode.

Both modules share the same small engine:

- A server-URL normaliser gives bare host names an `hkp://` prefix.
- Command templates are filled in two stages with Python's `%` operator:
  - the binary path first (and, in `gpg_import`, the dry-run flag and the key id);
  - then, for each attempt, the server and either the timeout (`gpg_import`)
    or the key id (`gpg_keys_mod`); `gpg_keys_mod`'s `check` and `delete`
    get the key id alone at that point.
- A retry loop runs over tries, and over the servers inside each try. It
  stops at the first answer with `rc == 0`.
- An attempt trace maps each command to its ordered list of
  `{rc, stdout, stderr}` records and a count.

The model is in four modules:

- `PyFormat` (pyformat.dfy): the `%` operator on strings for `%s`, `%d`
  and `%%`, with its error cases.
- `Gpg` (gpg.dfy): what both modules share.
  - The four commands, the runner, and the trace with its `Logged` update.
  - URL normalisation.
  - The order of the retry grid (`Rounds`) and its stopping rule.
- `GpgImport` (gpg_import.dfy): the `GpgImport` class and `main`.
- `GpgKeysMod` (gpg_keys_mod.dfy): the `GpgKeysMod` class and `main`.

The runner (`module.run_command`) is an oracle `respond: nat -> Record`:
the `n`-th command it is given gets answer `respond(n)`, and the runner
records every command line it receives.

Each class keeps the source's mutable fields, plus a count of `sleep`
calls: `commands`, `log_dic`, `urls` and `changed` in `GpgImport`;
`commands`, `c_results` and `urls` in `GpgKeysMod`, where `changed` is a
local of `main`. The methods update those fields in place. Each method is proved against a
function on values:

- `Repeat` runs the retry loop over the answers.
- `Task` (for `gpg_import`) and `Module` (for both) run the whole module.
- These are written as `Attempt`/`Step` recursions over the grid of
  attempts.

The properties of the modules are proved about those functions.
`GpgImport.Repeat` is also shown equal to an independent specification,
`RepeatSpec`. That specification takes the first successful answer (by
`RetrySpec`) and fills every URL of the grid.

Two behaviours of the code are modelled as written:

- In `gpg_import`, a refresh that exhausts every attempt returns
  `{'rc': 8888}` without a `stderr` key. The marker search then raises
  `KeyError`, before the failure check can report the trace
  (`ExhaustedRefreshRaises`).
- In `gpg_keys_mod`, `repeat_command` falls off its end and returns `None`
  when every attempt failed. It also sleeps after a successful attempt
  (`GpgKeysMod.RepeatFacts`).

## Model

| member | source | states |
|---|---|---|
| PyFormat.Format | gpg_import.py:116-125 | definition of `template % args` for `%s`, `%d` and `%%`: text without `%` is copied, `%%` gives `%`, `%s` renders the next argument, `%d` the next int; too few or too many arguments, a trailing `%`, `%d` of a string or another conversion raise (`None`) |
| PyFormat.Decimal | gpg_import.py:124-125 | `%d` renders an int as a non-empty text without `%` |
| PyFormat.FormatText | gpg_import.py:116 | text without `%` is copied through and consumes no argument |
| PyFormat.FormatEscape | gpg_import.py:110-111 | `%%` stands for one `%` and consumes no argument |
| PyFormat.FormatStr | gpg_import.py:116 | `%s` renders the next argument, whatever its kind |
| PyFormat.FormatInt | gpg_import.py:124-125 | `%d` renders the next argument when it is an int |
| PyFormat.FormatKinds | gpg_import.py:124-125 | whether `%` succeeds depends only on the template and the kinds of the arguments, never on their values |
| Gpg.Runner.Run | gpg_import.py:125 | each command run is recorded in order and gets the oracle's next answer |
| Gpg.Logged | gpg_import.py:138-143 | definition of one `_legiblify` / `_to_c_results` update: the section of `sec` (created empty if missing) gets the record appended to `tries` and `num_tries` raised by one |
| Gpg.LoggedAll | gpg_keys_mod.py:47-50 | definition of those updates for a list of records under one section, in order; the trace is unchanged for none |
| Gpg.LoggedFacts | gpg_import.py:136-144 | recording one answer appends it to its section only (creating the section if missing), leaves other sections unchanged and keeps `num_tries == len(tries)` |
| Gpg.LoggedAllFacts | gpg_import.py:141-143 | recording several answers appends them all in order to one section, leaves the others unchanged and keeps every count in step |
| Gpg.LoggedAllStep | gpg_import.py:141-143 | recording a list of answers is recording them one at a time |
| Gpg.HasScheme | gpg_import.py:117 | definition of `re.match('hkps?://', s)`: `s` starts with `hkp://` or `hkps://` |
| Gpg.NormaliseUrl | gpg_import.py:117-118 | the result always has a scheme; the two case clauses (a server starting with `hkp://` or `hkps://` is kept, any other gets the `hkp://` prefix) are shape facts read off the definition |
| Gpg.Normalise | gpg_import.py:117-119 | the URL list has the servers' length and order, each entry normalised |
| Gpg.NormaliseIdempotent | gpg_import.py:117-119 | normalising an already normalised list changes nothing |
| Gpg.NormaliseConcat | gpg_import.py:117-119 | normalisation works entry by entry: it distributes over concatenation |
| Gpg.Rounds | gpg_import.py:122-123 | definition of the URL of every attempt of `for n in range(tries): for u in urls`, in order: `urls` repeated `tries` times, nothing for `tries <= 0` |
| Gpg.RoundsLength | gpg_import.py:122-123 | the nested loops make `tries * len(urls)` attempts, none when `tries <= 0` |
| Gpg.RoundsOrder | gpg_import.py:122-123 | try-major, URL-minor: attempt `n * len(urls) + j` uses `urls[j]` |
| Gpg.RoundsNext | gpg_keys_mod.py:34-35 | after `n` complete tries and `j` URLs, the next attempt uses `urls[j]` |
| Gpg.RoundsPrefix | gpg_import.py:122-123 | the attempts made so far are a prefix of the grid |
| Gpg.FirstSuccess | gpg_import.py:127-128 | the index of the first answer with rc 0: every earlier answer failed |
| Gpg.RetrySpec | gpg_import.py:122-130 | definition of what a loop stopping at the first rc 0 sees: the answers up to and including the first success, or all of them and no success |
| Gpg.RetryFacts | gpg_import.py:122-130 | a loop stopping at the first rc 0 sees a prefix of the answers, succeeds exactly when some answer is 0, ends on that answer, and sees all answers when none is 0 |
| Gpg.Position | gpg_import.py:115 | the dict is visited in insertion order check, delete, refresh, recv |
| GpgImport.Template | gpg_import.py:107-112 | definition of the `self.commands` dict literal: `check` and `delete` with three `%s` slots, `refresh` and `recv` with `%%s` and `%%d` escaped for the second stage |
| GpgImport.DryRunFlag | gpg_import.py:114 | definition of `'--dry-run' if check_mode else ''` |
| GpgImport.Prepared | gpg_import.py:107-116 | definition of `commands[c]` after `_setup_creds`: binary, dry-run flag and key id filled in, `refresh`/`recv` keeping `%s` for the server and `%d` for the timeout |
| GpgImport.Line | gpg_import.py:124-125 | definition of the command line gpg runs: the prepared `check`/`delete` line as is, and `refresh`/`recv` with server and decimal timeout in place |
| GpgImport.Commands | gpg_import.py:107-116 | shape fact only: `commands` has exactly the four command keys (its entries are stated by `StageOne` and `SetupDone`) |
| GpgImport.StageOne | gpg_import.py:107-116 | stage one fills binary, dry-run flag and key id into every template; `refresh`/`recv` keep an open `%s` and `%d` |
| GpgImport.Fill | gpg_import.py:124-125 | definition of `commands[cmd] % (u, gpg_timeout)` |
| GpgImport.StageTwo | gpg_import.py:124-125 | stage two fills server and timeout into `refresh`/`recv` when binary, flag and key id hold no `%`; `check`/`delete` have no slot and raise |
| GpgImport.KeyFormattedAgain | gpg_import.py:116-125 | for `refresh` and `recv`, with a `%`-free binary path and flag, stage two succeeds exactly when the key id formats with no arguments, and the line ends in the key id as `%` with no arguments renders it (`%%` becomes `%`; a lone `%`, `%s` or `%d` raises) |
| GpgImport.IsSpace | gpg_import.py:92 | definition of `\s` on a str: the characters `str.isspace` accepts |
| GpgImport.MarkerAt | gpg_import.py:92 | definition of a match of `gpg:\s+unchanged: 1\n` at a position, with `\s+` covering a non-empty run of whitespace |
| GpgImport.HasMarker | gpg_import.py:92 | definition of a match somewhere in the text |
| GpgImport.SpaceRun | gpg_import.py:92 | the longest whitespace run from a position, as `\s+` consumes it |
| GpgImport.MatchAt | gpg_import.py:92 | the pattern matches at a position exactly when some split of `\s+` does |
| GpgImport.SearchFrom | gpg_import.py:92 | the search from a position succeeds exactly when the marker occurs at or after it |
| GpgImport.ReportsUnchanged | gpg_import.py:92 | `re.search('gpg:\s+unchanged: 1\n', stderr)` succeeds exactly when stderr holds the marker |
| GpgImport.Decide | gpg_import.py:87-98 | the action leaves the key present exactly when the state wants it; no action exactly when presence already matches and the state is not latest/refreshed; refresh exactly for a present key with latest/refreshed |
| GpgImport.FillAny | gpg_import.py:124-125 | whether stage two succeeds does not depend on the server |
| GpgImport.FillAt | gpg_import.py:124-125 | the same, for one server |
| GpgImport.FillAll | gpg_import.py:124-125 | every server of a list fills the template, position by position |
| GpgImport.Attempt | gpg_import.py:121-130 | definition of the loop from attempt `v` on over the grid of URLs: past the last attempt it returns `{'rc': 8888}` |
| GpgImport.Step | gpg_import.py:123-129 | definition of one attempt: formatting raises, rc 0 returns the record, any other rc sleeps once and goes on |
| GpgImport.Repeat | gpg_import.py:121-130 | definition of `_repeat_command`: the loop from attempt 0 over `Rounds(tries, urls)` |
| GpgImport.RepeatSpec | gpg_import.py:121-130 | definition of the independent reference: nothing for an empty grid, a raise when the template cannot be filled, otherwise `RunOf` over the grid's answers |
| GpgImport.RunOf | gpg_import.py:122-130 | definition of the closed form: `RetrySpec` of the answers decides the reply, every URL seen is filled in, one sleep per failed answer |
| GpgImport.AttemptSpec | gpg_import.py:121-130 | the loop from any attempt on equals the reference specification over the rest of the grid |
| GpgImport.RepeatIsSpec | gpg_import.py:121-130 | `_repeat_command` equals the reference: the template filled with every grid URL and the answers cut at the first rc 0 |
| GpgImport.RepeatFacts | gpg_import.py:121-130 | one answer per command, in order, at most `tries * len(urls)`; success returns the last record (rc 0, all earlier failed, one sleep per failure); exhaustion returns rc 8888 after all attempts failed with a sleep after each; no tries or no URLs: nothing runs |
| GpgImport.RepeatSpecFacts | gpg_import.py:121-130 | the same facts for the reference specification over any grid |
| GpgImport.RepeatOrder | gpg_import.py:122-125 | the command of try `n`, URL `j` is the template filled with `urls[j]` |
| GpgImport.SpecIssued | gpg_import.py:124-125 | the `k`-th command issued uses grid URL `k` |
| GpgImport.Act | gpg_import.py:87-98 | definition of the branch after the check: delete once, refresh or receive through `Repeat`, or nothing with `changed` False |
| GpgImport.AfterRefresh | gpg_import.py:90-92 | definition of the refresh branch: `changed` is the absence of the unchanged marker in `stderr`; the sentinel, which has no `stderr`, raises `KeyError` |
| GpgImport.AfterRecv | gpg_import.py:93-95 | definition of the receive branch: `changed` is whether the reply's rc is 0, the sentinel included |
| GpgImport.Task | gpg_import.py:83-101 | definition of `_execute_task`: `check` runs first and its rc decides the action |
| GpgImport.TaskChecksFirst | gpg_import.py:84-85 | `check` is always the first command, and its answer is recorded under `check` |
| GpgImport.TaskCounted | gpg_import.py:83-101 | the task keeps `num_tries == len(tries)` in every section |
| GpgImport.TaskNoAction | gpg_import.py:96-101 | with no action, only `check` runs, `changed` is False and the task ends normally |
| GpgImport.TaskDelete | gpg_import.py:87-89 | delete runs once after check; `changed` is whether its rc is 0; the task fails exactly when it is not |
| GpgImport.TaskRefresh | gpg_import.py:90-92 | refresh never fails the task: it ends normally exactly when an attempt succeeded, with `changed` false exactly when stderr holds the unchanged marker; exhaustion crashes on `stderr` |
| GpgImport.ExhaustedRefreshRaises | gpg_import.py:90-92 | when every refresh attempt fails, all `tries * len(urls)` run and the task raises KeyError('stderr') |
| GpgImport.TaskRecv | gpg_import.py:93-95 | `changed` is whether the receive's rc is 0, and the task fails exactly when it is not; exhaustion fails with every attempt recorded |
| GpgImport.TaskFailed | gpg_import.py:100-101 | a failed task reports `changed` False and came from delete or recv |
| GpgImport.Module | gpg_import.py:147-165 | definition of `main`: the task run on a fresh object with an empty trace; `Done` exits with `changed` and the trace, `Failed` fails with the trace, an exception crashes |
| GpgImport.SetupStep | gpg_import.py:115-116 | visiting the next key fills in its entry and no other |
| GpgImport.SetupDone | gpg_import.py:115-116 | after every key is visited, `commands` is the prepared map |
| GpgImport.GpgImport.constructor | gpg_import.py:78-80 | the object holds the options, the prepared commands, the normalised URLs and no trace |
| GpgImport.GpgImport.SetupCreds | gpg_import.py:104-119 | the loop over the dict rewrites every template with stage one, and the URLs are normalised |
| GpgImport.GpgImport.Legiblify | gpg_import.py:136-144 | `log_dic` becomes the old trace with the answer recorded under `sec`; the record is returned |
| GpgImport.GpgImport.ExecuteCommand | gpg_import.py:132-134 | runs the prepared command unchanged and records the runner's answer |
| GpgImport.GpgImport.RepeatCommand | gpg_import.py:121-130 | result, commands run, trace and sleeps are those of `Repeat` |
| GpgImport.GpgImport.RepeatLoop | gpg_import.py:122-130 | the two loops reach the whole run of `Repeat` |
| GpgImport.GpgImport.TryRound | gpg_import.py:123-129 | one try: the attempts of every URL in order, or the early return |
| GpgImport.GpgImport.TryServer | gpg_import.py:124-129 | one attempt: format, run, record, return on rc 0, else sleep |
| GpgImport.GpgImport.ExecuteTask | gpg_import.py:83-101 | status, `changed`, commands, trace and sleeps are those of `Task` |
| GpgImport.GpgImport.ActOn | gpg_import.py:87-101 | the branch taken after the check, as `Act` describes it |
| GpgImport.RunModule | gpg_import.py:147-165 | the module's report and the commands run are those of `Module` |
| GpgKeysMod.Template | gpg_keys_mod.py:22-27 | definition of the `self.commands` dict literal: a `%s` for the binary, then `%%s` escaped for the key id and, in `refresh`/`recv`, for the server |
| GpgKeysMod.Prepared | gpg_keys_mod.py:22-30 | definition of `commands[c]` after `setup_creds`: the binary filled in, `%s` kept for the key id and, in `refresh`/`recv`, for the server before it |
| GpgKeysMod.Line | gpg_keys_mod.py:36-43 | definition of the command line gpg runs, with server and key id in place |
| GpgKeysMod.Commands | gpg_keys_mod.py:22-30 | shape fact only: `commands` has exactly the four command keys (its entries are stated by `StageOne` and `SetupDone`) |
| GpgKeysMod.StageOne | gpg_keys_mod.py:22-30 | stage one fills the binary path into every template, whatever it is, and turns each `%%s` into `%s` |
| GpgKeysMod.Fill | gpg_keys_mod.py:36 | definition of `commands[cmd] % (u, key_id)` |
| GpgKeysMod.Issue | gpg_keys_mod.py:43 | definition of `commands[cmd] % key_id` |
| GpgKeysMod.StageTwo | gpg_keys_mod.py:36-43 | when the binary path holds no `%`, `check`/`delete` take exactly the key id and `refresh`/`recv` the server and key id, whatever characters they hold |
| GpgKeysMod.CheckLine | gpg_keys_mod.py:43 | the check's command line is the binary, `--list-keys` and the key id |
| GpgKeysMod.FillAt | gpg_keys_mod.py:36 | whether stage two succeeds depends on neither server nor key id |
| GpgKeysMod.Attempt | gpg_keys_mod.py:33-40 | definition of the loop from attempt `v` on: past the last attempt it falls off its end and returns `None` |
| GpgKeysMod.Step | gpg_keys_mod.py:35-40 | definition of one attempt: formatting raises, otherwise run, record, sleep, then return 0 on rc 0 or go on |
| GpgKeysMod.Repeat | gpg_keys_mod.py:33-40 | definition of `repeat_command`: the loop from attempt 0 over `Rounds(tries, urls)` |
| GpgKeysMod.AttemptFacts | gpg_keys_mod.py:33-40 | from any attempt on: one answer, command and sleep per attempt, answers in order; raising only before anything runs and only for an unfillable template; 0 right after the first success; `None` after all remaining attempts failed |
| GpgKeysMod.AttemptIssued | gpg_keys_mod.py:34-36 | the `i`-th command from an attempt on uses the URL of the grid cell `i` further |
| GpgKeysMod.RepeatFacts | gpg_keys_mod.py:33-40 | one sleep after every attempt, success included, at most `tries * len(urls)` attempts, answers in order; returns 0 right after the first success; returns `None` after all attempts failed; nothing runs with no tries or no URLs |
| GpgKeysMod.RepeatOrder | gpg_keys_mod.py:34-36 | the command of try `n`, URL `j` is the template filled with `urls[j]` and the key id |
| GpgKeysMod.Decide | gpg_keys_mod.py:74-83 | receive exactly for a missing key outside check mode, whatever the flags; refresh for a present key with `refresh`; delete for a present key with `delete` only; nothing in check mode or with neither flag |
| GpgKeysMod.Act | gpg_keys_mod.py:76-92 | definition of the `else` branch of `main`: `rc` from the action (`None` when none runs), a receive not returning 0 fails with the `recv` section, otherwise exit with `changed` as `rc == 0` |
| GpgKeysMod.AfterCheck | gpg_keys_mod.py:74-92 | definition of `main` after the check: a missing key in check mode exits changed without running anything, otherwise `Act` |
| GpgKeysMod.Module | gpg_keys_mod.py:53-92 | definition of `main`: exclusive flags fail first, then `check` runs and `AfterCheck` goes on from its rc |
| GpgKeysMod.ActShape | gpg_keys_mod.py:76-87 | after the check, one answer per command, in order, at most one sleep per answer, nothing run with no action |
| GpgKeysMod.CheckFirst | gpg_keys_mod.py:72 | with a `%`-free binary path, unless the flags are exclusive, `check` with the key id runs first and every answer belongs to one command in order |
| GpgKeysMod.ExclusiveFlags | gpg_keys_mod.py:69-70 | `refresh` with `delete` fails with the exclusive message before any command runs |
| GpgKeysMod.CheckMode | gpg_keys_mod.py:72-87 | with a `%`-free binary path and flags that are not exclusive, in check mode only `check` runs, nothing sleeps, and `changed` is whether the key is missing |
| GpgKeysMod.ActChanged | gpg_keys_mod.py:77-87 | after the check, a normal exit reports `changed` exactly when an action ran and its last answer was rc 0 |
| GpgKeysMod.ChangedIffZero | gpg_keys_mod.py:77-87 | outside check mode, a normal exit reports `changed` exactly when a command after the check ran and the last one returned 0 |
| GpgKeysMod.ActFails | gpg_keys_mod.py:82-85 | after the check, only a receive fails, when all its attempts failed, reporting exactly those attempts |
| GpgKeysMod.NoResultsFacts | gpg_keys_mod.py:31 | the initial `c_results` has the four keys, all empty and counted |
| GpgKeysMod.OnlyRecvFails | gpg_keys_mod.py:69-85 | the run fails only for exclusive flags or for a receive outside check mode after a failed check, reporting the `recv` section of all its failed attempts; a failed refresh or delete never fails it |
| GpgKeysMod.DeleteMissingReceives | gpg_keys_mod.py:80-83 | with a `%`-free binary path, at least one try and one server, `delete` set (`refresh` not) and the key missing, the module receives the key from the first server |
| GpgKeysMod.ActCounted | gpg_keys_mod.py:47-50 | every action keeps `num_tries == len(tries)` in every section and adds none, whatever the outcome; `exit_json` reports `c_results` as it then stands and a failed receive its `recv` section |
| GpgKeysMod.ModuleCounted | gpg_keys_mod.py:47-50 | the reported `c_results` has the four sections, each counted |
| GpgKeysMod.ModuleReports | gpg_keys_mod.py:89-92 | `c_results` at the end of every run has the four sections, each counted; `exit_json` reports it as it stands and a failed receive (gpg_keys_mod.py:85) its `recv` section |
| GpgKeysMod.SetupStep | gpg_keys_mod.py:29-30 | visiting the next key fills in its entry and no other |
| GpgKeysMod.SetupStart | gpg_keys_mod.py:22-27 | before the loop every entry holds its raw template |
| GpgKeysMod.SetupDone | gpg_keys_mod.py:29-31 | after the loop `commands` is prepared and `c_results` is empty for every key |
| GpgKeysMod.GpgKeysMod.constructor | gpg_keys_mod.py:9-12 | the object holds the options, the prepared commands, empty `c_results` and the normalised URLs |
| GpgKeysMod.GpgKeysMod.SetUrls | gpg_keys_mod.py:14-17 | `urls` is the normalised server list |
| GpgKeysMod.GpgKeysMod.SetupCreds | gpg_keys_mod.py:19-31 | the loop rewrites every template with stage one; `c_results` has an empty section per command |
| GpgKeysMod.GpgKeysMod.ToCResults | gpg_keys_mod.py:47-50 | `c_results` becomes the old trace with the answer appended to `sec` and its count raised by one |
| GpgKeysMod.GpgKeysMod.ExecuteCommand | gpg_keys_mod.py:42-45 | runs the command with the key id and records the answer, returning its rc; raises without running when formatting fails |
| GpgKeysMod.GpgKeysMod.RepeatCommand | gpg_keys_mod.py:33-40 | result, commands run, trace and sleeps are those of `Repeat` |
| GpgKeysMod.GpgKeysMod.RepeatLoop | gpg_keys_mod.py:34-40 | the two loops reach the whole run of `Repeat` |
| GpgKeysMod.GpgKeysMod.TryRound | gpg_keys_mod.py:35-40 | one try: the attempts of every URL in order, or the early return |
| GpgKeysMod.GpgKeysMod.TryServer | gpg_keys_mod.py:36-40 | one attempt: format, run, record, sleep, return 0 on rc 0 |
| GpgKeysMod.GpgKeysMod.Conclude | gpg_keys_mod.py:74-92 | the branch after the check, as `AfterCheck` describes it: outcome, commands run, sleeps and the final `c_results` |
| GpgKeysMod.GpgKeysMod.ActOn | gpg_keys_mod.py:76-92 | the action's rc decides `changed`, and a receive that did not return 0 fails with the `recv` section, as `Act` describes it; `c_results` ends as `Act` says |
| GpgKeysMod.RunModule | gpg_keys_mod.py:53-92 | the module's report and the commands run are those of `Module` |

## Left out

- `AnsibleModule`, its argument validation and defaults, and the `DOCUMENTATION`/`EXAMPLES` metadata are not modelled. The options arrive as a typed `Params` value, which also stands for the attributes `setattr` copies.
- `get_bin_path('gpg', True)` is a parameter. Its failure when gpg is missing is not modelled.
- `run_command` is an oracle of answers in call order. It never raises, and gpg itself is not modelled.
- `sleep(delay)` is counted, not performed. The float `delay` is left out.
- `fail_json` and `exit_json` are the `Fail` and `Exit` outcomes, and an exception is a `Crash`. Host-side process exit and JSON output are not modelled.
- `re.match('hkps?://', s)` is a prefix test. The unchanged search is a matcher written for that one pattern, not a regular-expression engine.
- PyFormat.Format: only the `%s`, `%d` and `%%` conversions are modelled, and any other text after `%` raises. This is exact for every key id, because a conversion from the key id comes after both slots and finds no argument left. It is not exact for a binary path holding other conversions such as `%r`.
- A `servers` entry that is not a string, and Python-level type errors in the options, are not modelled.
- Python 2 semantics are not modelled. There, `\s` on a byte string is only `[ \t\n\r\f\v]` and dict iteration order is arbitrary. The model uses Python 3's insertion order and Unicode whitespace.
- File-based import, the public/private check variants and key-id extraction do not occur in these two modules, so they are not modelled.

## Behaviour worth knowing

Each point is a consequence of the code as written, and the model keeps it.

- **An exhausted refresh raises.** When every attempt fails,
  `_repeat_command` returns `{'rc': 8888}` (gpg_import.py:130). The
  refresh branch then reads `res['stderr']` (gpg_import.py:92), which raises
  `KeyError` before the failure check at gpg_import.py:100-101 can report
  `log_dic` (`ExhaustedRefreshRaises`).
- **An exhausted `repeat_command` returns `None`.** In `gpg_keys_mod` the
  loop at gpg_keys_mod.py:33-40 has no final `return`, so `rc` is `None`,
  which is not `0`.
- **`gpg_keys_mod` sleeps after every attempt**, the successful one
  included: `sleep(delay)` comes before the `rc` test
  (gpg_keys_mod.py:38-40). `gpg_import` sleeps only after a failed attempt
  (gpg_import.py:127-129).
- **Apart from the exclusive-flags check, only a failed receive fails
  `gpg_keys_mod`.** `fail_json` is called when `refresh` and `delete` are
  both set (gpg_keys_mod.py:69-70) and otherwise only in the receive branch
  (gpg_keys_mod.py:83-85). A failed refresh or delete exits normally with
  `changed` False.
- **Check mode acts on nothing in `gpg_keys_mod`.** Every action branch
  requires `not module.check_mode` (gpg_keys_mod.py:74-83), so only the
  `check` command runs, and a missing key is reported as changed.
- **`delete` on a missing key receives it.** The receive branch
  (gpg_keys_mod.py:82-85) tests only that the key is missing, not the
  `delete` flag.
- **Zero tries or no servers means no attempt.** `range(tries)` is empty
  for `tries <= 0`, and an empty `servers` list leaves no URL, so the retry
  loop runs nothing (gpg_import.py:122-130, gpg_keys_mod.py:34-40). The
  `DOCUMENTATION` string of `gpg_import` describes `tries` as how often to
  try per server and puts no lower bound on it.
- **The model follows Python 3.** Dicts iterate in insertion order, which
  fixes the order in which `_setup_creds` fills the templates, and `\s` in
  the unchanged marker matches Unicode whitespace (`str.isspace`).
