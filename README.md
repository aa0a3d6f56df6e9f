# vzupgrade in Dafny

This project models the decision and transformation logic of `vzupgrade`, the tool that takes a Virtuozzo 7 host to Virtuozzo 8 using leapp. It covers three programs:

- `vzupgrade.py`, with its two commands:
  - `check` prepares the host, looks for upgrade blockers, then runs `leapp preupgrade`.
  - `install` does the same preparation and the same blocker check. It then saves the host configuration, stops or quiesces the guests, runs `leapp upgrade` and optionally reboots.
- `repomap.py` turns the repository CSV table into the JSON repository map that leapp reads.
- `vzupgrade-post-ves.py` runs on the first boot after the upgrade. It starts every virtual environment (VE) that is set to start automatically but is not running.

The host is modelled as follows (module `Platform`):

- A `Files` record holds the files the tool reads and writes: `sshd_config` as its lines, and the directories `/etc/yum.repos.d`, `/usr/share/vzupgrade`, `/etc/leapp/answers` and `/var/log/leapp`, each as a name-to-content map.
- A `Probes` record holds what the external commands answer: the environment, the exit status of `yum check-update`, the outputs of `vzlist`, `vzpkg list` and `prlctl list`, and the exit status of leapp.
- A trace of `Action`s records everything visible: each command started (its argv, where its output goes and its environment) and each line printed.
- The Python exceptions that end the tool are the `Error` values. An operation either returns with `Ok(v)` or ends with `Raised(e)`.

The model is written in two layers:

- **Functions** (`FixSshdSpec`, `AddReposSpec`, `CheckTemplatesSpec`, `InstallSpec`, …) give the files afterwards, the actions and the outcome as a `Step`.
- **Methods** that take a `Platform.Host` do the same work imperatively: loops over the lines, the files removed and copied in place, and commands appended to the trace. Each method's `ensures` ties the new state and trace to its function.

The lemmas state what the source promises about those functions.

The global `cmdline` is passed as an explicit `Options` record.

The repository-map converter (module `RepoMap`) works on rows of strings. It keeps the two in-place lists of the source, `mapping_entries` and `repositories`, as sequences of key/items buckets (module `Grouping`). The post-upgrade script (module `PostVes`) works on a sequence of VE records.

## Model

| member | source | states |
|---|---|---|
| SshdConfig.FindDirective | vzupgrade.py:29-32 | the first pass reports true exactly when some line, stripped, starts with `PermitRootLogin` |
| SshdConfig.RewriteLines | vzupgrade.py:35-41 | the in-place pass writes back the lines of `Rewrite` and reports `modified` exactly when some line mentions `PermitRootLogin` |
| SshdConfig.EchoLines | vzupgrade.py:48-53 | the fallback pass prints the lines of `Echo`, in order, and changes no file |
| SshdConfig.FixSshdConfig | vzupgrade.py:27-53 | on the host, `fix_sshd_config` changes the files and trace exactly as `FixSshdSpec` says |
| SshdConfig.KeepsExplicitDirective | vzupgrade.py:29-32 | a file that already states `PermitRootLogin` is left as it is, nothing is printed and the call succeeds |
| SshdConfig.InsertsOneDirective | vzupgrade.py:35-44 | with the first mention at line k, the file becomes the lines before k stripped, one `PermitRootLogin yes`, then the rest stripped; exactly line k of the result is a directive; nothing is printed |
| SshdConfig.FallbackWritesNoDirective | vzupgrade.py:35-53 | without any mention, the file is only stripped and holds no directive; the directive is printed to standard output exactly when some line is a setting (neither blank nor a comment) |
| SshdConfig.Idempotent | vzupgrade.py:27-53 | a second run leaves the file as the first run left it and succeeds; after an insertion the second run does nothing at all |
| SshdConfig.FixSshdOnlyPrints | vzupgrade.py:27-53 | `fix_sshd_config` runs no command; its only actions are printed lines |
| SshdConfig.FixSshdFrame | vzupgrade.py:27-53 | `fix_sshd_config` reads and changes only `sshd_config` |
| RepoFiles.AddRepos | vzupgrade.py:62-78 | on the host, `add_repos` does exactly what `AddReposSpec` says |
| RepoFiles.CopyMissingEffect | vzupgrade.py:70-72 | the copy loop copies only listed files that are missing, takes them from the share and never overwrites; it succeeds exactly when each listed file is in one of the two places; a failure names a file found in neither |
| RepoFiles.AddReposEffect | vzupgrade.py:67-78 | the stale repo file is removed, so `vz8.repo` and `vz8_dummy.repo` are never both present; an existing file keeps its content; a missing wanted file becomes the share's copy; every other file is untouched; on success both wanted files exist |
| RepoFiles.AddReposIdempotent | vzupgrade.py:67-78 | a rerun with the same flag after a successful run changes nothing and succeeds |
| RepoFiles.AddReposFrame | vzupgrade.py:62-78 | `add_repos` depends only on the repo directory and the share, and changes only the repo directory |
| AnswerFiles.AddAnswers | vzupgrade.py:84-90 | on the host, `add_answers` does exactly what `AddAnswersSpec` says |
| AnswerFiles.ReplaceFilesEffect | vzupgrade.py:87-90 | only the listed names in the log directory change; the call succeeds exactly when every source exists, and then each target equals its source whatever was there before; a failure names a missing source and leaves that target removed |
| AnswerFiles.AddAnswersEffect | vzupgrade.py:84-90 | on success `answerfile` and `answerfile.userchoices` equal the prepared copies; prior content is replaced, never merged, and no other file changes |
| AnswerFiles.AddAnswersIdempotent | vzupgrade.py:84-90 | a second run after a successful one changes nothing |
| AnswerFiles.AddAnswersFrame | vzupgrade.py:84-90 | `add_answers` depends only on the answers and the log directory |
| Upgrade.PrepareFiles | vzupgrade.py:95-98 | on the host, `prepare_files` runs the three steps in order and stops at the first exception, as `PrepareSpec` says |
| Upgrade.PrepareIdempotent | vzupgrade.py:95-98 | preparing a host that a successful preparation left changes no file and succeeds |
| Upgrade.PrepareOnlyPrints | vzupgrade.py:95-98 | preparation runs no command |
| Blockers.ScanContainers | vzupgrade.py:157-167 | the loop over the container list runs the same `vzpkg` commands and builds the same dictionary as `ScanRoster` |
| Blockers.CheckTemplates | vzupgrade.py:129-174 | on the host, `check_templates` does what `CheckTemplatesSpec` says |
| Blockers.TemplateName | vzupgrade.py:162 | `split()[0]` raises exactly when the answer is all whitespace; otherwise the name is a non-empty word without whitespace |
| Blockers.TemplateNameFirstWord | vzupgrade.py:162 | the template name is the answer's first whitespace-delimited word, whatever whitespace leads it and whatever follows it |
| Blockers.ScanGroupsUnsupported | vzupgrade.py:157-167 | when the loop ends normally, the dictionary groups the (template, container) pairs whose template is unsupported: each pair is appended under its template, in list order |
| Blockers.TemplateDictionary | vzupgrade.py:157-167 | the dictionary's keys are distinct, none is a supported template, and they are in first-seen order; each key lists exactly its containers, in list order |
| Blockers.ScanIgnoresBlank | vzupgrade.py:158-160 | blank container lines are skipped: the list without them runs the same commands and builds the same dictionary |
| Blockers.ScanStops | vzupgrade.py:157-167 | once a `vzpkg` call or the template split raises, later lines are not looked at |
| Blockers.TemplatesResult | vzupgrade.py:153-174 | `check_templates` changes no file; it returns 0 for an empty container list and 1 exactly when the loop found an unsupported template |
| Blockers.CheckBlockers | vzupgrade.py:181-196 | on the host, `check_blockers` does what `CheckBlockersSpec` says |
| Blockers.BlockersVerdict | vzupgrade.py:184-196 | `check_blockers` returns 0 exactly when yum's raw status plus the template result (not counted under `--skip-vz`) is 0, and 1 otherwise; an exception in the template check propagates |
| Blockers.BlockersQueryContainers | vzupgrade.py:188-189 | the container list is queried exactly when `--skip-vz` is not given |
| Blockers.BlockersWarnUpdates | vzupgrade.py:184-186 | the updates warning is printed exactly when yum's status is positive |
| Blockers.NegativeStatusMasksTemplates | vzupgrade.py:184-193 | because the raw status is added, a yum status of -1 cancels a template blocker and the check reports no blockers |
| Blockers.BlockersOnlyInspect | vzupgrade.py:181-196 | `check_blockers` only prints lines and runs `yum`, `vzlist` or `vzpkg` |
| BuildId.BuildHashOfVersion | vzupgrade.py:201-207 | `BuildHash`, the model of `get_build_hash`, maps a well-formed id `a.b.c (d)` to `a*10000 + b*1000 + c*100 + d` |
| Text.ParseIntKeepsSeparator | vzupgrade.py:206 | `int()` skips less than `strip()`: a numeral followed by one of U+001C to U+001F is not accepted, although `strip()` would remove that character |
| BuildId.BuildHashRejectsShortId | vzupgrade.py:204-209 | `BuildHash` of an id with three parts, `a.b (d)`, is 0 |
| BuildId.BuildHashCollides | vzupgrade.py:201-207 | `BuildHash` is not one-to-one: `1.0.0 (0)` and `0.10.0 (0)` both yield 10000 |
| Guests.QuiesceAll | vzupgrade.py:242-252 | the loop over the roster lines issues the commands of `Quiesce` and stops with the error it names |
| Guests.StopVes | vzupgrade.py:237-252 | on the host, `stop_ves` does what `StopVesSpec` says |
| Guests.QuiesceFailsOnMalformed | vzupgrade.py:243-246 | the loop raises exactly when some selected line does not split into two words, and then at the first such line, having handled every earlier line |
| Guests.StopVesOnRoster | vzupgrade.py:238-252 | on a roster of well-formed `status name` lines joined by line breaks, `stop_ves` issues the roster query, then each guest's intended commands in roster order |
| Guests.StopVesOnListing | vzupgrade.py:238-252 | the same for the output as `prlctl list` prints it, every line ended by a line break: the empty piece after the last break issues nothing |
| Guests.StopVesOnHeadedListing | vzupgrade.py:238-252 | the same for that output under a column header line, which is neither `running` nor `suspended` and issues nothing |
| Guests.GuestLineCommands | vzupgrade.py:243-252 | for one well-formed guest line, the commands are the intended ones for that guest |
| Guests.EmptyRoster | vzupgrade.py:239-240 | empty output issues only the roster query |
| Guests.IgnoresOtherLines | vzupgrade.py:243-244 | a line starting with neither `running` nor `suspended` issues nothing |
| Guests.RunningIsStopped | vzupgrade.py:248-249 | a `running` line issues exactly one `prlctl stop` of that guest |
| Guests.OtherIsStartedThenStopped | vzupgrade.py:250-252 | any other selected line issues `prlctl start`, then `prlctl stop`, of that guest |
| Leapp.BuildLeappCommand | vzupgrade.py:111-119 | the appends build exactly `LeappArgv` |
| Leapp.LeappArgvShape | vzupgrade.py:111-119 | the argv is the fixed prefix, then one `--enablerepo=R` per extra repo in the given order, then `--debug` if debug is set, else `--verbose` if verbose is set; never both |
| Leapp.LeappEnvShape | vzupgrade.py:108-110 | the environment is the inherited one plus `SKIPVZ=1` exactly under `--skip-vz`; no other variable differs |
| Upgrade.Gate | vzupgrade.py:104-106 | on the host, preparation then the blocker check, as `GateSpec` says |
| Upgrade.GateIsHarmless | vzupgrade.py:104-106 | the gate never runs leapp, a guest or network command, or the reboot |
| Upgrade.Check | vzupgrade.py:103-123 | on the host, `check` does what `CheckSpec` says |
| Upgrade.CheckVerdict | vzupgrade.py:107-123 | past the gate, `check` ends with the leapp pre-upgrade run, and returns 1 exactly when leapp fails (`None` otherwise) |
| Upgrade.SaveConfigs | vzupgrade.py:258-276 | `save_configs` runs its commands in order, the network list only without `--skip-vz`, and changes no modelled file |
| Upgrade.Install | vzupgrade.py:283-314 | on the host, `install` does what `InstallSpec` says |
| Upgrade.InstallStartsWithPreparation | vzupgrade.py:283-286 | both commands' traces begin with the preparation trace |
| Upgrade.BlockerStopsInstall | vzupgrade.py:283-286 | with a blocker, `install` and `check` return 1 with no leapp run, guest command or reboot |
| Upgrade.NothingIntrusiveUnlessGatePasses | vzupgrade.py:283-286 | whenever the gate does not pass, whether for a blocker or an exception in the preparation or the checks, `install` and `check` do only what the gate did: no leapp run, guest command or reboot; they return 1 for a blocker and raise the gate's exception otherwise |
| Upgrade.InstallPhases | vzupgrade.py:307-314 | past the gate, and provided `stop_ves` succeeds or `--skip-vz` is given, the trace is the gate, `save_configs`, `stop_ves` unless `--skip-vz`, leapp, then the reboot if asked for; the reboot is the last action exactly under `--reboot`; the call returns `None` |
| Upgrade.InstallStopsOnGuestError | vzupgrade.py:307-314 | past the gate, when `stop_ves` raises (a failing `prlctl list` or a selected line that does not split into two words), `install` raises that exception after the gate, `save_configs` and the guest commands issued so far; leapp is not run and the host is not rebooted |
| Guests.StopVesOnlyPrlctl | vzupgrade.py:237-252 | `stop_ves` runs nothing but `prlctl` commands, whether it succeeds or raises |
| Upgrade.HandoverShape | vzupgrade.py:311-314 | the hand-over starts with leapp and ends with the reboot exactly under `--reboot` |
| Upgrade.InstallIgnoresLeapp | vzupgrade.py:311-314 | leapp's exit status changes nothing in `install`: the reboot follows a failed upgrade too |
| Upgrade.SkipVzLeavesGuestsAlone | vzupgrade.py:307-309 | under `--skip-vz`, `install` runs no `prlctl` or `prlsrvctl` command |
| RepoMap.AddTarget | repomap.py:13-20 | one row's mapping update: extend the entry for the source unless it already holds the target; a new entry when there is none |
| RepoMap.AddEntry | repomap.py:22-38 | append the record to the repository of the PES id; a new repository when there is none |
| RepoMap.Collect | repomap.py:11-38 | the row loop builds the grouping of the usable rows' (source, target) pairs without repeats, and the grouping of their (PES id, record) pairs |
| RepoMap.OnlyUsableRowsMatter | repomap.py:12 | rows that do not have nine fields have no effect |
| RepoMap.MapPairsMembers | repomap.py:12-20 | a (source, target) pair is recorded exactly when some usable row has `row[0]` as source and `row[2]` as target |
| RepoMap.RepoPairsMembers | repomap.py:22-38 | a record is filed under a PES id exactly when some usable row gives it: its version-7 record `{repoid=row[0], arch=row[5], channel=row[7], repo_type=row[6]}` under `row[0]`, or its version-8 record `{repoid=row[1], arch=row[5], channel=row[8], repo_type=row[6]}` under `row[2]` |
| RepoMap.MappingShape | repomap.py:13-20 | the mapping entries have distinct sources, in first-seen order; each lists every target seen for its source, once, in first-seen order |
| RepoMap.RepositoriesShape | repomap.py:22-38 | the repositories have distinct PES ids, in first-seen order; each lists every record given for it, in row order |
| RepoMap.RowContributes | repomap.py:22-38 | every usable row contributes its version-7 record under `row[0]` and its version-8 record under `row[2]` |
| RepoMap.DistinctEntries | repomap.py:42 | the deduplicated entries have no repeats and the same set of records |
| RepoMap.DedupRepositories | repomap.py:41-42 | the deduplication keeps every PES id and its set of records, and removes repeats |
| RepoMap.BuildRepoMap | repomap.py:11-45 | the document has the fixed `datetime` and `version_format`, a single mapping from 7 to 8 holding the mapping entries, and the repositories with their records deduplicated |
| Grouping.GroupAllShape | repomap.py:22-38 | grouping with appends gives distinct keys in first-seen order, each holding all its values in order |
| Grouping.GroupNewShape | repomap.py:13-20 | grouping with appends that skip repeats gives distinct keys in first-seen order, each holding its values once, in first-seen order |
| Grouping.ValuesForMembers | repomap.py:13-38 | a value is among a key's values exactly when that pair was added |
| PostVes.AutostartVes | vzupgrade-post-ves.py:20-32 | the loop logs and starts exactly the selected VEs, in list order |
| PostVes.Boot | vzupgrade-post-ves.py:18-32 | the script lists VMs and containers, then runs the loop over the whole listing |
| PostVes.ListedBothKinds | vzupgrade-post-ves.py:18-19 | asking for both kinds lists every VE |
| PostVes.SelectedMembers | vzupgrade-post-ves.py:20-28 | a VE is selected exactly when it is listed, is not a template, has autostart and is not in a running-like state; it is selected once per listing |
| PostVes.SelectedAppend | vzupgrade-post-ves.py:20-32 | the selection keeps the listing's order |
| PostVes.AnnounceShape | vzupgrade-post-ves.py:31-32 | each selected VE gets its syslog line, then its start, in order |
| PostVes.StartedExactly | vzupgrade-post-ves.py:20-32 | a start of `u` is issued exactly when a listed VE with that uuid should start |
| PostVes.SkipReasons | vzupgrade-post-ves.py:16-28 | templates, VEs without autostart and VEs in a running-like state (starting, running, suspending, snapshotting, resetting, pausing, continuing, mounted) are never started; every other listed VE, stopped or suspended included, is |
| PostVes.SecondBootStartsNothing | vzupgrade-post-ves.py:20-32 | once the started VEs are running, a second run starts nothing |

## Left out

- Running the external commands (`yum`, `vzlist`, `vzpkg`, `prlctl`, `prlsrvctl`, `leapp`, `ip`, `chkconfig`, `tar`, `reboot`) and the VE-management SDK: their outputs are inputs (`Platform.Probes`, the VE list), and their invocations are trace actions.
- Command outputs are handled as decoded text. In Python 3 they are bytes, so the code as written fails at `ctids.split("\n")` (vzupgrade.py:157) and splits `str(proc)` (vzupgrade.py:242). The model follows the string logic these lines evidently intend.
- `update_pva` (vzupgrade.py:222-231) is never called. It runs `rpm -qa`, reads its output line by line and prints "VA detected" when some package name starts with `va-`; otherwise it prints nothing.
- The rpm `__db*` cleanup (vzupgrade.py:288-292) walks a literal glob path, so it visits nothing and removes nothing.
- `save_configs` (vzupgrade.py:258-276): only its commands and their stdout targets are modelled, not the files they write or the creation of `/var/lib/vzupgrade`.
- The creation of `/var/log/leapp` (vzupgrade.py:85-86): directory existence is not part of the file model.
- `/etc/ssh/sshd_config` is read as decoded text (vzupgrade.py:29, 35, 48), and its lines are strings here. A file whose bytes do not decode in the locale's encoding makes `fix_sshd_config` raise `UnicodeDecodeError`, and with it `prepare_files`, `check` and `install`. The model has no such error: its only `fix_sshd_config` failure is a missing file.
- The exit statuses of the `subprocess.call`s in `save_configs`, `stop_ves` and `install` are ignored, as in the source.
- The only command failures modelled are a failing `check_output` (vzlist, vzpkg, prlctl list) and a failing `check_call` of leapp in `check`.
- Argument parsing (vzupgrade.py:324-359), `list_prereq` (vzupgrade.py:317-321), the `KeyboardInterrupt` handler and `main` (vzupgrade.py:362-368): these hold no logic to state. `main` discards the result of the command, so the model states the functions' results (`Some(1)` or Python's `None`), not a process exit status.
- The `--blocker` option is parsed but never read.
- The CSV reader, the JSON printing and opening `repomap.csv` (repomap.py:9-10, 46): the converter works on rows already split into fields and returns the document.
- RepoMap.DistinctEntries: promises no repeats and the same set of records, not an order, because the source rebuilds the entries from a Python set, whose iteration order is unspecified.
- RepoMap.DedupRepositories: promises the same keys and per-key sets of records, not their order within a repository, for the same reason.
- The SDK initialisation, the local login and the `.wait()` calls (vzupgrade-post-ves.py:12-14, 19): a failed login or listing is not modelled. `ve.start()` is issued and not waited for, so the model records the request only.
- VE states are an enumeration of the SDK constants that matter, plus an `OtherState` code for the rest. The numeric values of the constants are not modelled.
- `int()` in `get_build_hash` (vzupgrade.py:206) is modelled for ASCII digits only. Python also accepts other Unicode decimal digits. `get_build_hash` is never called, so this changes nothing the tool does.
- The text the tool prints for the template dictionary is the dictionary itself (`ShowTemplates`), not Python's `repr` of it.
- Features the code does not have, so the model has none either:
  - vzupgrade.py has no runner for administrator hook scripts and no `--use-vz9` option.
  - There are no free-space or management-agent blocker checks. `check_blockers` has two checks only: yum and the templates.
  - It adds yum's raw exit status instead of counting failed checks. The template check is skipped under `--skip-vz`.
  - The reboot after `install` does not depend on the upgrade succeeding.
  - vzupgrade-post-ves.py logs in once, with no retry loop.
