# caput in Dafny

caput is a command-line tool that prepares a server and a Rails application for
deployment with Capistrano. `caput init` writes a sample `caput.conf`. `caput server`
checks that MySQL and nginx run on the server. It then creates the deploy account and
directories, uploads the master key and creates the database. Last, it installs the
nginx site, the Puma systemd unit, the Puma configuration, the launcher script and
rbenv. `caput local` edits the application's Capfile and Capistrano files.
`caput teardown` removes the nginx site and the Puma unit again.

This project models that core as pure functions:

- **Config**: the `caput.conf` reader (`load_config!`), its lookup, the environment
  copy and the sample file of `init_config`.
- **Remote**: a `Caput::Remote` call is an `Action` value. **Steps** runs a list of steps
  against an oracle of observed exit statuses. The first step that does not report
  status 0 ends the run (`exec!` raises), unless a rescue turns the failure into an exit.
- **Shell**: `gsub` escaping and the shell's reading of a double-quoted word. It also
  covers the exit status of a script whose lines end in `|| true` (an or-true guard).
- **Sql**: the `mysql -e` command `prepare` builds from the credentials.
- **Artifacts**: the nginx site, the Puma unit, `puma.rb`, `start_puma.sh` and the
  install scripts that move them into place. Settings are read back out of each one.
- **Server**: `check_dependencies`, `check_sudo!` and `prepare` as tasks expanded to
  steps, with the three checks that can stop them.
- **Teardown**: `run`, whose script is parsed back into commands.
- **Local**: `bundle_has?`, `ensure_file_contains`, `backup_file`, the `deploy.rb`
  block, the `production.rb` line, and `prepare` on a map from paths to file contents.
- **Text**, **Numerals**, **Wrappers**: the string, number and option helpers the rest
  needs. These include Ruby's `readlines`, `strip`, `split("\n")`, `include?`,
  `Integer#to_s` and `sprintf('%o')`.

The model follows the code in these places:

- Every required setting only has to be present. An empty value is truthy in Ruby, so
  `prepare` and `run` go ahead with it (`Server.Configured`, `Teardown.Ready`).
- The Ruby version setting is `RUBY_VERSION` (lib/caput/server.rb:57).
- `caput server` runs `check_dependencies` before the configuration check of `prepare`.
  With the settings missing, the dependency scripts go to a session whose user and
  host are nil (`Server.CheckDependencies` uses `Lookup` without a gate).
- Teardown is best effort because every command of its single script ends in
  `|| true`. It is not a sequence of tolerated steps, and the script as a whole still
  raises if the channel reports no exit status.

## Model

| member | source | states |
|---|---|---|
| Steps.RunMeans | lib/caput/remote.rb:37-39 | A run completes exactly when every step reports success; otherwise it stops at a failing step, after running at most all of them |
| Steps.StopsAtFirstFailure | lib/caput/remote.rb:37-39 | When the first k steps succeed and step k fails, the run stops after k+1 steps with that step's own reason |
| Steps.FirstFailureUnique | lib/caput/remote.rb:37-39 | The first failing position is the unique k before which every step succeeded and at which one failed, or the end |
| Steps.RunAppend | lib/caput/cli.rb:18-22 | A run of a+b is the run of a if a stopped, and otherwise a's steps followed by the run of b shifted by the length of a |
| Steps.RunCompletes | lib/caput/cli.rb:18-22 | a+b completes iff a completes and b completes from the position where a ends |
| Steps.HaltFirst | lib/caput/server.rb:59 | A list that starts with a halt stops after one step with that reason |
| Steps.GateStops | lib/caput/server.rb:136-137 | A reason used only by the gate stops the run iff the gate is active |
| Steps.ExpandGate | lib/caput/server.rb:136-137 | For tasks whose steps never halt with reason st except a gate, the run stops with st iff everything before the gate completes and the gate is active |
| Steps.ExpandAppend | lib/caput/server.rb:61-286 | Expanding tasks into steps distributes over concatenation |
| Steps.PropagatedRun | lib/caput/server.rb:63-286 | Actions with no rescue around them complete iff every one reports status 0; otherwise the run stops right after the first that does not, with that action's own `exec!` or transfer failure |
| Remote.ShellInputLines | lib/caput/remote.rb:28-30 | The login shell reads the command's lines followed by a final `exit` line |
| Remote.Verdict | lib/caput/remote.rb:15-39 | `exec!` passes iff the reported status is 0; a missing status fails; the failure message parses back to the status and the command |
| Remote.StatusTextHasNoParen | lib/caput/remote.rb:38 | The interpolated status holds no `)` and is empty exactly for nil |
| Remote.FailureMessageRoundTrip | lib/caput/remote.rb:38 | The status and the command are recovered from the error message |
| Remote.ChmodRoundTrip | lib/caput/remote.rb:55 | The chmod command after an upload parses back to the mode and the remote path |
| Remote.DefaultModeText | lib/caput/remote.rb:42-51 | The default mode 0644 is printed as `644` by `%o` |
| Remote.UploadFile | lib/caput/remote.rb:51-56 | A transfer of the local file to the remote path, then a chmod, as the same session, whose command reads back as (mode, path) |
| Remote.UploadContent | lib/caput/remote.rb:42-49 | The same two actions, with the content going through a temporary file |
| Remote.UploadsAgree | lib/caput/remote.rb:42-56 | Both uploads end with the identical chmod command |
| Remote.EscapeForBash | lib/caput/remote.rb:60-62 | The result is the input with a backslash before every `$` only, one character longer per dollar sign |
| Remote.EscapeForBashLeavesQuotes | lib/caput/remote.rb:61 | A value with a bare `"` does not survive being put in double quotes after this escaping |
| Remote.EscapeForBashIntended | lib/caput/remote.rb:60-62 | The corrected escaping puts a backslash before every `"` and `$` |
| Remote.IntendedEscapeRoundTrip | lib/caput/remote.rb:60-62 | For values without backslash and backtick, the shell reads the corrected escape back as the value |
| Numerals.ParseRender | lib/caput/remote.rb:55 | Reading a number printed in base 2..10 back gives the number |
| Numerals.ParseShowInt | lib/caput/remote.rb:38 | Every integer printed with `to_s` reads back as itself |
| Shell.GsubChainEscapes | lib/caput/server.rb:160 | The two gsubs together put one backslash before each `"` and `$` and change nothing else |
| Shell.EscapeLength | lib/caput/server.rb:160 | Escaping adds exactly one character per special character |
| Shell.UnquoteEscaped | lib/caput/server.rb:160-163 | Without backslash or backtick, the shell reads the escaped text between double quotes back as the text |
| Shell.BackslashDefeatsEscape | lib/caput/server.rb:160-163 | A backslash before a quote makes the escaped text unreadable as one double-quoted word |
| Shell.BacktickDefeatsEscape | lib/caput/server.rb:160-163 | A backtick is not escaped and is not plain text inside double quotes |
| Shell.TolerantScriptSucceeds | lib/caput/server.rb:67-68 | A script whose every line ends in an or-true guard exits 0, whatever its commands report |
| Shell.LastCommandDecides | lib/caput/remote.rb:28-29 | A script's status depends only on the status of its last command |
| Sql.EscapeSql | lib/caput/server.rb:160 | The command text is the stripped SQL with `"` and `$` escaped |
| Sql.MysqlCommand | lib/caput/server.rb:163 | The `sudo mysql -e` line; stated by `Sql.MysqlRoundTrip` and `Sql.SqlReachesMysql` |
| Sql.MysqlRoundTrip | lib/caput/server.rb:160-164 | Without backslash or backtick, `mysql -e` receives exactly the stripped SQL |
| Sql.SqlStripped | lib/caput/server.rb:152-160 | `strip` removes only the heredoc's final newline |
| Sql.SqlTextClean | lib/caput/server.rb:147-157 | Credentials free of backslash and backtick give statements free of them |
| Sql.SqlReachesMysql | lib/caput/server.rb:147-164 | For such credentials `mysql` receives the four statements as written, minus the final newline |
| Config.WordEnd | lib/caput/config.rb:58 | The key is the longest run of word characters from the start of the line |
| Config.ParseLine | lib/caput/config.rb:57-62 | What one line contributes; stated by `Config.SkippedNeverMatches`, `Config.ContributesIff`, `Config.MatchSetting` and `Config.ValueShapes` |
| Config.LoadConfig | lib/caput/config.rb:51-66 | `load_config!`: None, standing for the abort, when the file is missing, else the settings its lines bind; stated by `Config.ParseLastWins`, `Config.LoadLayout` and `Config.SampleLoads` |
| Config.SkippedNeverMatches | lib/caput/config.rb:57-58 | Blank lines and comment lines contribute nothing |
| Config.ContributesIff | lib/caput/config.rb:57-61 | A line binds a key iff it starts with a nonempty run of word characters followed by `=` |
| Config.MatchSetting | lib/caput/config.rb:58-61 | `KEY=body` binds KEY to the body with one pair of matching outer quotes removed |
| Config.SettingLine | lib/caput/config.rb:56-61 | The same with or without the line's newline |
| Config.ValueShapes | lib/caput/config.rb:58-60 | Double, single and no quotes give the bare value; an unmatched quote stays; `\r` before the newline keeps the quotes |
| Config.GreedyQuote | lib/caput/config.rb:58 | The double-quoted alternative is greedy: inner quotes stay in the value |
| Config.DoubleQuoted | lib/caput/config.rb:58-61 | `KEY="v"` binds KEY to v |
| Config.SingleQuoted | lib/caput/config.rb:58-61 | `KEY='v'` binds KEY to v |
| Config.ApplyLastWins | lib/caput/config.rb:55-63 | After the loop a key is bound iff it was before or some line binds it, to the value of the last such line |
| Config.ParseLastWins | lib/caput/config.rb:55-70 | `Config[key]` is nil iff no line binds the key, and otherwise the value of the last line that does |
| Config.ApplyAppend | lib/caput/config.rb:56-63 | Reading a+b is reading b on top of the result of a |
| Config.ApplyNothing | lib/caput/config.rb:57 | Lines that bind nothing leave the settings unchanged |
| Config.PopulateEnv | lib/caput/config.rb:65 | The environment gains every setting, settings override, other variables stay |
| Config.InitConfig | lib/caput/config.rb:7-9 | A file always exists afterwards, and an existing one is left alone |
| Config.InitConfigOnce | lib/caput/config.rb:8 | Running init twice is running it once |
| Config.LoadLayout | lib/caput/config.rb:9-66 | A file of remark blocks each ending in one quoted setting loads as exactly those bindings |
| Config.SampleBindings | lib/caput/config.rb:14-46 | The eight blocks of the sample file bind the eight sample settings |
| Config.SampleLoads | lib/caput/config.rb:7-66 | Loading the file `init` writes gives exactly the sample settings |
| Text.ReadLinesConcat | lib/caput/config.rb:56 | The lines `readlines` returns concatenate back to the file |
| Text.ReadLinesUnlines | lib/caput/config.rb:56 | A heredoc of newline-free lines reads back as those lines, each with its newline |
| Text.ContainsLines | lib/caput/local.rb:65 | For a nonempty name without line feeds, some line of `split("\n")` contains it iff the text does |
| Artifacts.SiteServerName | lib/caput/server.rb:170 | The written site's `server_name` field reads back as the domain |
| Artifacts.SiteRoot | lib/caput/server.rb:172 | The written site's `root` field reads back as the deploy path's current/public |
| Artifacts.SiteProxy | lib/caput/server.rb:179 | The written `proxy_pass` field names the shared Puma socket path |
| Artifacts.UnitUser | lib/caput/server.rb:205 | The written unit's `User=` field is the deploy user |
| Artifacts.UnitWorkingDirectory | lib/caput/server.rb:206 | The written unit's `WorkingDirectory=` field is the current release |
| Artifacts.UnitExecStart | lib/caput/server.rb:209 | The written unit's `ExecStart=` field is the shared launcher script |
| Artifacts.PumaSharedDir | lib/caput/server.rb:228 | The written `puma.rb` assigns the deploy path's shared directory to `shared_dir` |
| Artifacts.PumaBindsSocket | lib/caput/server.rb:229 | The written `bind` setting, with `#{shared_dir}` substituted, is the shared socket path |
| Artifacts.PumaPidfile | lib/caput/server.rb:230 | The written `pidfile` setting, with `#{shared_dir}` substituted, is the shared pid-file path |
| Artifacts.LauncherDirectory | lib/caput/server.rb:239 | The written launcher's `cd` line names the current release |
| Artifacts.LauncherConfig | lib/caput/server.rb:240 | The written launcher's `puma` line names the shared `puma.rb` |
| Artifacts.MoveRoundTrip | lib/caput/server.rb:191 | A move line without spaces in its paths parses back to the move |
| Artifacts.GuardedOrTrue | lib/caput/server.rb:244 | Removing the or-true guard gives back the command |
| Artifacts.NginxInstallMoves | lib/caput/server.rb:191 | The uploaded site moves to sites-available |
| Artifacts.UnitInstallMoves | lib/caput/server.rb:218 | The uploaded unit moves to /etc/systemd/system |
| Artifacts.PumaMoveTargets | lib/caput/server.rb:244 | `puma.rb` is force-moved to the shared directory, and the move is tolerant |
| Artifacts.PumaMoveSucceeds | lib/caput/server.rb:244 | That move never fails the script |
| Artifacts.LauncherInstallMoves | lib/caput/server.rb:248 | The launcher is force-moved to shared/bin |
| Artifacts.NginxInstallStatus | lib/caput/server.rb:190-195 | The install script's status is the reload's status alone; `nginx -t` does not gate it |
| Artifacts.ServiceWiring | lib/caput/server.rb:179-248 | As written text: the site's upstream equals `puma.rb`'s bind, the unit's directory is the launcher's, the unit starts the installed launcher, and the launcher loads the installed config |
| Server.CheckDependencies | lib/caput/server.rb:10-48 | The two dependency scripts as the setup user, each rescued by `exit 1`; its behaviour is stated by `Server.CheckDependenciesRun` |
| Server.CheckDependenciesRun | lib/caput/server.rb:10-48 | The MySQL check runs first, and nginx only if it passes; a failure of either exits with status 1 |
| Server.AptNeverFails | lib/caput/server.rb:66-69 | Installing the system packages never fails |
| Server.MasterKeyActions | lib/caput/server.rb:117-125 | Without a local key nothing happens; with one, an upload, a move to shared/config/master.key and chmod 0400 |
| Server.MasterKeyMoveParses | lib/caput/server.rb:121 | The move line reads back as the move to the shared master key |
| Server.KeyChmodParses | lib/caput/server.rb:122 | `chmod 0400` reads back as mode 256 on the shared master key |
| Server.Prepare | lib/caput/server.rb:50-290 | `prepare`: the configuration check, the sudo check, the setup tasks, the master-key check, the credentials check and the provisioning tasks; stated by `Server.PrepareGate`, `Server.SudoFirst`, `Server.SudoChecked`, `Server.MasterKeyRequired` and `Server.CredentialsRequired` |
| Server.PrepareGate | lib/caput/server.rb:59 | `prepare` raises the missing-configuration message at once iff a required setting is absent, and then nothing reaches the server |
| Server.SudoFirst | lib/caput/server.rb:61 | With the settings present, the sudo check is the first step |
| Server.SudoChecked | lib/caput/server.rb:292-303 | Without passwordless sudo, `prepare` aborts with the warning at its first step, before any `Caput::Remote` action; the check itself is the local `ssh … sudo -n true` |
| Server.TaskHalts | lib/caput/server.rb:59-164 | No task halts with a reason other than its own |
| Server.MasterKeyRequired | lib/caput/server.rb:136-137 | The master-key error is raised iff the setup completed and neither ENV nor the key file supplies a key |
| Server.KeyChecked | lib/caput/server.rb:136-137 | The run gets past the key check iff the setup completed and a key was found |
| Server.CredentialsRequired | lib/caput/server.rb:140-150 | `prepare` stops for want of credentials iff the setup completed, a key was found and the credentials could not be read |
| Server.ConfiguredMasterKey | lib/caput/server.rb:136 | A RAILS_MASTER_KEY in the configuration counts, through the environment copy |
| Server.ServerWithoutConfig | lib/caput/config.rb:52-54 | Without a configuration file `caput server` aborts with the not-found message |
| Server.ServerChecksFirst | lib/caput/cli.rb:18-22 | The dependency check runs first; if it fails the command exits 1 and `prepare` never starts |
| Teardown.ReadRender | lib/caput/teardown.rb:21-28 | Every teardown command line reads back as its command |
| Teardown.ParseTolerant | lib/caput/teardown.rb:21-28 | With the or-true guard, the line is tolerant and still reads back as its command |
| Teardown.TeardownReads | lib/caput/teardown.rb:20-29 | The teardown script reads back as stop, disable, remove unit, daemon-reload, remove both site links, `nginx -t`, reload |
| Teardown.TeardownNeverFails | lib/caput/teardown.rb:21-28 | Every line is tolerant, so the script exits 0 whatever its commands report |
| Teardown.RemovedByTeardown | lib/caput/teardown.rb:23-26 | Teardown removes exactly the unit file, the available site and the enabled site, in that order |
| Teardown.NginxInstallLinks | lib/caput/server.rb:192 | The installed site is linked from sites-available into sites-enabled |
| Teardown.UnitInstallEnables | lib/caput/server.rb:220 | The installation enables the app's Puma unit |
| Teardown.TeardownUndoesInstall | lib/caput/teardown.rb:21-26 | Teardown removes the very files `prepare` moves and links into place, and stops and disables the unit it enabled |
| Teardown.Teardown | lib/caput/teardown.rb:10-32 | `run`: the configuration check, then one script as the setup user; stated by `Teardown.TeardownGate`, `Teardown.TeardownReads` and `Teardown.TeardownNeverFails` |
| Teardown.TeardownGate | lib/caput/teardown.rb:11-20 | `run` raises iff SETUP_USER, SERVER or APP_NAME is missing, then without contacting the server; otherwise one script as the setup user, which completes iff it reports 0 |
| Teardown.DeployUserIgnored | lib/caput/teardown.rb:11-15 | The deploy user plays no part in teardown |
| Teardown.TeardownWithoutConfig | lib/caput/cli.rb:31-34 | Without a configuration file teardown aborts with the not-found message |
| Local.Puts | lib/caput/local.rb:72 | `puts` writes the text followed by exactly one line feed, and adds none when the text already ends with one |
| Local.BundleHas | lib/caput/local.rb:63-66 | `bundle_has?` on the output of `bundle list`; stated by `Local.BundleHasIff`, `Local.ExtendedNameCounts` and `Local.EmptyNameCounterexample` |
| Local.BundleHasIff | lib/caput/local.rb:63-66 | For a nonempty gem name, `bundle_has?` holds iff the output contains the name |
| Local.ExtendedNameCounts | lib/caput/local.rb:65 | A gem whose name extends the name asked for counts as present |
| Local.EmptyNameCounterexample | lib/caput/local.rb:65 | For the empty name the line-wise answer differs from `include?` on the whole output |
| Local.EnsureFileContains | lib/caput/local.rb:68-74 | A missing file stays missing; otherwise the file keeps its contents as a prefix and contains the line; it is unchanged if it already did, and otherwise has `puts line` appended |
| Local.EnsureIdempotent | lib/caput/local.rb:68-74 | Ensuring a line twice is ensuring it once |
| Local.EnsureKeeps | lib/caput/local.rb:33-34 | Ensuring a second line keeps the first |
| Local.BackupName | lib/caput/local.rb:78 | The backup never overwrites the file itself |
| Local.BackupFile | lib/caput/local.rb:76-80 | A missing file changes nothing; otherwise the backup gets the file's contents and every other file stays |
| Local.BackupIdempotent | lib/caput/local.rb:76-80 | Backing up twice is backing up once |
| Local.DeployText | lib/caput/local.rb:39-52 | The block already ends in a newline, so `puts` adds none |
| Local.DeployTo | lib/caput/local.rb:44 | Capistrano deploys to the configured deploy path |
| Local.DeployBindsSocket | lib/caput/local.rb:47 | The socket path written into `deploy.rb` is the bind path written into the server's `puma.rb` |
| Local.DeployPidfile | lib/caput/local.rb:48 | The pid-file path written into `deploy.rb` is the pid-file path written into the server's `puma.rb` |
| Local.ProductionPuts | lib/caput/local.rb:54-56 | The server line is written with one newline |
| Local.ProductionRoundTrip | lib/caput/local.rb:55 | A host and user without double quotes read back from the server line |
| Local.AppLayoutSeparate | lib/caput/local.rb:33-54 | Capfile, deploy.rb, its backup and production.rb are four different files |
| Local.EnsureIn | lib/caput/local.rb:68-74 | On the file tree: no file is added or removed and only the named one may change; an existing file keeps its contents as a prefix and contains the line, unchanged if it already did and otherwise with `puts line` appended; a missing one stays missing |
| Local.AppendTo | lib/caput/local.rb:39-40 | Appending creates the file if needed and changes no other file |
| Local.CapfileEdits | lib/caput/local.rb:33-34 | The Capfile edits add no file and change no other file |
| Local.LocalPrepare | lib/caput/local.rb:10-61 | The file edits of `prepare` in the application's layout; stated for any layout of separate files by `Local.CapfileRequires`, `Local.DeployFilesWritten` and `Local.OtherFilesKept`, with `Local.AppLayoutSeparate` |
| Local.CapfileRequires | lib/caput/local.rb:28-34 | An existing Capfile keeps its contents and then requires both plugins; a missing one stays missing |
| Local.DeployFilesWritten | lib/caput/local.rb:37-56 | The old deploy.rb survives as the backup, and the block and the server line are appended to their files |
| Local.OtherFilesKept | lib/caput/local.rb:10-61 | Only deploy.rb, production.rb and the backup are added, and no other file changes |

## Left out

- SSH and SCP transport, `bash -l`, and printing of remote output: an action is a value,
  and its outcome is an observed exit status given as input (`Steps.Observations`).
- `exec!` reads `@options`, which is never set, so it ignores the `ssh_options` given to
  the constructor; `upload_file!` uses them. Connection options are not modelled.
- `Tempfile`, `File.exist?`, `File.read` and `Dir.pwd` are inputs: the workstation's
  environment, key file, credentials and working directory (`Server.Workstation`), and a
  map from paths to contents (`Local.Files`).
- Decrypting `credentials.yml.enc` and loading its YAML are inputs too. `None` stands for
  any error they raise.
- `system('bundle add …')`, `bundle install`, `cap install`, `FileUtils.mkdir_p` and the
  closing `puts` of `Local.prepare` run external programs or only print. `LocalPrepare`
  starts from the files as those commands leave them.
- The progress messages printed with `puts` by every command are not modelled.
- The contents of the check, account, directory and rbenv scripts are modelled as text,
  with the whitespace exception for `Server.DirectoryLines` below.
  Their effect on the server is not: bash, `getent`, `adduser`, `rbenv` and `git` are
  outside the model.
- Artifacts.PumaSetting: reads the text between a setting's quotes and substitutes
  `#{shared_dir}`. It does not evaluate Ruby, and `Field` does not parse nginx or unit
  files. A deploy path holding a quote, a backslash, `#`, `;`, `$`, `%`, whitespace or a
  line feed makes the rendered files mean something else to Ruby, nginx, systemd or bash.
  The members below state the rendered files as text only, for that reason.
- Artifacts.SiteProxy: states the written `proxy_pass` text, not what nginx does with it.
- Artifacts.PumaBindsSocket: states the written `bind` text, not what Puma binds.
- Artifacts.PumaPidfile: states the written `pidfile` text, not what Puma writes.
- Artifacts.ServiceWiring: states the agreement of the written texts only.
- Local.DeployBindsSocket: states the agreement of the written paths only.
- Local.DeployPidfile: states the agreement of the written paths only.
- Config.PopulateEnv: copies every value into the environment. Ruby's `ENV[key] = value`
  raises ArgumentError for a value holding a NUL character (lib/caput/config.rb:65);
  the model does not raise there.
- Config.LoadConfig: takes the file as text in a valid encoding. `strip` and `=~` raise
  ArgumentError on a line with an invalid byte sequence (lib/caput/config.rb:57-58);
  the model has no such bytes.
- Server.DirectoryLines: writes the `sudo mkdir -p` continued over six source lines
  (lib/caput/server.rb:107-112) as one line with a single space between its words. The
  source's continuation lines carry extra indentation, so the command bash runs has runs
  of spaces after `-p` and after each quoted path. Bash splits both into the same words,
  but the model does not state the exact whitespace.
- `Artifacts.MoveRoundTrip`, `Teardown.NginxInstallLinks` and
  `Teardown.TeardownUndoesInstall` require paths without spaces. The source
  interpolates paths into shell commands unquoted, so a space splits them.
- Sql.SqlReachesMysql: proved only for credentials without backslash or backtick. With
  them, the shell changes the statements (`Shell.BackslashDefeatsEscape`,
  `Shell.BacktickDefeatsEscape`). The escaping is not safe against injection, and the
  model does not claim it is.
- Local.BundleHasIff: needs a nonempty name without line feeds.
  `Local.EmptyNameCounterexample` shows the empty name behaves differently.
- Local.LocalPrepare: the contents it writes are stated through `PrepareFiles`,
  `DeployText` and `ProductionLine`. No single lemma states them about `LocalPrepare` on
  concrete settings.
- Config.ParseLine: lines are assumed to be as `readlines` returns them
  (`Text.ReadLines`). A `\r` before the newline stays part of the value. Ruby's `$`
  also matches before a final newline; the model takes that into account.

## Findings

| source | as written | input that shows it | evidently intended | confidence | as-written member | corrected member |
|---|---|---|---|---|---|---|
| lib/caput/remote.rb:61 | `gsub('"', '"')` replaces a double quote by itself, so only `$` is escaped | `a"b` escapes to `a"b`, which does not read back as one double-quoted word | a backslash before `"` as well, as `prepare` does for its SQL | medium, not executed | Remote.EscapeForBashLeavesQuotes | Remote.IntendedEscapeRoundTrip |
