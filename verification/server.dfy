/** `caput server`: load the configuration, check the server's dependencies, then prepare
    it (`Caput::Server`). Each of these is a list of steps (module Steps); the workstation's
    files, environment and decrypted credentials are inputs. */
module Server {
  import opened Wrappers
  import opened Text
  import opened Numerals
  import opened Shell
  import opened Remote
  import opened Steps
  import opened Config
  import opened Artifacts
  import opened Sql

  /** What `prepare` reads on the workstation besides the configuration. */
  datatype Workstation = Workstation(
    env: map<string, string>,          // the process environment before the configuration is loaded
    masterKeyFile: Option<string>,     // contents of config/master.key, if the file exists
    credentials: Option<Credentials>,  // the mysql section of the decrypted credentials; None when
                                       // decrypting or loading them raises
    cwd: string)                       // Dir.pwd

  /** The account and host every setup command goes to; a nil setting stays nil. */
  function SetupSession(s: Settings): Session {
    Session(Lookup(s, "SETUP_USER"), Lookup(s, "SERVER"))
  }

  // ---------------------------------------------------------------------------
  // check_dependencies
  // ---------------------------------------------------------------------------

  const MysqlInstalled: seq<string> := [
    "if ! command -v mysql >/dev/null 2>&1; then",
    "  echo \"ERROR: MySQL client/server not installed\" >&2",
    "  exit 1",
    "fi" ]

  const MysqlRunning: seq<string> := [
    "if ! systemctl is-active --quiet mysql && ! systemctl is-active --quiet mariadb; then",
    "  echo \"ERROR: MySQL/MariaDB service is not running\" >&2",
    "  exit 1",
    "fi" ]

  function MysqlCheckLines(): seq<string> {
    MysqlInstalled + MysqlRunning
  }

  const NginxInstalled: seq<string> := [
    "if ! command -v nginx >/dev/null 2>&1; then",
    "  echo \"ERROR: nginx not installed\" >&2",
    "  exit 1",
    "fi" ]

  const NginxRunning: seq<string> := [
    "if ! systemctl is-active --quiet nginx; then",
    "  echo \"ERROR: nginx service is not running\" >&2",
    "  exit 1",
    "fi" ]

  function NginxCheckLines(): seq<string> {
    NginxInstalled + NginxRunning
  }

  /** Both checks run as the setup user, whatever the configuration holds; a failure of
      either is rescued by `exit 1`. */
  function CheckDependencies(s: Settings): seq<Step> {
    [ Do(Exec(SetupSession(s), Unlines(MysqlCheckLines())), ExitWith(1)),
      Do(Exec(SetupSession(s), Unlines(NginxCheckLines())), ExitWith(1)) ]
  }

  /** The dependency check exits with status 1 at the first script that does not report
      status 0, so the nginx check runs only after the MySQL check passed. */
  lemma CheckDependenciesRun(s: Settings, obs: Observations, base: nat)
    ensures Run(CheckDependencies(s), obs, base) ==
      if obs(base) != Some(0) then RunResult(1, Some(Exited(1)))
      else if obs(base + 1) != Some(0) then RunResult(2, Some(Exited(1)))
      else RunResult(2, None)
  {
    var steps := CheckDependencies(s);
    if obs(base) != Some(0) {
      StopsAtFirstFailure(steps, obs, base, 0);
    } else if obs(base + 1) != Some(0) {
      StopsAtFirstFailure(steps, obs, base, 1);
    } else {
      FirstFailureUnique(steps, obs, base, 2);
    }
  }

  // ---------------------------------------------------------------------------
  // prepare: the required settings and the sudo check
  // ---------------------------------------------------------------------------

  const MissingConfigMessage: string := "Missing configuration: run " + "`caput init` and edit caput.conf"

  /** The settings `prepare` requires. Any value, even an empty one, is truthy in Ruby: only
      a missing key fails. */
  predicate Configured(s: Settings) {
    "SETUP_USER" in s && "SERVER" in s && "DEPLOY_USER" in s && "APP_NAME" in s
  }

  /** The settings `prepare` works with, once the required ones are known to be present. */
  datatype Target = Target(
    setupUser: string, deployUser: string, server: string, app: string,
    domain: string, deployPath: string, rubyVersion: string)

  function TargetOf(s: Settings): (t: Target)
    requires Configured(s)
    ensures Lookup(s, "SETUP_USER") == Some(t.setupUser) && Lookup(s, "SERVER") == Some(t.server)
  {
    Target(s["SETUP_USER"], s["DEPLOY_USER"], s["SERVER"], s["APP_NAME"],
           Interpolate(s, "DOMAIN"), Interpolate(s, "DEPLOY_PATH"), Interpolate(s, "RUBY_VERSION"))
  }

  /** `check_sudo!`: the command run locally with `system`. */
  function SudoCommand(user: string, server: string): string {
    "ssh " + user + "@" + server + " \"sudo -n true\""
  }

  function SudoWarning(user: string, server: string): string {
    Unlines([
      "Warning: Setup user " + user + " does not have passwordless sudo on " + server + ".",
      "Example sudoers entry:",
      "  " + user + " ALL=(ALL) NOPASSWD:ALL" ])
  }

  // ---------------------------------------------------------------------------
  // prepare: setting up the accounts and directories
  // ---------------------------------------------------------------------------

  const Packages: string :=
    "git curl build-essential libssl-dev libreadline-dev zlib1g-dev libffi-dev libyaml-dev "
    + "libgdbm-dev libncurses-dev libdb-dev libsqlite3-dev libgmp-dev libbz2-dev autoconf bison "
    + "pkg-config liblzma-dev libxml2-dev libxslt1-dev libcurl4-openssl-dev nginx"

  function AptLines(): seq<string> {
    [ "sudo apt-get update" + OrTrue,
      "sudo apt-get install -y " + Packages + OrTrue ]
  }

  /** Installing the system packages cannot fail: both commands end in ` || true`. */
  lemma AptNeverFails(status: string -> int)
    ensures ScriptStatus(AptLines(), status) == 0
  {
    var ls := AptLines();
    EndsWithConcat("sudo apt-get update", OrTrue);
    EndsWithConcat("sudo apt-get install -y " + Packages, OrTrue);
    TolerantScriptSucceeds(ls, status);
  }

  function DeployUserLines(deployUser: string): seq<string> {
    [ "if getent passwd " + deployUser + " >/dev/null 2>&1; then",
      "  echo \"Deploy user already exists\"",
      "else",
      "  echo \"Creating deploy user " + deployUser + "\"",
      "  sudo adduser --disabled-password --gecos \"\" " + deployUser,
      "fi" ]
  }

  function SshDirLines(deployUser: string, setupUser: string): seq<string> {
    [ "DEPLOY_HOME=\"$(getent passwd " + deployUser + " | cut -d: -f6)\"",
      "DEPLOY_SSH_DIR=\"$DEPLOY_HOME/.ssh\"",
      "SETUP_HOME=\"$(getent passwd " + setupUser + " | cut -d: -f6)\"",
      "",
      "sudo mkdir -p \"$DEPLOY_SSH_DIR\"",
      "sudo chown " + deployUser + ":" + deployUser + " \"$DEPLOY_SSH_DIR\"",
      "sudo chmod 700 \"$DEPLOY_SSH_DIR\"",
      "" ]
  }

  function KeysCopyLines(deployUser: string): seq<string> {
    [ "AUTH_KEYS=\"$DEPLOY_SSH_DIR/authorized_keys\"",
      "if [ ! -s \"$AUTH_KEYS\" ]; then",
      "  echo \"Copying authorized_keys from setup user\"",
      "  sudo cp \"$SETUP_HOME/.ssh/authorized_keys\" \"$AUTH_KEYS\"" + OrTrue,
      "  sudo chown " + deployUser + ":" + deployUser + " \"$AUTH_KEYS\"" + OrTrue,
      "  sudo chmod 600 \"$AUTH_KEYS\"" + OrTrue,
      "else",
      "  echo \"Authorized keys already present\"",
      "fi" ]
  }

  function AuthorizedKeysLines(deployUser: string, setupUser: string): seq<string> {
    SshDirLines(deployUser, setupUser) + KeysCopyLines(deployUser)
  }

  /** The `mkdir -p` continued over several source lines is one line of the script. */
  function DirectoryLines(deployPath: string, deployUser: string): seq<string> {
    var q := "\"";
    [ "if [ -d " + q + deployPath + q + " ]; then",
      "  echo \"Deploy directories already exist\"",
      "else",
      "  sudo mkdir -p "
        + q + SharedDir(deployPath) + "/tmp/pids" + q + " "
        + q + SharedDir(deployPath) + "/tmp/sockets" + q + " "
        + q + SharedDir(deployPath) + "/log" + q + " "
        + q + SharedDir(deployPath) + "/storage" + q + " "
        + q + SharedDir(deployPath) + "/config" + q,
      "  sudo chown -R " + deployUser + ":" + deployUser + " " + q + deployPath + q,
      "fi" ]
  }

  // ---------------------------------------------------------------------------
  // prepare: the master key
  // ---------------------------------------------------------------------------

  const LocalMasterKey: string := "config/master.key"
  const MasterKeyUpload: string := "/tmp/master.key"

  /** Owner read only. */
  const KeyMode: nat := 4 * 64

  function KeyChmod(deployPath: string): string {
    "sudo chmod 0400 " + MasterKeyPath(deployPath)
  }

  /** Uploading the local master key, when there is one: a transfer and its chmod, a move
      into the shared configuration, and a chmod that leaves it readable by its owner
      only. Nothing happens when the file does not exist. */
  function MasterKeyActions(r: Session, present: bool, deployPath: string): (acts: seq<Action>)
    ensures |acts| == if present then 4 else 0
    ensures present ==>
      && acts[0] == Upload(r, LocalFile(LocalMasterKey), MasterKeyUpload)
      && acts[2].Exec? && acts[3].Exec?
      && (' ' !in deployPath ==>
            ParseMove(acts[2].script) == Some(Move(false, MasterKeyUpload, MasterKeyPath(deployPath))))
      && ParseChmod(acts[3].script) == Some((KeyMode, MasterKeyPath(deployPath)))
  {
    if !present then []
    else
      var move := Move(false, MasterKeyUpload, MasterKeyPath(deployPath));
      MasterKeyMoveParses(deployPath);
      KeyChmodParses(deployPath);
      UploadFile(r, LocalMasterKey, MasterKeyUpload, DefaultMode) + [Exec(r, MoveLine(move)), Exec(r, KeyChmod(deployPath))]
  }

  lemma MasterKeyMoveParses(deployPath: string)
    ensures ' ' !in deployPath ==>
      ParseMove(MoveLine(Move(false, MasterKeyUpload, MasterKeyPath(deployPath))))
        == Some(Move(false, MasterKeyUpload, MasterKeyPath(deployPath)))
  {
    if ' ' !in deployPath {
      assert ' ' !in MasterKeyUpload;
      assert ' ' !in MasterKeyPath(deployPath) by {
        assert ' ' !in "/shared" && ' ' !in "/config/master.key";
      }
      MoveRoundTrip(Move(false, MasterKeyUpload, MasterKeyPath(deployPath)));
    }
  }

  /** `0400` reads as the mode 256, whatever the leading zero. */
  lemma KeyChmodParses(deployPath: string)
    ensures ParseChmod(KeyChmod(deployPath)) == Some((KeyMode, MasterKeyPath(deployPath)))
  {
    var rest := "0400 " + MasterKeyPath(deployPath);
    assert KeyChmod(deployPath) == "sudo chmod " + rest;
    assert KeyChmod(deployPath)[..11] == "sudo chmod ";
    assert KeyChmod(deployPath)[11..] == rest;
    IndexOfConcat("0400", ' ', MasterKeyPath(deployPath));
    assert rest == "0400" + [' '] + MasterKeyPath(deployPath);
    assert rest[..4] == "0400";
    assert rest[5..] == MasterKeyPath(deployPath);
    OctalMode();
  }

  lemma OctalMode()
    ensures ParseNat("0400", 8) == Some(KeyMode)
  {
    var s := "0400";
    assert s[..3] == "040" && s[..2] == "04" && s[..1] == "0";
    assert IsDigit('0', 8) && IsDigit('4', 8);
    assert Value("0", 8) == 0;
    assert Value("04", 8) == 4;
    assert Value("040", 8) == 32;
    assert Value(s, 8) == 256;
  }

  /** Where the tool looks for the key: `File.join(Dir.pwd, 'config', 'master.key')`. */
  function KeyFilePath(cwd: string): string {
    if EndsWith(cwd, "/") then cwd + LocalMasterKey else cwd + "/" + LocalMasterKey
  }

  function MasterKeyMessage(cwd: string): string {
    "Master key not found in " + "ENV['RAILS_MASTER_KEY'] or " + KeyFilePath(cwd)
  }

  /** `ENV['RAILS_MASTER_KEY'] || (File.exist?(path) && File.read(path).strip)`: any
      string, even an empty one, is truthy. */
  predicate KeyAvailable(env: map<string, string>, ws: Workstation) {
    "RAILS_MASTER_KEY" in env || ws.masterKeyFile.Some?
  }

  /** The check that raises when no master key can be found. */
  function KeyGate(env: map<string, string>, ws: Workstation): seq<Step> {
    if KeyAvailable(env, ws) then [] else [Halt(Raised(MasterKeyMessage(ws.cwd)))]
  }

  // ---------------------------------------------------------------------------
  // prepare: the database, the installed files and Ruby
  // ---------------------------------------------------------------------------

  /** Uploading `content` through a temporary file and running `script` to install it. */
  function Install(r: Session, content: seq<string>, upload: string, script: string): seq<Action> {
    UploadContent(r, Unlines(content), upload, DefaultMode) + [Exec(r, script)]
  }

  const RbenvClone: seq<string> := [
    "RBENV_DIR=\"$HOME/.rbenv\"",
    "if [ ! -d \"$RBENV_DIR\" ]; then",
    "  git clone https://github.com/rbenv/rbenv.git \"$RBENV_DIR\"",
    "  mkdir -p \"$RBENV_DIR/plugins\"",
    "  git clone https://github.com/rbenv/ruby-build.git \"$RBENV_DIR/plugins/ruby-build\"",
    "else",
    "  echo \"rbenv already installed\"",
    "fi",
    "" ]

  const RbenvInit: seq<string> := [
    "export RBENV_ROOT=\"$RBENV_DIR\"",
    "export PATH=\"$RBENV_ROOT/bin:$PATH\"",
    "eval \"$(rbenv init -)\"",
    "" ]

  function RubyInstall(rubyVersion: string): seq<string> {
    var q := "\"";
    [ "if ! rbenv versions | grep -q " + q + rubyVersion + q + "; then",
      "  rbenv install " + q + rubyVersion + q + OrTrue,
      "else",
      "  echo \"Ruby " + rubyVersion + " already installed\"",
      "fi",
      "",
      "rbenv global " + q + rubyVersion + q,
      "rbenv rehash",
      "" ]
  }

  const RbenvProfile: seq<string> := [
    "if ! grep -q 'rbenv init' ~/.bashrc; then",
    "  echo 'export RBENV_ROOT=\"$HOME/.rbenv\"' >> ~/.bashrc",
    "  echo 'export PATH=\"$RBENV_ROOT/bin:$PATH\"' >> ~/.bashrc",
    "  echo 'eval \"$(rbenv init -)\"' >> ~/.bashrc",
    "fi",
    "",
    "gem install bundler --no-document" + OrTrue,
    "rbenv rehash" ]

  /** The Ruby installation, run as the deploy user: rbenv and ruby-build when missing,
      the configured Ruby version, the shell profile, and bundler. */
  function RbenvLines(rubyVersion: string): seq<string> {
    RbenvClone + RbenvInit + RubyInstall(rubyVersion) + RbenvProfile
  }

  /** The account the Ruby installation runs as. */
  function DeploySession(t: Target): Session {
    Session(Some(t.deployUser), Some(t.server))
  }

  // ---------------------------------------------------------------------------
  // prepare as a list of tasks
  // ---------------------------------------------------------------------------

  /** The blocks of `prepare`: the sudo check, the two checks that raise, and the jobs
      that act on the server. */
  datatype Task = CheckSudo | Require(gate: Gate) | Act(job: Job)

  datatype Gate = MasterKeyGate | CredentialsGate

  datatype Job =
    | InstallPackages
    | CreateDeployUser
    | CopyAuthorizedKeys
    | CreateDirectories
    | UploadMasterKey
    | CreateDatabase
    | InstallNginxSite
    | InstallPumaUnit
    | InstallPumaConfig
    | InstallLauncher
    | InstallRuby

  /** The tasks before the master-key check. */
  const SetupTasks: seq<Task> :=
    [CheckSudo, Act(InstallPackages), Act(CreateDeployUser), Act(CopyAuthorizedKeys),
     Act(CreateDirectories), Act(UploadMasterKey)]

  /** The tasks after the master-key check. */
  const ProvisionTasks: seq<Task> :=
    [Require(CredentialsGate), Act(CreateDatabase), Act(InstallNginxSite), Act(InstallPumaUnit),
     Act(InstallPumaConfig), Act(InstallLauncher), Act(InstallRuby)]

  const PrepareTasks: seq<Task> := SetupTasks + [Require(MasterKeyGate)] + ProvisionTasks

  /** The remote actions of a job, for the target `t` and the workstation `ws`. Every
      command runs as the setup user except the Ruby installation, which runs as the
      deploy user. When the credentials cannot be read the run has already stopped at the
      credentials check, so `CreateDatabase` has nothing to do. */
  function JobActions(job: Job, t: Target, ws: Workstation): seq<Action> {
    var r := Session(Some(t.setupUser), Some(t.server));
    match job
    case InstallPackages => [Exec(r, Unlines(AptLines()))]
    case CreateDeployUser => [Exec(r, Unlines(DeployUserLines(t.deployUser)))]
    case CopyAuthorizedKeys => [Exec(r, Unlines(AuthorizedKeysLines(t.deployUser, t.setupUser)))]
    case CreateDirectories => [Exec(r, Unlines(DirectoryLines(t.deployPath, t.deployUser)))]
    case UploadMasterKey => MasterKeyActions(r, ws.masterKeyFile.Some?, t.deployPath)
    case CreateDatabase =>
      (match ws.credentials
       case None => []
       case Some(c) => [Exec(r, MysqlCommand(SqlText(c)))])
    case InstallNginxSite =>
      Install(r, NginxSite(t.domain, t.deployPath), NginxUpload(t.app), Unlines(NginxInstall(t.app)))
    case InstallPumaUnit =>
      Install(r, PumaUnit(t.app, t.deployUser, t.deployPath), UnitUpload(t.app), Unlines(UnitInstall(t.app)))
    case InstallPumaConfig =>
      Install(r, PumaConfig(t.deployPath), PumaUpload, PumaMove(t.deployPath))
    case InstallLauncher =>
      Install(r, Launcher(t.deployPath), LauncherUpload, Unlines(LauncherInstall(t.deployUser, t.deployPath)))
    case InstallRuby => [Exec(DeploySession(t), Unlines(RbenvLines(t.rubyVersion)))]
  }

  /** The check that raises when the credentials cannot be read. */
  function CredentialsCheck(ws: Workstation): seq<Step> {
    if ws.credentials.None? then [Halt(CredentialsUnavailable)] else []
  }

  /** The steps of one task; a job's failure propagates. */
  function TaskSteps(task: Task, t: Target, env: map<string, string>, ws: Workstation): seq<Step> {
    match task
    case CheckSudo => [Check(SudoCommand(t.setupUser, t.server), SudoWarning(t.setupUser, t.server))]
    case Require(MasterKeyGate) => KeyGate(env, ws)
    case Require(CredentialsGate) => CredentialsCheck(ws)
    case Act(job) => Propagated(JobActions(job, t, ws))
  }

  /** The steps of every task of `prepare`. */
  function Perform(t: Target, env: map<string, string>, ws: Workstation): Task -> seq<Step> {
    task => TaskSteps(task, t, env, ws)
  }

  /** The reason a task may stop the run with, if it can stop it at all. */
  function TaskStop(task: Task, ws: Workstation): Option<Stop> {
    match task
    case Require(MasterKeyGate) => Some(Raised(MasterKeyMessage(ws.cwd)))
    case Require(CredentialsGate) => Some(CredentialsUnavailable)
    case _ => None
  }

  /** Only the two checks that raise halt the run, each with its own reason. */
  lemma TaskHalts(task: Task, t: Target, env: map<string, string>, ws: Workstation, st: Stop)
    requires TaskStop(task, ws) != Some(st)
    ensures Halt(st) !in Perform(t, env, ws)(task)
  {
    match task
    case Act(job) =>
      var acts := JobActions(job, t, ws);
      assert Propagated(acts) == TaskSteps(task, t, env, ws);
    case _ =>
  }

  /** The tasks before the master-key check: the sudo check, the setup scripts and the
      master key. */
  function Setup(t: Target, env: map<string, string>, ws: Workstation): seq<Step> {
    Expand(SetupTasks, Perform(t, env, ws))
  }

  /** `prepare`, with `env` the process environment at the time it runs. */
  function Prepare(s: Settings, env: map<string, string>, ws: Workstation): seq<Step> {
    if !Configured(s) then [Halt(Raised(MissingConfigMessage))]
    else Expand(PrepareTasks, Perform(TargetOf(s), env, ws))
  }

  /** `caput server`: without a configuration file the tool aborts; otherwise the settings
      are copied into the environment, the dependencies are checked, and the server is
      prepared. */
  function ServerCommand(file: Option<string>, ws: Workstation): seq<Step> {
    match LoadConfig(file)
    case None => [Halt(Aborted(NotFoundMessage))]
    case Some(s) => CheckDependencies(s) + Prepare(s, PopulateEnv(ws.env, s), ws)
  }

  // ---------------------------------------------------------------------------
  // Properties of prepare
  // ---------------------------------------------------------------------------

  /** `prepare` raises before doing anything exactly when a required setting is
      missing. */
  lemma PrepareGate(s: Settings, env: map<string, string>, ws: Workstation, obs: Observations, base: nat)
    ensures Run(Prepare(s, env, ws), obs, base) == RunResult(1, Some(Raised(MissingConfigMessage)))
      <==> !Configured(s)
    ensures !Configured(s) ==> !ReachesServer(Prepare(s, env, ws), |Prepare(s, env, ws)|)
  {
    var steps := Prepare(s, env, ws);
    if !Configured(s) {
      HaltFirst(steps, obs, base);
    } else {
      SudoFirst(s, env, ws);
      RunMeans(steps, obs, base);
    }
  }

  /** The sudo check comes first. */
  lemma SudoFirst(s: Settings, env: map<string, string>, ws: Workstation)
    requires Configured(s)
    ensures |Prepare(s, env, ws)| > 0
    ensures Prepare(s, env, ws)[0] == Check(SudoCommand(s["SETUP_USER"], s["SERVER"]), SudoWarning(s["SETUP_USER"], s["SERVER"]))
  {
    var f := Perform(TargetOf(s), env, ws);
    assert PrepareTasks[0] == CheckSudo;
    assert Expand(PrepareTasks, f) == f(CheckSudo) + Expand(PrepareTasks[1..], f);
  }

  /** When the setup user cannot use sudo without a password, `prepare` aborts with the
      warning before any command reaches the server. */
  lemma SudoChecked(s: Settings, env: map<string, string>, ws: Workstation, obs: Observations, base: nat)
    requires Configured(s) && obs(base) != Some(0)
    ensures Run(Prepare(s, env, ws), obs, base) ==
      RunResult(1, Some(Aborted(SudoWarning(s["SETUP_USER"], s["SERVER"]))))
    ensures !ReachesServer(Prepare(s, env, ws), 1)
  {
    SudoFirst(s, env, ws);
    StopsAtFirstFailure(Prepare(s, env, ws), obs, base, 0);
  }

  /** `prepare` raises the master-key message exactly when the setup went through and
      neither the environment nor the key file supplies a key. */
  lemma MasterKeyRequired(s: Settings, env: map<string, string>, ws: Workstation, obs: Observations, base: nat)
    requires Configured(s)
    ensures Run(Prepare(s, env, ws), obs, base).stop == Some(Raised(MasterKeyMessage(ws.cwd)))
      <==> Run(Setup(TargetOf(s), env, ws), obs, base).stop.None? && !KeyAvailable(env, ws)
  {
    var t := TargetOf(s);
    var st := Raised(MasterKeyMessage(ws.cwd));
    forall x | x in SetupTasks
      ensures Halt(st) !in Perform(t, env, ws)(x)
    {
      TaskHalts(x, t, env, ws, st);
    }
    forall x | x in ProvisionTasks
      ensures Halt(st) !in Perform(t, env, ws)(x)
    {
      TaskHalts(x, t, env, ws, st);
    }
    ExpandGate(SetupTasks, Require(MasterKeyGate), ProvisionTasks, Perform(t, env, ws), obs, base, st);
  }

  /** Past the master-key check exactly when the setup went through and a key was found. */
  lemma KeyChecked(t: Target, env: map<string, string>, ws: Workstation, obs: Observations, base: nat)
    ensures Run(Expand(SetupTasks + [Require(MasterKeyGate)], Perform(t, env, ws)), obs, base).stop.None?
      <==> Run(Setup(t, env, ws), obs, base).stop.None? && KeyAvailable(env, ws)
  {
    var f := Perform(t, env, ws);
    ExpandAppend(SetupTasks, [Require(MasterKeyGate)], f);
    assert Expand([Require(MasterKeyGate)], f) == KeyGate(env, ws) by {
      assert [Require(MasterKeyGate)][1..] == [];
    }
    RunCompletes(Setup(t, env, ws), KeyGate(env, ws), obs, base);
    if !KeyAvailable(env, ws) {
      HaltFirst(KeyGate(env, ws), obs, base + |Setup(t, env, ws)|);
    }
  }

  /** `prepare` stops for want of credentials exactly when the setup went through, a key
      was found, and reading the credentials failed. */
  lemma CredentialsRequired(s: Settings, env: map<string, string>, ws: Workstation, obs: Observations, base: nat)
    requires Configured(s)
    ensures Run(Prepare(s, env, ws), obs, base).stop == Some(CredentialsUnavailable)
      <==> Run(Setup(TargetOf(s), env, ws), obs, base).stop.None? && KeyAvailable(env, ws)
           && ws.credentials.None?
  {
    var t := TargetOf(s);
    var st := CredentialsUnavailable;
    var first := SetupTasks + [Require(MasterKeyGate)];
    var rest := ProvisionTasks[1..];
    forall x | x in first
      ensures Halt(st) !in Perform(t, env, ws)(x)
    {
      TaskHalts(x, t, env, ws, st);
    }
    forall x | x in rest
      ensures Halt(st) !in Perform(t, env, ws)(x)
    {
      TaskHalts(x, t, env, ws, st);
    }
    assert PrepareTasks == first + [Require(CredentialsGate)] + rest;
    ExpandGate(first, Require(CredentialsGate), rest, Perform(t, env, ws), obs, base, st);
    KeyChecked(t, env, ws, obs, base);
  }

  /** A master key given in the configuration file counts: loading the configuration
      copies every setting into the environment. */
  lemma ConfiguredMasterKey(s: Settings, ws: Workstation)
    requires "RAILS_MASTER_KEY" in s
    ensures KeyAvailable(PopulateEnv(ws.env, s), ws)
  {
  }

  // ---------------------------------------------------------------------------
  // Properties of the whole command
  // ---------------------------------------------------------------------------

  /** Without a configuration file the command aborts before contacting the server. */
  lemma ServerWithoutConfig(ws: Workstation, obs: Observations, base: nat)
    ensures Run(ServerCommand(None, ws), obs, base) == RunResult(1, Some(Aborted(NotFoundMessage)))
  {
    HaltFirst(ServerCommand(None, ws), obs, base);
  }

  /** With a configuration file, the dependency check comes first: if it fails the command
      exits with status 1 and `prepare` never starts; otherwise `prepare` runs on the
      settings of the file, with the settings copied into the environment. */
  lemma ServerChecksFirst(text: string, ws: Workstation, obs: Observations, base: nat)
    ensures
      var s := Parse(ReadLines(text));
      var check := Run(CheckDependencies(s), obs, base);
      var prep := Run(Prepare(s, PopulateEnv(ws.env, s), ws), obs, base + 2);
      Run(ServerCommand(Some(text), ws), obs, base) ==
        if check.stop.Some? then check else RunResult(2 + prep.ran, prep.stop)
    ensures
      var s := Parse(ReadLines(text));
      Run(CheckDependencies(s), obs, base).stop.Some? ==>
        Run(ServerCommand(Some(text), ws), obs, base).stop == Some(Exited(1))
  {
    var s := Parse(ReadLines(text));
    CheckDependenciesRun(s, obs, base);
    RunAppend(CheckDependencies(s), Prepare(s, PopulateEnv(ws.env, s), ws), obs, base);
  }
}
