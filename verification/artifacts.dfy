/** The files `prepare` installs on the server, as lines of text, and the paths they are
    installed at. Every template is a heredoc of server.rb with its common indentation
    removed; `#{x}` of a nil configuration value renders as the empty string, so the
    templates take plain strings. */
module Artifacts {
  import opened Wrappers
  import opened Text
  import opened Shell

  // ---------------------------------------------------------------------------
  // Paths
  // ---------------------------------------------------------------------------

  /** Capistrano's shared directory under the deploy path. */
  function SharedDir(deployPath: string): string {
    deployPath + "/shared"
  }

  function CurrentDir(deployPath: string): string {
    deployPath + "/current"
  }

  /** The Unix socket Puma binds and nginx proxies to. */
  function SocketPath(deployPath: string): string {
    SharedDir(deployPath) + "/tmp/sockets/puma.sock"
  }

  function PidPath(deployPath: string): string {
    SharedDir(deployPath) + "/tmp/pids/puma.pid"
  }

  function PumaConfigPath(deployPath: string): string {
    SharedDir(deployPath) + "/puma.rb"
  }

  function LauncherPath(deployPath: string): string {
    SharedDir(deployPath) + "/bin/start_puma.sh"
  }

  function MasterKeyPath(deployPath: string): string {
    SharedDir(deployPath) + "/config/master.key"
  }

  function SiteAvailable(app: string): string {
    "/etc/nginx/sites-available/" + app
  }

  function SiteEnabled(app: string): string {
    "/etc/nginx/sites-enabled/" + app
  }

  /** The systemd unit of the application's Puma service. */
  function UnitName(app: string): string {
    app + "-puma"
  }

  function UnitPath(app: string): string {
    "/etc/systemd/system/" + UnitName(app) + ".service"
  }

  // ---------------------------------------------------------------------------
  // The nginx site (server.rb `nginx_conf`)
  // ---------------------------------------------------------------------------

  const ServerNameKey: string := "    server_name "
  const RootKey: string := "    root "
  const PublicSuffix: string := "/current/public;"
  const ProxyPassKey: string := "        proxy_pass " + "http://unix:"

  function SiteHead(domain: string, deployPath: string): seq<string> {
    [ "server {",
      "    listen 80;",
      ServerNameKey + domain + ";",
      "",
      RootKey + deployPath + PublicSuffix,
      "" ]
  }

  const SiteStatic: seq<string> := [
    "    location / {",
    "        try_files $uri @puma;",
    "    }",
    "" ]

  function SiteUpstream(deployPath: string): seq<string> {
    [ "    location @puma {",
      ProxyPassKey + SocketPath(deployPath) + ";",
      "        proxy_set_header " + "X-Forwarded-For " + "$proxy_add_x_forwarded_for;",
      "        proxy_set_header " + "Host $http_host;",
      "        proxy_redirect off;",
      "    }",
      "" ]
  }

  const SiteTail: seq<string> := [
    "    error_page 500 502 503 " + "504 /500.html;",
    "}" ]

  /** The site configuration `prepare` uploads and enables. */
  function NginxSite(domain: string, deployPath: string): seq<string> {
    SiteHead(domain, deployPath) + SiteStatic + SiteUpstream(deployPath) + SiteTail
  }

  /** The site answers for the configured domain. */
  lemma SiteServerName(domain: string, deployPath: string)
    ensures Field(NginxSite(domain, deployPath), ServerNameKey, ";") == Some(domain)
  {
    var head := SiteHead(domain, deployPath);
    Framed(ServerNameKey, domain, ";");
    Unmarked(head[0], ServerNameKey, ";", 0);
    Unmarked(head[1], ServerNameKey, ";", 4);
    FieldAt(head, ServerNameKey, ";", 2);
    FieldFirst(head, SiteStatic + SiteUpstream(deployPath) + SiteTail, ServerNameKey, ";");
    assert NginxSite(domain, deployPath) == head + (SiteStatic + SiteUpstream(deployPath) + SiteTail);
  }

  /** Static files are served from the public directory of the current release. */
  lemma SiteRoot(domain: string, deployPath: string)
    ensures Field(NginxSite(domain, deployPath), RootKey, PublicSuffix) == Some(deployPath)
  {
    var head := SiteHead(domain, deployPath);
    Framed(RootKey, deployPath, PublicSuffix);
    Unmarked(head[0], RootKey, PublicSuffix, 0);
    Unmarked(head[1], RootKey, PublicSuffix, 4);
    Unmarked(head[2], RootKey, PublicSuffix, 4);
    Unmarked(head[3], RootKey, PublicSuffix, 0);
    FieldAt(head, RootKey, PublicSuffix, 4);
    FieldFirst(head, SiteStatic + SiteUpstream(deployPath) + SiteTail, RootKey, PublicSuffix);
    assert NginxSite(domain, deployPath) == head + (SiteStatic + SiteUpstream(deployPath) + SiteTail);
  }

  lemma HeadHasNoProxy(domain: string, deployPath: string)
    ensures forall j | 0 <= j < |SiteHead(domain, deployPath) + SiteStatic| ::
      !HasField((SiteHead(domain, deployPath) + SiteStatic)[j], ProxyPassKey, ";")
  {
    var ls := SiteHead(domain, deployPath) + SiteStatic;
    Unmarked(ls[0], ProxyPassKey, ";", 0);
    Unmarked(ls[1], ProxyPassKey, ";", 4);
    Unmarked(ls[2], ProxyPassKey, ";", 4);
    Unmarked(ls[3], ProxyPassKey, ";", 0);
    Unmarked(ls[4], ProxyPassKey, ";", 4);
    Unmarked(ls[5], ProxyPassKey, ";", 0);
    Unmarked(ls[6], ProxyPassKey, ";", 4);
    Unmarked(ls[7], ProxyPassKey, ";", 8);
    Unmarked(ls[8], ProxyPassKey, ";", 4);
    Unmarked(ls[9], ProxyPassKey, ";", 0);
  }

  /** Requests the site does not serve from disk go to the Puma socket. */
  lemma SiteProxy(domain: string, deployPath: string)
    ensures Field(NginxSite(domain, deployPath), ProxyPassKey, ";") == Some(SocketPath(deployPath))
  {
    var front := SiteHead(domain, deployPath) + SiteStatic;
    var up := SiteUpstream(deployPath);
    HeadHasNoProxy(domain, deployPath);
    Framed(ProxyPassKey, SocketPath(deployPath), ";");
    Unmarked(up[0], ProxyPassKey, ";", 4);
    FieldAt(up, ProxyPassKey, ";", 1);
    FieldFirst(up, SiteTail, ProxyPassKey, ";");
    FieldSkip(front, up + SiteTail, ProxyPassKey, ";");
    assert NginxSite(domain, deployPath) == front + (up + SiteTail);
  }

  // ---------------------------------------------------------------------------
  // The Puma service unit (server.rb `service_file`)
  // ---------------------------------------------------------------------------

  const UserKey: string := "User="
  const WorkingDirectoryKey: string := "WorkingDirectory="
  const ExecStartKey: string := "ExecStart="

  function UnitHead(app: string): seq<string> {
    [ "[Unit]",
      "Description=Puma HTTP Server " + "for " + app,
      "After=network.target",
      "" ]
  }

  function UnitService(deployUser: string, deployPath: string): seq<string> {
    [ "[Service]",
      "Type=simple",
      UserKey + deployUser,
      WorkingDirectoryKey + CurrentDir(deployPath),
      "Environment=" + "\"RAILS_ENV=production\"",
      "Environment=" + "\"RACK_ENV=production\"",
      ExecStartKey + LauncherPath(deployPath),
      "Restart=always",
      "" ]
  }

  const UnitInstallSection: seq<string> := [
    "[Install]",
    "WantedBy=multi-user.target" ]

  /** The systemd unit `prepare` installs and enables. */
  function PumaUnit(app: string, deployUser: string, deployPath: string): seq<string> {
    UnitHead(app) + UnitService(deployUser, deployPath) + UnitInstallSection
  }

  /** No line of the unit's head sets a `[Service]` key: each starts with a character
      none of them does. */
  lemma UnitHeadSkipped(app: string, key: string)
    requires |key| > 0 && key[0] !in "[DA"
    ensures forall j | 0 <= j < |UnitHead(app)| :: !HasField(UnitHead(app)[j], key, "")
  {
    var h := UnitHead(app);
    assert h[0][0] == '[' && h[1][0] == 'D' && h[2][0] == 'A';
    Unmarked(h[0], key, "", 0);
    Unmarked(h[1], key, "", 0);
    Unmarked(h[2], key, "", 0);
    Unmarked(h[3], key, "", 0);
  }

  /** The service runs as the deploy user. */
  lemma UnitUser(app: string, deployUser: string, deployPath: string)
    ensures Field(PumaUnit(app, deployUser, deployPath), UserKey, "") == Some(deployUser)
  {
    var sv := UnitService(deployUser, deployPath);
    UnitHeadSkipped(app, UserKey);
    Unmarked(sv[0], UserKey, "", 0);
    Unmarked(sv[1], UserKey, "", 0);
    Framed(UserKey, deployUser, "");
    assert UserKey + deployUser + "" == sv[2];
    FieldAt(sv, UserKey, "", 2);
    FieldFirst(sv, UnitInstallSection, UserKey, "");
    FieldSkip(UnitHead(app), sv + UnitInstallSection, UserKey, "");
    assert PumaUnit(app, deployUser, deployPath) == UnitHead(app) + (sv + UnitInstallSection);
  }

  /** The service starts in the current release, the directory the launcher changes to. */
  lemma UnitWorkingDirectory(app: string, deployUser: string, deployPath: string)
    ensures Field(PumaUnit(app, deployUser, deployPath), WorkingDirectoryKey, "") == Some(CurrentDir(deployPath))
  {
    var sv := UnitService(deployUser, deployPath);
    UnitHeadSkipped(app, WorkingDirectoryKey);
    Unmarked(sv[0], WorkingDirectoryKey, "", 0);
    Unmarked(sv[1], WorkingDirectoryKey, "", 0);
    Unmarked(sv[2], WorkingDirectoryKey, "", 0);
    Framed(WorkingDirectoryKey, CurrentDir(deployPath), "");
    assert WorkingDirectoryKey + CurrentDir(deployPath) + "" == sv[3];
    FieldAt(sv, WorkingDirectoryKey, "", 3);
    FieldFirst(sv, UnitInstallSection, WorkingDirectoryKey, "");
    FieldSkip(UnitHead(app), sv + UnitInstallSection, WorkingDirectoryKey, "");
    assert PumaUnit(app, deployUser, deployPath) == UnitHead(app) + (sv + UnitInstallSection);
  }

  /** The service runs the launcher script at the path it is installed to. */
  lemma UnitExecStart(app: string, deployUser: string, deployPath: string)
    ensures Field(PumaUnit(app, deployUser, deployPath), ExecStartKey, "") == Some(LauncherPath(deployPath))
  {
    var sv := UnitService(deployUser, deployPath);
    UnitHeadSkipped(app, ExecStartKey);
    Unmarked(sv[0], ExecStartKey, "", 0);
    Unmarked(sv[1], ExecStartKey, "", 0);
    Unmarked(sv[2], ExecStartKey, "", 0);
    Unmarked(sv[3], ExecStartKey, "", 0);
    Unmarked(sv[4], ExecStartKey, "", 1);
    Unmarked(sv[5], ExecStartKey, "", 1);
    Framed(ExecStartKey, LauncherPath(deployPath), "");
    assert ExecStartKey + LauncherPath(deployPath) + "" == sv[6];
    FieldAt(sv, ExecStartKey, "", 6);
    FieldFirst(sv, UnitInstallSection, ExecStartKey, "");
    FieldSkip(UnitHead(app), sv + UnitInstallSection, ExecStartKey, "");
    assert PumaUnit(app, deployUser, deployPath) == UnitHead(app) + (sv + UnitInstallSection);
  }

  // ---------------------------------------------------------------------------
  // Puma's configuration (server.rb `puma_rb`)
  // ---------------------------------------------------------------------------

  /** The Ruby interpolation the configuration file leaves for Puma to evaluate: the
      heredoc escapes it, so it is written out literally. */
  const SharedDirVar: string := "#{shared_dir}"
  const SharedDirKey: string := "shared_dir = \""
  const BindKey: string := "bind \"unix://"
  const PidfileKey: string := "pidfile \""

  function PumaConfig(deployPath: string): seq<string> {
    [ "threads 0,16",
      "workers 1",
      "app_dir = \"" + CurrentDir(deployPath) + "\"",
      SharedDirKey + SharedDir(deployPath) + "\"",
      BindKey + SharedDirVar + "/tmp/sockets/puma.sock" + "\"",
      PidfileKey + SharedDirVar + "/tmp/pids/puma.pid" + "\"",
      "stdout_redirect \"" + SharedDirVar + "/log/puma.stdout.log\", "
        + "\"" + SharedDirVar + "/log/puma.stderr.log\", true" ]
  }

  /** A quoted setting of `puma.rb` as text: what stands between the setting's opening
      and closing quote, with `#{shared_dir}` replaced by the text the file assigns to
      `shared_dir`. This is not an evaluation of the Ruby file. */
  function PumaSetting(config: seq<string>, key: string): Option<string> {
    var shared :- Field(config, SharedDirKey, "\"");
    var raw :- Field(config, key, "\"");
    Some(Substitute(raw, SharedDirVar, shared))
  }

  lemma PumaSharedDir(deployPath: string)
    ensures Field(PumaConfig(deployPath), SharedDirKey, "\"") == Some(SharedDir(deployPath))
  {
    var c := PumaConfig(deployPath);
    Unmarked(c[0], SharedDirKey, "\"", 0);
    Unmarked(c[1], SharedDirKey, "\"", 0);
    Unmarked(c[2], SharedDirKey, "\"", 0);
    Framed(SharedDirKey, SharedDir(deployPath), "\"");
    FieldAt(c, SharedDirKey, "\"", 3);
  }

  /** The configuration's lines before the bind line. */
  lemma PumaFrontSkipped(deployPath: string, key: string)
    requires |key| > 0 && key[0] !in "twas"
    ensures forall j | 0 <= j < 4 :: !HasField(PumaConfig(deployPath)[j], key, "\"")
  {
    var c := PumaConfig(deployPath);
    assert c[0][0] == 't' && c[1][0] == 'w' && c[2][0] == 'a' && c[3][0] == 's';
    Unmarked(c[0], key, "\"", 0);
    Unmarked(c[1], key, "\"", 0);
    Unmarked(c[2], key, "\"", 0);
    Unmarked(c[3], key, "\"", 0);
  }

  /** The `bind` setting written into `puma.rb` names the shared socket. */
  lemma PumaBindsSocket(deployPath: string)
    ensures PumaSetting(PumaConfig(deployPath), BindKey) == Some(SocketPath(deployPath))
  {
    var c := PumaConfig(deployPath);
    var raw := SharedDirVar + "/tmp/sockets/puma.sock";
    PumaSharedDir(deployPath);
    PumaFrontSkipped(deployPath, BindKey);
    Framed(BindKey, raw, "\"");
    assert c[4] == BindKey + raw + "\"";
    FieldAt(c, BindKey, "\"", 4);
    SubstituteHead(SharedDirVar, "/tmp/sockets/puma.sock", SharedDir(deployPath));
  }

  /** The `pidfile` setting written into `puma.rb` names the shared pid file. */
  lemma PumaPidfile(deployPath: string)
    ensures PumaSetting(PumaConfig(deployPath), PidfileKey) == Some(PidPath(deployPath))
  {
    var c := PumaConfig(deployPath);
    var raw := SharedDirVar + "/tmp/pids/puma.pid";
    PumaSharedDir(deployPath);
    PumaFrontSkipped(deployPath, PidfileKey);
    Unmarked(c[4], PidfileKey, "\"", 0);
    Framed(PidfileKey, raw, "\"");
    assert c[5] == PidfileKey + raw + "\"";
    FieldAt(c, PidfileKey, "\"", 5);
    SubstituteHead(SharedDirVar, "/tmp/pids/puma.pid", SharedDir(deployPath));
  }

  // ---------------------------------------------------------------------------
  // The launcher script (server.rb `start_sh`)
  // ---------------------------------------------------------------------------

  const CdKey: string := "cd "
  const CdSuffix: string := " || exit 1"
  const PumaCommandKey: string := "exec $RBENV_ROOT/shims/" + "bundle exec puma -C "

  function Launcher(deployPath: string): seq<string> {
    [ "#!/bin/bash",
      "export RBENV_ROOT=" + "\"$HOME/.rbenv\"",
      "export PATH=" + "\"$RBENV_ROOT/bin:$PATH\"",
      "eval \"$(rbenv init -)\"",
      CdKey + CurrentDir(deployPath) + CdSuffix,
      PumaCommandKey + PumaConfigPath(deployPath) ]
  }

  /** The launcher starts Puma from the current release, the unit's working directory. */
  lemma LauncherDirectory(deployPath: string)
    ensures Field(Launcher(deployPath), CdKey, CdSuffix) == Some(CurrentDir(deployPath))
  {
    var l := Launcher(deployPath);
    assert l[1][0] == 'e' && l[2][0] == 'e' && l[3][0] == 'e';
    Unmarked(l[0], CdKey, CdSuffix, 0);
    Unmarked(l[1], CdKey, CdSuffix, 0);
    Unmarked(l[2], CdKey, CdSuffix, 0);
    Unmarked(l[3], CdKey, CdSuffix, 0);
    Framed(CdKey, CurrentDir(deployPath), CdSuffix);
    FieldAt(l, CdKey, CdSuffix, 4);
  }

  /** The launcher hands Puma the configuration file at the path it is installed to. */
  lemma LauncherConfig(deployPath: string)
    ensures Field(Launcher(deployPath), PumaCommandKey, "") == Some(PumaConfigPath(deployPath))
  {
    var l := Launcher(deployPath);
    assert l[1][2] == 'p' && l[2][2] == 'p' && l[3][1] == 'v' && l[4][0] == 'c';
    Unmarked(l[0], PumaCommandKey, "", 0);
    Unmarked(l[1], PumaCommandKey, "", 2);
    Unmarked(l[2], PumaCommandKey, "", 2);
    Unmarked(l[3], PumaCommandKey, "", 1);
    Unmarked(l[4], PumaCommandKey, "", 0);
    Framed(PumaCommandKey, PumaConfigPath(deployPath), "");
    assert l[5] == PumaCommandKey + PumaConfigPath(deployPath) + "";
    FieldAt(l, PumaCommandKey, "", 5);
  }

  // ---------------------------------------------------------------------------
  // Installing the uploaded files
  // ---------------------------------------------------------------------------

  /** Where `prepare` uploads each file before moving it into place. */
  function NginxUpload(app: string): string {
    "/tmp/" + app + ".nginx"
  }

  function UnitUpload(app: string): string {
    "/tmp/" + UnitName(app) + ".service"
  }

  const PumaUpload: string := "/tmp/puma.rb"
  const LauncherUpload: string := "/tmp/start_puma.sh"

  /** A `sudo mv` of one file, forced (`-f`) or not. */
  datatype Move = Move(force: bool, source: string, target: string)

  const MoveKey: string := "sudo mv "
  const ForceFlag: string := "-f "
  const OrTrue: string := " || true"

  function MoveLine(m: Move): string {
    MoveKey + (if m.force then ForceFlag else "") + m.source + " " + m.target
  }

  /** The command of a line, without a trailing ` || true`. */
  function Guarded(line: string): string {
    if EndsWith(line, OrTrue) then line[..|line| - |OrTrue|] else line
  }

  /** Two words separated by one space. */
  function SplitWords(args: string): Option<(string, string)> {
    var k := IndexOf(args, ' ');
    if k == |args| || ' ' in args[k + 1..] then None
    else Some((args[..k], args[k + 1..]))
  }

  lemma SplitWordsJoin(a: string, b: string)
    requires ' ' !in a && ' ' !in b
    ensures SplitWords(a + " " + b) == Some((a, b))
  {
    var args := a + " " + b;
    IndexOfConcat(a, ' ', b);
    assert args[..|a|] == a;
    assert args[|a| + 1..] == b;
  }

  /** Reads a `sudo mv` line back: an optional `-f`, then two words. */
  function ParseMove(line: string): Option<Move> {
    var rest :- DropPrefix(line, MoveKey);
    var force := DropPrefix(rest, ForceFlag).Some?;
    var words :- SplitWords(if force then rest[|ForceFlag|..] else rest);
    Some(Move(force, words.0, words.1))
  }

  /** A move of an absolute path to a path without spaces reads back as itself. */
  lemma MoveRoundTrip(m: Move)
    requires |m.source| > 0 && m.source[0] == '/' && ' ' !in m.source && ' ' !in m.target
    ensures ParseMove(MoveLine(m)) == Some(m)
  {
    var args := m.source + " " + m.target;
    var flag := if m.force then ForceFlag else "";
    assert MoveLine(m) == MoveKey + (flag + args);
    DropPrefixConcat(MoveKey, flag + args);
    var rest := flag + args;
    if m.force {
      DropPrefixConcat(ForceFlag, args);
      assert rest[|ForceFlag|..] == args;
    } else {
      assert rest == args;
      DropPrefixMiss(args, ForceFlag, 0);
    }
    SplitWordsJoin(m.source, m.target);
  }

  /** A line ending in a word of eight or more non-space characters is not tolerant. */
  lemma NotGuarded(line: string, word: string)
    requires |word| >= |OrTrue| && ' ' !in word && EndsWith(line, word)
    ensures Guarded(line) == line
  {
    var i := |line| - |OrTrue|;
    assert line[i] == line[|line| - |word|..][|word| - |OrTrue|];
    assert line[i] != ' ';
    assert line[i..][0] != OrTrue[0];
  }

  lemma MoveEndsWithTarget(m: Move)
    ensures EndsWith(MoveLine(m), m.target)
  {
    EndsWithConcat(MoveKey + (if m.force then ForceFlag else "") + m.source + " ", m.target);
  }

  /** A move without ` || true` to a long enough target reads back as itself. */
  lemma PlainMove(m: Move)
    requires |m.source| > 0 && m.source[0] == '/' && ' ' !in m.source && ' ' !in m.target
    requires |m.target| >= |OrTrue|
    ensures Guarded(MoveLine(m)) == MoveLine(m)
    ensures ParseMove(MoveLine(m)) == Some(m)
  {
    MoveRoundTrip(m);
    MoveEndsWithTarget(m);
    NotGuarded(MoveLine(m), m.target);
  }

  lemma GuardedOrTrue(line: string)
    ensures Guarded(line + OrTrue) == line
  {
    EndsWithConcat(line, OrTrue);
  }

  function NginxInstall(app: string): seq<string> {
    [ MoveLine(Move(false, NginxUpload(app), SiteAvailable(app))),
      "sudo ln -sf " + SiteAvailable(app) + " " + SiteEnabled(app),
      "sudo nginx -t",
      "sudo systemctl reload nginx" ]
  }

  function UnitInstall(app: string): seq<string> {
    [ MoveLine(Move(false, UnitUpload(app), UnitPath(app))),
      "sudo systemctl daemon-reload",
      "sudo systemctl enable " + UnitName(app) ]
  }

  /** Moving Puma's configuration into place; the move is allowed to fail. */
  function PumaMove(deployPath: string): string {
    MoveLine(Move(true, PumaUpload, PumaConfigPath(deployPath))) + OrTrue
  }

  function LauncherInstall(deployUser: string, deployPath: string): seq<string> {
    [ "sudo mkdir -p " + SharedDir(deployPath) + "/bin",
      MoveLine(Move(true, LauncherUpload, LauncherPath(deployPath))),
      "sudo chown -R " + deployUser + ":" + deployUser + " " + SharedDir(deployPath),
      "sudo chmod +x " + LauncherPath(deployPath) ]
  }

  /** The nginx site is moved from where it was uploaded to the available sites. */
  lemma NginxInstallMoves(app: string)
    requires ' ' !in app
    ensures Guarded(NginxInstall(app)[0]) == NginxInstall(app)[0]
    ensures ParseMove(NginxInstall(app)[0]) == Some(Move(false, NginxUpload(app), SiteAvailable(app)))
  {
    var m := Move(false, NginxUpload(app), SiteAvailable(app));
    assert ' ' !in NginxUpload(app) by {
      assert ' ' !in "/tmp/" && ' ' !in ".nginx";
    }
    assert ' ' !in SiteAvailable(app) by {
      assert ' ' !in "/etc/nginx/sites-available/";
    }
    assert NginxInstall(app)[0] == MoveLine(m);
    PlainMove(m);
  }

  lemma UnitInstallMoves(app: string)
    requires ' ' !in app
    ensures Guarded(UnitInstall(app)[0]) == UnitInstall(app)[0]
    ensures ParseMove(UnitInstall(app)[0]) == Some(Move(false, UnitUpload(app), UnitPath(app)))
  {
    var m := Move(false, UnitUpload(app), UnitPath(app));
    assert ' ' !in UnitUpload(app) by {
      assert ' ' !in "/tmp/" && ' ' !in "-puma" && ' ' !in ".service";
    }
    assert ' ' !in UnitPath(app) by {
      assert ' ' !in "/etc/systemd/system/" && ' ' !in "-puma" && ' ' !in ".service";
    }
    assert UnitInstall(app)[0] == MoveLine(m);
    PlainMove(m);
  }

  /** The configuration move ends in ` || true`; what it moves is what was uploaded, and
      it goes where the launcher looks for it. */
  lemma PumaMoveTargets(deployPath: string)
    requires ' ' !in deployPath
    ensures Tolerant(PumaMove(deployPath))
    ensures ParseMove(Guarded(PumaMove(deployPath))) == Some(Move(true, PumaUpload, PumaConfigPath(deployPath)))
  {
    var m := Move(true, PumaUpload, PumaConfigPath(deployPath));
    EndsWithConcat(MoveLine(m), OrTrue);
    GuardedOrTrue(MoveLine(m));
    assert ' ' !in PumaUpload;
    assert ' ' !in PumaConfigPath(deployPath) by {
      assert ' ' !in "/shared" && ' ' !in "/puma.rb";
    }
    MoveRoundTrip(m);
  }

  /** A single tolerant command cannot fail the script it forms. */
  lemma PumaMoveSucceeds(deployPath: string, status: string -> int)
    ensures ScriptStatus([PumaMove(deployPath)], status) == 0
  {
    var m := Move(true, PumaUpload, PumaConfigPath(deployPath));
    EndsWithConcat(MoveLine(m), OrTrue);
    TolerantScriptSucceeds([PumaMove(deployPath)], status);
  }

  lemma LauncherInstallMoves(deployUser: string, deployPath: string)
    requires ' ' !in deployPath
    ensures Guarded(LauncherInstall(deployUser, deployPath)[1]) == LauncherInstall(deployUser, deployPath)[1]
    ensures ParseMove(LauncherInstall(deployUser, deployPath)[1]) == Some(Move(true, LauncherUpload, LauncherPath(deployPath)))
  {
    var m := Move(true, LauncherUpload, LauncherPath(deployPath));
    assert ' ' !in LauncherUpload;
    assert ' ' !in LauncherPath(deployPath) && |LauncherPath(deployPath)| >= |OrTrue| by {
      assert ' ' !in "/shared" && ' ' !in "/bin/start_puma.sh";
      assert |"/bin/start_puma.sh"| >= |OrTrue|;
    }
    assert LauncherInstall(deployUser, deployPath)[1] == MoveLine(m);
    PlainMove(m);
  }

  /** The configuration test does not gate the reload: the installation's status is the
      reload's, whatever `nginx -t` reports. */
  lemma NginxInstallStatus(app: string, status: string -> int)
    ensures ScriptStatus(NginxInstall(app), status) == status("sudo systemctl reload nginx")
  {
    var last := "sudo systemctl reload nginx";
    assert NginxInstall(app)[3] == last;
    StripKeepsFirst(last);
    assert !Tolerant(last) by {
      assert last[|last| - |OrTrue|..][1] != OrTrue[1];
    }
  }

  /** The installed files agree with one another as written text: the site's upstream is
      the socket `puma.rb` binds; the unit starts the launcher where the launcher is moved
      to, in the directory the launcher changes to; the launcher hands Puma the
      configuration where that is moved to. */
  lemma ServiceWiring(domain: string, app: string, deployUser: string, deployPath: string)
    requires ' ' !in deployPath
    ensures Field(NginxSite(domain, deployPath), ProxyPassKey, ";") == PumaSetting(PumaConfig(deployPath), BindKey)
    ensures Field(PumaUnit(app, deployUser, deployPath), WorkingDirectoryKey, "") == Field(Launcher(deployPath), CdKey, CdSuffix)
    ensures ParseMove(LauncherInstall(deployUser, deployPath)[1]).Some?
    ensures Field(PumaUnit(app, deployUser, deployPath), ExecStartKey, "")
      == Some(ParseMove(LauncherInstall(deployUser, deployPath)[1]).value.target)
    ensures ParseMove(Guarded(PumaMove(deployPath))).Some?
    ensures Field(Launcher(deployPath), PumaCommandKey, "")
      == Some(ParseMove(Guarded(PumaMove(deployPath))).value.target)
  {
    SiteProxy(domain, deployPath);
    PumaBindsSocket(deployPath);
    UnitWorkingDirectory(app, deployUser, deployPath);
    LauncherDirectory(deployPath);
    UnitExecStart(app, deployUser, deployPath);
    LauncherInstallMoves(deployUser, deployPath);
    LauncherConfig(deployPath);
    PumaMoveTargets(deployPath);
  }
}
