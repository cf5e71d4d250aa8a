/** `caput teardown`: one script, run as the setup user, that stops the application's Puma
    service and removes the unit and the nginx site `prepare` installed. Every command of
    the script tolerates failure. */
module Teardown {
  import opened Wrappers
  import opened Text
  import opened Shell
  import opened Remote
  import opened Steps
  import opened Config
  import opened Artifacts

  const MissingMessage: string := "Missing configuration"

  /** The three settings `run` requires; an empty value is a value. */
  predicate Ready(s: Settings) {
    "SETUP_USER" in s && "SERVER" in s && "APP_NAME" in s
  }

  // ---------------------------------------------------------------------------
  // The commands the installation and teardown scripts are made of
  // ---------------------------------------------------------------------------

  datatype Command =
    | Systemctl(verb: string, unit: Option<string>)
    | Remove(path: string)
    | Link(source: string, target: string)
    | CheckNginx

  const SystemctlKey: string := "sudo systemctl "
  const RemoveKey: string := "sudo rm -f "
  const LinkKey: string := "sudo ln -sf "
  const NginxTestLine: string := "sudo nginx -t"

  function Render(c: Command): string {
    match c
    case Systemctl(verb, None) => SystemctlKey + verb
    case Systemctl(verb, Some(unit)) => SystemctlKey + verb + " " + unit
    case Remove(path) => RemoveKey + path
    case Link(source, target) => LinkKey + source + " " + target
    case CheckNginx => NginxTestLine
  }

  /** Reads a command line without its ` || true`. */
  function ReadCommand(g: string): Option<Command> {
    match DropPrefix(g, SystemctlKey)
    case Some(rest) =>
      var k := IndexOf(rest, ' ');
      if k == |rest| then Some(Systemctl(rest, None)) else Some(Systemctl(rest[..k], Some(rest[k + 1..])))
    case None =>
      match DropPrefix(g, RemoveKey)
      case Some(path) => Some(Remove(path))
      case None =>
        match DropPrefix(g, LinkKey)
        case Some(rest) =>
          var words :- SplitWords(rest);
          Some(Link(words.0, words.1))
        case None => if g == NginxTestLine then Some(CheckNginx) else None
  }

  /** Reads a line of a script, ignoring a trailing ` || true`. */
  function ParseCommand(line: string): Option<Command> {
    ReadCommand(Guarded(line))
  }

  /** Every line of a script read as a command; `None` when one of them is not. */
  function ReadScript(lines: seq<string>): Option<seq<Command>> {
    ReadAll(ParseCommand, lines)
  }

  /** The files a list of commands removes, in order. */
  function Removed(cmds: seq<Command>): seq<string>
    decreases |cmds|
  {
    if |cmds| == 0 then []
    else (if cmds[0].Remove? then [cmds[0].path] else []) + Removed(cmds[1..])
  }

  /** Commands whose words can be told apart again. */
  predicate Readable(c: Command) {
    match c
    case Systemctl(verb, _) => ' ' !in verb
    case Link(source, target) => ' ' !in source && ' ' !in target
    case _ => true
  }

  lemma RemoveMissesSystemctl(path: string)
    ensures DropPrefix(RemoveKey + path, SystemctlKey) == None
  {
    assert (RemoveKey + path)[5] == 'r';
    DropPrefixMiss(RemoveKey + path, SystemctlKey, 5);
  }

  lemma LinkMisses(rest: string)
    ensures DropPrefix(LinkKey + rest, SystemctlKey) == None
    ensures DropPrefix(LinkKey + rest, RemoveKey) == None
  {
    assert (LinkKey + rest)[5] == 'l';
    DropPrefixMiss(LinkKey + rest, SystemctlKey, 5);
    DropPrefixMiss(LinkKey + rest, RemoveKey, 5);
  }

  lemma NginxTestMisses()
    ensures DropPrefix(NginxTestLine, SystemctlKey) == None
    ensures DropPrefix(NginxTestLine, RemoveKey) == None
    ensures DropPrefix(NginxTestLine, LinkKey) == None
  {
    assert NginxTestLine[5] == 'n';
    DropPrefixMiss(NginxTestLine, SystemctlKey, 5);
    DropPrefixMiss(NginxTestLine, RemoveKey, 5);
    DropPrefixMiss(NginxTestLine, LinkKey, 5);
  }

  /** A readable command reads back as itself. */
  lemma ReadRender(c: Command)
    requires Readable(c)
    ensures ReadCommand(Render(c)) == Some(c)
  {
    match c
    case Systemctl(verb, None) =>
      DropPrefixConcat(SystemctlKey, verb);
    case Systemctl(verb, Some(unit)) =>
      assert Render(c) == SystemctlKey + (verb + " " + unit);
      DropPrefixConcat(SystemctlKey, verb + " " + unit);
      IndexOfConcat(verb, ' ', unit);
      assert (verb + " " + unit)[..|verb|] == verb;
      assert (verb + " " + unit)[|verb| + 1..] == unit;
    case Remove(path) =>
      RemoveMissesSystemctl(path);
      DropPrefixConcat(RemoveKey, path);
    case Link(source, target) =>
      assert Render(c) == LinkKey + (source + " " + target);
      LinkMisses(source + " " + target);
      DropPrefixConcat(LinkKey, source + " " + target);
      SplitWordsJoin(source, target);
    case CheckNginx =>
      NginxTestMisses();
  }

  /** A readable command followed by ` || true` reads back as itself. */
  lemma ParseTolerant(c: Command)
    requires Readable(c)
    ensures Tolerant(Render(c) + OrTrue)
    ensures ParseCommand(Render(c) + OrTrue) == Some(c)
  {
    EndsWithConcat(Render(c), OrTrue);
    GuardedOrTrue(Render(c));
    ReadRender(c);
  }

  // ---------------------------------------------------------------------------
  // The teardown script (teardown.rb)
  // ---------------------------------------------------------------------------

  function TeardownLines(app: string): seq<string> {
    [ SystemctlKey + "stop" + " " + UnitName(app) + OrTrue,
      SystemctlKey + "disable" + " " + UnitName(app) + OrTrue,
      RemoveKey + UnitPath(app) + OrTrue,
      SystemctlKey + "daemon-reload" + OrTrue,
      RemoveKey + SiteAvailable(app) + OrTrue,
      RemoveKey + SiteEnabled(app) + OrTrue,
      NginxTestLine + OrTrue,
      SystemctlKey + "reload" + " " + "nginx" + OrTrue ]
  }

  /** What the script does, command by command. */
  function TeardownCommands(app: string): seq<Command> {
    [ Systemctl("stop", Some(UnitName(app))),
      Systemctl("disable", Some(UnitName(app))),
      Remove(UnitPath(app)),
      Systemctl("daemon-reload", None),
      Remove(SiteAvailable(app)),
      Remove(SiteEnabled(app)),
      CheckNginx,
      Systemctl("reload", Some("nginx")) ]
  }

  /** The script is the rendering of its commands, each followed by ` || true`. */
  lemma TeardownRendered(app: string)
    ensures |TeardownLines(app)| == |TeardownCommands(app)|
    ensures forall i | 0 <= i < |TeardownLines(app)| ::
      Readable(TeardownCommands(app)[i]) && TeardownLines(app)[i] == Render(TeardownCommands(app)[i]) + OrTrue
  {
  }

  /** The script, read back: stop and disable the Puma unit, remove its file, reload
      systemd, remove the nginx site and its link, test the nginx configuration, reload
      nginx — in that order. */
  lemma TeardownReads(app: string)
    ensures ReadScript(TeardownLines(app)) == Some(TeardownCommands(app))
  {
    TeardownRendered(app);
    forall i | 0 <= i < |TeardownLines(app)|
      ensures ParseCommand(TeardownLines(app)[i]) == Some(TeardownCommands(app)[i])
    {
      ParseTolerant(TeardownCommands(app)[i]);
    }
    ReadAllEach(ParseCommand, TeardownLines(app), TeardownCommands(app));
  }

  /** Every line ends in ` || true`, so the script's status is 0 whatever its commands
      report. */
  lemma TeardownNeverFails(app: string, status: string -> int)
    ensures forall i | 0 <= i < |TeardownLines(app)| :: Tolerant(TeardownLines(app)[i])
    ensures ScriptStatus(TeardownLines(app), status) == 0
  {
    TeardownRendered(app);
    forall i | 0 <= i < |TeardownLines(app)|
      ensures Tolerant(TeardownLines(app)[i])
    {
      ParseTolerant(TeardownCommands(app)[i]);
    }
    TolerantScriptSucceeds(TeardownLines(app), status);
  }

  lemma RemovedByTeardown(app: string)
    ensures Removed(TeardownCommands(app)) == [UnitPath(app), SiteAvailable(app), SiteEnabled(app)]
  {
    var cs := TeardownCommands(app);
    assert Removed(cs[7..]) == [] by {
      assert cs[7..][1..] == [];
    }
    assert cs[6..][1..] == cs[7..];
    assert Removed(cs[6..]) == [];
    assert cs[5..][1..] == cs[6..];
    assert Removed(cs[5..]) == [SiteEnabled(app)];
    assert cs[4..][1..] == cs[5..];
    assert Removed(cs[4..]) == [SiteAvailable(app), SiteEnabled(app)];
    assert cs[3..][1..] == cs[4..];
    assert Removed(cs[3..]) == [SiteAvailable(app), SiteEnabled(app)];
    assert cs[2..][1..] == cs[3..];
    assert Removed(cs[2..]) == [UnitPath(app), SiteAvailable(app), SiteEnabled(app)];
    assert cs[1..][1..] == cs[2..];
    assert Removed(cs[1..]) == Removed(cs[2..]);
  }

  /** The nginx site is linked into the enabled sites. */
  lemma NginxInstallLinks(app: string)
    requires ' ' !in app
    ensures ParseCommand(NginxInstall(app)[1]) == Some(Link(SiteAvailable(app), SiteEnabled(app)))
  {
    var c := Link(SiteAvailable(app), SiteEnabled(app));
    assert ' ' !in SiteAvailable(app) by {
      assert ' ' !in "/etc/nginx/sites-available/";
    }
    assert ' ' !in SiteEnabled(app) by {
      assert ' ' !in "/etc/nginx/sites-enabled/";
    }
    assert NginxInstall(app)[1] == Render(c);
    EndsWithConcat("/etc/nginx/sites-enabled/", app);
    assert EndsWith(Render(c), SiteEnabled(app)) by {
      EndsWithConcat(LinkKey + SiteAvailable(app) + " ", SiteEnabled(app));
    }
    NotGuarded(Render(c), SiteEnabled(app));
    ReadRender(c);
  }

  /** The unit installation enables the unit by name. */
  lemma UnitInstallEnables(app: string)
    ensures ParseCommand(UnitInstall(app)[2]) == Some(Systemctl("enable", Some(UnitName(app))))
  {
    var c := Systemctl("enable", Some(UnitName(app)));
    var line := UnitInstall(app)[2];
    assert line == Render(c);
    assert line[|line| - 1] == 'a';
    assert !EndsWith(line, OrTrue) by {
      assert OrTrue[|OrTrue| - 1] == 'e';
    }
    ReadRender(c);
  }

  /** Teardown removes exactly the files the installation put in place — the unit file
      and the site it moved there, and the link it made to the site — and stops and
      disables the very unit the installation enabled. */
  lemma TeardownUndoesInstall(app: string)
    requires ' ' !in app
    ensures |Removed(TeardownCommands(app))| == 3
    ensures ParseMove(UnitInstall(app)[0]) == Some(Move(false, UnitUpload(app), Removed(TeardownCommands(app))[0]))
    ensures ParseMove(NginxInstall(app)[0]) == Some(Move(false, NginxUpload(app), Removed(TeardownCommands(app))[1]))
    ensures ParseCommand(NginxInstall(app)[1])
      == Some(Link(Removed(TeardownCommands(app))[1], Removed(TeardownCommands(app))[2]))
    ensures ParseCommand(UnitInstall(app)[2]) == Some(Systemctl("enable", TeardownCommands(app)[0].unit))
    ensures TeardownCommands(app)[0].verb == "stop" && TeardownCommands(app)[1] == TeardownCommands(app)[0].(verb := "disable")
  {
    RemovedByTeardown(app);
    UnitInstallMoves(app);
    NginxInstallMoves(app);
    NginxInstallLinks(app);
    UnitInstallEnables(app);
  }

  // ---------------------------------------------------------------------------
  // run
  // ---------------------------------------------------------------------------

  /** `run` on loaded settings: raise without the three settings, otherwise one `exec!` as
      the setup user on the server. */
  function Teardown(s: Settings): seq<Step> {
    if !Ready(s) then [Halt(Raised(MissingMessage))]
    else
      var r := Session(Some(s["SETUP_USER"]), Some(s["SERVER"]));
      [Do(Exec(r, Unlines(TeardownLines(s["APP_NAME"]))), Propagate)]
  }

  /** `caput teardown`: load the configuration, then `run`. */
  function TeardownCommand(file: Option<string>): seq<Step> {
    match LoadConfig(file)
    case None => [Halt(Aborted(NotFoundMessage))]
    case Some(s) => Teardown(s)
  }

  /** `run` raises before touching the server exactly when a required setting is missing;
      otherwise its one script goes to the setup user on the server, and the run completes
      exactly when that script reports status 0. */
  lemma TeardownGate(s: Settings, obs: Observations, base: nat)
    ensures Run(Teardown(s), obs, base).stop == Some(Raised(MissingMessage)) <==> !Ready(s)
    ensures !Ready(s) ==> !ReachesServer(Teardown(s), |Teardown(s)|)
    ensures Ready(s) ==>
      |Teardown(s)| == 1 && Teardown(s)[0].Do? && Teardown(s)[0].action.Exec?
      && Teardown(s)[0].action.session == Session(Lookup(s, "SETUP_USER"), Lookup(s, "SERVER"))
      && (Run(Teardown(s), obs, base).stop.None? <==> obs(base) == Some(0))
  {
    if !Ready(s) {
      HaltFirst(Teardown(s), obs, base);
    } else {
      RunMeans(Teardown(s), obs, base);
      if obs(base) != Some(0) {
        StopsAtFirstFailure(Teardown(s), obs, base, 0);
      }
    }
  }

  /** The deploy user plays no part in teardown. */
  lemma DeployUserIgnored(s: Settings, v: string)
    ensures Teardown(s["DEPLOY_USER" := v]) == Teardown(s - {"DEPLOY_USER"})
  {
    var a := s["DEPLOY_USER" := v];
    var b := s - {"DEPLOY_USER"};
    assert Ready(a) == Ready(b);
    if Ready(a) {
      assert a["SETUP_USER"] == b["SETUP_USER"] && a["SERVER"] == b["SERVER"] && a["APP_NAME"] == b["APP_NAME"];
    }
  }

  lemma TeardownWithoutConfig(obs: Observations, base: nat)
    ensures Run(TeardownCommand(None), obs, base) == RunResult(1, Some(Aborted(NotFoundMessage)))
  {
    HaltFirst(TeardownCommand(None), obs, base);
  }
}
