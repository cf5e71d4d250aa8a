/** `caput local`: the edits `prepare` makes to the Rails application on the workstation —
    two `require` lines in the Capfile, a backup and an appended block for
    `config/deploy.rb`, and a server line for `config/deploy/production.rb`. Files are a
    map from path to contents; the Bundler and Capistrano commands it runs first are
    outside the model, and the files are taken as they stand after them. */
module Local {
  import opened Wrappers
  import opened Text
  import opened Config
  import opened Artifacts

  type Files = map<string, string>

  /** The contents of a file, if it exists. */
  function Read(files: Files, path: string): Option<string> {
    if path in files then Some(files[path]) else None
  }

  /** What `IO#puts` writes for one string: the string, and a line feed unless it
      already ends with one. */
  function Puts(text: string): (r: string)
    ensures EndsWith(r, "\n")
    ensures StartsWith(r, text)
    ensures |r| == |text| + (if EndsWith(text, "\n") then 0 else 1)
  {
    StartsWithConcat(text, "\n");
    EndsWithConcat(text, "\n");
    StartsWithIff(text, text);
    if EndsWith(text, "\n") then text else text + "\n"
  }

  // ---------------------------------------------------------------------------
  // bundle_has?
  // ---------------------------------------------------------------------------

  /** `bundle_has?` on the output of `bundle list --name-only`: some line contains the
      name. */
  predicate BundleHas(out: string, gem: string) {
    SomeContains(SplitLines(out), gem)
  }

  /** For a name without line feeds, asking line by line is asking the whole output. */
  lemma BundleHasIff(out: string, gem: string)
    requires NewlineFree(gem) && |gem| > 0
    ensures BundleHas(out, gem) <==> Contains(out, gem)
  {
    ContainsLines(out, gem);
  }

  /** A listed gem whose name starts with the name asked for counts: asking for
      `capistrano` is answered by `capistrano-rails` alone. */
  lemma ExtendedNameCounts(before: string, gem: string, rest: string)
    requires NewlineFree(gem) && |gem| > 0
    ensures BundleHas(before + gem + rest, gem)
  {
    ContainsInMiddle(before, gem, rest);
    BundleHasIff(before + gem + rest, gem);
  }

  /** The empty name is not found in an output of empty lines, though `include?` finds
      it in any text: the line-wise reading needs a nonempty name. */
  lemma EmptyNameCounterexample()
    ensures !BundleHas("\n", "") && Contains("\n", "")
  {
    assert SplitPieces("") == [""];
    assert SplitPieces("\n") == ["", ""];
    assert SplitLines("\n") == [];
    ContainsEmpty("\n");
  }

  // ---------------------------------------------------------------------------
  // ensure_file_contains
  // ---------------------------------------------------------------------------

  /** `ensure_file_contains` on the file's contents, `None` when it does not exist: a
      missing file stays missing, a file that already contains the line anywhere is left
      alone, and otherwise the line is appended with `puts`. */
  function EnsureFileContains(content: Option<string>, line: string): (r: Option<string>)
    ensures r.Some? <==> content.Some?
    ensures r.Some? ==> Contains(r.value, line) && StartsWith(r.value, content.value)
    ensures content.Some? && Contains(content.value, line) ==> r == content
    ensures content.Some? && !Contains(content.value, line) ==> r.value == content.value + Puts(line)
  {
    match content
    case None => None
    case Some(c) =>
      if Contains(c, line) then
        StartsWithConcat(c, "");
        assert c + "" == c;
        content
      else
        var p := Puts(line);
        StartsWithIff(p, line);
        assert p == line + p[|line|..];
        ContainsInMiddle(c, line, p[|line|..]);
        assert c + line + p[|line|..] == c + p;
        StartsWithConcat(c, p);
        Some(c + p)
  }

  /** A second call changes nothing. */
  lemma EnsureIdempotent(content: Option<string>, line: string)
    ensures EnsureFileContains(EnsureFileContains(content, line), line) == EnsureFileContains(content, line)
  {
  }

  /** A later call for another line keeps what an earlier one ensured. */
  lemma EnsureKeeps(content: Option<string>, first: string, second: string)
    requires content.Some? ==> Contains(content.value, first)
    ensures var r := EnsureFileContains(content, second);
      r.Some? ==> Contains(r.value, first) && Contains(r.value, second)
  {
    if content.Some? && !Contains(content.value, second) {
      ContainsExtend(content.value, first, Puts(second));
    }
  }

  // ---------------------------------------------------------------------------
  // backup_file
  // ---------------------------------------------------------------------------

  function BackupName(path: string): (r: string)
    ensures r != path
  {
    path + ".bak"
  }

  /** `backup_file`: an existing file is copied next to itself under the `.bak` name;
      nothing else changes. */
  function BackupFile(files: Files, path: string): (r: Files)
    ensures path !in files ==> r == files
    ensures path in files ==> r.Keys == files.Keys + {BackupName(path)} && r[BackupName(path)] == files[path]
    ensures forall p | p in files && p != BackupName(path) :: p in r && r[p] == files[p]
  {
    if path in files then files[BackupName(path) := files[path]] else files
  }

  /** Backing up twice leaves what backing up once does. */
  lemma BackupIdempotent(files: Files, path: string)
    ensures BackupFile(BackupFile(files, path), path) == BackupFile(files, path)
  {
  }

  // ---------------------------------------------------------------------------
  // The appended deploy.rb block
  // ---------------------------------------------------------------------------

  const ApplicationKey: string := "set :application, \""
  const RepoUrlKey: string := "set :repo_url, \""
  const DeployToKey: string := "set :deploy_to, \""
  const RbenvRubyKey: string := "set :rbenv_ruby, \""
  const PumaBindKey: string := "set :puma_bind, \"unix://"
  const PumaPidKey: string := "set :puma_pid, \""

  /** The heredoc's lines: a blank line, then one setting per line. */
  function DeployLines(app: string, repo: string, deployPath: string, rubyVersion: string): seq<string> {
    [ "",
      ApplicationKey + app + "\"",
      RepoUrlKey + repo + "\"",
      DeployToKey + deployPath + "\"",
      "set :rbenv_type, :user",
      RbenvRubyKey + rubyVersion + "\"",
      PumaBindKey + deployPath + "/shared/tmp/sockets/puma.sock" + "\"",
      PumaPidKey + deployPath + "/shared/tmp/pids/puma.pid" + "\"",
      "ask :branch, `git rev-parse --abbrev-ref HEAD`.chomp",
      "set :linked_files, fetch(:linked_files, []).push('config/master.key')" ]
  }

  /** What `f.puts` appends: the heredoc already ends in a line feed. */
  function DeployText(app: string, repo: string, deployPath: string, rubyVersion: string): (r: string)
    ensures Puts(r) == r
  {
    var ls := DeployLines(app, repo, deployPath, rubyVersion);
    UnlinesEndsWithNewline(ls);
    Unlines(ls)
  }

  /** The settings before the Puma ones differ from `key` at position 5. */
  lemma SettingsBeforePuma(app: string, repo: string, deployPath: string, rubyVersion: string, key: string)
    requires |key| > 5 && key[5] == 'p'
    ensures forall j | 0 <= j < 6 :: !HasField(DeployLines(app, repo, deployPath, rubyVersion)[j], key, "\"")
  {
    var ls := DeployLines(app, repo, deployPath, rubyVersion);
    assert ls[1][5] == 'a' && ls[2][5] == 'r' && ls[3][5] == 'd' && ls[4][5] == 'r' && ls[5][5] == 'r';
    Unmarked(ls[0], key, "\"", 0);
    Unmarked(ls[1], key, "\"", 5);
    Unmarked(ls[2], key, "\"", 5);
    Unmarked(ls[3], key, "\"", 5);
    Unmarked(ls[4], key, "\"", 5);
    Unmarked(ls[5], key, "\"", 5);
  }

  /** Capistrano deploys to the deploy path `prepare` set up on the server. */
  lemma DeployTo(app: string, repo: string, deployPath: string, rubyVersion: string)
    ensures Field(DeployLines(app, repo, deployPath, rubyVersion), DeployToKey, "\"") == Some(deployPath)
  {
    var ls := DeployLines(app, repo, deployPath, rubyVersion);
    assert ls[1][5] == 'a' && ls[2][5] == 'r';
    Unmarked(ls[0], DeployToKey, "\"", 0);
    Unmarked(ls[1], DeployToKey, "\"", 5);
    Unmarked(ls[2], DeployToKey, "\"", 5);
    Framed(DeployToKey, deployPath, "\"");
    FieldAt(ls, DeployToKey, "\"", 3);
  }

  /** The Puma lines name the shared socket and pid file. */
  lemma PumaLines(app: string, repo: string, deployPath: string, rubyVersion: string)
    ensures DeployLines(app, repo, deployPath, rubyVersion)[6] == PumaBindKey + SocketPath(deployPath) + "\""
    ensures DeployLines(app, repo, deployPath, rubyVersion)[7] == PumaPidKey + PidPath(deployPath) + "\""
  {
    var ls := DeployLines(app, repo, deployPath, rubyVersion);
    assert ls[6] == PumaBindKey + (deployPath + "/shared/tmp/sockets/puma.sock") + "\"";
    assert ls[7] == PumaPidKey + (deployPath + "/shared/tmp/pids/puma.pid") + "\"";
    SharedSocket(deployPath);
    SharedPidfile(deployPath);
  }

  /** The socket path `deploy.rb` spells out is the shared socket. */
  lemma SharedSocket(deployPath: string)
    ensures deployPath + "/shared/tmp/sockets/puma.sock" == SocketPath(deployPath)
  {
    assert "/shared/tmp/sockets/puma.sock" == "/shared" + "/tmp/sockets/puma.sock";
  }

  /** The pid-file path `deploy.rb` spells out is the shared pid file. */
  lemma SharedPidfile(deployPath: string)
    ensures deployPath + "/shared/tmp/pids/puma.pid" == PidPath(deployPath)
  {
    assert "/shared/tmp/pids/puma.pid" == "/shared" + "/tmp/pids/puma.pid";
  }

  /** The socket path written into `deploy.rb` is the bind path written into `puma.rb`. */
  lemma DeployBindsSocket(app: string, repo: string, deployPath: string, rubyVersion: string)
    ensures Field(DeployLines(app, repo, deployPath, rubyVersion), PumaBindKey, "\"") == Some(SocketPath(deployPath))
    ensures Field(DeployLines(app, repo, deployPath, rubyVersion), PumaBindKey, "\"")
      == PumaSetting(PumaConfig(deployPath), BindKey)
  {
    var ls := DeployLines(app, repo, deployPath, rubyVersion);
    var v := SocketPath(deployPath);
    SettingsBeforePuma(app, repo, deployPath, rubyVersion, PumaBindKey);
    PumaLines(app, repo, deployPath, rubyVersion);
    Framed(PumaBindKey, v, "\"");
    assert ls[6] == PumaBindKey + v + "\"";
    FieldAt(ls, PumaBindKey, "\"", 6);
    PumaBindsSocket(deployPath);
  }

  /** The pid-file path written into `deploy.rb` is the one written into `puma.rb`. */
  lemma DeployPidfile(app: string, repo: string, deployPath: string, rubyVersion: string)
    ensures Field(DeployLines(app, repo, deployPath, rubyVersion), PumaPidKey, "\"") == Some(PidPath(deployPath))
    ensures Field(DeployLines(app, repo, deployPath, rubyVersion), PumaPidKey, "\"")
      == PumaSetting(PumaConfig(deployPath), PidfileKey)
  {
    var ls := DeployLines(app, repo, deployPath, rubyVersion);
    var v := PidPath(deployPath);
    SettingsBeforePuma(app, repo, deployPath, rubyVersion, PumaPidKey);
    assert ls[6][10] == 'b';
    Unmarked(ls[6], PumaPidKey, "\"", 10);
    PumaLines(app, repo, deployPath, rubyVersion);
    Framed(PumaPidKey, v, "\"");
    assert ls[7] == PumaPidKey + v + "\"";
    FieldAt(ls, PumaPidKey, "\"", 7);
    PumaPidfile(deployPath);
  }

  // ---------------------------------------------------------------------------
  // The production.rb line
  // ---------------------------------------------------------------------------

  const ServerKey: string := "server \""
  const UserSep: string := ", user: \""
  const RolesSep: string := ", roles: %w{app db web}"

  function ProductionLine(server: string, deployUser: string): string {
    ServerKey + server + "\"" + UserSep + deployUser + "\"" + RolesSep
  }

  /** `puts` adds the line feed: the line ends with the roles. */
  lemma ProductionPuts(server: string, deployUser: string)
    ensures Puts(ProductionLine(server, deployUser)) == ProductionLine(server, deployUser) + "\n"
  {
    var r := ProductionLine(server, deployUser);
    assert r[|r| - 1] == RolesSep[|RolesSep| - 1] == '}';
  }

  /** A quoted value and what follows its closing quote. */
  function SplitQuoted(rest: string): Option<(string, string)> {
    var k := IndexOf(rest, '"');
    if k == |rest| then None else Some((rest[..k], rest[k + 1..]))
  }

  /** Reads a production server line back into its host and user. */
  function ParseProduction(line: string): Option<(string, string)> {
    var rest :- DropPrefix(line, ServerKey);
    var host :- SplitQuoted(rest);
    var tail :- DropPrefix(host.1, UserSep);
    var user :- SplitQuoted(tail);
    if user.1 == RolesSep then Some((host.0, user.0)) else None
  }

  lemma SplitQuotedBack(v: string, after: string)
    requires '"' !in v
    ensures SplitQuoted(v + "\"" + after) == Some((v, after))
  {
    var rest := v + "\"" + after;
    IndexOfConcat(v, '"', after);
    assert rest[|v| + 1..] == after;
    assert rest[..|v|] == v;
  }

  /** A host and a user without double quotes read back from the line. */
  lemma ProductionRoundTrip(server: string, deployUser: string)
    requires '"' !in server && '"' !in deployUser
    ensures ParseProduction(ProductionLine(server, deployUser)) == Some((server, deployUser))
  {
    var tail := deployUser + "\"" + RolesSep;
    var after := UserSep + tail;
    var rest := server + "\"" + after;
    assert ProductionLine(server, deployUser) == ServerKey + rest;
    DropPrefixConcat(ServerKey, rest);
    SplitQuotedBack(server, after);
    DropPrefixConcat(UserSep, tail);
    SplitQuotedBack(deployUser, RolesSep);
  }

  // ---------------------------------------------------------------------------
  // prepare
  // ---------------------------------------------------------------------------

  /** Where the application keeps the files `prepare` edits. */
  datatype Layout = Layout(capfile: string, deployRb: string, production: string)

  const AppLayout: Layout := Layout("Capfile", "config/deploy.rb", "config/deploy/production.rb")

  /** Four different files: the three edited ones and the backup. */
  predicate Separate(l: Layout) {
    l.capfile != l.deployRb && l.capfile != l.production && l.deployRb != l.production
    && BackupName(l.deployRb) != l.capfile && BackupName(l.deployRb) != l.production
  }

  lemma AppLayoutSeparate()
    ensures Separate(AppLayout)
  {
    var l := AppLayout;
    assert l.capfile[0] != l.deployRb[0];
    assert l.capfile[0] != l.production[0];
    assert |l.deployRb| != |l.production|;
    assert BackupName(l.deployRb)[0] != l.capfile[0];
    assert |BackupName(l.deployRb)| != |l.production|;
  }

  const RequireRails: string := "require 'capistrano/rails'"
  const RequireRbenv: string := "require 'capistrano/rbenv'"

  /** `ensure_file_contains` on a file of the tree. */
  function EnsureIn(files: Files, path: string, line: string): (r: Files)
    ensures path !in files ==> r == files
    ensures r.Keys == files.Keys
    ensures forall p | p in files && p != path :: r[p] == files[p]
    ensures path in files ==> StartsWith(r[path], files[path]) && Contains(r[path], line)
    ensures path in files && Contains(files[path], line) ==> r[path] == files[path]
    ensures path in files && !Contains(files[path], line) ==> r[path] == files[path] + Puts(line)
  {
    match EnsureFileContains(Read(files, path), line)
    case None => files
    case Some(c) => files[path := c]
  }

  /** `File.open(path, 'a')` and `puts`: the file is created when missing. */
  function AppendTo(files: Files, path: string, text: string): (r: Files)
    ensures r.Keys == files.Keys + {path}
    ensures r[path] == Read(files, path).GetOr("") + Puts(text)
    ensures forall p | p in files && p != path :: r[p] == files[p]
  {
    files[path := Read(files, path).GetOr("") + Puts(text)]
  }

  /** The two `ensure_file_contains` calls on the Capfile; no other file changes. */
  function CapfileEdits(files: Files, capfile: string): (r: Files)
    ensures r.Keys == files.Keys
    ensures forall p | p in files && p != capfile :: r[p] == files[p]
  {
    EnsureIn(EnsureIn(files, capfile, RequireRails), capfile, RequireRbenv)
  }

  /** The backup of the deploy configuration, and the two appends. */
  function DeployEdits(files: Files, l: Layout, deploy: string, production: string): Files {
    AppendTo(AppendTo(BackupFile(files, l.deployRb), l.deployRb, deploy), l.production, production)
  }

  /** The file edits of `Local.prepare` in the layout `l`, given the deploy block and the
      server line. */
  function PrepareFiles(files: Files, l: Layout, deploy: string, production: string): Files {
    DeployEdits(CapfileEdits(files, l.capfile), l, deploy, production)
  }

  /** `Local.prepare` on the files as they stand after the Bundler and Capistrano
      commands. */
  function LocalPrepare(files: Files, s: Settings): Files {
    PrepareFiles(files, AppLayout,
      DeployText(Interpolate(s, "APP_NAME"), Interpolate(s, "REPO_URL"),
                 Interpolate(s, "DEPLOY_PATH"), Interpolate(s, "RUBY_VERSION")),
      ProductionLine(Interpolate(s, "SERVER"), Interpolate(s, "DEPLOY_USER")))
  }

  /** An existing Capfile keeps its contents and afterwards requires both Capistrano
      plugins; a missing one stays missing. */
  lemma CapfileRequires(files: Files, l: Layout, deploy: string, production: string)
    requires Separate(l)
    ensures var r := PrepareFiles(files, l, deploy, production);
      (l.capfile in r <==> l.capfile in files)
      && (l.capfile in files ==>
            StartsWith(r[l.capfile], files[l.capfile])
            && Contains(r[l.capfile], RequireRails) && Contains(r[l.capfile], RequireRbenv))
  {
    if l.capfile in files {
      var a := EnsureFileContains(Some(files[l.capfile]), RequireRails);
      EnsureKeeps(a, RequireRails, RequireRbenv);
      var b := EnsureFileContains(a, RequireRbenv);
      StartsWithIff(a.value, files[l.capfile]);
      StartsWithIff(b.value, a.value);
      assert b.value[..|files[l.capfile]|] == a.value[..|files[l.capfile]|];
      StartsWithIff(b.value, files[l.capfile]);
    }
  }

  /** The previous deploy configuration, if any, survives under the backup name; the
      deploy block and the server line are appended to their files, which are created
      when missing. */
  lemma DeployFilesWritten(files: Files, l: Layout, deploy: string, production: string)
    requires Separate(l)
    ensures var r := PrepareFiles(files, l, deploy, production);
      (l.deployRb in files ==> BackupName(l.deployRb) in r && r[BackupName(l.deployRb)] == files[l.deployRb])
      && r[l.deployRb] == Read(files, l.deployRb).GetOr("") + Puts(deploy)
      && r[l.production] == Read(files, l.production).GetOr("") + Puts(production)
  {
    var c := CapfileEdits(files, l.capfile);
    var b := BackupFile(c, l.deployRb);
    var d := AppendTo(b, l.deployRb, deploy);
    var r := AppendTo(d, l.production, production);
    assert Read(c, l.deployRb) == Read(files, l.deployRb);
    assert Read(c, l.production) == Read(files, l.production);
    assert Read(b, l.deployRb) == Read(c, l.deployRb);
    assert Read(b, l.production) == Read(c, l.production);
    assert Read(d, l.production) == Read(b, l.production);
    if l.deployRb in files {
      assert b[BackupName(l.deployRb)] == files[l.deployRb];
      assert d[BackupName(l.deployRb)] == b[BackupName(l.deployRb)];
      assert r[BackupName(l.deployRb)] == d[BackupName(l.deployRb)];
    }
    assert r[l.deployRb] == d[l.deployRb];
  }

  /** No other file changes, and only the deploy files and the backup are added. */
  lemma OtherFilesKept(files: Files, l: Layout, deploy: string, production: string)
    requires Separate(l)
    ensures var r := PrepareFiles(files, l, deploy, production);
      r.Keys == files.Keys + {l.deployRb, l.production}
               + (if l.deployRb in files then {BackupName(l.deployRb)} else {})
      && forall p | p in files && p !in {l.capfile, l.deployRb, BackupName(l.deployRb), l.production} ::
           r[p] == files[p]
  {
    var c := CapfileEdits(files, l.capfile);
    assert l.deployRb in c <==> l.deployRb in files;
  }
}
