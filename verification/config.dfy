/** `Caput::Config`: the `caput.conf` file, its line parser, the lookup of a setting, and
    the sample file `caput init` writes. */
module Config {
  import opened Wrappers
  import opened Text

  /** The settings read from `caput.conf`; a key that is absent reads as nil. */
  type Settings = map<string, string>

  const ConfigFile: string := "caput.conf"

  /** The message `load_config!` aborts with when there is no configuration file. */
  const NotFoundMessage: string := "Configuration file " + ConfigFile + " not found! Run `caput init`."

  // ---------------------------------------------------------------------------
  // One line: `^(\w+)=(?:"(.*)"|'(.*)'|(.*))$`
  // ---------------------------------------------------------------------------

  /** Ruby's `\w` on ASCII text. */
  predicate IsWordChar(c: char) {
    ('A' <= c <= 'Z') || ('a' <= c <= 'z') || ('0' <= c <= '9') || c == '_'
  }

  predicate ValidKey(key: string) {
    |key| > 0 && forall i | 0 <= i < |key| :: IsWordChar(key[i])
  }

  /** End of the run of word characters that starts at `i`. */
  function WordEnd(l: string, i: nat): (k: nat)
    requires i <= |l|
    ensures i <= k <= |l|
    ensures forall j | i <= j < k :: IsWordChar(l[j])
    ensures k < |l| ==> !IsWordChar(l[k])
    decreases |l| - i
  {
    if i < |l| && IsWordChar(l[i]) then WordEnd(l, i + 1) else i
  }

  /** What the value alternatives see: the rest of the line, without the newline before
      which `$` matches (`.` never matches a newline). */
  function Body(rest: string): string {
    if |rest| > 0 && rest[|rest| - 1] == '\n' then rest[..|rest| - 1] else rest
  }

  /** `b` is enclosed in a pair of `q`. */
  predicate QuotedWith(b: string, q: char) {
    |b| >= 2 && b[0] == q && b[|b| - 1] == q
  }

  /** `$2 || $3 || $4`: the greedy double-quoted alternative is tried first and needs the
      body to end with the quote; then the single-quoted one; otherwise the body is taken
      as it is. An empty capture is still a string, so it wins over the next group. */
  function Unquoted(b: string): string {
    if QuotedWith(b, '"') then b[1..|b| - 1]
    else if QuotedWith(b, '\'') then b[1..|b| - 1]
    else b
  }

  /** The match of the setting pattern against one line as `readlines` returns it. The
      key is the longest run of word characters at column 0, and `=` must follow it at
      once: a shorter run would be followed by another word character. */
  function Match(l: string): Option<(string, string)>
  {
    var k := WordEnd(l, 0);
    if k == 0 || k == |l| || l[k] != '=' then None
    else Some((l[..k], Unquoted(Body(l[k + 1..]))))
  }

  /** The first test of the loop body: blank lines and comments. */
  predicate Skipped(l: string) {
    Strip(l) == "" || StartsWith(Strip(l), "#")
  }

  /** The key and value one line contributes, if any. */
  function ParseLine(l: string): Option<(string, string)>
  {
    if Skipped(l) then None else Match(l)
  }

  /** What a line contributes: a key and its value, or nothing. */
  type Entry = Option<(string, string)>

  predicate BindsKey(e: Entry, key: string) {
    e.Some? && e.value.0 == key
  }

  /** The loop of `load_config!`, continuing from settings `s`: entries in file order, a
      later key overwriting an earlier one. */
  function Apply(s: Settings, es: seq<Entry>): Settings
    decreases |es|
  {
    if |es| == 0 then s
    else Apply(match es[0] case Some((k, v)) => s[k := v] case None => s, es[1..])
  }

  function Entries(lines: seq<string>): seq<Entry>
  {
    MapSeq(ParseLine, lines)
  }

  /** The settings of a file given as its lines. */
  function Parse(lines: seq<string>): Settings
  {
    Apply(map[], Entries(lines))
  }

  /** `load_config!` on the contents of `caput.conf`; `None` when the file does not exist,
      where the source aborts with `NotFoundMessage`. */
  function LoadConfig(file: Option<string>): Option<Settings>
  {
    match file
    case None => None
    case Some(text) => Some(Parse(ReadLines(text)))
  }

  /** `Caput::Config[key]`. */
  function Lookup(s: Settings, key: string): Option<string> {
    if key in s then Some(s[key]) else None
  }

  /** `#{Caput::Config[key]}`: a missing setting interpolates as the empty string. */
  function Interpolate(s: Settings, key: string): string {
    Interpolated(Lookup(s, key))
  }

  /** The loop copying every setting into `ENV`: settings override variables already set,
      the others stay. */
  function PopulateEnv(env: map<string, string>, s: Settings): (r: map<string, string>)
    ensures r.Keys == env.Keys + s.Keys
    ensures forall k | k in s :: r[k] == s[k]
    ensures forall k | k in env && k !in s :: r[k] == env[k]
  {
    env + s
  }

  // ---------------------------------------------------------------------------
  // Properties of the line parser
  // ---------------------------------------------------------------------------

  lemma WordEndOf(key: string, rest: string)
    requires ValidKey(key)
    requires |rest| > 0 && !IsWordChar(rest[0])
    ensures WordEnd(key + rest, 0) == |key|
  {
    var l := key + rest;
    var k := WordEnd(l, 0);
    assert l[|key|] == rest[0];
    assert !(k > |key|);
    assert !(k < |key|) by {
      assert forall j | 0 <= j < |key| :: l[j] == key[j];
    }
  }

  /** A line that starts with a word character is not taken for a blank or comment. */
  lemma NotSkipped(l: string)
    requires |l| > 0 && IsWordChar(l[0])
    ensures !Skipped(l)
  {
    assert !IsSpace(l[0]);
    StripKeepsFirst(l);
    StartsWithIff(Strip(l), "#");
  }

  /** The skip test never changes the outcome: a blank or comment line cannot start with
      a word character, so the pattern would not match it either. */
  lemma SkippedNeverMatches(l: string)
    requires IsReadLine(l) && Skipped(l)
    ensures Match(l) == None
  {
    if IsWordChar(l[0]) {
      NotSkipped(l);
    }
  }

  /** Only a line that starts with one or more word characters followed by `=`
      contributes a setting. */
  lemma ContributesOnly(l: string)
    requires IsReadLine(l) && ParseLine(l).Some?
    ensures exists n | 0 < n < |l| :: l[n] == '=' && forall j | 0 <= j < n :: IsWordChar(l[j])
  {
    var k := WordEnd(l, 0);
    assert l[k] == '=' && forall j | 0 <= j < k :: IsWordChar(l[j]);
  }

  /** Every line that starts with one or more word characters followed by `=`
      contributes a setting. */
  lemma ContributesIf(l: string, n: nat)
    requires IsReadLine(l)
    requires 0 < n < |l| && l[n] == '=' && forall j | 0 <= j < n :: IsWordChar(l[j])
    ensures ParseLine(l).Some? && ParseLine(l).value.0 == l[..n]
  {
    assert l == l[..n] + l[n..];
    WordEndOf(l[..n], l[n..]);
    NotSkipped(l);
  }

  /** A line contributes a setting exactly when it starts with one or more word
      characters followed by `=`; leading blanks, any other character in the key, or a
      missing `=` make it silently ignored. */
  lemma ContributesIff(l: string)
    requires IsReadLine(l)
    ensures ParseLine(l).Some? <==>
      exists n | 0 < n < |l| :: l[n] == '=' && forall j | 0 <= j < n :: IsWordChar(l[j])
  {
    if ParseLine(l).Some? {
      ContributesOnly(l);
    }
    if exists n | 0 < n < |l| :: l[n] == '=' && forall j | 0 <= j < n :: IsWordChar(l[j]) {
      var n :| 0 < n < |l| && l[n] == '=' && forall j | 0 <= j < n :: IsWordChar(l[j]);
      ContributesIf(l, n);
    }
  }

  lemma MatchSetting(key: string, body: string, tail: string)
    requires ValidKey(key) && NewlineFree(body)
    requires tail == "" || tail == "\n"
    ensures IsReadLine(key + "=" + body + tail)
    ensures Match(key + "=" + body + tail) == Some((key, Unquoted(body)))
  {
    var l := key + "=" + body + tail;
    assert '\n' !in key by {
      assert forall i | 0 <= i < |key| :: IsWordChar(key[i]);
    }
    assert '\n' !in key + "=" + body;
    if tail == "\n" {
      assert l[..|l| - 1] == key + "=" + body;
    } else {
      assert l == key + "=" + body;
      PrefixKeepsOut(l, '\n', |l| - 1);
    }
    assert IsReadLine(l);
    assert l == key + ("=" + body + tail);
    WordEndOf(key, "=" + body + tail);
    assert l[..|key|] == key;
    assert l[|key| + 1..] == body + tail;
  }

  /** What a setting line yields, with or without its newline: the key before `=`, and
      the text after it with one enclosing pair of quotes taken off. */
  lemma SettingLine(key: string, body: string)
    requires ValidKey(key) && NewlineFree(body)
    ensures IsReadLine(key + "=" + body + "\n") && IsReadLine(key + "=" + body)
    ensures ParseLine(key + "=" + body + "\n") == Some((key, Unquoted(body)))
    ensures ParseLine(key + "=" + body) == Some((key, Unquoted(body)))
  {
    MatchSetting(key, body, "\n");
    MatchSetting(key, body, "");
    assert key + "=" + body + "" == key + "=" + body;
    NotSkipped(key + "=" + body + "\n");
    NotSkipped(key + "=" + body);
  }

  /** The value shapes of a setting line. */
  lemma ValueShapes()
    ensures Unquoted("\"v\"") == "v" && Unquoted("'v'") == "v"
    ensures Unquoted("v") == "v"
    // an unbalanced quote is kept
    ensures Unquoted("\"abc") == "\"abc"
    // `KEY=` and `KEY=""` both bind the empty string, not nil
    ensures Unquoted("") == "" && Unquoted("\"\"") == ""
    // a carriage return defeats both quoted alternatives and is kept
    ensures Unquoted("\"v\"\r") == "\"v\"\r"
  {
  }

  /** The double-quoted alternative is greedy: `KEY="a"b"` binds `a"b`. */
  lemma GreedyQuote()
    ensures Unquoted("\"a\"b\"") == "a\"b"
  {
    var b := "\"a\"b\"";
    assert QuotedWith(b, '"');
    var v := b[1..|b| - 1];
    assert |v| == 3 && v[0] == 'a' && v[1] == '"' && v[2] == 'b';
    assert v == "a\"b";
  }

  /** A value in double quotes comes back without them, whatever it contains. */
  lemma DoubleQuoted(key: string, v: string)
    requires ValidKey(key) && NewlineFree(v)
    ensures IsReadLine(key + "=\"" + v + "\"" + "\n")
    ensures ParseLine(key + "=\"" + v + "\"" + "\n") == Some((key, v))
  {
    var d := "\"" + v + "\"";
    var l := key + "=\"" + v + "\"" + "\n";
    assert l == key + "=" + d + "\n";
    assert d[1..|d| - 1] == v;
    SettingLine(key, d);
  }

  /** A value in single quotes comes back without them, whatever it contains. */
  lemma SingleQuoted(key: string, v: string)
    requires ValidKey(key) && NewlineFree(v)
    ensures IsReadLine(key + "='" + v + "'" + "\n")
    ensures ParseLine(key + "='" + v + "'" + "\n") == Some((key, v))
  {
    var d := "'" + v + "'";
    var l := key + "='" + v + "'" + "\n";
    assert l == key + "=" + d + "\n";
    assert d[1..|d| - 1] == v;
    SettingLine(key, d);
  }

  /** Where the loop leaves a key: bound exactly when it was bound before or some entry
      binds it, and then to the value of the last entry that does. */
  lemma {:induction false} ApplyLastWins(s: Settings, es: seq<Entry>, key: string)
    ensures key in Apply(s, es) <==> key in s || exists i | 0 <= i < |es| :: BindsKey(es[i], key)
    ensures (exists i | 0 <= i < |es| :: BindsKey(es[i], key)) ==>
      exists i | 0 <= i < |es| ::
        && es[i] == Some((key, Apply(s, es)[key]))
        && forall j | i < j < |es| :: !BindsKey(es[j], key)
    ensures (forall i | 0 <= i < |es| :: !BindsKey(es[i], key)) && key in s ==>
      Apply(s, es)[key] == s[key]
    decreases |es|
  {
    if |es| > 0 {
      var s' := match es[0] case Some((k, v)) => s[k := v] case None => s;
      var tail := es[1..];
      ApplyLastWins(s', tail, key);
      assert forall i | 1 <= i < |es| :: es[i] == tail[i - 1];
      if exists i | 0 <= i < |tail| :: BindsKey(tail[i], key) {
        var i :| 0 <= i < |tail| && tail[i] == Some((key, Apply(s', tail)[key]))
          && forall j | i < j < |tail| :: !BindsKey(tail[j], key);
        assert es[i + 1] == tail[i];
        assert forall j | i + 1 < j < |es| :: !BindsKey(es[j], key);
      } else if BindsKey(es[0], key) {
        assert es[0] == Some((key, Apply(s, es)[key]));
        assert forall j | 0 < j < |es| :: !BindsKey(es[j], key);
      }
    }
  }

  /** `Caput::Config[key]` after loading: nil unless some line binds the key, and
      otherwise the value of the last line that does. */
  lemma ParseLastWins(lines: seq<string>, key: string)
    ensures Lookup(Parse(lines), key).None? <==>
      forall i | 0 <= i < |lines| :: !BindsKey(ParseLine(lines[i]), key)
    ensures Lookup(Parse(lines), key).Some? ==>
      exists i | 0 <= i < |lines| ::
        && ParseLine(lines[i]) == Some((key, Lookup(Parse(lines), key).value))
        && forall j | i < j < |lines| :: !BindsKey(ParseLine(lines[j]), key)
  {
    var es := Entries(lines);
    ApplyLastWins(map[], es, key);
    assert forall i | 0 <= i < |lines| :: es[i] == ParseLine(lines[i]);
  }

  lemma {:induction false} ApplyAppend(s: Settings, a: seq<Entry>, b: seq<Entry>)
    ensures Apply(s, a + b) == Apply(Apply(s, a), b)
    decreases |a|
  {
    if |a| == 0 {
      assert a + b == b;
    } else {
      assert (a + b)[0] == a[0];
      assert (a + b)[1..] == a[1..] + b;
      var s' := match a[0] case Some((k, v)) => s[k := v] case None => s;
      ApplyAppend(s', a[1..], b);
    }
  }

  lemma {:induction false} ApplyNothing(s: Settings, es: seq<Entry>)
    requires forall i | 0 <= i < |es| :: es[i].None?
    ensures Apply(s, es) == s
    decreases |es|
  {
    if |es| > 0 {
      ApplyNothing(s, es[1..]);
    }
  }

  // ---------------------------------------------------------------------------
  // The sample file of `caput init`
  // ---------------------------------------------------------------------------

  /** A group of comment lines followed by one quoted setting. */
  datatype Block = Block(remarks: seq<string>, key: string, value: string)

  function Remark(text: string): string {
    "# " + text
  }

  function Setting(key: string, value: string): string {
    key + "=\"" + value + "\""
  }

  function BlockLines(b: Block): seq<string> {
    seq(|b.remarks|, i requires 0 <= i < |b.remarks| => Remark(b.remarks[i])) + [Setting(b.key, b.value)]
  }

  /** The blocks one after the other, separated by blank lines. */
  function JoinBlocks(bs: seq<Block>): seq<string> {
    if |bs| == 0 then []
    else if |bs| == 1 then BlockLines(bs[0])
    else BlockLines(bs[0]) + [""] + JoinBlocks(bs[1..])
  }

  /** A heading comment, a blank line, then the blocks. */
  function Layout(heading: string, bs: seq<Block>): seq<string> {
    [Remark(heading), ""] + JoinBlocks(bs)
  }

  predicate WellFormed(b: Block) {
    && (forall i | 0 <= i < |b.remarks| :: NewlineFree(b.remarks[i]))
    && ValidKey(b.key)
    && NewlineFree(b.value)
  }

  /** The settings the blocks describe, applied in order. */
  function Bindings(s: Settings, bs: seq<Block>): Settings
    decreases |bs|
  {
    if |bs| == 0 then s else Bindings(s[bs[0].key := bs[0].value], bs[1..])
  }

  const SampleHeading: string := "Sample configuration for " + "caput deployment"

  const AppNameBlock: Block := Block([
    "Name of the application. " + "This name will be used for " + "the nginx site as well",
    "as for the Puma service " + "definition."],
    "APP_NAME", "myapp")

  const SetupUserBlock: Block := Block([
    "Setup user on the server. " + "Note that this user should " + "have passwordless sudo",
    "access on the server. This " + "user is only used while " + "setting up the application.",
    "This user must exist on the " + "server, if it doesn't the " + "script will notify the user",
    "and exit."],
    "SETUP_USER", "setup")

  const DeployUserBlock: Block := Block([
    "Deploy user on the server. " + "This is the user that will " + "own the application and also",
    "run the Puma process that " + "will run the application. If " + "this user does not exist it",
    "will be created."],
    "DEPLOY_USER", "deploy")

  const ServerBlock: Block := Block([
    "Target server hostname or " + "IP. This is the address to " + "which the application will " + "be",
    "deployed. It does not, " + "however, have to be the " + "hostname of the application " + "itself, and",
    "in most cases it will not " + "be."],
    "SERVER", "example.com")

  const DomainBlock: Block := Block([
    "Domain for nginx site. This " + "is the hostname that users " + "will enter in their browsers",
    "to reach the application. " + "DNS configuration is assumed " + "to have been done prior to",
    "installing the application " + "using this script."],
    "DOMAIN", "www.example.com")

  const RubyVersionBlock: Block := Block([
    "Ruby version to use with " + "rbenv. This version will be " + "installed via rbenv on the " + "server.",
    "It needs to match the RUBY " + "version used by the Ruby on " + "Rails application being " + "deployed."],
    "RUBY_VERSION", "3.2.2")

  const DeployPathBlock: Block := Block([
    "Path on the server where app " + "will be deployed. This will " + "be the root directory on the",
    "server where the Ruby on " + "Rails application will be " + "deployed by Capistrano."],
    "DEPLOY_PATH", "/var/www/myapp")

  const RepoUrlBlock: Block := Block([
    "Git repository URL. This " + "will be used to configure " + "the Capistrano deployment " + "files."],
    "REPO_URL", "git@example.com:" + "username/myapp.git")

  /** The comment blocks and settings of the sample file, in file order. */
  const SampleBlocks: seq<Block> := [
    AppNameBlock, SetupUserBlock, DeployUserBlock, ServerBlock,
    DomainBlock, RubyVersionBlock, DeployPathBlock, RepoUrlBlock
  ]

  /** The text `init_config` writes. */
  function SampleText(): string {
    Unlines(Layout(SampleHeading, SampleBlocks))
  }

  /** The eight settings of the sample file. */
  const SampleSettings: Settings := map[
    "APP_NAME" := "myapp",
    "SETUP_USER" := "setup",
    "DEPLOY_USER" := "deploy",
    "SERVER" := "example.com",
    "DOMAIN" := "www.example.com",
    "RUBY_VERSION" := "3.2.2",
    "DEPLOY_PATH" := "/var/www/myapp",
    "REPO_URL" := "git@example.com:" + "username/myapp.git"
  ]

  /** `init_config` on the current contents of `caput.conf`: an existing file is left as
      it is; otherwise the sample is written. */
  function InitConfig(file: Option<string>): (r: Option<string>)
    ensures r.Some?
    ensures file.Some? ==> r == file
  {
    match file
    case Some(_) => file
    case None => Some(SampleText())
  }

  lemma EntriesAppend(a: seq<string>, b: seq<string>)
    ensures Entries(a + b) == Entries(a) + Entries(b)
  {
    MapSeqAppend(ParseLine, a, b);
  }

  lemma RemarkSkipped(text: string)
    requires NewlineFree(text)
    ensures IsReadLine(Remark(text) + "\n") && ParseLine(Remark(text) + "\n") == None
  {
    var l := Remark(text) + "\n";
    assert l[..|l| - 1] == "# " + text;
    StripKeepsFirst(l);
    assert Strip(l)[0] == '#';
    assert StartsWith(Strip(l), "#");
  }

  lemma BlankSkipped()
    ensures IsReadLine("\n") && ParseLine("\n") == None
  {
    StripAllSpace("\n");
  }

  lemma {:induction false} BlockLinesNewlineFree(b: Block)
    requires WellFormed(b)
    ensures forall i | 0 <= i < |BlockLines(b)| :: NewlineFree(BlockLines(b)[i])
  {
    forall i | 0 <= i < |BlockLines(b)| ensures NewlineFree(BlockLines(b)[i]) {
      if i < |b.remarks| {
        assert BlockLines(b)[i] == "# " + b.remarks[i];
      } else {
        assert '\n' !in b.key by {
          assert forall j | 0 <= j < |b.key| :: IsWordChar(b.key[j]);
        }
        assert BlockLines(b)[i] == b.key + "=\"" + b.value + "\"";
      }
    }
  }

  lemma {:induction false} JoinBlocksNewlineFree(bs: seq<Block>)
    requires forall i | 0 <= i < |bs| :: WellFormed(bs[i])
    ensures forall i | 0 <= i < |JoinBlocks(bs)| :: NewlineFree(JoinBlocks(bs)[i])
    decreases |bs|
  {
    if |bs| > 0 {
      BlockLinesNewlineFree(bs[0]);
      if |bs| > 1 {
        JoinBlocksNewlineFree(bs[1..]);
      }
    }
  }

  /** The lines of a block, as `readlines` returns them. */
  lemma BlockLinesAt(b: Block)
    ensures |Terminated(BlockLines(b))| == |b.remarks| + 1
    ensures forall i | 0 <= i < |b.remarks| :: Terminated(BlockLines(b))[i] == Remark(b.remarks[i]) + "\n"
    ensures Terminated(BlockLines(b))[|b.remarks|] == b.key + "=\"" + b.value + "\"" + "\n"
  {
  }

  /** A block contributes nothing for its comments and then its own setting. */
  lemma BlockRemarkEntry(b: Block, i: nat)
    requires WellFormed(b) && i < |b.remarks|
    ensures |Entries(Terminated(BlockLines(b)))| == |b.remarks| + 1
    ensures Entries(Terminated(BlockLines(b)))[i] == None
  {
    BlockLinesAt(b);
    RemarkSkipped(b.remarks[i]);
  }

  lemma BlockSettingEntry(b: Block)
    requires WellFormed(b)
    ensures |Entries(Terminated(BlockLines(b)))| == |b.remarks| + 1
    ensures Entries(Terminated(BlockLines(b)))[|b.remarks|] == Some((b.key, b.value))
  {
    BlockLinesAt(b);
    DoubleQuoted(b.key, b.value);
  }

  /** Entries that bind nothing and then one binding act as that one binding. */
  lemma ApplyLast(s: Settings, es: seq<Entry>, key: string, value: string)
    requires |es| > 0 && es[|es| - 1] == Some((key, value))
    requires forall i | 0 <= i < |es| - 1 :: es[i].None?
    ensures Apply(s, es) == s[key := value]
  {
    var front := es[..|es| - 1];
    assert es == front + [Some((key, value))];
    ApplyAppend(s, front, [Some((key, value))]);
    ApplyNothing(s, front);
  }

  /** Loading a block's lines binds its key to its value: the comments contribute
      nothing, and the setting comes last. */
  lemma BlockApply(s: Settings, b: Block)
    requires WellFormed(b)
    ensures Apply(s, Entries(Terminated(BlockLines(b)))) == s[b.key := b.value]
  {
    var es := Entries(Terminated(BlockLines(b)));
    var n := |b.remarks|;
    assert |es| == n + 1 && es[n] == Some((b.key, b.value)) by {
      BlockSettingEntry(b);
    }
    assert forall i | 0 <= i < n :: es[i].None? by {
      forall i | 0 <= i < n ensures es[i].None? {
        BlockRemarkEntry(b, i);
      }
    }
    ApplyLast(s, es, b.key, b.value);
  }

  lemma BlankTerminated()
    ensures Terminated([""]) == ["\n"]
  {
    var t := Terminated([""]);
    assert |t| == 1 && t[0] == "" + "\n";
    assert "" + "\n" == "\n";
  }

  lemma JoinBlocksLines(bs: seq<Block>)
    requires |bs| > 1
    ensures Terminated(JoinBlocks(bs)) ==
      Terminated(BlockLines(bs[0])) + (["\n"] + Terminated(JoinBlocks(bs[1..])))
  {
    var x := BlockLines(bs[0]);
    var y := JoinBlocks(bs[1..]);
    assert JoinBlocks(bs) == (x + [""]) + y;
    TerminatedAppend(x + [""], y);
    TerminatedAppend(x, [""]);
    BlankTerminated();
  }

  /** Loading the laid-out blocks applies their settings in order. */
  lemma {:induction false} JoinBlocksApply(s: Settings, bs: seq<Block>)
    requires forall i | 0 <= i < |bs| :: WellFormed(bs[i])
    ensures Apply(s, Entries(Terminated(JoinBlocks(bs)))) == Bindings(s, bs)
    decreases |bs|
  {
    if |bs| == 1 {
      BlockApply(s, bs[0]);
    } else if |bs| > 1 {
      var head := Terminated(BlockLines(bs[0]));
      var rest := Terminated(JoinBlocks(bs[1..]));
      var s' := s[bs[0].key := bs[0].value];
      BlockApply(s, bs[0]);
      JoinBlocksApply(s', bs[1..]);
      JoinBlocksLines(bs);
      BlankSkipped();
      assert Entries(["\n"]) == [None];
      EntriesAppend(["\n"], rest);
      EntriesAppend(head, ["\n"] + rest);
      ApplyAppend(s, Entries(head), [None] + Entries(rest));
      ApplyAppend(s', [None], Entries(rest));
    }
  }

  lemma LayoutNewlineFree(heading: string, bs: seq<Block>)
    requires NewlineFree(heading)
    requires forall i | 0 <= i < |bs| :: WellFormed(bs[i])
    ensures forall i | 0 <= i < |Layout(heading, bs)| :: NewlineFree(Layout(heading, bs)[i])
  {
    var ls := Layout(heading, bs);
    var top := [Remark(heading), ""];
    var rest := JoinBlocks(bs);
    JoinBlocksNewlineFree(bs);
    assert NewlineFree(top[0]) by {
      assert top[0] == "# " + heading;
    }
    forall i | 0 <= i < |ls| ensures NewlineFree(ls[i]) {
      if i >= 2 {
        assert ls[i] == rest[i - 2];
      }
    }
  }

  lemma TerminatedTop(h: string)
    ensures Terminated([h, ""]) == [h + "\n", "\n"]
  {
    var t := Terminated([h, ""]);
    assert t[1] == "" + "\n" == "\n";
  }

  lemma LayoutLines(heading: string, bs: seq<Block>)
    requires NewlineFree(heading)
    requires forall i | 0 <= i < |bs| :: WellFormed(bs[i])
    ensures ReadLines(Unlines(Layout(heading, bs))) ==
      [Remark(heading) + "\n", "\n"] + Terminated(JoinBlocks(bs))
  {
    var ls := Layout(heading, bs);
    LayoutNewlineFree(heading, bs);
    ReadLinesUnlines(ls);
    TerminatedAppend([Remark(heading), ""], JoinBlocks(bs));
    TerminatedTop(Remark(heading));
  }

  lemma TopEntries(heading: string)
    requires NewlineFree(heading)
    ensures Entries([Remark(heading) + "\n", "\n"]) == [None, None]
  {
    var top := [Remark(heading) + "\n", "\n"];
    RemarkSkipped(heading);
    BlankSkipped();
    assert IsReadLine(top[0]) && IsReadLine(top[1]);
    var es := Entries(top);
    assert es[0] == None && es[1] == None;
  }

  /** A file laid out as a heading and well-formed blocks loads as the blocks' settings. */
  lemma LoadLayout(heading: string, bs: seq<Block>)
    requires NewlineFree(heading)
    requires forall i | 0 <= i < |bs| :: WellFormed(bs[i])
    ensures LoadConfig(Some(Unlines(Layout(heading, bs)))) == Some(Bindings(map[], bs))
  {
    var top := [Remark(heading) + "\n", "\n"];
    var rest := Terminated(JoinBlocks(bs));
    LayoutLines(heading, bs);
    RemarkSkipped(heading);
    BlankSkipped();
    TopEntries(heading);
    JoinBlocksApply(map[], bs);
    EntriesAppend(top, rest);
    ApplyAppend(map[], [None, None], Entries(rest));
    ApplyNothing(map[], [None, None]);
  }

  lemma AppNameRemark0()
    ensures NewlineFree(AppNameBlock.remarks[0])
  {
    NewlineFreeJoin("Name of the application. ", "This name will be used for ");
    NewlineFreeJoin("Name of the application. " + "This name will be used for ", "the nginx site as well");
  }

  lemma AppNameRemark1()
    ensures NewlineFree(AppNameBlock.remarks[1])
  {
    NewlineFreeJoin("as for the Puma service ", "definition.");
  }

  lemma AppNameBlockWellFormed()
    ensures WellFormed(AppNameBlock)
  {
    AppNameRemark0();
    AppNameRemark1();
    assert forall i | 0 <= i < |AppNameBlock.remarks| :: NewlineFree(AppNameBlock.remarks[i]) by {
      assert |AppNameBlock.remarks| == 2;
    }
  }

  lemma SetupUserRemark0()
    ensures NewlineFree(SetupUserBlock.remarks[0])
  {
    NewlineFreeJoin("Setup user on the server. ", "Note that this user should ");
    NewlineFreeJoin("Setup user on the server. " + "Note that this user should ", "have passwordless sudo");
  }

  lemma SetupUserRemark1()
    ensures NewlineFree(SetupUserBlock.remarks[1])
  {
    NewlineFreeJoin("access on the server. This ", "user is only used while ");
    NewlineFreeJoin("access on the server. This " + "user is only used while ", "setting up the application.");
  }

  lemma SetupUserRemark2()
    ensures NewlineFree(SetupUserBlock.remarks[2])
  {
    NewlineFreeJoin("This user must exist on the ", "server, if it doesn't the ");
    NewlineFreeJoin("This user must exist on the " + "server, if it doesn't the ", "script will notify the user");
  }

  lemma SetupUserRemark3()
    ensures NewlineFree(SetupUserBlock.remarks[3])
  {
  }

  lemma SetupUserBlockWellFormed()
    ensures WellFormed(SetupUserBlock)
  {
    SetupUserRemark0();
    SetupUserRemark1();
    SetupUserRemark2();
    SetupUserRemark3();
    assert forall i | 0 <= i < |SetupUserBlock.remarks| :: NewlineFree(SetupUserBlock.remarks[i]) by {
      assert |SetupUserBlock.remarks| == 4;
    }
  }

  lemma DeployUserRemark0()
    ensures NewlineFree(DeployUserBlock.remarks[0])
  {
    NewlineFreeJoin("Deploy user on the server. ", "This is the user that will ");
    NewlineFreeJoin("Deploy user on the server. " + "This is the user that will ", "own the application and also");
  }

  lemma DeployUserRemark1()
    ensures NewlineFree(DeployUserBlock.remarks[1])
  {
    NewlineFreeJoin("run the Puma process that ", "will run the application. If ");
    NewlineFreeJoin("run the Puma process that " + "will run the application. If ", "this user does not exist it");
  }

  lemma DeployUserRemark2()
    ensures NewlineFree(DeployUserBlock.remarks[2])
  {
  }

  lemma DeployUserBlockWellFormed()
    ensures WellFormed(DeployUserBlock)
  {
    DeployUserRemark0();
    DeployUserRemark1();
    DeployUserRemark2();
    assert forall i | 0 <= i < |DeployUserBlock.remarks| :: NewlineFree(DeployUserBlock.remarks[i]) by {
      assert |DeployUserBlock.remarks| == 3;
    }
  }

  lemma ServerRemark0()
    ensures NewlineFree(ServerBlock.remarks[0])
  {
    NewlineFreeJoin("Target server hostname or ", "IP. This is the address to ");
    NewlineFreeJoin("Target server hostname or " + "IP. This is the address to ", "which the application will ");
    NewlineFreeJoin("Target server hostname or " + "IP. This is the address to " + "which the application will ", "be");
  }

  lemma ServerRemark1()
    ensures NewlineFree(ServerBlock.remarks[1])
  {
    NewlineFreeJoin("deployed. It does not, ", "however, have to be the ");
    NewlineFreeJoin("deployed. It does not, " + "however, have to be the ", "hostname of the application ");
    NewlineFreeJoin("deployed. It does not, " + "however, have to be the " + "hostname of the application ", "itself, and");
  }

  lemma ServerRemark2()
    ensures NewlineFree(ServerBlock.remarks[2])
  {
    NewlineFreeJoin("in most cases it will not ", "be.");
  }

  lemma ServerBlockWellFormed()
    ensures WellFormed(ServerBlock)
  {
    ServerRemark0();
    ServerRemark1();
    ServerRemark2();
    assert forall i | 0 <= i < |ServerBlock.remarks| :: NewlineFree(ServerBlock.remarks[i]) by {
      assert |ServerBlock.remarks| == 3;
    }
  }

  lemma DomainRemark0()
    ensures NewlineFree(DomainBlock.remarks[0])
  {
    NewlineFreeJoin("Domain for nginx site. This ", "is the hostname that users ");
    NewlineFreeJoin("Domain for nginx site. This " + "is the hostname that users ", "will enter in their browsers");
  }

  lemma DomainRemark1()
    ensures NewlineFree(DomainBlock.remarks[1])
  {
    NewlineFreeJoin("to reach the application. ", "DNS configuration is assumed ");
    NewlineFreeJoin("to reach the application. " + "DNS configuration is assumed ", "to have been done prior to");
  }

  lemma DomainRemark2()
    ensures NewlineFree(DomainBlock.remarks[2])
  {
    NewlineFreeJoin("installing the application ", "using this script.");
  }

  lemma DomainBlockWellFormed()
    ensures WellFormed(DomainBlock)
  {
    DomainRemark0();
    DomainRemark1();
    DomainRemark2();
    assert forall i | 0 <= i < |DomainBlock.remarks| :: NewlineFree(DomainBlock.remarks[i]) by {
      assert |DomainBlock.remarks| == 3;
    }
  }

  lemma RubyVersionRemark0()
    ensures NewlineFree(RubyVersionBlock.remarks[0])
  {
    NewlineFreeJoin("Ruby version to use with ", "rbenv. This version will be ");
    NewlineFreeJoin("Ruby version to use with " + "rbenv. This version will be ", "installed via rbenv on the ");
    NewlineFreeJoin("Ruby version to use with " + "rbenv. This version will be " + "installed via rbenv on the ", "server.");
  }

  lemma RubyVersionRemark1()
    ensures NewlineFree(RubyVersionBlock.remarks[1])
  {
    NewlineFreeJoin("It needs to match the RUBY ", "version used by the Ruby on ");
    NewlineFreeJoin("It needs to match the RUBY " + "version used by the Ruby on ", "Rails application being ");
    NewlineFreeJoin("It needs to match the RUBY " + "version used by the Ruby on " + "Rails application being ", "deployed.");
  }

  lemma RubyVersionBlockWellFormed()
    ensures WellFormed(RubyVersionBlock)
  {
    RubyVersionRemark0();
    RubyVersionRemark1();
    assert forall i | 0 <= i < |RubyVersionBlock.remarks| :: NewlineFree(RubyVersionBlock.remarks[i]) by {
      assert |RubyVersionBlock.remarks| == 2;
    }
  }

  lemma DeployPathRemark0()
    ensures NewlineFree(DeployPathBlock.remarks[0])
  {
    NewlineFreeJoin("Path on the server where app ", "will be deployed. This will ");
    NewlineFreeJoin("Path on the server where app " + "will be deployed. This will ", "be the root directory on the");
  }

  lemma DeployPathRemark1()
    ensures NewlineFree(DeployPathBlock.remarks[1])
  {
    NewlineFreeJoin("server where the Ruby on ", "Rails application will be ");
    NewlineFreeJoin("server where the Ruby on " + "Rails application will be ", "deployed by Capistrano.");
  }

  lemma DeployPathBlockWellFormed()
    ensures WellFormed(DeployPathBlock)
  {
    DeployPathRemark0();
    DeployPathRemark1();
    assert forall i | 0 <= i < |DeployPathBlock.remarks| :: NewlineFree(DeployPathBlock.remarks[i]) by {
      assert |DeployPathBlock.remarks| == 2;
    }
  }

  lemma RepoUrlRemark0()
    ensures NewlineFree(RepoUrlBlock.remarks[0])
  {
    NewlineFreeJoin("Git repository URL. This ", "will be used to configure ");
    NewlineFreeJoin("Git repository URL. This " + "will be used to configure ", "the Capistrano deployment ");
    NewlineFreeJoin("Git repository URL. This " + "will be used to configure " + "the Capistrano deployment ", "files.");
  }

  lemma RepoUrlBlockWellFormed()
    ensures WellFormed(RepoUrlBlock)
  {
    RepoUrlRemark0();
    assert forall i | 0 <= i < |RepoUrlBlock.remarks| :: NewlineFree(RepoUrlBlock.remarks[i]) by {
      assert |RepoUrlBlock.remarks| == 1;
    }
  }

  lemma SampleWellFormed()
    ensures forall i | 0 <= i < |SampleBlocks| :: WellFormed(SampleBlocks[i])
  {
    AppNameBlockWellFormed();
    SetupUserBlockWellFormed();
    DeployUserBlockWellFormed();
    ServerBlockWellFormed();
    DomainBlockWellFormed();
    RubyVersionBlockWellFormed();
    DeployPathBlockWellFormed();
    RepoUrlBlockWellFormed();
  }

  lemma BindingsStep(s: Settings, bs: seq<Block>, i: nat)
    requires i < |bs|
    ensures Bindings(s, bs[i..]) == Bindings(s[bs[i].key := bs[i].value], bs[i + 1..])
  {
    assert bs[i..][0] == bs[i];
    assert bs[i..][1..] == bs[i + 1..];
  }

  lemma SampleBindings()
    ensures Bindings(map[], SampleBlocks) == SampleSettings
  {
    var bs := SampleBlocks;
    var m0: Settings := map[];
    var m1 := m0[bs[0].key := bs[0].value];
    var m2 := m1[bs[1].key := bs[1].value];
    var m3 := m2[bs[2].key := bs[2].value];
    var m4 := m3[bs[3].key := bs[3].value];
    var m5 := m4[bs[4].key := bs[4].value];
    var m6 := m5[bs[5].key := bs[5].value];
    var m7 := m6[bs[6].key := bs[6].value];
    var m8 := m7[bs[7].key := bs[7].value];
    assert bs[0..] == bs;
    BindingsStep(m0, bs, 0);
    BindingsStep(m1, bs, 1);
    BindingsStep(m2, bs, 2);
    BindingsStep(m3, bs, 3);
    BindingsStep(m4, bs, 4);
    BindingsStep(m5, bs, 5);
    BindingsStep(m6, bs, 6);
    BindingsStep(m7, bs, 7);
    assert bs[8..] == [];
    assert m8 == SampleSettings;
  }

  /** `caput init` followed by `load_config!` yields exactly the eight sample settings. */
  lemma SampleLoads()
    ensures LoadConfig(InitConfig(None)) == Some(SampleSettings)
    ensures Lookup(SampleSettings, "DEPLOY_PATH") == Some("/var/www/myapp")
  {
    SampleWellFormed();
    LoadLayout(SampleHeading, SampleBlocks);
    SampleBindings();
  }

  /** `caput init` run twice writes the file once. */
  lemma InitConfigOnce(file: Option<string>)
    ensures InitConfig(InitConfig(file)) == InitConfig(file)
  {
  }
}
