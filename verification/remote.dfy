/** `Caput::Remote`: running a script on the remote host and uploading files. The SSH and
    SCP sessions are not modelled; an action is a value, and whether it succeeded is
    decided by the observed exit status (see module Steps). */
module Remote {
  import opened Wrappers
  import opened Text
  import opened Numerals
  import opened Shell

  /** A `Caput::Remote` instance: the account and host every command goes to. A nil
      configuration value stays nil here. */
  datatype Session = Session(user: Option<string>, host: Option<string>)

  /** What an upload transfers: a local file, or in-memory content that goes through a
      temporary file first. */
  datatype Source = LocalFile(path: string) | TempFile(content: string)

  /** One use of the SSH connection: `exec!` of a script, or the SCP transfer inside
      `upload_file!`. */
  datatype Action =
    | Exec(session: Session, script: string)
    | Upload(session: Session, source: Source, remotePath: string)

  /** `mode: 0644`, the default of both upload methods. */
  const DefaultMode: nat := 6 * 64 + 4 * 8 + 4

  // ---------------------------------------------------------------------------
  // exec!
  // ---------------------------------------------------------------------------

  /** What `exec!` sends to the login shell before closing its input. */
  function ShellInput(cmd: string): string {
    cmd + "\nexit\n"
  }

  /** The shell reads the script's lines, then `exit` as a line of its own, whether or not
      the script ended with a newline. */
  lemma ShellInputLines(cmd: string)
    ensures ReadLines(ShellInput(cmd)) == ReadLines(cmd + "\n") + ["exit\n"]
  {
    assert ShellInput(cmd) == (cmd + "\n") + "exit\n";
    ReadLinesAppend(cmd + "\n", "exit\n");
    ExitLine();
  }

  lemma ExitLine()
    ensures ReadLines("exit\n") == ["exit\n"]
  {
    var e := "exit\n";
    assert IndexOf(e, '\n') == 4 by {
      IndexOfConcat("exit", '\n', "");
      assert e == "exit" + ['\n'] + "";
    }
    assert e[..5] == e;
    assert e[5..] == "";
  }

  /** `#{exit_status}`: nil interpolates as the empty string. */
  function StatusText(status: Option<int>): string {
    match status
    case None => ""
    case Some(n) => ShowInt(n)
  }

  const FailurePrefix: string := "Remote command failed (exit "

  /** The message `exec!` raises with. */
  function FailureMessage(status: Option<int>, cmd: string): string {
    FailurePrefix + StatusText(status) + "): " + cmd
  }

  /** `exec!`'s verdict on an observed exit status: it returns normally only for status
      exactly 0; a non-zero status and a status never reported (nil) both raise. */
  function Verdict(cmd: string, status: Option<int>): (r: Outcome<string>)
    ensures r.Pass? <==> status == Some(0)
    ensures r.Fail? ==> ParseFailure(r.error) == Some((status, cmd))
  {
    if status == Some(0) then Pass
    else
      FailureMessageRoundTrip(status, cmd);
      Fail(FailureMessage(status, cmd))
  }

  /** Reads the status and the command back out of a failure message. */
  function ParseFailure(msg: string): Option<(Option<int>, string)>
  {
    match DropPrefix(msg, FailurePrefix)
    case None => None
    case Some(rest) => ParseStatusAndCommand(rest)
  }

  /** Reads `<status>): <command>`: the status runs up to the first `)`. */
  function ParseStatusAndCommand(rest: string): Option<(Option<int>, string)>
  {
    var k := IndexOf(rest, ')');
    if !(k + 3 <= |rest| && rest[k..k + 3] == "): ") then None
    else if k == 0 then Some((None, rest[3..]))
    else
      match ParseInt(rest[..k])
      case Some(n) => Some((Some(n), rest[k + 3..]))
      case None => None
  }

  lemma StatusTextHasNoParen(status: Option<int>)
    ensures ')' !in StatusText(status)
    ensures status.None? <==> StatusText(status) == ""
  {
    if status.Some? {
      var n := status.value;
      var d := Render(if n < 0 then -n else n, 10);
      assert forall i | 0 <= i < |d| :: IsDigit(d[i], 10);
      if n < 0 {
        assert ShowInt(n) == "-" + d;
        assert forall i | 0 <= i < |ShowInt(n)| :: ShowInt(n)[i] == '-' || IsDigit(ShowInt(n)[i], 10);
      }
    }
  }

  lemma StatusAndCommandRoundTrip(status: Option<int>, cmd: string)
    ensures ParseStatusAndCommand(StatusText(status) + "): " + cmd) == Some((status, cmd))
  {
    var st := StatusText(status);
    var rest := st + "): " + cmd;
    StatusTextHasNoParen(status);
    assert "): " == [')'] + ": ";
    assert rest == st + [')'] + (": " + cmd);
    IndexOfConcat(st, ')', ": " + cmd);
    assert rest[|st|..|st| + 3] == "): ";
    assert rest[|st| + 3..] == cmd;
    if status.Some? {
      assert rest[..|st|] == st;
      ParseShowInt(status.value);
    }
  }

  /** Every failure message names its status and command unambiguously. */
  lemma FailureMessageRoundTrip(status: Option<int>, cmd: string)
    ensures ParseFailure(FailureMessage(status, cmd)) == Some((status, cmd))
  {
    var rest := StatusText(status) + "): " + cmd;
    assert FailureMessage(status, cmd) == FailurePrefix + rest;
    DropPrefixConcat(FailurePrefix, rest);
    StatusAndCommandRoundTrip(status, cmd);
  }

  // ---------------------------------------------------------------------------
  // upload_file! / upload_content!
  // ---------------------------------------------------------------------------

  /** The command that sets permissions after a transfer: `sprintf('%o', mode)`. */
  function ChmodCommand(mode: nat, path: string): string {
    "sudo chmod " + Octal(mode) + " " + path
  }

  /** Reads the mode (as octal) and the path back out of a chmod command. */
  function ParseChmod(cmd: string): Option<(nat, string)>
  {
    if !(11 <= |cmd| && cmd[..11] == "sudo chmod ") then None
    else
      var rest := cmd[11..];
      var k := IndexOf(rest, ' ');
      if k == |rest| then None
      else
        match ParseNat(rest[..k], 8)
        case Some(m) => Some((m, rest[k + 1..]))
        case None => None
  }

  lemma ChmodRoundTrip(mode: nat, path: string)
    ensures ParseChmod(ChmodCommand(mode, path)) == Some((mode, path))
  {
    var o := Octal(mode);
    var cmd := ChmodCommand(mode, path);
    assert cmd == "sudo chmod " + (o + [' '] + path);
    assert cmd[..11] == "sudo chmod ";
    assert cmd[11..] == o + [' '] + path;
    assert ' ' !in o by {
      assert forall i | 0 <= i < |o| :: IsDigit(o[i], 8);
    }
    IndexOfConcat(o, ' ', path);
    assert (o + [' '] + path)[..|o|] == o;
    assert (o + [' '] + path)[|o| + 1..] == path;
    ParseRender(mode, 8);
  }

  /** The default mode 0644 is written `644`. */
  lemma DefaultModeText()
    ensures Octal(DefaultMode) == "644"
  {
    assert Render(6, 8) == "6";
    assert Render(52, 8) == Render(6, 8) + "4";
    assert Render(420, 8) == Render(52, 8) + "4";
  }

  function Transfer(s: Session, src: Source, remotePath: string, mode: nat): seq<Action> {
    [Upload(s, src, remotePath), Exec(s, ChmodCommand(mode, remotePath))]
  }

  /** `upload_file!`: one transfer of the local file, then one chmod of the destination,
      whose mode argument reads back as `mode`. */
  function UploadFile(s: Session, localPath: string, remotePath: string, mode: nat): (r: seq<Action>)
    ensures |r| == 2
    ensures r[0] == Upload(s, LocalFile(localPath), remotePath)
    ensures r[1].Exec? && r[1].session == s && ParseChmod(r[1].script) == Some((mode, remotePath))
  {
    ChmodRoundTrip(mode, remotePath);
    Transfer(s, LocalFile(localPath), remotePath, mode)
  }

  /** `upload_content!`: the content goes to a temporary file that is uploaded with the
      same destination and mode. */
  function UploadContent(s: Session, content: string, remotePath: string, mode: nat): (r: seq<Action>)
    ensures |r| == 2
    ensures r[0] == Upload(s, TempFile(content), remotePath)
    ensures r[1].Exec? && r[1].session == s && ParseChmod(r[1].script) == Some((mode, remotePath))
  {
    ChmodRoundTrip(mode, remotePath);
    Transfer(s, TempFile(content), remotePath, mode)
  }

  /** Both upload methods issue the same chmod for the same destination and mode. */
  lemma UploadsAgree(s: Session, localPath: string, content: string, remotePath: string, mode: nat)
    ensures UploadFile(s, localPath, remotePath, mode)[1] == UploadContent(s, content, remotePath, mode)[1]
  {
  }

  // ---------------------------------------------------------------------------
  // escape_for_bash
  // ---------------------------------------------------------------------------

  /** `escape_for_bash`: its first gsub replaces `"` by `"` and so does nothing; the
      second puts a backslash before every `$`. */
  function EscapeForBash(s: string): (r: string)
    ensures r == Escape(s, {'$'})
    ensures |r| == |s| + Count(s, {'$'})
  {
    GsubIdentity(s, '"');
    GsubDollar(s);
    EscapeLength(s, {'$'});
    Gsub(Gsub(s, '"', "\""), '$', "\\$")
  }

  /** Because double quotes stay bare, a value with a `"` does not survive being placed
      between double quotes. */
  lemma EscapeForBashLeavesQuotes()
    ensures Unquote(EscapeForBash("a\"b")) == None
  {
    assert EscapeForBash("a\"b") == "a\"b";
    assert "a\"b"[1..] == "\"b";
  }

  /** What `escape_for_bash` evidently means to do, and what `prepare` does to its SQL: a
      backslash before every `"` and every `$`. */
  function EscapeForBashIntended(s: string): (r: string)
    ensures r == Escape(s, {'"', '$'})
    ensures |r| == |s| + Count(s, {'"', '$'})
  {
    GsubChainEscapes(s);
    EscapeLength(s, {'"', '$'});
    Gsub(Gsub(s, '"', "\\\""), '$', "\\$")
  }

  /** Placed between double quotes, the intended escaping gives the shell back the value
      itself, double quotes and dollar signs included, as long as it holds no backslash
      and no backtick. */
  lemma IntendedEscapeRoundTrip(s: string)
    requires '\\' !in s && '`' !in s
    ensures Unquote(EscapeForBashIntended(s)) == Some(s)
  {
    UnquoteEscaped(s);
  }
}
