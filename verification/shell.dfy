/** What the remote `bash -l` does with the text it is sent, as far as the tool depends
    on it: the reading of a double-quoted word, and the exit status of a script made of
    simple commands (no `set -e`, so only the last command counts). */
module Shell {
  import opened Wrappers
  import opened Text

  // ---------------------------------------------------------------------------
  // Backslash escaping, as built with Ruby's String#gsub
  // ---------------------------------------------------------------------------

  /** Ruby `s.gsub(c, repl)` for a one-character pattern and a replacement string whose
      backslash sequences (`\"`, `\$`) are not special to gsub and are kept as written. */
  function Gsub(s: string, c: char, repl: string): string
  {
    if |s| == 0 then ""
    else (if s[0] == c then repl else [s[0]]) + Gsub(s[1..], c, repl)
  }

  /** Every character of `special` preceded by a backslash, everything else unchanged. */
  function Escape(s: string, special: set<char>): string
  {
    if |s| == 0 then ""
    else (if s[0] in special then ['\\', s[0]] else [s[0]]) + Escape(s[1..], special)
  }

  /** How many characters of `s` belong to `special`. */
  function Count(s: string, special: set<char>): nat
  {
    if |s| == 0 then 0 else (if s[0] in special then 1 else 0) + Count(s[1..], special)
  }

  lemma {:induction false} GsubAppend(a: string, b: string, c: char, repl: string)
    ensures Gsub(a + b, c, repl) == Gsub(a, c, repl) + Gsub(b, c, repl)
  {
    if |a| > 0 {
      assert (a + b)[0] == a[0];
      assert (a + b)[1..] == a[1..] + b;
      GsubAppend(a[1..], b, c, repl);
    } else {
      assert a + b == b;
    }
  }

  /** Replacing a character by itself changes nothing. */
  lemma {:induction false} GsubIdentity(s: string, c: char)
    ensures Gsub(s, c, [c]) == s
  {
    if |s| > 0 {
      GsubIdentity(s[1..], c);
      assert s == [s[0]] + s[1..];
    }
  }

  /** Escaping only `$` is one gsub. */
  lemma {:induction false} GsubDollar(s: string)
    ensures Gsub(s, '$', "\\$") == Escape(s, {'$'})
  {
    if |s| > 0 {
      GsubDollar(s[1..]);
    }
  }

  /** The two chained gsubs (first `"`, then `$`) escape both characters at once: the
      first pass adds no `$` for the second pass to find. */
  lemma {:induction false} GsubChainEscapes(s: string)
    ensures Gsub(Gsub(s, '"', "\\\""), '$', "\\$") == Escape(s, {'"', '$'})
  {
    if |s| > 0 {
      var head: string := if s[0] == '"' then "\\\"" else [s[0]];
      assert Gsub(s, '"', "\\\"") == head + Gsub(s[1..], '"', "\\\"");
      GsubAppend(head, Gsub(s[1..], '"', "\\\""), '$', "\\$");
      GsubChainEscapes(s[1..]);
      if s[0] == '"' {
        assert Gsub(head, '$', "\\$") == "\\\"";
      } else {
        assert Gsub(head, '$', "\\$") == if s[0] == '$' then "\\$" else [s[0]];
      }
    }
  }

  /** Escaping grows the text by exactly one backslash per special character. */
  lemma {:induction false} EscapeLength(s: string, special: set<char>)
    ensures |Escape(s, special)| == |s| + Count(s, special)
  {
    if |s| > 0 {
      EscapeLength(s[1..], special);
    }
  }

  // ---------------------------------------------------------------------------
  // The shell's reading of a double-quoted word
  // ---------------------------------------------------------------------------

  /** The characters a backslash escapes inside double quotes. */
  predicate QuotedEscapable(c: char) {
    c == '$' || c == '`' || c == '"' || c == '\\'
  }

  /** The literal text bash delivers for the body `e` of a double-quoted word, or `None`
      when the body does not reach the program literally: an unescaped `"` ends the word
      early, an unescaped `$` or backtick starts an expansion, and a final unpaired
      backslash would escape the closing quote. A backslash before one of `$`, backtick,
      `"`, backslash is dropped; before a newline both vanish; before anything else it is
      kept. */
  function Unquote(e: string): Option<string>
    decreases |e|
  {
    if |e| == 0 then Some("")
    else if e == "\\" then None
    else if e[0] == '\\' && |e| >= 2 && QuotedEscapable(e[1]) then
      Prepend(e[1], Unquote(e[2..]))
    else if e[0] == '\\' && |e| >= 2 && e[1] == '\n' then
      Unquote(e[2..])
    else if e[0] == '"' || e[0] == '$' || e[0] == '`' then
      None
    else
      Prepend(e[0], Unquote(e[1..]))
  }

  function Prepend(c: char, o: Option<string>): Option<string> {
    match o
    case Some(t) => Some([c] + t)
    case None => None
  }

  /** Text without backslashes and backticks, escaped for `"` and `$`, reaches the
      program exactly as it was. */
  lemma {:induction false} UnquoteEscaped(s: string)
    requires '\\' !in s && '`' !in s
    ensures Unquote(Escape(s, {'"', '$'})) == Some(s)
  {
    if |s| > 0 {
      var e := Escape(s, {'"', '$'});
      UnquoteEscaped(s[1..]);
      if s[0] in {'"', '$'} {
        assert e == ['\\', s[0]] + Escape(s[1..], {'"', '$'});
        assert e[2..] == Escape(s[1..], {'"', '$'});
      } else {
        assert e == [s[0]] + Escape(s[1..], {'"', '$'});
        assert e[1..] == Escape(s[1..], {'"', '$'});
      }
      assert s == [s[0]] + s[1..];
    }
  }

  /** A backslash in front of a quote is not protected: the escaped text of `\"` is
      `\\"`, which the shell reads as a backslash followed by the end of the word. */
  lemma BackslashDefeatsEscape()
    ensures Escape("\\\"", {'"', '$'}) == "\\\\\""
    ensures Unquote(Escape("\\\"", {'"', '$'})) == None
  {
    assert Escape("\\\"", {'"', '$'}) == "\\\\\"";
    var e := "\\\\\"";
    assert e[2..] == "\"";
    assert Unquote(e[2..]) == None;
  }

  /** A backtick is left as is, so the shell runs what it encloses. */
  lemma BacktickDefeatsEscape()
    ensures Unquote(Escape("`id`", {'"', '$'})) == None
  {
    assert Escape("`id`", {'"', '$'}) == "`id`";
  }

  // ---------------------------------------------------------------------------
  // Exit status of a script of simple commands
  // ---------------------------------------------------------------------------

  /** A command line that cannot fail: `c || true` runs `true` whenever `c` fails. */
  predicate Tolerant(line: string) {
    EndsWith(line, " || true")
  }

  predicate Blank(line: string) {
    Strip(line) == ""
  }

  /** Status of one simple command line, given the status each command would have. */
  function LineStatus(line: string, status: string -> int): int {
    if Tolerant(line) then 0 else status(line)
  }

  /** Status the script leaves when the shell reaches the final `exit`: every line runs
      (no `set -e`), and the status is that of the last command; 0 if there is none. */
  function ScriptStatus(lines: seq<string>, status: string -> int): int
  {
    if |lines| == 0 then 0
    else if Blank(lines[|lines| - 1]) then ScriptStatus(lines[..|lines| - 1], status)
    else LineStatus(lines[|lines| - 1], status)
  }

  /** A script whose every line tolerates failure succeeds whatever its commands do. */
  lemma {:induction false} TolerantScriptSucceeds(lines: seq<string>, status: string -> int)
    requires forall i | 0 <= i < |lines| :: Tolerant(lines[i])
    ensures ScriptStatus(lines, status) == 0
  {
    if |lines| > 0 && Blank(lines[|lines| - 1]) {
      TolerantScriptSucceeds(lines[..|lines| - 1], status);
    }
  }

  /** Only the last command decides: two runs that agree on it end with the same status,
      however the earlier commands fared. */
  lemma LastCommandDecides(lines: seq<string>, s1: string -> int, s2: string -> int)
    requires |lines| > 0 && !Blank(lines[|lines| - 1])
    requires s1(lines[|lines| - 1]) == s2(lines[|lines| - 1])
    ensures ScriptStatus(lines, s1) == ScriptStatus(lines, s2)
  {
  }
}
