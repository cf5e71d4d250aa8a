/** The MySQL database and user `prepare` creates from the application's credentials, and
    the one-line command that hands the statements to `mysql` through the remote shell. */
module Sql {
  import opened Wrappers
  import opened Text
  import opened Shell

  /** The `mysql` section of the decrypted credentials. `dig` answers nil for a missing
      key, and nil interpolates as the empty string. */
  datatype Credentials = Credentials(database: Option<string>, username: Option<string>, password: Option<string>)

  function CreateDatabase(db: string): string {
    "CREATE DATABASE IF NOT EXISTS " + db + ";"
  }

  function CreateUser(user: string, pw: string): string {
    "CREATE USER IF NOT EXISTS " + user + "@localhost IDENTIFIED BY '" + pw + "';"
  }

  function Grant(db: string, user: string): string {
    "GRANT ALL PRIVILEGES ON " + db + ".* TO " + user + "@localhost;"
  }

  const Flush: string := "FLUSH PRIVILEGES;"

  function SqlLines(c: Credentials): seq<string> {
    var db := Interpolated(c.database);
    var user := Interpolated(c.username);
    var pw := Interpolated(c.password);
    [CreateDatabase(db), CreateUser(user, pw), Grant(db, user), Flush]
  }

  /** The heredoc: every statement on its own line, each line ending in a newline. */
  function SqlText(c: Credentials): string {
    Unlines(SqlLines(c))
  }

  /** `sql.strip`, then the two gsubs that put a backslash before `"` and `$`. */
  function EscapeSql(sql: string): (r: string)
    ensures r == Escape(Strip(sql), {'"', '$'})
    ensures |r| == |Strip(sql)| + Count(Strip(sql), {'"', '$'})
  {
    GsubChainEscapes(Strip(sql));
    EscapeLength(Strip(sql), {'"', '$'});
    Gsub(Gsub(Strip(sql), '"', "\\\""), '$', "\\$")
  }

  const MysqlPrefix: string := "sudo mysql -e \""

  function MysqlCommand(sql: string): string {
    MysqlPrefix + EscapeSql(sql) + "\""
  }

  /** The text `mysql -e` receives from the shell for a command line: the body of the
      double-quoted word that closes the line, as the shell reads it. */
  function MysqlArgument(cmd: string): Option<string> {
    var body :- DropPrefix(cmd, MysqlPrefix);
    if |body| > 0 && body[|body| - 1] == '"' then Unquote(body[..|body| - 1]) else None
  }

  /** Statements without backslashes and backticks reach `mysql` stripped and otherwise
      exactly as written. */
  lemma MysqlRoundTrip(sql: string)
    requires '\\' !in Strip(sql) && '`' !in Strip(sql)
    ensures MysqlArgument(MysqlCommand(sql)) == Some(Strip(sql))
  {
    var e := EscapeSql(sql);
    assert MysqlCommand(sql) == MysqlPrefix + (e + "\"");
    DropPrefixConcat(MysqlPrefix, e + "\"");
    assert (e + "\"")[..|e|] == e;
    UnquoteEscaped(Strip(sql));
  }

  /** No credential contains a backslash or a backtick. */
  predicate Plain(c: Credentials) {
    var db := Interpolated(c.database);
    var user := Interpolated(c.username);
    var pw := Interpolated(c.password);
    '\\' !in db + user + pw && '`' !in db + user + pw
  }

  /** `strip` removes only the heredoc's final newline. */
  lemma SqlStripped(c: Credentials)
    ensures Strip(SqlText(c)) + "\n" == SqlText(c)
  {
    var db := Interpolated(c.database);
    var user := Interpolated(c.username);
    var pw := Interpolated(c.password);
    assert CreateDatabase(db)[0] == 'C';
    assert Flush[|Flush| - 1] == ';';
    StripUnlinesFour(CreateDatabase(db), CreateUser(user, pw), Grant(db, user), Flush);
  }

  /** No backslash and no backtick. */
  predicate Clean(s: string) {
    '\\' !in s && '`' !in s
  }

  lemma CleanJoin(a: string, b: string)
    requires Clean(a) && Clean(b)
    ensures Clean(a + b)
  {
  }

  lemma CleanCredentials(c: Credentials)
    requires Plain(c)
    ensures Clean(Interpolated(c.database))
    ensures Clean(Interpolated(c.username))
    ensures Clean(Interpolated(c.password))
  {
    var db := Interpolated(c.database);
    var user := Interpolated(c.username);
    var pw := Interpolated(c.password);
    assert db + user + pw == db + (user + pw);
  }

  lemma CreateDatabaseClean(db: string)
    requires Clean(db)
    ensures Clean(CreateDatabase(db))
  {
    assert Clean("CREATE DATABASE IF NOT EXISTS ");
    assert Clean(";");
  }

  lemma CreateUserClean(user: string, pw: string)
    requires Clean(user) && Clean(pw)
    ensures Clean(CreateUser(user, pw))
  {
    assert Clean("CREATE USER IF NOT EXISTS ");
    assert Clean("@localhost IDENTIFIED BY '");
    assert Clean("';");
  }

  lemma GrantClean(db: string, user: string)
    requires Clean(db) && Clean(user)
    ensures Clean(Grant(db, user))
  {
    assert Clean("GRANT ALL PRIVILEGES ON ");
    assert Clean(".* TO ");
    assert Clean("@localhost;");
  }

  /** The statements use no backslash and no backtick of their own. */
  lemma SqlTextClean(c: Credentials)
    requires Plain(c)
    ensures Clean(SqlText(c))
  {
    var db := Interpolated(c.database);
    var user := Interpolated(c.username);
    var pw := Interpolated(c.password);
    CleanCredentials(c);
    CreateDatabaseClean(db);
    CreateUserClean(user, pw);
    GrantClean(db, user);
    assert Clean(Flush) by {
      assert Clean("FLUSH PRIVILEGES;");
    }
    assert Clean("\n");
    UnlinesFour(CreateDatabase(db), CreateUser(user, pw), Grant(db, user), Flush);
  }

  /** Credentials without backslashes and backticks give `mysql` the heredoc's statements
      exactly, without the final newline: the quotes and dollar signs of a password
      survive the shell. */
  lemma SqlReachesMysql(c: Credentials)
    requires Plain(c)
    ensures MysqlArgument(MysqlCommand(SqlText(c))) == Some(Strip(SqlText(c)))
    ensures Strip(SqlText(c)) + "\n" == SqlText(c)
  {
    SqlStripped(c);
    SqlTextClean(c);
    assert '\\' !in Strip(SqlText(c)) && '`' !in Strip(SqlText(c)) by {
      assert Strip(SqlText(c)) + "\n" == SqlText(c);
    }
    MysqlRoundTrip(SqlText(c));
  }
}
