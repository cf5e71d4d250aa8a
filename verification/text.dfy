/** String utilities with the semantics of the Ruby core methods the tool relies on:
    `start_with?`, `end_with?`, `include?`, `strip`, `readlines` and `split("\n")`. */
module Text {
  import opened Wrappers

  // ---------------------------------------------------------------------------
  // Prefixes, suffixes and substrings
  // ---------------------------------------------------------------------------

  /** `s[i..]` agrees with `p[i..]` on every position of `p`. Checked one character at a
      time, so that a mismatch near the front of a line is found by unfolding. */
  predicate PrefixFrom(s: string, p: string, i: nat)
    decreases |p| - i
  {
    i >= |p| || (i < |s| && s[i] == p[i] && PrefixFrom(s, p, i + 1))
  }

  /** Ruby `s.start_with?(p)`. */
  predicate StartsWith(s: string, p: string) {
    PrefixFrom(s, p, 0)
  }

  /** `s` agrees with `p` on the positions of `p` from `i` on. */
  predicate AgreeFrom(s: string, p: string, i: nat) {
    forall k | i <= k < |p| :: k < |s| && s[k] == p[k]
  }

  lemma {:induction false} PrefixFromMeans(s: string, p: string, i: nat)
    ensures PrefixFrom(s, p, i) <==> AgreeFrom(s, p, i)
    decreases |p| - i
  {
    if i < |p| {
      PrefixFromMeans(s, p, i + 1);
      if AgreeFrom(s, p, i) {
        assert i < |s| && s[i] == p[i];
        assert AgreeFrom(s, p, i + 1);
      }
    }
  }

  /** The character-wise definition agrees with the slice reading of a prefix. */
  lemma StartsWithIff(s: string, p: string)
    ensures StartsWith(s, p) <==> |p| <= |s| && s[..|p|] == p
  {
    PrefixFromMeans(s, p, 0);
    if StartsWith(s, p) && |p| > 0 {
      var k := |p| - 1;
      assert AgreeFrom(s, p, 0);
      assert k < |s| && s[k] == p[k];
    }
    if |p| <= |s| && s[..|p|] == p {
      forall k | 0 <= k < |p| ensures k < |s| && s[k] == p[k] {
        assert s[..|p|][k] == s[k];
      }
    }
  }

  lemma StartsWithConcat(a: string, b: string)
    ensures StartsWith(a + b, a)
  {
    StartsWithIff(a + b, a);
  }

  /** One differing position refutes a prefix. */
  lemma DiffersAt(s: string, p: string, k: nat)
    requires k < |s| && k < |p| && s[k] != p[k]
    ensures !StartsWith(s, p)
  {
    PrefixFromMeans(s, p, 0);
  }

  /** What follows the prefix `p` of `s`, if `s` starts with it. */
  function DropPrefix(s: string, p: string): (r: Option<string>)
    ensures r.Some? ==> |r.value| == |s| - |p|
  {
    if |p| <= |s| && s[..|p|] == p then Some(s[|p|..]) else None
  }

  /** A text that differs from `p` at position `k`, or ends before it, does not start
      with `p`. */
  lemma DropPrefixMiss(s: string, p: string, k: nat)
    requires k < |p| && (k >= |s| || s[k] != p[k])
    ensures DropPrefix(s, p) == None
  {
  }

  /** Every occurrence of `pat`, scanning from the left, replaced by `value`: Ruby's
      interpolation of one variable into a string. */
  function Substitute(s: string, pat: string, value: string): string
    requires |pat| > 0
    decreases |s|
  {
    if |s| == 0 then ""
    else
      match DropPrefix(s, pat)
      case Some(rest) => value + Substitute(rest, pat, value)
      case None => [s[0]] + Substitute(s[1..], pat, value)
  }

  /** Text without the first character of `pat` is left as it is. */
  lemma {:induction false} SubstituteAbsent(s: string, pat: string, value: string)
    requires |pat| > 0 && pat[0] !in s
    ensures Substitute(s, pat, value) == s
    decreases |s|
  {
    if |s| > 0 {
      DropPrefixMiss(s, pat, 0);
      SubstituteAbsent(s[1..], pat, value);
      assert s == [s[0]] + s[1..];
    }
  }

  /** A placeholder at the front is replaced and the rest is kept. */
  lemma SubstituteHead(pat: string, rest: string, value: string)
    requires |pat| > 0 && pat[0] !in rest
    ensures Substitute(pat + rest, pat, value) == value + rest
  {
    DropPrefixConcat(pat, rest);
    SubstituteAbsent(rest, pat, value);
  }

  lemma DropPrefixConcat(p: string, rest: string)
    ensures DropPrefix(p + rest, p) == Some(rest)
  {
    assert (p + rest)[..|p|] == p;
    assert (p + rest)[|p|..] == rest;
  }

  /** Ruby `s.end_with?(p)`. */
  predicate EndsWith(s: string, p: string) {
    |p| <= |s| && s[|s| - |p|..] == p
  }

  lemma EndsWithConcat(a: string, b: string)
    ensures EndsWith(a + b, b)
    ensures (a + b)[..|a|] == a
  {
    assert (a + b)[|a|..] == b;
  }

  /** `"#{v}"`: nil interpolates as the empty string. */
  function Interpolated(v: Option<string>): string {
    v.GetOr("")
  }

  /** `t` occurs in `s` starting at position `i`. */
  predicate OccursAt(s: string, t: string, i: int) {
    0 <= i && i + |t| <= |s| && s[i..i + |t|] == t
  }

  /** Ruby `s.include?(t)`. */
  predicate Contains(s: string, t: string) {
    exists i | 0 <= i <= |s| - |t| :: OccursAt(s, t, i)
  }

  lemma ContainsEmpty(s: string)
    ensures Contains(s, "")
  {
    assert OccursAt(s, "", 0);
  }

  lemma ContainsInMiddle(a: string, t: string, b: string)
    ensures Contains(a + t + b, t)
  {
    assert (a + t + b)[|a|..|a| + |t|] == t;
    assert OccursAt(a + t + b, t, |a|);
  }

  lemma ContainsExtend(s: string, t: string, b: string)
    requires Contains(s, t)
    ensures Contains(s + b, t)
  {
    var i :| 0 <= i <= |s| - |t| && OccursAt(s, t, i);
    assert (s + b)[i..i + |t|] == s[i..i + |t|];
    assert OccursAt(s + b, t, i);
  }

  lemma OccursInside(s: string, t: string, i: int, j: int, n: int)
    requires 0 <= j <= i && i + |t| <= n <= |s|
    requires OccursAt(s, t, i)
    ensures OccursAt(s[j..n], t, i - j)
  {
    forall k | i <= k < i + |t| ensures s[j..n][k - j] == s[k] {
    }
    assert s[j..n][i - j..i - j + |t|] == s[i..i + |t|];
  }

  // ---------------------------------------------------------------------------
  // Characters
  // ---------------------------------------------------------------------------

  /** Position of the first `c` in `s`, or `|s|` when there is none. */
  function IndexOf(s: string, c: char): (k: nat)
    ensures k <= |s|
    ensures forall j | 0 <= j < k :: s[j] != c
    ensures k < |s| ==> s[k] == c
  {
    if |s| == 0 then 0
    else if s[0] == c then 0
    else 1 + IndexOf(s[1..], c)
  }

  lemma IndexOfConcat(a: string, c: char, b: string)
    requires c !in a
    ensures IndexOf(a + [c] + b, c) == |a|
  {
    var k := IndexOf(a + [c] + b, c);
    assert (a + [c] + b)[|a|] == c;
  }

  lemma IndexOfPrefix(a: string, c: char, b: string)
    requires IndexOf(a, c) < |a|
    ensures IndexOf(a + b, c) == IndexOf(a, c)
  {
    var k := IndexOf(a, c);
    assert (a + b)[k] == a[k];
    var k' := IndexOf(a + b, c);
    if k' < k {
      assert (a + b)[k'] == a[k'];
    }
  }

  /** Ruby's `strip` whitespace: NUL, horizontal tab, line feed, vertical tab, form feed,
      carriage return and space. */
  predicate IsSpace(c: char) {
    c == '\0' || c == '\t' || c == '\n' || c == '\U{B}' || c == '\U{C}' || c == '\r' || c == ' '
  }

  function StripLeft(s: string): (r: string)
    ensures |r| <= |s| && r == s[|s| - |r|..]
    ensures |r| > 0 ==> !IsSpace(r[0])
    ensures forall k | 0 <= k < |s| - |r| :: IsSpace(s[k])
  {
    if |s| > 0 && IsSpace(s[0]) then StripLeft(s[1..]) else s
  }

  function StripRight(s: string): (r: string)
    ensures |r| <= |s| && r == s[..|r|]
    ensures |r| > 0 ==> !IsSpace(r[|r| - 1])
    ensures forall k | |r| <= k < |s| :: IsSpace(s[k])
  {
    if |s| > 0 && IsSpace(s[|s| - 1]) then StripRight(s[..|s| - 1]) else s
  }

  /** Ruby `s.strip`. */
  function Strip(s: string): string {
    StripRight(StripLeft(s))
  }

  /** A string whose first character is not whitespace strips to something beginning
      with that character. */
  lemma StripKeepsFirst(s: string)
    requires |s| > 0 && !IsSpace(s[0])
    ensures |Strip(s)| > 0 && Strip(s)[0] == s[0]
  {
  }

  /** `strip` of a text that ends in one newline after a non-space character, and starts
      with a non-space character, drops exactly that newline. */
  lemma StripFinalNewline(s: string)
    requires |s| >= 2 && !IsSpace(s[0]) && s[|s| - 1] == '\n' && !IsSpace(s[|s| - 2])
    ensures Strip(s) == s[..|s| - 1]
  {
    assert StripLeft(s) == s;
    var t := s[..|s| - 1];
    assert StripRight(s) == StripRight(t);
    assert StripRight(t) == t;
  }

  /** A string made only of whitespace strips to the empty string. */
  lemma StripAllSpace(s: string)
    requires forall k | 0 <= k < |s| :: IsSpace(s[k])
    ensures Strip(s) == ""
  {
  }

  // ---------------------------------------------------------------------------
  // Lines
  // ---------------------------------------------------------------------------

  /** No line feed anywhere in `s` (stated position by position). */
  predicate NewlineFree(s: string) {
    forall i | 0 <= i < |s| :: s[i] != '\n'
  }

  lemma NewlineFreeMeans(s: string)
    ensures NewlineFree(s) <==> '\n' !in s
  {
    if '\n' in s {
      var i :| 0 <= i < |s| && s[i] == '\n';
    }
  }

  lemma NewlineFreeJoin(a: string, b: string)
    requires NewlineFree(a) && NewlineFree(b)
    ensures NewlineFree(a + b)
  {
    assert forall i | 0 <= i < |a + b| :: (a + b)[i] == if i < |a| then a[i] else b[i - |a|];
  }

  lemma PrefixKeepsOut(s: string, c: char, n: nat)
    requires c !in s && n <= |s|
    ensures c !in s[..n]
  {
    assert forall i | 0 <= i < n :: s[..n][i] == s[i];
  }

  /** The text of a heredoc or `puts`-written file: every line followed by a newline. */
  function Unlines(ls: seq<string>): string
  {
    if |ls| == 0 then "" else ls[0] + "\n" + Unlines(ls[1..])
  }

  /** Unfolds `Unlines` at position `i`. */
  lemma EndsWithExtend(a: string, s: string, p: string)
    requires EndsWith(s, p)
    ensures EndsWith(a + s, p)
  {
    assert (a + s)[|a + s| - |p|..] == s[|s| - |p|..];
  }

  /** Joined lines end with a line feed, unless there are none. */
  lemma {:induction false} UnlinesEndsWithNewline(ls: seq<string>)
    requires |ls| > 0
    ensures EndsWith(Unlines(ls), "\n")
    decreases |ls|
  {
    if |ls| == 1 {
      assert Unlines(ls[1..]) == "";
      EndsWithConcat(ls[0], "\n");
      assert ls[0] + "\n" + "" == ls[0] + "\n";
    } else {
      UnlinesEndsWithNewline(ls[1..]);
      EndsWithExtend(ls[0] + "\n", Unlines(ls[1..]), "\n");
    }
  }

  lemma UnlinesStep(ls: seq<string>, i: nat)
    requires i < |ls|
    ensures Unlines(ls[i..]) == ls[i] + "\n" + Unlines(ls[i + 1..])
  {
    assert ls[i..][1..] == ls[i + 1..];
  }

  /** A text that starts and ends with non-space characters, followed by one newline,
      strips back to the text. */
  lemma StripNewlineTerminated(a: string, b: string)
    requires |a| > 0 && !IsSpace(a[0]) && |b| > 0 && !IsSpace(b[|b| - 1])
    ensures Strip(a + b + "\n") + "\n" == a + b + "\n"
  {
    var t := a + b + "\n";
    assert t[0] == a[0];
    assert t[|t| - 2] == b[|b| - 1];
    StripFinalNewline(t);
    assert t[..|t| - 1] == a + b;
  }

  lemma UnlinesFour(a: string, b: string, c: string, d: string)
    ensures Unlines([a, b, c, d]) == a + "\n" + b + "\n" + c + "\n" + d + "\n"
  {
    var ls := [a, b, c, d];
    UnlinesStep(ls, 0);
    UnlinesStep(ls, 1);
    UnlinesStep(ls, 2);
    UnlinesStep(ls, 3);
    assert ls[0..] == ls && ls[4..] == [];
  }

  /** Four lines whose text starts and ends with non-space characters: `strip` drops only
      the final newline. */
  lemma StripUnlinesFour(a: string, b: string, c: string, d: string)
    requires |a| > 0 && !IsSpace(a[0]) && |d| > 0 && !IsSpace(d[|d| - 1])
    ensures Strip(Unlines([a, b, c, d])) + "\n" == Unlines([a, b, c, d])
  {
    UnlinesFour(a, b, c, d);
    var rest := "\n" + b + "\n" + c + "\n" + d;
    assert rest[|rest| - 1] == d[|d| - 1];
    assert Unlines([a, b, c, d]) == a + rest + "\n";
    StripNewlineTerminated(a, rest);
  }

  /** Ruby `s.strip` leaves a text that starts and ends with non-space characters as it
      is. */
  lemma StripUnchanged(s: string)
    requires |s| > 0 && !IsSpace(s[0]) && !IsSpace(s[|s| - 1])
    ensures Strip(s) == s
  {
    assert StripLeft(s) == s;
  }

  function Concat(ls: seq<string>): string
  {
    if |ls| == 0 then "" else ls[0] + Concat(ls[1..])
  }

  /** A line as `readlines` hands it out: non-empty, and a newline only at the very end. */
  lemma ConcatCons(a: string, ls: seq<string>)
    ensures Concat([a] + ls) == a + Concat(ls)
  {
    assert ([a] + ls)[1..] == ls;
  }

  predicate IsReadLine(l: string) {
    |l| > 0 && '\n' !in l[..|l| - 1]
  }

  /** Length of the first line of non-empty text: through its first newline, or all of
      it when there is none. */
  function LineEnd(t: string): (n: nat)
    requires |t| > 0
    ensures 0 < n <= |t|
    ensures '\n' !in t[..n - 1]
    ensures n < |t| ==> t[n - 1] == '\n'
  {
    var k := IndexOf(t, '\n');
    assert forall j | 0 <= j < k :: t[..k][j] == t[j];
    if k < |t| then k + 1 else k
  }

  /** Ruby `text.lines` / `File.readlines`: splits after every newline and keeps it. */
  function ReadLines(t: string): (r: seq<string>)
    ensures forall i | 0 <= i < |r| :: IsReadLine(r[i])
    ensures forall i | 0 <= i < |r| - 1 :: EndsWith(r[i], "\n")
    decreases |t|
  {
    if |t| == 0 then []
    else
      var n := LineEnd(t);
      assert t[..n][..n - 1] == t[..n - 1];
      [t[..n]] + ReadLines(t[n..])
  }

  /** Reading the lines back and joining them gives the text again. */
  lemma {:induction false} ReadLinesConcat(t: string)
    ensures Concat(ReadLines(t)) == t
    decreases |t|
  {
    if |t| > 0 {
      var n := LineEnd(t);
      var rest := ReadLines(t[n..]);
      ReadLinesConcat(t[n..]);
      assert ReadLines(t) == [t[..n]] + rest;
      ConcatCons(t[..n], rest);
      assert t[..n] + t[n..] == t;
    }
  }

  /** Every line with its newline, as `readlines` hands back text written line by line. */
  function Terminated(ls: seq<string>): seq<string> {
    seq(|ls|, i requires 0 <= i < |ls| => ls[i] + "\n")
  }

  lemma TerminatedAppend(a: seq<string>, b: seq<string>)
    ensures Terminated(a + b) == Terminated(a) + Terminated(b)
  {
  }

  /** `readlines` of text that was written line by line gives back those lines, each
      with its newline. */
  lemma {:induction false} ReadLinesUnlines(ls: seq<string>)
    requires forall i | 0 <= i < |ls| :: NewlineFree(ls[i])
    ensures ReadLines(Unlines(ls)) == Terminated(ls)
  {
    if |ls| > 0 {
      var t := Unlines(ls);
      assert t == ls[0] + "\n" + Unlines(ls[1..]);
      IndexOfConcat(ls[0], '\n', Unlines(ls[1..]));
      assert t[..|ls[0]| + 1] == ls[0] + "\n";
      assert t[|ls[0]| + 1..] == Unlines(ls[1..]);
      ReadLinesUnlines(ls[1..]);
    }
  }

  lemma LineEndAppend(a: string, b: string)
    requires |a| > 0 && a[|a| - 1] == '\n'
    ensures LineEnd(a + b) == LineEnd(a)
  {
    var k := IndexOf(a, '\n');
    IndexOfPrefix(a, '\n', b);
  }

  /** Text ending in a newline splits into lines independently of what follows it. */
  lemma {:induction false} ReadLinesAppend(a: string, b: string)
    requires |a| == 0 || a[|a| - 1] == '\n'
    ensures ReadLines(a + b) == ReadLines(a) + ReadLines(b)
    decreases |a|
  {
    if |a| > 0 {
      var n := LineEnd(a);
      LineEndAppend(a, b);
      assert (a + b)[..n] == a[..n];
      assert (a + b)[n..] == a[n..] + b;
      ReadLinesAppend(a[n..], b);
    } else {
      assert a + b == b;
    }
  }

  /** The pieces of Ruby `s.split("\n")` before trailing empty pieces are dropped. */
  function SplitPieces(s: string): (r: seq<string>)
    ensures |r| >= 1
    ensures forall i | 0 <= i < |r| :: NewlineFree(r[i])
    decreases |s|
  {
    var k := IndexOf(s, '\n');
    if k == |s| then [s] else [s[..k]] + SplitPieces(s[k + 1..])
  }

  function DropTrailingEmpty(ps: seq<string>): (r: seq<string>)
    ensures |r| <= |ps| && r == ps[..|r|]
    ensures |r| > 0 ==> r[|r| - 1] != ""
    ensures forall i | |r| <= i < |ps| :: ps[i] == ""
  {
    if |ps| > 0 && ps[|ps| - 1] == "" then DropTrailingEmpty(ps[..|ps| - 1]) else ps
  }

  /** Ruby `s.split("\n")`: trailing empty strings are removed. */
  function SplitLines(s: string): seq<string> {
    DropTrailingEmpty(SplitPieces(s))
  }

  /** Some line contains `t`. */
  predicate SomeContains(lines: seq<string>, t: string) {
    exists i | 0 <= i < |lines| :: Contains(lines[i], t)
  }

  lemma ContainsPrepend(a: string, s: string, t: string)
    requires Contains(s, t)
    ensures Contains(a + s, t)
  {
    var i :| 0 <= i <= |s| - |t| && OccursAt(s, t, i);
    assert (a + s)[|a| + i..|a| + i + |t|] == s[i..i + |t|];
    assert OccursAt(a + s, t, |a| + i);
  }

  /** An occurrence covering position `p` carries the character found there. */
  lemma OccursOver(s: string, t: string, i: int, p: int)
    requires OccursAt(s, t, i) && i <= p < i + |t|
    ensures t[p - i] == s[p]
  {
    assert s[i..i + |t|][p - i] == s[p];
  }

  /** A text without line feeds occurs in two lines joined by one exactly when it occurs
      in one of them. */
  lemma ContainsAcross(a: string, b: string, t: string)
    requires NewlineFree(t)
    ensures Contains(a + "\n" + b, t) <==> Contains(a, t) || Contains(b, t)
  {
    var s := a + "\n" + b;
    if Contains(s, t) {
      var i :| 0 <= i <= |s| - |t| && OccursAt(s, t, i);
      if i + |t| <= |a| {
        OccursInside(s, t, i, 0, |a|);
        assert s[0..|a|] == a;
      } else if i >= |a| + 1 {
        OccursInside(s, t, i, |a| + 1, |s|);
        assert s[|a| + 1..|s|] == b;
      } else {
        OccursOver(s, t, i, |a|);
        assert false;
      }
    }
    if Contains(a, t) {
      ContainsExtend(a, t, "\n" + b);
      assert a + ("\n" + b) == s;
    }
    if Contains(b, t) {
      ContainsPrepend(a + "\n", b, t);
    }
  }

  lemma {:induction false} ContainsPieces(s: string, t: string)
    requires NewlineFree(t)
    ensures Contains(s, t) <==> SomeContains(SplitPieces(s), t)
    decreases |s|
  {
    var ps := SplitPieces(s);
    var k := IndexOf(s, '\n');
    if k == |s| {
      assert ps == [s];
      if Contains(s, t) {
        assert Contains(ps[0], t);
      }
    } else {
      var rest := s[k + 1..];
      assert s == s[..k] + "\n" + rest;
      ContainsAcross(s[..k], rest, t);
      ContainsPieces(rest, t);
      assert ps == [s[..k]] + SplitPieces(rest);
      if Contains(rest, t) {
        var j :| 0 <= j < |SplitPieces(rest)| && Contains(SplitPieces(rest)[j], t);
        assert ps[j + 1] == SplitPieces(rest)[j];
      }
      if Contains(s[..k], t) {
        assert Contains(ps[0], t);
      }
      if SomeContains(ps, t) {
        var j :| 0 <= j < |ps| && Contains(ps[j], t);
        if j > 0 {
          assert SplitPieces(rest)[j - 1] == ps[j];
        }
      }
    }
  }

  /** Ruby `s.split("\n").any? { |l| l.include?(t) }` agrees with `s.include?(t)` for a
      nonempty `t` without line feeds. */
  lemma ContainsLines(s: string, t: string)
    requires NewlineFree(t) && |t| > 0
    ensures Contains(s, t) <==> SomeContains(SplitLines(s), t)
  {
    var ps := SplitPieces(s);
    var ls := SplitLines(s);
    ContainsPieces(s, t);
    if SomeContains(ps, t) {
      var j :| 0 <= j < |ps| && Contains(ps[j], t);
      if j >= |ls| {
        assert false;
      }
      assert ls[j] == ps[j];
    }
    if SomeContains(ls, t) {
      var j :| 0 <= j < |ls| && Contains(ls[j], t);
      assert ps[j] == ls[j];
    }
  }

  /** `f` applied to every element, in order. */
  function MapSeq<A, B>(f: A -> B, s: seq<A>): (r: seq<B>)
    ensures |r| == |s|
    ensures forall i | 0 <= i < |s| :: r[i] == f(s[i])
    decreases |s|
  {
    if |s| == 0 then [] else [f(s[0])] + MapSeq(f, s[1..])
  }

  /** Every element read with `f`; `None` when one of them does not read. */
  function ReadAll<A, B>(f: A -> Option<B>, s: seq<A>): Option<seq<B>>
    decreases |s|
  {
    if |s| == 0 then Some([])
    else
      var b :- f(s[0]);
      var bs :- ReadAll(f, s[1..]);
      Some([b] + bs)
  }

  lemma {:induction false} ReadAllEach<A, B>(f: A -> Option<B>, s: seq<A>, r: seq<B>)
    requires |s| == |r|
    requires forall i | 0 <= i < |s| :: f(s[i]) == Some(r[i])
    ensures ReadAll(f, s) == Some(r)
    decreases |s|
  {
    if |s| > 0 {
      ReadAllEach(f, s[1..], r[1..]);
      assert r == [r[0]] + r[1..];
    }
  }

  lemma MapSeqAppend<A, B>(f: A -> B, a: seq<A>, b: seq<A>)
    ensures MapSeq(f, a + b) == MapSeq(f, a) + MapSeq(f, b)
  {
    assert forall i | 0 <= i < |a| :: (a + b)[i] == a[i];
    assert forall i | |a| <= i < |a| + |b| :: (a + b)[i] == b[i - |a|];
  }

  // ---------------------------------------------------------------------------
  // Reading a value back out of rendered text
  // ---------------------------------------------------------------------------

  predicate HasField(l: string, prefix: string, suffix: string) {
    |prefix| + |suffix| <= |l| && StartsWith(l, prefix) && EndsWith(l, suffix)
  }

  function Between(l: string, prefix: string, suffix: string): string
    requires |prefix| + |suffix| <= |l|
  {
    l[|prefix|..|l| - |suffix|]
  }

  /** The text between `prefix` and `suffix` on the first line carrying both, the way an
      operator reading a rendered file would find a setting. */
  function Field(lines: seq<string>, prefix: string, suffix: string): Option<string>
  {
    if |lines| == 0 then None
    else if HasField(lines[0], prefix, suffix) then Some(Between(lines[0], prefix, suffix))
    else Field(lines[1..], prefix, suffix)
  }

  /** `Field` finds line `i` when no earlier line carries the prefix and suffix. */
  lemma {:induction false} FieldAt(lines: seq<string>, prefix: string, suffix: string, i: nat)
    requires i < |lines| && HasField(lines[i], prefix, suffix)
    requires forall j | 0 <= j < i :: !HasField(lines[j], prefix, suffix)
    ensures Field(lines, prefix, suffix) == Some(Between(lines[i], prefix, suffix))
  {
    if i > 0 {
      FieldAt(lines[1..], prefix, suffix, i - 1);
    }
  }

  /** Lines that do not carry the field can be skipped over. */
  lemma {:induction false} FieldSkip(a: seq<string>, b: seq<string>, prefix: string, suffix: string)
    requires forall j | 0 <= j < |a| :: !HasField(a[j], prefix, suffix)
    ensures Field(a + b, prefix, suffix) == Field(b, prefix, suffix)
    decreases |a|
  {
    if |a| == 0 {
      assert a + b == b;
    } else {
      assert (a + b)[0] == a[0];
      assert (a + b)[1..] == a[1..] + b;
      FieldSkip(a[1..], b, prefix, suffix);
    }
  }

  /** Once a field is found, what follows does not matter. */
  lemma {:induction false} FieldFirst(a: seq<string>, b: seq<string>, prefix: string, suffix: string)
    requires Field(a, prefix, suffix).Some?
    ensures Field(a + b, prefix, suffix) == Field(a, prefix, suffix)
    decreases |a|
  {
    assert (a + b)[0] == a[0];
    if !HasField(a[0], prefix, suffix) {
      assert (a + b)[1..] == a[1..] + b;
      FieldFirst(a[1..], b, prefix, suffix);
    }
  }

  /** A line that differs from `prefix` at position `k`, or ends before it, does not
      carry the field. */
  lemma Unmarked(l: string, prefix: string, suffix: string, k: nat)
    requires k < |prefix| && (k >= |l| || l[k] != prefix[k])
    ensures !HasField(l, prefix, suffix)
  {
    if k < |l| {
      DiffersAt(l, prefix, k);
    }
  }

  /** A line built as prefix, value, suffix carries that value. */
  lemma Framed(prefix: string, v: string, suffix: string)
    ensures HasField(prefix + v + suffix, prefix, suffix)
    ensures Between(prefix + v + suffix, prefix, suffix) == v
  {
    var l := prefix + v + suffix;
    StartsWithIff(l, prefix);
    assert l[..|prefix|] == prefix;
    assert l[|l| - |suffix|..] == suffix;
    assert l[|prefix|..|l| - |suffix|] == v;
  }
}
