/**
  The line parser of the shell: `line.strip().split()`, then the first word
  is the command and the rest are its arguments.
 */
module Parser {
  import opened Wrappers
  import opened Text

  /** Length of the leading run of non-whitespace characters of `s`. */
  function WordLen(s: string): (n: nat)
    ensures n <= |s|
    ensures NoSpace(s[..n])
    ensures n < |s| ==> IsSpace(s[n])
    ensures |s| > 0 && !IsSpace(s[0]) ==> n > 0
  {
    if |s| == 0 || IsSpace(s[0]) then 0
    else
      var m := WordLen(s[1..]);
      assert s[..m + 1] == [s[0]] + s[1..][..m];
      1 + m
  }

  /** Python's `s.split()` with no separator: the maximal runs of
      non-whitespace characters of `s`, left to right. */
  function Tokens(s: string): (ts: seq<string>)
    ensures AllTokens(ts)
    ensures |ts| == 0 <==> AllSpace(s)
    decreases |s|
  {
    if |s| == 0 then []
    else if IsSpace(s[0]) then
      var ts := Tokens(s[1..]);
      assert AllSpace(s) <==> AllSpace(s[1..]) by {
        if AllSpace(s[1..]) {
          forall i | 0 <= i < |s| ensures IsSpace(s[i]) {
            if i > 0 { assert s[i] == s[1..][i - 1]; }
          }
        }
      }
      ts
    else
      var n := WordLen(s);
      [s[..n]] + Tokens(s[n..])
  }

  /** Length of the leading run of whitespace of `s`. */
  function LeadSpace(s: string): (n: nat)
    ensures n <= |s|
    ensures AllSpace(s[..n])
    ensures n < |s| ==> !IsSpace(s[n])
  {
    if |s| == 0 || !IsSpace(s[0]) then 0
    else
      var m := LeadSpace(s[1..]);
      assert s[..m + 1] == [s[0]] + s[1..][..m];
      1 + m
  }

  /** Length of the trailing run of whitespace of `s`. */
  function TrailSpace(s: string): (n: nat)
    ensures n <= |s|
    ensures AllSpace(s[|s| - n..])
    ensures n < |s| ==> !IsSpace(s[|s| - n - 1])
  {
    if |s| == 0 || !IsSpace(s[|s| - 1]) then 0
    else
      var init := s[..|s| - 1];
      var m := TrailSpace(init);
      assert s[|s| - (m + 1)..] == init[|init| - m..] + [s[|s| - 1]];
      1 + m
  }

  /** Python's `s.lstrip()`: drops leading whitespace. */
  function StripLeft(s: string): (r: string)
    ensures |r| <= |s| && r == s[|s| - |r|..]
    ensures AllSpace(s[..|s| - |r|])
    ensures |r| > 0 ==> !IsSpace(r[0])
  {
    s[LeadSpace(s)..]
  }

  /** Python's `s.rstrip()`: drops trailing whitespace. */
  function StripRight(s: string): (r: string)
    ensures |r| <= |s| && r == s[..|r|]
    ensures AllSpace(s[|r|..])
    ensures |r| > 0 ==> !IsSpace(r[|r| - 1])
  {
    s[..|s| - TrailSpace(s)]
  }

  /** Python's `s.strip()`. */
  function Strip(s: string): (r: string)
    ensures |r| == 0 || (!IsSpace(r[0]) && !IsSpace(r[|r| - 1]))
    ensures Tokens(r) == Tokens(s)
    ensures exists a :: 0 <= a <= |s| - |r| && r == s[a..a + |r|]
                        && AllSpace(s[..a]) && AllSpace(s[a + |r|..])
  {
    var l := StripLeft(s);
    var r := StripRight(l);
    TokensOfTrimmed(s, l, r);
    TrimmedInside(s, l, r);
    r
  }

  /** What is left after trimming both ends is a slice of the line with
      whitespace on either side, and no whitespace at its own ends. */
  lemma TrimmedInside(s: string, l: string, r: string)
    requires |l| <= |s| && l == s[|s| - |l|..] && AllSpace(s[..|s| - |l|])
    requires |l| > 0 ==> !IsSpace(l[0])
    requires |r| <= |l| && r == l[..|r|] && AllSpace(l[|r|..])
    requires |r| > 0 ==> !IsSpace(r[|r| - 1])
    ensures |r| == 0 || (!IsSpace(r[0]) && !IsSpace(r[|r| - 1]))
    ensures exists a :: 0 <= a <= |s| - |r| && r == s[a..a + |r|]
                        && AllSpace(s[..a]) && AllSpace(s[a + |r|..])
  {
    var a := |s| - |l|;
    assert s[a + |r|..] == l[|r|..];
    assert r == s[a..a + |r|];
  }

  lemma SplitAt(s: string, n: nat)
    requires n <= |s|
    ensures s[..n] + s[n..] == s
  {
  }

  lemma EmptyConcat(w: string)
    ensures "" + w == w
  {
  }

  /** Cutting whitespace off both ends keeps the words. */
  lemma TokensOfTrimmed(s: string, l: string, r: string)
    requires |l| <= |s| && l == s[|s| - |l|..] && AllSpace(s[..|s| - |l|])
    requires |r| <= |l| && r == l[..|r|] && AllSpace(l[|r|..])
    ensures Tokens(r) == Tokens(s)
  {
    assert s == s[..|s| - |l|] + l;
    TokensSpacePrefix(s[..|s| - |l|], l);
    assert l == r + l[|r|..];
    TokensSpaceSuffix(r, l[|r|..]);
  }

  /** `line.strip().split()` split into command and arguments; `None` when
      the line holds no word at all. */
  function ParseCmd(line: string): (r: Option<(string, seq<string>)>)
    ensures r.None? <==> AllSpace(line)
    ensures r.Some? ==> IsToken(r.value.0) && AllTokens(r.value.1)
    ensures r.Some? ==> [r.value.0] + r.value.1 == Tokens(line)
  {
    var ts := Tokens(Strip(line));
    if |ts| == 0 then None
    else
      assert ts == [ts[0]] + ts[1..];
      Some((ts[0], ts[1..]))
  }

  // ---------------------------------------------------------------------
  // Lemmas about Tokens

  /** Leading whitespace does not change the words. */
  lemma {:induction false} TokensSpacePrefix(w: string, s: string)
    requires AllSpace(w)
    ensures Tokens(w + s) == Tokens(s)
    decreases |w|
  {
    if |w| > 0 {
      assert (w + s)[1..] == w[1..] + s;
      TokensSpacePrefix(w[1..], s);
    } else {
      assert w + s == s;
    }
  }

  /** The first word of `s + w` is the first word of `s` whenever `w` cannot
      extend it, that is, when `w` is empty or begins with whitespace. */
  lemma {:induction false} WordLenAppend(s: string, w: string)
    requires |w| == 0 || IsSpace(w[0])
    ensures WordLen(s + w) == WordLen(s)
    decreases |s|
  {
    if |s| == 0 {
      assert s + w == w;
    } else if !IsSpace(s[0]) {
      assert (s + w)[1..] == s[1..] + w;
      WordLenAppend(s[1..], w);
    }
  }

  /** Trailing whitespace does not change the words. */
  lemma {:induction false} TokensSpaceSuffix(s: string, w: string)
    requires AllSpace(w)
    ensures Tokens(s + w) == Tokens(s)
    decreases |s|
  {
    if |s| == 0 {
      assert s + w == w;
    } else if IsSpace(s[0]) {
      assert (s + w)[1..] == s[1..] + w;
      TokensSpaceSuffix(s[1..], w);
    } else {
      var n := WordLen(s);
      WordLenAppend(s, w);
      assert (s + w)[..n] == s[..n];
      assert (s + w)[n..] == s[n..] + w;
      TokensSpaceSuffix(s[n..], w);
    }
  }

  /** A word followed by nothing or by whitespace is split off whole. */
  lemma TokensOfWord(t: string, rest: string)
    requires IsToken(t)
    requires |rest| == 0 || IsSpace(rest[0])
    ensures Tokens(t + rest) == [t] + Tokens(rest)
  {
    WordLenAppend(t, rest);
    assert WordLen(t) == |t|;
    assert (t + rest)[..|t|] == t;
    assert (t + rest)[|t|..] == rest;
  }

  /** Joining words with single spaces and splitting again gives them back. */
  lemma {:induction false} TokensOfJoin(ts: seq<string>)
    requires AllTokens(ts)
    ensures Tokens(Join(ts, " ")) == ts
    decreases |ts|
  {
    if |ts| == 0 {
    } else if |ts| == 1 {
      TokensOfWord(ts[0], "");
      assert ts[0] + "" == ts[0];
    } else {
      var j := Join(ts[1..], " ");
      TokensOfJoin(ts[1..]);
      TokensSpacePrefix(" ", j);
      TokensOfWord(ts[0], " " + j);
      assert ts[0] + " " + j == ts[0] + (" " + j);
      assert ts == [ts[0]] + ts[1..];
    }
  }

  // ---------------------------------------------------------------------
  // An independent description of a split: the line is the words laid out
  // between whitespace gaps, the gaps inside the line being non-empty.

  /** `gaps[0] + ts[0] + gaps[1] + ... + ts[n-1] + gaps[n]`. */
  function Weave(gaps: seq<string>, ts: seq<string>): string
    requires |gaps| == |ts| + 1
    decreases |ts|
  {
    if |ts| == 0 then gaps[0]
    else gaps[0] + ts[0] + Weave(gaps[1..], ts[1..])
  }

  /** `gaps` are whitespace-only separators for the words `ts`: one before,
      one after, one between each pair, and the inner ones non-empty. */
  predicate Layout(gaps: seq<string>, ts: seq<string>) {
    && |gaps| == |ts| + 1
    && AllTokens(ts)
    && (forall i :: 0 <= i < |gaps| ==> AllSpace(gaps[i]))
    && (forall i :: 0 < i < |ts| ==> |gaps[i]| > 0)
  }

  /** Splitting a laid-out line recovers exactly its words. */
  lemma {:induction false} TokensOfWeave(gaps: seq<string>, ts: seq<string>)
    requires Layout(gaps, ts)
    ensures Tokens(Weave(gaps, ts)) == ts
    decreases |ts|
  {
    if |ts| > 0 {
      var rest := Weave(gaps[1..], ts[1..]);
      LayoutTail(gaps, ts);
      TokensOfWeave(gaps[1..], ts[1..]);
      if |ts| > 1 {
        assert rest == gaps[1] + ts[1] + Weave(gaps[2..], ts[2..]);
        assert rest[0] == gaps[1][0];
      }
      TokensOfWord(ts[0], rest);
      TokensSpacePrefix(gaps[0], ts[0] + rest);
      ConcatAssoc(gaps[0], ts[0], rest);
      assert ts == [ts[0]] + ts[1..];
    }
  }

  /** Dropping the first gap and word of a layout leaves a layout. */
  lemma LayoutTail(gaps: seq<string>, ts: seq<string>)
    requires Layout(gaps, ts) && |ts| > 0
    ensures Layout(gaps[1..], ts[1..])
  {
    assert forall i :: 0 <= i < |ts| - 1 ==> ts[1..][i] == ts[i + 1];
    assert forall i :: 0 <= i < |gaps| - 1 ==> gaps[1..][i] == gaps[i + 1];
  }

  /** The gaps of `s`: together with `Tokens(s)` they lay out `s` exactly. */
  function Gaps(s: string): (gaps: seq<string>)
    ensures Layout(gaps, Tokens(s))
    ensures Weave(gaps, Tokens(s)) == s
    ensures |s| > 0 && IsSpace(s[0]) ==> |gaps[0]| > 0
    decreases |s|
  {
    if |s| == 0 then [""]
    else if IsSpace(s[0]) then
      var g := Gaps(s[1..]);
      GapsOfSpace(s, g);
      [[s[0]] + g[0]] + g[1..]
    else
      var n := WordLen(s);
      var g := Gaps(s[n..]);
      GapsOfWord(s, g);
      WeaveOfWord(s, g);
      [""] + g
  }

  /** Putting `c` in front of a laid-out line widens its first gap. */
  lemma WeavePrepend(c: string, g: seq<string>, ts: seq<string>)
    requires |g| == |ts| + 1
    ensures Weave([c + g[0]] + g[1..], ts) == c + Weave(g, ts)
  {
    var gaps := [c + g[0]] + g[1..];
    assert gaps[0] == c + g[0] && gaps[1..] == g[1..];
    if |ts| > 0 {
      var w := Weave(g[1..], ts[1..]);
      assert Weave(gaps, ts) == (c + g[0]) + ts[0] + w;
      assert Weave(g, ts) == g[0] + ts[0] + w;
      ConcatAssoc(c, g[0], ts[0]);
      ConcatAssoc(c, g[0] + ts[0], w);
    }
  }

  /** A leading whitespace character joins the first gap. */
  lemma GapsOfSpace(s: string, g: seq<string>)
    requires |s| > 0 && IsSpace(s[0])
    requires Layout(g, Tokens(s[1..])) && Weave(g, Tokens(s[1..])) == s[1..]
    ensures Layout([[s[0]] + g[0]] + g[1..], Tokens(s))
    ensures Weave([[s[0]] + g[0]] + g[1..], Tokens(s)) == s
  {
    var ts := Tokens(s[1..]);
    assert Tokens(s) == ts;
    WidenLayout(s[0], g, ts);
    WeavePrepend([s[0]], g, ts);
    assert s == [s[0]] + s[1..];
  }

  /** Widening the first gap by a whitespace character keeps the layout. */
  lemma WidenLayout(c: char, g: seq<string>, ts: seq<string>)
    requires IsSpace(c) && Layout(g, ts)
    ensures Layout([[c] + g[0]] + g[1..], ts)
  {
    var gaps := [[c] + g[0]] + g[1..];
    assert AllSpace(gaps[0]) by {
      assert AllSpace(g[0]);
      forall k | 0 <= k < |gaps[0]| ensures IsSpace(gaps[0][k]) {
        if k > 0 { assert gaps[0][k] == g[0][k - 1]; }
      }
    }
    forall i | 0 < i < |gaps| ensures gaps[i] == g[i] {
    }
  }

  /** A line that starts with a word splits into that word and the words
      of what follows it. */
  lemma TokensOfLeadingWord(s: string)
    requires |s| > 0 && !IsSpace(s[0])
    ensures Tokens(s) == [s[..WordLen(s)]] + Tokens(s[WordLen(s)..])
  {
  }

  /** A word laid out after an empty gap starts the line. */
  lemma WeaveWord(w: string, g: seq<string>, ts: seq<string>)
    requires |g| == |ts| + 1
    ensures Weave([""] + g, [w] + ts) == w + Weave(g, ts)
  {
    assert ([""] + g)[0] == "" && ([""] + g)[1..] == g;
    assert ([w] + ts)[0] == w && ([w] + ts)[1..] == ts;
    EmptyConcat(w);
  }

  /** A leading word is preceded by an empty gap: the layout. */
  lemma GapsOfWord(s: string, g: seq<string>)
    requires |s| > 0 && !IsSpace(s[0])
    requires Layout(g, Tokens(s[WordLen(s)..]))
    requires WordLen(s) < |s| ==> |g[0]| > 0
    ensures Layout([""] + g, Tokens(s))
  {
    var n := WordLen(s);
    var rest := Tokens(s[n..]);
    TokensOfLeadingWord(s);
    assert |rest| > 0 ==> n < |s| by {
      if n == |s| { assert AllSpace(s[n..]); }
    }
    PrependWord(s[..n], g, rest);
  }

  /** A word in front of a layout whose first gap separates it. */
  lemma PrependWord(w: string, g: seq<string>, ts: seq<string>)
    requires IsToken(w) && Layout(g, ts)
    requires |ts| > 0 ==> |g[0]| > 0
    ensures Layout([""] + g, [w] + ts)
  {
    var gaps, words := [""] + g, [w] + ts;
    assert forall i :: 0 < i < |gaps| ==> gaps[i] == g[i - 1];
    assert forall i :: 0 < i < |words| ==> words[i] == ts[i - 1];
    assert gaps[0] == "" && words[0] == w;
  }

  /** A leading word is preceded by an empty gap: the text. */
  lemma WeaveOfWord(s: string, g: seq<string>)
    requires |s| > 0 && !IsSpace(s[0])
    requires |g| == |Tokens(s[WordLen(s)..])| + 1
    requires Weave(g, Tokens(s[WordLen(s)..])) == s[WordLen(s)..]
    ensures Weave([""] + g, Tokens(s)) == s
  {
    var n := WordLen(s);
    var rest := Tokens(s[n..]);
    var w := s[..n];
    TokensOfLeadingWord(s);
    WeaveWord(w, g, rest);
    SplitAt(s, n);
  }

  /** `Tokens` is exactly the split described by `Layout`/`Weave`: a line
      splits into `ts` if and only if it is `ts` laid out between gaps. */
  lemma TokensIffLayout(s: string, ts: seq<string>)
    ensures Tokens(s) == ts <==> exists gaps :: Layout(gaps, ts) && Weave(gaps, ts) == s
  {
    if Tokens(s) == ts {
      var g := Gaps(s);
      assert Layout(g, ts) && Weave(g, ts) == s;
    }
    if exists gaps :: Layout(gaps, ts) && Weave(gaps, ts) == s {
      var gaps :| Layout(gaps, ts) && Weave(gaps, ts) == s;
      TokensOfWeave(gaps, ts);
    }
  }

  /** `parse_cmd` yields `(cmd, args)` exactly when the line is the words
      `cmd, args...` laid out between whitespace gaps. */
  lemma ParseCmdIffLayout(line: string, cmd: string, args: seq<string>)
    ensures ParseCmd(line) == Some((cmd, args))
        <==> exists gaps :: Layout(gaps, [cmd] + args) && Weave(gaps, [cmd] + args) == line
  {
    TokensIffLayout(line, [cmd] + args);
    if Tokens(line) == [cmd] + args {
      assert ([cmd] + args)[1..] == args;
    }
  }

  /** Words joined by single spaces parse back to the same command and
      arguments. */
  lemma ParseCmdOfJoin(cmd: string, args: seq<string>)
    requires IsToken(cmd) && AllTokens(args)
    ensures ParseCmd(Join([cmd] + args, " ")) == Some((cmd, args))
  {
    TokensOfJoin([cmd] + args);
    assert ([cmd] + args)[1..] == args;
  }
}
