/**
  `tilde_path`: how the prompt shows the working directory. The home
  directory is written as `~` and Windows back-slashes become forward
  slashes. The home directory is a parameter: `None` stands for the case
  where looking it up fails.
 */
module Prompt {
  import opened Wrappers

  /** A path separator on either platform. */
  predicate IsSep(c: char) {
    c == '/' || c == '\\'
  }

  /** One character after the separator rewrite. */
  function Forward(c: char): char {
    if c == '\\' then '/' else c
  }

  /** `s.replace("\\", "/")`: every back-slash becomes a slash and nothing
      else changes. */
  function Slashes(s: string): (r: string)
    ensures |r| == |s|
    ensures forall i :: 0 <= i < |s| ==> r[i] == Forward(s[i])
    ensures '\\' !in r
  {
    if |s| == 0 then "" else [Forward(s[0])] + Slashes(s[1..])
  }

  /** Rewriting the separators a second time changes nothing. */
  lemma SlashesIdempotent(s: string)
    ensures Slashes(Slashes(s)) == Slashes(s)
  {
    var r := Slashes(s);
    assert forall i :: 0 <= i < |r| ==> Slashes(r)[i] == r[i];
  }

  /** The rewrite works character by character, so it splits over `+`. */
  lemma SlashesAppend(a: string, b: string)
    ensures Slashes(a + b) == Slashes(a) + Slashes(b)
  {
    var l, r := Slashes(a + b), Slashes(a) + Slashes(b);
    forall i | 0 <= i < |l| ensures l[i] == r[i] {
      if i < |a| {
        assert (a + b)[i] == a[i];
      } else {
        assert (a + b)[i] == b[i - |a|];
      }
    }
  }

  /** The source's test for abbreviating: a non-empty home (an empty string
      is false in Python) that `cwd` starts with, as plain text. */
  predicate Abbreviates(cwd: string, home: Option<string>) {
    home.Some? && |home.value| > 0 && home.value <= cwd
  }

  /** `tilde_path` as written. */
  function TildePath(cwd: string, home: Option<string>): (r: string)
    ensures '\\' !in r
    ensures Abbreviates(cwd, home) ==>
      |r| == |cwd| - |home.value| + 1 && r[0] == '~' && r[1..] == Slashes(cwd[|home.value|..])
    ensures !Abbreviates(cwd, home) ==> |r| == |cwd| && r == Slashes(cwd)
  {
    if Abbreviates(cwd, home) then
      var rest := cwd[|home.value|..];
      SlashesAppend("~", rest);
      Slashes("~" + rest)
    else
      Slashes(cwd)
  }

  /** Reading the prompt's `~` back as the home directory. */
  function ExpandTilde(shown: string, home: Option<string>): string {
    if |shown| > 0 && shown[0] == '~' && home.Some? then Slashes(home.value) + shown[1..]
    else shown
  }

  /** The abbreviation loses nothing: expanding `~` again gives the working
      directory with forward slashes, for any directory that does not itself
      start with `~` (`os.getcwd()` returns absolute paths). */
  lemma TildePathExpands(cwd: string, home: Option<string>)
    requires |cwd| == 0 || cwd[0] != '~'
    ensures ExpandTilde(TildePath(cwd, home), home) == Slashes(cwd)
  {
    var r := TildePath(cwd, home);
    if Abbreviates(cwd, home) {
      var h := home.value;
      assert cwd == h + cwd[|h|..];
      SlashesAppend(h, cwd[|h|..]);
    } else {
      assert |r| > 0 ==> r[0] == Forward(cwd[0]) != '~';
    }
  }

  /** The source abbreviates a directory that merely shares a prefix with
      home: `/home/alice` with home `/home/al` is shown as `~ice`, although
      `/home/alice` is not inside `/home/al`. */
  lemma SiblingShownAsHome()
    ensures TildePath("/home/alice", Some("/home/al")) == "~ice"
    ensures !Within("/home/alice", "/home/al")
  {
    var cwd, h := "/home/alice", "/home/al";
    assert h <= cwd by {
      assert cwd[..|h|] == h;
    }
    assert cwd[|h|..] == "ice";
    assert Slashes("ice") == "ice";
    assert cwd[|h|] == 'i';
  }

  /** `cwd` is the home directory or a path below it: the prefix ends at the
      end of `cwd` or at a separator. */
  predicate Within(cwd: string, home: string) {
    home <= cwd && (|cwd| == |home| || IsSep(cwd[|home|]))
  }

  /** The abbreviation only for paths within home. */
  predicate AbbreviatesWithin(cwd: string, home: Option<string>) {
    home.Some? && |home.value| > 0 && Within(cwd, home.value)
  }

  /** The path as the prompt evidently means to show it: `~` only for the
      home directory itself and the paths below it. */
  function TildePathWithin(cwd: string, home: Option<string>): (r: string)
    ensures '\\' !in r
    ensures |r| > 0 && r[0] == '~' && (|cwd| == 0 || cwd[0] != '~') ==>
      AbbreviatesWithin(cwd, home)
    ensures AbbreviatesWithin(cwd, home) ==>
      |r| > 0 && r[0] == '~' && (|r| == 1 || r[1] == '/')
  {
    var shown := if AbbreviatesWithin(cwd, home) then "~" + cwd[|home.value|..] else cwd;
    assert AbbreviatesWithin(cwd, home) ==> shown[1..] == cwd[|home.value|..];
    assert !AbbreviatesWithin(cwd, home) ==> shown == cwd;
    Slashes(shown)
  }

  /** The corrected rewrite agrees with the source whenever the source's
      prefix test already ends on a path boundary. */
  lemma TildePathWithinAgrees(cwd: string, home: Option<string>)
    requires Abbreviates(cwd, home) ==> Within(cwd, home.value)
    ensures TildePathWithin(cwd, home) == TildePath(cwd, home)
  {
  }

  /** The corrected rewrite loses nothing either. */
  lemma TildePathWithinExpands(cwd: string, home: Option<string>)
    requires |cwd| == 0 || cwd[0] != '~'
    ensures ExpandTilde(TildePathWithin(cwd, home), home) == Slashes(cwd)
  {
    var r := TildePathWithin(cwd, home);
    if AbbreviatesWithin(cwd, home) {
      var h := home.value;
      assert cwd == h + cwd[|h|..];
      SlashesAppend(h, cwd[|h|..]);
      SlashesAppend("~", cwd[|h|..]);
    } else {
      assert |r| > 0 ==> r[0] == Forward(cwd[0]) != '~';
    }
  }
}
