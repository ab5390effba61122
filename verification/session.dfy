/**
  The command loop shared by `demo_script` and `repl`: each line is parsed,
  blank lines are skipped, the rest go to `handle_command`, and the loop
  ends at the first `exit` or when the lines run out. The demo prints the
  prompt and the line before handling it; the prompt is a parameter here.

  The loop is stated once, over any per-line step, and then used with the
  shell's own step `Handle`.
 */
module Session {
  import opened Wrappers
  import opened Text
  import opened Parser
  import opened Dispatcher

  /** What the loop does with one line: `None` when the line is skipped,
      else the reply of the command it holds. */
  type Step = string -> Option<Reply>

  /** What running a sequence of lines did: everything printed, whether an
      `exit` ended the loop, and how many lines were read. */
  datatype Trace = Trace(output: seq<string>, exited: bool, consumed: nat)

  /** A line on which the loop stops. */
  predicate Stops(step: Step, line: string) {
    step(line).Some? && !step(line).value.proceed
  }

  /** The echo the demo prints before handling a line (`prompt + line`);
      nothing when there is no prompt to echo. */
  function Echo(prompt: Option<string>, line: string): seq<string> {
    match prompt
    case None => []
    case Some(p) => [p + line]
  }

  /** What handling one line prints, the echo excluded. */
  function Printed(h: Option<Reply>): seq<string> {
    if h.Some? then h.value.lines else []
  }

  /** The loop from line `i` of `lines` on: it reads lines until one stops
      it or none are left. */
  function RunFrom(lines: seq<string>, i: nat, prompt: Option<string>, step: Step): (t: Trace)
    requires i <= |lines|
    ensures t.consumed <= |lines| - i
    ensures t.exited ==> 0 < t.consumed
    ensures !t.exited ==> t.consumed == |lines| - i
    decreases |lines| - i
  {
    if i == |lines| then Trace([], false, 0)
    else
      var shown := Echo(prompt, lines[i]) + Printed(step(lines[i]));
      if Stops(step, lines[i]) then Trace(shown, true, 1)
      else
        var rest := RunFrom(lines, i + 1, prompt, step);
        Trace(shown + rest.output, rest.exited, 1 + rest.consumed)
  }

  /** The whole loop over `lines`. */
  function Run(lines: seq<string>, prompt: Option<string>, step: Step): Trace {
    RunFrom(lines, 0, prompt, step)
  }

  /** The loop stops at the first stopping line: the last line read stops
      it, when it stopped, and no line before that does; when it did not
      stop, no line stops it. */
  lemma {:induction false} RunStopsAtFirst(lines: seq<string>, i: nat, prompt: Option<string>, step: Step)
    requires i <= |lines|
    ensures var t := RunFrom(lines, i, prompt, step);
      t.exited ==> Stops(step, lines[i + t.consumed - 1])
    ensures var t := RunFrom(lines, i, prompt, step);
      forall j :: i <= j < |lines| && (j < i + t.consumed - 1 || !t.exited) ==> !Stops(step, lines[j])
    decreases |lines| - i
  {
    if i < |lines| && !Stops(step, lines[i]) {
      RunStopsAtFirst(lines, i + 1, prompt, step);
    }
  }

  /** The loop stops exactly when some line stops it. */
  lemma RunExitsIffStopLine(lines: seq<string>, prompt: Option<string>, step: Step)
    ensures Run(lines, prompt, step).exited <==> exists i :: 0 <= i < |lines| && Stops(step, lines[i])
  {
    var t := Run(lines, prompt, step);
    RunStopsAtFirst(lines, 0, prompt, step);
    if t.exited {
      assert Stops(step, lines[t.consumed - 1]);
    }
  }

  /** Once the loop has stopped, whatever follows has no effect. */
  lemma {:induction false} StopIgnoresRest(lines: seq<string>, more: seq<string>, i: nat, prompt: Option<string>, step: Step)
    requires i <= |lines| && RunFrom(lines, i, prompt, step).exited
    ensures RunFrom(lines + more, i, prompt, step) == RunFrom(lines, i, prompt, step)
    decreases |lines| - i
  {
    assert (lines + more)[i] == lines[i];
    if !Stops(step, lines[i]) {
      StopIgnoresRest(lines, more, i + 1, prompt, step);
    }
  }

  /** Only the lines up to and including the one that stops the loop
      matter. */
  lemma RunPrefix(lines: seq<string>, prompt: Option<string>, step: Step)
    ensures var t := Run(lines, prompt, step);
      Run(lines[..t.consumed], prompt, step) == t
  {
    var t := Run(lines, prompt, step);
    var k := t.consumed;
    if t.exited {
      RunStopsAtFirst(lines, 0, prompt, step);
      assert lines[..k] + lines[k..] == lines;
      assert Stops(step, lines[..k][k - 1]);
      RunExitsIffStopLine(lines[..k], prompt, step);
      StopIgnoresRest(lines[..k], lines[k..], 0, prompt, step);
    } else {
      assert lines[..k] == lines;
    }
  }

  /** What the steps of `lines` print, one after another. */
  function Replay(lines: seq<string>, step: Step): seq<string>
    decreases |lines|
  {
    if |lines| == 0 then [] else Printed(step(lines[0])) + Replay(lines[1..], step)
  }

  lemma ReplayCons(line: string, rest: seq<string>, step: Step)
    ensures Replay([line] + rest, step) == Printed(step(line)) + Replay(rest, step)
  {
    assert ([line] + rest)[0] == line;
    assert ([line] + rest)[1..] == rest;
  }

  /** What the steps of lines `i` to `j - 1` print, one after another. */
  function ReplayFrom(lines: seq<string>, i: nat, j: nat, step: Step): seq<string>
    requires i <= j <= |lines|
    decreases j - i
  {
    if i == j then [] else Printed(step(lines[i])) + ReplayFrom(lines, i + 1, j, step)
  }

  /** Without echo, the loop prints what the steps of the lines it read
      print, in order. */
  lemma {:induction false} RunIsReplay(lines: seq<string>, i: nat, step: Step)
    requires i <= |lines|
    ensures var t := RunFrom(lines, i, None, step);
      t.output == ReplayFrom(lines, i, i + t.consumed, step)
    decreases |lines| - i
  {
    if i < |lines| {
      var x := lines[i];
      AppendNothing(Printed(step(x)));
      if !Stops(step, x) {
        RunIsReplay(lines, i + 1, step);
      }
    }
  }

  /** `RunIsReplay` for the whole loop. */
  lemma RunReplays(lines: seq<string>, step: Step)
    ensures var t := Run(lines, None, step);
      t.output == ReplayFrom(lines, 0, t.consumed, step)
  {
    RunIsReplay(lines, 0, step);
  }

  /** The index-based replay is the replay of the slice. */
  lemma {:induction false} ReplayFromSlice(lines: seq<string>, i: nat, j: nat, step: Step)
    requires i <= j <= |lines|
    ensures ReplayFrom(lines, i, j, step) == Replay(lines[i..j], step)
    decreases j - i
  {
    if i < j {
      ReplayFromSlice(lines, i + 1, j, step);
      assert lines[i..j] == [lines[i]] + lines[i + 1..j];
      ReplayCons(lines[i], lines[i + 1..j], step);
    }
  }

  // ---------------------------------------------------------------------
  // The shell's own step: `parse_cmd`, then `handle_command`.

  /** One line through `parse_cmd` and `handle_command`: `None` for a blank
      line, which is never dispatched, else the handler's reply. */
  function Handle(line: string): (r: Option<Reply>)
    ensures r.None? <==> AllSpace(line)
  {
    match ParseCmd(line)
    case None => None
    case Some((cmd, args)) => Some(HandleCommand(cmd, args))
  }

  /** A line stops the shell exactly when its first word is `exit`. */
  lemma StopsIffFirstWordExit(line: string)
    ensures Stops(Handle, line) <==> |Tokens(line)| > 0 && Tokens(line)[0] == "exit"
  {
    var p := ParseCmd(line);
    if p.Some? {
      assert Tokens(line)[0] == ([p.value.0] + p.value.1)[0];
    }
  }

  /** The lines that end the shell's loop are exactly those whose command
      word is `exit`, whatever their arguments and spacing. */
  lemma StopsIffExitCommand(line: string)
    ensures Stops(Handle, line) <==> exists gaps, args :: Layout(gaps, ["exit"] + args)
                                      && Weave(gaps, ["exit"] + args) == line
  {
    var p := ParseCmd(line);
    if Stops(Handle, line) {
      ParseCmdIffLayout(line, "exit", p.value.1);
    }
    if exists gaps, args :: Layout(gaps, ["exit"] + args) && Weave(gaps, ["exit"] + args) == line {
      var gaps, args :| Layout(gaps, ["exit"] + args) && Weave(gaps, ["exit"] + args) == line;
      ParseCmdIffLayout(line, "exit", args);
    }
  }

  /** The commands of the non-blank lines, in order. */
  function Commands(lines: seq<string>): seq<(string, seq<string>)>
    decreases |lines|
  {
    if |lines| == 0 then []
    else
      var p := ParseCmd(lines[0]);
      (if p.Some? then [p.value] else []) + Commands(lines[1..])
  }

  /** Everything the handler prints for `cmds`, one command after another. */
  function Replies(cmds: seq<(string, seq<string>)>): seq<string>
    decreases |cmds|
  {
    if |cmds| == 0 then [] else HandleCommand(cmds[0].0, cmds[0].1).lines + Replies(cmds[1..])
  }

  /** Replaying the shell's step is handling the commands of the non-blank
      lines: blank lines are never dispatched. */
  lemma {:induction false} ReplayIsReplies(lines: seq<string>)
    ensures Replay(lines, Handle) == Replies(Commands(lines))
    decreases |lines|
  {
    if |lines| > 0 {
      ReplayIsReplies(lines[1..]);
      var p := ParseCmd(lines[0]);
      var rest := Commands(lines[1..]);
      if p.Some? {
        var c := [p.value] + rest;
        assert Commands(lines) == c;
        assert c[0] == p.value && c[1..] == rest;
        assert Printed(Handle(lines[0])) == HandleCommand(p.value.0, p.value.1).lines;
        assert Replies(c) == HandleCommand(p.value.0, p.value.1).lines + Replies(rest);
      } else {
        assert Commands(lines) == [] + rest;
        assert [] + rest == rest;
        assert Printed(Handle(lines[0])) == [];
      }
    }
  }

  // ---------------------------------------------------------------------
  // The two entry points.

  /** The loop of `demo_script` and of `repl` over `lines`, line by line as
      the source writes it, with `step` for the parse-and-dispatch of one
      line; `prompt` is echoed before each line when present. Returns 0
      whether or not `exit` was reached. */
  method RunLines(lines: seq<string>, prompt: Option<string>, step: Step) returns (output: seq<string>, status: int)
    ensures output == Run(lines, prompt, step).output
    ensures status == 0
  {
    output := [];
    var i := 0;
    while i < |lines|
      invariant 0 <= i <= |lines|
      invariant Run(lines, prompt, step).output == output + RunFrom(lines, i, prompt, step).output
    {
      var line := lines[i];
      Turn(lines, i, prompt, step, output);
      output := output + Echo(prompt, line);
      var h := step(line);
      if h.Some? {
        output := output + h.value.lines;
        if !h.value.proceed {
          return output, 0;
        }
      } else {
        AppendNothing(output);
      }
      i := i + 1;
    }
    AppendNothing(output);
    return output, 0;
  }

  /** One turn of the loop: what has been printed before line `i`, then
      line `i` echoed and handled, then the rest unless it stopped. */
  lemma Turn(lines: seq<string>, i: nat, prompt: Option<string>, step: Step, before: seq<string>)
    requires i < |lines|
    requires Run(lines, prompt, step).output == before + RunFrom(lines, i, prompt, step).output
    ensures var now := before + Echo(prompt, lines[i]) + Printed(step(lines[i]));
      Stops(step, lines[i]) ==> Run(lines, prompt, step).output == now
    ensures var now := before + Echo(prompt, lines[i]) + Printed(step(lines[i]));
      !Stops(step, lines[i]) ==>
        Run(lines, prompt, step).output == now + RunFrom(lines, i + 1, prompt, step).output
  {
    var shown := Echo(prompt, lines[i]) + Printed(step(lines[i]));
    ConcatAssoc(before, Echo(prompt, lines[i]), Printed(step(lines[i])));
    ConcatAssoc(before, shown, RunFrom(lines, i + 1, prompt, step).output);
  }

  /** Without echo, the shell's loop prints the replies to the non-blank
      lines it read, and stops exactly when some line is an `exit`. */
  lemma ShellRun(inputs: seq<string>)
    ensures var t := Run(inputs, None, Handle);
      && t.output == Replies(Commands(inputs[..t.consumed]))
      && (t.exited <==> exists i :: 0 <= i < |inputs| && Stops(Handle, inputs[i]))
  {
    var t := Run(inputs, None, Handle);
    RunReplays(inputs, Handle);
    ShellReplay(inputs, t.consumed);
    RunExitsIffStopLine(inputs, None, Handle);
  }

  /** The shell's step over the first `k` lines prints the replies to the
      commands among them. */
  lemma ShellReplay(inputs: seq<string>, k: nat)
    requires k <= |inputs|
    ensures ReplayFrom(inputs, 0, k, Handle) == Replies(Commands(inputs[..k]))
  {
    ReplayFromSlice(inputs, 0, k, Handle);
    assert inputs[0..k] == inputs[..k];
    ReplayIsReplies(inputs[..k]);
  }

  /** What `repl` prints after reading `inputs` (the prompt that `input`
      writes excluded): the replies to the non-blank lines up to the first
      `exit`, then, only if the input ran out first, the empty line printed
      at end of input. The status is 0 either way. */
  function Repl(inputs: seq<string>): (r: (seq<string>, int))
    ensures var printed := Replies(Commands(inputs[..Run(inputs, None, Handle).consumed]));
      r.0 == if exists i :: 0 <= i < |inputs| && Stops(Handle, inputs[i]) then printed else printed + [""]
    ensures r.1 == 0
  {
    var t := Run(inputs, None, Handle);
    ShellRun(inputs);
    (if t.exited then t.output else t.output + [""], 0)
  }

  /** The lines `demo_script` runs. */
  const DemoScript: seq<string> := ["", "ls", "ls src docs", "cd /tmp", "unknown", "exit"]

  /** `demo_script` with a fixed prompt: every line is echoed after the
      prompt, the blank one included, the handler's replies follow, and
      the output ends at the `exit` line. */
  method Demo(prompt: string) returns (output: seq<string>, status: int)
    ensures output == [
      prompt,
      prompt + "ls", "ls called with no args",
      prompt + "ls src docs", "ls called with args: src docs",
      prompt + "cd /tmp", "cd called with args: /tmp",
      prompt + "unknown", "Command not found: unknown",
      prompt + "exit"]
    ensures status == 0
  {
    output, status := RunLines(DemoScript, Some(prompt), Handle);
    DemoTranscript(prompt);
  }

  /** The transcript of the demo script, line by line. */
  lemma DemoTranscript(prompt: string)
    ensures Run(DemoScript, Some(prompt), Handle).output == [
      prompt,
      prompt + "ls", "ls called with no args",
      prompt + "ls src docs", "ls called with args: src docs",
      prompt + "cd /tmp", "cd called with args: /tmp",
      prompt + "unknown", "Command not found: unknown",
      prompt + "exit"]
  {
    HandleBlank(); HandleLs(); HandleLsSrcDocs(); HandleCdTmp(); HandleUnknown(); HandleExit();
    RunOfSix("", "ls", "ls src docs", "cd /tmp", "unknown", "exit", prompt, Handle,
      "ls called with no args", "ls called with args: src docs",
      "cd called with args: /tmp", "Command not found: unknown");
    AppendNothing(prompt);
  }

  lemma AppendNothing<T>(s: seq<T>) ensures s + [] == s && [] + s == s {
  }

  /** Six lines where the first is blank, the next four each print one line
      and go on, and the last stops: every line is echoed after the prompt,
      the replies follow, and all six are consumed. */
  lemma RunOfSix(l0: string, l1: string, l2: string, l3: string, l4: string, l5: string,
                 prompt: string, step: Step, r1: string, r2: string, r3: string, r4: string)
    requires step(l0) == None
    requires step(l1) == Some(Reply([r1], true))
    requires step(l2) == Some(Reply([r2], true))
    requires step(l3) == Some(Reply([r3], true))
    requires step(l4) == Some(Reply([r4], true))
    requires step(l5) == Some(Reply([], false))
    ensures Run([l0, l1, l2, l3, l4, l5], Some(prompt), step)
         == Trace([prompt + l0, prompt + l1, r1, prompt + l2, r2,
                   prompt + l3, r3, prompt + l4, r4, prompt + l5], true, 6)
  {
    var p, s := Some(prompt), [l0, l1, l2, l3, l4, l5];
    var o5 := [prompt + l5];
    assert RunFrom(s, 5, p, step) == Trace(o5, true, 1);
    var o4 := [prompt + l4, r4] + o5;
    EchoedReply(s, 4, prompt, step, r4, o5, 1);
    var o3 := [prompt + l3, r3] + o4;
    EchoedReply(s, 3, prompt, step, r3, o4, 2);
    var o2 := [prompt + l2, r2] + o3;
    EchoedReply(s, 2, prompt, step, r2, o3, 3);
    var o1 := [prompt + l1, r1] + o2;
    EchoedReply(s, 1, prompt, step, r1, o2, 4);
    EchoedBlank(s, 0, prompt, step, o1, 5);
    TenLines(prompt + l0, prompt + l1, r1, prompt + l2, r2, prompt + l3, r3, prompt + l4, r4, prompt + l5);
  }

  /** A line whose reply is one line and goes on, read before a run that
      stopped. */
  lemma EchoedReply(lines: seq<string>, i: nat, prompt: string, step: Step,
                    reply: string, out: seq<string>, n: nat)
    requires i < |lines| && step(lines[i]) == Some(Reply([reply], true))
    requires RunFrom(lines, i + 1, Some(prompt), step) == Trace(out, true, n)
    ensures RunFrom(lines, i, Some(prompt), step) == Trace([prompt + lines[i], reply] + out, true, n + 1)
  {
    assert [prompt + lines[i]] + [reply] == [prompt + lines[i], reply];
  }

  /** A skipped line read before a run that stopped. */
  lemma EchoedBlank(lines: seq<string>, i: nat, prompt: string, step: Step,
                    out: seq<string>, n: nat)
    requires i < |lines| && step(lines[i]) == None
    requires RunFrom(lines, i + 1, Some(prompt), step) == Trace(out, true, n)
    ensures RunFrom(lines, i, Some(prompt), step) == Trace([prompt + lines[i]] + out, true, n + 1)
  {
    assert [prompt + lines[i]] + [] == [prompt + lines[i]];
  }

  lemma TenLines<T>(a: T, b: T, c: T, d: T, e: T, f: T, g: T, h: T, i: T, j: T)
    ensures [a] + ([b, c] + ([d, e] + ([f, g] + ([h, i] + [j])))) == [a, b, c, d, e, f, g, h, i, j]
  {
  }

  lemma HandleBlank() ensures Handle("") == None {
  }

  lemma HandleLs() ensures Handle("ls") == Some(Reply(["ls called with no args"], true)) {
    ParseLs(); ReplyLs();
  }

  lemma HandleLsSrcDocs()
    ensures Handle("ls src docs") == Some(Reply(["ls called with args: src docs"], true))
  {
    ParseLsSrcDocs(); ReplyLsSrcDocs();
  }

  lemma HandleCdTmp() ensures Handle("cd /tmp") == Some(Reply(["cd called with args: /tmp"], true)) {
    ParseCdTmp(); ReplyCdTmp();
  }

  lemma HandleUnknown()
    ensures Handle("unknown") == Some(Reply(["Command not found: unknown"], true))
  {
    ParseUnknown(); ReplyUnknown();
  }

  lemma HandleExit() ensures Handle("exit") == Some(Reply([], false)) {
    ParseExit();
  }

  lemma ParseLs() ensures ParseCmd("ls") == Some(("ls", [])) {
    SplitWords(["ls"], "ls");
  }

  lemma ParseExit() ensures ParseCmd("exit") == Some(("exit", [])) {
    SplitWords(["exit"], "exit");
  }

  lemma ParseUnknown() ensures ParseCmd("unknown") == Some(("unknown", [])) {
    SplitWords(["unknown"], "unknown");
  }

  lemma ParseLsSrcDocs() ensures ParseCmd("ls src docs") == Some(("ls", ["src", "docs"])) {
    var ws := ["ls", "src", "docs"];
    assert AllTokens(ws);
    JoinLsSrcDocs();
    SplitWords(ws, "ls src docs");
    assert ws[1..] == ["src", "docs"];
  }

  lemma JoinLsSrcDocs() ensures Join(["ls", "src", "docs"], " ") == "ls src docs" {
    JoinCons("ls", ["src", "docs"], " ");
    JoinCons("src", ["docs"], " ");
    assert ["ls"] + ["src", "docs"] == ["ls", "src", "docs"];
    assert ["src"] + ["docs"] == ["src", "docs"];
    assert "ls" + " " + ("src" + " " + "docs") == "ls src docs";
  }

  lemma ParseCdTmp() ensures ParseCmd("cd /tmp") == Some(("cd", ["/tmp"])) {
    var ws := ["cd", "/tmp"];
    assert AllTokens(ws);
    JoinCdTmp();
    SplitWords(ws, "cd /tmp");
    assert ws[1..] == ["/tmp"];
  }

  lemma JoinCdTmp() ensures Join(["cd", "/tmp"], " ") == "cd /tmp" {
    JoinCons("cd", ["/tmp"], " ");
    assert ["cd"] + ["/tmp"] == ["cd", "/tmp"];
    assert "cd" + " " + "/tmp" == "cd /tmp";
  }

  lemma ReplyLs() ensures HandleCommand("ls", []) == Reply(["ls called with no args"], true) {
    assert "ls" + " called with no args" == "ls called with no args";
  }

  lemma ReplyLsSrcDocs()
    ensures HandleCommand("ls", ["src", "docs"]) == Reply(["ls called with args: src docs"], true)
  {
    assert Join(["src", "docs"], " ") == "src docs";
    assert "ls" + " called with args: " + "src docs" == "ls called with args: src docs";
  }

  lemma ReplyCdTmp()
    ensures HandleCommand("cd", ["/tmp"]) == Reply(["cd called with args: /tmp"], true)
  {
    assert "cd" + " called with args: " + "/tmp" == "cd called with args: /tmp";
  }

  lemma ReplyUnknown()
    ensures HandleCommand("unknown", []) == Reply(["Command not found: unknown"], true)
  {
    assert "Command not found: " + "unknown" == "Command not found: unknown";
  }

  /** A line made of words joined by single spaces parses as those words. */
  lemma SplitWords(ws: seq<string>, line: string)
    requires |ws| > 0 && AllTokens(ws) && Join(ws, " ") == line
    ensures ParseCmd(line) == Some((ws[0], ws[1..]))
  {
    assert ws == [ws[0]] + ws[1..];
    ParseCmdOfJoin(ws[0], ws[1..]);
  }
}
