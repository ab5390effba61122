/**
  `handle_command`: the fixed table of stage-one commands. `exit` ends the
  session, `ls` and `cd` are stubs that echo their arguments, and every
  other name is reported as unknown.
 */
module Dispatcher {
  import opened Wrappers
  import opened Text
  import opened Parser

  /** What handling one command does: the lines it prints, and whether the
      session goes on (`True` in the source) or ends (`False`). */
  datatype Reply = Reply(lines: seq<string>, proceed: bool)

  /** The stub commands that only echo what they were given. */
  predicate IsStub(cmd: string) {
    cmd == "ls" || cmd == "cd"
  }

  function HandleCommand(cmd: string, args: seq<string>): (r: Reply)
    ensures !r.proceed <==> cmd == "exit"
    ensures cmd == "exit" ==> r.lines == []
    ensures cmd != "exit" ==> |r.lines| == 1
    ensures IsStub(cmd) && |args| > 0 ==>
      r.lines == [cmd + " called with args: " + Join(args, " ")]
    ensures IsStub(cmd) && |args| == 0 ==>
      r.lines == [cmd + " called with no args"]
    ensures cmd != "exit" && !IsStub(cmd) ==>
      r.lines == ["Command not found: " + cmd]
  {
    if cmd == "exit" then Reply([], false)
    else if IsStub(cmd) then
      if |args| > 0 then Reply([cmd + " called with args: " + Join(args, " ")], true)
      else Reply([cmd + " called with no args"], true)
    else Reply(["Command not found: " + cmd], true)
  }

  /** The reply depends on the arguments only for `ls` and `cd`: `exit` and
      unknown names ignore them. */
  lemma ArgsIgnoredUnlessStub(cmd: string, a: seq<string>, b: seq<string>)
    requires !IsStub(cmd)
    ensures HandleCommand(cmd, a) == HandleCommand(cmd, b)
  {
  }

  /** The stub's echo line loses nothing: parsed as a shell line, it gives
      back the command, the fixed words of the message, and every argument
      in order. */
  lemma StubEchoParses(cmd: string, args: seq<string>)
    requires IsStub(cmd) && AllTokens(args)
    ensures |args| > 0 ==>
      ParseCmd(HandleCommand(cmd, args).lines[0])
        == Some((cmd, ["called", "with", "args:"] + args))
    ensures |args| == 0 ==>
      ParseCmd(HandleCommand(cmd, args).lines[0])
        == Some((cmd, ["called", "with", "no", "args"]))
  {
    if |args| > 0 {
      EchoWithArgs(cmd, args);
    } else {
      EchoNoArgs(cmd);
    }
  }

  /** The echo line is the command, the fixed words and the arguments
      joined by single spaces. */
  lemma EchoWithArgsText(cmd: string, args: seq<string>)
    requires |args| > 0
    ensures cmd + " called with args: " + Join(args, " ")
         == Join([cmd] + (["called", "with", "args:"] + args), " ")
  {
    var l3 := ["args:"] + args;
    var l2 := ["with"] + l3;
    var l1 := ["called"] + l2;
    assert l1 == ["called", "with", "args:"] + args;
    JoinCons("args:", args, " ");
    JoinCons("with", l3, " ");
    JoinCons("called", l2, " ");
    JoinCons(cmd, l1, " ");
    EchoSpelling(cmd, Join(args, " "));
  }

  lemma EchoSpelling(cmd: string, j: string)
    ensures cmd + " " + ("called" + " " + ("with" + " " + ("args:" + " " + j)))
         == cmd + " called with args: " + j
  {
  }

  lemma EchoWithArgs(cmd: string, args: seq<string>)
    requires IsStub(cmd) && AllTokens(args) && |args| > 0
    ensures ParseCmd(cmd + " called with args: " + Join(args, " "))
         == Some((cmd, ["called", "with", "args:"] + args))
  {
    var rest := ["called", "with", "args:"] + args;
    EchoWithArgsText(cmd, args);
    FixedWordsThenArgs(args);
    ParseCmdOfJoin(cmd, rest);
  }

  lemma FixedWordsThenArgs(args: seq<string>)
    requires AllTokens(args)
    ensures AllTokens(["called", "with", "args:"] + args)
  {
    var words := ["called", "with", "args:"];
    assert AllTokens(words);
    forall i | 0 <= i < |words + args| ensures IsToken((words + args)[i]) {
      if i >= 3 { assert (words + args)[i] == args[i - 3]; }
      else { assert (words + args)[i] == words[i]; }
    }
  }

  lemma EchoNoArgs(cmd: string)
    requires IsStub(cmd)
    ensures ParseCmd(cmd + " called with no args")
         == Some((cmd, ["called", "with", "no", "args"]))
  {
    var words := ["called", "with", "no", "args"];
    assert AllTokens(words);
    EchoNoArgsText(cmd);
    ParseCmdOfJoin(cmd, words);
  }

  /** The no-argument echo line is the command and four fixed words joined
      by single spaces. */
  lemma EchoNoArgsText(cmd: string)
    ensures Join([cmd] + ["called", "with", "no", "args"], " ") == cmd + " called with no args"
  {
    var l3 := ["no"] + ["args"];
    var l2 := ["with"] + l3;
    var l1 := ["called"] + l2;
    assert l1 == ["called", "with", "no", "args"];
    assert Join(["args"], " ") == "args";
    JoinCons("no", ["args"], " ");
    JoinCons("with", l3, " ");
    JoinCons("called", l2, " ");
    JoinCons(cmd, l1, " ");
    NoArgsSpelling(cmd);
  }

  lemma NoArgsSpelling(cmd: string)
    ensures cmd + " " + ("called" + " " + ("with" + " " + ("no" + " " + "args")))
         == cmd + " called with no args"
  {
  }

  /** The unknown-command line, parsed as a shell line, gives back the fixed
      words and the name exactly as typed, whatever the arguments were. */
  lemma UnknownEchoParses(cmd: string, args: seq<string>)
    requires cmd != "exit" && !IsStub(cmd) && IsToken(cmd)
    ensures ParseCmd(HandleCommand(cmd, args).lines[0])
         == Some(("Command", ["not", "found:", cmd]))
  {
    var rest := ["not", "found:", cmd];
    assert AllTokens(rest);
    assert IsToken("Command");
    NotFoundText(cmd);
    ParseCmdOfJoin("Command", rest);
  }

  /** The unknown-command line is four words joined by single spaces. */
  lemma NotFoundText(cmd: string)
    ensures Join(["Command"] + ["not", "found:", cmd], " ") == "Command not found: " + cmd
  {
    var l2 := ["found:"] + [cmd];
    var l1 := ["not"] + l2;
    assert l1 == ["not", "found:", cmd];
    assert Join([cmd], " ") == cmd;
    JoinCons("found:", [cmd], " ");
    JoinCons("not", l2, " ");
    JoinCons("Command", l1, " ");
    NotFoundSpelling(cmd);
  }

  lemma NotFoundSpelling(cmd: string)
    ensures "Command" + " " + ("not" + " " + ("found:" + " " + cmd))
         == "Command not found: " + cmd
  {
  }
}
