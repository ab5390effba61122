# Stage-one console shell, modelled in Dafny

`main.py` is the first stage of a Unix-like console emulator. It reads a
line, splits it into a command and arguments, and dispatches the command
to a fixed table. In that table `exit` ends the session, `ls` and `cd` are
stubs that echo their arguments, and any other name is reported as unknown.
The same loop is driven in two ways: interactively by `repl`, and over a
fixed list of lines by `demo_script`. `demo_script` echoes the prompt and
each line before handling it. The prompt shows the working directory with
the home directory abbreviated to `~`.

The model is pure and functional. It has five modules:

- `Wrappers`: an `Option` datatype, standing in for Python's `Optional`.
- `Text`:
  - Python's `str.isspace` character class;
  - the word and whitespace predicates;
  - `sep.join`.
- `Parser` (`parse_cmd`):
  - `str.strip`, and `str.split` with no separator;
  - an independent description of a split, as words woven between
    whitespace gaps (`Layout`/`Weave`);
  - proofs that the two agree.
- `Dispatcher` (`handle_command`): the command table. A printed line is a
  `string`, and a reply is the lines printed plus the continue flag.
- `Session`:
  - the loop, stated once over any per-line step (`RunFrom`/`Run`), then
    used with the shell's own step `Handle` (`parse_cmd` then
    `handle_command`);
  - the imperative loop `RunLines`, proved equal to the functional one;
  - `repl` over a finite input sequence;
  - `demo_script` with its transcript proved line by line.
- `Prompt` (`tilde_path`): the home abbreviation and the separator rewrite.
  It also holds a corrected version (see Findings).

These values are parameters of the model:

- the prompt, because it comes from the environment;
- the home directory, because it comes from `os.path.expanduser`;
- the lines the loop reads, because they come from `input()`.

## Model

| member | source | states |
|---|---|---|
| Text.IsSpace | main.py:48 | the characters `str.isspace()` accepts, and so the characters `strip()` and `split()` treat as whitespace: tab, line feed, vertical tab, form feed, carriage return, U+001C to U+001F, space, U+0085, U+00A0, U+1680, U+2000 to U+200A, U+2028, U+2029, U+202F, U+205F and U+3000 (a definition without a contract) |
| Text.Join | main.py:64 | `sep.join(ts)`: the words in order with `sep` between each pair, `""` for no words (a definition without a contract; Parser.TokensOfJoin states its round trip) |
| Parser.Tokens | main.py:48 | `split()` yields only non-empty words free of whitespace, and yields no word exactly when the line is all whitespace |
| Parser.StripLeft | main.py:48 | the result is a suffix of the line, the part cut off is all whitespace, and the result does not start with whitespace |
| Parser.StripRight | main.py:48 | the result is a prefix of the line, the part cut off is all whitespace, and the result does not end with whitespace |
| Parser.Strip | main.py:48 | `strip()` returns a slice of the line with only whitespace before and after it and none at either of its own ends, so the interior is kept as it was; it does not change the words `split()` finds |
| Parser.ParseCmd | main.py:46-51 | `None` exactly for a line that is all whitespace; otherwise the command is the first word and the arguments are the remaining words in order, all non-empty and free of whitespace |
| Parser.TokensSpacePrefix | main.py:48 | leading whitespace does not change the words |
| Parser.TokensSpaceSuffix | main.py:48 | trailing whitespace does not change the words |
| Parser.TokensOfJoin | main.py:48 | words joined by single spaces split back into the same words |
| Parser.Gaps | main.py:48 | every line is its words laid out between whitespace gaps, with a non-empty gap between each pair of words |
| Parser.TokensOfWeave | main.py:48 | splitting words laid out between whitespace gaps gives back exactly those words |
| Parser.TokensIffLayout | main.py:48 | a line splits into given words if and only if it is those words laid out between whitespace gaps |
| Parser.ParseCmdIffLayout | main.py:46-51 | `parse_cmd` gives `(cmd, args)` if and only if the line is `cmd` and `args` laid out between whitespace gaps |
| Parser.ParseCmdOfJoin | main.py:46-51 | a command and arguments joined by single spaces parse back to the same command and arguments |
| Dispatcher.HandleCommand | main.py:54-70 | stops exactly for `exit`, which prints nothing; every other command prints one line: the stub echo with the space-joined arguments, the no-argument stub echo, or `Command not found: <cmd>` |
| Dispatcher.ArgsIgnoredUnlessStub | main.py:59-70 | for `exit` and unknown names the reply does not depend on the arguments |
| Dispatcher.StubEchoParses | main.py:61-67 | the line a stub prints, parsed again, gives the command, the fixed words and every argument in order, so the echo loses nothing |
| Dispatcher.UnknownEchoParses | main.py:68-70 | the unknown-command line, parsed again, gives the fixed words `Command not found:` and the one-word name exactly as typed, whatever the arguments were |
| Session.RunFrom | main.py:115-124 | the loop reads at most the lines that are left; it reads them all when nothing stops it, and at least one when something does |
| Session.RunStopsAtFirst | main.py:115-124 | the last line read is the one that stopped the loop, and no earlier line stops it; when the loop did not stop, no line stops it |
| Session.RunExitsIffStopLine | main.py:115-125 | the loop ends early if and only if some line would stop it |
| Session.StopIgnoresRest | main.py:122-124 | once the loop has stopped, the lines that follow have no effect on the output |
| Session.RunPrefix | main.py:115-125 | running only the lines up to the stopping line gives the same trace as running them all |
| Session.RunIsReplay | main.py:88-96 | without echo, the loop prints what the per-line steps print for the lines read, in order |
| Session.ReplayFromSlice | main.py:88-96 | the index-based replay of lines `i` to `j` is the replay of that slice |
| Session.ReplayIsReplies | main.py:88-96 | blank lines are never dispatched: replaying the shell's step prints exactly the replies to the commands of the non-blank lines |
| Session.Handle | main.py:88-94 | a line is skipped exactly when it is all whitespace |
| Session.StopsIffFirstWordExit | main.py:48-60 | a line ends the session exactly when its first word is `exit` |
| Session.StopsIffExitCommand | main.py:46-60 | the lines that end the session are exactly `exit` plus any arguments, laid out with any whitespace |
| Session.RunLines | main.py:115-125 | the line-by-line loop prints exactly what the functional loop prints, and returns 0 whether or not `exit` was reached |
| Session.ShellRun | main.py:75-96 | the interactive loop prints the replies to the non-blank lines it read, and stops exactly when some line is an `exit` command |
| Session.Repl | main.py:73-96 | `repl` prints the replies to the non-blank lines up to the first `exit`, then one empty line only if the input ran out first; the status is 0 |
| Session.Demo | main.py:102-125 | `demo_script` prints the ten-line transcript: each line echoed after the prompt (the blank one too), then its reply, ending at `exit`; the status is 0 |
| Session.DemoTranscript | main.py:107-124 | the loop over the fixed script, with a given prompt, produces that ten-line transcript |
| Session.RunOfSix | main.py:115-124 | for six lines where the first is blank, the next four each print one line and continue, and the last stops: the prompt echoes interleave with the replies and all six lines are read |
| Prompt.Slashes | main.py:33 | the rewrite keeps the length, turns each back-slash into a slash, changes nothing else, and leaves no back-slash |
| Prompt.SlashesIdempotent | main.py:33 | rewriting twice is the same as rewriting once |
| Prompt.SlashesAppend | main.py:33 | the rewrite distributes over concatenation |
| Prompt.TildePath | main.py:22-33 | as written: when the home is non-empty and is a text prefix of the cwd, `~` and the rest of the cwd are shown; otherwise the whole cwd; back-slashes become slashes and none remain |
| Prompt.TildePathExpands | main.py:28-33 | reading the `~` back as the home gives the working directory with forward slashes |
| Prompt.SiblingShownAsHome | main.py:28-29 | with home `/home/al`, the directory `/home/alice` is shown as `~ice`, though it is not inside home |
| Prompt.TildePathWithin | main.py:28-33 | corrected: a `~` is shown only for home itself and the paths below it, and is followed by nothing or by `/` |
| Prompt.TildePathWithinExpands | main.py:28-33 | the corrected rewrite also expands back to the working directory with forward slashes |

## Left out

- `uname_host` (main.py:7-19): it reads environment variables and the host
  name. This is foreign I/O.
- `make_prompt` (main.py:36-43): the prompt is a parameter of the loop, the
  same string for every line.
  - In the source the prompt is rebuilt on every line.
  - In stage one no command changes the working directory, so the prompt
    stays the same.
  - `tilde_path` is modelled on its own, with the working directory and the
    home directory as parameters.
- The `os.path.expanduser` call and its failure (main.py:24-27): the home
  directory is an `Option` parameter, and `None` stands for the failed
  lookup.
- `input()` (main.py:77-78): the lines read are the input sequence, and the
  prompt that `input` writes to the terminal is not part of the modelled
  output.
- `KeyboardInterrupt` (main.py:79-82): an interrupt is a signal, not a line,
  so it does not appear in the input sequence.
- End of input (main.py:83-86): it is modelled as the input sequence running
  out. The empty line `print()` writes appears as `""`.
- The generic `except Exception` (main.py:97-99): `repl` prints `Error: <e>`
  and goes on when `handle_command` raises. The only thing in it that can
  raise is `print`, for example an encoding error for a character the
  output cannot hold, or a closed output stream. Errors raised while
  writing output are not modelled: here printing always succeeds.
- `sys.argv` handling, `--demo` and `sys.exit` (main.py:128-133):
  command-line plumbing.
- There is no file system in `main.py`: `ls` and `cd` are stubs that only
  echo their arguments (main.py:61-67), and the model has none either.
- Session.Handle: its contract states only when a line is skipped. Which
  lines stop the shell is stated by Session.StopsIffFirstWordExit and
  Session.StopsIffExitCommand. Which lines are printed is stated by
  Dispatcher.HandleCommand.
- Lines holding lone surrogates (U+D800 to U+DFFF), which `input()` can
  return under the `surrogateescape` error handler, cannot be written as
  Dafny strings. Such characters are not whitespace, so `split()` would find
  the same words around them.
- Session.Demo: the script is the constant `DemoScript`, and the prompt is
  one fixed string for the whole run.

## Findings

| source | as written | input that shows it | evidently intended | confidence | as-written member | corrected member |
|---|---|---|---|---|---|---|
| main.py:28-29 | `cwd.startswith(home)` tests a text prefix, so a directory whose name merely begins with the home directory's name is abbreviated too | home `/home/al`, cwd `/home/alice`: shown as `~ice` | abbreviate only the home directory itself and paths below it, where the prefix ends at the end of cwd or at a separator | medium, not executed | Prompt.SiblingShownAsHome | Prompt.TildePathWithin |

`Prompt.TildePathWithinAgrees` shows when the two versions agree: whenever
the prefix test already ends on a path boundary, the corrected rewrite
gives the same result as the source.
