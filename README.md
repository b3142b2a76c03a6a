# Necesse game-server wrapper for Agones, modelled in Dafny

The wrapper is a small Go program, `main.go`. It starts the Necesse server script as a
child process and echoes the child's stdout line by line. It moves the Agones game server
to READY the first time a stdout line contains `Type help for list of commands.`. It also
pings Agones `Health` on a timer. Once its flags are parsed, every way `main` and its
tasks end the program is a `log.Fatal`. That includes the child exiting, even cleanly.

The model covers the parts of that program that can be stated sequentially:

- `strings.dfy` (module `Strings`): Go's `strings.Contains`, `Trim` with a cutset,
  `TrimSpace` and `Fields`, over the ASCII whitespace set `\t \n \v \f \r` and space.
- `args.dfy` (module `Args`): how `-i` is validated and how `-args` becomes the child's
  argument list. The value is trimmed of whitespace, then every leading and trailing `'`
  is stripped, then it is split into fields.
- `pipe_errors.dfy` (module `PipeErrors`): `isBenignPipeError`, and what the two
  forwarding tasks log when their copy or scan ends with an error.
- `readiness.dfy` (module `Readiness`): the `sync.Once` latch as a class `Latch`. It
  holds `fired`, the number of SDK `Ready` calls, the text written to stdout, and
  whether a failed `Ready` ended the process. The class also runs the `for sc.Scan()`
  loop over an already-split sequence of lines. The specification functions
  `FirstHelpLine` and `ScanOutput` say what a scan must produce.
- `heartbeat.dfy` (module `Heartbeat`): `doHealth` as a loop over a supplied sequence of
  `Health` outcomes. Time is reduced to ticks.
- `supervisor.dfy` (module `Supervisor`): `main`'s start-up and shutdown sequence. Every
  external result is supplied in an `Env` value. The result is the list of steps
  attempted and the reason for the fatal exit.

Points where the code's behaviour is easy to misread:

- The heartbeat pings `Health` before the first wait on the ticker, not on the first tick.
- The `-args` value loses whole runs of `'` at both ends, not one matched pair of outer
  quotes. So `''a b''` and `'a b` both give `a`, `b`.
- `-i` is rejected only when it is blank after trimming whitespace. The child is then
  run with the raw, untrimmed value.
- Only stdout is scanned for the marker. Stderr is copied unscanned.

## Model

| member | source | states |
|---|---|---|
| Strings.Contains | main.go:88 | `strings.Contains`: true exactly when `sub` occurs at some index of `s` |
| Strings.ContainsInContext | main.go:88 | a substring stays a substring whatever text surrounds it |
| Strings.TrimLeft | main.go:33 | drops exactly the leading run of cutset characters; what remains does not start with one |
| Strings.TrimRight | main.go:33 | drops exactly the trailing run of cutset characters; what remains does not end with one |
| Strings.Trim | main.go:33 | `strings.Trim`: empty exactly when every character is in the cutset, otherwise starts and ends outside it |
| Strings.TrimWindow | main.go:33 | the trimmed string is a contiguous window of the input, and everything cut off on either side is in the cutset |
| Strings.TrimPadded | main.go:33 | trimming removes any number of cutset characters added on either side, matched or not |
| Strings.TrimUnpadded | main.go:33 | a string that neither starts nor ends with a cutset character is its own trim |
| Strings.AllInConcat | main.go:33 | every character of a concatenation is in the cutset exactly when every character of both parts is |
| Strings.TrimSpace | main.go:26 | `strings.TrimSpace`: empty exactly for blank input, otherwise no whitespace at either end |
| Strings.Fields | main.go:33 | `strings.Fields`: every field is non-empty and free of whitespace |
| Strings.WordLen | main.go:33 | the leading run of non-whitespace characters ends at the end of the input or at a whitespace character |
| Strings.FieldsSplit | main.go:33 | a whitespace character separates fields: the fields of `a c b` are those of `a` followed by those of `b` |
| Strings.FieldsBlank | main.go:33 | `Fields` gives no fields exactly for blank input |
| Strings.FieldsIgnoresOuterSpace | main.go:32-33 | leading and trailing whitespace never changes the fields |
| Strings.FieldsAroundBlank | main.go:33 | blank text on either side of a string adds no fields |
| Strings.FieldsOfWord | main.go:33 | a single word is its own and only field |
| Strings.FieldsJoin | main.go:33 | words joined by one whitespace character split back into the same words |
| Args.InputMissing | main.go:26-28 | `-i` counts as missing exactly when it is all whitespace |
| Args.ParseArgs | main.go:31-34 | every argument is non-empty and has no whitespace; a blank `-args` gives no arguments |
| Args.ParseArgsIsFieldsOfStripped | main.go:32-33 | the argument list is always the fields of the value after trimming whitespace and stripping every leading and trailing `'` |
| Args.ParseArgsEmpty | main.go:31-34 | no arguments exactly when only whitespace is left once the outer quotes are gone |
| Args.ParseArgsOfQuotedJoin | main.go:30-33 | words joined by spaces, with any number of `'` before and after, come back as exactly those words, provided the first word does not start and the last word does not end with `'` |
| Args.JoinIsUnquotedWordRun | main.go:33 | words joined by spaces neither start nor end with whitespace, and neither start nor end with `'` when the outer words do not |
| Args.StripQuotes | main.go:33 | stripping `'` removes any number of quotes placed on either side of a string that neither starts nor ends with one |
| PipeErrors.ForwarderLogs | main.go:74-94 | the stderr copy and the stdout scan log for exactly the same errors, and each logged line starts with its own task prefix, so the two never log the same text |
| PipeErrors.IsBenignPipeError | main.go:116-124 | no error is not benign; an error is benign exactly when its message contains one of the three markers |
| PipeErrors.BenignWhenMarkerEmbedded | main.go:121-123 | a message embedding a marker anywhere is benign |
| PipeErrors.StreamErrorLog | main.go:74-94 | the stderr copy and the stdout scan each log an error exactly when it is present and its message contains none of the three markers, and then the logged text carries the whole message after the task's prefix |
| PipeErrors.StreamErrorLogSilence | main.go:74-94 | a forwarding task stays silent on no error and on any message that embeds a marker, whatever surrounds it, and logs every message that embeds none |
| Readiness.ReadyBanner | main.go:65 | the banner ends with a newline and names the trigger between the fixed lead and a closing parenthesis, so it contains the trigger |
| Readiness.Echo | main.go:87 | every line is written once, in order, with a newline appended |
| Readiness.FirstHelpLine | main.go:88 | finds the first line that contains the marker as a substring, or reports that no line does |
| Readiness.FirstHelpLineAt | main.go:88 | the first marker line is determined by its defining property |
| Readiness.FirstHelpLineAppend | main.go:85-90 | a new line becomes the first marker line only if there was none and it contains the marker |
| Readiness.LineOutput | main.go:86-90 | one line writes its echo, plus the READY banner exactly when it carries the marker and the latch had not fired |
| Readiness.ScanOutputShape | main.go:85-90 | gives the meaning of `ScanOutput`: every line echoed in order, plus the READY banner once, directly after the first marker line, and no banner when no line carries the marker |
| Readiness.ScanOutputAppend | main.go:85-90 | one more line adds its echo, then the banner if and only if this line fires the latch |
| Readiness.Consumed | main.go:66-67 | the scan reads all lines unless a failed `Ready` ends the process at the first marker |
| Readiness.ScanEnds | main.go:85-91 | the loop reads the whole stream unless `Ready` fails, and what it read decides the latch as the whole stream would |
| Readiness.PrefixFirstHelpLine | main.go:85-90 | a marker found in a prefix is the first marker of the whole stream |
| Readiness.Latch.constructor | main.go:62 | a new latch has not fired, has made no `Ready` calls and has written nothing |
| Readiness.Latch.Ready | main.go:63-70 | the first call prints the banner and calls `Ready` once, and a failure is fatal; later calls change nothing |
| Readiness.Latch.OnLine | main.go:86-90 | echoes the line; fires the latch exactly when the line contains the marker and the latch has not fired yet; never resets it |
| Readiness.Latch.Scan | main.go:85-91 | after a scan, `Ready` was called once if some line contains the marker and never otherwise; output is `ScanOutput` of the lines read |
| Readiness.ScanMore | main.go:85-91 | once fired, further lines are only echoed: no second `Ready`, no reset |
| Heartbeat.FirstFailure | main.go:108-109 | finds the first failed ping, or reports that all succeed |
| Heartbeat.FirstFailureAt | main.go:108-109 | the first failure is determined by its defining property |
| Heartbeat.Rounds | main.go:107-112 | `n` successful loop iterations make a trace of `2n` steps |
| Heartbeat.RoundsAlternate | main.go:107-112 | in the trace, pings and waits alternate, starting with a ping |
| Heartbeat.PingsRounds | main.go:107-112 | `n` rounds make `n` `Health` calls, and a final failed ping makes one more |
| Heartbeat.DoHealth | main.go:105-113 | pings and waits alternate, starting with a ping; the loop ends fatally exactly at the first failure, after that many pings plus one, and otherwise makes one round per outcome |
| Supervisor.Configure | main.go:26-34 | no configuration exactly when `-i` is blank; otherwise the raw `-i` path with the parsed `-args` |
| Supervisor.Run | main.go:36-101 | the steps attempted are a prefix of the plan, cut at the failing step; the reason is the first failing external step (SDK, stdout pipe, stderr pipe, start) and each reason occurs exactly when that step fails after all earlier ones succeed; the child is waited on exactly when every earlier step succeeds, and its exit is fatal with `Wait`'s own result |
| Supervisor.Main | main.go:21-102 | a blank `-i` is fatal before anything is attempted, and only a blank `-i` ends that way |
| Supervisor.WaitIsTerminal | main.go:100-101 | the wait on the child is the last step, and returning from it always ends in a fatal exit |
| Supervisor.RunStartsChild | main.go:37-97 | the child is started with the configured path and arguments, after the SDK, heartbeat, pipes and forwarders are set up |

## Left out

- Goroutines and the atomicity of `sync.Once` (main.go:43, 62-95). The latch is modelled sequentially, and races between concurrent callers are not modelled.
- The order in which the heartbeat failing, `Ready` failing and the child exiting happen relative to one another. Each is modelled as its own sequence.
- The Agones SDK (`NewSDK`, `Ready`, `Health`). These are foreign calls, so they appear only as supplied success or failure outcomes.
- `os/exec`, the pipes, and the byte-for-byte `io.Copy` of stderr (main.go:48-57, 73-77). This is OS I/O. Only the copy's error classification is modelled.
- `time.Tick` and its 2-second period. Time is reduced to one wait step between pings.
- The exits that are not a `log.Fatal`: `flag.Parse` exiting on `-h` or an unknown flag (main.go:24), and the process being killed by a signal such as SIGTERM.
- `flag.Parse` and `bufio.Scanner`. The scanner's `\r` stripping and token-size limit are not modelled, and stdout is taken as an already-split sequence of lines.
- The informational `fmt.Println`/`Printf` lines of `main` (main.go:36, 42, 45-46) and the text of each `log.Fatal` message. The fatal exit is a `Reason` value.
- The `log.Printf` date/time header before each logged line is not modelled; `StreamErrorLog` gives only the text after it.
- Unicode whitespace. `TrimSpace` and `Fields` use only the ASCII whitespace set, so U+0085, U+00A0 and other Unicode spaces are not treated as whitespace.
- Heartbeat.DoHealth: models a finite outcome sequence. In `doHealth`, a run of pings that never fails loops forever; here the loop stops when the outcomes run out.
- Readiness.Latch.Scan: takes one outcome for `Ready`. That is enough because `Ready` is called at most once.
