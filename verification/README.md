# sws — a Dafny model of the live-reload core

sws serves a static site from a mirror of the source tree. The mirror is a
copy in which every HTML page loads a small websocket client script. A
filesystem watcher re-mirrors each file that is written and announces the
file's path relative to the source root. A dispatcher broadcasts that path
to every connected page, which then reloads.

This project models, as pure functions over immutable values:

- **Script injection** (`WsInject`). `injectScript` splices the
  `delta-streamer.js` tag in front of the first `</head>`, and
  `injectWebsocketScript` applies it to HTML only.
- **Mirroring** (`WsInject`). This covers the relative-path computation,
  `mirrorFile`, the walk callback `mirrorMaker`, `wsInjectMaster` and
  `Setup`. The mirror path and the reload announcement use the relative
  path as the code computes it, with `strings.Replace(…, -1)`; the
  prefix-only computation is kept beside it as the corrected one.
- **The watcher loop** (`WsInject`). `Start` and `handleFileEvent` run over
  a sequence of channel inputs.
- **The dispatcher** (`DeltaStreamer`). `wsDispatcherStart` runs over
  received pages, the close of the page channel, and registrations and
  removals of subscribers.
- **Command-line dispatch** (`Cli`). This covers `Parse`, `isHelp`, the
  alias table `commands` and `ArgNotFoundError.Error`.
- **The exit-code pipeline of main.go** (`MainProgram`). This covers
  `printHelp`, `run`, and how `main` wires the console and the shutdown
  monitor.
- **The console helpers** (`Ancli`, and `Helpers` for the copy in package
  `helpers`). This covers `truthy`, `ColoredMessage`, the routing of
  `printStatus` between a writer and the structured logger, `PrintWarn`
  gating and the environment-driven initial settings.
- **The shutdown monitor** (`Shutdown`). It is a signal counter:
  - the first signal cancels;
  - the second signal only warns;
  - the third signal forces exit code 1.

  The monitor returns as soon as its context is done. In `main` that
  context is the one its own first `cancel` ends, which the model follows;
  a second wiring, in which only the end of `run` makes it done, is kept as
  the corrected one.
- **The Go library pieces the core relies on** (`GoStrings`). These are:
  - `strings.Index`;
  - `strings.Replace(s, old, "", -1)`;
  - `strings.Split`, `strings.HasPrefix`, `strings.ToLower` and
    `strings.TrimSpace`;
  - the `%d` verb.

  Each one is defined the way the library computes it.

The following are parameters of the model:

- content sniffing (`http.DetectContentType`): `isHtml`;
- the filesystem: a map from paths to bytes, plus a set of paths where
  writes fail;
- the watcher's refusals: `unwatchable`;
- the outcome of a command's flag parse (accepted, an error returned to `run`, or the
  flag package's own exit), and whether `Setup` and `Run` succeed: `Behaviour`;
- environment variables: strings.

Channels and `select` loops become sequences of inputs.

A failed read, write or mkdir during the initial mirroring does not come
back from `Setup` as an error: `wsInjectMaster` ends the process with
`log.Fatalf` on any walk or callback error (internal/wsinject/wsinject.go,
lines 100-102). Such a failure is the outcome `SetupExit` of
`WsInject.Setup`.

## Model

| member | source | states |
|---|---|---|
| `GoStrings.Index` | internal/wsinject/wsinject.go:109 | The result is -1 exactly when the pattern does not occur. Otherwise the pattern occurs at the result and at no earlier position. |
| `GoStrings.RemoveAll` | internal/wsinject/wsinject.go:165 | Deleting every occurrence never lengthens the string. An empty or absent pattern leaves it unchanged. A present pattern shortens it by at least the pattern's length. |
| `GoStrings.RemoveAllFirst` | internal/wsinject/wsinject.go:165 | The first occurrence is deleted, the text before it is kept as it is, and the scan goes on after it: together with the absent-pattern case this fixes the result for every input. |
| `GoStrings.RemoveAllSingle` | internal/wsinject/wsinject.go:165 | A one-character pattern that occurs exactly once is cut out, and the two sides are joined. |
| `GoStrings.HasPrefix` | cmd/setup.go:46 | The prefix test: the string begins with the given prefix. |
| `GoStrings.Split` | cmd/setup.go:56 | There is always at least one piece, and no piece contains the separator. |
| `GoStrings.SplitPair` | cmd/setup.go:27-28 | Two separator-free pieces joined by one separator split back into exactly those two pieces. |
| `GoStrings.JoinSplit` | cmd/setup.go:56 | Joining the pieces with the separator gives back the original string, so `Split` loses nothing. |
| `GoStrings.ToLower` | helpers/ancli/ancli.go:124 | The length is kept, and each character is lower-cased in place. |
| `GoStrings.TrimLeftSpec` | helpers/ancli/ancli.go:124 | Left trimming removes an all-space prefix and stops at the first character that is not space. |
| `GoStrings.TrimRightSpec` | helpers/ancli/ancli.go:124 | Right trimming removes an all-space suffix and stops at the last character that is not space. |
| `GoStrings.TrimSpace` | helpers/ancli/ancli.go:124 | The result is no longer than the input and neither starts nor ends with white space. |
| `GoStrings.TrimSpacePadding` | helpers/ancli/ancli.go:124 | White space around a string does not change what `TrimSpace` returns. |
| `GoStrings.Decimal` | helpers/ancli/ancli.go:38 | The `%d` text is non-empty and made of digits and a minus sign only. |
| `GoStrings.DecimalRoundTrip` | helpers/ancli/ancli.go:38 | The `%d` rendering of any integer, negative ones included, reads back to that integer. |
| `WsInject.InjectScript` | internal/wsinject/wsinject.go:106-129 | Two cases: (1) without `</head>` the input comes back unchanged with `ErrNoHeaderTagFound`, and only then; (2) otherwise the tag is spliced in at the first `</head>` and the length grows by the tag's length. |
| `WsInject.InjectSplitsAtFirstHead` | internal/wsinject/wsinject.go:114-128 | The output is made of three parts: (1) the input up to the first `</head>`, which contains no `</head>` itself; (2) the tag; (3) the rest of the input. |
| `WsInject.InjectWebsocketScript` | internal/wsinject/wsinject.go:131-150 | It never returns an error. It reports injection exactly for HTML that has a `</head>`. When nothing is injected the bytes are passed through. |
| `WsInject.InjectedPageLoadsScript` | internal/wsinject/wsinject.go:139-149 | An injected page contains the name `delta-streamer.js` and is longer by exactly the tag's length. |
| `WsInject.RelativePathAsWritten` | internal/wsinject/wsinject.go:165 | The Go computation leaves the path unchanged when the master path is empty or absent. It never lengthens the path. Which occurrences it deletes is stated by `GoStrings.RemoveAllFirst`. |
| `WsInject.RelativePathAsWrittenOfChild` | internal/wsinject/wsinject.go:165 | For `master + "/" + name`, with no other occurrence of the master path, the result is `"/" + name`. |
| `WsInject.RelativePathAsWrittenCollides` | internal/wsinject/wsinject.go:206-209 | Under master `/w`, both `/w/a.html` and `/w/w/a.html` map to `/a.html`. |
| `WsInject.RelativePath` | internal/wsinject/wsinject.go:207-208 | The corrected computation: the master path followed by the result is the original path. A path outside the master is left as it is. |
| `WsInject.RelativePathInjective` | internal/wsinject/wsinject.go:207-208 | Distinct files under the master get distinct relative paths. |
| `WsInject.RelativePathAgrees` | internal/wsinject/wsinject.go:165 | When the master path occurs only as the leading prefix, the Go computation and the corrected one agree, and both give the rest of the path. |
| `WsInject.JoinPath` | internal/wsinject/wsinject.go:178 | The joined path starts with the first operand and ends with the second. This is `path.Join`'s result only for the operands named under "## Left out". |
| `WsInject.DirOf` | internal/wsinject/wsinject.go:179 | A path without a slash has directory `.`. Otherwise the directory is `/` or the part of the path before its last slash. |
| `WsInject.MirrorKeepsRelativePath` | internal/wsinject/wsinject.go:165-178 | When the master path occurs in `rel` nowhere, the file at `master + rel` is mirrored at `mirror + rel`, which is also where the corrected relative path puts it. |
| `WsInject.WriteEventsCollide` | internal/wsinject/wsinject.go:164-215 | Under master `/w`, writes to `/w/a.html` and to `/w/w/a.html` go to the same mirrored file and both announce `/a.html`. |
| `WsInject.RelativeMasterCollides` | internal/wsinject/wsinject.go:165-178 | Under the relative master `site`, `site/a.html` gets `/a.html` and `site/site/a.html` gets `//a.html`, an operand `path.Join` cleans onto the same file; a walk over the two files does not have separate mirrors. |
| `WsInject.DotMasterDropsDots` | internal/wsinject/wsinject.go:165 | With master `.`, the walked file `index.html` gets the relative path `indexhtml`. |
| `WsInject.MirrorFile` | internal/wsinject/wsinject.go:164-189 | The call fails (with a read error for a missing file) unless the file exists and neither the directory nor the destination refuses writes. On success: only the mirrored path is written, it receives the injected bytes, and every other file and the failing set are unchanged. |
| `WsInject.MirrorMaker` | internal/wsinject/wsinject.go:191-204 | A walk error is passed on. A directory is added to the watch list, or fails when the watcher refuses it. A file succeeds exactly when mirroring it succeeds. |
| `WsInject.WsInjectMaster` | internal/wsinject/wsinject.go:99-104 | A completed walk has watched exactly the walked directories, in order, and left the failing paths as they were. |
| `WsInject.MasterCoversTree` | internal/wsinject/wsinject.go:99-104 | A completed walk keeps every existing file, and a file exists at the mirrored path of every walked file. |
| `WsInject.MasterFrame` | internal/wsinject/wsinject.go:164-189 | A file onto which no walked file is mirrored keeps its contents through the walk. |
| `WsInject.MasterMirrorsContents` | internal/wsinject/wsinject.go:99-104 | When every relative path is one `path.Join` keeps as it is, and the mirrored paths are distinct and none is itself a walked file, every walked file was read and its mirrored path holds its contents with the script injected. |
| `WsInject.WalkErrorIsFatal` | internal/wsinject/wsinject.go:100-102 | Any entry that carries a walk error ends in the process exit, never in a returned error. |
| `WsInject.Setup` | internal/wsinject/wsinject.go:58-76 | It fails if the watcher cannot be created. On success: it returns the mirror root, the client script sits at the mirror root, and the watch list is the walked directories. After a completed walk, it succeeds exactly when the script can be written. |
| `WsInject.HandleFileEvent` | internal/wsinject/wsinject.go:206-217 | Non-write events change nothing and announce nothing. A write re-mirrors the file, leaving the mirror as it was if mirroring fails, and announces exactly one relative path, computed with `strings.Replace` as written. |
| `WsInject.StartStep` | internal/wsinject/wsinject.go:80-97 | Cancellation returns nil. A closed event or error channel returns its error, and so does a watcher error. Only a file event keeps the loop running. |
| `WsInject.Start` | internal/wsinject/wsinject.go:80-97 | The loop never reads more inputs than there are. It is still running exactly when it read all of them and the last was a file event. |
| `WsInject.StartTrace` | internal/wsinject/wsinject.go:81-96 | The loop reads inputs up to and including the first input that is not an event. It ends as that input dictates. It announces one path per write event before that input, in order. |
| `DeltaStreamer.Broadcast` | internal/wsinject/delta_streamer.go:19-25 | Each registered channel receives the page once, appended to what it already had. Unregistered channels and the registry are untouched. |
| `DeltaStreamer.CloseAll` | internal/wsinject/delta_streamer.go:7-17 | The loop stops, and every registered channel is closed with its contents kept. Other channels are untouched. |
| `DeltaStreamer.Step` | internal/wsinject/delta_streamer.go:6-26 | Each input preserves the dispatcher invariant, which has two parts: every registered subscriber has a channel, and no channel is closed while the loop runs. The loop stops exactly on the close of the page channel. |
| `DeltaStreamer.Run` | internal/wsinject/delta_streamer.go:5-27 | The dispatcher invariant holds when the loop stops, and the loop never reads more inputs than there are. |
| `DeltaStreamer.RunStopsAtClose` | internal/wsinject/delta_streamer.go:7-18 | The loop reads through the first close of the page channel and nothing after it. It is still running exactly when no close came. |
| `DeltaStreamer.SteadySubscriberSeesAll` | internal/wsinject/delta_streamer.go:20-25 | A subscriber registered throughout receives every page sent before the close, once each and in order. Its channel is closed exactly when the close came. |
| `DeltaStreamer.AbsentSubscriberGetsNothing` | internal/wsinject/delta_streamer.go:10-25 | A subscriber that is not registered receives nothing, and its channel is not closed. |
| `DeltaStreamer.DispatcherOnlyReadsRegistry` | internal/wsinject/delta_streamer.go:5-27 | The dispatcher itself never adds to or removes from the registry. |
| `Cli.ScanArgs` | cmd/setup.go:40-53 | A help word seen before the first non-flag wins. Otherwise the candidate is the first non-flag argument, or "" when every argument is a flag. |
| `Cli.LaterArgumentsIgnored` | cmd/setup.go:50-52 | Arguments after the first non-flag do not change the scan. |
| `Cli.IsHelp` | cmd/setup.go:76-78 | The four help words `-h`, `-help`, `h` and `help`. |
| `Cli.LookupIn` | cmd/setup.go:55-61 | A command is found only through a key whose aliases contain the candidate. No command is found only when no key has it as an alias. |
| `Cli.LookupOrderIndependent` | cmd/setup.go:55-61 | If no two keys share an alias, every iteration order of the map gives the same lookup result. |
| `Cli.CommandsEnumerated` | cmd/setup.go:26-29 | The listed order enumerates exactly the keys of the command table. |
| `Cli.AliasesOf` | cmd/setup.go:26-29 | Splitting any key of the table at `\|` gives exactly the aliases of its command: `s` and `serve` for the server, `v` and `version` for the version printer. |
| `Cli.CommandsAliasesDistinct` | cmd/setup.go:26-29 | No alias of the command table belongs to two keys. |
| `Cli.LookupCommands` | cmd/setup.go:55-63 | `s` and `serve` select the server, `v` and `version` select the version printer, and anything else selects nothing. |
| `Cli.Parse` | cmd/setup.go:35-64 | With no arguments: `ErrNoArgs`. `ErrHelpful` exactly when a help word comes before the first non-flag. Otherwise the first non-flag decides the command or `ArgNotFoundError`, and all-flag arguments give `ArgNotFoundError("")`. A command is returned exactly when no error is. |
| `Cli.ParseOrderIndependent` | cmd/setup.go:55-61 | `Parse` gives the same result for every iteration order of the command map. |
| `Cli.ParseIgnoresTrailing` | cmd/setup.go:41-53 | Arguments appended after the command name do not change what `Parse` returns. |
| `Cli.ArgNotFoundMessageNeverReturns` | cmd/types.go:33-35 | `ArgNotFoundError.Error` as written produces no message at any stack depth. |
| `Cli.ArgNotFoundMessage` | cmd/types.go:33-35 | The corrected message is the quoted argument followed by `' is not a valid argument`. |
| `Cli.ArgNotFoundMessageInjective` | cmd/types.go:33-35 | Different arguments give different corrected messages. |
| `MainProgram.PrintHelp` | main.go:14-33 | The exit code is 0 exactly for `ErrHelpful` and 1 otherwise. Usage is printed for `ArgNotFoundError` and `ErrNoArgs`. Help is printed only for `ErrHelpful` with a command; without a command, usage is printed instead. Other errors print `unknown error: ...`. |
| `MainProgram.PrintHelpAsWrittenOverflows` | main.go:16-18 | As written, every `ArgNotFoundError` exhausts the stack before anything is printed. Every other error behaves as in the corrected `PrintHelp`. |
| `MainProgram.FlagArgs` | main.go:41-45 | The flag set receives everything after the second argument, or nothing when there are at most two arguments. |
| `MainProgram.Steps` | main.go:47-62 | The steps run in order: flag parse, `Setup`, `Run`. A step is reached only when every earlier step succeeded. A flag set that exits on its own ends the process with its code after the parse, and nothing else runs. Otherwise the first failure is reported last and gives 1, and all successes give 0. |
| `MainProgram.Run` | main.go:35-63 | A parse error returns exactly the corrected `printHelp`'s result. No command with no error panics. Otherwise the command's steps run on the flag arguments. |
| `MainProgram.ExitOnErrorBypassesRun` | main.go:51-54 | For a command whose flag set exits on error, as the server's does, `run` never reports a failed flag parse: the flags are accepted and `Setup` is called, or the process ends in `fs.Parse` with 0 or 2. |
| `MainProgram.RunWithParse` | main.go:35-63 | With `cmd.Parse` and the corrected `printHelp`, `run` never panics. It ends inside the flag parse exactly when a command is found and its flag set exits on its own. Otherwise it returns, with 0 exactly on a help request or when a command is found and all its steps succeed. |
| `MainProgram.ParseErrorTouchesNoCommand` | main.go:36-39 | After a parse error, no flag parse, `Setup` or `Run` happens. |
| `MainProgram.UnknownCommandExitsOne` | main.go:36-39 | An unknown command name prints its corrected message and the usage, and exits with 1. |
| `MainProgram.MainConsole` | main.go:66-68 | `main` turns on newlines and slog printing and installs the logger. The colour and warning settings are kept. |
| `MainProgram.MainPrintsThroughLogger` | main.go:66-68 | Under `main`'s settings every status line becomes a log record. |
| `MainProgram.ProcessExit` | main.go:69-77 | The exit code differs from `run`'s only when the monitor forces 1, which needs the signal to win the random choice against the done context twice. Once the monitor has returned, the process exits with `run`'s code when `run` returns, and waits while it has not. |
| `MainProgram.CtrlCLeavesCodeToRun` | main.go:69-77 | One Ctrl-C, then a pass of the monitor's `select` with no further signal waiting: later signals change nothing, and the exit code is `run`'s. |
| `Ancli.Truthy` | helpers/ancli/ancli.go:113-136 | Nil and the empty string are never truthy. A truthy string trims and lower-cases to `1` or `true`. |
| `Ancli.TruthyStringIsPadded` | helpers/ancli/ancli.go:119-130 | A truthy string is `1` or `true`, in any case, surrounded by white space. |
| `Ancli.PaddedIsTruthy` | helpers/ancli/ancli.go:119-130 | `1` or `true`, in any case and with any surrounding white space, is truthy. |
| `Ancli.TruthyStringMeans` | helpers/ancli/ancli.go:119-130 | A string is truthy exactly when it is a padded truth word; the empty string is not. |
| `Ancli.TruthyMeans` | helpers/ancli/ancli.go:113-136 | Each case of the type switch: (1) a boolean is itself; (2) an integer is truthy exactly when it is 1; (3) a string is truthy when it is a padded truth word; (4) nil is not truthy; (5) any other value is. |
| `Ancli.ColoredMessage` | helpers/ancli/ancli.go:37-39 | The message is wrapped in `ESC [` and the reset sequence `ESC [0m`. Its length is the code's digits plus the text plus 7. |
| `Ancli.ColoredMessageRoundTrip` | helpers/ancli/ancli.go:37-39 | The colour code and the text are read back from the coloured message. |
| `Ancli.PrintStatus` | helpers/ancli/ancli.go:49-81 | Exactly one line or record is emitted. Slog stays on unless the logger is missing. The output is a log record exactly when slog is on and the logger exists. With slog off, the plain line goes to the requested sink. A missing logger gives only the error report on stderr. |
| `Ancli.PrintErr` | helpers/ancli/ancli.go:41-43 | The output is an error-level record, or a line on stderr. |
| `Ancli.PrintNotice` | helpers/ancli/ancli.go:83-85 | The output is an info-level record ending in a newline, or a line on stdout. |
| `Ancli.PrintOK` | helpers/ancli/ancli.go:91-93 | The output is an info-level record ending in a newline, or a line on stdout. |
| `Ancli.PrintWarn` | helpers/ancli/ancli.go:103-107 | With warnings off nothing is emitted and nothing changes. With warnings on, one warn-level record or line is emitted. |
| `Ancli.SetupSlog` | helpers/ancli/ancli.go:32-35 | The logger is installed and slog is on. Other settings are kept. |
| `Ancli.InitConfig` | helpers/ancli/ancli.go:13-19 | Colour is on unless `NO_COLOR` is exactly `true`. Warnings are off exactly when `NO_WARNINGS` is a padded truth word. Newlines are on exactly when `ANCLI_NEWLINE` lower-cases to `true`. |
| `Ancli.AfterSetupEverythingSlogs` | helpers/ancli/ancli.go:32-35 | After `SetupSlog`, every print is a log record and the settings stay as they are. |
| `Ancli.SlogLevelIgnoresColor` | helpers/ancli/ancli.go:50-76 | The level is chosen on the raw status, so turning colour on or off never changes it. |
| `Ancli.SlogRouting` | helpers/ancli/ancli.go:66-76 | `ok` and `notice` are Info, `error` is Error, and anything else is Warn. Every slog text ends in a newline. |
| `Ancli.MissingLoggerDropsMessage` | helpers/ancli/ancli.go:60-64 | With no logger, the message, the status and the sink make no difference to what is printed. |
| `Ancli.NewlineOnlyAppends` | helpers/ancli/ancli.go:55-58 | `Newline` only appends a line break to the plain line. |
| `Ancli.ColorOnlyWrapsStatus` | helpers/ancli/ancli.go:51-53 | Colour wraps only the status, which can be read back. The rest of the plain line is the same. |
| `Ancli.EnvironmentAsymmetry` | helpers/ancli/ancli.go:16-17 | A padded or capitalised `true` in both variables turns warnings off but leaves colour on. |
| `Helpers.ColoredMessage` | helpers/ancli.go:34-36 | The colour code and the text are read back from the coloured message. |
| `Helpers.SetupSlog` | helpers/ancli.go:29-32 | The logger is installed and slog is on. The colour and newline settings are kept. |
| `Helpers.PrintStatus` | helpers/ancli.go:38-70 | A missing logger turns slog off and hands the report to the package's `PrintErr`, dropping the message. Otherwise exactly one line or record is emitted. |
| `Helpers.SameAsAncli` | helpers/ancli.go:38-70 | With a logger installed or slog off, the copy emits exactly what package `ancli` emits. |
| `Helpers.MissingLoggerHandsOn` | helpers/ancli.go:49-53 | With no logger, both copies turn slog off and drop the message. Only the reporting path differs. |
| `Helpers.SlogRouting` | helpers/ancli.go:55-65 | The slog level follows the raw status, as in package `ancli`. |
| `Helpers.AfterSetupEverythingSlogs` | helpers/ancli.go:29-32 | After `SetupSlog`, every print is a log record. |
| `Shutdown.OnSignal` | helpers/shutdown/shutdown.go:24-33 | Only the first signal's response cancels, and only the third one's calls `os.Exit(1)`. |
| `Shutdown.Step` | helpers/shutdown/shutdown.go:19-35 | A pass of `select` returns only when the context is done and a waiting signal does not win the random choice. It forces exit code 1 only on a signal handled after two others. It blocks when nothing is ready. |
| `Shutdown.Loop` | helpers/shutdown/shutdown.go:19-35 | The loop reads no more inputs than there are and all of them while it listens. A forced exit has code 1 and ends with the `os.Exit` call. |
| `Shutdown.Monitor` | helpers/shutdown/shutdown.go:15-36 | The monitor reads no more inputs than there are, and a forced exit has code 1. |
| `Shutdown.OnSignalCancels` | helpers/shutdown/shutdown.go:24-31 | The response to the first signal calls `cancel` once; no other response calls it. |
| `Shutdown.LoopCancels` | helpers/shutdown/shutdown.go:19-35 | From any state, `cancel` is called at most once more, and not at all once a signal has been handled. |
| `Shutdown.CancelAtMostOnce` | helpers/shutdown/shutdown.go:16-33 | `cancel` is called at most once, under either wiring. |
| `Shutdown.ExitNeedsRaces` | helpers/shutdown/shutdown.go:20-31 | Once a signal has been handled the context is done, so each signal still needed for the forced exit must win the random choice against `Done`. |
| `Shutdown.ExitNeedsTwoWonRaces` | helpers/shutdown/shutdown.go:20-31 | As `main` wires it, the monitor forces the exit only if the signal wins the random choice at least twice. |
| `Shutdown.QuietAfterCancel` | helpers/shutdown/shutdown.go:20-28 | After the first signal, the next pass of `select` without a waiting signal returns: one warning and one `cancel`, nothing more. |
| `Shutdown.ForcedByWonRaces` | helpers/shutdown/shutdown.go:20-31 | Two further signals that each wait in the buffer and win the random choice do force exit code 1. |
| `Shutdown.DoneFirstDoesNothing` | helpers/shutdown/shutdown.go:21-22 | When `run` ends before any signal, the next pass of `select` returns and the monitor does nothing. |
| `Shutdown.CorrectedListensUntilRunEnds` | helpers/shutdown/shutdown.go:12-14 | With the corrected wiring, the monitor returns only if `run` has ended. |
| `Shutdown.CorrectedReturnsOnlyAfterRun` | helpers/shutdown/shutdown.go:12-14 | With the corrected wiring, a monitor that returned has seen `run` end. |
| `Shutdown.CorrectedLaterSignals` | helpers/shutdown/shutdown.go:27-31 | With the corrected wiring, a second signal warns and a third forces exit code 1, whatever the random choices. |
| `Shutdown.CorrectedForcesOnThirdSignal` | helpers/shutdown/shutdown.go:12-31 | With the corrected wiring, three signals while `run` works give a warning, a `cancel`, a second warning, the forcing message and exit code 1, whatever the random choices. |

## Left out

- I/O is represented by values. The filesystem is a map plus a set of failing paths, printing is a list of emissions, and channels are input sequences. Goroutines, blocking and the interleaving of the connection handlers with the dispatcher are not modelled beyond the input order.
- `http.DetectContentType` is the parameter `isHtml`; the sniffing algorithm is not modelled.
- `WsInject.JoinPath` is `path.Join` only for a clean first operand and a second operand `WsInject.JoinOperandClean` accepts. An operand with repeated slashes, a trailing slash or a `.` or `..` element is joined without cleaning, so its result can differ from the file Go writes. `WsInject.RelativePathAsWritten` produces such operands for nested occurrences of the master path (`WsInject.RelativeMasterCollides`); `WsInject.MasterMirrorsContents` requires them absent, and `WsInject.MirrorFile`'s key for them is not Go's path.
- `WsInject.DirOf` is `path.Dir` for clean paths only.
- The text of the client script (`deltaStreamerSourceCode`, and the websocket port, path and force-reload flag formatted into it) is the parameter `script` of `WsInject.Setup`. The script handlers and the HTTP server in cmd/server are not part of this model.
- `NewFileServer` is not modelled. It creates the mirror directory with `os.MkdirTemp` and panics on failure. The mirror root is a field of `WsInject.Server`.
- The notice lines printed by the loops and by `mirrorFile` are not modelled. Neither is the text of the `%e`-formatted error messages; a failed `run` step is recorded as `StepFailed(step)`.
- `PrintUsage`, `formatCommandDescriptions` and the commands' `Help`, `Describe` and `Flagset` texts are not modelled; cmd/version is not part of this model.
- The ANSI-printing slog handler (helpers/ansiprint) is not modelled: a record is its level and text.
- `PrintfErr`, `PrintfNotice`, `PrintfOK`, `Okf` and `PrintfWarn` format their arguments with `fmt.Sprintf` and then behave as the plain versions. They are not modelled separately.
- `GoStrings.ToLower` maps ASCII letters only. This is exact for the comparisons the code makes with `1` and `true`. No other letter lower-cases to one of those characters, but non-ASCII letters would differ in general output.
- `Cli.Parse` requires at least one argument. `args[1:]` panics in Go on an empty list, and `os.Args` always holds the program name.
- `MainProgram.Run`: a parse error goes to the corrected `printHelp`, so an unknown command returns 1; as written it exhausts the stack (`MainProgram.PrintHelpAsWrittenOverflows`).
- `MainProgram.RunWithParse`: "`run` never panics" holds with the corrected `printHelp` only, for the same reason. The flag set's own exit (codes 0 and 2 for `flag.ExitOnError`) is a parameter of `Behaviour`; the flag package's parsing and usage text are not modelled, nor is `flag.PanicOnError`, which no command uses.
- `MainProgram.ProcessExit` takes `run`'s exit code as a given value; `WaitingForRun` stands for `main` blocked on `exitCodeChan`. SIGINT and SIGTERM are not told apart.
- `WsInject.StartStep` treats each `select` input as already chosen. Go's random choice among ready channels is represented by the order of the input sequence. In `Shutdown` the random choice is an explicit input instead, because whether `Done` is ready depends on the monitor's own actions.

## Findings

| source | as written | input that shows it | evidently intended | confidence | as-written member | corrected member |
|---|---|---|---|---|---|---|
| internal/wsinject/wsinject.go:165 | `strings.Replace(path, masterPath, "", -1)` deletes every occurrence of the master path, including occurrences deeper in the path; the same expression computes the reload path at line 208 | master `/w`, files `/w/a.html` and `/w/w/a.html`: both become `/a.html`, so one mirror file overwrites the other and both announce the same page; relative master `site` (from `sws serve site`), files `site/a.html` and `site/site/a.html`: `/a.html` and `//a.html`, which `path.Join` cleans onto the same mirror file; master `.` turns `index.html` into `indexhtml` | remove the master path only as a leading prefix (`strings.TrimPrefix`), which keeps the source-to-mirror mapping one-to-one | high, not executed | `WsInject.WriteEventsCollide` | `WsInject.RelativePathInjective` |
| cmd/types.go:33-35 | `ArgNotFoundError.Error` formats the result of calling `err.Error()` on itself, so it recurses without end | `sws blheruh`: `printHelp` calls `err.Error()` and the goroutine exhausts its stack instead of printing the message and returning 1 | format the argument itself, `'blheruh' is not a valid argument`, then print usage and exit with 1 | high, not executed | `MainProgram.PrintHelpAsWrittenOverflows` | `MainProgram.PrintHelp` |
| helpers/shutdown/shutdown.go:20-31 | the `cancel` that the first signal calls is `main`'s own (main.go:69 and 76), so the context the `select` waits on is done from then on, and the monitor returns at its next pass unless a second signal is already waiting and wins Go's random choice | Ctrl-C three times, a moment apart, while the server runs: the monitor returns after the first, later signals are swallowed by `signal.Notify`, and the process waits for `run` instead of forcing exit code 1 | the monitor keeps listening until `run` has ended, so a second signal warns and a third forces the exit, as its comment and the "cancel again to force shutdown" warning promise | high, not executed | `Shutdown.ExitNeedsTwoWonRaces` | `Shutdown.CorrectedForcesOnThirdSignal` |

For the first and third rows the rest of the model follows the code as
written: `WsInject.MirrorFile`, `WsInject.HandleFileEvent` and
`WsInject.StartTrace` use `strings.Replace`, and `MainProgram.ProcessExit`
uses `Shutdown.Monitor`. The corrected definitions (`WsInject.RelativePath`,
`Shutdown.MonitorCorrected`) carry the intended properties, and
`WsInject.RelativePathAgrees` shows that both relative paths coincide
whenever the master path occurs only at the start.
