/** main.go: `printHelp`, which turns a command-line error into an exit
    code, `run`, which drives a parsed command through its flag set,
    `Setup` and `Run`, and the wiring of `main` (console setup, and the
    exit code the process ends with, given what the shutdown monitor
    does).

    A command's behaviour is a parameter: what its flag set makes of the
    arguments, and whether `Setup` and `Run` succeed. Printing is recorded
    as effects in the order it happens. */
module MainProgram {
  import opened Wrappers
  import opened Cli
  import Ancli
  import Shutdown

  /** The three steps `run` takes on a parsed command. */
  datatype Step = FlagParse | SetupStep | RunStep

  datatype Effect =
    | ErrPrinted(text: string)                           // ancli.PrintErr / PrintfErr
    | UsagePrinted                                       // printUsage()
    | HelpPrinted(command: Command)                      // fmt.Println(command.Help())
    | FlagsParsed(command: Command, args: seq<string>)   // fs.Parse(cmdArgs)
    | SetupCalled(command: Command)
    | RunCalled(command: Command)
    | StepFailed(step: Step)                             // the PrintfErr line of a failed step

  /** An exit code and what was printed or called on the way. */
  datatype Exit = Exit(code: int, effects: seq<Effect>)

  // ---------------------------------------------------------------------
  // printHelp
  // ---------------------------------------------------------------------

  /** `printHelp` with the corrected `ArgNotFoundError.Error` message. */
  function PrintHelp(command: Option<Command>, err: CliError): (r: Exit)
    ensures r.code == 0 || r.code == 1
    ensures r.code == 0 <==> err == Helpful
    ensures err.ArgNotFound? || err == NoArgs ==> UsagePrinted in r.effects
    ensures err.ArgNotFound? ==> r.effects[0] == ErrPrinted(ArgNotFoundMessage(err.arg))
    ensures err == Helpful ==> r.effects == (if command.Some? then [HelpPrinted(command.value)] else [UsagePrinted])
    ensures forall c :: HelpPrinted(c) in r.effects ==> err == Helpful && command == Some(c)
    ensures err.Other? ==> r.effects == [ErrPrinted("unknown error: " + err.text)]
  {
    match err
    case ArgNotFound(arg) => Exit(1, [ErrPrinted(ArgNotFoundMessage(arg)), UsagePrinted])
    case NoArgs => Exit(1, [UsagePrinted])
    case Helpful => Exit(0, if command.Some? then [HelpPrinted(command.value)] else [UsagePrinted])
    case Other(text) => Exit(1, [ErrPrinted("unknown error: " + text)])
  }

  /** `printHelp` returns, or dies of stack exhaustion. */
  datatype HelpOutcome = Returned(exit: Exit) | StackOverflow

  /** `printHelp` as written: the `ArgNotFoundError` branch evaluates
      `err.Error()`, which never returns however deep the stack may grow
      (`depth`). */
  function PrintHelpAsWritten(command: Option<Command>, err: CliError, depth: nat): HelpOutcome {
    match err
    case ArgNotFound(arg) =>
      (match ArgNotFoundMessageAsWritten(arg, depth)
       case None => StackOverflow
       case Some(text) => Returned(Exit(1, [ErrPrinted(text), UsagePrinted])))
    case _ => Returned(PrintHelp(command, err))
  }

  /** The code as written overflows the stack on every unknown argument,
      before anything is printed; on every other error it behaves like the
      corrected `PrintHelp`. */
  lemma PrintHelpAsWrittenOverflows(command: Option<Command>, err: CliError, depth: nat)
    ensures PrintHelpAsWritten(command, err, depth)
         == if err.ArgNotFound? then StackOverflow else Returned(PrintHelp(command, err))
  {
    if err.ArgNotFound? {
      ArgNotFoundMessageNeverReturns(err.arg, depth);
    }
  }

  // ---------------------------------------------------------------------
  // run
  // ---------------------------------------------------------------------

  /** What a command's flag set does with its arguments: accepts them,
      returns an error to `run` (a `flag.ContinueOnError` set), or ends the
      process inside `fs.Parse` (a `flag.ExitOnError` set). */
  datatype FlagOutcome = FlagsAccepted | FlagsRejected | FlagSetExit(code: int)

  /** What a command does: what its flag set makes of the given arguments,
      and whether `Setup` and `Run` succeed. */
  datatype Behaviour = Behaviour(flags: seq<string> -> FlagOutcome, setupOk: bool, runOk: bool)

  /** A flag set made with `flag.ExitOnError`, as the server's is: an error
      never comes back to `run`; `-h` ends the process with 0 and any other
      bad flag with 2. */
  ghost predicate ExitsOnError(b: Behaviour) {
    forall a :: b.flags(a) == FlagsAccepted || b.flags(a) == FlagSetExit(0) || b.flags(a) == FlagSetExit(2)
  }

  /** `run` returns an exit code, the flag package ends the process while
      `run` parses the flags, or `run` panics when a parser hands it
      neither a command nor an error. */
  datatype RunOutcome = Exited(exit: Exit) | EndedInFlagParse(exit: Exit) | NilCommandPanic

  /** `cmdArgs`: everything after the second argument, wherever the command
      name was found. */
  function FlagArgs(args: seq<string>): (r: seq<string>)
    ensures |args| > 2 ==> args == args[..2] + r
    ensures |args| <= 2 ==> r == []
  {
    if |args| > 2 then args[2..] else []
  }

  /** The calls `run` makes on a command, in order, up to the first failing
      step or the flag package's own exit. */
  function Steps(c: Command, b: Behaviour, flags: seq<string>): (r: RunOutcome)
    ensures !r.NilCommandPanic?
    ensures r.EndedInFlagParse? <==> b.flags(flags).FlagSetExit?
    ensures r.EndedInFlagParse? ==> r.exit == Exit(b.flags(flags).code, [FlagsParsed(c, flags)])
    ensures r.Exited? ==> r.exit.code == 0 || r.exit.code == 1
    ensures r.Exited? ==> (r.exit.code == 0 <==> b.flags(flags) == FlagsAccepted && b.setupOk && b.runOk)
    ensures |r.exit.effects| >= 1 && r.exit.effects[0] == FlagsParsed(c, flags)
    ensures r.Exited? ==> |r.exit.effects| >= 2
    ensures SetupCalled(c) in r.exit.effects <==> b.flags(flags) == FlagsAccepted
    ensures RunCalled(c) in r.exit.effects <==> b.flags(flags) == FlagsAccepted && b.setupOk
    ensures r.Exited? ==> (r.exit.code == 1 <==> r.exit.effects[|r.exit.effects| - 1].StepFailed?)
    ensures forall i :: 0 <= i < |r.exit.effects| - 1 ==> !r.exit.effects[i].StepFailed?
  {
    var parsed := FlagsParsed(c, flags);
    match b.flags(flags)
    case FlagSetExit(code) => EndedInFlagParse(Exit(code, [parsed]))
    case FlagsRejected => Exited(Exit(1, [parsed, StepFailed(FlagParse)]))
    case FlagsAccepted =>
      if !b.setupOk then Exited(Exit(1, [parsed, SetupCalled(c), StepFailed(SetupStep)]))
      else if !b.runOk then Exited(Exit(1, [parsed, SetupCalled(c), RunCalled(c), StepFailed(RunStep)]))
      else Exited(Exit(0, [parsed, SetupCalled(c), RunCalled(c)]))
  }

  /** `run` given what the argument parser returned for `args`. */
  function Run(args: seq<string>, parsed: Parsed, behave: Command -> Behaviour): (r: RunOutcome)
    ensures parsed.err.Some? ==> r == Exited(PrintHelp(parsed.command, parsed.err.value))
    ensures parsed.err.None? && parsed.command.None? ==> r == NilCommandPanic
    ensures parsed.err.None? && parsed.command.Some? ==>
              r == Steps(parsed.command.value, behave(parsed.command.value), FlagArgs(args))
  {
    if parsed.err.Some? then Exited(PrintHelp(parsed.command, parsed.err.value))
    else if parsed.command.None? then NilCommandPanic
    else Steps(parsed.command.value, behave(parsed.command.value), FlagArgs(args))
  }

  /** With `cmd.Parse` as the parser, `run` never panics. It returns unless
      the command's flag set ends the process itself; when it returns, the
      code is 0 exactly when help was asked for, or a command was found and
      its flag parse, `Setup` and `Run` all succeeded. */
  lemma RunWithParse(args: seq<string>, behave: Command -> Behaviour)
    requires |args| >= 1
    ensures var r := Run(args, Parse(args), behave);
            var p := Parse(args);
            && !r.NilCommandPanic?
            && (r.EndedInFlagParse? <==>
                  p.err.None? && p.command.Some? && behave(p.command.value).flags(FlagArgs(args)).FlagSetExit?)
            && (r.Exited? ==>
                  (r.exit.code == 0 <==>
                     || p.err == Some(Helpful)
                     || (p.command.Some? &&
                         var b := behave(p.command.value);
                         b.flags(FlagArgs(args)) == FlagsAccepted && b.setupOk && b.runOk)))
  {
  }

  /** A command whose flag set exits on error, as the server's does, never
      reports a failed flag parse from `run`: either the flags are accepted
      or the process ends in `fs.Parse` with 0 (after `-h`) or 2. */
  lemma ExitOnErrorBypassesRun(args: seq<string>, parsed: Parsed, behave: Command -> Behaviour)
    requires parsed.err.None? && parsed.command.Some?
    requires ExitsOnError(behave(parsed.command.value))
    ensures var r := Run(args, parsed, behave);
            && !r.NilCommandPanic?
            && StepFailed(FlagParse) !in r.exit.effects
            && (r.EndedInFlagParse? ==> r.exit.code == 0 || r.exit.code == 2)
            && (r.Exited? ==> FlagsParsed(parsed.command.value, FlagArgs(args)) in r.exit.effects
                              && SetupCalled(parsed.command.value) in r.exit.effects)
  {
    var b := behave(parsed.command.value);
    assert b.flags(FlagArgs(args)) == FlagsAccepted || b.flags(FlagArgs(args)) == FlagSetExit(0)
           || b.flags(FlagArgs(args)) == FlagSetExit(2);
  }

  /** A parse error never reaches the command: no flag parse, `Setup` or
      `Run` happens. */
  lemma ParseErrorTouchesNoCommand(args: seq<string>, parsed: Parsed, behave: Command -> Behaviour, c: Command)
    requires parsed.err.Some?
    ensures var r := Run(args, parsed, behave);
            && r.Exited?
            && SetupCalled(c) !in r.exit.effects && RunCalled(c) !in r.exit.effects
            && forall a :: FlagsParsed(c, a) !in r.exit.effects
  {
    var e := PrintHelp(parsed.command, parsed.err.value);
    assert forall i :: 0 <= i < |e.effects| ==>
             e.effects[i].ErrPrinted? || e.effects[i].UsagePrinted? || e.effects[i].HelpPrinted?;
  }

  /** An unknown command name exits with 1 after printing the argument
      and the usage. */
  lemma UnknownCommandExitsOne(name: string, behave: Command -> Behaviour)
    requires !IsHelp(name) && !IsFlag(name)
    requires name != "s" && name != "serve" && name != "v" && name != "version"
    ensures Run(["sws", name], Parse(["sws", name]), behave)
         == Exited(Exit(1, [ErrPrinted("'" + name + "' is not a valid argument\n"), UsagePrinted]))
  {
    var args := ["sws", name];
    assert args[1..] == [name];
    assert FirstNonFlag(args[1..], 0);
    assert !HelpReached(args[1..]);
  }

  // ---------------------------------------------------------------------
  // main
  // ---------------------------------------------------------------------

  /** The console configuration `main` sets up before anything runs:
      `Newline` and `SlogIt` on, then `SetupSlog`. */
  function MainConsole(c: Ancli.Config): (r: Ancli.Config)
    ensures r.newline && r.slogIt && r.hasLogger
    ensures r.useColor == c.useColor && r.printWarnings == c.printWarnings
  {
    Ancli.SetupSlog(c.(newline := true, slogIt := true))
  }

  /** Under `main`, every status line goes to the logger. */
  lemma MainPrintsThroughLogger(c: Ancli.Config, out: Ancli.Sink, status: string, msg: string, color: int)
    ensures var r := Ancli.PrintStatus(MainConsole(c), out, status, msg, color);
            r.emitted[0].Slog? && r.config == MainConsole(c)
  {
  }

  /** How the process ends: `os.Exit` with a code, `main` blocked on
      `exitCodeChan` because the monitor returned but `run` has not, or the
      monitor still listening. */
  datatype ProcessEnd = ExitedWith(code: int) | WaitingForRun | StillRunning

  /** The process exit code for a timeline of signals, passes of the
      monitor's `select` and the end of `run`, which returns `runCode`. The
      monitor forces code 1 only after winning two random choices against
      its own done context; otherwise `main` exits with `run`'s code once
      `run` returns, and signals after the monitor has returned change
      nothing. */
  function ProcessExit(runCode: int, inputs: seq<Shutdown.Input>): (r: ProcessEnd)
    ensures r.ExitedWith? && r.code != runCode ==> r.code == 1 && Shutdown.Preferred(inputs) >= 2
    ensures Shutdown.Preferred(inputs) < 2 && r.ExitedWith? ==> r.code == runCode
    ensures r == WaitingForRun ==> Shutdown.RunEnds !in inputs
    ensures Shutdown.Monitor(inputs).state.Returned? && Shutdown.RunEnds in inputs ==> r == ExitedWith(runCode)
    ensures r == StillRunning <==> Shutdown.Monitor(inputs).state.Listening?
  {
    Shutdown.ExitNeedsTwoWonRaces(inputs);
    match Shutdown.Monitor(inputs).state
    case Exited(code) => ExitedWith(code)
    case Returned => if Shutdown.RunEnds in inputs then ExitedWith(runCode) else WaitingForRun
    case Listening(_, _, _) => StillRunning
  }

  /** Ctrl-C pressed again only after the monitor's next pass of `select`
      does not force anything: the process exits with `run`'s code when
      `run` returns, and hangs while it does not. */
  lemma CtrlCLeavesCodeToRun(runCode: int, a: bool, b: bool, rest: seq<Shutdown.Input>)
    ensures ProcessExit(runCode, [Shutdown.SigArrives, Shutdown.Tick(a), Shutdown.Tick(b)] + rest)
         == if Shutdown.RunEnds in rest then ExitedWith(runCode) else WaitingForRun
  {
    var inputs := [Shutdown.SigArrives, Shutdown.Tick(a), Shutdown.Tick(b)] + rest;
    Shutdown.QuietAfterCancel(a, b, rest);
    assert Shutdown.RunEnds in inputs <==> Shutdown.RunEnds in rest by {
      assert inputs[..3] == [Shutdown.SigArrives, Shutdown.Tick(a), Shutdown.Tick(b)];
      assert inputs[3..] == rest;
      assert inputs == inputs[..3] + inputs[3..];
    }
  }
}
