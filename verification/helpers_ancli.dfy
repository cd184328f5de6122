/** helpers/ancli.go, the copy of the console helpers in package `helpers`.
    It has no `truthy` and no warning switch, and its missing-logger branch
    calls the `PrintErr` of package `helpers`, which is not part of this
    model: that call is recorded with the text it is given. */
module Helpers {
  import opened Wrappers
  import Ancli

  /** The package variables `useColor`, `Newline`, `SlogIt` and whether
      `slogger` is set. */
  datatype Config = Config(useColor: bool, newline: bool, slogIt: bool, hasLogger: bool)

  /** What a print did: the lines and records it emitted, the text it
      passed on to the package's `PrintErr`, and the variables after it. */
  datatype Printed = Printed(emitted: seq<Ancli.Emission>, handedOn: Option<string>, config: Config)

  /** The same variables in package `ancli`, warnings on or off. */
  function AsAncli(c: Config, printWarnings: bool): (a: Ancli.Config)
    ensures a.useColor == c.useColor && a.newline == c.newline
    ensures a.slogIt == c.slogIt && a.hasLogger == c.hasLogger && a.printWarnings == printWarnings
  {
    Ancli.Config(c.useColor, c.newline, c.slogIt, c.hasLogger, printWarnings)
  }

  /** `ColoredMessage`, the same escape format as in package `ancli`. */
  function ColoredMessage(cc: int, msg: string): (r: string)
    ensures Ancli.StripColor(r) == Some((cc, msg))
  {
    Ancli.ColoredMessageRoundTrip(cc, msg);
    Ancli.ColoredMessage(cc, msg)
  }

  /** `SetupSlog`: installs the logger and turns slog printing on. */
  function SetupSlog(c: Config): (r: Config)
    ensures r.slogIt && r.hasLogger && r.useColor == c.useColor && r.newline == c.newline
  {
    c.(slogIt := true, hasLogger := true)
  }

  /** `printStatus` of package `helpers`. */
  function PrintStatus(c: Config, out: Ancli.Sink, status: string, msg: string, color: int): (r: Printed)
    ensures r.config == c.(slogIt := c.slogIt && c.hasLogger)
    ensures r.handedOn.Some? <==> c.slogIt && !c.hasLogger
    ensures r.handedOn.Some? ==> r.emitted == [] && r.handedOn.value == Ancli.MissingLogger
    ensures r.handedOn.None? ==> |r.emitted| == 1
  {
    if c.slogIt then
      if !c.hasLogger then Printed([], Some(Ancli.MissingLogger), c.(slogIt := false))
      else
        var shown := if c.useColor then ColoredMessage(color, status) else status;
        Printed([Ancli.SlogRecord(status, shown, msg)], None, c)
    else
      var shown := if c.useColor then ColoredMessage(color, status) else status;
      Printed([Ancli.Write(out, shown + ": " + msg + (if c.newline then "\n" else ""))], None, c)
  }

  /** Whenever a logger is installed or slog is off, the copy prints
      exactly what package `ancli` prints. */
  lemma SameAsAncli(c: Config, pw: bool, out: Ancli.Sink, status: string, msg: string, color: int)
    requires !c.slogIt || c.hasLogger
    ensures var r := PrintStatus(c, out, status, msg, color);
            var a := Ancli.PrintStatus(AsAncli(c, pw), out, status, msg, color);
            r.emitted == a.emitted && a.config == AsAncli(r.config, pw)
  {
  }

  /** With no logger both copies switch slog off and drop the message;
      this one leaves the report to its own `PrintErr`. */
  lemma MissingLoggerHandsOn(c: Config, pw: bool, out: Ancli.Sink, status: string, msg: string, color: int)
    requires c.slogIt && !c.hasLogger
    ensures var r := PrintStatus(c, out, status, msg, color);
            var a := Ancli.PrintStatus(AsAncli(c, pw), out, status, msg, color);
            && r.emitted == [] && r.handedOn == Some(Ancli.MissingLogger)
            && !r.config.slogIt && a.config == AsAncli(r.config, pw)
            && a.emitted == [Ancli.Write(Ancli.Stderr, Ancli.PlainLine(a.config, "error", Ancli.MissingLogger, Ancli.Red))]
  {
  }

  /** The slog level follows the raw status, as in package `ancli`. */
  lemma SlogRouting(c: Config, out: Ancli.Sink, status: string, msg: string, color: int)
    requires c.slogIt && c.hasLogger
    ensures var e := PrintStatus(c, out, status, msg, color).emitted[0];
            && e.Slog?
            && e.level == (if status == "ok" || status == "notice" then Ancli.Info
                           else if status == "error" then Ancli.Error else Ancli.Warn)
  {
  }

  /** After `SetupSlog` every print becomes a log record. */
  lemma AfterSetupEverythingSlogs(c: Config, out: Ancli.Sink, status: string, msg: string, color: int)
    ensures var r := PrintStatus(SetupSlog(c), out, status, msg, color);
            r.handedOn.None? && r.emitted[0].Slog?
  {
  }
}
