/** The console helpers of helpers/ancli/ancli.go: the `truthy` classifier
    used on environment variables, the ANSI colour wrapper, and the routing
    of `printStatus` between a plain writer and the structured logger.

    The package variables (`useColor`, `Newline`, `SlogIt`, whether
    `slogger` is set, `printWarnings`) are a `Config` value; a print returns
    what it emitted and the configuration it leaves behind, since the
    missing-logger branch clears `SlogIt`. */
module Ancli {
  import opened Wrappers
  import opened GoStrings

  // ---------------------------------------------------------------------
  // truthy
  // ---------------------------------------------------------------------

  /** A value of Go's `any` as the type switch of `truthy` sees it:
      `OtherV` is any non-nil value of some other dynamic type. */
  datatype Any = BoolV(b: bool) | IntV(i: int) | StringV(s: string) | Nil | OtherV

  function Truthy(v: Any): (r: bool)
    ensures v.Nil? || v == StringV("") ==> !r
    ensures v.StringV? && r ==> TruthWord(TrimSpace(ToLower(v.s)))
  {
    match v
    case BoolV(b) => b
    case IntV(i) => i == 1
    case StringV(s) =>
      if s == "" then false
      else var t := TrimSpace(ToLower(s)); t == "1" || t == "true"
    case Nil => false
    case OtherV => true
  }

  /** The two words a string must reduce to. */
  predicate TruthWord(w: string) {
    w == "1" || w == "true"
  }

  /** `s[i..j]` is a truth word in any letter case, with nothing but white
      space before and after it. */
  predicate PaddedTruthWord(s: string, i: int, j: int) {
    && 0 <= i <= j <= |s|
    && AllSpace(s[..i]) && AllSpace(s[j..])
    && TruthWord(ToLower(s[i..j]))
  }

  /** A character that lower-cases to white space was white space. */
  lemma LowerSpace(c: char)
    requires IsSpace(LowerChar(c))
    ensures IsSpace(c)
  {
  }

  lemma TrimSpaceTruthWord(w: string)
    requires TruthWord(w)
    ensures TrimSpace(w) == w
  {
  }

  /** `TrimSpace` cuts a string into white space, the result, and white
      space. */
  lemma TrimSpaceCuts(l: string) returns (i: int, j: int)
    ensures 0 <= i <= j <= |l|
    ensures AllSpace(l[..i]) && AllSpace(l[j..]) && l[i..j] == TrimSpace(l)
  {
    var left := TrimLeft(l);
    var t := TrimRight(left);
    TrimLeftSpec(l);
    TrimRightSpec(left);
    i := |l| - |left|;
    j := i + |t|;
    assert l[i..] == left;
    assert l[i..j] == left[..|t|];
    assert l[j..] == left[|t|..];
  }

  /** A stretch of a string whose lower-cased form is white space is
      white space. */
  lemma LowerSpaceSlice(s: string, i: int, j: int)
    requires 0 <= i <= j <= |s| && AllSpace(ToLower(s)[i..j])
    ensures AllSpace(s[i..j])
  {
    SpaceFromLower(s, ToLower(s), i, j);
  }

  /** `LowerSpaceSlice` for any pointwise lower-cased copy `l` of `s`. */
  lemma SpaceFromLower(s: string, l: string, i: int, j: int)
    requires |l| == |s| && forall k :: 0 <= k < |s| ==> l[k] == LowerChar(s[k])
    requires 0 <= i <= j <= |s| && AllSpace(l[i..j])
    ensures AllSpace(s[i..j])
  {
    forall k | 0 <= k < j - i ensures IsSpace(s[i..j][k]) {
      assert IsSpace(l[i..j][k]);
      assert l[i..j][k] == LowerChar(s[i + k]);
      LowerSpace(s[i + k]);
    }
  }

  /** Lower-casing commutes with slicing. */
  lemma ToLowerSlice(s: string, i: int, j: int)
    requires 0 <= i <= j <= |s|
    ensures ToLower(s[i..j]) == ToLower(s)[i..j]
  {
  }

  /** A truthy string is a padded truth word. */
  lemma TruthyStringIsPadded(s: string) returns (i: int, j: int)
    requires Truthy(StringV(s))
    ensures PaddedTruthWord(s, i, j)
  {
    var l := ToLower(s);
    i, j := TrimSpaceCuts(l);
    assert l[..i] == l[0..i] && l[j..] == l[j..|s|];
    LowerSpaceSlice(s, 0, i);
    LowerSpaceSlice(s, j, |s|);
    assert s[..i] == s[0..i] && s[j..] == s[j..|s|];
    ToLowerSlice(s, i, j);
  }

  /** A padded truth word is truthy. */
  lemma PaddedIsTruthy(s: string, i: int, j: int)
    requires PaddedTruthWord(s, i, j)
    ensures Truthy(StringV(s))
  {
    var a, w, b := s[..i], s[i..j], s[j..];
    assert s == a + w + b;
    ToLowerConcat(a + w, b);
    ToLowerConcat(a, w);
    ToLowerKeepsSpace(a);
    ToLowerKeepsSpace(b);
    TrimSpacePadding(ToLower(a), ToLower(w), ToLower(b));
    TrimSpaceTruthWord(ToLower(w));
    assert |w| > 0;
  }

  /** A string is truthy exactly when it is `1` or `true`, in any letter
      case, surrounded by any white space. */
  lemma TruthyStringMeans(s: string)
    ensures Truthy(StringV(s)) <==> exists i, j :: PaddedTruthWord(s, i, j)
  {
    if Truthy(StringV(s)) {
      var i, j := TruthyStringIsPadded(s);
    }
    if exists i, j :: PaddedTruthWord(s, i, j) {
      var i, j :| PaddedTruthWord(s, i, j);
      PaddedIsTruthy(s, i, j);
    }
  }

  /** Every case of the type switch: a boolean is itself, an integer is
      truthy when it is 1, a string when it is a padded truth word, `nil`
      is not and any other value is. */
  lemma TruthyMeans(v: Any)
    ensures Truthy(v) <==>
              match v
              case BoolV(b) => b
              case IntV(i) => i == 1
              case StringV(s) => exists i, j :: PaddedTruthWord(s, i, j)
              case Nil => false
              case OtherV => true
  {
    if v.StringV? {
      TruthyStringMeans(v.s);
    }
  }

  // ---------------------------------------------------------------------
  // Colours
  // ---------------------------------------------------------------------

  const Red: int := 31
  const Green: int := 32
  const Yellow: int := 33
  const Blue: int := 34
  const Magenta: int := 35
  const Cyan: int := 36

  const Esc: char := '\U{1B}'

  /** The escape sequence that resets the colour. */
  const Reset: string := [Esc] + "[0m"

  /** `ColoredMessage`: the `\x1b[%dm%v\x1b[0m` format. */
  function ColoredMessage(cc: int, msg: string): (r: string)
    ensures |r| == |Decimal(cc)| + |msg| + 7
    ensures r[..2] == [Esc, '['] && r[|r| - 4..] == Reset
  {
    [Esc] + "[" + Decimal(cc) + "m" + msg + Reset
  }

  /** Reads a coloured message back into its colour code and text. */
  function StripColor(s: string): Option<(int, string)> {
    if |s| < 6 || s[..2] != [Esc, '['] || s[|s| - 4..] != Reset then None
    else
      var body := s[2..|s| - 4];
      var k := Index(body, "m");
      if k < 0 then None
      else
        match ParseInt(body[..k])
        case None => None
        case Some(cc) => Some((cc, body[k + 1..]))
  }

  /** The colour code and the text are recovered from the coloured
      message, so no two calls give the same string. */
  lemma ColoredMessageRoundTrip(cc: int, msg: string)
    ensures StripColor(ColoredMessage(cc, msg)) == Some((cc, msg))
  {
    var s := ColoredMessage(cc, msg);
    var d := Decimal(cc);
    var body := s[2..|s| - 4];
    assert body == d + "m" + msg;
    assert OccursAt(body, "m", |d|) by { assert body[|d|..|d| + 1] == "m"; }
    forall j | 0 <= j < |d| ensures !OccursAt(body, "m", j) {
      assert body[j..j + 1][0] == d[j];
    }
    var k := Index(body, "m");
    assert k == |d|;
    assert body[..k] == d;
    assert body[k + 1..] == msg;
    DecimalRoundTrip(cc);
  }

  // ---------------------------------------------------------------------
  // printStatus
  // ---------------------------------------------------------------------

  datatype Sink = Stdout | Stderr

  datatype Level = Info | Warn | Error

  /** A line written to a sink, or a record handed to the logger. */
  datatype Emission = Write(sink: Sink, text: string) | Slog(level: Level, text: string)

  datatype Config = Config(useColor: bool, newline: bool, slogIt: bool, hasLogger: bool, printWarnings: bool)

  datatype Printed = Printed(emitted: seq<Emission>, config: Config)

  const MissingLogger: string :=
    "you have to run ancli.SetupSlog in order to use slog printing, defaulting to normal print"

  /** The status as printed: coloured when colour is on. */
  function Shown(useColor: bool, status: string, color: int): string {
    if useColor then ColoredMessage(color, status) else status
  }

  /** The line of the plain (non-slog) branch. */
  function PlainLine(c: Config, status: string, msg: string, color: int): string {
    Shown(c.useColor, status, color) + ": " + msg + (if c.newline then "\n" else "")
  }

  /** The record the slog branch hands to the logger; the switch is on the
      raw status, the text carries the shown one. */
  function SlogRecord(raw: string, shown: string, msg: string): Emission {
    var fmsg := shown + ": " + msg + "\n";
    if raw == "ok" || raw == "notice" then Slog(Info, fmsg)
    else if raw == "error" then Slog(Error, fmsg)
    else if raw == "warning" then Slog(Warn, fmsg)
    else Slog(Warn, "failed to find status for: '" + shown + "', msg is: " + fmsg)
  }

  /** `printStatus`. With `SlogIt` on but no logger, it switches slog off
      and reports the misuse through `PrintErr`; the message itself is not
      printed. */
  function PrintStatus(c: Config, out: Sink, status: string, msg: string, color: int): (r: Printed)
    ensures |r.emitted| == 1
    ensures r.config == c.(slogIt := c.slogIt && c.hasLogger)
    ensures r.emitted[0].Slog? <==> c.slogIt && c.hasLogger
    ensures !c.slogIt ==> r.emitted[0] == Write(out, PlainLine(c, status, msg, color))
    ensures c.slogIt && !c.hasLogger ==>
              r.emitted[0] == Write(Stderr, PlainLine(c, "error", MissingLogger, Red))
    decreases c.slogIt, 0
  {
    if c.slogIt then
      if !c.hasLogger then PrintErr(c.(slogIt := false), MissingLogger)
      else Printed([SlogRecord(status, Shown(c.useColor, status, color), msg)], c)
    else Printed([Write(out, PlainLine(c, status, msg, color))], c)
  }

  /** `PrintErr`: an error-level record, or a line on standard error. */
  function PrintErr(c: Config, msg: string): (r: Printed)
    ensures |r.emitted| == 1
    ensures c.slogIt && c.hasLogger ==> r.emitted[0].Slog? && r.emitted[0].level == Error
    ensures !c.slogIt ==> r.emitted[0].Write? && r.emitted[0].sink == Stderr
    decreases c.slogIt, 1
  {
    PrintStatus(c, Stderr, "error", msg, Red)
  }

  /** `PrintNotice`: an info-level record, or a line on standard output. */
  function PrintNotice(c: Config, msg: string): (r: Printed)
    ensures c.slogIt && c.hasLogger ==> r.emitted == [Slog(Info, Shown(c.useColor, "notice", Cyan) + ": " + msg + "\n")]
    ensures !c.slogIt ==> r.emitted == [Write(Stdout, PlainLine(c, "notice", msg, Cyan))]
  {
    PrintStatus(c, Stdout, "notice", msg, Cyan)
  }

  /** `PrintOK`: an info-level record, or a line on standard output. */
  function PrintOK(c: Config, msg: string): (r: Printed)
    ensures c.slogIt && c.hasLogger ==> r.emitted == [Slog(Info, Shown(c.useColor, "ok", Green) + ": " + msg + "\n")]
    ensures !c.slogIt ==> r.emitted == [Write(Stdout, PlainLine(c, "ok", msg, Green))]
  {
    PrintStatus(c, Stdout, "ok", msg, Green)
  }

  /** `PrintWarn`: prints only when warnings are enabled. */
  function PrintWarn(c: Config, msg: string): (r: Printed)
    ensures |r.emitted| == (if c.printWarnings then 1 else 0)
    ensures !c.printWarnings ==> r.config == c
    ensures c.printWarnings && c.slogIt && c.hasLogger ==>
              r.emitted == [Slog(Warn, Shown(c.useColor, "warning", Yellow) + ": " + msg + "\n")]
  {
    if c.printWarnings then PrintStatus(c, Stdout, "warning", msg, Yellow)
    else Printed([], c)
  }

  /** `SetupSlog`: installs the logger and turns slog printing on. */
  function SetupSlog(c: Config): (r: Config)
    ensures r.slogIt && r.hasLogger
    ensures r.useColor == c.useColor && r.newline == c.newline && r.printWarnings == c.printWarnings
  {
    c.(slogIt := true, hasLogger := true)
  }

  /** The package's initial variables, from the values of `NO_COLOR`,
      `NO_WARNINGS` and `ANCLI_NEWLINE` (an unset variable reads as ""). */
  function InitConfig(noColor: string, noWarnings: string, ancliNewline: string): (r: Config)
    ensures !r.slogIt && !r.hasLogger
    ensures r.useColor <==> noColor != "true"
    ensures r.printWarnings <==> !exists i, j :: PaddedTruthWord(noWarnings, i, j)
    ensures r.newline <==> ToLower(ancliNewline) == "true"
  {
    TruthyStringMeans(noWarnings);
    Config(noColor != "true", ToLower(ancliNewline) == "true", false, false, !Truthy(StringV(noWarnings)))
  }

  // ---------------------------------------------------------------------
  // Properties of printStatus
  // ---------------------------------------------------------------------

  /** After `SetupSlog` every print goes to the logger and nothing is
      written to a sink; the configuration stays as it is. */
  lemma AfterSetupEverythingSlogs(c: Config, out: Sink, status: string, msg: string, color: int)
    ensures var r := PrintStatus(SetupSlog(c), out, status, msg, color);
            r.emitted[0].Slog? && r.config == SetupSlog(c)
  {
  }

  /** The level is chosen on the raw status: turning colour on or off
      never changes it. */
  lemma SlogLevelIgnoresColor(c: Config, out: Sink, status: string, msg: string, color: int)
    requires c.slogIt && c.hasLogger
    ensures PrintStatus(c.(useColor := true), out, status, msg, color).emitted[0].level
         == PrintStatus(c.(useColor := false), out, status, msg, color).emitted[0].level
  {
  }

  /** The level for each raw status: `ok` and `notice` are Info, `error`
      is Error, anything else is Warn; every slog text ends in a newline. */
  lemma SlogRouting(c: Config, out: Sink, status: string, msg: string, color: int)
    requires c.slogIt && c.hasLogger
    ensures var e := PrintStatus(c, out, status, msg, color).emitted[0];
            && e.level == (if status == "ok" || status == "notice" then Info
                           else if status == "error" then Error else Warn)
            && |e.text| > 0 && e.text[|e.text| - 1] == '\n'
  {
  }

  /** With no logger the message, the status and the sink asked for make no
      difference: only the misuse report is printed. */
  lemma MissingLoggerDropsMessage(c: Config, o1: Sink, s1: string, m1: string, k1: int,
                                  o2: Sink, s2: string, m2: string, k2: int)
    requires c.slogIt && !c.hasLogger
    ensures PrintStatus(c, o1, s1, m1, k1) == PrintStatus(c, o2, s2, m2, k2)
  {
  }

  /** `Newline` only appends a line break to the plain line. */
  lemma NewlineOnlyAppends(c: Config, status: string, msg: string, color: int)
    ensures PlainLine(c.(newline := true), status, msg, color)
         == PlainLine(c.(newline := false), status, msg, color) + "\n"
  {
  }

  /** Colour only wraps the status: the rest of the plain line is the
      same, and the colour code and status can be read back. */
  lemma ColorOnlyWrapsStatus(c: Config, status: string, msg: string, color: int)
    ensures var colored := PlainLine(c.(useColor := true), status, msg, color);
            var plain := PlainLine(c.(useColor := false), status, msg, color);
            var n := |ColoredMessage(color, status)|;
            && n <= |colored|
            && StripColor(colored[..n]) == Some((color, status))
            && colored[n..] == plain[|status|..]
  {
    ColoredMessageRoundTrip(color, status);
    var colored := PlainLine(c.(useColor := true), status, msg, color);
    var n := |ColoredMessage(color, status)|;
    assert colored[..n] == ColoredMessage(color, status);
  }

  /** `NO_COLOR` is compared exactly while `NO_WARNINGS` goes through
      `truthy`: a padded or capitalised `true` turns warnings off and
      leaves colour on. */
  lemma EnvironmentAsymmetry(v: string, i: int, j: int)
    requires PaddedTruthWord(v, i, j) && v != "true"
    ensures var c := InitConfig(v, v, "");
            c.useColor && !c.printWarnings
  {
  }
}
