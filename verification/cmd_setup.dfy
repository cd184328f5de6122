/** Command-line dispatch of cmd/setup.go and the error kinds of
    cmd/types.go. `Parse` scans the arguments after the program name for
    the first one that is not a flag and looks it up among the
    `|`-separated aliases of the command table. */
module Cli {
  import opened Wrappers
  import opened GoStrings

  /** The two commands of the table: the server and the version printer. */
  datatype Command = Serve | Version

  /** The errors the command line can end in: `ArgNotFoundError`,
      `ErrNoArgs`, `ErrHelpful`, or any other error a command returns. */
  datatype CliError = ArgNotFound(arg: string) | NoArgs | Helpful | Other(text: string)

  /** The two results of `Parse` (and of any `ArgParser`). */
  datatype Parsed = Parsed(command: Option<Command>, err: Option<CliError>)

  /** `commands`: each key lists a command's aliases separated by `|`. */
  const Commands: map<string, Command> := map["s|serve" := Serve, "v|version" := Version]

  /** One order in which Go may iterate over `commands`. */
  const CommandOrder: seq<string> := ["s|serve", "v|version"]

  /** `isHelp`. */
  predicate IsHelp(s: string) {
    s == "-h" || s == "-help" || s == "h" || s == "help"
  }

  predicate IsFlag(s: string) {
    HasPrefix(s, "-")
  }

  predicate AllFlags(tail: seq<string>) {
    forall j :: 0 <= j < |tail| ==> IsFlag(tail[j])
  }

  /** `i` is the position of the first argument that is not a flag. */
  predicate FirstNonFlag(tail: seq<string>, i: int) {
    0 <= i < |tail| && !IsFlag(tail[i]) && forall j :: 0 <= j < i ==> IsFlag(tail[j])
  }

  /** A help token comes before (or is) the first argument that is not a
      flag. */
  predicate HelpReached(tail: seq<string>) {
    exists i | 0 <= i < |tail| :: IsHelp(tail[i]) && forall j :: 0 <= j < i ==> IsFlag(tail[j])
  }

  /** What the loop over `args[1:]` ends with. */
  datatype Scan = HelpSeen | Candidate(name: string)

  lemma ShiftPastFlag(tail: seq<string>)
    requires |tail| > 0 && IsFlag(tail[0]) && !IsHelp(tail[0])
    ensures HelpReached(tail) <==> HelpReached(tail[1..])
    ensures AllFlags(tail) <==> AllFlags(tail[1..])
    ensures forall i :: FirstNonFlag(tail, i) <==> i > 0 && FirstNonFlag(tail[1..], i - 1)
  {
    var t := tail[1..];
    if HelpReached(tail) {
      var i :| 0 <= i < |tail| && IsHelp(tail[i]) && forall j :: 0 <= j < i ==> IsFlag(tail[j]);
      assert t[i - 1] == tail[i];
      assert forall j :: 0 <= j < i - 1 ==> IsFlag(t[j]) by {
        forall j | 0 <= j < i - 1 ensures IsFlag(t[j]) { assert t[j] == tail[j + 1]; }
      }
    }
    if HelpReached(t) {
      var i :| 0 <= i < |t| && IsHelp(t[i]) && forall j :: 0 <= j < i ==> IsFlag(t[j]);
      assert tail[i + 1] == t[i];
      assert forall j :: 0 <= j < i + 1 ==> IsFlag(tail[j]) by {
        forall j | 0 <= j < i + 1 ensures IsFlag(tail[j]) { if j > 0 { assert tail[j] == t[j - 1]; } }
      }
    }
    forall i ensures FirstNonFlag(tail, i) <==> i > 0 && FirstNonFlag(t, i - 1) {
      if i > 0 && 0 <= i - 1 < |t| {
        assert tail[i] == t[i - 1];
        assert (forall j :: 0 <= j < i ==> IsFlag(tail[j])) <==> (forall j :: 0 <= j < i - 1 ==> IsFlag(t[j])) by {
          if forall j :: 0 <= j < i - 1 ==> IsFlag(t[j]) {
            forall j | 0 <= j < i ensures IsFlag(tail[j]) { if j > 0 { assert tail[j] == t[j - 1]; } }
          }
          if forall j :: 0 <= j < i ==> IsFlag(tail[j]) {
            forall j | 0 <= j < i - 1 ensures IsFlag(t[j]) { assert t[j] == tail[j + 1]; }
          }
        }
      }
    }
    assert AllFlags(t) ==> AllFlags(tail) by {
      if AllFlags(t) {
        forall j | 0 <= j < |tail| ensures IsFlag(tail[j]) { if j > 0 { assert tail[j] == t[j - 1]; } }
      }
    }
  }

  /** The loop over `args[1:]`: a help token ends it with `ErrHelpful`,
      flags are skipped, and the first other argument is the candidate;
      an all-flag list leaves the candidate empty. */
  function ScanArgs(tail: seq<string>): (r: Scan)
    ensures r == HelpSeen <==> HelpReached(tail)
    ensures forall i :: FirstNonFlag(tail, i) && !HelpReached(tail) ==> r == Candidate(tail[i])
    ensures AllFlags(tail) && !HelpReached(tail) ==> r == Candidate("")
    decreases |tail|
  {
    if |tail| == 0 then Candidate("")
    else if IsHelp(tail[0]) then
      HelpSeen
    else if IsFlag(tail[0]) then
      ShiftPastFlag(tail);
      ScanArgs(tail[1..])
    else
      assert FirstNonFlag(tail, 0);
      assert !AllFlags(tail);
      Candidate(tail[0])
  }

  /** Once the candidate is found, later arguments (help tokens included)
      make no difference. */
  lemma {:induction false} LaterArgumentsIgnored(tail: seq<string>, extra: seq<string>)
    requires !AllFlags(tail)
    ensures ScanArgs(tail + extra) == ScanArgs(tail)
    decreases |tail|
  {
    var s := tail + extra;
    assert s[0] == tail[0];
    if !IsHelp(tail[0]) && IsFlag(tail[0]) {
      assert s[1..] == tail[1..] + extra;
      assert !AllFlags(tail[1..]) by {
        var j :| 0 <= j < |tail| && !IsFlag(tail[j]);
        assert tail[1..][j - 1] == tail[j];
      }
      LaterArgumentsIgnored(tail[1..], extra);
    }
  }

  // ---------------------------------------------------------------------
  // The alias lookup
  // ---------------------------------------------------------------------

  /** `order` lists the keys of `table`, as a `range` over the map does. */
  predicate Enumerates(order: seq<string>, table: map<string, Command>) {
    (forall k :: k in table ==> k in order) && (forall k :: k in order ==> k in table)
  }

  /** No alias is shared by two keys of the table. */
  predicate AliasesDistinct(table: map<string, Command>) {
    forall k1, k2, a :: k1 in table && k2 in table && k1 != k2 && a in Split(k1, '|') ==> a !in Split(k2, '|')
  }

  /** The nested loops of `Parse` over the table, visiting keys in `order`
      and the aliases of each key in turn. */
  function LookupIn(order: seq<string>, table: map<string, Command>, cand: string): (r: Option<Command>)
    requires forall k :: k in order ==> k in table
    ensures r.Some? ==> exists k :: k in order && cand in Split(k, '|') && table[k] == r.value
    ensures r.None? ==> forall k :: k in order ==> cand !in Split(k, '|')
    decreases |order|
  {
    if |order| == 0 then None
    else if cand in Split(order[0], '|') then Some(table[order[0]])
    else LookupIn(order[1..], table, cand)
  }

  /** With distinct aliases the lookup does not depend on the order in
      which the map is iterated. */
  lemma LookupOrderIndependent(o1: seq<string>, o2: seq<string>, table: map<string, Command>, cand: string)
    requires Enumerates(o1, table) && Enumerates(o2, table) && AliasesDistinct(table)
    ensures LookupIn(o1, table, cand) == LookupIn(o2, table, cand)
  {
    var r1, r2 := LookupIn(o1, table, cand), LookupIn(o2, table, cand);
    if r1.Some? {
      var k1 :| k1 in o1 && cand in Split(k1, '|') && table[k1] == r1.value;
      assert r2.Some?;
      var k2 :| k2 in o2 && cand in Split(k2, '|') && table[k2] == r2.value;
    } else {
      assert r2.None?;
    }
  }

  /** `CommandOrder` is one iteration order of the command table. */
  lemma CommandsEnumerated()
    ensures Enumerates(CommandOrder, Commands)
  {
    assert Commands.Keys == {"s|serve", "v|version"};
  }

  /** The aliases each command is listed under. */
  function AliasList(c: Command): seq<string> {
    match c
    case Serve => ["s", "serve"]
    case Version => ["v", "version"]
  }

  /** The two keys of the table split into their aliases. */
  lemma KeysSplit()
    ensures Split("s|serve", '|') == ["s", "serve"]
    ensures Split("v|version", '|') == ["v", "version"]
  {
    assert "s|serve" == "s" + ['|'] + "serve";
    SplitPair("s", "serve", '|');
    assert "v|version" == "v" + ['|'] + "version";
    SplitPair("v", "version", '|');
  }

  /** Splitting a key of the table gives its command's aliases. */
  lemma AliasesOf(k: string)
    requires k in Commands
    ensures Split(k, '|') == AliasList(Commands[k])
  {
    assert Commands.Keys == {"s|serve", "v|version"};
    KeysSplit();
  }

  /** The two commands share no alias. */
  lemma AliasListsDisjoint(c1: Command, c2: Command, a: string)
    requires c1 != c2 && a in AliasList(c1)
    ensures a !in AliasList(c2)
  {
    assert |"serve"| == 5 && |"version"| == 7;
    if c1 == Serve {
      assert a == "s" || a == "serve";
      assert a[0] == 's';
    } else {
      assert a == "v" || a == "version";
      assert a[0] == 'v';
    }
  }

  /** An alias of one key is not an alias of another. */
  lemma AliasNotShared(k1: string, k2: string, a: string)
    requires k1 in Commands && k2 in Commands && k1 != k2 && a in Split(k1, '|')
    ensures a !in Split(k2, '|')
  {
    AliasesOf(k1);
    AliasesOf(k2);
    assert Commands.Keys == {"s|serve", "v|version"};
    assert Commands[k1] != Commands[k2];
    AliasListsDisjoint(Commands[k1], Commands[k2], a);
  }

  lemma CommandsAliasesDistinct()
    ensures AliasesDistinct(Commands)
  {
    forall k1, k2, a | k1 in Commands && k2 in Commands && k1 != k2 && a in Split(k1, '|')
      ensures a !in Split(k2, '|')
    {
      AliasNotShared(k1, k2, a);
    }
  }

  /** The lookup over a two-key iteration order. */
  lemma LookupTwo(k1: string, k2: string, table: map<string, Command>, cand: string)
    requires k1 in table && k2 in table
    ensures LookupIn([k1, k2], table, cand) ==
              if cand in Split(k1, '|') then Some(table[k1])
              else if cand in Split(k2, '|') then Some(table[k2])
              else None
  {
    assert [k1, k2][1..] == [k2];
    assert [k2][1..] == [];
  }

  /** The alias lookup over the command table. */
  lemma LookupCommands(cand: string)
    ensures LookupIn(CommandOrder, Commands, cand) ==
              if cand == "s" || cand == "serve" then Some(Serve)
              else if cand == "v" || cand == "version" then Some(Version)
              else None
  {
    LookupTwo("s|serve", "v|version", Commands, cand);
    AliasesOf("s|serve");
    AliasesOf("v|version");
    if cand in AliasList(Version) {
      AliasListsDisjoint(Version, Serve, cand);
    }
  }

  // ---------------------------------------------------------------------
  // Parse
  // ---------------------------------------------------------------------

  /** `Parse` for one iteration order of `commands`. `args[1:]` panics in
      Go on an empty list; `os.Args` always holds the program name. */
  function ParseIn(args: seq<string>, order: seq<string>): Parsed
    requires |args| >= 1 && Enumerates(order, Commands)
  {
    if |args| == 1 then Parsed(None, Some(NoArgs))
    else
      match ScanArgs(args[1..])
      case HelpSeen => Parsed(None, Some(Helpful))
      case Candidate(cand) =>
        match LookupIn(order, Commands, cand)
        case Some(c) => Parsed(Some(c), None)
        case None => Parsed(None, Some(ArgNotFound(cand)))
  }

  /** The command (or error) a candidate name selects. */
  function Resolve(cand: string): Parsed {
    if cand == "s" || cand == "serve" then Parsed(Some(Serve), None)
    else if cand == "v" || cand == "version" then Parsed(Some(Version), None)
    else Parsed(None, Some(ArgNotFound(cand)))
  }

  /** `Parse`: the result is the same for every iteration order of the
      table, so one order stands for all. */
  function Parse(args: seq<string>): (r: Parsed)
    requires |args| >= 1
    ensures |args| == 1 ==> r == Parsed(None, Some(NoArgs))
    ensures |args| > 1 ==> (r == Parsed(None, Some(Helpful)) <==> HelpReached(args[1..]))
    ensures |args| > 1 && !HelpReached(args[1..]) ==>
              forall i :: FirstNonFlag(args[1..], i) ==> r == Resolve(args[1..][i])
    ensures |args| > 1 && !HelpReached(args[1..]) && AllFlags(args[1..]) ==>
              r == Parsed(None, Some(ArgNotFound("")))
    ensures r.command.Some? <==> r.err.None?
  {
    CommandsAliasesDistinct();
    if |args| > 1 && ScanArgs(args[1..]).Candidate? then
      LookupCommands(ScanArgs(args[1..]).name);
      ParseIn(args, CommandOrder)
    else
      ParseIn(args, CommandOrder)
  }

  /** Every iteration order of `commands` gives the same result. */
  lemma ParseOrderIndependent(args: seq<string>, order: seq<string>)
    requires |args| >= 1 && Enumerates(order, Commands)
    ensures ParseIn(args, order) == Parse(args)
  {
    CommandsAliasesDistinct();
    if |args| > 1 && ScanArgs(args[1..]).Candidate? {
      LookupOrderIndependent(order, CommandOrder, Commands, ScanArgs(args[1..]).name);
    }
  }

  /** Arguments after the command name do not change what `Parse`
      returns. */
  lemma ParseIgnoresTrailing(args: seq<string>, extra: seq<string>)
    requires |args| > 1 && !AllFlags(args[1..])
    ensures Parse(args + extra) == Parse(args)
  {
    assert (args + extra)[1..] == args[1..] + extra;
    LaterArgumentsIgnored(args[1..], extra);
  }

  // ---------------------------------------------------------------------
  // ArgNotFoundError.Error (cmd/types.go)
  // ---------------------------------------------------------------------

  const NotValidSuffix: string := "' is not a valid argument\n"

  /** `ArgNotFoundError.Error` as written: it formats the result of calling
      itself, so every call makes a further call before it can return.
      `depth` bounds how many nested calls are allowed; `None` means the
      bound was reached without a result. */
  function ArgNotFoundMessageAsWritten(arg: string, depth: nat): Option<string>
    decreases depth
  {
    if depth == 0 then None
    else
      match ArgNotFoundMessageAsWritten(arg, depth - 1)
      case None => None
      case Some(inner) => Some("'" + inner + NotValidSuffix)
  }

  /** However deep the stack, the Go method never produces a message. */
  lemma {:induction false} ArgNotFoundMessageNeverReturns(arg: string, depth: nat)
    ensures ArgNotFoundMessageAsWritten(arg, depth) == None
    decreases depth
  {
    if depth > 0 {
      ArgNotFoundMessageNeverReturns(arg, depth - 1);
    }
  }

  /** The message `ArgNotFoundError.Error` evidently means to produce: the
      argument quoted, then the explanation. */
  function ArgNotFoundMessage(arg: string): (r: string)
    ensures HasPrefix(r, "'" + arg) && |r| == 1 + |arg| + |NotValidSuffix|
    ensures r[1 + |arg|..] == NotValidSuffix
  {
    "'" + arg + NotValidSuffix
  }

  /** Different arguments give different messages. */
  lemma ArgNotFoundMessageInjective(a1: string, a2: string)
    requires ArgNotFoundMessage(a1) == ArgNotFoundMessage(a2)
    ensures a1 == a2
  {
    var m := ArgNotFoundMessage(a1);
    assert |a1| == |a2|;
    assert a1 == m[1..1 + |a1|];
    assert a2 == ArgNotFoundMessage(a2)[1..1 + |a2|];
  }
}
