/** The command line of decide.js: `--raw` is removed wherever it appears, the
    first remaining word picks the command through its aliases, and the result
    is printed as JSON or, in raw mode, as one field. Rendering JSON is left to
    the caller: `JsonOut` carries the object. */
module DecideCli {
  import opened Wrappers
  import opened Text
  import opened Decimal
  import opened Ordering
  import opened Draws
  import opened Decisions
  import opened Dice
  import opened Answers

  datatype Command = FlipCmd | RollCmd | PickCmd | EightBallCmd | YesNoCmd | NumberCmd | HelpCmd

  /** The `switch`: each alias group selects one command, anything else is help. */
  function CommandOf(word: string): (cmd: Command)
  {
    if word in {"flip", "coin", "münze"} then FlipCmd
    else if word in {"roll", "dice", "würfel"} then RollCmd
    else if word in {"pick", "choose", "wähle"} then PickCmd
    else if word in {"8ball", "magic", "frag"} then EightBallCmd
    else if word in {"yesno", "yn", "jn"} then YesNoCmd
    else if word in {"number", "zahl"} then NumberCmd
    else HelpCmd
  }

  /** Every alias of a group selects the same command. */
  lemma AliasGroups()
    ensures CommandOf("flip") == CommandOf("coin") == CommandOf("münze") == FlipCmd
    ensures CommandOf("roll") == CommandOf("dice") == CommandOf("würfel") == RollCmd
    ensures CommandOf("pick") == CommandOf("choose") == CommandOf("wähle") == PickCmd
    ensures CommandOf("8ball") == CommandOf("magic") == CommandOf("frag") == EightBallCmd
    ensures CommandOf("yesno") == CommandOf("yn") == CommandOf("jn") == YesNoCmd
    ensures CommandOf("number") == CommandOf("zahl") == NumberCmd
    ensures CommandOf("help") == CommandOf("") == HelpCmd
  {
  }

  /** The arguments once `--raw` is taken out. */
  datatype Invocation = Invocation(raw: bool, words: seq<string>)

  predicate IsNotRaw(a: string) { a != "--raw" }

  function ParseArgs(args: seq<string>): (inv: Invocation)
    ensures inv.raw <==> "--raw" in args
    ensures "--raw" !in inv.words
    ensures forall w :: w in inv.words <==> w in args && w != "--raw"
  {
    FilterMembership(args, IsNotRaw);
    Invocation("--raw" in args, Filter(args, IsNotRaw))
  }

  /** `filteredArgs[0] || "help"`. */
  function CommandWord(words: seq<string>): (w: string)
    ensures w != ""
    ensures words != [] && words[0] != "" ==> w == words[0]
  {
    if words != [] && words[0] != "" then words[0] else "help"
  }

  /** `commandArgs[0]` as an optional value. */
  function Arg(rest: seq<string>, i: nat): (r: Option<string>)
  {
    if i < |rest| then Some(rest[i]) else None
  }

  /** `filteredArgs.slice(1)`. */
  function Rest(words: seq<string>): (rest: seq<string>)
  {
    if words == [] then [] else words[1..]
  }

  /** The command the arguments select. */
  function CommandIn(args: seq<string>): (cmd: Command)
  {
    CommandOf(CommandWord(ParseArgs(args).words))
  }

  /** The arguments after the command word. */
  function RestIn(args: seq<string>): (rest: seq<string>)
  {
    Rest(ParseArgs(args).words)
  }

  /** `commandArgs[0] || 'd6'`. */
  function Notation(rest: seq<string>): (n: string)
  {
    if rest != [] && rest[0] != "" then rest[0] else "d6"
  }

  /** The result object of one command, the i-th `Math.random()` being `draws(i)`. */
  function Decide(cmd: Command, rest: seq<string>, draws: nat -> Draw): (r: Decision)
    requires cmd != HelpCmd
  {
    match cmd
    case FlipCmd => Flip(draws(0))
    case RollCmd => RollDice(Notation(rest), draws)
    case PickCmd => Pick(rest, draws(0))
    case EightBallCmd =>
      var q := Join(rest, " ");
      EightBall(if q == "" then "?" else q, draws(0))
    case YesNoCmd => YesNo(draws(0))
    case NumberCmd => RandomNumber(NumberArg(Arg(rest, 0), 1), NumberArg(Arg(rest, 1), 100), draws(0))
  }

  /** What the process ends in. */
  datatype Output = HelpText | ErrorExit(message: string) | JsonOut(decision: Decision) | RawOut(line: string)

  /** The raw-mode line: the total for a roll, the `result` field otherwise. */
  function RawField(d: Decision): (line: string)
    requires !d.Failure?
    ensures d.Rolled? ==> line == ShowInt(d.total)
    ensures d.Numbered? ==> line == ShowInt(d.number)
    ensures !d.Rolled? && !d.Numbered? ==> line == d.result
  {
    match d
    case Rolled(_, _, total, _) => ShowInt(total)
    case Numbered(_, _, number, _) => ShowInt(number)
    case Flipped(result, _, _) => result
    case Picked(_, result, _) => result
    case Answered(_, result, _, _, _) => result
    case Decided(result, _, _) => result
  }

  /** The whole script: help for an unknown or missing command, the error of
      a failed decision, otherwise the decision as JSON or, with `--raw`, its
      raw field. */
  function Run(args: seq<string>, draws: nat -> Draw): (out: Output)
    ensures out == HelpText <==> CommandIn(args) == HelpCmd
    ensures CommandIn(args) != HelpCmd ==>
      var d := Decide(CommandIn(args), RestIn(args), draws);
      && (out.ErrorExit? <==> d.Failure?)
      && (d.Failure? ==> out == ErrorExit(d.error))
      && (!d.Failure? && "--raw" in args ==> out == RawOut(RawField(d)))
      && (!d.Failure? && "--raw" !in args ==> out == JsonOut(d))
    ensures out.RawOut? ==> "--raw" in args
    ensures out.JsonOut? ==> "--raw" !in args && !out.decision.Failure?
  {
    var cmd := CommandIn(args);
    if cmd == HelpCmd then HelpText
    else
      var d := Decide(cmd, RestIn(args), draws);
      if d.Failure? then ErrorExit(d.error)
      else if ParseArgs(args).raw then RawOut(RawField(d))
      else JsonOut(d)
  }

  /** `--raw` changes only how a decision is printed: where the plain run
      prints a decision as JSON, the raw run prints its raw field, and help and
      errors are the same either way. */
  lemma RawOnlyChangesOutputForm(a: seq<string>, b: seq<string>, draws: nat -> Draw)
    requires "--raw" !in a + b
    ensures Run(a + b, draws).JsonOut? <==> Run(a + ["--raw"] + b, draws).RawOut?
    ensures Run(a + b, draws).JsonOut? ==>
      Run(a + ["--raw"] + b, draws) == RawOut(RawField(Run(a + b, draws).decision))
    ensures !Run(a + b, draws).JsonOut? ==> Run(a + ["--raw"] + b, draws) == Run(a + b, draws)
  {
    RawFlagStripped(a, b);
    assert CommandIn(a + ["--raw"] + b) == CommandIn(a + b);
    assert RestIn(a + ["--raw"] + b) == RestIn(a + b);
    assert "--raw" in a + ["--raw"] + b by {
      assert (a + ["--raw"] + b)[|a|] == "--raw";
    }
  }

  /** The script exits with an error exactly for a roll whose notation does not
      parse and for a pick without options, with their messages. */
  lemma ErrorExits(args: seq<string>, draws: nat -> Draw)
    ensures Run(args, draws).ErrorExit? <==>
      (CommandIn(args) == RollCmd && ParseDice(Notation(RestIn(args))).None?) ||
      (CommandIn(args) == PickCmd && RestIn(args) == [])
    ensures CommandIn(args) == RollCmd && ParseDice(Notation(RestIn(args))).None? ==>
      Run(args, draws) == ErrorExit("Invalid dice notation: " + Notation(RestIn(args)))
    ensures CommandIn(args) == PickCmd && RestIn(args) == [] ==>
      Run(args, draws) == ErrorExit("No options provided")
  {
  }

  /** With no command word, help is shown, with or without `--raw`. */
  lemma NoCommandIsHelp(args: seq<string>, draws: nat -> Draw)
    requires forall i :: 0 <= i < |args| ==> args[i] == "--raw"
    ensures Run(args, draws) == HelpText
  {
    FilterNone(args, IsNotRaw);
    assert ParseArgs(args).words == [];
    assert CommandOf(CommandWord([])) == HelpCmd;
  }

  /** `--raw` anywhere only switches the output to raw mode. */
  lemma {:induction false} RawFlagStripped(a: seq<string>, b: seq<string>)
    ensures ParseArgs(a + ["--raw"] + b) == Invocation(true, ParseArgs(a + b).words)
  {
    FilterConcat(a, ["--raw"], IsNotRaw);
    FilterConcat(a + ["--raw"], b, IsNotRaw);
    FilterConcat(a, b, IsNotRaw);
    assert Filter(["--raw"], IsNotRaw) == [] by {
      assert ["--raw"][1..] == [];
    }
  }

  /** In raw mode a valid roll prints its total. */
  lemma RawRollPrintsTotal(args: seq<string>, notation: string, draws: nat -> Draw)
    requires args == ["roll", notation, "--raw"] && notation != ""
    requires ParseDice(notation).Some?
    ensures Run(args, draws) == RawOut(ShowInt(RollDice(notation, draws).total))
  {
    var ws := ParseArgs(args).words;
    assert args == ["roll", notation] + ["--raw"] + [];
    RawFlagStripped(["roll", notation], []);
    assert ["roll", notation] + [] == ["roll", notation];
    FilterAll(["roll", notation], IsNotRaw);
    assert ws == ["roll", notation];
    assert CommandWord(ws) == "roll";
    assert CommandOf("roll") == RollCmd;
    assert ws[1..] == [notation];
    assert CommandIn(args) == RollCmd && RestIn(args) == [notation];
    assert "--raw" in args by {
      assert args[2] == "--raw";
    }
  }

  /** In raw mode every other command prints its `result`. */
  lemma RawPickPrintsResult(args: seq<string>, options: seq<string>, draws: nat -> Draw)
    requires args == ["--raw", "pick"] + options && "--raw" !in options && options != []
    ensures Run(args, draws) == RawOut(PickRandom(options, draws(0)))
  {
    PickWords(args, options);
    assert CommandIn(args) == PickCmd by {
      assert CommandOf("pick") == PickCmd;
    }
    var d := Decide(PickCmd, options, draws);
    assert d == Picked(options, PickRandom(options, draws(0)), PickEmoji);
    assert RawField(d) == PickRandom(options, draws(0));
  }

  /** `--raw pick …options` reads as the word `pick` followed by the options. */
  lemma PickWords(args: seq<string>, options: seq<string>)
    requires args == ["--raw", "pick"] + options && "--raw" !in options
    ensures "--raw" in args
    ensures ParseArgs(args).words == ["pick"] + options
    ensures CommandWord(ParseArgs(args).words) == "pick"
    ensures RestIn(args) == options
  {
    var picked := ["pick"] + options;
    assert args[0] == "--raw";
    assert args == [] + ["--raw"] + picked;
    RawFlagStripped([], picked);
    assert [] + picked == picked;
    FilterAll(picked, IsNotRaw);
    assert picked[0] == "pick" && picked[1..] == options;
  }

  /** A lone command word reaches its command with no further arguments. */
  lemma SingleWord(args: seq<string>, w: string)
    requires args == [w] && w != "--raw" && w != ""
    ensures "--raw" !in args
    ensures CommandIn(args) == CommandOf(w)
    ensures RestIn(args) == []
  {
    FilterAll(args, IsNotRaw);
    assert ParseArgs(args).words == args;
    assert args[1..] == [];
  }

  /** `number` with no bounds draws from 1..100. */
  lemma NumberDefaults(draws: nat -> Draw)
    ensures Run(["number"], draws) == JsonOut(Numbered(1, 100, RandomInt(1, 100, draws(0)), NumberEmoji))
  {
    var args := ["number"];
    SingleWord(args, "number");
    assert CommandOf("number") == NumberCmd;
    assert Arg([], 0) == None && Arg([], 1) == None;
    assert Decide(NumberCmd, [], draws) == RandomNumber(1, 100, draws(0));
  }

  /** `roll` without notation rolls one six-sided die. */
  lemma RollDefaultsToD6(draws: nat -> Draw)
    ensures Run(["roll"], draws) == JsonOut(RollDice("d6", draws))
  {
    var args := ["roll"];
    SingleWord(args, "roll");
    assert CommandOf("roll") == RollCmd;
    assert Notation([]) == "d6";
    assert RollDice("d6", draws).Rolled? by {
      var n := "d6";
      assert ParseDice(n).Some? by {
        DefaultNotationParses(n);
      }
    }
  }

  lemma DefaultNotationParses(n: string)
    requires n == "d6"
    ensures ParseDice(n) == Some(Dice(1, 6))
  {
    assert Lower(n) == n && LeadingDigits(n) == 0 && n[1..] == "6";
    assert DigitsValue("6") == 6;
  }

  /** `8ball` without a question asks "?". */
  lemma EightBallDefaultsToQuestionMark(draws: nat -> Draw)
    ensures Run(["8ball"], draws) == JsonOut(EightBall("?", draws(0)))
  {
    var args := ["8ball"];
    SingleWord(args, "8ball");
    assert CommandOf("8ball") == EightBallCmd;
    assert Join([], " ") == "";
    assert Decide(EightBallCmd, [], draws) == EightBall("?", draws(0));
  }
}
