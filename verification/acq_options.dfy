/**
 The command line of the LabJack U3 acquisition script (at-u3.py:114-160):
 every argument is an option; the counts must be positive integers, at most
 twelve inputs; file names get `.json` when they have no dot.
 */
module AcqOptions {
  import opened Basics

  const DefaultInputCount := 4
  const DefaultLoopCount := 10
  /** Milliseconds between two sample loops. */
  const DefaultLoopDelay := 100
  /** The default output file: the script's name up to its first dot, followed by `-output.json`. */
  const DefaultOutputFile := "at-u3-output.json"
  const MaxInputs := 12

  datatype Settings = Settings(inputCount: int, loopCount: int, loopDelay: int,
                               configFile: Option<string>, outputFile: string)

  const Defaults := Settings(DefaultInputCount, DefaultLoopCount, DefaultLoopDelay, None, DefaultOutputFile)

  /** The value of a numeric option when `int()` reads it and it is at least `low` and at most `high`. */
  function Bounded(syntax: NumberSyntax, text: string, low: int, high: Option<int>): (r: Option<int>)
    ensures r.Some? <==> syntax.parseInt(text).Some? && low <= syntax.parseInt(text).value
                         && (high.Some? ==> syntax.parseInt(text).value <= high.value)
    ensures r.Some? ==> r == syntax.parseInt(text)
  {
    match syntax.parseInt(text)
    case None => None
    case Some(n) => if n < low || (high.Some? && n > high.value) then None else Some(n)
  }

  /** The arguments the parser takes without stopping, stated option by option. */
  predicate Accepted(syntax: NumberSyntax, arg: string) {
    || (StartsWith(arg, "-n=") && syntax.parseInt(arg[3..]).Some? && 1 <= syntax.parseInt(arg[3..]).value <= MaxInputs)
    || (StartsWith(arg, "-l=") && syntax.parseInt(arg[3..]).Some? && 1 <= syntax.parseInt(arg[3..]).value)
    || (StartsWith(arg, "-t=") && syntax.parseInt(arg[3..]).Some? && 1 <= syntax.parseInt(arg[3..]).value)
    || ((StartsWith(arg, "-c=") || StartsWith(arg, "-o=")) && |arg| > 3)
  }

  /** How a refused argument ends the parse: `-h` with the help text, anything else as a bad token. */
  function Refusal(arg: string): Outcome<Settings> {
    if arg == "-h" then Help else BadToken(arg)
  }

  function SetCount(s: Settings, value: Option<int>, arg: string, which: char): Outcome<Settings>
    requires which in "nlt"
  {
    match value
    case None => BadToken(arg)
    case Some(n) =>
      Ok(if which == 'n' then s.(inputCount := n) else if which == 'l' then s.(loopCount := n) else s.(loopDelay := n))
  }

  /** One turn of the argument loop. */
  function Option(syntax: NumberSyntax, s: Settings, arg: string): (r: Outcome<Settings>)
    ensures r.Ok? <==> Accepted(syntax, arg)
    ensures !r.Ok? ==> r == Refusal(arg)
  {
    if !StartsWith(arg, "-") then BadToken(arg)
    else if arg == "-h" then Help
    else if StartsWith(arg, "-n=") then SetCount(s, Bounded(syntax, arg[3..], 1, Some(MaxInputs)), arg, 'n')
    else if StartsWith(arg, "-l=") then SetCount(s, Bounded(syntax, arg[3..], 1, None), arg, 'l')
    else if StartsWith(arg, "-t=") then SetCount(s, Bounded(syntax, arg[3..], 1, None), arg, 't')
    else if StartsWith(arg, "-c=") then
      match WithDefaultExtension(arg[3..], ".json")
      case None => BadToken(arg)
      case Some(name) => Ok(s.(configFile := Some(name)))
    else if StartsWith(arg, "-o=") then
      match WithDefaultExtension(arg[3..], ".json")
      case None => BadToken(arg)
      case Some(name) => Ok(s.(outputFile := name))
    else BadToken(arg)
  }

  /** The whole option loop, starting from the defaults. */
  function Parse(syntax: NumberSyntax, args: seq<string>): Outcome<Settings> {
    ApplyAll(args, Defaults, (s, a) => Option(syntax, s, a))
  }

  /** The command line is taken exactly when every argument is a well-formed option within its range. */
  lemma ParseAccepts(syntax: NumberSyntax, args: seq<string>)
    ensures Parse(syntax, args).Ok? <==> forall i :: 0 <= i < |args| ==> Accepted(syntax, args[i])
  {
    ApplyAllOk(args, Defaults, (s, a) => Option(syntax, s, a), a => Accepted(syntax, a));
  }

  /** A refused command line ends with the first refused argument: help for `-h`, that token otherwise. */
  lemma ParseStopsAtFirst(syntax: NumberSyntax, args: seq<string>, k: nat)
    requires k < |args| && !Accepted(syntax, args[k])
    requires forall j :: 0 <= j < k ==> Accepted(syntax, args[j])
    ensures Parse(syntax, args) == Refusal(args[k])
  {
    ApplyAllFirstStop(args, Defaults, (s, a) => Option(syntax, s, a), a => Accepted(syntax, a), Refusal, k);
  }

  /** The value the last occurrence of a numeric option gives, or `default`. */
  function LastCount(syntax: NumberSyntax, args: seq<string>, prefix: string, default: int): int {
    match LastWith(args, prefix)
    case None => default
    case Some(v) => if syntax.parseInt(v).Some? then syntax.parseInt(v).value else default
  }

  /** The file name the last occurrence of a file option gives, or `default`. */
  function LastFile(args: seq<string>, prefix: string, default: Option<string>): Option<string> {
    match LastWith(args, prefix)
    case None => default
    case Some(v) => if |v| > 0 then WithDefaultExtension(v, ".json") else default
  }

  /** The settings the last occurrence of each option chooses, or the defaults. */
  function Chosen(syntax: NumberSyntax, args: seq<string>): Settings {
    Settings(LastCount(syntax, args, "-n=", DefaultInputCount),
             LastCount(syntax, args, "-l=", DefaultLoopCount),
             LastCount(syntax, args, "-t=", DefaultLoopDelay),
             LastFile(args, "-c=", None),
             LastFile(args, "-o=", Some(DefaultOutputFile)).value)
  }

  /** Every setting of a taken command line is within the range the options allow. */
  predicate InRange(s: Settings) {
    && 1 <= s.inputCount <= MaxInputs && s.loopCount >= 1 && s.loopDelay >= 1
    && '.' in s.outputFile && (s.configFile.Some? ==> '.' in s.configFile.value)
  }

  /** An accepted option keeps the settings in range. */
  lemma OptionInRange(syntax: NumberSyntax, s: Settings, a: string)
    requires InRange(s) && Option(syntax, s, a).Ok?
    ensures InRange(Option(syntax, s, a).value)
  {
    if StartsWith(a, "-c=") || StartsWith(a, "-o=") {
      DefaultExtensionHasDot(a[3..], ".json");
    }
  }

  /** An accepted option moves the chosen settings of the earlier arguments to those of one argument more. */
  lemma OptionChosen(syntax: NumberSyntax, init: seq<string>, a: string)
    requires Option(syntax, Chosen(syntax, init), a).Ok?
    ensures Option(syntax, Chosen(syntax, init), a).value == Chosen(syntax, init + [a])
  {
    LastWithSnoc(init, a, "-n=");
    LastWithSnoc(init, a, "-l=");
    LastWithSnoc(init, a, "-t=");
    LastWithSnoc(init, a, "-c=");
    LastWithSnoc(init, a, "-o=");
  }

  /**
   A command line that is taken sets each option from its last occurrence,
   keeps the default of an option that does not occur, and leaves every
   setting within its range.
   */
  lemma {:induction false} ParseLastWins(syntax: NumberSyntax, args: seq<string>)
    requires Parse(syntax, args).Ok?
    ensures Parse(syntax, args).value == Chosen(syntax, args)
    ensures InRange(Parse(syntax, args).value)
    decreases |args|
  {
    if |args| == 0 {
      assert DefaultOutputFile[12] == '.';
    } else {
      var init, a := args[..|args| - 1], args[|args| - 1];
      assert args == init + [a];
      ApplyAllSnoc(init, a, Defaults, (s, a) => Option(syntax, s, a));
      ParseLastWins(syntax, init);
      OptionChosen(syntax, init, a);
      OptionInRange(syntax, Chosen(syntax, init), a);
    }
  }
}
