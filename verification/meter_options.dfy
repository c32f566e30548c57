/**
 The command line of the multimeter logger (at-btmeter.py:107-135): every
 argument is an option, `-h` shows the help text, `-i=` picks the meter by
 index and `-f=` names the output file, which gets `.dat` when it has no dot.
 */
module MeterOptions {
  import opened Basics

  const DefaultMeterIndex := 1
  /** The default output file: the script's name up to its first dot, followed by `.dat`. */
  const DefaultFileName := "at-btmeter.dat"

  datatype Settings = Settings(meterIndex: int, fileName: string)

  const Defaults := Settings(DefaultMeterIndex, DefaultFileName)

  /** The arguments the parser takes without stopping. */
  predicate Accepted(syntax: NumberSyntax, arg: string) {
    || (StartsWith(arg, "-i=") && syntax.parseInt(arg[3..]).Some?)
    || (StartsWith(arg, "-f=") && |arg| > 3)
  }

  /** How a refused argument ends the parse: `-h` with the help text, anything else as a bad token. */
  function Refusal(arg: string): Outcome<Settings> {
    if arg == "-h" then Help else BadToken(arg)
  }

  /**
   One turn of the argument loop. The token list of the loop is never filled
   in this script, so its "options before commands" branch is not reachable
   and is not modelled.
   */
  function Option(syntax: NumberSyntax, s: Settings, arg: string): (r: Outcome<Settings>)
    ensures r.Ok? <==> Accepted(syntax, arg)
    ensures !r.Ok? ==> r == Refusal(arg)
    ensures r.Ok? && StartsWith(arg, "-i=") ==> r.value == s.(meterIndex := syntax.parseInt(arg[3..]).value)
    ensures r.Ok? && StartsWith(arg, "-f=") ==> r.value == s.(fileName := WithDefaultExtension(arg[3..], ".dat").value)
  {
    if !StartsWith(arg, "-") then BadToken(arg)
    else if arg == "-h" then Help
    else if StartsWith(arg, "-i=") then
      match syntax.parseInt(arg[3..])
      case None => BadToken(arg)
      case Some(n) => Ok(s.(meterIndex := n))
    else if StartsWith(arg, "-f=") then
      match WithDefaultExtension(arg[3..], ".dat")
      case None => BadToken(arg)
      case Some(name) => Ok(s.(fileName := name))
    else BadToken(arg)
  }

  /** The whole argument loop, starting from the defaults. */
  function Parse(syntax: NumberSyntax, args: seq<string>): Outcome<Settings> {
    ApplyAll(args, Defaults, (s, a) => Option(syntax, s, a))
  }

  /** The command line is taken exactly when every argument is a well-formed `-i=` or `-f=` option. */
  lemma ParseAccepts(syntax: NumberSyntax, args: seq<string>)
    ensures Parse(syntax, args).Ok? <==> forall i :: 0 <= i < |args| ==> Accepted(syntax, args[i])
  {
    ApplyAllOk(args, Defaults, (s, a) => Option(syntax, s, a), a => Accepted(syntax, a));
  }

  /** A refused command line ends with the first refused argument: help for `-h`, that token otherwise. */
  lemma ParseStopsAtFirst(syntax: NumberSyntax, args: seq<string>, k: nat)
    requires k < |args| && !Accepted(syntax, args[k])
    requires forall j :: 0 <= j < k ==> Accepted(syntax, args[j])
    ensures Parse(syntax, args) == Refusal(args[k])
  {
    ApplyAllFirstStop(args, Defaults, (s, a) => Option(syntax, s, a), a => Accepted(syntax, a), Refusal, k);
  }

  /** The settings the last occurrence of each option chooses, or the defaults. */
  function Chosen(syntax: NumberSyntax, args: seq<string>): Settings {
    Settings(
      match LastWith(args, "-i=")
      case None => DefaultMeterIndex
      case Some(v) => if syntax.parseInt(v).Some? then syntax.parseInt(v).value else DefaultMeterIndex,
      match LastWith(args, "-f=")
      case None => DefaultFileName
      case Some(v) => if |v| > 0 then WithDefaultExtension(v, ".dat").value else DefaultFileName)
  }

  /** An accepted option moves the chosen settings of the earlier arguments to those of one argument more. */
  lemma OptionChosen(syntax: NumberSyntax, init: seq<string>, a: string)
    requires Option(syntax, Chosen(syntax, init), a).Ok?
    ensures Option(syntax, Chosen(syntax, init), a).value == Chosen(syntax, init + [a])
  {
    LastWithSnoc(init, a, "-i=");
    LastWithSnoc(init, a, "-f=");
  }

  /**
   A command line that is taken sets each option from its last occurrence and
   keeps the default of an option that does not occur; the file name always
   has a dot.
   */
  lemma {:induction false} ParseLastWins(syntax: NumberSyntax, args: seq<string>)
    requires Parse(syntax, args).Ok?
    ensures Parse(syntax, args).value == Chosen(syntax, args)
    ensures '.' in Parse(syntax, args).value.fileName
    decreases |args|
  {
    if |args| == 0 {
      assert DefaultFileName[10] == '.';
    } else {
      var init, a := args[..|args| - 1], args[|args| - 1];
      assert args == init + [a];
      ApplyAllSnoc(init, a, Defaults, (s, a) => Option(syntax, s, a));
      ParseLastWins(syntax, init);
      OptionChosen(syntax, init, a);
      if StartsWith(a, "-f=") {
        DefaultExtensionHasDot(a[3..], ".dat");
      }
    }
  }
}
