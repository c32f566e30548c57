/**
 The command line of the power-supply script (at-rd6000.py:432-469):
 options (`-h`, `-i=`) first, then command arguments, which are split into
 tokens and checked one by one. `[` opens a repeated group and `]=n` closes
 it; at the end the groups must balance.
 */
module SupplyCommands {
  import opened Basics
  import opened SupplyTokens

  const MismatchMessage := "mismatched [ and ] group indicators"

  /** The prefixes whose argument is a number read by `float()`. */
  const FloatPrefixes: seq<string> := ["s=", "c=", "c+", "c-", "v=", "v+", "v-"]
  /** The limit prefixes, four characters long. */
  const LimitPrefixes: seq<string> := ["ovp=", "ocp="]

  /**
   Whether `option` starts with one of `prefixes`, all of them `length`
   characters long; an option no longer than that is an error in itself.
   */
  function StartsWithAny(option: string, prefixes: seq<string>, length: nat): (r: Outcome<bool>)
    ensures r.Ok? <==> |option| > length
    ensures !r.Ok? ==> r == BadToken(option)
    ensures r == Ok(true) <==> |option| > length && option[..length] in prefixes
  {
    if |option| > length then Ok(option[..length] in prefixes) else BadToken(option)
  }

  /** The command when the text after its `length`-character prefix is an integer. */
  function ValidInteger(syntax: NumberSyntax, command: string, length: nat): (r: Outcome<string>)
    ensures r.Ok? <==> |command| > length && syntax.parseInt(command[length..]).Some?
    ensures r.Ok? ==> r.value == command
    ensures !r.Ok? ==> r == BadToken(command)
  {
    if |command| > length && syntax.parseInt(command[length..]).Some? then Ok(command) else BadToken(command)
  }

  /** The command when the text after its `length`-character prefix is a floating-point number. */
  function ValidFloat(syntax: NumberSyntax, command: string, length: nat): (r: Outcome<string>)
    ensures r.Ok? <==> |command| > length && syntax.isFloat(command[length..])
    ensures r.Ok? ==> r.value == command
    ensures !r.Ok? ==> r == BadToken(command)
  {
    if |command| > length && syntax.isFloat(command[length..]) then Ok(command) else BadToken(command)
  }

  /** The parser's variables: the supply index and the commands with their group depth. */
  datatype Parsed = Parsed(supplyIndex: int, commands: seq<string>, depth: int)

  const Initial := Parsed(1, [], 0)

  /** The tokens a power-supply command line may hold, stated without reference to the order of the checks. */
  predicate CommandToken(syntax: NumberSyntax, t: string) {
    || t == "on" || t == "off" || t == "["
    || (|t| > 2 && t[..2] == "]=" && syntax.parseInt(t[2..]).Some?)
    || (|t| > 2 && t[..2] == "m=" && syntax.parseInt(t[2..]).Some?)
    || (|t| > 2 && t[..2] in FloatPrefixes && syntax.isFloat(t[2..]))
    || (|t| > 4 && t[..4] in LimitPrefixes && syntax.isFloat(t[4..]))
  }

  /** What a token does to the group depth: `[` opens, `]=` closes. */
  function DepthChange(t: string): int {
    if t == "[" then 1 else if |t| >= 2 && t[0] == ']' && t[1] == '=' then -1 else 0
  }

  /** Appends a checked command, or passes on the refusal of token `t`. */
  function Record(checked: Outcome<string>, p: Parsed, t: string): Outcome<Parsed> {
    if checked.Ok? then Ok(p.(commands := p.commands + [checked.value])) else BadToken(t)
  }

  /** The four prefix families share no two-character head. */
  lemma PrefixHeads(t: string)
    requires |t| > 2
    ensures t[..2] == "]=" || t[..2] == "m=" ==> t[..2] !in FloatPrefixes
    ensures |t| > 4 && t[..4] in LimitPrefixes ==> t[..2] != "]=" && t[..2] != "m=" && t[..2] !in FloatPrefixes
  {
    if |t| > 4 && t[..4] in LimitPrefixes {
      assert t[..2] == t[..4][..2];
      assert t[..2] == "ov" || t[..2] == "oc";
    }
  }

  /** One turn of the inner loop over the tokens of an argument. */
  function Command(syntax: NumberSyntax, p: Parsed, t: string): (r: Outcome<Parsed>)
    ensures r.Ok? <==> CommandToken(syntax, t)
    ensures !r.Ok? ==> r == BadToken(t)
    ensures r.Ok? ==> r.value == Parsed(p.supplyIndex, p.commands + [t], p.depth + DepthChange(t))
  {
    if t == "on" || t == "off" then Ok(p.(commands := p.commands + [t]))
    else if t == "[" then Ok(p.(depth := p.depth + 1, commands := p.commands + [t]))
    else
      var closing := StartsWithAny(t, ["]="], 2);
      if !closing.Ok? then BadToken(t)
      else
        PrefixHeads(t);
        if closing.value then Record(ValidInteger(syntax, t, 2), p.(depth := p.depth - 1), t)
        else if StartsWithAny(t, ["m="], 2) == Ok(true) then Record(ValidInteger(syntax, t, 2), p, t)
        else if StartsWithAny(t, FloatPrefixes, 2) == Ok(true) then Record(ValidFloat(syntax, t, 2), p, t)
        else if StartsWithAny(t, LimitPrefixes, 4) == Ok(true) then Record(ValidFloat(syntax, t, 4), p, t)
        else BadToken(t)
  }

  function Tokens(syntax: NumberSyntax, p: Parsed, ts: seq<string>): Outcome<Parsed> {
    ApplyAll(ts, p, (q, t) => Command(syntax, q, t))
  }

  /**
   Whether the argument loop takes `arg`: an option only while no command has
   been read, and then only `-i=` with an integer; any other argument when
   every one of its tokens is a command.
   */
  predicate ArgumentOk(syntax: NumberSyntax, arg: string, afterCommands: bool) {
    if StartsWith(arg, "-") then !afterCommands && StartsWith(arg, "-i=") && syntax.parseInt(arg[3..]).Some?
    else forall i :: 0 <= i < |TokenSplit(arg)| ==> CommandToken(syntax, TokenSplit(arg)[i])
  }

  /** One turn of the outer loop over the arguments. */
  function Argument(syntax: NumberSyntax, p: Parsed, arg: string): (r: Outcome<Parsed>)
    ensures r.Ok? <==> ArgumentOk(syntax, arg, |p.commands| > 0)
    ensures StartsWith(arg, "-") && |p.commands| > 0 ==> r == BadToken(arg)
    ensures arg == "-h" && |p.commands| == 0 ==> r == Help
    ensures StartsWith(arg, "-") && arg != "-h" && !r.Ok? ==> r == BadToken(arg)
    ensures StartsWith(arg, "-") && r.Ok? ==> r.value == p.(supplyIndex := syntax.parseInt(arg[3..]).value)
    ensures !StartsWith(arg, "-") && r.Ok? ==>
      r.value == Parsed(p.supplyIndex, p.commands + TokenSplit(arg), p.depth + DepthOf(TokenSplit(arg)))
    ensures !StartsWith(arg, "-") && !r.Ok? ==>
      (exists i :: 0 <= i < |TokenSplit(arg)| && !CommandToken(syntax, TokenSplit(arg)[i]))
      && r == BadToken(TokenSplit(arg)[FirstRefused(syntax, TokenSplit(arg))])
  {
    if StartsWith(arg, "-") then
      if |p.commands| > 0 then BadToken(arg)
      else if arg == "-h" then Help
      else if StartsWith(arg, "-i=") then
        match syntax.parseInt(arg[3..])
        case None => BadToken(arg)
        case Some(n) => Ok(p.(supplyIndex := n))
      else BadToken(arg)
    else
      var ts := TokenSplit(arg);
      TokensAccepted(syntax, p, ts);
      if Tokens(syntax, p, ts).Ok? then
        TokensEffect(syntax, p, ts);
        Tokens(syntax, p, ts)
      else
        TokensFirstBad(syntax, p, ts);
        Tokens(syntax, p, ts)
  }

  /** The index of the first token that is not a command. */
  function FirstRefused(syntax: NumberSyntax, ts: seq<string>): (k: nat)
    requires exists i :: 0 <= i < |ts| && !CommandToken(syntax, ts[i])
    ensures k < |ts| && !CommandToken(syntax, ts[k])
    ensures forall j :: 0 <= j < k ==> CommandToken(syntax, ts[j])
  {
    if !CommandToken(syntax, ts[0]) then 0
    else
      assert forall i :: 1 <= i < |ts| ==> ts[1..][i - 1] == ts[i];
      1 + FirstRefused(syntax, ts[1..])
  }

  /** Refused tokens end the inner loop with the first token that is not a command. */
  lemma TokensFirstBad(syntax: NumberSyntax, p: Parsed, ts: seq<string>)
    requires !Tokens(syntax, p, ts).Ok?
    ensures exists i :: 0 <= i < |ts| && !CommandToken(syntax, ts[i])
    ensures Tokens(syntax, p, ts) == BadToken(ts[FirstRefused(syntax, ts)])
  {
    TokensAccepted(syntax, p, ts);
    var k := FirstRefused(syntax, ts);
    var stop: string -> Outcome<Parsed> := t => BadToken(t);
    ApplyAllFirstStop(ts, p, (q, t) => Command(syntax, q, t), t => CommandToken(syntax, t), stop, k);
  }

  /**
   The whole command line: the argument loop, then the group balance check.
   It is taken exactly when every argument passes its check and the groups
   balance, and then it holds the tokens of the non-option arguments.
   */
  function Parse(syntax: NumberSyntax, args: seq<string>): (r: Outcome<Parsed>)
    ensures r.Ok? <==> LineAccepted(syntax, args) && DepthOf(CommandsOf(args)) == 0
    ensures LineAccepted(syntax, args) && DepthOf(CommandsOf(args)) != 0 ==> r == Failed(MismatchMessage)
    ensures r.Ok? ==> r.value.commands == CommandsOf(args) && r.value.depth == 0
  {
    LoopAccepts(syntax, args);
    var r := Loop(syntax, args);
    if r.Ok? then
      LoopCommands(syntax, args);
      if r.value.depth != 0 then Failed(MismatchMessage) else r
    else r
  }

  /** Sum of the depth changes of a list of tokens. */
  function DepthOf(ts: seq<string>): int {
    if |ts| == 0 then 0 else DepthOf(ts[..|ts| - 1]) + DepthChange(ts[|ts| - 1])
  }

  /** The commands contributed by the arguments: the tokens of every argument that is not an option. */
  function CommandsOf(args: seq<string>): seq<string> {
    if |args| == 0 then []
    else
      var a := args[|args| - 1];
      CommandsOf(args[..|args| - 1]) + (if StartsWith(a, "-") then [] else TokenSplit(a))
  }

  lemma {:induction false} DepthOfAppend(ts: seq<string>, us: seq<string>)
    ensures DepthOf(ts + us) == DepthOf(ts) + DepthOf(us)
    decreases |us|
  {
    if |us| == 0 {
      assert ts + us == ts;
    } else {
      assert (ts + us)[..|ts + us| - 1] == ts + us[..|us| - 1];
      DepthOfAppend(ts, us[..|us| - 1]);
    }
  }

  /** The depth a token list moves is its first token's change plus that of the rest. */
  lemma DepthCons(ts: seq<string>)
    requires |ts| > 0
    ensures DepthOf(ts) == DepthChange(ts[0]) + DepthOf(ts[1..])
  {
    DepthOfAppend([ts[0]], ts[1..]);
    assert [ts[0]] + ts[1..] == ts;
    assert [ts[0]][..0] == [];
  }

  /** The tokens of an argument are taken exactly when every one of them is a command. */
  lemma TokensAccepted(syntax: NumberSyntax, p: Parsed, ts: seq<string>)
    ensures Tokens(syntax, p, ts).Ok? <==> forall i :: 0 <= i < |ts| ==> CommandToken(syntax, ts[i])
  {
    ApplyAllOk(ts, p, (q, t) => Command(syntax, q, t), t => CommandToken(syntax, t));
  }

  /** Taken tokens are appended to the commands in order and move the depth by the sum of their changes. */
  lemma {:induction false} TokensEffect(syntax: NumberSyntax, p: Parsed, ts: seq<string>)
    requires Tokens(syntax, p, ts).Ok?
    ensures Tokens(syntax, p, ts).value == Parsed(p.supplyIndex, p.commands + ts, p.depth + DepthOf(ts))
    decreases |ts|
  {
    if |ts| == 0 {
      assert p.commands + ts == p.commands;
    } else {
      var q := Command(syntax, p, ts[0]);
      assert q.Ok? && Tokens(syntax, p, ts) == Tokens(syntax, q.value, ts[1..]);
      TokensEffect(syntax, q.value, ts[1..]);
      DepthCons(ts);
      assert p.commands + [ts[0]] + ts[1..] == p.commands + ts;
    }
  }

  /** The argument loop as it stands after `args`, without the final balance check. */
  function Loop(syntax: NumberSyntax, args: seq<string>): Outcome<Parsed> {
    ApplyAll(args, Initial, (p, a) => Argument(syntax, p, a))
  }

  /** The loop over `args + [a]` is the loop over `args` followed by one turn for `a`. */
  lemma LoopSnoc(syntax: NumberSyntax, args: seq<string>)
    requires |args| > 0
    ensures Loop(syntax, args) ==
      var r := Loop(syntax, args[..|args| - 1]);
      if r.Ok? then Argument(syntax, r.value, args[|args| - 1]) else r
  {
    var init, a := args[..|args| - 1], args[|args| - 1];
    assert args == init + [a];
    ApplyAllSnoc(init, a, Initial, (p, a) => Argument(syntax, p, a));
  }

  /** Every argument passes its check, given the commands of the arguments before it. */
  predicate LineAccepted(syntax: NumberSyntax, args: seq<string>) {
    forall j :: 0 <= j < |args| ==> ArgumentOk(syntax, args[j], CommandsOf(args[..j]) != [])
  }

  /**
   The argument loop completes exactly when every argument passes its check:
   no `-h`, no option after a command, `-i=` only with an integer, and only
   command tokens in the other arguments.
   */
  lemma {:induction false} LoopAccepts(syntax: NumberSyntax, args: seq<string>)
    ensures Loop(syntax, args).Ok? <==> LineAccepted(syntax, args)
    decreases |args|
  {
    if |args| > 0 {
      var init, a := args[..|args| - 1], args[|args| - 1];
      LoopSnoc(syntax, args);
      LoopAccepts(syntax, init);
      LineAcceptedSnoc(syntax, args);
      if Loop(syntax, init).Ok? {
        LoopCommands(syntax, init);
      }
    }
  }

  /**
   A refused line ends with its first refused argument: the help for `-h`,
   that argument for any other refused option, and the first token that is
   not a command for any other argument. It never reaches the balance check.
   */
  lemma ParseStopsAtFirst(syntax: NumberSyntax, args: seq<string>, k: nat)
    requires k < |args| && LineAccepted(syntax, args[..k])
    requires !ArgumentOk(syntax, args[k], CommandsOf(args[..k]) != [])
    ensures Loop(syntax, args[..k]).Ok?
    ensures Parse(syntax, args) == Argument(syntax, Loop(syntax, args[..k]).value, args[k])
    ensures Parse(syntax, args).Help? || Parse(syntax, args).BadToken?
  {
    var pre := args[..k];
    LoopAccepts(syntax, pre);
    LoopCommands(syntax, pre);
    assert args[..k + 1][..k] == pre && args[..k + 1][k] == args[k];
    LoopSnoc(syntax, args[..k + 1]);
    ApplyAllStops(args, k + 1, Initial, (p, a) => Argument(syntax, p, a));
  }

  /** A line is accepted when the line before its last argument is and that argument passes its check. */
  lemma LineAcceptedSnoc(syntax: NumberSyntax, args: seq<string>)
    requires |args| > 0
    ensures LineAccepted(syntax, args) <==>
      LineAccepted(syntax, args[..|args| - 1]) && ArgumentOk(syntax, args[|args| - 1], CommandsOf(args[..|args| - 1]) != [])
  {
    var init, n := args[..|args| - 1], |args| - 1;
    assert args[..n] == init;
    if LineAccepted(syntax, args) {
      forall j | 0 <= j < n
        ensures ArgumentOk(syntax, init[j], CommandsOf(init[..j]) != [])
      {
        assert args[j] == init[j] && args[..j] == init[..j];
      }
    }
    if LineAccepted(syntax, init) && ArgumentOk(syntax, args[n], CommandsOf(init) != []) {
      forall j | 0 <= j < |args|
        ensures ArgumentOk(syntax, args[j], CommandsOf(args[..j]) != [])
      {
        if j < n {
          assert args[j] == init[j] && args[..j] == init[..j];
        }
      }
    }
  }

  /** A completed loop holds the command tokens of all non-option arguments in order, at their balance. */
  lemma {:induction false} LoopCommands(syntax: NumberSyntax, args: seq<string>)
    requires Loop(syntax, args).Ok?
    ensures Loop(syntax, args).value.commands == CommandsOf(args)
    ensures Loop(syntax, args).value.depth == DepthOf(CommandsOf(args))
    decreases |args|
  {
    if |args| > 0 {
      var init, a := args[..|args| - 1], args[|args| - 1];
      LoopSnoc(syntax, args);
      LoopCommands(syntax, init);
      if !StartsWith(a, "-") {
        TokensEffect(syntax, Loop(syntax, init).value, TokenSplit(a));
        DepthOfAppend(CommandsOf(init), TokenSplit(a));
      } else {
        assert CommandsOf(args) == CommandsOf(init) + [];
      }
    }
  }

  /** A completed loop holds the index of the last `-i=` option, or 1 when there is none. */
  lemma {:induction false} LoopIndex(syntax: NumberSyntax, args: seq<string>)
    requires Loop(syntax, args).Ok?
    ensures LastWith(args, "-i=").None? ==> Loop(syntax, args).value.supplyIndex == 1
    ensures LastWith(args, "-i=").Some? ==>
      syntax.parseInt(LastWith(args, "-i=").value) == Some(Loop(syntax, args).value.supplyIndex)
    decreases |args|
  {
    if |args| > 0 {
      var init, a := args[..|args| - 1], args[|args| - 1];
      LoopSnoc(syntax, args);
      LoopIndex(syntax, init);
      if !StartsWith(a, "-") {
        TokensEffect(syntax, Loop(syntax, init).value, TokenSplit(a));
      }
    }
  }

  /** Every command a completed loop holds is one of the accepted command tokens. */
  lemma {:induction false} LoopTokensValid(syntax: NumberSyntax, args: seq<string>)
    requires Loop(syntax, args).Ok?
    ensures forall i :: 0 <= i < |CommandsOf(args)| ==> CommandToken(syntax, CommandsOf(args)[i])
    decreases |args|
  {
    if |args| > 0 {
      var init, a := args[..|args| - 1], args[|args| - 1];
      LoopSnoc(syntax, args);
      LoopTokensValid(syntax, init);
      if !StartsWith(a, "-") {
        var ts, n := TokenSplit(a), |CommandsOf(init)|;
        assert CommandsOf(args) == CommandsOf(init) + ts;
        assert forall i :: 0 <= i < |ts| ==> CommandToken(syntax, ts[i]);
        forall i | 0 <= i < |CommandsOf(args)|
          ensures CommandToken(syntax, CommandsOf(args)[i])
        {
          if i < n {
            assert CommandsOf(args)[i] == CommandsOf(init)[i];
          } else {
            assert CommandsOf(args)[i] == ts[i - n];
          }
        }
      } else {
        assert CommandsOf(args) == CommandsOf(init) + [];
      }
    }
  }

  /** In a completed loop no option follows an argument that contributed a command token. */
  lemma {:induction false} LoopOptionsFirst(syntax: NumberSyntax, args: seq<string>)
    requires Loop(syntax, args).Ok?
    ensures forall j :: 0 <= j < |args| && StartsWith(args[j], "-") ==> CommandsOf(args[..j]) == []
    decreases |args|
  {
    if |args| > 0 {
      var init, a := args[..|args| - 1], args[|args| - 1];
      LoopSnoc(syntax, args);
      LoopOptionsFirst(syntax, init);
      LoopCommands(syntax, init);
      forall j | 0 <= j < |args| && StartsWith(args[j], "-") ensures CommandsOf(args[..j]) == [] {
        if j < |init| {
          assert init[..j] == args[..j];
        } else {
          assert args[..j] == init;
        }
      }
    }
  }

  /** Every accepted command line holds only well-formed command tokens, in groups that balance. */
  lemma ParseBalanced(syntax: NumberSyntax, args: seq<string>)
    requires Parse(syntax, args).Ok?
    ensures Parse(syntax, args).value.commands == CommandsOf(args)
    ensures DepthOf(CommandsOf(args)) == 0
    ensures forall j :: 0 <= j < |args| && StartsWith(args[j], "-") ==> CommandsOf(args[..j]) == []
    ensures forall i :: 0 <= i < |CommandsOf(args)| ==> CommandToken(syntax, CommandsOf(args)[i])
  {
    LoopCommands(syntax, args);
    LoopOptionsFirst(syntax, args);
    LoopTokensValid(syntax, args);
  }

  /** Number of tokens that close a group: those that start with `]=`. */
  function Closings(ts: seq<string>): nat {
    if |ts| == 0 then 0 else Closings(ts[..|ts| - 1]) + (if DepthChange(ts[|ts| - 1]) == -1 then 1 else 0)
  }

  /** The depth is the number of `[` tokens less the number of `]=` tokens. */
  lemma {:induction false} DepthCounts(ts: seq<string>)
    ensures DepthOf(ts) == Count(ts, "[") - Closings(ts)
    decreases |ts|
  {
    if |ts| > 0 {
      DepthCounts(ts[..|ts| - 1]);
    }
  }

  /**
   A command line whose loop completes is refused exactly when its final
   count of `[` tokens differs from its count of `]=` tokens; the depth on the
   way is never checked.
   */
  lemma ParseMismatch(syntax: NumberSyntax, args: seq<string>)
    requires Loop(syntax, args).Ok?
    ensures Parse(syntax, args) == Failed(MismatchMessage) <==> Count(CommandsOf(args), "[") != Closings(CommandsOf(args))
  {
    LoopCommands(syntax, args);
    DepthCounts(CommandsOf(args));
  }
}
