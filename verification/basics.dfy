/**
 Small building blocks shared by the three instrument scripts: an optional
 value, decimal and hexadecimal text, the "append a default extension when
 the name has no dot" rule for file names, and the number syntax that the
 scripts delegate to Python's `int()` and `float()`.
 */
module Basics {

  datatype Option<+T> = None | Some(value: T)

  /**
   The string-to-number conversions the scripts borrow from the language
   runtime. They are parameters of the model: every property proved below
   holds whichever conversion is plugged in.
   `parseInt(s)` is `Some(n)` when `int(s)` returns `n`, `None` when it raises;
   `isFloat(s)` holds when `float(s)` returns normally.
   */
  datatype NumberSyntax = NumberSyntax(parseInt: string -> Option<int>, isFloat: string -> bool)

  predicate IsDigit(c: char) {
    '0' <= c <= '9'
  }

  predicate AllDigits(s: string) {
    forall i :: 0 <= i < |s| ==> IsDigit(s[i])
  }

  /** The lower-case hexadecimal character of a nibble, as `'%x' % n` prints it. */
  function HexDigit(n: int): (c: char)
    requires 0 <= n < 16
    ensures IsDigit(c) <==> n < 10
    ensures 'a' <= c <= 'f' <==> n >= 10
    ensures HexValue(c) == n
  {
    if n < 10 then '0' + n as char else 'a' + (n - 10) as char
  }

  /** The value of a lower-case hexadecimal character; the inverse of `HexDigit`. */
  function HexValue(c: char): int {
    if '0' <= c <= '9' then c as int - '0' as int
    else if 'a' <= c <= 'f' then c as int - 'a' as int + 10
    else -1
  }

  function DigitValue(c: char): nat
    requires IsDigit(c)
  {
    c as int - '0' as int
  }

  /** Decimal text of a natural number without leading zeros, as `'%d' % n` prints it. */
  function FormatDecimal(n: nat): (s: string)
    ensures |s| >= 1
    ensures AllDigits(s)
    ensures |s| > 1 ==> s[0] != '0'
    decreases n
  {
    if n < 10 then ['0' + n as char]
    else FormatDecimal(n / 10) + ['0' + (n % 10) as char]
  }

  /** Value of a string of decimal digits, most significant first. */
  function DigitsValue(s: string): nat
    requires AllDigits(s)
  {
    if |s| == 0 then 0 else 10 * DigitsValue(s[..|s| - 1]) + DigitValue(s[|s| - 1])
  }

  /** Reading back what `FormatDecimal` wrote gives the number again. */
  lemma {:induction false} FormatDecimalRoundTrip(n: nat)
    ensures DigitsValue(FormatDecimal(n)) == n
    decreases n
  {
    var s := FormatDecimal(n);
    if n >= 10 {
      FormatDecimalRoundTrip(n / 10);
      assert s[..|s| - 1] == FormatDecimal(n / 10);
    }
  }

  /** Different numbers have different decimal texts. */
  lemma FormatDecimalInjective(m: nat, n: nat)
    requires FormatDecimal(m) == FormatDecimal(n)
    ensures m == n
  {
    FormatDecimalRoundTrip(m);
    FormatDecimalRoundTrip(n);
  }

  /**
   The file-name rule of the option parsers: an empty name is refused, a name
   with no dot gets `ext` appended, any other name is kept as it is.
   */
  function WithDefaultExtension(name: string, ext: string): (r: Option<string>)
    ensures r.None? <==> |name| == 0
    ensures r.Some? && '.' in name ==> r.value == name
    ensures r.Some? && '.' !in name ==>
      |r.value| == |name| + |ext| && r.value[..|name|] == name && r.value[|name|..] == ext
  {
    if |name| < 1 then None
    else if '.' in name then Some(name)
    else Some(name + ext)
  }

  /** When the extension carries a dot, an accepted name always ends up with one. */
  lemma DefaultExtensionHasDot(name: string, ext: string)
    requires '.' in ext
    requires WithDefaultExtension(name, ext).Some?
    ensures '.' in WithDefaultExtension(name, ext).value
  {
    var r := WithDefaultExtension(name, ext).value;
    if '.' !in name {
      var k :| 0 <= k < |ext| && ext[k] == '.';
      assert r[|name| + k] == '.';
    }
  }

  /** Applying the rule to its own result changes nothing. */
  lemma DefaultExtensionIdempotent(name: string, ext: string)
    requires '.' in ext
    requires WithDefaultExtension(name, ext).Some?
    ensures WithDefaultExtension(WithDefaultExtension(name, ext).value, ext) == WithDefaultExtension(name, ext)
  {
    DefaultExtensionHasDot(name, ext);
  }

  /** Whether `s` begins with `prefix`, as Python's `str.startswith`. */
  predicate StartsWith(s: string, prefix: string) {
    |prefix| <= |s| && s[..|prefix|] == prefix
  }

  /** Concatenation of a sequence of sequences. */
  function Flatten<T>(xs: seq<seq<T>>): seq<T> {
    if |xs| == 0 then [] else Flatten(xs[..|xs| - 1]) + xs[|xs| - 1]
  }

  lemma {:induction false} FlattenAppend<T>(xs: seq<seq<T>>, ys: seq<seq<T>>)
    ensures Flatten(xs + ys) == Flatten(xs) + Flatten(ys)
    decreases |ys|
  {
    if |ys| == 0 {
      assert xs + ys == xs;
    } else {
      var ys' := ys[..|ys| - 1];
      assert (xs + ys)[..|xs + ys| - 1] == xs + ys';
      FlattenAppend(xs, ys');
    }
  }

  /** Number of occurrences of `x` in `s`. */
  function Count<T(==)>(s: seq<T>, x: T): nat {
    if |s| == 0 then 0 else Count(s[..|s| - 1], x) + (if s[|s| - 1] == x then 1 else 0)
  }

  /**
   How a command-line parser ends: with its result, with the help text, with
   the token it could not parse, or with another error message. The scripts
   print the help text or the message and exit.
   */
  datatype Outcome<+T> = Ok(value: T) | Help | BadToken(token: string) | Failed(message: string)

  /**
   The scripts' argument loops: each argument updates the parser's state, and
   the first argument that does not give `Ok` ends the loop with its outcome.
   */
  function ApplyAll<S>(args: seq<string>, s: S, step: (S, string) -> Outcome<S>): Outcome<S> {
    if |args| == 0 then Ok(s)
    else
      var r := step(s, args[0]);
      if r.Ok? then ApplyAll(args[1..], r.value, step) else r
  }

  /** The loop over `args + [a]` is the loop over `args` followed by one more turn. */
  lemma {:induction false} ApplyAllSnoc<S>(args: seq<string>, a: string, s: S, step: (S, string) -> Outcome<S>)
    ensures ApplyAll(args + [a], s, step)
         == if ApplyAll(args, s, step).Ok? then step(ApplyAll(args, s, step).value, a) else ApplyAll(args, s, step)
    decreases |args|
  {
    if |args| == 0 {
      assert args + [a] == [a];
      assert [a][1..] == [];
    } else {
      assert (args + [a])[1..] == args[1..] + [a];
      var r := step(s, args[0]);
      if r.Ok? {
        ApplyAllSnoc(args[1..], a, r.value, step);
      }
    }
  }

  /**
   The loop ends `Ok` exactly when every argument is accepted by `ok`, provided
   `ok` tells in advance, whatever the state, whether a turn gives `Ok`.
   */
  lemma {:induction false} ApplyAllOk<S>(args: seq<string>, s: S, step: (S, string) -> Outcome<S>, ok: string -> bool)
    requires forall t: S, a: string :: step(t, a).Ok? <==> ok(a)
    ensures ApplyAll(args, s, step).Ok? <==> forall i :: 0 <= i < |args| ==> ok(args[i])
    decreases |args|
  {
    if |args| > 0 {
      var r := step(s, args[0]);
      if r.Ok? {
        ApplyAllOk(args[1..], r.value, step, ok);
        assert forall i :: 1 <= i < |args| ==> args[i] == args[1..][i - 1];
      }
    }
  }

  /**
   When a refused argument ends the loop the same way whatever the state
   (`stop`), the loop ends with the first refused argument's outcome.
   */
  lemma {:induction false} ApplyAllFirstStop<S>(args: seq<string>, s: S, step: (S, string) -> Outcome<S>,
                                                ok: string -> bool, stop: string -> Outcome<S>, k: nat)
    requires forall t: S, a: string :: step(t, a).Ok? <==> ok(a)
    requires forall t: S, a: string :: !ok(a) ==> step(t, a) == stop(a)
    requires k < |args| && !ok(args[k])
    requires forall j :: 0 <= j < k ==> ok(args[j])
    ensures ApplyAll(args, s, step) == stop(args[k])
    decreases k
  {
    if k > 0 {
      assert ok(args[0]);
      var r := step(s, args[0]);
      assert forall j :: 0 <= j < k - 1 ==> args[1..][j] == args[j + 1];
      ApplyAllFirstStop(args[1..], r.value, step, ok, stop, k - 1);
    }
  }

  /** Once the loop over a prefix has stopped, the arguments after it change nothing. */
  lemma {:induction false} ApplyAllStops<S>(args: seq<string>, n: nat, s: S, step: (S, string) -> Outcome<S>)
    requires n <= |args| && !ApplyAll(args[..n], s, step).Ok?
    ensures ApplyAll(args, s, step) == ApplyAll(args[..n], s, step)
    decreases n
  {
    if n > 0 {
      assert args[..n][0] == args[0];
      assert args[..n][1..] == args[1..][..n - 1];
      var r := step(s, args[0]);
      if r.Ok? {
        ApplyAllStops(args[1..], n - 1, r.value, step);
      }
    }
  }

  /** The text after `prefix` in the last argument that starts with it, if any. */
  function LastWith(args: seq<string>, prefix: string): Option<string> {
    if |args| == 0 then None
    else
      var a := args[|args| - 1];
      if StartsWith(a, prefix) then Some(a[|prefix|..]) else LastWith(args[..|args| - 1], prefix)
  }

  /** The last occurrence after one more argument: that argument if it has the prefix, the earlier last one otherwise. */
  lemma LastWithSnoc(args: seq<string>, a: string, prefix: string)
    ensures LastWith(args + [a], prefix) == if StartsWith(a, prefix) then Some(a[|prefix|..]) else LastWith(args, prefix)
  {
    assert (args + [a])[..|args + [a]| - 1] == args;
  }
}
