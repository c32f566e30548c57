/**
 The token splitter of the power-supply script (at-rd6000.py:404-426). A
 command argument such as `v=5,[,c=0.1,]=3` is cut at commas; an opening
 bracket is both a cut and a token of its own; a closing bracket starts a new
 token, so `]=3` stays one token.
 */
module SupplyTokens {
  import opened Basics

  /** The loop's two variables: the tokens handed out so far and the one being read. */
  datatype Splitter = Splitter(done: seq<string>, token: string)

  const Start := Splitter([], "")

  /** Hands out the text being read as a token, unless it is empty. */
  function Flush(done: seq<string>, token: string): seq<string> {
    if |token| > 0 then done + [token] else done
  }

  /** One turn of the loop over the characters. */
  function Feed(st: Splitter, c: char): Splitter {
    if c == ',' then Splitter(Flush(st.done, st.token), "")
    else if c == '[' then Splitter(Flush(st.done, st.token) + ["["], "")
    else if c == ']' then Splitter(Flush(st.done, st.token), "]")
    else Splitter(st.done, st.token + [c])
  }

  /** The loop run over `s` from the state `st`. */
  function Run(st: Splitter, s: string): Splitter {
    if |s| == 0 then st else Feed(Run(st, s[..|s| - 1]), s[|s| - 1])
  }

  /** The tokens of a whole argument: the loop's tokens, then the text still being read. */
  function TokenSplit(s: string): seq<string> {
    var st := Run(Start, s);
    Flush(st.done, st.token)
  }

  /** The text being read: no comma, no opening bracket, a closing bracket at most at its head. */
  predicate Partial(t: string) {
    forall k :: 0 <= k < |t| ==> t[k] != ',' && t[k] != '[' && (t[k] == ']' ==> k == 0)
  }

  /** A token handed out: non-empty, and either a lone `[` or partial text. */
  predicate WellFormed(t: string) {
    |t| > 0 && (t == "[" || Partial(t))
  }

  predicate AllWellFormed(ts: seq<string>) {
    forall i :: 0 <= i < |ts| ==> WellFormed(ts[i])
  }

  /** The input with its commas dropped. */
  function WithoutCommas(s: string): (r: string)
    ensures |r| <= |s|
  {
    if |s| == 0 then ""
    else WithoutCommas(s[..|s| - 1]) + (if s[|s| - 1] == ',' then "" else [s[|s| - 1]])
  }

  lemma FlattenSnoc(xs: seq<string>, x: string)
    ensures Flatten(xs + [x]) == Flatten(xs) + x
  {
    assert (xs + [x])[..|xs + [x]| - 1] == xs;
  }

  /** Handing out the text being read keeps every token well formed and the joined text unchanged. */
  lemma FlushKeeps(done: seq<string>, token: string)
    requires AllWellFormed(done) && Partial(token)
    ensures AllWellFormed(Flush(done, token))
    ensures Flatten(Flush(done, token)) == Flatten(done) + token
  {
    if |token| > 0 {
      FlattenSnoc(done, token);
    } else {
      assert token == "";
      assert Flatten(done) + token == Flatten(done);
    }
  }

  /** Text that is not a delimiter extends the token being read and keeps it partial. */
  lemma ExtendPartial(token: string, c: char)
    requires Partial(token) && c != ',' && c != '[' && c != ']'
    ensures Partial(token + [c])
  {
    forall k | 0 <= k < |token| + 1
      ensures (token + [c])[k] != ',' && (token + [c])[k] != '[' && ((token + [c])[k] == ']' ==> k == 0)
    {
      if k < |token| {
        assert (token + [c])[k] == token[k];
      }
    }
  }

  /** A lone opening bracket is a well-formed token. */
  lemma AddBracket(done: seq<string>)
    requires AllWellFormed(done)
    ensures AllWellFormed(done + ["["])
    ensures Flatten(done + ["["]) == Flatten(done) + "["
  {
    FlattenSnoc(done, "[");
    assert forall i :: 0 <= i < |done| ==> (done + ["["])[i] == done[i];
  }

  /** One turn keeps the tokens well formed and adds the character, unless it is a comma, to the joined text. */
  lemma FeedKeeps(st: Splitter, c: char)
    requires AllWellFormed(st.done) && Partial(st.token)
    ensures AllWellFormed(Feed(st, c).done)
    ensures Partial(Feed(st, c).token)
    ensures Flatten(Feed(st, c).done) + Feed(st, c).token == Flatten(st.done) + st.token + (if c == ',' then "" else [c])
  {
    FlushKeeps(st.done, st.token);
    if c == '[' {
      AddBracket(Flush(st.done, st.token));
    } else if c == ']' {
      assert Partial("]");
    } else if c != ',' {
      ExtendPartial(st.token, c);
    }
  }

  /** The loop keeps its tokens well formed and loses no character but the commas. */
  lemma {:induction false} RunInvariant(s: string)
    ensures AllWellFormed(Run(Start, s).done)
    ensures Partial(Run(Start, s).token)
    ensures Flatten(Run(Start, s).done) + Run(Start, s).token == WithoutCommas(s)
    decreases |s|
  {
    if |s| > 0 {
      var init, c := s[..|s| - 1], s[|s| - 1];
      RunInvariant(init);
      FeedKeeps(Run(Start, init), c);
    }
  }

  /** Every token is non-empty, holds no comma, and brackets appear only as the splitter places them. */
  lemma TokensWellFormed(s: string)
    ensures AllWellFormed(TokenSplit(s))
  {
    RunInvariant(s);
    var st := Run(Start, s);
    FlushKeeps(st.done, st.token);
  }

  /** Joining the tokens gives back the input without its commas: nothing else is lost or added. */
  lemma TokensCoverInput(s: string)
    ensures Flatten(TokenSplit(s)) == WithoutCommas(s)
  {
    RunInvariant(s);
    var st := Run(Start, s);
    FlushKeeps(st.done, st.token);
  }

  lemma {:induction false} RunAppend(st: Splitter, a: string, b: string)
    ensures Run(st, a + b) == Run(Run(st, a), b)
    decreases |b|
  {
    if |b| == 0 {
      assert a + b == a;
    } else {
      assert (a + b)[..|a + b| - 1] == a + b[..|b| - 1];
      RunAppend(st, a, b[..|b| - 1]);
    }
  }

  /** Tokens already handed out play no part in how the rest is split. */
  lemma {:induction false} RunShift(d: seq<string>, t: string, b: string)
    ensures Run(Splitter(d, t), b) == Splitter(d + Run(Splitter([], t), b).done, Run(Splitter([], t), b).token)
    decreases |b|
  {
    if |b| == 0 {
      assert d + [] == d;
    } else {
      RunShift(d, t, b[..|b| - 1]);
      var st := Run(Splitter([], t), b[..|b| - 1]);
      assert Flush(d + st.done, st.token) == d + Flush(st.done, st.token);
      assert Flush(d + st.done, st.token) + ["["] == d + (Flush(st.done, st.token) + ["["]);
    }
  }

  /** After a cut the splitter holds exactly the tokens of the text before it. */
  lemma AfterCut(a: string, c: char)
    requires c == ',' || c == '['
    ensures Run(Start, a + [c]) == Splitter(TokenSplit(a) + (if c == '[' then ["["] else []), "")
  {
    assert (a + [c])[..|a + [c]| - 1] == a;
  }

  /** A comma separates completely: the two sides are split independently. */
  lemma CommaSeparates(a: string, b: string)
    ensures TokenSplit(a + "," + b) == TokenSplit(a) + TokenSplit(b)
  {
    RunAppend(Start, a + ",", b);
    AfterCut(a, ',');
    assert TokenSplit(a) + [] == TokenSplit(a);
    RunShift(TokenSplit(a), "", b);
    var st := Run(Start, b);
    assert Flush(TokenSplit(a) + st.done, st.token) == TokenSplit(a) + Flush(st.done, st.token);
  }

  /** An opening bracket separates like a comma and stands as a token between the two sides. */
  lemma BracketSeparates(a: string, b: string)
    ensures TokenSplit(a + "[" + b) == TokenSplit(a) + ["["] + TokenSplit(b)
  {
    RunAppend(Start, a + "[", b);
    AfterCut(a, '[');
    RunShift(TokenSplit(a) + ["["], "", b);
    var st := Run(Start, b);
    assert Flush(TokenSplit(a) + ["["] + st.done, st.token) == TokenSplit(a) + ["["] + Flush(st.done, st.token);
  }

  /** Text free of separators and brackets only extends the text being read. */
  lemma {:induction false} PlainRun(t: string, s: string)
    requires forall k :: 0 <= k < |s| ==> s[k] != ',' && s[k] != '[' && s[k] != ']'
    ensures Run(Splitter([], t), s) == Splitter([], t + s)
    decreases |s|
  {
    if |s| == 0 {
      assert t + s == t;
    } else {
      var init := s[..|s| - 1];
      assert forall k :: 0 <= k < |init| ==> init[k] == s[k];
      PlainRun(t, init);
      assert t + init + [s[|s| - 1]] == t + s;
    }
  }

  /** Text free of separators and brackets is one token, unless it is empty. */
  lemma PlainText(s: string)
    requires forall k :: 0 <= k < |s| ==> s[k] != ',' && s[k] != '[' && s[k] != ']'
    ensures TokenSplit(s) == if |s| == 0 then [] else [s]
  {
    PlainRun("", s);
    assert "" + s == s;
  }

  /** The splitter after a closing bracket: the text before it handed out, the bracket being read. */
  lemma AfterClosing(a: string)
    ensures Run(Start, a + "]") == Splitter(TokenSplit(a), "]")
  {
    assert (a + "]")[..|a + "]"| - 1] == a;
  }

  /**
   A closing bracket cuts before itself only: the text before it is split on
   its own, and the bracket opens the first token of the rest.
   */
  lemma ClosingSeparates(a: string, b: string)
    ensures TokenSplit(a + "]" + b) == TokenSplit(a) + TokenSplit("]" + b)
  {
    RunAppend(Start, a + "]", b);
    AfterClosing(a);
    RunShift(TokenSplit(a), "]", b);
    RunAppend(Start, "]", b);
    AfterClosing("");
    assert "" + "]" == "]";
    PlainText("");
    var st := Run(Splitter([], "]"), b);
    assert Flush(TokenSplit(a) + st.done, st.token) == TokenSplit(a) + Flush(st.done, st.token);
  }

  /** A closing bracket followed by plain text is one token: nothing cuts after the bracket. */
  lemma ClosingPlain(b: string)
    requires forall k :: 0 <= k < |b| ==> b[k] != ',' && b[k] != '[' && b[k] != ']'
    ensures TokenSplit("]" + b) == ["]" + b]
  {
    RunAppend(Start, "]", b);
    AfterClosing("");
    assert "" + "]" == "]";
    PlainText("");
    PlainRun("]", b);
  }

  /** A closing bracket starts a token of its own. */
  lemma ClosingExample()
    ensures TokenSplit("c=1]=3") == ["c=1", "]=3"]
  {
    PlainText("c=1");
    assert Run(Start, "c=1]") == Splitter(["c=1"], "]") by {
      assert "c=1]"[..3] == "c=1";
    }
    assert Run(Start, "c=1]=") == Splitter(["c=1"], "]=") by {
      assert "c=1]="[..4] == "c=1]";
    }
    assert "c=1]=3"[..5] == "c=1]=" && "c=1]=3"[5] == '3';
    assert Run(Start, "c=1]=3") == Splitter(["c=1"], "]=3");
  }

  lemma OpeningExample()
    ensures TokenSplit("[v=5,c=1]=3") == ["["] + TokenSplit("v=5,c=1]=3")
  {
    BracketSeparates("", "v=5,c=1]=3");
    assert "" + "[" + "v=5,c=1]=3" == "[v=5,c=1]=3";
    PlainText("");
  }

  lemma CommaExample()
    ensures TokenSplit("v=5,c=1]=3") == ["v=5"] + TokenSplit("c=1]=3")
  {
    CommaSeparates("v=5", "c=1]=3");
    assert "v=5" + "," + "c=1]=3" == "v=5,c=1]=3";
    PlainText("v=5");
  }

  /** A group of two commands repeated three times. */
  lemma GroupExample()
    ensures TokenSplit("[v=5,c=1]=3") == ["[", "v=5", "c=1", "]=3"]
  {
    OpeningExample();
    CommaExample();
    ClosingExample();
  }
}
