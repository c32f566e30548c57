/**
 The read loop of `at-btmeter.py`: bytes are gathered into a buffer, and a
 read that arrives more than 0.100 s after the previous one closes the
 buffer, which is then decoded and printed. The loop is modelled as a fold
 over the trace; each read carries its arrival time in integer microsecond
 ticks and the bytes it returned (none when the read timed out).
 */
module MeterFramer {
  import opened Basics
  import opened MeterDecode

  /** The silence that separates two blocks: 0.100 s, in microseconds. */
  const SilenceTicks: int := 100000

  /** One call of the serial read: its completion time and the bytes it returned. */
  datatype Read = Read(tick: int, data: seq<Byte>)

  /**
   The loop's variables: the bytes gathered so far, the time of the previous
   read, and the buffers handed to the decoder so far.
   */
  datatype Framer = Framer(buffer: seq<Byte>, last: int, emitted: seq<seq<Byte>>)

  function Start(t0: int): Framer {
    Framer([], t0, [])
  }

  /** One turn of the loop. */
  function Step(s: Framer, r: Read): (s': Framer)
    ensures s'.last == r.tick
    ensures |s'.emitted| == |s.emitted| + 1 <==> r.tick - s.last > SilenceTicks && |s.buffer| > 0
    ensures |s'.emitted| == |s.emitted| + 1 ==> s'.emitted[|s.emitted|] == s.buffer
    ensures |s.emitted| <= |s'.emitted| <= |s.emitted| + 1 && s'.emitted[..|s.emitted|] == s.emitted
    ensures Flatten(s'.emitted) + s'.buffer == Flatten(s.emitted) + s.buffer + r.data
  {
    var s' :=
      if r.tick - s.last > SilenceTicks then
        Framer(r.data, r.tick, if |s.buffer| > 0 then s.emitted + [s.buffer] else s.emitted)
      else
        Framer(s.buffer + r.data, r.tick, s.emitted);
    assert s'.emitted[..|s.emitted|] == s.emitted;
    FlattenAppend(s.emitted, [s.buffer]);
    assert Flatten([s.buffer]) == s.buffer by {
      assert [s.buffer][..0] == [];
    }
    s'
  }

  /** The loop after the given trace, starting at time `t0` with an empty buffer. */
  function Run(t0: int, trace: seq<Read>): Framer {
    if |trace| == 0 then Start(t0) else Step(Run(t0, trace[..|trace| - 1]), trace[|trace| - 1])
  }

  /**
   The lines the loop prints: one for each non-empty run of reads that a
   silence has closed, in order, each the decoding of that run's bytes.
   */
  function Printed(t0: int, trace: seq<Read>): (lines: seq<string>)
    ensures var blocks := NonEmpty(Closed(Datas(trace), GapFlags(t0, trace)));
      |lines| == |blocks| && forall k :: 0 <= k < |lines| ==> lines[k] == DecodeBuffer(blocks[k])
  {
    RunSplitsAtSilences(t0, trace);
    var emitted := Run(t0, trace).emitted;
    seq(|emitted|, k requires 0 <= k < |emitted| => DecodeBuffer(emitted[k]))
  }

  function Datas(trace: seq<Read>): (ds: seq<seq<Byte>>)
    ensures |ds| == |trace|
  {
    seq(|trace|, i requires 0 <= i < |trace| => trace[i].data)
  }

  /** Read `i` came after more than the silence threshold. */
  function GapFlags(t0: int, trace: seq<Read>): (flags: seq<bool>)
    ensures |flags| == |trace|
  {
    seq(|trace|, i requires 0 <= i < |trace| =>
      trace[i].tick - (if i == 0 then t0 else trace[i - 1].tick) > SilenceTicks)
  }

  /** No byte is lost or reordered: the closed buffers and the open one are all the bytes read. */
  lemma {:induction false} RunKeepsAllBytes(t0: int, trace: seq<Read>)
    ensures Flatten(Run(t0, trace).emitted) + Run(t0, trace).buffer == Flatten(Datas(trace))
  {
    if |trace| > 0 {
      var prefix := trace[..|trace| - 1];
      RunKeepsAllBytes(t0, prefix);
      assert Datas(trace) == Datas(prefix) + [trace[|trace| - 1].data];
      FlattenAppend(Datas(prefix), [trace[|trace| - 1].data]);
      assert Flatten([trace[|trace| - 1].data]) == trace[|trace| - 1].data by {
        assert [trace[|trace| - 1].data][..0] == [];
      }
    }
  }

  /** Every buffer handed to the decoder holds at least one byte. */
  lemma {:induction false} RunEmitsNonEmpty(t0: int, trace: seq<Read>)
    ensures forall k :: 0 <= k < |Run(t0, trace).emitted| ==> |Run(t0, trace).emitted[k]| > 0
  {
    if |trace| > 0 {
      var prefix := trace[..|trace| - 1];
      RunEmitsNonEmpty(t0, prefix);
      var s := Run(t0, prefix);
      var s' := Run(t0, trace);
      assert s'.emitted[..|s.emitted|] == s.emitted;
    }
  }

  /** The positions of the trace that came after a silence, in increasing order. */
  function Cuts(flags: seq<bool>): (cuts: seq<nat>)
    ensures forall j :: 0 <= j < |cuts| ==> cuts[j] < |flags| && flags[cuts[j]]
    ensures forall j, k :: 0 <= j < k < |cuts| ==> cuts[j] < cuts[k]
  {
    if |flags| == 0 then []
    else
      var n := |flags| - 1;
      var prefix := Cuts(flags[..n]);
      if flags[n] then prefix + [n] else prefix
  }

  /** Where segment `j` begins: the read before the first cut starts segment 0. */
  function SegmentStart(cuts: seq<nat>, j: nat): nat
    requires j <= |cuts|
  {
    if j == 0 then 0 else cuts[j - 1]
  }

  /**
   The segments closed by a later silence: the bytes of the trace from one
   cut (or from the first read) up to the next cut.
   */
  function Closed(datas: seq<seq<Byte>>, flags: seq<bool>): seq<seq<Byte>>
    requires |datas| == |flags|
  {
    var cuts := Cuts(flags);
    seq(|cuts|, j requires 0 <= j < |cuts| => Flatten(datas[SegmentStart(cuts, j)..cuts[j]]))
  }

  /** The bytes read since the last cut, or since the start: the segment no silence has closed yet. */
  function Open(datas: seq<seq<Byte>>, flags: seq<bool>): seq<Byte>
    requires |datas| == |flags|
  {
    var cuts := Cuts(flags);
    Flatten(datas[SegmentStart(cuts, |cuts|)..])
  }

  /** The sequence without its empty elements. */
  function NonEmpty<T>(xs: seq<seq<T>>): (ys: seq<seq<T>>)
    ensures forall k :: 0 <= k < |ys| ==> |ys[k]| > 0
  {
    if |xs| == 0 then []
    else NonEmpty(xs[..|xs| - 1]) + (if |xs[|xs| - 1]| > 0 then [xs[|xs| - 1]] else [])
  }

  lemma CutsStep(flags: seq<bool>, g: bool)
    ensures Cuts(flags + [g]) == if g then Cuts(flags) + [|flags|] else Cuts(flags)
  {
    assert (flags + [g])[..|flags|] == flags;
  }

  lemma {:induction false} FlattenSliceExtend(datas: seq<seq<Byte>>, a: nat, d: seq<Byte>)
    requires a <= |datas|
    ensures Flatten((datas + [d])[a..]) == Flatten(datas[a..]) + d
  {
    assert (datas + [d])[a..] == datas[a..] + [d];
    FlattenAppend(datas[a..], [d]);
    assert Flatten([d]) == d by {
      assert [d][..0] == [];
    }
  }

  /** A further read does not change the segments already closed. */
  lemma ClosedStable(datas: seq<seq<Byte>>, flags: seq<bool>, d: seq<Byte>, g: bool, j: int)
    requires |datas| == |flags| && 0 <= j < |Cuts(flags)|
    ensures j < |Closed(datas + [d], flags + [g])|
    ensures Closed(datas + [d], flags + [g])[j] == Closed(datas, flags)[j]
  {
    CutsStep(flags, g);
    var cuts := Cuts(flags);
    var cuts' := Cuts(flags + [g]);
    assert SegmentStart(cuts', j) == SegmentStart(cuts, j) && cuts'[j] == cuts[j];
    assert (datas + [d])[SegmentStart(cuts, j)..cuts[j]] == datas[SegmentStart(cuts, j)..cuts[j]];
  }

  /** A read without a silence before it leaves the closed segments as they were. */
  lemma ClosedQuietStep(datas: seq<seq<Byte>>, flags: seq<bool>, d: seq<Byte>)
    requires |datas| == |flags|
    ensures Closed(datas + [d], flags + [false]) == Closed(datas, flags)
  {
    CutsStep(flags, false);
    var before := Closed(datas, flags);
    var after := Closed(datas + [d], flags + [false]);
    forall j | 0 <= j < |before|
      ensures after[j] == before[j]
    {
      ClosedStable(datas, flags, d, false, j);
    }
  }

  /** After a silence the segment that was open becomes the last closed one. */
  lemma ClosedGapLast(datas: seq<seq<Byte>>, flags: seq<bool>, d: seq<Byte>)
    requires |datas| == |flags|
    ensures |Closed(datas + [d], flags + [true])| == |Cuts(flags)| + 1
    ensures Closed(datas + [d], flags + [true])[|Cuts(flags)|] == Open(datas, flags)
  {
    var cuts := Cuts(flags);
    var cuts' := Cuts(flags + [true]);
    CutsStep(flags, true);
    var start := SegmentStart(cuts, |cuts|);
    assert SegmentStart(cuts', |cuts|) == start;
    assert (datas + [d])[start..|flags|] == datas[start..];
  }

  /** A read after a silence closes the segment that ran from the last cut to it. */
  lemma ClosedGapStep(datas: seq<seq<Byte>>, flags: seq<bool>, d: seq<Byte>)
    requires |datas| == |flags|
    ensures Closed(datas + [d], flags + [true]) == Closed(datas, flags) + [Open(datas, flags)]
  {
    var before := Closed(datas, flags);
    var after := Closed(datas + [d], flags + [true]);
    var o := Open(datas, flags);
    ClosedGapLast(datas, flags, d);
    assert |before| == |Cuts(flags)|;
    forall j | 0 <= j < |after|
      ensures after[j] == (before + [o])[j]
    {
      if j < |before| {
        ClosedStable(datas, flags, d, true, j);
      }
    }
  }

  lemma {:induction false} NonEmptyAppend<T>(xs: seq<seq<T>>, x: seq<T>)
    ensures NonEmpty(xs + [x]) == NonEmpty(xs) + (if |x| > 0 then [x] else [])
  {
    assert (xs + [x])[..|xs|] == xs;
  }

  /** The loop remembers the time of the latest read, or the start time before any. */
  lemma RunLast(t0: int, trace: seq<Read>)
    ensures Run(t0, trace).last == if |trace| == 0 then t0 else trace[|trace| - 1].tick
  {
  }

  /** The silence flags of a longer trace extend those of its prefix. */
  lemma GapFlagsStep(t0: int, trace: seq<Read>)
    requires |trace| > 0
    ensures GapFlags(t0, trace)
         == GapFlags(t0, trace[..|trace| - 1])
            + [trace[|trace| - 1].tick - Run(t0, trace[..|trace| - 1]).last > SilenceTicks]
  {
    var n := |trace| - 1;
    var prefix := trace[..n];
    RunLast(t0, prefix);
    var before := GapFlags(t0, prefix);
    var after := GapFlags(t0, trace);
    forall i | 0 <= i < n
      ensures after[i] == before[i]
    {
      assert prefix[i] == trace[i];
      if i > 0 {
        assert prefix[i - 1] == trace[i - 1];
      }
    }
  }

  /**
   The framer splits the byte stream at every read that follows a silence:
   it has handed to the decoder exactly the non-empty segments that a later
   silence closed, in order, and still holds the bytes read since the last
   silence (or since the start).
   */
  lemma {:induction false} RunSplitsAtSilences(t0: int, trace: seq<Read>)
    ensures Run(t0, trace).emitted == NonEmpty(Closed(Datas(trace), GapFlags(t0, trace)))
    ensures Run(t0, trace).buffer == Open(Datas(trace), GapFlags(t0, trace))
  {
    if |trace| == 0 {
      assert GapFlags(t0, trace) == [] && Cuts([]) == [];
      assert Closed(Datas(trace), GapFlags(t0, trace)) == [];
      assert Datas(trace)[0..] == [];
    } else {
      var n := |trace| - 1;
      var prefix := trace[..n];
      var r := trace[n];
      var s := Run(t0, prefix);
      var datas := Datas(prefix) + [r.data];
      var flags := GapFlags(t0, prefix) + [r.tick - s.last > SilenceTicks];
      assert Run(t0, trace) == Step(s, r);
      assert Datas(trace) == datas;
      assert GapFlags(t0, trace) == flags by {
        GapFlagsStep(t0, trace);
      }
      assert Step(s, r).emitted == NonEmpty(Closed(datas, flags)) && Step(s, r).buffer == Open(datas, flags) by {
        RunSplitsAtSilences(t0, prefix);
        SplitStep(s, Datas(prefix), GapFlags(t0, prefix), r);
      }
    }
  }

  /** One turn of the loop keeps the framer in step with the segments of the stream. */
  lemma SplitStep(s: Framer, datas: seq<seq<Byte>>, flags: seq<bool>, r: Read)
    requires |datas| == |flags|
    requires s.emitted == NonEmpty(Closed(datas, flags))
    requires s.buffer == Open(datas, flags)
    ensures Step(s, r).emitted == NonEmpty(Closed(datas + [r.data], flags + [r.tick - s.last > SilenceTicks]))
    ensures Step(s, r).buffer == Open(datas + [r.data], flags + [r.tick - s.last > SilenceTicks])
  {
    var g := r.tick - s.last > SilenceTicks;
    var cuts := Cuts(flags);
    var n := |flags|;
    if g {
      var cuts' := Cuts(flags + [g]);
      assert cuts' == cuts + [n] by {
        CutsStep(flags, g);
      }
      ClosedGapStep(datas, flags, r.data);
      NonEmptyAppend(Closed(datas, flags), s.buffer);
      assert SegmentStart(cuts', |cuts'|) == n;
      assert (datas + [r.data])[n..] == [r.data];
      assert Flatten([r.data]) == r.data by {
        assert [r.data][..0] == [];
      }
    } else {
      CutsStep(flags, g);
      ClosedQuietStep(datas, flags, r.data);
      FlattenSliceExtend(datas, SegmentStart(cuts, |cuts|), r.data);
    }
  }

  /** Without any silence nothing is decoded, and every byte read is still pending. */
  lemma NoSilenceNoFrames(t0: int, trace: seq<Read>)
    requires forall i :: 0 <= i < |trace| ==> !GapFlags(t0, trace)[i]
    ensures Run(t0, trace).emitted == []
    ensures Run(t0, trace).buffer == Flatten(Datas(trace))
  {
    RunSplitsAtSilences(t0, trace);
    assert Cuts(GapFlags(t0, trace)) == [];
    assert Datas(trace)[0..] == Datas(trace);
  }

  /**
   Three blocks: the second arrives 150 ms after the first, the third 100 us
   after the second. Only the first is decoded; the other two wait, joined,
   for the next silence.
   */
  lemma ThreeBlocks(a: seq<Byte>, b: seq<Byte>, c: seq<Byte>)
    requires |a| > 0
    ensures Run(0, [Read(0, a), Read(150000, b), Read(150100, c)]).emitted == [a]
    ensures Run(0, [Read(0, a), Read(150000, b), Read(150100, c)]).buffer == b + c
  {
    var trace := [Read(0, a), Read(150000, b), Read(150100, c)];
    assert trace[..2][..1] == trace[..1] == [Read(0, a)];
    assert [Read(0, a)][..0] == [];
    assert Run(0, trace[..1]) == Framer(a, 0, []);
    assert Run(0, trace[..2]) == Framer(b, 150000, [a]);
    assert Run(0, trace) == Framer(b + c, 150100, [a]);
  }
}
