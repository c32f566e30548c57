/**
 The arithmetic the U3 script does around the device calls
 (at-u3.py:247-271): the analog-input masks for the FIO and EIO ports, the
 test for the high-voltage model, the calibration range of each input, and
 the per-channel correction of a reading.
 */
module AcqHardware {
  import opened AcqConfig

  function Pow2(n: nat): (p: nat)
    ensures p >= 1
  {
    if n == 0 then 1 else 2 * Pow2(n - 1)
  }

  /** Bit `i` of a non-negative number. */
  predicate Bit(x: nat, i: nat) {
    if i == 0 then x % 2 == 1 else Bit(x / 2, i - 1)
  }

  /** The analog-input mask: one set bit for each of the first `n` inputs, and no other. */
  function AnalogMask(n: nat): nat {
    Pow2(n) - 1
  }

  /** The mask split over the two 8-bit ports: `mask & 0xFF` for FIO, `mask // 256` for EIO. */
  function PortMasks(n: nat): (ports: (nat, nat))
    ensures ports.0 < 256
    ensures ports.0 + 256 * ports.1 == AnalogMask(n)
  {
    var mask := AnalogMask(n);
    (mask % 256, mask / 256)
  }

  /** Bit `i` of `2 ** n - 1` is set exactly for `i < n`. */
  lemma {:induction false} MaskBit(n: nat, i: nat)
    ensures Bit(AnalogMask(n), i) <==> i < n
    decreases i
  {
    if n == 0 {
      ZeroBits(i);
    } else if i > 0 {
      assert AnalogMask(n) / 2 == AnalogMask(n - 1);
      MaskBit(n - 1, i - 1);
    }
  }

  lemma {:induction false} ZeroBits(i: nat)
    ensures !Bit(0, i)
    decreases i
  {
    if i > 0 {
      ZeroBits(i - 1);
    }
  }

  lemma {:induction false} Pow2Add(a: nat, b: nat)
    ensures Pow2(a + b) == Pow2(a) * Pow2(b)
    decreases a
  {
    if a > 0 {
      Pow2Add(a - 1, b);
    }
  }

  /** How the mask falls on the ports: up to eight inputs use FIO only, beyond that FIO is full and EIO takes the rest. */
  lemma PortMasksShape(n: nat)
    ensures n <= 8 ==> PortMasks(n) == (AnalogMask(n), 0)
    ensures n >= 8 ==> PortMasks(n) == (255, AnalogMask(n - 8))
  {
    if n <= 8 {
      Pow2Add(n, 8 - n);
      assert Pow2(8) == 256;
    } else {
      Pow2Add(8, n - 8);
      assert Pow2(8) == 256;
      assert AnalogMask(n) == 256 * AnalogMask(n - 8) + 255;
    }
  }

  /** Pin `i` of FIO, and pin `i` of EIO for up to sixteen inputs, is analog exactly when input `i` or `i + 8` is scanned. */
  lemma PortPins(n: nat, i: nat)
    requires i < 8
    ensures Bit(PortMasks(n).0, i) <==> i < n
    ensures n <= 16 ==> (Bit(PortMasks(n).1, i) <==> i + 8 < n)
  {
    PortMasksShape(n);
    if n <= 8 {
      MaskBit(n, i);
      ZeroBits(i);
    } else {
      MaskBit(8, i);
      assert AnalogMask(8) == 255 by { assert Pow2(8) == 256; }
      MaskBit(n - 8, i);
    }
  }

  /** The script's high-voltage test: the version byte masked with 18 keeps both of its bits. */
  predicate IsHighVoltage(versionInfo: bv8) {
    versionInfo & 18 == 18
  }

  /** The test holds exactly when bits 1 and 4 are both set; either one alone fails it. */
  lemma HighVoltageBits(versionInfo: bv8)
    ensures IsHighVoltage(versionInfo) <==> (versionInfo >> 1) & 1 == 1 && (versionInfo >> 4) & 1 == 1
  {
  }

  /** On the high-voltage model the first four inputs use the high-voltage calibration, every other input the low one. */
  function LowVoltage(highVoltage: bool, input: nat): bool {
    !(highVoltage && input < 4)
  }

  /** The calibration range chosen for each of the `n` scanned inputs. */
  function Ranges(highVoltage: bool, n: nat): (low: seq<bool>)
    ensures |low| == n
    ensures forall i :: 0 <= i < n ==> low[i] == LowVoltage(highVoltage, i)
  {
    seq(n, i requires 0 <= i => LowVoltage(highVoltage, i))
  }

  function CountFalse(bs: seq<bool>): nat {
    if |bs| == 0 then 0 else CountFalse(bs[..|bs| - 1]) + (if bs[|bs| - 1] then 0 else 1)
  }

  /** A high-voltage unit reads its first `min(n, 4)` inputs on the high range; any other unit reads none. */
  lemma {:induction false} HighRangeCount(highVoltage: bool, n: nat)
    ensures CountFalse(Ranges(highVoltage, n)) == if highVoltage then (if n < 4 then n else 4) else 0
    decreases n
  {
    if n > 0 {
      HighRangeCount(highVoltage, n - 1);
      assert Ranges(highVoltage, n)[..n - 1] == Ranges(highVoltage, n - 1);
    }
  }

  /** The correction of a calibrated voltage: subtract the tare, multiply by the scale, add the offset. */
  function Correct(v: real, c: Channel): real {
    (v - c.tare) * c.scale + c.offset
  }

  /** With a non-zero scale the correction can be undone. */
  function Uncorrect(w: real, c: Channel): real
    requires c.scale != 0.0
  {
    (w - c.offset) / c.scale + c.tare
  }

  lemma CorrectRoundTrip(v: real, c: Channel)
    requires c.scale != 0.0
    ensures Uncorrect(Correct(v, c), c) == v
    ensures Correct(Uncorrect(v, c), c) == v
  {
  }

  /** A default channel passes readings through unchanged. */
  lemma DefaultChannelIdentity(v: real, i: nat)
    ensures Correct(v, DefaultChannel(i)) == v
  {
  }
}
