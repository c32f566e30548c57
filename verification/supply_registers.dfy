/**
 How the power-supply script identifies the unit (at-rd6000.py:46-60): it
 reads holding registers 0 to 3 and derives the serial number, the model
 number and the resolutions of the voltage and current registers.
 */
module SupplyRegisters {

  /** A 16-bit Modbus holding register. */
  type Word = bv16

  const VoltResolution := 100
  const FineAmpResolution := 100
  const CoarseAmpResolution := 1000
  /** The models whose current registers count in hundredths rather than thousandths. */
  const HighCurrentModels: set<int> := {6012, 6018}

  /**
   What the script knows about the unit. `firmware` is the raw register;
   the script shows it divided by 100 as a float.
   */
  datatype Identity = Identity(serial: int, model: int, firmware: Word, voltRes: int, ampRes: int)

  /** `regs[1] << 16 | regs[2]`, the two registers joined into one 32-bit number. */
  function Serial(high: Word, low: Word): (n: int)
    ensures n == high as int * 0x1_0000 + low as int
  {
    (((high as bv32) << 16) | (low as bv32)) as int
  }

  /** `int(regs[0] / 10)`: the register is not negative, so truncating the quotient is floor division. */
  function Model(reg: Word): (m: int)
    ensures 10 * m <= reg as int < 10 * m + 10
  {
    reg as int / 10
  }

  function Identify(regs: seq<Word>): (id: Identity)
    requires |regs| == 4
    ensures id.serial == regs[1] as int * 0x1_0000 + regs[2] as int
    ensures 10 * id.model <= regs[0] as int < 10 * id.model + 10
    ensures id.firmware == regs[3]
    ensures id.voltRes == VoltResolution
    ensures id.ampRes == FineAmpResolution <==> id.model in HighCurrentModels
    ensures id.ampRes in {FineAmpResolution, CoarseAmpResolution}
  {
    var model := Model(regs[0]);
    Identity(Serial(regs[1], regs[2]), model, regs[3], VoltResolution,
             if model == 6012 || model == 6018 then FineAmpResolution else CoarseAmpResolution)
  }

  /** The serial number gives back the registers it was read from: high half, then low half. */
  lemma SerialRoundTrip(high: Word, low: Word)
    ensures Serial(high, low) / 0x1_0000 == high as int
    ensures Serial(high, low) % 0x1_0000 == low as int
  {
  }

  /** Two units with the same serial number agree on registers 1 and 2. */
  lemma SerialInjective(a: seq<Word>, b: seq<Word>)
    requires |a| == 4 && |b| == 4
    requires Identify(a).serial == Identify(b).serial
    ensures a[1] as int == b[1] as int && a[2] as int == b[2] as int
  {
    SerialRoundTrip(a[1], a[2]);
    SerialRoundTrip(b[1], b[2]);
  }

  /** A model register of 60120 to 60129 or 60180 to 60189 selects the finer current resolution, any other the coarser. */
  lemma AmpResolutionByRegister(regs: seq<Word>)
    requires |regs| == 4
    ensures Identify(regs).ampRes == FineAmpResolution <==>
      (60120 <= regs[0] as int <= 60129 || 60180 <= regs[0] as int <= 60189)
  {
  }
}
