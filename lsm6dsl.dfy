/**
 * The LSM6DSL pedometer helpers (src/lsm6dsl_step.c): the register-write
 * sequence that enables step detection, the `ret |=` aggregation of I2C
 * return codes, the step-counter read through the `*steps` out-pointer,
 * clearing the trigger flag, and the readiness guard of `lsm6dsl_init`.
 *
 * The I2C bus is an oracle: every transfer's return code (and, for a read,
 * the byte delivered) is a parameter, and the writes put on the bus are
 * logged in order. Their effect on the device is a function of that log
 * over its register map in two banks: the user bank and the
 * embedded-functions bank, which bit 7 of FUNC_CFG_ACCESS makes visible in
 * place of the user bank (LSM6DSL datasheet, register mapping).
 */
module Lsm6dsl {

  type byte = bv8

  /** A C `int` return code, as its 32-bit two's-complement pattern, so that
      `ret |= rc` is the bitwise or. */
  type Code = bv32

  const ENODEV: Code := 19

  const FuncCfgAccess: byte := 0x01
  const Int1Ctrl: byte := 0x0D
  const ConfigPedoThsMin: byte := 0x0F
  const Ctrl1Xl: byte := 0x10
  const Ctrl10C: byte := 0x19
  const StepCounterL: byte := 0x4B
  const StepCounterH: byte := 0x4C

  // ---------------------------------------------------------------------
  // Return-code aggregation
  // ---------------------------------------------------------------------

  /** `ret |= rc` is 0 exactly when both codes are 0. */
  lemma OrZero(a: Code, b: Code)
    ensures a | b == 0 <==> a == 0 && b == 0
  {
  }

  // ---------------------------------------------------------------------
  // The register map
  // ---------------------------------------------------------------------

  datatype RegWrite = RegWrite(reg: byte, val: byte)

  /** `bankOpen` is bit 7 (FUNC_CFG_EN) of FUNC_CFG_ACCESS. */
  datatype Regs = Regs(bankOpen: bool, user: map<byte, byte>, embedded: map<byte, byte>)

  /** A write the device accepts. FUNC_CFG_ACCESS is reachable from both banks
      and switches between them; any other address goes to the bank that is
      visible. */
  function Apply(r: Regs, w: RegWrite): (r': Regs)
    ensures w.reg == FuncCfgAccess ==> r'.bankOpen == (w.val & 0x80 != 0)
    ensures w.reg != FuncCfgAccess ==> r'.bankOpen == r.bankOpen
    ensures w.reg != FuncCfgAccess && r.bankOpen ==>
              r'.embedded == r.embedded[w.reg := w.val] && r'.user == r.user
    ensures w.reg != FuncCfgAccess && !r.bankOpen ==>
              r'.user == r.user[w.reg := w.val] && r'.embedded == r.embedded
  {
    if w.reg == FuncCfgAccess then r.(bankOpen := w.val & 0x80 != 0, user := r.user[w.reg := w.val])
    else if r.bankOpen then r.(embedded := r.embedded[w.reg := w.val])
    else r.(user := r.user[w.reg := w.val])
  }

  /** The registers after a sequence of accepted writes. */
  function ApplyAll(r: Regs, ws: seq<RegWrite>): Regs
    decreases |ws|
  {
    if ws == [] then r else ApplyAll(Apply(r, ws[0]), ws[1..])
  }

  /** The writes of `lsm6dsl_enable_step_detection`, in order: open the
      embedded bank, set the pedometer threshold, close the bank, then the
      accelerometer rate, the embedded-function enables and the INT1 route. */
  const StepDetectionWrites: seq<RegWrite> := [
    RegWrite(FuncCfgAccess, 0x80),
    RegWrite(ConfigPedoThsMin, 0x8E),
    RegWrite(FuncCfgAccess, 0x00),
    RegWrite(Ctrl1Xl, 0x28),
    RegWrite(Ctrl10C, 0x14),
    RegWrite(Int1Ctrl, 0x80)
  ]

  /** The writes of `enable_step_sensor` in src/main.c (lines 772-806),
      transcribed separately from the driver's: each follows a read of the
      same register. `StepDetectionKeepsBanks` shows the two files write the
      same values in the same order. */
  const MainStepSensorWrites: seq<RegWrite> := [
    RegWrite(FuncCfgAccess, 0x80),
    RegWrite(ConfigPedoThsMin, 0x8E),
    RegWrite(FuncCfgAccess, 0x00),
    RegWrite(Ctrl1Xl, 0x28),
    RegWrite(Ctrl10C, 0x14),
    RegWrite(Int1Ctrl, 0x80)
  ]

  /** Registers that live in the embedded-functions bank. */
  predicate EmbeddedRegister(reg: byte) {
    reg == ConfigPedoThsMin
  }

  /** Each embedded-bank register is written while the bank is open and
      every other register while it is closed, and the bank ends closed. */
  predicate BankDiscipline(ws: seq<RegWrite>, open: bool)
    decreases |ws|
  {
    if ws == [] then !open
    else
      var w := ws[0];
      if w.reg == FuncCfgAccess then BankDiscipline(ws[1..], w.val & 0x80 != 0)
      else (EmbeddedRegister(w.reg) <==> open) && BankDiscipline(ws[1..], open)
  }

  lemma StepDetectionKeepsBanks()
    ensures BankDiscipline(StepDetectionWrites, false)
    ensures StepDetectionWrites == MainStepSensorWrites
  {
    var ws := StepDetectionWrites;
    assert BankDiscipline(ws[6..], false);
    assert BankDiscipline(ws[5..], false);
    assert BankDiscipline(ws[4..], false);
    assert BankDiscipline(ws[3..], false);
    assert BankDiscipline(ws[2..], false);
    assert BankDiscipline(ws[1..], true);
  }

  /** When every write is accepted, the enable sequence leaves the threshold
      in the embedded bank, the three control registers in the user bank, the
      bank closed, and every other register as it was. */
  lemma StepDetectionConfigures(r: Regs)
    ensures var r' := ApplyAll(r, StepDetectionWrites);
            && !r'.bankOpen
            && r'.embedded == r.embedded[ConfigPedoThsMin := 0x8E]
            && r'.user == r.user[FuncCfgAccess := 0x00][Ctrl1Xl := 0x28][Ctrl10C := 0x14][Int1Ctrl := 0x80]
  {
    var ws := StepDetectionWrites;
    var r1 := Apply(r, ws[0]);
    var r2 := Apply(r1, ws[1]);
    var r3 := Apply(r2, ws[2]);
    var r4 := Apply(r3, ws[3]);
    var r5 := Apply(r4, ws[4]);
    var r6 := Apply(r5, ws[5]);
    assert r1.bankOpen && r2.bankOpen && !r3.bankOpen;
    assert ApplyAll(r6, ws[6..]) == r6;
    assert ApplyAll(r5, ws[5..]) == r6 by { assert ws[5..][1..] == ws[6..]; }
    assert ApplyAll(r4, ws[4..]) == r6 by { assert ws[4..][1..] == ws[5..]; }
    assert ApplyAll(r3, ws[3..]) == r6 by { assert ws[3..][1..] == ws[4..]; }
    assert ApplyAll(r2, ws[2..]) == r6 by { assert ws[2..][1..] == ws[3..]; }
    assert ApplyAll(r1, ws[1..]) == r6 by { assert ws[1..][1..] == ws[2..]; }
  }

  // ---------------------------------------------------------------------
  // The step counter
  // ---------------------------------------------------------------------

  /** `((uint16_t)high << 8) | low`: the high byte above the low one. */
  function Combine(high: byte, low: byte): (r: bv16)
    ensures r >> 8 == high as bv16 && r & 0xFF == low as bv16
  {
    (high as bv16 << 8) | low as bv16
  }

  /** The count is high * 256 + low, which 16 bits hold without wrapping. */
  lemma CombineValue(high: byte, low: byte)
    ensures Combine(high, low) == high as bv16 * 256 + low as bv16
  {
  }

  /** The counter bytes of a 16-bit count; the partner of Combine. */
  function SplitCount(n: bv16): (byte, byte) {
    ((n >> 8) as byte, (n & 0xFF) as byte)
  }

  lemma CombineSplit(n: bv16)
    ensures Combine(SplitCount(n).0, SplitCount(n).1) == n
  {
  }

  lemma SplitCombine(high: byte, low: byte)
    ensures SplitCount(Combine(high, low)) == (high, low)
  {
  }

  /** The result of an `i2c_reg_read_byte`: its code and the byte it stored
      (meaningful only when the code is 0). */
  datatype ByteRead = ByteRead(rc: Code, value: byte)

  /** The `bool` that `ctx->trigger_flag` points to. */
  class TriggerFlag {
    var raised: bool

    constructor (raised: bool)
      ensures this.raised == raised
    {
      this.raised := raised;
    }
  }

  /** The driver context and the state the helpers touch: the log of every
      write put on the bus, the `uint16_t` that `steps` points to, the
      trigger flag, and the INT1 pin set-up. */
  class Lsm6dslContext {
    var writes: seq<RegWrite>
    var steps: bv16
    var triggerFlag: TriggerFlag?
    var pinConfigured: bool
    var callbackAdded: bool
    var interruptConfigured: bool

    constructor (steps: bv16, flag: TriggerFlag?)
      ensures writes == [] && this.steps == steps && triggerFlag == flag
      ensures !pinConfigured && !callbackAdded && !interruptConfigured
    {
      writes, this.steps, triggerFlag := [], steps, flag;
      pinConfigured, callbackAdded, interruptConfigured := false, false, false;
    }

    /** `lsm6dsl_write_reg`: one write on the bus, answered by `rc`. */
    method WriteReg(reg: byte, val: byte, rc: Code) returns (r: Code)
      modifies this`writes
      ensures writes == old(writes) + [RegWrite(reg, val)]
      ensures r == rc
    {
      writes := writes + [RegWrite(reg, val)];
      r := rc;
    }

    /** `lsm6dsl_enable_step_detection`, the bus answering the six writes
        with `rc0` … `rc5`. The 10 ms sleeps are not modelled. */
    method EnableStepDetection(rc0: Code, rc1: Code, rc2: Code, rc3: Code, rc4: Code, rc5: Code)
      returns (ret: Code)
      modifies this`writes
      ensures writes == old(writes) + StepDetectionWrites
      ensures ret == 0 <==> rc0 == 0 && rc1 == 0 && rc2 == 0 && rc3 == 0 && rc4 == 0 && rc5 == 0
    {
      ret := WriteReg(FuncCfgAccess, 0x80, rc0);
      var rc := WriteReg(ConfigPedoThsMin, 0x8E, rc1);
      OrZero(ret, rc);
      ret := ret | rc;
      rc := WriteReg(FuncCfgAccess, 0x00, rc2);
      OrZero(ret, rc);
      ret := ret | rc;
      rc := WriteReg(Ctrl1Xl, 0x28, rc3);
      OrZero(ret, rc);
      ret := ret | rc;
      rc := WriteReg(Ctrl10C, 0x14, rc4);
      OrZero(ret, rc);
      ret := ret | rc;
      rc := WriteReg(Int1Ctrl, 0x80, rc5);
      OrZero(ret, rc);
      ret := ret | rc;
    }

    /** `lsm6dsl_read_step_count`: both counter bytes are read; `*steps` is
        written only when neither read failed. */
    method ReadStepCount(low: ByteRead, high: ByteRead) returns (ret: Code)
      modifies this`steps
      ensures ret == 0 <==> low.rc == 0 && high.rc == 0
      ensures ret == 0 ==> steps == Combine(high.value, low.value)
      ensures ret != 0 ==> steps == old(steps)
    {
      ret := low.rc;
      ret := ret | high.rc;
      OrZero(low.rc, high.rc);
      if ret == 0 {
        steps := Combine(high.value, low.value);
      }
    }

    /** `lsm6dsl_clear_trigger`. */
    method ClearTrigger()
      modifies triggerFlag
      ensures triggerFlag != null ==> !triggerFlag.raised
    {
      if triggerFlag != null {
        triggerFlag.raised := false;
      }
    }

    /** `lsm6dsl_init`: nothing is configured unless the I2C device is ready;
        otherwise the pin is configured, the callback added, and the result
        of the interrupt configuration returned (that of the pin
        configuration is overwritten). */
    method Init(deviceReady: bool, pinRc: Code, interruptRc: Code) returns (ret: Code)
      modifies this`pinConfigured, this`callbackAdded, this`interruptConfigured
      ensures !deviceReady ==> ret == -ENODEV
      ensures !deviceReady ==> pinConfigured == old(pinConfigured) && callbackAdded == old(callbackAdded)
                               && interruptConfigured == old(interruptConfigured)
      ensures deviceReady ==> pinConfigured && callbackAdded && interruptConfigured && ret == interruptRc
    {
      if !deviceReady {
        return -ENODEV;
      }
      ret := pinRc;
      pinConfigured := true;
      callbackAdded := true;
      ret := interruptRc;
      interruptConfigured := true;
    }
  }
}
