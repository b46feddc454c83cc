/**
  The Cortex-M system-control and debug registers that the S5JS100 reset
  routine touches, and the reset types a caller may ask for.

  The register addresses and bit positions follow the ARMv7-M Architecture
  Reference Manual (AIRCR in section B3.2.6, DHCSR in section C1.6.2); the
  module that defines them in the debugger (coresight/cortex_m.py) is not part
  of this model.
 */
module CortexM {

  import opened Options

  type Word = bv32

  // AIRCR (Application Interrupt and Reset Control Register) sits at 0xE000ED0C and
  // DHCSR (Debug Halting Control and Status Register) at 0xE000EDF0; the trace names
  // the register in the event itself, so neither address appears as a value.

  /** The unlock key that must occupy AIRCR[31:16] for a write to take effect. */
  const AircrVectKey: Word := 0x05FA_0000
  /** AIRCR bit 0: reset the core only. */
  const AircrVectReset: Word := 0x0000_0001
  /** AIRCR bit 2: request a reset of the whole system. */
  const AircrSysResetReq: Word := 0x0000_0004

  /** DHCSR bit 25 (S_RESET_ST): the core has been reset since DHCSR was last read. */
  const ResetStatusBit: Word := 0x0200_0000

  /** The reset types the debugger distinguishes. */
  datatype ResetType = Hw | Sw | SwSysResetReq | SwVectReset | SwEmulated

  /**
    The word a software reset writes to AIRCR: the unlock key together with
    the core-only request for `SwVectReset`, and the system request for every
    other choice, including no choice at all.
   */
  function AircrRequest(resetType: Option<ResetType>): (w: Word)
    ensures w & 0xFFFF_0000 == AircrVectKey
    ensures w == AircrVectKey | AircrVectReset <==> resetType == Some(SwVectReset)
    ensures w == AircrVectKey | AircrSysResetReq <==> resetType != Some(SwVectReset)
  {
    var mask := if resetType == Some(SwVectReset) then AircrVectReset else AircrSysResetReq;
    AircrVectKey | mask
  }

}
