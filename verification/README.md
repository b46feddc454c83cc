# S5JS100 reset and target configuration

A Dafny model of the Samsung S5JS100 target support in pyOCD
(`pyocd/target/builtin/target_s5js100.py`). It covers:

- the reset routine of the S5JS100 Cortex-M core, `CortexM_S5JS100.reset`;
- the target's `find_aps`;
- the default reset type chosen in `create_s5js100_core`;
- the logging-only overrides of the core;
- the static memory map and flash-algorithm descriptor.

The debug transport is an oracle. A `Link` value fixes, for one reset call,
whether each transport call succeeds or raises a transfer fault. These calls
are the probe reset, the flash patch enable, the AIRCR write, its flush and
the retry flush. The `Link` also lists the outcome of every attempt of the
post-reset DHCSR poll that the five-second deadline admits. The deadline is
therefore the length of that list.

With the oracle fixed, `reset` is a pure function (`S5JS100Reset.Reset`). It
returns three things:

- the new core state;
- the trace of side effects (`Trace.Event`);
- whether the call returned or an exception left it.

Every transport call the routine attempts appears in the trace. A
`FaultRaised` event follows each call that raised.

Files:

- `options.dfy`: `Option`, Python's `None` versus a value.
- `cortex_m.dfy`: AIRCR and DHCSR addresses and bits, reset types, the AIRCR
  request word.
- `trace.dfy`: trace events, counting and the AIRCR-write projection.
- `reset.dfy`: the reset routine, its poll, the stub overrides, and the
  routine as written (see Findings).
- `target.dfy`: `find_aps` and core creation.
- `config.dfy`: the memory map, the flash-algorithm descriptor and their
  well-formedness checks.

The AIRCR and DHCSR constants are not defined in the target file; they come
from the Cortex-M support module (`coresight/cortex_m.py`), which is not part
of this model. Their values follow the ARMv7-M Architecture Reference Manual
(AIRCR in section B3.2.6, DHCSR in section C1.6.2):

- AIRCR is at 0xE000ED0C, with key 0x05FA0000, VECTRESET bit 0 and
  SYSRESETREQ bit 2.
- DHCSR is at 0xE000EDF0, with S_RESET_ST bit 25.

The trace events name the register they touch, so the two addresses are
stated here and not carried as values in the model.

Behaviour of `target_s5js100.py` worth stating plainly:

- When the deadline passes with no clear reading, reset raises nothing and
  still sends the post-reset notification (`ResetTimeoutIsSilent`).
- The hardware path is probe reset, `reinit_dap` (an override that only
  logs) and flash patch enable; there is no watchdog reset and no
  boot-vector fixup.
- `reset_and_halt` only logs: it neither resets nor halts
  (`ResetAndHaltIsNoReset`).
- The post-reset notification is not sent when a fault escapes the routine.
  A transfer fault escapes only from the hardware path's probe reset or
  flash patch enable, or from the retry flush after an absorbed AIRCR
  fault. `ResetNotifiesOnce` states exactly when this happens.

## Model

| member | source | states |
|---|---|---|
| CortexM.AircrRequest | pyocd/target/builtin/target_s5js100.py:155-161 | The AIRCR word always carries the 0x05FA key in its upper half. It is key OR VECTRESET exactly when the type is SW_VECTRESET, and key OR SYSRESETREQ for every other type, including none. |
| S5JS100Reset.HardwareReset | pyocd/target/builtin/target_s5js100.py:149-152 | Without a fault the hardware path is probe reset, reinit_dap, flash patch enable, in that order. A faulting probe reset ends it right there; a faulting flash patch enable ends it after all three calls. It raises exactly in those two cases. It never writes AIRCR, never flushes and never touches the debug port. |
| S5JS100Reset.SoftwareReset | pyocd/target/builtin/target_s5js100.py:155-164 | The software path's first event is the AIRCR write of the selected word, and it writes AIRCR nowhere else. Without a fault it is the write and a flush. After a fault in the write or flush, the one fault marker is followed by exactly one more flush. It raises only if that retry flush faults too. It contains nothing but AIRCR writes, flushes and fault markers: no probe reset, no flash patch enable and no debug-port call. The fault marker comes straight after the write or flush that raised: a faulting write gives write, fault, retry flush; a faulting flush gives write, flush, fault, retry flush. There is exactly one retry flush: a fault trace has three or four events, plus one final fault marker when the retry flush faults as well. |
| S5JS100Reset.AttemptTrace | pyocd/target/builtin/target_s5js100.py:168-176 | Each attempt starts with exactly one debug-port init. A DHCSR read in it comes right after init and power-up. An attempt settles exactly when it ends without a fault or a flush, and a settling attempt is exactly init, power-up, read. DHCSR is read exactly when init and power-up succeed. A fault is raised exactly when init, power-up or the read fails, or when the flush after a set reading fails, and the fault marker is then the last event of the attempt. Power-up happens exactly when init succeeds, a flush exactly after a reading with the bit set, and no event occurs twice in one attempt, so nothing follows the call that raised. |
| S5JS100Reset.FirstSettle | pyocd/target/builtin/target_s5js100.py:166-176 | Gives the index of the first attempt that reads DHCSR with S_RESET_ST clear; no earlier attempt does. Gives the number of attempts when none does. |
| S5JS100Reset.Poll | pyocd/target/builtin/target_s5js100.py:166-176 | The poll produces only poll events (init, power-up, read, flush, fault). When any attempt is admitted, it starts with a debug-port init. When some admitted attempt reads DHCSR clear, the poll ends on that DHCSR read. |
| S5JS100Reset.PollLoop | pyocd/target/builtin/target_s5js100.py:166-176 | The source's `while` loop with `break` produces exactly the trace of the recursive poll. It reports settling exactly when some admitted attempt reads S_RESET_ST clear. |
| S5JS100Reset.Reset | pyocd/target/builtin/target_s5js100.py:143-178 | Reset bumps the run token by exactly one, even when a fault escapes. It changes no other core field. Its first event is the pre-reset notification. When it returns, its last event is the post-reset notification. Only the modelled faults escape it: a `Fault` on the probe reset or the flash patch enable, or an AIRCR fault whose retry flush also faults. |
| S5JS100Reset.ResetNotifiesOnce | pyocd/target/builtin/target_s5js100.py:143-178 | Every reset emits the pre-reset notification exactly once. It raises exactly when an uncaught fault occurs. On every path that returns, the post-reset notification is emitted exactly once; on a raising path it is not emitted. |
| S5JS100Reset.ResetWritesAircrOnce | pyocd/target/builtin/target_s5js100.py:149-161 | A hardware reset never writes AIRCR. Any other reset writes AIRCR exactly once, with the word its type selects. |
| S5JS100Reset.ResetAircrSelection | pyocd/target/builtin/target_s5js100.py:155-161 | For a non-hardware reset, the single AIRCR write is key OR VECTRESET if and only if the type is SW_VECTRESET. Otherwise it is key OR SYSRESETREQ. |
| S5JS100Reset.HardwareResetOrder | pyocd/target/builtin/target_s5js100.py:149-152 | A fault-free hardware reset emits the pre-reset notification, probe reset, reinit_dap and flash patch enable, in that order. Then come the poll and the post-reset notification, and the call returns. |
| S5JS100Reset.SoftwareResetOrder | pyocd/target/builtin/target_s5js100.py:145-178 | A fault-free software reset emits the pre-reset notification, the AIRCR write of the selected word and one flush, in that order. Then come the poll and the post-reset notification, and the call returns. |
| S5JS100Reset.AircrFaultAbsorbed | pyocd/target/builtin/target_s5js100.py:160-164 | A fault from the AIRCR write or its flush does not propagate. The software path holds exactly one fault marker, followed by exactly one more flush. The reset then polls, sends the post-reset notification and returns. |
| S5JS100Reset.PollStopsAtFirstSettle | pyocd/target/builtin/target_s5js100.py:166-176 | The poll makes the admitted attempts in order, up to and including the first settling one. It makes none after that. Faults and readings with the bit set never stop it. |
| S5JS100Reset.PollAttemptCount | pyocd/target/builtin/target_s5js100.py:166-176 | The number of debug-port inits equals the number of attempts made. That is one past the first settling attempt, or every admitted attempt when none settles. |
| S5JS100Reset.PollReadsAfterPowerUp | pyocd/target/builtin/target_s5js100.py:169-171 | Every DHCSR read in the poll comes right after a debug-port init and a debug power-up. |
| S5JS100Reset.ResetTimeoutIsSilent | pyocd/target/builtin/target_s5js100.py:166-178 | When no admitted attempt settles and no fault escapes, reset still returns. It makes every admitted attempt and ends with the post-reset notification. |
| S5JS100Reset.RunStub | pyocd/target/builtin/target_s5js100.py:180-193 | wait_halted, reinit_dap, acquire, reset_and_halt and resume leave the core unchanged and make no transport call. |
| S5JS100Reset.ResetAndHaltIsNoReset | pyocd/target/builtin/target_s5js100.py:189-190 | reset_and_halt, unlike reset, neither bumps the run token nor sends a notification, whatever type it is given. |
| S5JS100Reset.ResetAsWritten | pyocd/target/builtin/target_s5js100.py:143-145 | As written, reset always raises NameError, before any event and without changing the core. |
| S5JS100Reset.ResetAsWrittenNeverNotifies | pyocd/target/builtin/target_s5js100.py:17-24 | For every input, the as-written routine emits no event at all (no notification and no transport call) and leaves the run token alone. The intended routine sends the pre-reset notification once and bumps the token. |
| S5JS100Target.FindAps | pyocd/target/builtin/target_s5js100.py:127-132 | An existing valid-AP record, even an empty one, is kept unchanged. A missing one becomes exactly (AP_NUM,) = (0,). |
| S5JS100Target.FindApsIdempotent | pyocd/target/builtin/target_s5js100.py:127-132 | Running find_aps twice is the same as running it once. |
| S5JS100Target.CreateCore | pyocd/target/builtin/target_s5js100.py:134-140 | The new core is built on access port AP_NUM and its default reset type is set to SW_SYSRESETREQ. The model keeps it after the target's existing cores; the debug port is left alone. |
| S5JS100Target.DefaultResetIsUnspecifiedReset | pyocd/target/builtin/target_s5js100.py:137-161 | On the created core, reset with its default type and reset with no type give identical results, a system-reset request. |
| S5JS100Config.CheckAlgo | pyocd/target/builtin/target_s5js100.py:26-102 | The executable check accepts a descriptor exactly when it is well formed. All four entry points must be odd addresses inside the payload. At least one page buffer is needed. The buffers must be in ascending order without overlap, must lie above the payload, and the last must end at or below the stack. |
| S5JS100Config.CheckMap | pyocd/target/builtin/target_s5js100.py:109-113 | The executable check accepts a memory map exactly when it is well formed. Every region must be non-empty. Each flash region must be whole blocks, with a well-formed algorithm. No two regions may overlap. |
| S5JS100Config.S5JS100ConfigWellFormed | pyocd/target/builtin/target_s5js100.py:26-113 | The S5JS100 map and FLASH_ALGO are well formed. Flash [0, 0x20000) and RAM [0x20000000, 0x20004000) are disjoint. The 499-word payload ends at 0x1007CC. |
| S5JS100Config.AlgoWorkspaceOutsideMemoryMap | pyocd/target/builtin/target_s5js100.py:26-113 | The RAM the flash algorithm occupies, [0x100000, 0x102800), lies outside every region of the declared memory map. |

## Left out

- The instruction words of FLASH_ALGO: opaque Thumb machine code. Only their count (499) is kept, for the range checks.
- Wall-clock time: `Timeout(5.0)` becomes the number of poll attempts the oracle lists. The 10 ms sleep after a faulting attempt is not modelled.
- Probe, debug-port, flash-patch and flush internals: they appear only as trace events and oracle outcomes.
- Exceptions other than transfer faults, anywhere in reset: line 163 and line 175 catch only `TransferError`, so any other exception from the AIRCR write, its flush, the retry flush or a poll call leaves the routine, and `Status` cannot express it. `SoftwareReset`, `Escapes` and `ResetNotifiesOnce` therefore describe transfer faults only. The probe reset and the flash patch enable are not caught at all, so a `Fault` there stands for any exception they raise. Faults from the session's notification calls are not modelled either; that code is not part of this model.
- The first deadline check: `Link.attempts` may be empty, and `Reset` then skips the poll. The source checks its five-second timeout right after starting it (lines 166-167), so it always makes at least one attempt; the model over-approximates by also admitting none.
- Logging, SVD loading, the target constructor, and the `create_init_sequence` task replacement: framework glue with no state this model tracks.
- `core.init()` and `add_core` in `create_s5js100_core`: Cortex-M and target framework code that is not part of this model. The initial run token is a parameter of `CreateCore` for the same reason, and appending to `cores` stands in for `add_core`, whose storage is not shown.
- `self.aps[self.AP_NUM].core = core` (line 138): the access-port objects are not modelled, so the back-link from the access port to its core is not kept.
- `test/gdb_test.py`: GDB-server thread and interrupt handling, with no logic to state.
- Flash-algorithm execution: target_s5js100.py has no watchdog reset, boot-vector fixup, flash-algorithm runner or page pump; it only declares the descriptor, which `config.dfy` models.
- S5JS100Reset.RunStub: models the five overrides only as having no effect on core state or transport; their log lines are not modelled.

## Findings

| source | as written | input that shows it | evidently intended | confidence | as-written member | corrected member |
|---|---|---|---|---|---|---|
| pyocd/target/builtin/target_s5js100.py:145 | `reset` uses `Target`, `exceptions`, `Timeout` and `sleep`, but the module imports none of them (lines 17-22). So `Target.EVENT_PRE_RESET` raises NameError before any notification, run-token change or transport call. | any call of `reset`, e.g. `reset(None)` | those names imported from pyOCD's target, exception, timeout and time modules, so the routine runs as `Reset` describes | high (not executed) | S5JS100Reset.ResetAsWritten, S5JS100Reset.ResetAsWrittenNeverNotifies | S5JS100Reset.Reset, S5JS100Reset.ResetNotifiesOnce |
