/**
  The observable side effects of one reset call, in the order they happen.
  Every transport call the routine attempts is recorded, whether or not it
  succeeds; `FaultRaised` follows the call that raised a transfer fault. The
  call of the core's `reinit_dap` is recorded too (`ReinitDap`), although that
  override only logs and makes no transport call.
 */
module Trace {

  import opened CortexM

  datatype Event =
    | PreReset                // the session is told a reset is about to happen
    | PostReset               // the session is told the reset is over
    | ProbeReset              // the debug probe pulses the hardware reset line
    | ReinitDap               // call of the core's reinit_dap, a logging-only stub
    | FpbEnable               // the flash patch/breakpoint unit is enabled again
    | WriteAircr(value: Word) // a write of `value` to AIRCR
    | Flush                   // the queued transfers are flushed
    | DpInit                  // the debug port is initialised again
    | PowerUpDebug            // the debug power domain is requested on
    | ReadDhcsr               // DHCSR is read
    | FaultRaised             // the call just before raised a transfer fault

  /** Number of occurrences of `e` in `t`. */
  function Count(t: seq<Event>, e: Event): (n: nat)
    ensures n <= |t|
    ensures n == 0 <==> e !in t
  {
    if |t| == 0 then 0
    else
      assert t == [t[0]] + t[1..];
      (if t[0] == e then 1 else 0) + Count(t[1..], e)
  }

  lemma {:induction false} CountConcat(a: seq<Event>, b: seq<Event>, e: Event)
    ensures Count(a + b, e) == Count(a, e) + Count(b, e)
  {
    if |a| == 0 {
      assert a + b == b;
    } else {
      assert (a + b)[1..] == a[1..] + b;
      CountConcat(a[1..], b, e);
    }
  }

  lemma CountSingleton(x: Event, e: Event)
    ensures Count([x], e) == if x == e then 1 else 0
  {
    assert [x][1..] == [];
  }

  /** The values written to AIRCR, in order. */
  function AircrWrites(t: seq<Event>): (w: seq<Word>)
    ensures |w| <= |t|
    ensures forall i :: 0 <= i < |w| ==> WriteAircr(w[i]) in t
  {
    if |t| == 0 then []
    else
      assert t == [t[0]] + t[1..];
      (if t[0].WriteAircr? then [t[0].value] else []) + AircrWrites(t[1..])
  }

  lemma {:induction false} AircrWritesConcat(a: seq<Event>, b: seq<Event>)
    ensures AircrWrites(a + b) == AircrWrites(a) + AircrWrites(b)
  {
    if |a| == 0 {
      assert a + b == b;
    } else {
      assert (a + b)[1..] == a[1..] + b;
      AircrWritesConcat(a[1..], b);
    }
  }

  /** A trace that writes nothing to AIRCR has no AIRCR writes. */
  lemma {:induction false} AircrWritesNone(t: seq<Event>)
    requires forall e :: e in t ==> !e.WriteAircr?
    ensures AircrWrites(t) == []
  {
    if |t| > 0 {
      assert t[0] in t;
      assert forall e :: e in t[1..] ==> e in t;
      AircrWritesNone(t[1..]);
    }
  }

}
