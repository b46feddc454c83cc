/**
  The reset routine of the S5JS100 Cortex-M core (CortexM_S5JS100.reset).

  The transport is an oracle: a `Link` fixes in advance whether each call the
  routine may make succeeds or raises a transfer fault, and lists the outcome
  of every polling attempt the five-second deadline admits. The routine is
  then a pure function from the core, the requested reset type and the link
  to the new core state, the trace of side effects and the way the call ends.
 */
module S5JS100Reset {

  import opened Options
  import opened CortexM
  import opened Trace

  /** Whether a single transport call succeeds or raises a transfer fault. */
  datatype Status = Ok | Fault

  /** The outcome of one attempt of the post-reset status poll. */
  datatype Attempt =
    | InitFault                         // dp.init raised
    | PowerUpFault                      // power_up_debug raised
    | ReadFault                         // the DHCSR read raised
    | Reading(dhcsr: Word, flush: Status) // DHCSR read as `dhcsr`; `flush` is the outcome of the flush that follows a reading with the reset bit set

  /** The transport oracle for one reset call. */
  datatype Link = Link(
    probeReset: Status,      // the probe's hardware reset
    fpbEnable: Status,       // re-enabling the flash patch unit
    aircrWrite: Status,      // the AIRCR write
    aircrFlush: Status,      // the flush after a successful AIRCR write
    retryFlush: Status,      // the flush in the fault handler
    attempts: seq<Attempt>   // one entry per attempt the deadline admits
  )

  /** The state of a core that reset reads or changes. */
  datatype Core = Core(runToken: int, defaultResetType: ResetType, ap: nat)

  datatype Error = TransportFault | UndefinedName

  /** How a call ends: it returns, or an exception leaves it. */
  datatype Completion = Returned | Raised(error: Error)

  /** The part of a reset that asserts the reset: its trace and whether a fault escaped it. */
  datatype Phase = Phase(trace: seq<Event>, escaped: bool)

  datatype ResetResult = ResetResult(core: Core, trace: seq<Event>, completion: Completion)

  /** Events that only the status poll produces. */
  predicate PollEvent(e: Event) {
    e == DpInit || e == PowerUpDebug || e == ReadDhcsr || e == Flush || e == FaultRaised
  }

  /**
    The hardware path: probe reset, then the reinit_dap stub, then the flash
    patch unit. None of these faults is caught, so one that is raised leaves
    the routine.
   */
  function HardwareReset(link: Link): (p: Phase)
    ensures p.escaped <==> link.probeReset == Fault || link.fpbEnable == Fault
    ensures |p.trace| > 0 && p.trace[0] == ProbeReset
    ensures link.probeReset == Fault ==> p.trace == [ProbeReset, FaultRaised]
    ensures link.probeReset == Ok && link.fpbEnable == Fault ==>
              p.trace == [ProbeReset, ReinitDap, FpbEnable, FaultRaised]
    ensures !p.escaped ==> p.trace == [ProbeReset, ReinitDap, FpbEnable]
    ensures forall e :: e in p.trace ==>
              !e.WriteAircr? && e != PreReset && e != PostReset && (e == FaultRaised || !PollEvent(e))
  {
    if link.probeReset == Fault then Phase([ProbeReset, FaultRaised], true)
    else if link.fpbEnable == Fault then Phase([ProbeReset, ReinitDap, FpbEnable, FaultRaised], true)
    else Phase([ProbeReset, ReinitDap, FpbEnable], false)
  }

  /** The AIRCR write or the flush after it raised. */
  predicate AircrFaulted(link: Link) {
    link.aircrWrite == Fault || link.aircrFlush == Fault
  }

  /**
    The software path: one AIRCR write of the key and the selected request,
    then a flush. A fault from either is caught and followed by exactly one
    more flush; only a fault from that last flush leaves the routine.
   */
  function SoftwareReset(resetType: Option<ResetType>, link: Link): (p: Phase)
    ensures |p.trace| >= 2 && p.trace[0] == WriteAircr(AircrRequest(resetType))
    ensures forall e :: e in p.trace[1..] ==> !e.WriteAircr?
    ensures forall e :: e in p.trace ==> e != DpInit && e != PreReset && e != PostReset
    ensures p.escaped <==> AircrFaulted(link) && link.retryFlush == Fault
    ensures !AircrFaulted(link) ==> p.trace == [WriteAircr(AircrRequest(resetType)), Flush]
    ensures AircrFaulted(link) && link.retryFlush == Ok ==>
              |p.trace| >= 3 && p.trace == p.trace[..|p.trace| - 2] + [FaultRaised, Flush]
              && FaultRaised !in p.trace[..|p.trace| - 2]
    ensures AircrFaulted(link) && link.retryFlush == Fault ==>
              |p.trace| >= 4 && p.trace[|p.trace| - 3..] == [FaultRaised, Flush, FaultRaised]
    ensures forall e :: e in p.trace ==> e.WriteAircr? || e == Flush || e == FaultRaised
    ensures link.aircrWrite == Fault ==>
              |p.trace| >= 3 && p.trace[..3] == [WriteAircr(AircrRequest(resetType)), FaultRaised, Flush]
    ensures link.aircrWrite == Ok && link.aircrFlush == Fault ==>
              |p.trace| >= 4 && p.trace[..4] == [WriteAircr(AircrRequest(resetType)), Flush, FaultRaised, Flush]
    ensures AircrFaulted(link) ==>
              |p.trace| == (if link.aircrWrite == Fault then 3 else 4) + (if link.retryFlush == Fault then 1 else 0)
  {
    var write := WriteAircr(AircrRequest(resetType));
    if link.aircrWrite == Fault then
      if link.retryFlush == Fault then Phase([write, FaultRaised, Flush, FaultRaised], true)
      else Phase([write, FaultRaised, Flush], false)
    else if link.aircrFlush == Fault then
      if link.retryFlush == Fault then Phase([write, Flush, FaultRaised, Flush, FaultRaised], true)
      else Phase([write, Flush, FaultRaised, Flush], false)
    else Phase([write, Flush], false)
  }

  /** The part of reset that asserts the reset, chosen by the reset type. */
  function AssertReset(resetType: Option<ResetType>, link: Link): Phase {
    if resetType == Some(Hw) then HardwareReset(link) else SoftwareReset(resetType, link)
  }

  /** An attempt that reads DHCSR with the reset-status bit clear ends the poll. */
  predicate Settles(a: Attempt) {
    a.Reading? && a.dhcsr & ResetStatusBit == 0
  }

  /**
    One polling attempt: re-initialise the debug port, power up debug, read
    DHCSR; a reading with the reset bit set is followed by a flush. A fault
    ends the attempt where it is raised.
   */
  function AttemptTrace(a: Attempt): (t: seq<Event>)
    ensures |t| >= 2 && t[0] == DpInit && DpInit !in t[1..]
    ensures ReadDhcsr in t ==> |t| >= 3 && t[..3] == [DpInit, PowerUpDebug, ReadDhcsr]
    ensures forall e :: e in t ==> PollEvent(e)
    ensures Settles(a) <==> FaultRaised !in t && Flush !in t
    ensures Settles(a) ==> t == [DpInit, PowerUpDebug, ReadDhcsr]
    ensures ReadDhcsr in t <==> a.Reading? || a.ReadFault?
    ensures FaultRaised in t <==> !a.Reading? || (!Settles(a) && a.flush == Fault)
    ensures FaultRaised in t ==> t[|t| - 1] == FaultRaised
    ensures PowerUpDebug in t <==> !a.InitFault?
    ensures Flush in t <==> a.Reading? && !Settles(a)
    ensures forall i, j :: 0 <= i < j < |t| ==> t[i] != t[j]
  {
    match a
    case InitFault => [DpInit, FaultRaised]
    case PowerUpFault => [DpInit, PowerUpDebug, FaultRaised]
    case ReadFault => [DpInit, PowerUpDebug, ReadDhcsr, FaultRaised]
    case Reading(dhcsr, flush) =>
      if dhcsr & ResetStatusBit == 0 then [DpInit, PowerUpDebug, ReadDhcsr]
      else if flush == Fault then [DpInit, PowerUpDebug, ReadDhcsr, Flush, FaultRaised]
      else [DpInit, PowerUpDebug, ReadDhcsr, Flush]
  }

  /** Index of the first settling attempt, or the number of attempts if none settles. */
  function FirstSettle(attempts: seq<Attempt>): (k: nat)
    ensures k <= |attempts|
    ensures k < |attempts| ==> Settles(attempts[k])
    ensures forall j :: 0 <= j < k ==> !Settles(attempts[j])
  {
    if |attempts| == 0 then 0
    else if Settles(attempts[0]) then 0
    else
      var k := FirstSettle(attempts[1..]);
      assert forall j :: 1 <= j < k + 1 ==> attempts[j] == attempts[1..][j - 1];
      1 + k
  }

  /** How many attempts the poll makes: up to and including the first settling one, or all of them. */
  function AttemptsMade(attempts: seq<Attempt>): (n: nat)
    ensures n <= |attempts|
    ensures n == |attempts| <==> FirstSettle(attempts) >= |attempts| - 1
  {
    if FirstSettle(attempts) < |attempts| then FirstSettle(attempts) + 1 else |attempts|
  }

  /** The traces of the given attempts, one after the other, with no stopping rule. */
  function Traces(attempts: seq<Attempt>): (t: seq<Event>)
    ensures forall e :: e in t ==> PollEvent(e)
  {
    if |attempts| == 0 then []
    else AttemptTrace(attempts[0]) + Traces(attempts[1..])
  }

  /**
    The status poll of lines 166-176: attempts are made in order until one
    settles or the deadline leaves no more.
   */
  function Poll(attempts: seq<Attempt>): (t: seq<Event>)
    ensures forall e :: e in t ==> PollEvent(e)
    ensures |attempts| > 0 ==> |t| >= 2 && t[0] == DpInit
    ensures FirstSettle(attempts) < |attempts| ==> |t| >= 3 && t[|t| - 1] == ReadDhcsr
  {
    if |attempts| == 0 then []
    else if Settles(attempts[0]) then AttemptTrace(attempts[0])
    else AttemptTrace(attempts[0]) + Poll(attempts[1..])
  }

  /** An attempt at or before the first settling one either is it or comes before it. */
  lemma FirstSettleBound(attempts: seq<Attempt>, i: nat)
    requires i < |attempts| && i <= FirstSettle(attempts)
    ensures Settles(attempts[i]) ==> FirstSettle(attempts) == i
    ensures !Settles(attempts[i]) ==> i + 1 <= FirstSettle(attempts)
  {
  }

  /**
    Associativity of concatenation, which Dafny knows already. Stating it for
    the three named pieces in a lemma of its own keeps the loop body of
    `PollLoop` from unfolding `AttemptTrace` and `Poll` while proving it,
    which would exhaust the verifier's resource limit.
   */
  lemma ConcatAssociative(a: seq<Event>, b: seq<Event>, c: seq<Event>)
    ensures (a + b) + c == a + (b + c)
  {
  }

  /** One step of the poll, seen from attempt `i` on. */
  lemma PollStep(attempts: seq<Attempt>, i: nat)
    requires i < |attempts|
    ensures Settles(attempts[i]) ==> Poll(attempts[i..]) == AttemptTrace(attempts[i])
    ensures !Settles(attempts[i]) ==> Poll(attempts[i..]) == AttemptTrace(attempts[i]) + Poll(attempts[i + 1..])
  {
    assert attempts[i..][0] == attempts[i];
    assert attempts[i..][1..] == attempts[i + 1..];
  }

  /**
    The poll loop written the way the source writes it: a `while` under the
    deadline with a `break` on the first clear reading. It produces exactly the
    trace of `Poll`, and reports whether the core settled.
   */
  method PollLoop(attempts: seq<Attempt>) returns (trace: seq<Event>, settled: bool)
    ensures trace == Poll(attempts)
    ensures settled <==> FirstSettle(attempts) < |attempts|
  {
    trace := [];
    settled := false;
    var i := 0;
    while i < |attempts| && !settled
      invariant 0 <= i <= |attempts|
      invariant !settled ==> trace + Poll(attempts[i..]) == Poll(attempts) && i <= FirstSettle(attempts)
      invariant settled ==> trace == Poll(attempts) && FirstSettle(attempts) < |attempts|
      decreases |attempts| - i
    {
      var step := AttemptTrace(attempts[i]);
      PollStep(attempts, i);
      ConcatAssociative(trace, step, Poll(attempts[i + 1..]));
      FirstSettleBound(attempts, i);
      trace := trace + step;
      settled := Settles(attempts[i]);
      i := i + 1;
    }
  }

  /**
    CortexM_S5JS100.reset: notify, bump the run token, assert the reset on the
    chosen path, poll until the core leaves reset or the deadline passes, and
    notify again. The run token is bumped even when a fault escapes.
   */
  function Reset(core: Core, resetType: Option<ResetType>, link: Link): (r: ResetResult)
    ensures r.core.runToken == core.runToken + 1
    ensures r.core.defaultResetType == core.defaultResetType && r.core.ap == core.ap
    ensures |r.trace| >= 3 && r.trace[0] == PreReset
    ensures r.completion.Returned? ==> r.trace[|r.trace| - 1] == PostReset
    ensures r.completion.Raised? ==> r.completion.error == TransportFault
  {
    var bumped := core.(runToken := core.runToken + 1);
    var asserted := AssertReset(resetType, link);
    if asserted.escaped then
      ResetResult(bumped, [PreReset] + asserted.trace, Raised(TransportFault))
    else
      ResetResult(bumped, [PreReset] + asserted.trace + Poll(link.attempts) + [PostReset], Returned)
  }

  /** The faults that leave reset: an uncaught one on the hardware path, or a second one on the software path. */
  predicate Escapes(resetType: Option<ResetType>, link: Link) {
    if resetType == Some(Hw) then link.probeReset == Fault || link.fpbEnable == Fault
    else AircrFaulted(link) && link.retryFlush == Fault
  }

  /** The trace of a reset, in terms of its two phases. */
  lemma ResetShape(core: Core, resetType: Option<ResetType>, link: Link)
    ensures var p := AssertReset(resetType, link);
            Reset(core, resetType, link).trace ==
              if p.escaped then [PreReset] + p.trace
              else [PreReset] + p.trace + Poll(link.attempts) + [PostReset]
  {
  }

  lemma PhaseFree(p: Phase, e: Event)
    requires e == PreReset || e == PostReset || e == DpInit
    requires forall x :: x in p.trace ==> x != PreReset && x != PostReset && x != DpInit
    ensures Count(p.trace, e) == 0
  {
  }

  /**
    Every reset call announces itself exactly once, first. When it returns,
    the post-reset notification is emitted exactly once, as the last event;
    the call raises exactly when a fault escapes, and then emits no post-reset
    notification at all.
   */
  lemma ResetNotifiesOnce(core: Core, resetType: Option<ResetType>, link: Link)
    ensures Count(Reset(core, resetType, link).trace, PreReset) == 1
    ensures Reset(core, resetType, link).completion.Raised? <==> Escapes(resetType, link)
    ensures Reset(core, resetType, link).completion.Returned? ==>
              Count(Reset(core, resetType, link).trace, PostReset) == 1
    ensures Reset(core, resetType, link).completion.Raised? ==>
              Count(Reset(core, resetType, link).trace, PostReset) == 0
  {
    var p := AssertReset(resetType, link);
    ResetShape(core, resetType, link);
    NotificationCounts(p.trace, Poll(link.attempts));
  }

  /** Bracketing a notification-free phase and poll with the two notifications. */
  lemma NotificationCounts(phase: seq<Event>, poll: seq<Event>)
    requires PreReset !in phase && PostReset !in phase
    requires PreReset !in poll && PostReset !in poll
    ensures Count([PreReset] + phase, PreReset) == 1
    ensures Count([PreReset] + phase, PostReset) == 0
    ensures Count([PreReset] + phase + poll + [PostReset], PreReset) == 1
    ensures Count([PreReset] + phase + poll + [PostReset], PostReset) == 1
  {
    CountSingleton(PreReset, PreReset);
    CountSingleton(PreReset, PostReset);
    CountSingleton(PostReset, PreReset);
    CountSingleton(PostReset, PostReset);
    CountConcat([PreReset], phase, PreReset);
    CountConcat([PreReset], phase, PostReset);
    CountConcat([PreReset] + phase, poll, PreReset);
    CountConcat([PreReset] + phase, poll, PostReset);
    CountConcat([PreReset] + phase + poll, [PostReset], PreReset);
    CountConcat([PreReset] + phase + poll, [PostReset], PostReset);
  }

  /**
    A software reset writes AIRCR exactly once, with the word its reset type
    selects; a hardware reset never writes AIRCR.
   */
  lemma ResetWritesAircrOnce(core: Core, resetType: Option<ResetType>, link: Link)
    ensures resetType == Some(Hw) ==> AircrWrites(Reset(core, resetType, link).trace) == []
    ensures resetType != Some(Hw) ==> AircrWrites(Reset(core, resetType, link).trace) == [AircrRequest(resetType)]
  {
    var p := AssertReset(resetType, link);
    var poll := Poll(link.attempts);
    AssertResetAircrWrites(resetType, link);
    AircrWritesNone(poll);
    ResetShape(core, resetType, link);
    BracketKeepsAircrWrites(p.trace, poll);
  }

  /** The notifications and a poll without AIRCR writes add none to those of the phase. */
  lemma BracketKeepsAircrWrites(phase: seq<Event>, poll: seq<Event>)
    requires AircrWrites(poll) == []
    ensures AircrWrites([PreReset] + phase) == AircrWrites(phase)
    ensures AircrWrites([PreReset] + phase + poll + [PostReset]) == AircrWrites(phase)
  {
    AircrWritesConcat([PreReset], phase);
    AircrWritesConcat([PreReset] + phase, poll);
    AircrWritesConcat([PreReset] + phase + poll, [PostReset]);
    assert AircrWrites([PreReset]) == [] by { assert [PreReset][1..] == []; }
    assert AircrWrites([PostReset]) == [] by { assert [PostReset][1..] == []; }
  }

  lemma AssertResetAircrWrites(resetType: Option<ResetType>, link: Link)
    ensures AircrWrites(AssertReset(resetType, link).trace) ==
              if resetType == Some(Hw) then [] else [AircrRequest(resetType)]
  {
    var t := AssertReset(resetType, link).trace;
    if resetType == Some(Hw) {
      AircrWritesNone(t);
    } else {
      assert t == [t[0]] + t[1..];
      AircrWritesConcat([t[0]], t[1..]);
      AircrWritesNone(t[1..]);
      assert [t[0]][1..] == [];
    }
  }

  /**
    The one AIRCR write of a software reset is the key with the core-only
    request exactly when SW_VECTRESET is asked for, and the key with the
    system request for every other type, including none and SW_SYSRESETREQ.
   */
  lemma ResetAircrSelection(core: Core, resetType: Option<ResetType>, link: Link)
    requires resetType != Some(Hw)
    ensures AircrWrites(Reset(core, resetType, link).trace) == [AircrVectKey | AircrVectReset]
            <==> resetType == Some(SwVectReset)
    ensures resetType != Some(SwVectReset) ==>
              AircrWrites(Reset(core, resetType, link).trace) == [AircrVectKey | AircrSysResetReq]
  {
    ResetWritesAircrOnce(core, resetType, link);
  }

  /**
    With no fault, the hardware path does probe reset, reinit_dap and flash
    patch enable straight after the pre-reset notification, in that order,
    and goes on to the poll.
   */
  lemma HardwareResetOrder(core: Core, link: Link)
    requires link.probeReset == Ok && link.fpbEnable == Ok
    ensures Reset(core, Some(Hw), link).completion == Returned
    ensures Reset(core, Some(Hw), link).trace ==
              [PreReset, ProbeReset, ReinitDap, FpbEnable] + Poll(link.attempts) + [PostReset]
  {
    var p := AssertReset(Some(Hw), link);
    assert p == Phase([ProbeReset, ReinitDap, FpbEnable], false);
    ResetShape(core, Some(Hw), link);
    assert [PreReset] + p.trace == [PreReset, ProbeReset, ReinitDap, FpbEnable];
  }

  /**
    With no fault, the software path writes the selected AIRCR word and
    flushes straight after the pre-reset notification, and goes on to the poll.
   */
  lemma SoftwareResetOrder(core: Core, resetType: Option<ResetType>, link: Link)
    requires resetType != Some(Hw) && !AircrFaulted(link)
    ensures Reset(core, resetType, link).completion == Returned
    ensures Reset(core, resetType, link).trace ==
              [PreReset, WriteAircr(AircrRequest(resetType)), Flush] + Poll(link.attempts) + [PostReset]
  {
    var p := AssertReset(resetType, link);
    assert p == Phase([WriteAircr(AircrRequest(resetType)), Flush], false);
    ResetShape(core, resetType, link);
    assert [PreReset] + p.trace == [PreReset, WriteAircr(AircrRequest(resetType)), Flush];
  }

  /**
    A fault from the AIRCR write or its flush is absorbed: the trace of the
    software path holds that one fault marker, followed by exactly one further
    flush, and the reset goes on to the poll and the post-reset notification.
   */
  lemma AircrFaultAbsorbed(core: Core, resetType: Option<ResetType>, link: Link)
    requires resetType != Some(Hw)
    requires AircrFaulted(link) && link.retryFlush == Ok
    ensures Reset(core, resetType, link).completion == Returned
    ensures Reset(core, resetType, link).trace ==
              [PreReset] + SoftwareReset(resetType, link).trace + Poll(link.attempts) + [PostReset]
    ensures var t := SoftwareReset(resetType, link).trace;
            Count(t, FaultRaised) == 1 && t == t[..|t| - 2] + [FaultRaised, Flush]
  {
    var t := SoftwareReset(resetType, link).trace;
    ResetShape(core, resetType, link);
    FaultMarkedOnce(t[..|t| - 2]);
  }

  /** A trace whose only fault marker sits just before its final flush has exactly one. */
  lemma FaultMarkedOnce(before: seq<Event>)
    requires FaultRaised !in before
    ensures Count(before + [FaultRaised, Flush], FaultRaised) == 1
  {
    assert [FaultRaised, Flush] == [FaultRaised] + [Flush];
    CountConcat(before, [FaultRaised, Flush], FaultRaised);
    CountConcat([FaultRaised], [Flush], FaultRaised);
    CountSingleton(FaultRaised, FaultRaised);
    CountSingleton(Flush, FaultRaised);
  }

  lemma {:induction false} CountTraces(attempts: seq<Attempt>)
    ensures Count(Traces(attempts), DpInit) == |attempts|
  {
    if |attempts| > 0 {
      var t := AttemptTrace(attempts[0]);
      assert t == [DpInit] + t[1..];
      CountConcat([DpInit], t[1..], DpInit);
      CountSingleton(DpInit, DpInit);
      CountConcat(t, Traces(attempts[1..]), DpInit);
      CountTraces(attempts[1..]);
    }
  }

  /**
    The poll makes its attempts in order and stops right after the first one
    that reads DHCSR with the reset bit clear; faults and readings with the bit
    set never stop it, so without a clear reading every attempt is made.
   */
  lemma {:induction false} PollStopsAtFirstSettle(attempts: seq<Attempt>)
    ensures Poll(attempts) == Traces(attempts[..AttemptsMade(attempts)])
  {
    if |attempts| > 0 {
      if Settles(attempts[0]) {
        assert attempts[..1] == [attempts[0]];
        assert Traces(attempts[..1][1..]) == [];
      } else {
        var rest := attempts[1..];
        PollStopsAtFirstSettle(rest);
        assert FirstSettle(attempts) == 1 + FirstSettle(rest);
        assert AttemptsMade(attempts) == 1 + AttemptsMade(rest);
        assert attempts[..AttemptsMade(attempts)][1..] == rest[..AttemptsMade(rest)];
      }
    }
  }

  /** Each attempt initialises the debug port once, so the poll makes exactly `AttemptsMade` attempts. */
  lemma PollAttemptCount(attempts: seq<Attempt>)
    ensures Count(Poll(attempts), DpInit) == AttemptsMade(attempts)
    ensures FirstSettle(attempts) < |attempts| ==> Count(Poll(attempts), DpInit) == FirstSettle(attempts) + 1
    ensures FirstSettle(attempts) == |attempts| ==> Count(Poll(attempts), DpInit) == |attempts|
  {
    PollStopsAtFirstSettle(attempts);
    CountTraces(attempts[..AttemptsMade(attempts)]);
  }

  /** The poll begins with the whole trace of its first attempt. */
  lemma PollStartsWithAttempt(attempts: seq<Attempt>)
    requires |attempts| > 0
    ensures |AttemptTrace(attempts[0])| <= |Poll(attempts)|
    ensures Poll(attempts)[..|AttemptTrace(attempts[0])|] == AttemptTrace(attempts[0])
  {
  }

  /** Within one attempt the DHCSR read, if any, is the third event. */
  lemma ReadIsThird(a: Attempt, i: nat)
    requires i < |AttemptTrace(a)| && AttemptTrace(a)[i] == ReadDhcsr
    ensures i == 2 && AttemptTrace(a)[0] == DpInit && AttemptTrace(a)[1] == PowerUpDebug
  {
  }

  /**
    Every DHCSR read of the poll comes straight after a debug-port
    initialisation and a debug power-up.
   */
  lemma {:induction false} PollReadsAfterPowerUp(attempts: seq<Attempt>, i: nat)
    requires i < |Poll(attempts)| && Poll(attempts)[i] == ReadDhcsr
    ensures i >= 2 && Poll(attempts)[i - 2] == DpInit && Poll(attempts)[i - 1] == PowerUpDebug
  {
    var t := AttemptTrace(attempts[0]);
    PollStartsWithAttempt(attempts);
    if i < |t| {
      assert t[i] == Poll(attempts)[..|t|][i];
      ReadIsThird(attempts[0], i);
      assert Poll(attempts)[0] == t[0] && Poll(attempts)[1] == t[1];
    } else {
      var rest := Poll(attempts[1..]);
      assert Poll(attempts) == t + rest;
      PollReadsAfterPowerUp(attempts[1..], i - |t|);
      assert rest[i - |t| - 2] == DpInit && rest[i - |t| - 1] == PowerUpDebug;
    }
  }

  /**
    When the deadline runs out with no clear reading, reset raises nothing:
    every admitted attempt is made and the post-reset notification still comes
    last.
   */
  lemma ResetTimeoutIsSilent(core: Core, resetType: Option<ResetType>, link: Link)
    requires !Escapes(resetType, link)
    requires forall j :: 0 <= j < |link.attempts| ==> !Settles(link.attempts[j])
    ensures Reset(core, resetType, link).completion == Returned
    ensures Reset(core, resetType, link).trace[|Reset(core, resetType, link).trace| - 1] == PostReset
    ensures Count(Reset(core, resetType, link).trace, DpInit) == |link.attempts|
  {
    var p := AssertReset(resetType, link);
    var poll := Poll(link.attempts);
    PollAttemptCount(link.attempts);
    PhaseFree(p, DpInit);
    CountSingleton(PreReset, DpInit);
    CountSingleton(PostReset, DpInit);
    CountConcat([PreReset], p.trace, DpInit);
    CountConcat([PreReset] + p.trace, poll, DpInit);
    CountConcat([PreReset] + p.trace + poll, [PostReset], DpInit);
  }

  /** Operations the S5JS100 core overrides with a body that only logs. */
  datatype StubOperation = WaitHalted | ReinitDapCall | Acquire | ResetAndHalt | Resume

  /** A logging-only override: it leaves the core as it was and makes no transport call. */
  function RunStub(op: StubOperation, core: Core): (r: (Core, seq<Event>))
    ensures r.0 == core && r.1 == []
  {
    (core, [])
  }

  /**
    reset_and_halt is one of the stubs: unlike reset it neither bumps the run
    token nor notifies anyone, whatever reset type it is given.
   */
  lemma ResetAndHaltIsNoReset(core: Core, resetType: Option<ResetType>, link: Link)
    ensures RunStub(ResetAndHalt, core).0.runToken != Reset(core, resetType, link).core.runToken
    ensures PreReset !in RunStub(ResetAndHalt, core).1
    ensures PreReset in Reset(core, resetType, link).trace
  {
  }

  /**
    The routine as written: the module that defines it never imports `Target`
    (nor `exceptions`, `Timeout` or `sleep`), so evaluating
    `Target.EVENT_PRE_RESET` on its first effective line raises NameError before
    any notification, run-token change or transport call.
   */
  function ResetAsWritten(core: Core, resetType: Option<ResetType>, link: Link): (r: ResetResult)
    ensures r.completion == Raised(UndefinedName)
    ensures r.core == core && r.trace == []
  {
    ResetResult(core, [], Raised(UndefinedName))
  }

  /**
    For every input, the routine as written leaves the run token alone and
    sends no notification, whereas the intended routine bumps the token and
    always sends the pre-reset notification.
   */
  lemma ResetAsWrittenNeverNotifies(core: Core, resetType: Option<ResetType>, link: Link)
    ensures Count(ResetAsWritten(core, resetType, link).trace, PreReset) == 0
    ensures ResetAsWritten(core, resetType, link).trace == []
    ensures ResetAsWritten(core, resetType, link).core.runToken == core.runToken
    ensures Count(Reset(core, resetType, link).trace, PreReset) == 1
    ensures Reset(core, resetType, link).core.runToken == core.runToken + 1
  {
    ResetNotifiesOnce(core, resetType, link);
  }

}
