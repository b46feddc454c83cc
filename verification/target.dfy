/**
  The S5JS100 target's own steps of the connect sequence: access-port
  discovery, replaced by a fixed choice, and creation of the single core.
 */
module S5JS100Target {

  import opened Options
  import opened CortexM
  import opened S5JS100Reset

  /** The one access port the S5JS100 exposes its core through (AP_NUM). */
  const ApNum: nat := 0

  /** The debug port's record of usable access ports; `None` until someone sets it. */
  datatype DebugPort = DebugPort(validAps: Option<seq<nat>>)

  datatype Target = Target(dp: DebugPort, cores: seq<Core>)

  /**
    S5JS100.find_aps: a guarded one-shot assignment. A list already recorded,
    even an empty one, is kept; otherwise the list becomes just AP_NUM.
   */
  function FindAps(dp: DebugPort): (r: DebugPort)
    ensures dp.validAps.Some? ==> r == dp
    ensures dp.validAps.None? ==> r.validAps == Some([ApNum])
    ensures r.validAps.Some?
  {
    if dp.validAps.Some? then dp else dp.(validAps := Some([ApNum]))
  }

  /** Running find_aps a second time changes nothing. */
  lemma FindApsIdempotent(dp: DebugPort)
    ensures FindAps(FindAps(dp)) == FindAps(dp)
  {
  }

  /**
    S5JS100.create_s5js100_core: one new core on access port AP_NUM whose
    default reset type is SW_SYSRESETREQ, added after the cores already known.
    The initial run token comes from the Cortex-M constructor, which is not
    part of this model, so it is a parameter.
   */
  function CreateCore(t: Target, runToken: int): (r: Target)
    ensures |r.cores| == |t.cores| + 1 && r.cores[..|t.cores|] == t.cores
    ensures r.cores[|t.cores|].defaultResetType == SwSysResetReq
    ensures r.cores[|t.cores|].ap == ApNum
    ensures r.dp == t.dp
  {
    t.(cores := t.cores + [Core(runToken, SwSysResetReq, ApNum)])
  }

  /**
    The S5JS100 core's reset with no type given behaves exactly like a reset
    with the core's default type: both write the system-reset request.
   */
  lemma DefaultResetIsUnspecifiedReset(t: Target, runToken: int, link: Link)
    ensures var c := CreateCore(t, runToken).cores[|t.cores|];
            Reset(c, Some(c.defaultResetType), link) == Reset(c, None, link)
    ensures var c := CreateCore(t, runToken).cores[|t.cores|];
            AircrRequest(Some(c.defaultResetType)) == AircrVectKey | AircrSysResetReq
  {
  }

}
