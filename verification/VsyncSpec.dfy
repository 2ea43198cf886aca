/**
 * The times computed by the vsync thread (common/hwc/HwcVsync.cpp), in nanoseconds of
 * the monotonic clock. Division is that of C++, truncating toward zero.
 */
module VsyncSpec {
  import opened CArithmetic
  import opened VideoTunnelTypes

  const SECOND := 1_000_000_000
  const SF_VSYNC_DFT_PERIOD := 60
  const VT_OFFSET_HIGH_RFRESHRATE := 1_000_000
  const VT_OFFSET_LOW_RFRESHRATE := 5_000_000
  const EFAULT := 14

  /**
   * `softTime` and `softPeriod` are the statics of `waitSoftwareVsync`; the other fields are
   * members of the object. `mix` is mMixVsync, `crtc` the display controller that
   * hardware times come from, `last` mPreTimeStamp.
   */
  datatype Vsync = Vsync(
    softTime: int, softPeriod: int,
    vsyncTime: int, curPeriod: int, mixOffset: int, rebase: bool,
    reqPeriod: int, enabled: bool, mix: bool, crtc: Option<nat>, last: int)

  /** What other threads ask of the vsync source. */
  datatype Call =
    | SoftMode
    | MixMode(crtc: Option<nat>)
    | VtMode(crtc: Option<nat>)
    | Enable(on: bool)
    | NewPeriod(period: int)

  function Apply(v: Vsync, tunnel: bool, c: Call): Vsync {
    match c
    case SoftMode => v.(mix := false, crtc := None)
    case MixMode(crtc) => StartMix(v, crtc)
    case VtMode(crtc) => StartMix(v.(mixOffset := VT_OFFSET_LOW_RFRESHRATE), crtc)
    case Enable(on) => v.(enabled := on, rebase := v.rebase || (tunnel && v.mix))
    case NewPeriod(period) => v.(reqPeriod := period)
  }

  function StartMix(v: Vsync, crtc: Option<nat>): Vsync {
    v.(mix := true, rebase := true, crtc := if crtc.Some? then crtc else v.crtc)
  }

  function ApplyAll(v: Vsync, tunnel: bool, calls: seq<Call>): Vsync {
    if calls == [] then v
    else Apply(ApplyAll(v, tunnel, calls[..|calls| - 1]), tunnel, calls[|calls| - 1])
  }

  /** The requested period, or that of 60 Hz. */
  function Period(reqPeriod: int): (p: int)
    ensures p > 0
  {
    if reqPeriod <= 0 then SECOND / SF_VSYNC_DFT_PERIOD else reqPeriod
  }

  /** The tick from which the next software tick is counted. */
  function SoftBase(time: int, oldPeriod: int, period: int, now: int): int {
    if period != oldPeriod && oldPeriod > 0 then time + Quot(now - time, oldPeriod) * oldPeriod else time
  }

  function SoftNext(base: int, period: int, now: int): int
    requires period > 0
  {
    var next := base + period;
    if next - now < 0 then now + (period - Rem(now - next, period)) else next
  }

  function SoftTick(v: Vsync, now: int): Vsync {
    var period := Period(v.reqPeriod);
    v.(reqPeriod := period, softPeriod := period,
       softTime := SoftNext(SoftBase(v.softTime, v.softPeriod, period, now), period, now))
  }

  function MixNext(time: int, period: int, now: int): int
    requires period > 0
  {
    time + period + Quot(now - time, period) * period
  }

  /**
   * The offset between a hardware vsync and the time handed out, for a tunnel display. The
   * source divides in floating point: no period counts as a high rate, a negative one as a low rate.
   */
  function TunnelOffset(period: int): int {
    if period == 0 || (period > 0 && SECOND / period > SF_VSYNC_DFT_PERIOD)
    then VT_OFFSET_HIGH_RFRESHRATE else VT_OFFSET_LOW_RFRESHRATE
  }

  predicate NeedsRebase(v: Vsync) {
    v.curPeriod != Period(v.reqPeriod) || v.rebase
  }

  /**
   * The branch of `waitMixVsync` that goes back to the hardware. `during` are the calls of
   * other threads while it waits, with the lock released; `vblank(c)` is the time that
   * `waitVBlank` of controller c reports.
   */
  function Rebase(v: Vsync, tunnel: bool, vblank: nat -> int, during: seq<Call>): Vsync
    requires v.crtc.Some?
  {
    var w := ApplyAll(v, tunnel, during);
    var offset := if w.enabled && tunnel then TunnelOffset(w.reqPeriod) else w.mixOffset;
    w.(mixOffset := offset, vsyncTime := vblank(v.crtc.value) + offset, curPeriod := w.reqPeriod, rebase := false)
  }

  /** `waitMixVsync` */
  function MixTick(v: Vsync, tunnel: bool, now: int, vblank: nat -> int, during: seq<Call>): (Vsync, int) {
    var u := v.(reqPeriod := Period(v.reqPeriod));
    if !NeedsRebase(v) then
      (ApplyAll(u.(vsyncTime := MixNext(u.vsyncTime, u.curPeriod, now)), tunnel, during), 0)
    else if v.crtc.None? then (ApplyAll(u, tunnel, during), -EFAULT)
    else (Rebase(u, tunnel, vblank, during), 0)
  }

  /** What `vsyncThread` has to tell the observer after a wait. */
  datatype Report = Report(timestamp: int, period: int, ret: int)

  /** One pass of `vsyncThread` once vsync is enabled. */
  function Pass(v: Vsync, tunnel: bool, now: int, vblank: nat -> int, during: seq<Call>): (Vsync, Report) {
    var (w, ret) := if v.mix then MixTick(v, tunnel, now, vblank, during)
                    else (ApplyAll(SoftTick(v, now), tunnel, during), 0);
    var timestamp := if ret != 0 then 0 else if v.mix then w.vsyncTime else w.softTime;
    var period := if v.last != 0 && !tunnel then timestamp - v.last else w.reqPeriod;
    (w.(last := timestamp), Report(timestamp, period, ret))
  }
}
