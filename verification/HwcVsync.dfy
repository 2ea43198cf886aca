/**
 * The vsync source (common/hwc/HwcVsync.cpp), updated in place and proved to compute what
 * `VsyncSpec` says. Sleeping and the observer are not part of it; the statics of
 * `waitSoftwareVsync` are fields, so the model has one instance.
 */
module VsyncSource {
  import opened CArithmetic
  import opened VideoTunnelTypes
  import opened VsyncSpec

  class HwcVsync {
    const tunnel: bool
    var mSoftVsync: bool
    var mMixVsync: bool
    var vsync_time: int
    var old_vsync_period: int
    var mVsyncTime: int
    var mCurVsyncPeriod: int
    var mMixOffset: int
    var mMixRebase: bool
    var mReqPeriod: int
    var mEnabled: bool
    var mCrtc: Option<nat>
    var mPreTimeStamp: int

    function View(): Vsync
      reads this
    {
      Vsync(vsync_time, old_vsync_period, mVsyncTime, mCurVsyncPeriod, mMixOffset, mMixRebase,
            mReqPeriod, mEnabled, mMixVsync, mCrtc, mPreTimeStamp)
    }

    /** One of the two modes. */
    predicate Valid()
      reads this
    {
      mSoftVsync != mMixVsync
    }

    constructor (isTunnel: bool)
      ensures Valid() && View() == Vsync(0, 0, 0, 0, 0, false, 0, false, false, None, 0) && tunnel == isTunnel
    {
      tunnel := isTunnel;
      mSoftVsync, mMixVsync, mPreTimeStamp := true, false, 0;
      vsync_time, old_vsync_period := 0, 0;
      mVsyncTime, mCurVsyncPeriod, mMixOffset, mMixRebase := 0, 0, 0, false;
      mReqPeriod, mEnabled, mCrtc := 0, false, None;
    }

    method SetSoftwareMode()
      modifies this`mMixVsync, this`mSoftVsync, this`mCrtc
      ensures Valid() && View() == Apply(old(View()), tunnel, SoftMode)
    {
      mMixVsync, mSoftVsync, mCrtc := false, true, None;
    }

    method SetMixMode(crtc: Option<nat>)
      modifies this`mMixVsync, this`mSoftVsync, this`mCrtc, this`mMixRebase
      ensures Valid() && View() == Apply(old(View()), tunnel, MixMode(crtc))
    {
      if crtc.Some? {
        mCrtc := crtc;
      }
      mMixVsync, mMixRebase, mSoftVsync := true, true, false;
    }

    method SetVtMode(crtc: Option<nat>)
      modifies this`mMixVsync, this`mSoftVsync, this`mCrtc, this`mMixRebase, this`mMixOffset
      ensures Valid() && View() == Apply(old(View()), tunnel, VtMode(crtc))
    {
      mMixOffset := VT_OFFSET_LOW_RFRESHRATE;
      SetMixMode(crtc);
    }

    method SetPeriod(period: int)
      modifies this`mReqPeriod
      ensures View() == Apply(old(View()), tunnel, NewPeriod(period))
    {
      if mReqPeriod != period {
        mReqPeriod := period;
      }
    }

    method SetEnabled(enabled: bool)
      modifies this`mEnabled, this`mMixRebase
      ensures View() == Apply(old(View()), tunnel, Enable(enabled))
    {
      mEnabled := enabled;
      if tunnel {
        if mMixVsync {
          mMixRebase := true;
        }
      }
    }

    /** The calls of other threads, one after the other. */
    method OtherThreads(calls: seq<Call>)
      requires Valid()
      modifies this`mMixVsync, this`mSoftVsync, this`mCrtc, this`mMixRebase, this`mMixOffset, this`mReqPeriod,
               this`mEnabled
      ensures Valid() && View() == ApplyAll(old(View()), tunnel, calls)
    {
      var k := 0;
      while k < |calls|
        invariant 0 <= k <= |calls| && Valid() && View() == ApplyAll(old(View()), tunnel, calls[..k])
      {
        match calls[k] {
          case SoftMode => SetSoftwareMode();
          case MixMode(crtc) => SetMixMode(crtc);
          case VtMode(crtc) => SetVtMode(crtc);
          case Enable(on) => SetEnabled(on);
          case NewPeriod(period) => SetPeriod(period);
        }
        assert calls[..k + 1][..k] == calls[..k];
        k := k + 1;
      }
      assert calls[..k] == calls;
    }

    method WaitSoftwareVsync(now: int) returns (timestamp: int)
      modifies this`vsync_time, this`old_vsync_period, this`mReqPeriod
      ensures View() == SoftTick(old(View()), now) && timestamp == vsync_time
    {
      mReqPeriod := if mReqPeriod <= 0 then SECOND / SF_VSYNC_DFT_PERIOD else mReqPeriod;
      if mReqPeriod != old_vsync_period {
        if old_vsync_period > 0 {
          vsync_time := vsync_time + Quot(now - vsync_time, old_vsync_period) * old_vsync_period;
        }
        old_vsync_period := mReqPeriod;
      }
      vsync_time := vsync_time + mReqPeriod;
      if vsync_time - now < 0 {
        vsync_time := now + (mReqPeriod - Rem(now - vsync_time, mReqPeriod));
      }
      timestamp := vsync_time;
    }

    /** The first branch of `waitMixVsync`, with a controller to wait for. */
    method RebaseMix(vblank: nat -> int, during: seq<Call>)
      requires Valid() && mCrtc.Some?
      modifies this`mMixVsync, this`mSoftVsync, this`mCrtc, this`mMixRebase, this`mMixOffset, this`mReqPeriod,
               this`mEnabled
      modifies this`mVsyncTime, this`mCurVsyncPeriod
      ensures Valid() && View() == Rebase(old(View()), tunnel, vblank, during)
    {
      var localCrtc := mCrtc.value;
      OtherThreads(during);
      mVsyncTime := vblank(localCrtc);
      if mEnabled && tunnel {
        if mReqPeriod == 0 || (mReqPeriod > 0 && SECOND / mReqPeriod > SF_VSYNC_DFT_PERIOD) {
          mMixOffset := VT_OFFSET_HIGH_RFRESHRATE;
        } else {
          mMixOffset := VT_OFFSET_LOW_RFRESHRATE;
        }
      }
      mVsyncTime := mVsyncTime + mMixOffset;
      mCurVsyncPeriod := mReqPeriod;
      mMixRebase := false;
    }

    /** `timestamp` stays 0 when there is no controller to wait for. */
    method WaitMixVsync(now: int, vblank: nat -> int, during: seq<Call>) returns (timestamp: int, ret: int)
      requires Valid()
      modifies this`mMixVsync, this`mSoftVsync, this`mCrtc, this`mMixRebase, this`mMixOffset, this`mReqPeriod,
               this`mEnabled
      modifies this`mVsyncTime, this`mCurVsyncPeriod
      ensures Valid() && (View(), ret) == MixTick(old(View()), tunnel, now, vblank, during)
      ensures timestamp == if ret == 0 then mVsyncTime else 0
    {
      mReqPeriod := if mReqPeriod <= 0 then SECOND / SF_VSYNC_DFT_PERIOD else mReqPeriod;
      timestamp := 0;
      if mCurVsyncPeriod != mReqPeriod || mMixRebase {
        if mCrtc.None? {
          OtherThreads(during);
          return timestamp, -EFAULT;
        }
        RebaseMix(vblank, during);
      } else {
        mVsyncTime := mVsyncTime + mCurVsyncPeriod + Quot(now - mVsyncTime, mCurVsyncPeriod) * mCurVsyncPeriod;
        OtherThreads(during);
      }
      return mVsyncTime, 0;
    }

    /** One pass of `vsyncThread`, from its wait to what the observer is told. */
    method VsyncPass(now: int, vblank: nat -> int, during: seq<Call>) returns (report: Report)
      requires Valid()
      modifies this
      ensures Valid() && (View(), report) == Pass(old(View()), tunnel, now, vblank, during)
    {
      var timestamp, ret := 0, 0;
      if mSoftVsync {
        timestamp := WaitSoftwareVsync(now);
        OtherThreads(during);
      } else {
        timestamp, ret := WaitMixVsync(now, vblank, during);
      }
      var period;
      if mPreTimeStamp != 0 && !tunnel {
        period := timestamp - mPreTimeStamp;
      } else {
        period := mReqPeriod;
      }
      mPreTimeStamp := timestamp;
      report := Report(timestamp, period, ret);
    }
  }
}
