/**
 * The active-mode policy (common/hwc/ActiveModeMgr.cpp): its two maps of modes and its two
 * active ids, rebuilt in place by `update`, and proved to hold the lists of `ModeLists`.
 */
module ActiveModes {
  import opened VideoTunnelTypes
  import opened ModeLists

  /** The map with keys 0 to |s| - 1 that lists `s`. */
  function ToMap(s: seq<Mode>): map<nat, Mode> {
    map i: nat | i < |s| :: s[i]
  }

  lemma {:induction false} ToMapSize(s: seq<Mode>)
    ensures |ToMap(s)| == |s|
  {
    if s == [] {
      assert ToMap(s) == map[];
    } else {
      var n := |s| - 1;
      ToMapSize(s[..n]);
      assert ToMap(s).Keys == ToMap(s[..n]).Keys + {n};
      assert |ToMap(s).Keys| == |ToMap(s[..n]).Keys| + 1;
    }
  }

  /** `emplace(size(), m)` appends. */
  lemma ToMapAppend(s: seq<Mode>, m: Mode)
    ensures ToMap(s)[|ToMap(s)| := m] == ToMap(s + [m])
  {
    ToMapSize(s);
  }

  class ActiveModeMgr {
    var mLastActiveMode: Mode
    var mDvEnabled: bool
    var mHwcActiveModes: map<nat, Mode>
    var mSfActiveModes: map<nat, Mode>
    var mHwcActiveConfigId: int
    var mSfActiveConfigId: int

    constructor ()
      ensures mLastActiveMode == INITIAL_MODE && mHwcActiveModes == map[] && mSfActiveModes == map[]
    {
      mLastActiveMode, mDvEnabled := INITIAL_MODE, false;
      mHwcActiveModes, mSfActiveModes, mHwcActiveConfigId, mSfActiveConfigId := map[], map[], 0, 0;
    }

    /** The list for SurfaceFlinger is the one `ModeLists` describes, with `list` chosen by rate. */
    ghost predicate SfReady(hwc: seq<Mode>, list: seq<Mode>)
      requires 0 <= mHwcActiveConfigId < |hwc|
      reads this
    {
      && Lists(list, Best(hwc, mLastActiveMode.pixelW))
      && mSfActiveModes == ToMap(SfList(list, hwc[mHwcActiveConfigId]))
      && mSfActiveConfigId == SfActive(list, hwc[mHwcActiveConfigId])
    }

    /** `update`. `supported` are the connector's modes by id, `crtcMode` the controller's mode if it has one. */
    method Update(connected: bool, dvEnabled: bool, highestForDv: string, supported: seq<Mode>, crtcMode: Option<Mode>)
      returns (ghost hwc: seq<Mode>, ghost list: seq<Mode>)
      modifies this
      ensures mDvEnabled == if connected then dvEnabled else old(mDvEnabled)
      ensures hwc == HwcModes(old(mLastActiveMode), supported, if connected then crtcMode else None,
                              mDvEnabled, highestForDv)
      ensures mLastActiveMode == LastMode(old(mLastActiveMode), supported, if connected then crtcMode else None,
                                          mDvEnabled, highestForDv)
      ensures mHwcActiveModes == ToMap(hwc) && mHwcActiveConfigId == ActiveIndex(hwc, mLastActiveMode, 0)
      ensures 0 <= mHwcActiveConfigId < |hwc|
      ensures SfReady(hwc, list)
    {
      hwc := UpdateHwcModes(connected, dvEnabled, highestForDv, supported, crtcMode);
      list := UpdateActive(hwc);
    }

    /** The two last steps of `update`. */
    method UpdateActive(ghost hwc: seq<Mode>) returns (ghost list: seq<Mode>)
      requires mHwcActiveModes == ToMap(hwc) && hwc != [] && mSfActiveModes == map[] && mSfActiveConfigId == -1
      modifies this`mHwcActiveConfigId, this`mSfActiveModes, this`mSfActiveConfigId
      ensures mHwcActiveConfigId == ActiveIndex(hwc, mLastActiveMode, 0) && 0 <= mHwcActiveConfigId < |hwc|
      ensures SfReady(hwc, list)
    {
      UpdateHwcActiveConfig(hwc, mLastActiveMode);
      list := UpdateSfDispConfigs(hwc);
    }

    method UpdateHwcModes(connected: bool, dvEnabled: bool, highestForDv: string, supported: seq<Mode>,
                          crtcMode: Option<Mode>)
      returns (ghost hwc: seq<Mode>)
      modifies this
      ensures mDvEnabled == if connected then dvEnabled else old(mDvEnabled)
      ensures hwc == HwcModes(old(mLastActiveMode), supported, if connected then crtcMode else None,
                              mDvEnabled, highestForDv)
      ensures mLastActiveMode == LastMode(old(mLastActiveMode), supported, if connected then crtcMode else None,
                                          mDvEnabled, highestForDv)
      ensures hwc != [] && mHwcActiveModes == ToMap(hwc)
      ensures mSfActiveModes == map[] && mHwcActiveConfigId == -1 && mSfActiveConfigId == -1
    {
      Reset();
      var useFakeMode := true;
      hwc := [];
      if connected {
        mDvEnabled := dvEnabled;
        if crtcMode.Some? {
          useFakeMode := Collect(supported, crtcMode.value, highestForDv);
          hwc := Visible(supported, crtcMode.value, mDvEnabled, highestForDv);
        }
      }
      if !useFakeMode {
        mLastActiveMode := crtcMode.value;
      } else {
        mLastActiveMode := mLastActiveMode.(name := FAKE_PREVIOUS_MODE);
        ToMapAppend(hwc, mLastActiveMode);
        mHwcActiveModes := mHwcActiveModes[|mHwcActiveModes| := mLastActiveMode];
        hwc := hwc + [mLastActiveMode];
      }
    }

    method Reset()
      modifies this`mHwcActiveModes, this`mSfActiveModes, this`mHwcActiveConfigId, this`mSfActiveConfigId
      ensures mHwcActiveModes == map[] && mSfActiveModes == map[] && mHwcActiveConfigId == -1 && mSfActiveConfigId == -1
    {
      mHwcActiveModes, mSfActiveModes := map[], map[];
      mSfActiveConfigId := -1;
      mHwcActiveConfigId := -1;
    }

    /** The loop of `update` over the connector's modes; the result is `useFakeMode`. */
    method Collect(supported: seq<Mode>, activeMode: Mode, highestForDv: string) returns (useFakeMode: bool)
      requires mHwcActiveModes == map[]
      modifies this`mHwcActiveModes
      ensures mHwcActiveModes == ToMap(Visible(supported, activeMode, mDvEnabled, highestForDv))
      ensures useFakeMode == !IsReal(Visible(supported, activeMode, mDvEnabled, highestForDv), activeMode)
    {
      useFakeMode := true;
      var i := 0;
      assert ToMap([]) == map[];
      while i < |supported|
        invariant 0 <= i <= |supported|
        invariant mHwcActiveModes == ToMap(Visible(supported[..i], activeMode, mDvEnabled, highestForDv))
        invariant useFakeMode == !IsReal(Visible(supported[..i], activeMode, mDvEnabled, highestForDv), activeMode)
      {
        var m := supported[i];
        ghost var before := Visible(supported[..i], activeMode, mDvEnabled, highestForDv);
        assert supported[..i + 1][..i] == supported[..i];
        i := i + 1;
        if mDvEnabled && !Contains(activeMode.name, m.name) && !Contains(highestForDv, "2160p60hz") {
          if Contains(m.name, "2160p") || Contains(m.name, "smpte") {
            continue;
          }
        }
        if activeMode.name == m.name && activeMode.name != "dummy_l" {
          useFakeMode := false;
        }
        RealMore(before, m, activeMode);
        ToMapAppend(before, m);
        mHwcActiveModes := mHwcActiveModes[|mHwcActiveModes| := m];
      }
      assert supported[..i] == supported;
    }

    method UpdateHwcActiveConfig(ghost hwc: seq<Mode>, activeMode: Mode)
      requires mHwcActiveModes == ToMap(hwc) && hwc != []
      modifies this`mHwcActiveConfigId
      ensures mHwcActiveConfigId == ActiveIndex(hwc, activeMode, 0) && 0 <= mHwcActiveConfigId < |hwc|
    {
      ToMapSize(hwc);
      var i := 0;
      while i < |mHwcActiveModes|
        invariant 0 <= i <= |hwc| && ActiveIndex(hwc, activeMode, 0) == ActiveIndex(hwc, activeMode, i)
      {
        var it := mHwcActiveModes[i];
        if activeMode.name == it.name && -0.01 < activeMode.refreshRate.hz - it.refreshRate.hz < 0.01 {
          mHwcActiveConfigId := i;
          return;
        }
        i := i + 1;
      }
      mHwcActiveConfigId := |mHwcActiveModes| - 1;
    }

    method UpdateSfDispConfigs(ghost hwc: seq<Mode>) returns (ghost list: seq<Mode>)
      requires mHwcActiveModes == ToMap(hwc) && 0 <= mHwcActiveConfigId < |hwc|
      requires mSfActiveModes == map[] && mSfActiveConfigId == -1
      modifies this`mSfActiveModes, this`mSfActiveConfigId
      ensures SfReady(hwc, list)
    {
      var tmpList := ChooseByRate(hwc);
      var active := mHwcActiveModes[mHwcActiveConfigId];
      BestFacts(hwc, mLastActiveMode.pixelW);
      var ordered := Ascending(tmpList);
      EmplaceAll(ordered, active);
      list := ordered;
      if mSfActiveConfigId == -1 {
        ToMapAppend(ordered, active);
        mSfActiveModes := mSfActiveModes[|mSfActiveModes| := active];
        ToMapSize(ordered + [active]);
        mSfActiveConfigId := |mSfActiveModes| - 1;
      }
    }

    /** The loop that keeps one mode per refresh rate. */
    method ChooseByRate(ghost hwc: seq<Mode>) returns (tmpList: map<Rate, Mode>)
      requires mHwcActiveModes == ToMap(hwc)
      ensures tmpList == Best(hwc, mLastActiveMode.pixelW)
    {
      ToMapSize(hwc);
      tmpList := map[];
      var i := 0;
      while i < |mHwcActiveModes|
        invariant 0 <= i <= |hwc| && tmpList == Best(hwc[..i], mLastActiveMode.pixelW)
      {
        var cfg := mHwcActiveModes[i];
        assert hwc[..i + 1][..i] == hwc[..i] && cfg == hwc[i];
        i := i + 1;
        if mLastActiveMode.pixelW < 1920 {
          if cfg.pixelW > mLastActiveMode.pixelW {
            continue;
          }
        }
        if cfg.refreshRate in tmpList {
          var iWidth := tmpList[cfg.refreshRate].pixelW;
          if cfg.pixelW >= iWidth && cfg.pixelW != 4096 {
            tmpList := tmpList[cfg.refreshRate := cfg];
          }
        } else {
          tmpList := tmpList[cfg.refreshRate := cfg];
        }
      }
      assert hwc[..i] == hwc;
    }

    /** Iteration over the map in ascending order of its keys. */
    static method Ascending(tmpList: map<Rate, Mode>) returns (list: seq<Mode>)
      requires Keyed(tmpList)
      ensures Lists(list, tmpList)
    {
      list := [];
      var left := tmpList.Keys;
      while left != {}
        invariant Listing(list, left, tmpList)
        decreases left
      {
        var r := Least(left);
        ListingMore(list, left, tmpList, r);
        list := list + [tmpList[r]];
        left := left - {r};
      }
    }

    static method Least(keys: set<Rate>) returns (r: Rate)
      requires keys != {}
      ensures r in keys && forall k :: k in keys ==> r.hz <= k.hz
    {
      r :| r in keys;
      var left := keys - {r};
      while left != {}
        invariant left <= keys && r in keys && forall k :: k in keys && k !in left ==> r.hz <= k.hz
        decreases left
      {
        var k :| k in left;
        assert forall j :: j in keys && j !in left - {k} ==> j == k || j !in left;
        left := left - {k};
        if k.hz < r.hz {
          r := k;
        }
      }
    }

    method EmplaceAll(list: seq<Mode>, active: Mode)
      requires mSfActiveModes == map[] && mSfActiveConfigId == -1
      modifies this`mSfActiveModes, this`mSfActiveConfigId
      ensures mSfActiveModes == ToMap(list) && mSfActiveConfigId == MatchIndex(list, active)
    {
      var i := 0;
      assert ToMap([]) == map[];
      while i < |list|
        invariant 0 <= i <= |list|
        invariant mSfActiveModes == ToMap(list[..i]) && mSfActiveConfigId == MatchIndex(list[..i], active)
      {
        EmplaceOne(list, i);
        mSfActiveModes := mSfActiveModes[|mSfActiveModes| := list[i]];
        if active.name == list[i].name && active.refreshRate == list[i].refreshRate {
          mSfActiveConfigId := |mSfActiveModes| - 1;
        }
        i := i + 1;
      }
      assert list[..i] == list;
    }
  }

  ghost predicate Keyed(best: map<Rate, Mode>) {
    forall r :: r in best ==> best[r].refreshRate == r
  }

  /** The keys not in `left` have been listed, in order, and those in `left` are higher. */
  ghost predicate Listing(list: seq<Mode>, left: set<Rate>, best: map<Rate, Mode>) {
    && left <= best.Keys
    && (forall r :: r in best && r !in left ==> best[r] in list)
    && (forall i, j :: 0 <= i < j < |list| ==> list[i].refreshRate.hz < list[j].refreshRate.hz)
    && (forall i :: 0 <= i < |list| ==> list[i].refreshRate in best && best[list[i].refreshRate] == list[i])
    && (forall i, r :: 0 <= i < |list| && r in left ==> list[i].refreshRate.hz < r.hz)
  }

  lemma ListingMore(list: seq<Mode>, left: set<Rate>, best: map<Rate, Mode>, r: Rate)
    requires Keyed(best) && Listing(list, left, best) && r in left && forall k :: k in left ==> r.hz <= k.hz
    ensures Listing(list + [best[r]], left - {r}, best)
  {
    var next := list + [best[r]];
    forall k | k in best && k !in left - {r} ensures best[k] in next {
      if k == r {
        assert next[|list|] == best[r];
      } else {
        assert best[k] in list;
      }
    }
    forall i, k | 0 <= i < |next| && k in left - {r} ensures next[i].refreshRate.hz < k.hz {
      assert r.hz <= k.hz && r != k;
    }
  }

  lemma EmplaceOne(list: seq<Mode>, i: nat)
    requires i < |list|
    ensures ToMap(list[..i])[|ToMap(list[..i])| := list[i]] == ToMap(list[..i + 1]) && |ToMap(list[..i + 1])| == i + 1
    ensures list[..i + 1][..i] == list[..i]
  {
    ToMapAppend(list[..i], list[i]);
    assert list[..i + 1] == list[..i] + [list[i]];
    ToMapSize(list[..i + 1]);
  }

  lemma RealMore(modes: seq<Mode>, m: Mode, active: Mode)
    ensures IsReal(modes + [m], active) <==>
            IsReal(modes, active) || (active.name == m.name && active.name != "dummy_l")
  {
  }
}
