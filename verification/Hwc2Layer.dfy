/**
 * The video-tunnel half of a layer (hwc2/Hwc2Layer.cpp), updated in place.
 * Every method leaves the layer in the state its `LayerSpec` function gives, and hands
 * exactly that function's frames, in that order, to `onVtFrameDisplayed`.
 */
module TunnelLayer {
  import opened VideoTunnelTypes
  import opened DrmSync
  import opened CArithmetic
  import opened LayerSpec

  class Hwc2Layer {
    var mIsVt: bool
    var mNeedReleaseVtResource: bool
    var mHasConsumer: bool
    var mTunnelId: int
    var mQueueItems: seq<Frame>
    var mVtBuffer: Option<Frame>     // the frame behind mVtBufferFd; None is -1
    var mPreVtBuffer: Option<Frame>  // the frame behind mPreVtBufferFd
    var mVtUpdate: bool
    var mVtRefreshed: bool
    var mGameMode: bool
    var mTunnelIdUpdate: bool
    var mTimestamp: int
    var mExpectedPresentTime: int
    var mQueuedFrames: int
    var mVideoDisplayStatus: VideoStatus
    var mSolidColorBufferfd: int
    var mHasSolidHandle: bool
    var mDifd: int
    var mCurReleaseFence: Option<Fence>
    var mPrevReleaseFence: Option<Fence>

    /** Every call of `onVtFrameDisplayed` that reached the instance, oldest first. */
    ghost var givenBack: seq<GiveBack>

    ghost function View(): Layer
      reads this
    {
      Layer(Link(mIsVt, mNeedReleaseVtResource, mHasConsumer, mTunnelId, mTunnelIdUpdate),
            Clock(mGameMode, mExpectedPresentTime), mQueueItems, mVtBuffer, mPreVtBuffer, mVtUpdate, mVtRefreshed,
            mTimestamp, mQueuedFrames, mVideoDisplayStatus, Colour(mSolidColorBufferfd, mHasSolidHandle), mDifd,
            Fences(mCurReleaseFence, mPrevReleaseFence))
    }

    ghost predicate Valid()
      reads this
    {
      Wf(View())
    }

    ghost predicate Did(o: Outcome, before: seq<GiveBack>)
      reads this
    {
      && Agree(View(), o.layer) && givenBack == before + o.gives
    }

    /** The frame-holding half of `Did`, for the methods whose `modifies` clause fixes the rest. */
    ghost predicate HoldsAs(o: Outcome, before: seq<GiveBack>)
      reads this
    {
      && mQueueItems == o.layer.queue && mVtBuffer == o.layer.cur && mPreVtBuffer == o.layer.pre
      && mVtUpdate == o.layer.vtUpdate && mTimestamp == o.layer.timestamp && mQueuedFrames == o.layer.queuedFrames
      && givenBack == before + o.gives
    }

    constructor ()
      ensures Valid() && View() == INITIAL && givenBack == []
    {
      mIsVt, mNeedReleaseVtResource, mHasConsumer, mTunnelId := false, false, false, -1;
      mQueueItems, mVtBuffer, mPreVtBuffer, mVtUpdate, mVtRefreshed := [], None, None, false, false;
      mGameMode, mTunnelIdUpdate, mTimestamp, mExpectedPresentTime := false, false, -1, 0;
      mQueuedFrames, mVideoDisplayStatus, mSolidColorBufferfd, mHasSolidHandle := 0, Show, -1, false;
      mDifd, mCurReleaseFence, mPrevReleaseFence := -1, None, None;
      givenBack := [];
    }

    predicate ShouldPresentNow(timestamp: int)
      reads this
      ensures ShouldPresentNow(timestamp) == Due(View(), timestamp)
    {
      if timestamp == -1 then true
      else if mGameMode then true
      else
        var isDue := timestamp < mExpectedPresentTime;
        var isPlausible := timestamp < mExpectedPresentTime + 1_000_000_000 / 1000;
        isDue || !isPlausible
    }

    /** `handleFd` is the descriptor of the layer's own buffer, if it has one. */
    method GetBufferFd(handleFd: int) returns (fd: int)
      requires Valid()
      ensures fd == if mIsVt || mDifd >= 0 then BufferFd(View()) else handleFd
    {
      fd := -1;
      if mDifd >= 0 {
        fd := mDifd;
      } else if mIsVt {
        if ShouldPresentNow(mTimestamp) {
          fd := FdOf(if mVtUpdate then mVtBuffer else mPreVtBuffer);
        } else {
          fd := FdOf(mPreVtBuffer);
        }
      } else {
        fd := handleFd;
      }
    }

    predicate NewGameBuffer()
      reads this
    {
      mIsVt && mGameMode && |mQueueItems| > 0
    }

    /** `answer` is what the consumer answers; where the source ignores it, callers pass 0. */
    method OnVtFrameDisplayed(frame: Frame, fence: Fence, answer: int) returns (ret: int)
      modifies this`givenBack
      ensures givenBack == old(givenBack) + (if mHasConsumer then [GiveBack(frame, fence)] else [])
      ensures ret == if mHasConsumer then answer else -1
    {
      if !mHasConsumer {
        return -1;
      }
      givenBack := givenBack + [GiveBack(frame, fence)];
      ret := answer;
    }

    method OnVtFrameAvailable(items: seq<Frame>) returns (ret: int)
      requires Valid()
      modifies this
      ensures Did(Deliver(old(View()), items), old(givenBack)) && Valid()
      ensures ret == Deliver(old(View()), items).ret
    {
      if !mIsVt && !mNeedReleaseVtResource {
        return -EINVAL;
      }
      if mTunnelId < 0 {
        return -EINVAL;
      }
      QueueAll(items);
      if mQueueItems == [] {
        return -EAGAIN;
      }
      ret := 0;
    }

    /** The loop of `onVtFrameAvailable`. */
    method QueueAll(items: seq<Frame>)
      modifies this`mQueueItems, this`mQueuedFrames
      ensures mQueueItems == old(mQueueItems) + items && mQueuedFrames == old(mQueuedFrames) + |items|
    {
      var i := 0;
      while i < |items|
        invariant 0 <= i <= |items|
        invariant mQueueItems == old(mQueueItems) + items[..i] && mQueuedFrames == old(mQueuedFrames) + i
      {
        mQueueItems := mQueueItems + [items[i]];
        mQueuedFrames := mQueuedFrames + 1;
        i := i + 1;
        assert old(mQueueItems) + items[..i] == (old(mQueueItems) + items[..i - 1]) + [items[i - 1]];
      }
      assert items[..i] == items;
    }

    method SetPresentTime(expectedPresentTime: int)
      requires Valid()
      modifies this
      ensures Did(Outcome(LayerSpec.SetPresentTime(old(View()), expectedPresentTime), [], 0), old(givenBack)) && Valid()
    {
      if !mIsVt {
        return;
      }
      mExpectedPresentTime := Quot(expectedPresentTime, 1000);
    }

    method UpdateVtBuffer()
      requires Valid()
      modifies this`mQueueItems, this`mVtBuffer, this`mVtUpdate, this`mTimestamp, this`mQueuedFrames,
               this`mTunnelIdUpdate, this`givenBack
      ensures HoldsAs(Update(old(View())), old(givenBack)) && Valid()
      ensures mTunnelIdUpdate == Update(old(View())).layer.link.idUpdate
    {
      if !mIsVt || mQueueItems == [] {
        return;
      }
      var expiredItemCount := CountExpired();
      ExpiredCountBound(View(), mQueueItems);
      DropExpired(expiredItemCount - 1);

      SelectHead();
      UpdateKeepsWf(old(View()));
    }

    method SelectHead()
      requires mQueueItems != []
      modifies this`mVtUpdate, this`mVtBuffer, this`mTimestamp, this`mTunnelIdUpdate
      ensures mVtUpdate && mVtBuffer == Some(mQueueItems[0]) && mTimestamp == mQueueItems[0].ts
      ensures mTunnelIdUpdate == (old(mTunnelIdUpdate) && !ShouldPresentNow(mTimestamp))
    {
      mVtUpdate := true;
      mTimestamp := mQueueItems[0].ts;
      mVtBuffer := Some(mQueueItems[0]);
      if ShouldPresentNow(mTimestamp) {
        mTunnelIdUpdate := false;
      }
    }

    /** The counting loop of `updateVtBuffer`. */
    method CountExpired() returns (expiredItemCount: int)
      ensures expiredItemCount == ExpiredCount(View(), mQueueItems)
    {
      expiredItemCount := 0;
      var i := 0;
      while i < |mQueueItems|
        invariant 0 <= i <= |mQueueItems|
        invariant expiredItemCount == ExpiredCount(View(), mQueueItems[..i])
      {
        if mQueueItems[i].ts > 0 && ShouldPresentNow(mQueueItems[i].ts) {
          if !mGameMode {
            expiredItemCount := expiredItemCount + 1;
          }
        }
        i := i + 1;
        assert mQueueItems[..i][..i - 1] == mQueueItems[..i - 1];
      }
      assert mQueueItems[..i] == mQueueItems;
    }

    /** The drop loop of `updateVtBuffer`. The current frame may be among those dropped. */
    method DropExpired(count: int)
      requires count < |mQueueItems| && mQueueItems != []
      modifies this`mQueueItems, this`mQueuedFrames, this`givenBack
      ensures var d := if count < 0 then 0 else count;
              && mQueueItems == old(mQueueItems)[d..] && mQueuedFrames == old(mQueuedFrames) - d
              && givenBack == old(givenBack) + Reach(View(), Plain(old(mQueueItems)[..d]))
    {
      var dropCount := count;
      ghost var d := 0;
      assert Plain(old(mQueueItems)[..0]) == [];
      while dropCount > 0
        invariant 0 <= d < |old(mQueueItems)| && d + dropCount == count
        invariant if count < 0 then d == 0 else dropCount >= 0
        invariant mQueueItems == old(mQueueItems)[d..] && mQueuedFrames == old(mQueuedFrames) - d
        invariant givenBack == old(givenBack) + Reach(View(), Plain(old(mQueueItems)[..d]))
        decreases dropCount
      {
        var item := mQueueItems[0];
        var _ := OnVtFrameDisplayed(item, NoFence, 0);
        mQueuedFrames := mQueuedFrames - 1;
        mQueueItems := mQueueItems[1..];
        dropCount := dropCount - 1;
        d := d + 1;
        PlainMore(old(mQueueItems), d - 1);
      }
    }

    /** `setVtPrevReleaseFence` moves this into the previous fence and clears the current one. */
    function ShiftedFence(): Option<Fence>
      reads this
    {
      if mCurReleaseFence.Some? then mCurReleaseFence else mPrevReleaseFence
    }

    /** The result is the consumer's answer if a frame goes back to it. */
    method ReleaseVtBuffer(answer: int) returns (ret: int)
      requires Valid()
      modifies this`mQueueItems, this`mPreVtBuffer, this`mVtBuffer, this`mVtUpdate, this`mQueuedFrames,
               this`mPrevReleaseFence, this`mCurReleaseFence, this`givenBack, this`mVtRefreshed
      ensures HoldsAs(Release(old(View())), old(givenBack)) && Valid()
      ensures View().fences == Release(old(View())).layer.fences && mVtRefreshed == Release(old(View())).layer.refreshed
      ensures ret == if Release(old(View())).gives != [] then answer else Release(old(View())).ret
    {
      if !mIsVt {
        return -EINVAL;
      }
      if mVtRefreshed {
        mVtRefreshed := false;
        if !ShouldPresentNow(mTimestamp) || (ShouldPresentNow(mTimestamp) && !mVtUpdate) {
          mPrevReleaseFence, mCurReleaseFence := ShiftedFence(), None;
          return 0;
        }
      }
      if !mVtUpdate {
        return -EAGAIN;
      }
      if !ShouldPresentNow(mTimestamp) {
        return -EAGAIN;
      }
      if mQueueItems == [] {
        return -EAGAIN;
      }
      ret := PromoteCurrent(answer);
    }

    /** The second half of `releaseVtBuffer`, reached when there is a due frame to show. */
    method PromoteCurrent(answer: int) returns (ret: int)
      requires Valid()
      modifies this`mQueueItems, this`mPreVtBuffer, this`mVtBuffer, this`mVtUpdate, this`mQueuedFrames,
               this`mPrevReleaseFence, this`mCurReleaseFence, this`givenBack
      ensures HoldsAs(Promote(old(View())), old(givenBack)) && Valid()
      ensures View().fences == Promote(old(View())).layer.fences
      ensures ret == if Promote(old(View())).gives != [] then answer else Promote(old(View())).ret
    {
      ReleaseKeepsWf(View());
      if mVtBuffer.Some? {
        mQueueItems := mQueueItems[1..];
      }
      ret := 0;
      if mPreVtBuffer.Some? || mVtBuffer.Some? {
        ret := GiveBackOnScreen(answer);
        ShowCurrent();
      }
    }

    /** The current buffer becomes the one on screen, and so does its fence. */
    method ShowCurrent()
      modifies this`mPreVtBuffer, this`mVtBuffer, this`mVtUpdate, this`mPrevReleaseFence, this`mCurReleaseFence
      ensures mPreVtBuffer == old(mVtBuffer) && mVtBuffer == None && !mVtUpdate
      ensures mPrevReleaseFence == old(ShiftedFence()) && mCurReleaseFence == None
    {
      mPreVtBuffer := mVtBuffer;
      mVtUpdate := false;
      mVtBuffer := None;
      mPrevReleaseFence, mCurReleaseFence := ShiftedFence(), None;
    }

    /** `releaseVtResourceLocked` with its defaults spelled out. */
    method ReleaseVtResourceLocked(needDisconnect: bool, needKeepLastFrame: bool)
      requires Valid()
      modifies this`mQueueItems, this`mPreVtBuffer, this`mVtBuffer, this`mVtUpdate, this`mQueuedFrames, this`mTimestamp,
               this`givenBack, this`mHasConsumer, this`mTunnelId, this`mNeedReleaseVtResource
      ensures HoldsAs(Flush(old(View()), needDisconnect, needKeepLastFrame), old(givenBack)) && Valid()
      ensures View().link == Flush(old(View()), needDisconnect, needKeepLastFrame).layer.link
    {
      hide FlushGives;
      if mIsVt || mNeedReleaseVtResource {
        if !mHasConsumer {
          return;
        }
        FlushKeepsWf(View(), needDisconnect, needKeepLastFrame);
        GiveBackFrames(!needKeepLastFrame || needDisconnect);
        ForgetFrames(!needKeepLastFrame || needDisconnect);
        Detach(needDisconnect);
      }
    }

    /** The same, with the whole state spelled out. */
    method ReleaseVtResource(needDisconnect: bool, needKeepLastFrame: bool)
      requires Valid()
      modifies this`mQueueItems, this`mPreVtBuffer, this`mVtBuffer, this`mVtUpdate, this`mQueuedFrames, this`mTimestamp,
               this`givenBack, this`mHasConsumer, this`mTunnelId, this`mNeedReleaseVtResource
      ensures Did(Flush(old(View()), needDisconnect, needKeepLastFrame), old(givenBack)) && Valid()
    {
      hide Flush;
      FlushFrame(View(), needDisconnect, needKeepLastFrame);
      ReleaseVtResourceLocked(needDisconnect, needKeepLastFrame);
    }

    method Detach(needDisconnect: bool)
      modifies this`mHasConsumer, this`mTunnelId, this`mQueuedFrames, this`mNeedReleaseVtResource
      ensures mQueuedFrames == 0 && !mNeedReleaseVtResource
      ensures var leave := old(mTunnelId) >= 0 && needDisconnect;
              && mHasConsumer == (old(mHasConsumer) && !leave) && mTunnelId == if leave then -1 else old(mTunnelId)
    {
      if mTunnelId >= 0 && needDisconnect {
        // unregisterConsumer
        mHasConsumer := false;
        mTunnelId := -1;
      }
      mQueuedFrames := 0;
      mNeedReleaseVtResource := false;
    }

    method ForgetFrames(dropPre: bool)
      modifies this`mPreVtBuffer, this`mVtBuffer, this`mQueueItems, this`mVtUpdate, this`mTimestamp
      ensures mVtBuffer == None && mQueueItems == [] && !mVtUpdate && mTimestamp == -1
      ensures mPreVtBuffer == if dropPre then None else old(mPreVtBuffer)
    {
      if dropPre {
        mPreVtBuffer := None;
      }
      mVtBuffer := None;
      mQueueItems := [];
      mVtUpdate := false;
      mTimestamp := -1;
    }

    /** Everything a flush hands back, in order: on screen, current, then the queue behind it. */
    method GiveBackFrames(dropPre: bool)
      requires mHasConsumer && Valid()
      modifies this`mQueueItems, this`mQueuedFrames, this`givenBack
      ensures givenBack == old(givenBack) + FlushGives(old(View()), dropPre)
    {
      ghost var l := View();
      if dropPre {
        var _ := GiveBackOnScreen(0);
      }
      ghost var first := if dropPre then OnScreenGive(mPreVtBuffer, mPrevReleaseFence) else [];
      assert givenBack == old(givenBack) + first;
      GiveBackCurrent();
      GiveBackQueue();
      ConcatAssoc(old(givenBack), first, OnScreenGive(mVtBuffer, mCurReleaseFence), Plain(mQueueItems));
      assert mQueueItems == Rest(l);
    }

    method GiveBackOnScreen(answer: int) returns (ret: int)
      modifies this`mQueuedFrames, this`givenBack
      ensures givenBack == old(givenBack) + (if mHasConsumer then OnScreenGive(mPreVtBuffer, mPrevReleaseFence) else [])
      ensures mQueuedFrames == old(mQueuedFrames) - (if mPreVtBuffer.Some? then 1 else 0)
      ensures ret == if mPreVtBuffer.None? then 0 else if mHasConsumer then answer else -1
    {
      ret := 0;
      if mPreVtBuffer.Some? {
        ret := OnVtFrameDisplayed(mPreVtBuffer.value, DupOf(mPrevReleaseFence), answer);
        mQueuedFrames := mQueuedFrames - 1;
      }
    }

    method GiveBackCurrent()
      requires mHasConsumer && (mVtBuffer.Some? ==> mQueueItems != [])
      modifies this`mQueueItems, this`mQueuedFrames, this`givenBack
      ensures givenBack == old(givenBack) + OnScreenGive(mVtBuffer, mCurReleaseFence)
      ensures mQueueItems == if mVtBuffer.Some? then old(mQueueItems)[1..] else old(mQueueItems)
    {
      if mVtBuffer.Some? {
        var _ := OnVtFrameDisplayed(mVtBuffer.value, DupOf(mCurReleaseFence), 0);
        mQueuedFrames := mQueuedFrames - 1;
        mQueueItems := mQueueItems[1..];
      }
    }

    /** The loop of `releaseVtResourceLocked` over what is left of the queue. */
    method GiveBackQueue()
      requires mHasConsumer
      modifies this`mQueuedFrames, this`givenBack
      ensures givenBack == old(givenBack) + Plain(mQueueItems)
    {
      var i := 0;
      while i < |mQueueItems|
        invariant 0 <= i <= |mQueueItems|
        invariant givenBack == old(givenBack) + Plain(mQueueItems[..i])
      {
        var _ := OnVtFrameDisplayed(mQueueItems[i], NoFence, 0);
        mQueuedFrames := mQueuedFrames - 1;
        i := i + 1;
        PlainMore(mQueueItems, i - 1);
      }
      assert mQueueItems[..i] == mQueueItems;
    }

    method FreeSolidColorBuffer()
      requires Valid()
      modifies this`mSolidColorBufferfd, this`mVtUpdate, this`mVtRefreshed, this`mCurReleaseFence
      ensures Did(Outcome(FreeSolidColor(old(View())), [], 0), old(givenBack)) && Valid()
    {
      if mSolidColorBufferfd >= 0 {
        mSolidColorBufferfd := -1;
        mVtUpdate := false;
        mVtRefreshed := false;
        mCurReleaseFence := Some(NoFence);
      }
    }

    method GetSolidColorBuffer(preBufferDup: int) returns (fd: int)
      requires Valid()
      modifies this
      ensures Did(Outcome(FetchSolidColor(old(View()), preBufferDup), [], 0), old(givenBack)) && Valid()
      ensures fd == if mIsVt then mSolidColorBufferfd else -EINVAL
    {
      if !mIsVt {
        return -EINVAL;
      }
      if mSolidColorBufferfd < 0 && mHasSolidHandle && mVtRefreshed
         && (mVideoDisplayStatus == ColorOnce || mVideoDisplayStatus == ColorAlways) {
        if preBufferDup >= 0 {
          mSolidColorBufferfd := preBufferDup;
        }
      }
      fd := mSolidColorBufferfd;
    }

    method OnNeedShowTempBuffer(allocatedDup: int)
      requires Valid()
      modifies this
      ensures Did(Outcome(ShowTempBuffer(old(View()), allocatedDup), [], 0), old(givenBack)) && Valid()
    {
      if mSolidColorBufferfd < 0 {
        mHasSolidHandle := true;
        if allocatedDup >= 0 {
          mSolidColorBufferfd := allocatedDup;
        }
      }
      if mSolidColorBufferfd >= 0 {
        mVtUpdate := true;
      }
    }

    method BlankOnce()
      requires Valid() && mIsVt && mVideoDisplayStatus == Blank
      modifies this`mQueueItems, this`mPreVtBuffer, this`mVtBuffer, this`mVtUpdate, this`mQueuedFrames, this`mTimestamp,
               this`givenBack, this`mHasConsumer, this`mTunnelId, this`mNeedReleaseVtResource, this`mVideoDisplayStatus
      ensures HoldsAs(HandleStatus(old(View())), old(givenBack)) && Valid()
      ensures View().link == HandleStatus(old(View())).layer.link
      ensures mVideoDisplayStatus == HandleStatus(old(View())).layer.status
    {
      mVideoDisplayStatus := Show;
      ReleaseVtResource(false, false);
    }

    method ColourOnce()
      requires Valid() && mIsVt && mVideoDisplayStatus == ColorOnce
      modifies this`mQueueItems, this`mPreVtBuffer, this`mVtBuffer, this`mVtUpdate, this`mQueuedFrames, this`mTimestamp,
               this`givenBack, this`mHasConsumer, this`mTunnelId, this`mNeedReleaseVtResource, this`mVideoDisplayStatus
      ensures HoldsAs(HandleStatus(old(View())), old(givenBack)) && Valid()
      ensures View().link == HandleStatus(old(View())).layer.link
      ensures mVideoDisplayStatus == HandleStatus(old(View())).layer.status
    {
      var fd := GetBufferFd(-1);
      if fd >= 0 || mQueueItems != [] {
        mVideoDisplayStatus := Show;
      }
      ReleaseVtResource(false, false);
    }

    method HideVideo()
      requires Valid() && mIsVt && mVideoDisplayStatus == Hide
      modifies this`mQueueItems, this`mPreVtBuffer, this`mVtBuffer, this`mVtUpdate, this`mQueuedFrames, this`mTimestamp,
               this`givenBack, this`mHasConsumer, this`mTunnelId, this`mNeedReleaseVtResource, this`mCurReleaseFence
      ensures HoldsAs(HandleStatus(old(View())), old(givenBack)) && Valid()
      ensures View().link == HandleStatus(old(View())).layer.link
      ensures mCurReleaseFence == Some(NoFence)
    {
      ReleaseVtResource(false, false);
      mCurReleaseFence := Some(NoFence);
    }

    method DisableColour()
      requires Valid() && mVideoDisplayStatus == ColorDisable
      modifies this`mSolidColorBufferfd, this`mVtUpdate, this`mVtRefreshed, this`mCurReleaseFence,
               this`mVideoDisplayStatus
      ensures Did(HandleStatus(old(View())), old(givenBack)) && Valid()
    {
      mVideoDisplayStatus := Show;
      FreeSolidColorBuffer();
    }

    /** The commands that clear the last frame. */
    method ClearVideo()
      requires Valid() && mIsVt && (mVideoDisplayStatus == Blank || mVideoDisplayStatus == Hide)
      modifies this`mQueueItems, this`mPreVtBuffer, this`mVtBuffer, this`mVtUpdate, this`mQueuedFrames, this`mTimestamp,
               this`givenBack, this`mHasConsumer, this`mTunnelId, this`mNeedReleaseVtResource, this`mVideoDisplayStatus,
               this`mCurReleaseFence
      ensures Did(HandleStatus(old(View())), old(givenBack)) && Valid()
    {
      hide HandleStatus;
      ClearFrame(View());
      if mVideoDisplayStatus == Blank {
        BlankOnce();
      } else {
        HideVideo();
      }
    }

    /** The commands that drop the queue but leave the plane alone. */
    method DropForColourOrHold()
      requires Valid() && mIsVt
      requires mVideoDisplayStatus == ColorOnce || mVideoDisplayStatus == ColorAlways
               || mVideoDisplayStatus == HoldFrame
      modifies this`mQueueItems, this`mPreVtBuffer, this`mVtBuffer, this`mVtUpdate, this`mQueuedFrames, this`mTimestamp,
               this`givenBack, this`mHasConsumer, this`mTunnelId, this`mNeedReleaseVtResource, this`mVideoDisplayStatus
      ensures Did(HandleStatus(old(View())), old(givenBack)) && Valid()
    {
      if mVideoDisplayStatus == ColorOnce {
        ColourOnce();
      } else {
        ReleaseVtResource(false, mVideoDisplayStatus == HoldFrame);
      }
    }

    method IsVtNeedClearFrameOrShowColorBuffer() returns (ret: bool)
      requires Valid() && mIsVt
      modifies this`mQueueItems, this`mPreVtBuffer, this`mVtBuffer, this`mVtUpdate, this`mQueuedFrames, this`mTimestamp,
               this`givenBack, this`mHasConsumer, this`mTunnelId, this`mNeedReleaseVtResource, this`mVideoDisplayStatus,
               this`mVtRefreshed, this`mSolidColorBufferfd, this`mCurReleaseFence
      ensures Did(HandleStatus(old(View())), old(givenBack)) && Valid() && ret == (HandleStatus(old(View())).ret == 1)
    {
      ret := false;
      match mVideoDisplayStatus {
        case Blank | Hide =>
          ClearVideo();
          ret := true;
        case ColorOnce | ColorAlways | HoldFrame =>
          DropForColourOrHold();
        case ColorDisable =>
          DisableColour();
        case Show =>
      }
    }

    /** Returns true when the caller must not present a tunnel buffer; `blank` asks it to blank the plane. */
    method InterruptVtProcess() returns (ret: bool, blank: bool)
      requires Valid()
      modifies this
      ensures old(mIsVt) ==>
                && Did(HandleStatus(old(View())), old(givenBack)) && Valid()
                && ret == !Decide(View(), HandleStatus(old(View())).ret == 1).Proceed?
                && blank == Decide(View(), HandleStatus(old(View())).ret == 1).BlankPlane?
      ensures !old(mIsVt) ==> Did(Outcome(old(View()), [], 0), old(givenBack)) && Valid() && !ret && !blank
    {
      blank := false;
      if !mIsVt {
        return false, false;
      }
      var clear := IsVtNeedClearFrameOrShowColorBuffer();
      if clear {
        return true, true;
      }
      var fd := GetBufferFd(-1);
      if fd < 0 && !mHasSolidHandle && !mTunnelIdUpdate {
        return true, true;
      }
      if fd < 0 && mHasSolidHandle {
        return true, false;
      }
      ret := false;
    }

    /** The interrupt as a composition runs it: colour, when asked for, is fetched, shown and freed. */
    method HandleInterrupt(preBufferDup: int)
      requires Valid()
      modifies this
      ensures Did(Interrupt(old(View()), preBufferDup), old(givenBack)) && Valid()
    {
      var ret, blank := InterruptVtProcess();
      if ret && !blank {
        var _ := GetSolidColorBuffer(preBufferDup);
        FreeSolidColorBuffer();
      }
    }

    method SetBuffer()
      requires Valid()
      modifies this
      ensures Did(Outcome(LayerSpec.SetBuffer(old(View())), [], 0), old(givenBack)) && Valid()
    {
      if mIsVt {
        mNeedReleaseVtResource := true;
      }
      ClearBufferInfo();
    }

    method ClearBufferInfo()
      requires Valid()
      modifies this`mPrevReleaseFence, this`mIsVt
      ensures Valid() && View() == ClearInfo(old(View()))
    {
      if !mIsVt {
        mPrevReleaseFence := mCurReleaseFence;
      }
      mIsVt := false;
    }

    method ClearUpdateFlag()
      requires Valid()
      modifies this
      ensures Did(LayerSpec.ClearUpdateFlag(old(View())), old(givenBack)) && Valid()
    {
      if mNeedReleaseVtResource {
        ReleaseVtResource(true, false);
      }
    }

    /** `setSidebandStream` for a tunnel channel; `ok` is the answer of `connectInstanceLocked`. */
    method SetSidebandStream(channel: int, ok: bool) returns (ret: int)
      requires Valid()
      modifies this`mQueueItems, this`mPreVtBuffer, this`mVtBuffer, this`mVtUpdate, this`mQueuedFrames, this`mTimestamp,
               this`givenBack, this`mHasConsumer, this`mTunnelId, this`mNeedReleaseVtResource, this`mTunnelIdUpdate,
               this`mIsVt, this`mPrevReleaseFence
      ensures HoldsAs(SetTunnel(old(View()), channel, ok), old(givenBack)) && Valid()
      ensures View().link == SetTunnel(old(View()), channel, ok).layer.link
      ensures View().fences == SetTunnel(old(View()), channel, ok).layer.fences
      ensures ret == SetTunnel(old(View()), channel, ok).ret
    {
      BecomeTunnelLayer();
      if channel < 0 {
        return BAD_PARAMETER;
      }
      ret := 0;
      if mTunnelId != channel {
        ret := SwitchTunnel(channel, ok);
      }
    }

    method BecomeTunnelLayer()
      requires Valid()
      modifies this`mPrevReleaseFence, this`mIsVt
      ensures Valid() && View() == BecomeTunnel(old(View()))
    {
      ClearBufferInfo();
      mIsVt := true;
    }

    /** The part of `setSidebandStream` that runs when the channel is new. */
    method SwitchTunnel(channel: int, ok: bool) returns (ret: int)
      requires Valid() && channel >= 0 && mIsVt
      modifies this`mQueueItems, this`mPreVtBuffer, this`mVtBuffer, this`mVtUpdate, this`mQueuedFrames, this`mTimestamp,
               this`givenBack, this`mHasConsumer, this`mTunnelId, this`mNeedReleaseVtResource, this`mTunnelIdUpdate
      ensures HoldsAs(LayerSpec.SwitchTunnel(old(View()), channel, ok), old(givenBack)) && Valid()
      ensures View().link == LayerSpec.SwitchTunnel(old(View()), channel, ok).layer.link
      ensures ret == LayerSpec.SwitchTunnel(old(View()), channel, ok).ret
    {
      SwitchTunnelKeepsWf(View(), channel, ok);
      if mTunnelId >= 0 {
        ReleaseVtResource(true, false);
      }
      ret := RegisterConsumer(channel, ok);
    }

    method RegisterConsumer(channel: int, ok: bool) returns (ret: int)
      modifies this`mHasConsumer, this`mTunnelId, this`mTunnelIdUpdate, this`mQueuedFrames, this`mQueueItems
      ensures mHasConsumer
      ensures if old(mHasConsumer) || ok
              then mTunnelId == channel && mTunnelIdUpdate && mQueuedFrames == 0 && mQueueItems == [] && ret == 0
              else mTunnelId == -1 && mTunnelIdUpdate == old(mTunnelIdUpdate) && mQueuedFrames == old(mQueuedFrames)
                   && mQueueItems == old(mQueueItems) && ret == BAD_PARAMETER
    {
      mTunnelId := channel;
      var registered := mHasConsumer || ok;
      mHasConsumer := true;
      if registered {
        mQueuedFrames := 0;
        mQueueItems := [];
        mTunnelIdUpdate := true;
      } else {
        mTunnelId := -1;
        return BAD_PARAMETER;
      }
      ret := 0;
    }
  }
}
