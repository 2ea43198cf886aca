/**
 * The vdin post-processor (postprocessor/VdinPostProcessor.cpp): its queues, its modes and
 * the pass of its thread, updated in place as the program does, and proved to do what
 * `VdinSpec` says. Drawing, fences and the vout queue are not part of it.
 */
module VdinCapture {
  import opened VideoTunnelTypes
  import opened VdinSpec

  class VdinPostProcessor {
    var mVdinQueue: seq<int>
    var mVdinBufOnScreen: int
    var driver: set<int>
    var mProcessMode: Mode
    var capCnt: int
    var preCmd: bv32
    var mCmdQ: seq<bv32>
    var mFbProcessor: Option<nat>
    var mReqFbProcessor: seq<Option<nat>>
    var started: bool

    function View(): Vdin
      reads this
    {
      Vdin(mVdinQueue, mVdinBufOnScreen, driver, mProcessMode, capCnt, preCmd, mCmdQ, mFbProcessor, mReqFbProcessor)
    }

    /** `capCnt` and `preCmd` are statics of `process` and get their values here. */
    constructor ()
      ensures View() == Vdin([], 0, {}, Once, 0, 0xFFFF_FFFF, [], None, []) && !started
    {
      mVdinQueue, mVdinBufOnScreen, driver, mProcessMode, started := [], 0, {}, Once, false;
      capCnt, preCmd := 0, 0xFFFF_FFFF;
      mCmdQ, mFbProcessor, mReqFbProcessor := [], None, [];
    }

    method Start()
      modifies this`mProcessMode, this`started
      ensures started && View() == if old(started) then old(View()) else Started(old(View()))
    {
      if started {
        return;
      }
      started, mProcessMode := true, Idle;
    }

    method Stop()
      modifies this`started, this`mCmdQ, this`mReqFbProcessor, this`mFbProcessor
      ensures !started
      ensures View() == if old(started) then Stopped(old(View())) else old(View())
    {
      if !started {
        return;
      }
      started := false;
      mCmdQ, mReqFbProcessor, mFbProcessor := [], [], None;
    }

    /** The driver is given every buffer before it starts. */
    method StartVdin()
      modifies this`mVdinBufOnScreen, this`driver
      ensures View() == VdinStarted(old(View()))
    {
      mVdinBufOnScreen := -1;
      for i := 0 to VDIN_BUF_CNT
        invariant driver == old(driver) + FirstBuffers(i) && mVdinBufOnScreen == -1
      {
        driver := driver + {i};
      }
    }

    method StopVdin()
      modifies this`mVdinQueue, this`mVdinBufOnScreen, this`driver
      ensures View() == VdinStopped(old(View()))
    {
      driver := {};
      while mVdinQueue != []
        invariant driver == {}
        decreases |mVdinQueue|
      {
        mVdinQueue := mVdinQueue[1..];
      }
      mVdinBufOnScreen := -1;
    }

    method SetFbProcessor(processor: Option<nat>)
      modifies this`mCmdQ, this`mFbProcessor, this`mReqFbProcessor
      ensures View() == if started then Ask(old(View()), processor) else AskStopped(old(View()), processor)
    {
      if started {
        mReqFbProcessor := mReqFbProcessor + [processor];
        mCmdQ := mCmdQ + [PRESENT_UPDATE_PROCESSOR];
      } else {
        mFbProcessor := processor;
        mReqFbProcessor := mReqFbProcessor + [None];
      }
    }

    method PresentFlags(flags: bv32)
      modifies this`mCmdQ
      ensures View() == if started then Present(old(View()), flags) else old(View())
    {
      if !started {
        return;
      }
      if |mCmdQ| == 0 || mCmdQ[|mCmdQ| - 1] != flags {
        mCmdQ := mCmdQ + [flags];
      }
    }

    /** `process`; `answer` is what the driver would hand out if it is asked. */
    method Process(answer: Option<int>)
      requires Paired(View()) && Answers(View(), answer)
      modifies this
      ensures View() == Pass(old(View()), answer) && started == old(started)
    {
      TakeCommand();
      if mProcessMode == Idle {
        return;
      }
      if mProcessMode == Always {
        capCnt := VDIN_CAP_CNT;
      }
      assert View() == Armed(old(View()));
      var deqVdinBufs := |mVdinQueue| + if mVdinBufOnScreen >= 0 then 1 else 0;
      if capCnt <= 0 && deqVdinBufs == VDIN_CAP_CNT {
        if mProcessMode == Once {
          mProcessMode := Idle;
        }
      } else {
        ReleaseToVdin();
        if answer.Some? {
          KeepBuffer(answer.value);
        }
      }
    }

    method TakeCommand()
      requires Paired(View())
      modifies this`mProcessMode, this`capCnt, this`preCmd, this`mCmdQ, this`mFbProcessor, this`mReqFbProcessor
      ensures View() == Obey(old(View()))
    {
      if |mCmdQ| > 0 {
        var cmd := mCmdQ[0];
        preCmd := cmd;
        mCmdQ := mCmdQ[1..];
        if cmd & PRESENT_SIDEBAND != 0 {
          mProcessMode := Always;
        } else if cmd & PRESENT_UPDATE_PROCESSOR != 0 {
          if mFbProcessor != mReqFbProcessor[0] {
            mFbProcessor := mReqFbProcessor[0];
          }
          mReqFbProcessor := mReqFbProcessor[1..];
        } else if cmd & PRESENT_CAPSCREEN != 0 {
          mProcessMode := Once;
          capCnt := VDIN_CAP_CNT;
        } else if cmd & PRESENT_BLANK != 0 || cmd == 0 {
          mProcessMode := Once;
          capCnt := VDIN_CAP_CNT;
        }
      } else if mProcessMode == Once && preCmd & PRESENT_CAPSCREEN != 0 {
        mProcessMode := Always;
        preCmd := 0xFFFF_FFFF;
      }
    }

    /** Buffers go back to the driver, oldest first, while captures are owed. */
    method ReleaseToVdin()
      modifies this`mVdinQueue, this`driver, this`capCnt
      ensures View() == Requeue(old(View()))
    {
      ghost var n := 0;
      ghost var queue := mVdinQueue;
      while capCnt > 0 && |mVdinQueue| > 0
        invariant 0 <= n <= Owed(old(View()))
        invariant mVdinQueue == queue[n..] && driver == old(driver) + Elements(queue[..n]) && capCnt == old(capCnt) - n
        decreases |mVdinQueue|
      {
        var vdinIdx := mVdinQueue[0];
        assert queue[..n + 1] == queue[..n] + [vdinIdx];
        driver := driver + {vdinIdx};
        mVdinQueue := mVdinQueue[1..];
        capCnt := capCnt - 1;
        n := n + 1;
      }
    }

    method KeepBuffer(vdinIdx: int)
      modifies this`mVdinQueue, this`mVdinBufOnScreen, this`driver
      ensures View() == Keep(old(View()), vdinIdx)
    {
      driver := driver - {vdinIdx};
      assert mVdinQueue + [] == mVdinQueue;
      if mFbProcessor != None {
        if mVdinBufOnScreen >= 0 {
          mVdinQueue := mVdinQueue + [mVdinBufOnScreen];
          mVdinBufOnScreen := -1;
        }
        mVdinQueue := mVdinQueue + [vdinIdx];
      } else {
        if mVdinBufOnScreen >= 0 {
          mVdinQueue := mVdinQueue + [mVdinBufOnScreen];
        }
        mVdinBufOnScreen := vdinIdx;
      }
    }
  }
}
