/**
 * The AI colour processor (postprocessor/nnprocess/AiColorProcessor.cpp): its slot array,
 * queue of indices and counters, updated in place, each step proved to be the one of
 * `AiColorRing` between which the threads interleave.
 */
module AiColor {
  import opened AiColorRing

  class AiColorProcessor {
    const mAiColorIndex: array<int>
    var mBuf_fd_q: seq<int>
    var mCacheIndex: int
    var mDupCount: int
    var mCloseCount: int

    function View(): Ring
      reads this, mAiColorIndex
    {
      Ring(mBuf_fd_q, mAiColorIndex[..], mCacheIndex, mDupCount, mCloseCount)
    }

    predicate Valid()
      reads this, mAiColorIndex
    {
      SlotsOk(View())
    }

    constructor ()
      ensures Valid() && View() == Fresh(View().slots).ring && fresh(mAiColorIndex)
    {
      mAiColorIndex := new int[MAX_CACHE](i => 0);
      mBuf_fd_q, mCacheIndex, mDupCount, mCloseCount := [], 0, 0, 0;
    }

    method CountDup()
      modifies this`mDupCount
      ensures View() == DoDup(old(View()))
    {
      mDupCount := mDupCount + 1;
    }

    method WriteSlot(dupFd: int)
      requires Valid()
      modifies mAiColorIndex
      ensures Valid() && View() == DoWrite(old(View()), dupFd)
    {
      mAiColorIndex[mCacheIndex] := dupFd;
    }

    method QueueSlot()
      requires Valid()
      modifies this`mBuf_fd_q
      ensures Valid() && View() == DoPush(old(View()))
    {
      mBuf_fd_q := mBuf_fd_q + [mCacheIndex];
    }

    method AdvanceSlot()
      requires Valid()
      modifies this`mCacheIndex
      ensures Valid() && View() == DoAdvance(old(View()))
    {
      mCacheIndex := mCacheIndex + 1;
      if mCacheIndex == MAX_CACHE {
        mCacheIndex := 0;
      }
    }

    /** `asyncProcess` from the duplication to the wake-up; `dupFd` is what `dup` gave, -1 if it failed. */
    method AsyncProcess(dupFd: int)
      requires Valid()
      modifies this`mDupCount, this`mBuf_fd_q, this`mCacheIndex, mAiColorIndex
      ensures Valid() && View() == DoAdvance(DoPush(DoWrite(DoDup(old(View())), dupFd)))
    {
      CountDup();
      WriteSlot(dupFd);
      QueueSlot();
      AdvanceSlot();
    }

    /** `threadProcess`: `closed` is the descriptor it closes, if there was anything to do. */
    method ThreadProcess() returns (some: bool, closed: int)
      requires Valid()
      modifies this`mBuf_fd_q, this`mCloseCount
      ensures Valid() && some == (old(mBuf_fd_q) != [])
      ensures some ==> closed == Live(old(View()))[0] && View() == DoClose(DoPop(old(View())))
      ensures !some ==> View() == old(View())
    {
      some, closed := |mBuf_fd_q| != 0, -1;
      if !some {
        return;
      }
      var cacheIndex := mBuf_fd_q[0];
      closed := mAiColorIndex[cacheIndex];
      mBuf_fd_q := mBuf_fd_q[1..];
      mCloseCount := mCloseCount + 1;
    }

    /** The drain loop of `teardown`; `ok(n)` says whether the driver takes the buffer when n are left. */
    method Teardown(ok: nat -> bool) returns (ret: int)
      requires Valid()
      modifies this`mBuf_fd_q, this`mCloseCount
      ensures Valid() && View() == Drain(old(View()), ok)
      ensures ret == 0 <==> mBuf_fd_q == []
    {
      while |mBuf_fd_q| > 0
        invariant Valid() && Drain(View(), ok) == Drain(old(View()), ok)
        decreases |mBuf_fd_q|
      {
        DrainStep(View(), ok);
        if !ok(|mBuf_fd_q|) {
          return -1;
        }
        CloseFirst();
      }
      DrainNothing(View(), ok);
      ret := 0;
    }

    method CloseFirst()
      requires Valid() && mBuf_fd_q != []
      modifies this`mBuf_fd_q, this`mCloseCount
      ensures Valid() && View() == DropFirst(old(View()))
    {
      var cacheIndex := mBuf_fd_q[0];
      var sharedFd := mAiColorIndex[cacheIndex];
      if sharedFd != -1 {
        mCloseCount := mCloseCount + 1;
      }
      mBuf_fd_q := mBuf_fd_q[1..];
    }
  }

  /** One buffer less: its descriptor is closed and counted unless duplication had failed. */
  function DropFirst(r: Ring): Ring
    requires SlotsOk(r) && r.queue != []
  {
    r.(queue := r.queue[1..], closeCount := r.closeCount + if r.slots[r.queue[0]] == -1 then 0 else 1)
  }

  lemma {:induction false} FailedFront(fd: int, fds: seq<int>)
    ensures Failed([fd] + fds) == Failed(fds) + if fd == -1 then 1 else 0
  {
    var all := [fd] + fds;
    if fds == [] {
      assert all[..|all| - 1] == [];
    } else {
      FailedFront(fd, fds[..|fds| - 1]);
      assert all[..|all| - 1] == [fd] + fds[..|fds| - 1];
    }
  }

  /** Draining is dropping buffers one by one until the driver refuses. */
  lemma DrainStep(r: Ring, ok: nat -> bool)
    requires SlotsOk(r) && r.queue != []
    ensures SlotsOk(DropFirst(r))
    ensures Drain(r, ok) == if ok(|r.queue|) then Drain(DropFirst(r), ok) else r
  {
    hide Failed;
    var r1 := DropFirst(r);
    if ok(|r.queue|) {
      var k := DrainCount(|r1.queue|, ok);
      assert DrainCount(|r.queue|, ok) == k + 1;
      assert Live(r)[..k + 1] == [r.slots[r.queue[0]]] + Live(r1)[..k];
      FailedFront(r.slots[r.queue[0]], Live(r1)[..k]);
      assert r.queue[k + 1..] == r1.queue[k..];
    } else {
      assert Live(r)[..0] == [] && r.queue[0..] == r.queue;
    }
  }

  lemma DrainNothing(r: Ring, ok: nat -> bool)
    requires SlotsOk(r) && r.queue == []
    ensures Drain(r, ok) == r
  {
  }
}
