/**
 * A tunnel instance (common/videotunnel/VtInstance.cpp): it acquires buffers from the
 * driver, offers them to its consumers, counts references and returns each buffer with the
 * accumulated release fence.
 */
module TunnelInstance {
  import opened VideoTunnelTypes
  import opened DrmSync

  const EIO := 5

  /**
   * The state of one queued `VtBufferItem`; `reported` is every point consumers reported
   * for it, `lost` the points that failing system calls have dropped.
   */
  datatype Buffer = Buffer(frame: Frame, refs: int, fence: Fence, reported: set<nat>, lost: set<nat>)

  /** One `releaseBuffer` call to the driver, with the tunnel id it names. */
  datatype Return = Return(tunnel: int, frame: Frame, fence: Fence, reported: set<nat>, lost: set<nat>)

  datatype Displayed = Displayed(queue: seq<Buffer>, returned: seq<Return>, ret: int)

  /** The first item with this descriptor, or -1. */
  function FindFd(q: seq<Buffer>, fd: int): (r: int)
    ensures -1 <= r < |q|
    ensures r >= 0 ==> q[r].frame.fd == fd && forall j :: 0 <= j < r ==> q[j].frame.fd != fd
    ensures r == -1 ==> forall j :: 0 <= j < |q| ==> q[j].frame.fd != fd
  {
    if q == [] then -1
    else
      var r := FindFd(q[..|q| - 1], fd);
      if r >= 0 then r else if q[|q| - 1].frame.fd == fd then |q| - 1 else -1
  }

  /** An item after one more consumer has reported that it is done with it. */
  function Dropped(b: Buffer, report: Option<Fence>, signalled: set<nat>, luck: Luck): Buffer {
    Buffer(b.frame, b.refs - 1, Record(b.fence, report, signalled, luck), b.reported + ReportPoints(report),
           Lost(b.lost, b.fence, report, signalled, luck))
  }

  /** `releaseBufferLocked`: the driver gets a duplicate of the fence. */
  function ReturnOf(b: Buffer, tunnel: int, luck: Luck): Return {
    Return(tunnel, b.frame, Duplicated(b.fence, luck), b.reported,
           b.lost + Points(b.fence) - Points(Duplicated(b.fence, luck)))
  }

  /** The release of a buffer that is still queued at the end: with no fence. */
  function LastReturnOf(b: Buffer, tunnel: int): Return {
    Return(tunnel, b.frame, NoFence, b.reported, b.lost + Points(b.fence))
  }

  /** `onFrameDisplayed`: record the fence, drop a reference, return the buffer when it was the last. */
  function OnDisplayed(q: seq<Buffer>, tunnel: int, fd: int, report: Option<Fence>, signalled: set<nat>,
                       luck: Luck): Displayed
  {
    DisplayedAt(q, tunnel, FindFd(q, fd), report, signalled, luck)
  }

  function DisplayedAt(q: seq<Buffer>, tunnel: int, i: int, report: Option<Fence>, signalled: set<nat>,
                       luck: Luck): Displayed
    requires i < |q|
  {
    if i < 0 then Displayed(q, [], -1)
    else
      var b := Dropped(q[i], report, signalled, luck);
      if b.refs == 0 then Displayed(q[..i] + q[i + 1..], [ReturnOf(b, tunnel, luck)], 0)
      else Displayed(q[i := b], [], 0)
  }

  function RefHandle(refs: int): int {
    if refs == -1 then 1 else refs + 1
  }

  /** Consumers that keep what they are offered. */
  function Takers(consumers: seq<nat>, accepts: nat -> bool): seq<nat> {
    if consumers == [] then []
    else
      var last := consumers[|consumers| - 1];
      Takers(consumers[..|consumers| - 1], accepts) + if accepts(last) then [last] else []
  }

  /** The count of a buffer that was offered to every consumer once. */
  function OfferedRefs(consumers: seq<nat>, accepts: nat -> bool): int {
    if consumers == [] then -1 else |Takers(consumers, accepts)|
  }

  /** What a delivery returns: the last consumer's answer, a refusal reading as nothing to do. */
  function LastAnswer(consumers: seq<nat>, accepts: nat -> bool): int {
    if consumers != [] && accepts(consumers[|consumers| - 1]) then 0 else -EAGAIN
  }

  function NewBuffers(frames: seq<Frame>, refs: int): seq<Buffer> {
    seq(|frames|, i requires 0 <= i < |frames| => Buffer(frames[i], refs, NoFence, {}, {}))
  }

  class VtBufferItem {
    const mFrame: Frame
    var mRef: int
    var mReleaseFence: Fence
    ghost var reported: set<nat>
    ghost var lost: set<nat>

    constructor (frame: Frame)
      ensures mFrame == frame && View() == Buffer(frame, -1, NoFence, {}, {})
    {
      mFrame, mRef, mReleaseFence, reported, lost := frame, -1, NoFence, {}, {};
    }

    ghost function View(): Buffer
      reads this
    {
      Buffer(mFrame, mRef, mReleaseFence, reported, lost)
    }

    method Ref()
      modifies this`mRef
      ensures mRef == RefHandle(old(mRef))
    {
      if mRef == -1 {
        mRef := 1;
      } else {
        mRef := mRef + 1;
      }
    }

    /** Accumulate the fence a consumer reports. */
    method Report(report: Option<Fence>, signalled: set<nat>, luck: Luck)
      modifies this`mReleaseFence, this`reported, this`lost
      ensures mReleaseFence == Record(old(mReleaseFence), report, signalled, luck)
      ensures reported == old(reported) + ReportPoints(report)
      ensures lost == Lost(old(lost), old(mReleaseFence), report, signalled, luck)
    {
      reported := reported + ReportPoints(report);
      lost := Lost(lost, mReleaseFence, report, signalled, luck);
      if report.Some? {
        if mReleaseFence == NoFence || luck.reading == Invalid || Signals(mReleaseFence, signalled) {
          mReleaseFence := report.value;
        } else if luck.reading == Pending {
          mReleaseFence := Merge(mReleaseFence, report.value, luck.mergeOk);
        }
      }
    }

    method Unref() returns (last: bool)
      modifies this`mRef
      ensures mRef == old(mRef) - 1 && last == (mRef == 0)
    {
      mRef := mRef - 1;
      last := mRef == 0;
    }
  }

  ghost function Views(items: seq<VtBufferItem>): (q: seq<Buffer>)
    reads items
    ensures |q| == |items| && forall i :: 0 <= i < |q| ==> q[i] == items[i].View()
  {
    if items == [] then [] else Views(items[..|items| - 1]) + [items[|items| - 1].View()]
  }

  /** No item occurs twice. */
  ghost predicate Apart(items: seq<VtBufferItem>) {
    items == [] || (Apart(items[..|items| - 1]) && items[|items| - 1] !in items[..|items| - 1])
  }

  lemma {:induction false} ApartIff(items: seq<VtBufferItem>)
    ensures Apart(items) <==> Distinct(items)
  {
    if items != [] {
      ApartIff(items[..|items| - 1]);
    }
  }

  /** Items offered together always have the same count. */
  ghost predicate AllCount(items: seq<VtBufferItem>, refs: int)
    reads items
  {
    forall i :: 0 <= i < |items| ==> items[i].mRef == refs
  }

  class VtInstance {
    var mTunnelId: int
    var mConsumers: seq<nat>
    var mBufferQueue: seq<VtBufferItem>
    /** Every `releaseBuffer` call, oldest first. */
    ghost var returned: seq<Return>

    ghost predicate Valid()
      reads this
    {
      Apart(mBufferQueue)
    }

    ghost function Queue(): (q: seq<Buffer>)
      reads this, mBufferQueue
      ensures |q| == |mBufferQueue| && forall i :: 0 <= i < |q| ==> q[i] == mBufferQueue[i].View()
    {
      Views(mBufferQueue)
    }

    constructor (tunnelId: int)
      ensures Valid() && mTunnelId == tunnelId && mConsumers == [] && Queue() == [] && returned == []
    {
      mTunnelId, mConsumers, mBufferQueue, returned := tunnelId, [], [], [];
    }

    /** Which item `onFrameDisplayed` works on: the first one with this descriptor. */
    method FindItem(bufferFd: int) returns (i: int)
      ensures i == FindFd(Queue(), bufferFd)
    {
      i := 0;
      while i < |mBufferQueue|
        invariant 0 <= i <= |mBufferQueue|
        invariant FindFd(Queue()[..i], bufferFd) == -1
      {
        if mBufferQueue[i].mFrame.fd == bufferFd {
          FindFdIs(Queue(), bufferFd, i);
          return i;
        }
        i := i + 1;
        assert Queue()[..i][..i - 1] == Queue()[..i - 1];
      }
      assert Queue()[..i] == Queue();
      i := -1;
    }

    /**
     * `report` is None for a descriptor below -1; `signalled` is what has signalled when
     * the fence's status is read; `luck` is what the system calls come to.
     */
    method OnFrameDisplayed(bufferFd: int, report: Option<Fence>, signalled: set<nat>, luck: Luck) returns (ret: int)
      requires Valid()
      modifies this`mBufferQueue, this`returned, mBufferQueue
      ensures Valid()
      ensures var d := OnDisplayed(old(Queue()), mTunnelId, bufferFd, report, signalled, luck);
              ret == d.ret && Queue() == d.queue && returned == old(returned) + d.returned
    {
      ghost var q := Queue();
      var i := FindItem(bufferFd);
      assert OnDisplayed(q, mTunnelId, bufferFd, report, signalled, luck)
          == DisplayedAt(q, mTunnelId, i, report, signalled, luck);
      if i < 0 {
        assert returned == returned + [];
        return -1;
      }
      TakeReport(i, report, signalled, luck);
      ret := 0;
    }

    /** The item at i drops a reference, and goes back to the driver when that was the last. */
    method TakeReport(i: nat, report: Option<Fence>, signalled: set<nat>, luck: Luck)
      requires Valid() && i < |mBufferQueue|
      modifies this`mBufferQueue, this`returned, mBufferQueue[i]
      ensures Valid()
      ensures var d := DisplayedAt(old(Queue()), mTunnelId, i, report, signalled, luck);
              Queue() == d.queue && returned == old(returned) + d.returned && d.ret == 0
    {
      ghost var q := Queue();
      var last := DropItem(i, report, signalled, luck);
      CutAfterUpdate(q, i, Dropped(q[i], report, signalled, luck));
      if last {
        ReturnItem(i, luck);
      }
    }

    method DropItem(i: nat, report: Option<Fence>, signalled: set<nat>, luck: Luck) returns (last: bool)
      requires Valid() && i < |mBufferQueue|
      modifies mBufferQueue[i]
      ensures Queue() == old(Queue())[i := Dropped(old(Queue())[i], report, signalled, luck)]
      ensures last == (Queue()[i].refs == 0)
    {
      var item := mBufferQueue[i];
      ApartIff(mBufferQueue);
      assert forall j :: 0 <= j < |mBufferQueue| && j != i ==> mBufferQueue[j] != item;
      item.Report(report, signalled, luck);
      last := item.Unref();
    }

    /** `releaseBufferLocked` on an item that is taken out of the queue. */
    method ReturnItem(i: nat, luck: Luck)
      requires Valid() && i < |mBufferQueue|
      modifies this`mBufferQueue, this`returned
      ensures Valid() && Queue() == old(Queue())[..i] + old(Queue())[i + 1..]
      ensures returned == old(returned) + [ReturnOf(old(Queue())[i], mTunnelId, luck)]
    {
      var item := mBufferQueue[i];
      var fenceFd := if luck.dupOk then item.mReleaseFence else NoFence;
      returned := returned + [Return(mTunnelId, item.mFrame, fenceFd, item.reported,
                                     item.lost + Points(item.mReleaseFence) - Points(fenceFd))];
      ApartIff(mBufferQueue);
      mBufferQueue := mBufferQueue[..i] + mBufferQueue[i + 1..];
      ApartIff(mBufferQueue);
    }

    /**
     * One call of `acquireBuffer`. The driver hands out `frames` and then has no more, or
     * fails; `accepts` is what each consumer's `onFrameAvailable` answers.
     */
    method AcquireBuffer(frames: seq<Frame>, driverFails: bool, accepts: nat -> bool) returns (ret: int)
      requires Valid()
      modifies this`mBufferQueue, this`mConsumers
      ensures Valid()
      ensures driverFails ==> ret == -EIO && mConsumers == old(mConsumers)
                              && Queue() == old(Queue()) + NewBuffers(frames, -1)
      ensures !driverFails && frames == [] ==>
              ret == -EAGAIN && mConsumers == old(mConsumers) && Queue() == old(Queue())
      ensures !driverFails && frames != [] ==>
                && mConsumers == Takers(old(mConsumers), accepts)
                && Queue() == old(Queue()) + NewBuffers(frames, OfferedRefs(old(mConsumers), accepts))
                && ret == LastAnswer(old(mConsumers), accepts)
    {
      var items := TakeFromDriver(frames);
      if driverFails {
        return -EIO;
      }
      ret := -EAGAIN;
      if |items| > 0 {
        ret := OfferToConsumers(items, accepts);
      }
      assert NewBuffers([], -1) == [];
    }

    /** The locked loop of `acquireBuffer`. */
    method TakeFromDriver(frames: seq<Frame>) returns (items: seq<VtBufferItem>)
      requires Valid()
      modifies this`mBufferQueue
      ensures Valid() && mBufferQueue == old(mBufferQueue) + items && |items| == |frames| && Apart(items)
      ensures forall i :: 0 <= i < |items| ==>
              fresh(items[i]) && items[i].View() == Buffer(frames[i], -1, NoFence, {}, {})
      ensures Queue() == old(Queue()) + NewBuffers(frames, -1)
    {
      ApartIff(mBufferQueue);
      items := [];
      var i := 0;
      while i < |frames|
        invariant 0 <= i <= |frames| && |items| == i
        invariant Distinct(mBufferQueue) && mBufferQueue == old(mBufferQueue) + items && Distinct(items)
        invariant forall k :: 0 <= k < i ==>
                    fresh(items[k]) && items[k].View() == Buffer(frames[k], -1, NoFence, {}, {})
        invariant forall k :: 0 <= k < |old(mBufferQueue)| ==> old(allocated(mBufferQueue[k]))
      {
        var item := new VtBufferItem(frames[i]);
        items := items + [item];
        mBufferQueue := mBufferQueue + [item];
        i := i + 1;
      }
      ApartIff(items);
      ApartIff(mBufferQueue);
    }

    /** The loop of `acquireBuffer` over the consumers, without the instance lock. */
    method OfferToConsumers(items: seq<VtBufferItem>, accepts: nat -> bool) returns (ret: int)
      requires Apart(items) && items != [] && AllCount(items, -1)
      modifies this`mConsumers, items`mRef
      ensures mConsumers == Takers(old(mConsumers), accepts) && AllCount(items, OfferedRefs(old(mConsumers), accepts))
      ensures ret == LastAnswer(old(mConsumers), accepts)
    {
      ret := -EAGAIN;
      var k := 0;
      ghost var n := 0;
      ghost var all := mConsumers;
      while k < |mConsumers|
        invariant Partway(all, n, accepts, mConsumers, k) && AllCount(items, OfferedRefs(all[..n], accepts))
        invariant ret == LastAnswer(all[..n], accepts)
        decreases |all| - n
      {
        PartwayMore(all, n, accepts, mConsumers, k);
        ret := CountAnswer(items, accepts(mConsumers[k]), OfferedRefs(all[..n], accepts));
        if ret == -EINVAL {
          mConsumers := mConsumers[..k] + mConsumers[k + 1..];
          ret := -EAGAIN;
        } else {
          k := k + 1;
        }
        n := n + 1;
      }
      assert all[..n] == all && mConsumers == Takers(all, accepts) + [];
    }

    /** Count the offer up on every item, and down again when the consumer refuses it. */
    method CountAnswer(items: seq<VtBufferItem>, accepted: bool, ghost refs: int) returns (ret: int)
      requires Apart(items) && AllCount(items, refs)
      modifies items`mRef
      ensures ret == if accepted then 0 else -EINVAL
      ensures AllCount(items, RefHandle(refs) - if accepted then 0 else 1)
    {
      RefAll(items, refs);
      ret := if accepted then 0 else -EINVAL;
      if ret < 0 && ret != -EAGAIN {
        UnrefAll(items, RefHandle(refs));
      }
    }

    method RefAll(items: seq<VtBufferItem>, ghost refs: int)
      requires Apart(items) && AllCount(items, refs)
      modifies items`mRef
      ensures AllCount(items, RefHandle(refs))
    {
      ApartIff(items);
      var i := 0;
      while i < |items|
        invariant 0 <= i <= |items|
        invariant forall j :: 0 <= j < |items| ==> items[j].mRef == if j < i then RefHandle(refs) else refs
      {
        items[i].Ref();
        i := i + 1;
      }
    }

    /** The answers of `unrefHandle` are ignored here: a count of zero returns nothing. */
    method UnrefAll(items: seq<VtBufferItem>, ghost refs: int)
      requires Apart(items) && AllCount(items, refs)
      modifies items`mRef
      ensures AllCount(items, refs - 1)
    {
      ApartIff(items);
      var i := 0;
      while i < |items|
        invariant 0 <= i <= |items|
        invariant forall j :: 0 <= j < |items| ==> items[j].mRef == if j < i then refs - 1 else refs
      {
        var _ := items[i].Unref();
        i := i + 1;
      }
    }

    /** `releaseInstanceBuffers`: whatever is still queued goes back, with no fence. */
    method ReleaseInstanceBuffers()
      requires Valid()
      modifies this`mBufferQueue, this`returned
      ensures Valid() && Queue() == []
      ensures returned == old(returned) + LastReturns(old(Queue()), mTunnelId)
    {
      ghost var q := Queue();
      var i := 0;
      while i < |mBufferQueue|
        invariant mBufferQueue == old(mBufferQueue) && 0 <= i <= |mBufferQueue| && Queue() == q
        invariant returned == old(returned) + LastReturns(q[..i], mTunnelId)
      {
        var item := mBufferQueue[i];
        returned := returned + [Return(mTunnelId, item.mFrame, NoFence, item.reported,
                                       item.lost + Points(item.mReleaseFence))];
        LastReturnsMore(q, i, mTunnelId);
        i := i + 1;
      }
      assert q[..i] == q;
      mBufferQueue := [];
    }

    method Disconnect()
      modifies this`mTunnelId
      ensures mTunnelId == -1
    {
      mTunnelId := -1;
    }

    /** The destructor. */
    method Destroy()
      requires Valid()
      modifies this`mTunnelId, this`mConsumers, this`mBufferQueue, this`returned
      ensures Valid() && mTunnelId == -1 && mConsumers == [] && Queue() == []
      ensures returned == old(returned) + LastReturns(old(Queue()), old(mTunnelId))
    {
      mConsumers := [];
      ReleaseInstanceBuffers();
      Disconnect();
    }

    /**
     * What the manager does to an instance without consumers (`clearUpInstancesLocked`): it
     * is disconnected first, and the release calls of the destructor then name tunnel -1.
     */
    method CleanUp() returns (removed: bool)
      requires Valid()
      modifies this`mTunnelId, this`mConsumers, this`mBufferQueue, this`returned
      ensures Valid() && removed == (old(mConsumers) == [])
      ensures removed ==> Queue() == [] && returned == old(returned) + LastReturns(old(Queue()), -1)
      ensures !removed ==> Queue() == old(Queue()) && returned == old(returned) && mTunnelId == old(mTunnelId)
    {
      removed := mConsumers == [];
      if removed {
        Disconnect();
        Destroy();
      }
    }
  }

  function LastReturns(q: seq<Buffer>, tunnel: int): seq<Return> {
    seq(|q|, i requires 0 <= i < |q| => LastReturnOf(q[i], tunnel))
  }

  lemma LastReturnsMore(q: seq<Buffer>, i: nat, tunnel: int)
    requires i < |q|
    ensures LastReturns(q[..i + 1], tunnel) == LastReturns(q[..i], tunnel) + [LastReturnOf(q[i], tunnel)]
  {
  }

  lemma CutAfterUpdate(q: seq<Buffer>, i: nat, b: Buffer)
    requires i < |q|
    ensures q[i := b][..i] + q[i := b][i + 1..] == q[..i] + q[i + 1..]
  {
  }

  /** The first n consumers have answered; those that took the offer are still listed, and k counts them. */
  ghost predicate Partway(all: seq<nat>, n: nat, accepts: nat -> bool, consumers: seq<nat>, k: nat) {
    n <= |all| && k == |Takers(all[..n], accepts)| && consumers == Takers(all[..n], accepts) + all[n..]
  }

  lemma PartwayMore(all: seq<nat>, n: nat, accepts: nat -> bool, consumers: seq<nat>, k: nat)
    requires Partway(all, n, accepts, consumers, k) && k < |consumers|
    ensures n < |all| && consumers[k] == all[n]
    ensures if accepts(all[n]) then Partway(all, n + 1, accepts, consumers, k + 1)
            else Partway(all, n + 1, accepts, consumers[..k] + consumers[k + 1..], k)
    ensures OfferedRefs(all[..n + 1], accepts)
            == RefHandle(OfferedRefs(all[..n], accepts)) - if accepts(all[n]) then 0 else 1
  {
    assert all[..n + 1][..n] == all[..n];
    assert all[n..] == [all[n]] + all[n + 1..];
  }

  lemma FindFdIs(q: seq<Buffer>, fd: int, i: nat)
    requires i < |q| && q[i].frame.fd == fd && FindFd(q[..i], fd) == -1
    ensures FindFd(q, fd) == i
  {
  }
}
