/**
 * The video processors manager
 * (composition/videoprocessorsmanager/VideoProcessorsManager.cpp): it keeps one bounded
 * pool of processors per kind, assigns them to layers, and runs them while handing fence
 * descriptors around.
 */
module ProcessorsManager {
  import opened VideoTunnelTypes
  import opened DrmSync
  import opened ProcessorPools
  import opened FenceFds
  import opened FenceCalls

  /** The switches read at each set-up; the AI switches share one debug override. */
  datatype Switches = Switches(sr: bool, pq: bool, color: bool, di: bool)

  class VideoProcessorsManager {
    const srLimit: nat
    const pqLimit: nat
    const colorLimit: nat
    const diLimit: nat

    var mVideoFbs: seq<nat>
    var mSrProcessors: seq<Processor>
    var mPqProcessors: seq<Processor>
    var mColorProcessors: seq<Processor>
    var mDiProcessors: seq<Processor>
    var mFbProcessorsPairs: map<nat, seq<Processor>>
    var mResetFlagPairs: map<nat, bool>
    var created: nat                 // numbers the processor objects
    /** Every `teardown` call made while pools are adjusted, oldest first. */
    ghost var tornDown: seq<Processor>

    ghost predicate Valid()
      reads this
    {
      && PoolOk(mSrProcessors, AiSr, srLimit) && PoolOk(mPqProcessors, AiPq, pqLimit)
      && PoolOk(mColorProcessors, AiColor, colorLimit) && PoolOk(mDiProcessors, Di, diLimit)
    }

    constructor (srLimit: nat, pqLimit: nat, colorLimit: nat, diLimit: nat)
      ensures Valid() && mSrProcessors == mPqProcessors == mColorProcessors == mDiProcessors == []
      ensures this.srLimit == srLimit && this.pqLimit == pqLimit && this.colorLimit == colorLimit
              && this.diLimit == diLimit
    {
      this.srLimit, this.pqLimit, this.colorLimit, this.diLimit := srLimit, pqLimit, colorLimit, diLimit;
      mVideoFbs, mFbProcessorsPairs, mResetFlagPairs := [], map[], map[];
      mSrProcessors, mPqProcessors, mColorProcessors, mDiProcessors := [], [], [], [];
      created, tornDown := 0, [];
    }

    method DestroyUnusedProcessor(processors: seq<Processor>) returns (kept: seq<Processor>)
      modifies this`tornDown
      ensures kept == Kept(processors, mVideoFbs) && tornDown == old(tornDown) + Dropped(processors, mVideoFbs)
    {
      hide Kept, Dropped;
      KeptNone(processors, mVideoFbs);
      kept := processors;
      var prIt := 0;
      ghost var n := 0;
      while prIt < |kept|
        invariant 0 <= n <= |processors| && prIt == |Kept(processors[..n], mVideoFbs)|
        invariant kept == Kept(processors[..n], mVideoFbs) + processors[n..]
        invariant tornDown == old(tornDown) + Dropped(processors[..n], mVideoFbs)
        decreases |kept| - prIt
      {
        KeptStep(processors, n, mVideoFbs);
        EraseMiddle(Kept(processors[..n], mVideoFbs), processors, n);
        if kept[prIt].layerId in mVideoFbs {
          prIt := prIt + 1;
        } else {
          tornDown := tornDown + [kept[prIt]];
          kept := kept[..prIt] + kept[prIt + 1..];
        }
        n := n + 1;
      }
      assert processors[..n] == processors;
    }

    method Prepare(fbs: seq<nat>)
      requires Valid()
      modifies this
      ensures Valid() && mVideoFbs == fbs && mFbProcessorsPairs == map[]
      ensures mDiProcessors == Kept(old(mDiProcessors), fbs) && mSrProcessors == Kept(old(mSrProcessors), fbs)
      ensures mPqProcessors == Kept(old(mPqProcessors), fbs) && mColorProcessors == Kept(old(mColorProcessors), fbs)
      ensures tornDown == old(tornDown) + Dropped(old(mDiProcessors), fbs) + Dropped(old(mSrProcessors), fbs)
                          + Dropped(old(mPqProcessors), fbs) + Dropped(old(mColorProcessors), fbs)
      ensures mResetFlagPairs.Keys == Elements(fbs)
      ensures forall id :: id in fbs ==>
                mResetFlagPairs[id] == if id in old(mResetFlagPairs) then old(mResetFlagPairs)[id] else true
    {
      mVideoFbs := fbs;
      mFbProcessorsPairs := map[];
      DestroyAllUnused();
      RefreshResetFlags(fbs);
    }

    method DestroyAllUnused()
      requires Valid()
      modifies this`mDiProcessors, this`mSrProcessors, this`mPqProcessors, this`mColorProcessors, this`tornDown
      ensures Valid()
      ensures mDiProcessors == Kept(old(mDiProcessors), mVideoFbs)
              && mSrProcessors == Kept(old(mSrProcessors), mVideoFbs)
      ensures mPqProcessors == Kept(old(mPqProcessors), mVideoFbs)
              && mColorProcessors == Kept(old(mColorProcessors), mVideoFbs)
      ensures tornDown == old(tornDown) + Dropped(old(mDiProcessors), mVideoFbs)
              + Dropped(old(mSrProcessors), mVideoFbs)
                          + Dropped(old(mPqProcessors), mVideoFbs) + Dropped(old(mColorProcessors), mVideoFbs)
    {
      KeptPoolOk(mDiProcessors, Di, diLimit, mVideoFbs);
      KeptPoolOk(mSrProcessors, AiSr, srLimit, mVideoFbs);
      KeptPoolOk(mPqProcessors, AiPq, pqLimit, mVideoFbs);
      KeptPoolOk(mColorProcessors, AiColor, colorLimit, mVideoFbs);
      mDiProcessors := DestroyUnusedProcessor(mDiProcessors);
      mSrProcessors := DestroyUnusedProcessor(mSrProcessors);
      mPqProcessors := DestroyUnusedProcessor(mPqProcessors);
      mColorProcessors := DestroyUnusedProcessor(mColorProcessors);
    }

    /** Drop the reset flags of layers that are gone, raise those of new layers. */
    method RefreshResetFlags(fbs: seq<nat>)
      modifies this`mResetFlagPairs
      ensures mResetFlagPairs.Keys == Elements(fbs)
      ensures forall id :: id in fbs ==>
                mResetFlagPairs[id] == if id in old(mResetFlagPairs) then old(mResetFlagPairs)[id] else true
    {
      mResetFlagPairs := map id | id in mResetFlagPairs && id in fbs :: mResetFlagPairs[id];
      var i := 0;
      while i < |fbs|
        invariant 0 <= i <= |fbs|
        invariant forall id :: id in mResetFlagPairs <==> (id in fbs[..i] || (id in old(mResetFlagPairs) && id in fbs))
        invariant forall id :: id in mResetFlagPairs ==>
                    mResetFlagPairs[id] == if id in old(mResetFlagPairs) then old(mResetFlagPairs)[id] else true
      {
        if fbs[i] !in mResetFlagPairs {
          mResetFlagPairs := mResetFlagPairs[fbs[i] := true];
        }
        i := i + 1;
      }
      assert fbs[..i] == fbs;
      assert mResetFlagPairs.Keys == Elements(fbs);
    }

    /** The layers in `mVideoFbs` that no processor of the pool serves. */
    method UnservedLayers(pool: seq<Processor>) returns (layerIds: seq<nat>)
      ensures layerIds == Missing(pool, mVideoFbs)
    {
      layerIds := [];
      var i := 0;
      while i < |mVideoFbs|
        invariant 0 <= i <= |mVideoFbs| && layerIds == Missing(pool, mVideoFbs[..i])
      {
        var bFlag := false;
        var k := 0;
        while k < |pool| && !bFlag
          invariant 0 <= k <= |pool|
          invariant bFlag == exists n :: 0 <= n < k && pool[n].layerId == mVideoFbs[i]
        {
          bFlag := pool[k].layerId == mVideoFbs[i];
          k := k + 1;
        }
        if !bFlag {
          layerIds := layerIds + [mVideoFbs[i]];
        }
        i := i + 1;
        assert mVideoFbs[..i][..i - 1] == mVideoFbs[..i - 1];
        assert bFlag == Serves(pool, mVideoFbs[i - 1]);
      }
      assert mVideoFbs[..i] == mVideoFbs;
    }

    /**
     * The body the four set-up functions share. Both of its error branches are dead: the
     * pool never lacks a layer to serve, and is never larger than asked for.
     */
    method FillPool(pool: seq<Processor>, kind: Kind, supportChannelNum: nat) returns (processors: seq<Processor>)
      requires PoolOk(pool, kind, supportChannelNum) && OnlyFor(pool, mVideoFbs) && Distinct(mVideoFbs)
      modifies this`created
      ensures processors == Filled(pool, kind, supportChannelNum, mVideoFbs, old(created))
      ensures created == old(created) + (|processors| - |pool|)
    {
      MissingCount(pool, mVideoFbs);
      NeverTooMany(pool, kind, supportChannelNum, mVideoFbs);
      var layerIds := UnservedLayers(pool);
      processors := FillFrom(pool, kind, supportChannelNum, layerIds);
    }

    method FillFrom(pool: seq<Processor>, kind: Kind, supportChannelNum: nat, layerIds: seq<nat>)
      returns (processors: seq<Processor>)
      requires layerIds == Missing(pool, mVideoFbs) && |layerIds| == |mVideoFbs| - |pool|
      requires |pool| <= Min(|mVideoFbs|, supportChannelNum)
      modifies this`created
      ensures processors == Filled(pool, kind, supportChannelNum, mVideoFbs, old(created))
      ensures created == old(created) + (|processors| - |pool|)
    {
      var needMaxNum := if |mVideoFbs| > supportChannelNum then supportChannelNum else |mVideoFbs|;
      processors := pool;
      if |processors| < needMaxNum {
        var num := needMaxNum - |processors|;
        if num > |layerIds| {
          assert false; // "setup ... processor failed"
        }
        var more := CreateProcessors(kind, layerIds, num);
        processors := processors + more;
      } else if |processors| > needMaxNum {
        assert false; // "that should be impossible"
      }
    }

    /** The creation loop: one processor for each of the first `num` layers. */
    method CreateProcessors(kind: Kind, layerIds: seq<nat>, num: nat) returns (more: seq<Processor>)
      requires num <= |layerIds|
      modifies this`created
      ensures more == Created(kind, old(created), layerIds[..num]) && created == old(created) + num
    {
      more := [];
      var rest := layerIds;
      var i := 0;
      while i < num
        invariant 0 <= i <= num && rest == layerIds[i..] && created == old(created) + i
        invariant |more| == i && forall k :: 0 <= k < i ==> more[k] == Processor(kind, old(created) + k, layerIds[k])
      {
        more := more + [Processor(kind, created, rest[0])];
        created := created + 1;
        rest := rest[1..];
        i := i + 1;
      }
    }

    method SetUpAiSrProcessor(switches: Switches)
      requires Valid() && OnlyFor(mSrProcessors, mVideoFbs) && Distinct(mVideoFbs)
      modifies this`mSrProcessors, this`created, this`tornDown
      ensures Valid() && OnlyFor(mSrProcessors, mVideoFbs)
      ensures |mVideoFbs| != 1 ==> mSrProcessors == []
      ensures |mVideoFbs| == 1 ==>
                mSrProcessors == if switches.sr then Filled(old(mSrProcessors), AiSr, srLimit, mVideoFbs, old(created))
                                 else old(mSrProcessors)
      ensures tornDown == old(tornDown)
    {
      if |mVideoFbs| != 1 {
        TearDownSrProcessors();
        return;
      }
      if switches.sr {
        FilledFacts(mSrProcessors, AiSr, srLimit, mVideoFbs, created);
        mSrProcessors := FillPool(mSrProcessors, AiSr, srLimit);
      }
    }

    method SetUpAiPqProcessor(switches: Switches)
      requires Valid() && OnlyFor(mPqProcessors, mVideoFbs) && Distinct(mVideoFbs)
      modifies this`mPqProcessors, this`created, this`tornDown
      ensures Valid() && OnlyFor(mPqProcessors, mVideoFbs)
      ensures |mVideoFbs| != 1 ==> mPqProcessors == [] && tornDown == old(tornDown) + old(mPqProcessors)
      ensures |mVideoFbs| == 1 ==>
                && mPqProcessors == (if switches.pq
                                    then Filled(old(mPqProcessors), AiPq, pqLimit, mVideoFbs, old(created))
                                    else old(mPqProcessors))
                && tornDown == old(tornDown)
    {
      if |mVideoFbs| != 1 {
        TearDown(mPqProcessors);
        mPqProcessors := [];
        return;
      }
      if switches.pq {
        FilledFacts(mPqProcessors, AiPq, pqLimit, mVideoFbs, created);
        mPqProcessors := FillPool(mPqProcessors, AiPq, pqLimit);
      }
    }

    method SetUpAiColorProcessor(switches: Switches)
      requires Valid() && OnlyFor(mColorProcessors, mVideoFbs) && Distinct(mVideoFbs)
      modifies this`mColorProcessors, this`created, this`tornDown
      ensures Valid() && OnlyFor(mColorProcessors, mVideoFbs)
      ensures |mVideoFbs| != 1 ==> mColorProcessors == [] && tornDown == old(tornDown) + old(mColorProcessors)
      ensures |mVideoFbs| == 1 ==>
                && mColorProcessors == (if switches.color
                                    then Filled(old(mColorProcessors), AiColor, colorLimit, mVideoFbs, old(created))
                                    else old(mColorProcessors))
                && tornDown == old(tornDown)
    {
      if |mVideoFbs| != 1 {
        TearDown(mColorProcessors);
        mColorProcessors := [];
        return;
      }
      if switches.color {
        FilledFacts(mColorProcessors, AiColor, colorLimit, mVideoFbs, created);
        mColorProcessors := FillPool(mColorProcessors, AiColor, colorLimit);
      }
    }

    method SetUpDiProcessor(switches: Switches)
      requires Valid() && OnlyFor(mDiProcessors, mVideoFbs) && Distinct(mVideoFbs)
      modifies this`mDiProcessors, this`created
      ensures Valid() && OnlyFor(mDiProcessors, mVideoFbs)
      ensures mDiProcessors == if switches.di then Filled(old(mDiProcessors), Di, diLimit, mVideoFbs, old(created))
                               else old(mDiProcessors)
    {
      if switches.di {
        FilledFacts(mDiProcessors, Di, diLimit, mVideoFbs, created);
        mDiProcessors := FillPool(mDiProcessors, Di, diLimit);
      }
    }

    /** The loop here compares with `begin()`: it empties the pool without a single `teardown`. */
    method TearDownSrProcessors()
      modifies this`mSrProcessors
      ensures mSrProcessors == []
    {
      mSrProcessors := [];
    }

    /** The loop of the other three tear-downs. */
    method TearDown(processors: seq<Processor>)
      modifies this`tornDown
      ensures tornDown == old(tornDown) + processors
    {
      var i := 0;
      while i < |processors|
        invariant 0 <= i <= |processors| && tornDown == old(tornDown) + processors[..i]
      {
        tornDown := tornDown + [processors[i]];
        i := i + 1;
      }
      assert processors[..i] == processors;
    }

    /** The first processor of a pool that serves the layer, if any. */
    method FirstFor(processors: seq<Processor>, layerId: nat) returns (first: seq<Processor>)
      ensures first == [] ==> !Serves(processors, layerId)
      ensures first != [] ==> |first| == 1 && first[0] in processors && first[0].layerId == layerId
    {
      var i := 0;
      while i < |processors|
        invariant 0 <= i <= |processors| && forall k :: 0 <= k < i ==> processors[k].layerId != layerId
      {
        if processors[i].layerId == layerId {
          return [processors[i]];
        }
        i := i + 1;
      }
      first := [];
    }

    /** A layer's processors, in the order they run: PQ, colour, de-interlacer, super-resolution. */
    ghost predicate ListFor(list: seq<Processor>, id: nat)
      reads this
    {
      InOrder(list, id, mPqProcessors, mColorProcessors, mDiProcessors, mSrProcessors)
    }

    method SetProcessors(layerId: nat)
      requires Valid()
      modifies this`mFbProcessorsPairs
      ensures layerId in old(mFbProcessorsPairs) ==> mFbProcessorsPairs == old(mFbProcessorsPairs)
      ensures layerId !in old(mFbProcessorsPairs) ==>
                && mFbProcessorsPairs.Keys == old(mFbProcessorsPairs).Keys + {layerId}
                && ListFor(mFbProcessorsPairs[layerId], layerId)
                && forall id :: id in old(mFbProcessorsPairs) ==> mFbProcessorsPairs[id] == old(mFbProcessorsPairs)[id]
    {
      var vProcessors := ProcessorsFor(layerId);
      if layerId !in mFbProcessorsPairs {
        mFbProcessorsPairs := mFbProcessorsPairs[layerId := vProcessors];
      }
    }

    method ProcessorsFor(layerId: nat) returns (vProcessors: seq<Processor>)
      requires Valid()
      ensures ListFor(vProcessors, layerId)
    {
      var pq := FirstFor(mPqProcessors, layerId);
      var color := FirstFor(mColorProcessors, layerId);
      var di := FirstFor(mDiProcessors, layerId);
      var sr := FirstFor(mSrProcessors, layerId);
      vProcessors := pq + color + di + sr;
      OnlyOneServes(mPqProcessors, layerId, pq, AiPq, pqLimit);
      OnlyOneServes(mColorProcessors, layerId, color, AiColor, colorLimit);
      OnlyOneServes(mDiProcessors, layerId, di, Di, diLimit);
      OnlyOneServes(mSrProcessors, layerId, sr, AiSr, srLimit);
      Assembled(layerId, mPqProcessors, mColorProcessors, mDiProcessors, mSrProcessors, pq, color, di, sr);
    }

    /**
     * After a set-up for distinct layers the de-interlacer pool, when switched on, has the
     * smaller of the channel limit and the number of layers, each AI pool one processor for
     * a single layer (if it has a channel) and none otherwise, and every processor serves a
     * different current layer.
     */
    method Setup(fbs: seq<nat>, switches: Switches)
      requires Valid() && Distinct(fbs)
      modifies this
      ensures Valid() && mVideoFbs == fbs
      ensures OnlyFor(mDiProcessors, fbs) && OnlyFor(mSrProcessors, fbs) && OnlyFor(mPqProcessors, fbs)
              && OnlyFor(mColorProcessors, fbs)
      ensures switches.di ==> |mDiProcessors| == Min(|fbs|, diLimit)
      ensures !switches.di ==> mDiProcessors == Kept(old(mDiProcessors), fbs)
      ensures |fbs| != 1 ==> mSrProcessors == mPqProcessors == mColorProcessors == []
      ensures |fbs| == 1 && switches.sr ==> |mSrProcessors| == Min(1, srLimit)
      ensures |fbs| == 1 && switches.pq ==> |mPqProcessors| == Min(1, pqLimit)
      ensures |fbs| == 1 && switches.color ==> |mColorProcessors| == Min(1, colorLimit)
      ensures mFbProcessorsPairs.Keys == Elements(fbs) && mResetFlagPairs.Keys == Elements(fbs)
      ensures forall id :: id in fbs ==> ListFor(mFbProcessorsPairs[id], id)
    {
      Prepare(fbs);
      KeptOnlyFor(old(mDiProcessors), fbs);
      KeptOnlyFor(old(mSrProcessors), fbs);
      KeptOnlyFor(old(mPqProcessors), fbs);
      KeptOnlyFor(old(mColorProcessors), fbs);
      SetUpAllProcessors(switches);
      AssignAll();
    }

    method SetUpAllProcessors(switches: Switches)
      requires Valid() && Distinct(mVideoFbs)
      requires OnlyFor(mDiProcessors, mVideoFbs) && OnlyFor(mSrProcessors, mVideoFbs)
      requires OnlyFor(mPqProcessors, mVideoFbs) && OnlyFor(mColorProcessors, mVideoFbs)
      modifies this`mSrProcessors, this`mPqProcessors, this`mColorProcessors, this`mDiProcessors, this`created,
               this`tornDown
      ensures Valid()
      ensures OnlyFor(mDiProcessors, mVideoFbs) && OnlyFor(mSrProcessors, mVideoFbs)
      ensures OnlyFor(mPqProcessors, mVideoFbs) && OnlyFor(mColorProcessors, mVideoFbs)
      ensures if switches.di then |mDiProcessors| == Min(|mVideoFbs|, diLimit) else mDiProcessors == old(mDiProcessors)
      ensures |mVideoFbs| != 1 ==> mSrProcessors == mPqProcessors == mColorProcessors == []
      ensures |mVideoFbs| == 1 && switches.sr ==> |mSrProcessors| == Min(1, srLimit)
      ensures |mVideoFbs| == 1 && switches.pq ==> |mPqProcessors| == Min(1, pqLimit)
      ensures |mVideoFbs| == 1 && switches.color ==> |mColorProcessors| == Min(1, colorLimit)
    {
      FilledFacts(mSrProcessors, AiSr, srLimit, mVideoFbs, created);
      SetUpAiSrProcessor(switches);
      FilledFacts(mPqProcessors, AiPq, pqLimit, mVideoFbs, created);
      SetUpAiPqProcessor(switches);
      FilledFacts(mColorProcessors, AiColor, colorLimit, mVideoFbs, created);
      SetUpAiColorProcessor(switches);
      FilledFacts(mDiProcessors, Di, diLimit, mVideoFbs, created);
      SetUpDiProcessor(switches);
    }

    /** The loop of `setup` over the layers. */
    method AssignAll()
      requires Valid() && Distinct(mVideoFbs) && mFbProcessorsPairs == map[]
      modifies this`mFbProcessorsPairs
      ensures mFbProcessorsPairs.Keys == Elements(mVideoFbs)
      ensures forall id :: id in mVideoFbs ==> ListFor(mFbProcessorsPairs[id], id)
    {
      var i := 0;
      while i < |mVideoFbs|
        invariant 0 <= i <= |mVideoFbs| && mFbProcessorsPairs.Keys == Elements(mVideoFbs[..i])
        invariant forall id :: id in mVideoFbs[..i] ==> ListFor(mFbProcessorsPairs[id], id)
      {
        assert mVideoFbs[i] !in mVideoFbs[..i];
        SetProcessors(mVideoFbs[i]);
        i := i + 1;
        assert Elements(mVideoFbs[..i]) == Elements(mVideoFbs[..i - 1]) + {mVideoFbs[i - 1]};
      }
      assert mVideoFbs[..i] == mVideoFbs;
    }

    // ---- running the processors ----

    function ListOf(fb: nat): seq<Processor>
      reads this
    {
      if fb in mFbProcessorsPairs then mFbProcessorsPairs[fb] else []
    }

    method ClearResetFlag(fb: nat)
      modifies this`mResetFlagPairs
      ensures mResetFlagPairs == old(mResetFlagPairs)[fb := false]
    {
      mResetFlagPairs := mResetFlagPairs[fb := false];
    }

    /**
     * The inner loop of both `runProcessors`: each processor's fence replaces the one
     * before it, which is closed; the frame buffers get duplicates.
     */
    method RunChain(list: seq<Processor>, table: FdTable, luck: nat -> Processing) returns (processFence: int)
      requires table.Valid()
      modifies table
      ensures table.Valid() && table.Locals() == old(table.Locals()) + Just(processFence)
      ensures Extends(old(table.fds), table.fds) && processFence !in old(table.fds)
      ensures FenceOf(table.fds, processFence) == LastFence(list, luck)
      ensures table.calls == old(table.calls) + Setters(list, luck)
      ensures processFence >= -1 && (list == [] ==> processFence == -1)
    {
      processFence := -1;
      var i := 0;
      while i < |list|
        invariant 0 <= i <= |list| && table.Valid()
        invariant table.Locals() == old(table.Locals()) + Just(processFence)
        invariant Extends(old(table.fds), table.fds) && processFence !in old(table.fds)
        invariant FenceOf(table.fds, processFence) == LastFence(list[..i], luck)
        invariant table.calls == old(table.calls) + Setters(list[..i], luck)
        invariant processFence >= -1 && (i == 0 ==> processFence == -1)
      {
        processFence := RunOne(list[i], table, processFence, luck(i));
        i := i + 1;
        assert list[..i][..i - 1] == list[..i - 1];
      }
      assert list[..i] == list;
    }

    /** One pass of that loop; `previous` is the fence of the processor before. */
    method RunOne(p: Processor, table: FdTable, previous: int, luck: Processing) returns (processFence: int)
      requires table.Valid() && (previous >= 0 ==> previous in table.Locals())
      modifies table
      ensures table.Valid() && table.Locals() == old(table.Locals()) - Just(previous) + Just(processFence)
      ensures KeepsBut(old(table.fds), table.fds, Just(previous))
      ensures processFence !in old(table.fds) && processFence >= -1
      ensures forall fd :: fd in old(table.fds) ==> fd in table.fds
      ensures FenceOf(table.fds, processFence) == luck.fence
      ensures table.calls == old(table.calls) + SettersOf(p, luck)
    {
      if previous >= 0 {
        table.Close(previous);
      }
      processFence := table.Obtain(luck.fence); // asyncProcess
      HandCopy(table, processFence, luck.dupForFb, ProcessFence(p.serial));
      if p.kind == Di {
        HandCopy(table, processFence, luck.dupForDi, DiFence(p.serial));
      }
    }

    /** Give a callee a duplicate of the descriptor, or -1. */
    method HandCopy(table: FdTable, fd: int, works: bool, ghost callee: Callee)
      requires table.Valid() && (fd >= 0 ==> fd in table.Locals())
      modifies table
      ensures table.Valid() && table.Locals() == old(table.Locals()) && Extends(old(table.fds), table.fds)
      ensures table.calls == old(table.calls) + [Call(callee, Copy(FenceOf(old(table.fds), fd), works))]
    {
      var copy := table.DupIfAny(fd, works);
      table.Give(copy, callee);
    }

    /** Every processor that ran is told, with its own duplicate of the release fence. */
    method TellDisplayed(list: seq<Processor>, table: FdTable, releaseFence: int, dupWorks: nat -> bool)
      requires table.Valid() && (releaseFence >= 0 ==> releaseFence in table.Locals())
      modifies table
      ensures table.Valid() && table.Locals() == old(table.Locals()) && Extends(old(table.fds), table.fds)
      ensures table.calls == old(table.calls) + Displays(list, FenceOf(old(table.fds), releaseFence), dupWorks)
    {
      ghost var release := FenceOf(table.fds, releaseFence);
      var i := 0;
      while i < |list|
        invariant 0 <= i <= |list| && table.Valid()
        invariant table.Locals() == old(table.Locals()) && Extends(old(table.fds), table.fds)
        invariant FenceOf(table.fds, releaseFence) == release
        invariant table.calls == old(table.calls) + Displays(list[..i], release, dupWorks)
      {
        HandCopy(table, releaseFence, dupWorks(i), Displayed(list[i].serial));
        i := i + 1;
        assert list[..i][..i - 1] == list[..i - 1];
      }
      assert list[..i] == list;
    }

    /**
     * `runProcessors` for one frame buffer; `release` is the fence of the plane. Whatever
     * fences the processors and the plane produce, and whichever `dup` fails, every
     * descriptor obtained on the way is closed or belongs to somebody else when it returns,
     * and no other one has changed hands. Each processor's output gets that processor's
     * fence, every processor is told of the plane's, and the layer is left with both.
     */
    method RunProcessors(fb: nat, updated: bool, table: FdTable, luck: nat -> Processing,
                         release: Fence, dupWorks: nat -> bool, lastDup: bool, mergeWorks: bool)
      returns (hasProcessor: bool)
      requires table.Valid()
      modifies this`mResetFlagPairs, table
      ensures table.Valid() && table.Locals() == old(table.Locals()) && Extends(old(table.fds), table.fds)
      ensures hasProcessor == (updated && ListOf(fb) != [])
      ensures mResetFlagPairs == if updated && fb in mFbProcessorsPairs then old(mResetFlagPairs)[fb := false]
                                 else old(mResetFlagPairs)
      ensures table.calls == old(table.calls) +
                if hasProcessor
                then Setters(ListOf(fb), luck) + Displays(ListOf(fb), release, dupWorks)
                     + [LayerCall(fb, release, Copy(LastFence(ListOf(fb), luck), lastDup), mergeWorks)]
                else []
    {
      hasProcessor := false;
      if !updated || fb !in mFbProcessorsPairs {
        return;
      }
      ClearResetFlag(fb);
      var list := mFbProcessorsPairs[fb];
      var processFence := RunChain(list, table, luck);
      hasProcessor := list != [];
      if hasProcessor {
        FinishOne(fb, list, table, processFence, release, dupWorks, lastDup, mergeWorks);
      }
    }

    /** What follows `setPlane`. */
    method FinishOne(fb: nat, list: seq<Processor>, table: FdTable, processFence: int,
                     release: Fence, dupWorks: nat -> bool, lastDup: bool, mergeWorks: bool)
      requires table.Valid() && (processFence >= 0 ==> processFence in table.Locals())
      modifies table
      ensures table.Valid() && table.Locals() == old(table.Locals()) - Just(processFence)
      ensures KeepsBut(old(table.fds), table.fds, Just(processFence))
      ensures table.calls == old(table.calls) +
                (Displays(list, release, dupWorks)
                 + [LayerCall(fb, release, Copy(FenceOf(old(table.fds), processFence), lastDup), mergeWorks)])
    {
      hide Displays, LayerCall;
      var releaseFence := table.Obtain(release); // getCurReleaseFence
      ghost var known := table.fds;
      TellDisplayed(list, table, releaseFence, dupWorks);
      assert FenceOf(table.fds, releaseFence) == release;
      assert FenceOf(table.fds, processFence) == FenceOf(known, processFence) == FenceOf(old(table.fds), processFence);
      LeaveFences(fb, table, releaseFence, processFence, lastDup, mergeWorks);
    }

    /** The layer takes the release fence and a copy of the last process fence, which is then closed. */
    method LeaveFences(fb: nat, table: FdTable, releaseFence: int, processFence: int, lastDup: bool, mergeWorks: bool)
      requires table.Valid() && (releaseFence >= 0 ==> releaseFence != processFence)
      requires processFence >= 0 ==> processFence in table.Locals()
      requires releaseFence >= 0 ==> releaseFence in table.Locals()
      modifies table
      ensures table.Valid() && table.Locals() == old(table.Locals()) - Just(releaseFence) - Just(processFence)
      ensures KeepsBut(old(table.fds), table.fds, Just(releaseFence) + Just(processFence))
      ensures table.calls == old(table.calls) +
                [LayerCall(fb, FenceOf(old(table.fds), releaseFence),
                           Copy(FenceOf(old(table.fds), processFence), lastDup), mergeWorks)]
    {
      var fd := table.DupIfAny(processFence, lastDup);
      table.OnLayerDisplayed(fb, releaseFence, fd, mergeWorks);
      if processFence >= 0 {
        table.Close(processFence);
      }
    }

    /**
     * `runProcessors` for the frame buffers of one video composer; `release` is its fence.
     * The fences of all the buffers are kept open until the composer has been given its
     * frames; on return nothing is left over, for any number of buffers and processors, and
     * everybody has been told of the fences that concern them.
     */
    method RunAllProcessors(fbs: seq<nat>, table: FdTable, luck: nat -> nat -> Processing, pairDup: nat -> bool,
                            release: Fence, dupWorks: nat -> nat -> bool, lastDup: nat -> bool,
                            mergeWorks: nat -> bool)
      returns (ret: bool)
      requires table.Valid()
      modifies this`mResetFlagPairs, table
      ensures table.Valid() && table.Locals() == old(table.Locals()) && Extends(old(table.fds), table.fds)
      ensures ret == (mFbProcessorsPairs != map[])
      ensures FlagsCleared(old(mResetFlagPairs), mResetFlagPairs, if ret then fbs else [])
      ensures table.calls == old(table.calls) +
                if ret
                then AllSetters(mFbProcessorsPairs, fbs, luck)
                     + AllDisplays(mFbProcessorsPairs, fbs, release, Asides(mFbProcessorsPairs, fbs, luck, pairDup),
                                   dupWorks, lastDup, mergeWorks)
                else []
    {
      hide AllSetters, AllDisplays, Asides, Separate, FlagsCleared, Contents;
      NoFlags(mResetFlagPairs);
      if mFbProcessorsPairs == map[] {
        return false;
      }
      var fences := RunChains(fbs, table, luck, pairDup);
      SendFrames(fbs, fences, table, release, dupWorks, lastDup, mergeWorks);
      ret := true;
    }

    /** From `setFrames` on: the fences set aside go to the layers. */
    method SendFrames(fbs: seq<nat>, fences: seq<int>, table: FdTable, release: Fence,
                      dupWorks: nat -> nat -> bool, lastDup: nat -> bool, mergeWorks: nat -> bool)
      requires table.Valid() && |fences| == |fbs| && Separate(fences) && SetAside(fences) <= table.Locals()
      modifies table
      ensures table.Valid() && table.Locals() == old(table.Locals()) - SetAside(fences)
      ensures KeepsBut(old(table.fds), table.fds, SetAside(fences))
      ensures table.calls == old(table.calls) +
                AllDisplays(mFbProcessorsPairs, fbs, release, Contents(old(table.fds), fences), dupWorks, lastDup,
                            mergeWorks)
    {
      hide AllDisplays, Separate, Contents;
      var releaseFence := table.Obtain(release); // setFrames
      ContentsKept(old(table.fds), table.fds, fences);
      Report(fbs, fences, table, releaseFence, dupWorks, lastDup, mergeWorks);
      if releaseFence >= 0 {
        table.Close(releaseFence);
      }
    }

    /** The first loop: run each buffer's processors and set a duplicate of its last fence aside. */
    method RunChains(fbs: seq<nat>, table: FdTable, luck: nat -> nat -> Processing, pairDup: nat -> bool)
      returns (fences: seq<int>)
      requires table.Valid()
      modifies this`mResetFlagPairs, table
      ensures table.Valid() && |fences| == |fbs| && Separate(fences)
      ensures table.Locals() == old(table.Locals()) + SetAside(fences) && Extends(old(table.fds), table.fds)
      ensures SetAside(fences) !! old(table.fds).Keys
      ensures Contents(table.fds, fences) == Asides(mFbProcessorsPairs, fbs, luck, pairDup)
      ensures FlagsCleared(old(mResetFlagPairs), mResetFlagPairs, fbs)
      ensures table.calls == old(table.calls) + AllSetters(mFbProcessorsPairs, fbs, luck)
    {
      fences := [];
      assert SetAside(fences) == {};
      var i := 0;
      while i < |fbs|
        invariant 0 <= i <= |fbs| && |fences| == i && table.Valid() && Gathered(old(table.fds), table.fds, fences)
        invariant Contents(table.fds, fences) == Asides(mFbProcessorsPairs, fbs[..i], luck, pairDup)
        invariant FlagsCleared(old(mResetFlagPairs), mResetFlagPairs, fbs[..i])
        invariant table.calls == old(table.calls) + AllSetters(mFbProcessorsPairs, fbs[..i], luck)
      {
        ghost var known := table.fds;
        FlagsMore(old(mResetFlagPairs), mResetFlagPairs, fbs, i);
        var fd := RunBuffer(fbs[i], table, luck(i), pairDup(i));
        GatheredMore(old(table.fds), known, table.fds, fences, fd);
        ContentsMore(known, table.fds, fences, fd);
        AsidesMore(mFbProcessorsPairs, fbs, luck, pairDup, i);
        SettersMore(old(table.calls), mFbProcessorsPairs, fbs, luck, i);
        fences := fences + [fd];
        i := i + 1;
      }
      assert fbs[..i] == fbs;
    }

    /** The body of the first loop; the result is the fence set aside in `fbPairs`. */
    method RunBuffer(fb: nat, table: FdTable, luck: nat -> Processing, pairDup: bool) returns (fd: int)
      requires table.Valid()
      modifies this`mResetFlagPairs, table
      ensures table.Valid() && table.Locals() == old(table.Locals()) + Just(fd)
      ensures Extends(old(table.fds), table.fds) && fd !in old(table.fds) && fd >= -1
      ensures FenceOf(table.fds, fd) == Copy(LastFence(Lookup(mFbProcessorsPairs, fb), luck), pairDup)
      ensures mResetFlagPairs == old(mResetFlagPairs)[fb := false]
      ensures table.calls == old(table.calls) + Setters(Lookup(mFbProcessorsPairs, fb), luck)
    {
      ClearResetFlag(fb);
      var processFence := RunChain(ListOf(fb), table, luck);
      fd := table.DupIfAny(processFence, pairDup);
      if processFence >= 0 {
        table.Close(processFence);
      }
    }

    /** The body of the second loop. `hasDiProcessor` is never set, so the layer always takes its fence. */
    method ReportBuffer(fb: nat, fenceFd: int, table: FdTable, releaseFence: int,
                        dupWorks: nat -> bool, lastDup: bool, mergeWorks: bool)
      requires table.Valid()
      requires fenceFd >= 0 ==> fenceFd in table.Locals() && fenceFd != releaseFence
      requires releaseFence >= 0 ==> releaseFence in table.Locals()
      modifies table
      ensures table.Valid() && table.Locals() == old(table.Locals()) - Just(fenceFd)
      ensures KeepsBut(old(table.fds), table.fds, Just(fenceFd))
      ensures table.calls == old(table.calls) +
                BufferDisplays(Lookup(mFbProcessorsPairs, fb), fb, FenceOf(old(table.fds), releaseFence),
                               FenceOf(old(table.fds), fenceFd), dupWorks, lastDup, mergeWorks)
    {
      TellDisplayed(ListOf(fb), table, releaseFence, dupWorks);
      var fd := table.DupIfAny(releaseFence, lastDup);
      table.OnLayerDisplayed(fb, fd, fenceFd, mergeWorks);
    }

    /** One turn of the second loop; `fds` and `calls` are the table's at its start, `locals` what was open. */
    method ReportNext(fbs: seq<nat>, fences: seq<int>, i: nat, table: FdTable, releaseFence: int,
                      dupWorks: nat -> nat -> bool, lastDup: nat -> bool, mergeWorks: nat -> bool,
                      ghost fds: Fds, ghost locals: set<int>, ghost calls: seq<Call>)
      requires table.Valid() && |fences| == |fbs| && Separate(fences) && i < |fbs|
      requires SetAside(fences) <= locals && releaseFence !in SetAside(fences) && locals <= fds.Keys
      requires releaseFence >= 0 ==> releaseFence in locals
      requires forall fd :: fd in fds ==> fd >= 0
      requires table.Locals() == locals - SetAside(fences[..i]) && KeepsBut(fds, table.fds, SetAside(fences[..i]))
      requires table.calls == calls + AllDisplays(mFbProcessorsPairs, fbs[..i], FenceOf(fds, releaseFence),
                                                  Contents(fds, fences), dupWorks, lastDup, mergeWorks)
      modifies table
      ensures table.Valid() && table.Locals() == locals - SetAside(fences[..i + 1])
      ensures KeepsBut(fds, table.fds, SetAside(fences[..i + 1]))
      ensures table.calls == calls + AllDisplays(mFbProcessorsPairs, fbs[..i + 1], FenceOf(fds, releaseFence),
                                                 Contents(fds, fences), dupWorks, lastDup, mergeWorks)
    {
      hide BufferDisplays, Separate;
      SetAsideSplit(fences, i);
      ghost var before := table.fds;
      StillStandsFor(fds, before, SetAside(fences[..i]), releaseFence);
      StillStandsFor(fds, before, SetAside(fences[..i]), fences[i]);
      ReportBuffer(fbs[i], fences[i], table, releaseFence, dupWorks(i), lastDup(i), mergeWorks(i));
      KeepsOn(fds, before, table.fds, SetAside(fences[..i]), Just(fences[i]));
      assert fbs[..i + 1][..i] == fbs[..i];
    }

    /** The second loop: everybody hears of the release fence, and the fences set aside are passed on. */
    method Report(fbs: seq<nat>, fences: seq<int>, table: FdTable, releaseFence: int,
                  dupWorks: nat -> nat -> bool, lastDup: nat -> bool, mergeWorks: nat -> bool)
      requires table.Valid() && |fences| == |fbs| && Separate(fences)
      requires SetAside(fences) <= table.Locals() && releaseFence !in SetAside(fences)
      requires releaseFence >= 0 ==> releaseFence in table.Locals()
      modifies table
      ensures table.Valid() && table.Locals() == old(table.Locals()) - SetAside(fences)
      ensures KeepsBut(old(table.fds), table.fds, SetAside(fences))
      ensures table.calls == old(table.calls) +
                AllDisplays(mFbProcessorsPairs, fbs, FenceOf(old(table.fds), releaseFence),
                            Contents(old(table.fds), fences), dupWorks, lastDup, mergeWorks)
    {
      hide AllDisplays, Contents, Separate, FenceOf;
      ghost var fds, locals, calls := table.fds, table.Locals(), table.calls;
      NothingTold(mFbProcessorsPairs, fbs, FenceOf(fds, releaseFence), Contents(fds, fences), dupWorks, lastDup,
                  mergeWorks);
      var i := 0;
      while i < |fbs|
        invariant 0 <= i <= |fbs| && table.Valid()
        invariant table.Locals() == locals - SetAside(fences[..i])
        invariant KeepsBut(fds, table.fds, SetAside(fences[..i]))
        invariant table.calls == calls + AllDisplays(mFbProcessorsPairs, fbs[..i], FenceOf(fds, releaseFence),
                                                     Contents(fds, fences), dupWorks, lastDup, mergeWorks)
      {
        ReportNext(fbs, fences, i, table, releaseFence, dupWorks, lastDup, mergeWorks, fds, locals, calls);
        i := i + 1;
      }
      assert fbs[..i] == fbs && fences[..i] == fences;
    }
  }

  /** The layers in `ids` no longer ask for a reset, and nothing else has changed. */
  ghost predicate FlagsCleared(before: map<nat, bool>, after: map<nat, bool>, ids: seq<nat>) {
    && (forall id :: id in after <==> id in before || id in ids)
    && forall id :: id in after ==> after[id] == if id in ids then false else before[id]
  }

  lemma NoFlags(flags: map<nat, bool>)
    ensures FlagsCleared(flags, flags, [])
  {
  }

  lemma FlagsMore(before: map<nat, bool>, now: map<nat, bool>, ids: seq<nat>, i: nat)
    requires i < |ids| && FlagsCleared(before, now, ids[..i])
    ensures FlagsCleared(before, now[ids[i] := false], ids[..i + 1])
  {
    assert ids[..i + 1] == ids[..i] + [ids[i]];
  }

  // ---- the fences set aside ----

  function SetAside(fences: seq<int>): set<int> {
    set fd | fd in fences && fd >= 0
  }

  /** No descriptor is set aside twice. */
  ghost predicate Separate(fences: seq<int>) {
    forall i, j :: 0 <= i < j < |fences| && fences[i] >= 0 ==> fences[i] != fences[j]
  }

  /** No descriptor changed hands except those in `gone`. */
  ghost predicate KeepsBut(before: Fds, after: Fds, gone: set<int>) {
    forall fd :: fd in before && fd !in gone ==> fd in after && after[fd] == before[fd]
  }

  lemma KeepsOn(a: Fds, b: Fds, c: Fds, first: set<int>, second: set<int>)
    requires KeepsBut(a, b, first) && KeepsBut(b, c, second)
    ensures KeepsBut(a, c, first + second)
  {
  }

  /** Since `start`, exactly the descriptors in `fences` were obtained and are still ours. */
  ghost predicate Gathered(start: Fds, now: Fds, fences: seq<int>) {
    && LocalFds(now) == LocalFds(start) + SetAside(fences)
    && Extends(start, now) && SetAside(fences) !! start.Keys && Separate(fences)
  }

  lemma GatheredMore(start: Fds, known: Fds, now: Fds, fences: seq<int>,
                     fd: int)
    requires Gathered(start, known, fences)
    requires LocalFds(now) == LocalFds(known) + Just(fd) && Extends(known, now) && fd !in known
    ensures Gathered(start, now, fences + [fd])
  {
  }

  lemma SettersMore(calls: seq<Call>, pairs: map<nat, seq<Processor>>, fbs: seq<nat>, luck: nat -> nat -> Processing,
                    i: nat)
    requires i < |fbs|
    ensures (calls + AllSetters(pairs, fbs[..i], luck)) + Setters(Lookup(pairs, fbs[i]), luck(i))
            == calls + AllSetters(pairs, fbs[..i + 1], luck)
  {
    assert fbs[..i + 1][..i] == fbs[..i];
  }

  lemma NothingTold(pairs: map<nat, seq<Processor>>, fbs: seq<nat>, release: Fence, asides: seq<Fence>,
                    dupWorks: nat -> nat -> bool, lastDup: nat -> bool, mergeWorks: nat -> bool)
    ensures AllDisplays(pairs, fbs[..0], release, asides, dupWorks, lastDup, mergeWorks) == []
  {
  }

  // ---- what the fences set aside stand for ----

  function Contents(fds: Fds, fences: seq<int>): (r: seq<Fence>)
    ensures |r| == |fences|
  {
    seq(|fences|, i requires 0 <= i < |fences| => FenceOf(fds, fences[i]))
  }

  lemma ContentsKept(before: Fds, after: Fds, fences: seq<int>)
    requires Extends(before, after) && SetAside(fences) <= before.Keys
    requires forall fd :: fd in after ==> fd >= 0
    ensures Contents(after, fences) == Contents(before, fences)
  {
    forall i | 0 <= i < |fences| ensures FenceOf(after, fences[i]) == FenceOf(before, fences[i]) {
      if fences[i] >= 0 { assert fences[i] in SetAside(fences); }
    }
  }

  lemma ContentsMore(before: Fds, after: Fds, fences: seq<int>, fd: int)
    requires Extends(before, after) && SetAside(fences) <= before.Keys
    requires forall fd :: fd in after ==> fd >= 0
    ensures Contents(after, fences + [fd]) == Contents(before, fences) + [FenceOf(after, fd)]
  {
    ContentsKept(before, after, fences);
  }

  lemma AsidesMore(pairs: map<nat, seq<Processor>>, fbs: seq<nat>, luck: nat -> nat -> Processing, pairDup: nat -> bool,
                   i: nat)
    requires i < |fbs|
    ensures Asides(pairs, fbs[..i + 1], luck, pairDup)
         == Asides(pairs, fbs[..i], luck, pairDup) + [Copy(LastFence(Lookup(pairs, fbs[i]), luck(i)), pairDup(i))]
  {
  }

  /** A descriptor that is still there stands for the same fence. */
  lemma StillStandsFor(before: Fds, after: Fds, gone: set<int>, fd: int)
    requires KeepsBut(before, after, gone) && fd !in gone && (fd in after ==> fd in before)
    ensures FenceOf(after, fd) == FenceOf(before, fd)
  {
  }

  lemma SetAsideSplit(fences: seq<int>, i: nat)
    requires i < |fences| && Separate(fences)
    ensures SetAside(fences[..i + 1]) == SetAside(fences[..i]) + Just(fences[i])
    ensures fences[i] >= 0 ==> fences[i] !in SetAside(fences[..i]) && fences[i] in SetAside(fences)
    ensures SetAside(fences[..i]) <= SetAside(fences)
  {
  }

  predicate RunsBefore(a: Kind, b: Kind) {
    match a
    case AiPq => b != AiPq
    case AiColor => b == Di || b == AiSr
    case Di => b == AiSr
    case AiSr => false
  }

  lemma KeptStep(pool: seq<Processor>, n: nat, ids: seq<nat>)
    requires n < |pool|
    ensures Kept(pool[..n + 1], ids) == Kept(pool[..n], ids) + if pool[n].layerId in ids then [pool[n]] else []
    ensures Dropped(pool[..n + 1], ids) == Dropped(pool[..n], ids) + if pool[n].layerId in ids then [] else [pool[n]]
  {
    assert pool[..n + 1][..n] == pool[..n];
  }

  lemma KeptNone(pool: seq<Processor>, ids: seq<nat>)
    ensures Kept(pool[..0], ids) == [] && Dropped(pool[..0], ids) == []
  {
  }

  lemma EraseMiddle(front: seq<Processor>, pool: seq<Processor>, n: nat)
    requires n < |pool|
    ensures var whole := front + pool[n..];
            && whole[|front|] == pool[n]
            && whole == (front + [pool[n]]) + pool[n + 1..]
            && whole[..|front|] + whole[|front| + 1..] == front + pool[n + 1..]
            && front + [] == front
  {
  }

  lemma KeptPoolOk(pool: seq<Processor>, kind: Kind, limit: nat, ids: seq<nat>)
    requires PoolOk(pool, kind, limit)
    ensures PoolOk(Kept(pool, ids), kind, limit)
  {
    KeptFacts(pool, ids);
    KeptDistinct(pool, ids);
    assert forall i :: 0 <= i < |Kept(pool, ids)| ==> Kept(pool, ids)[i] in pool;
  }

  lemma KeptOnlyFor(pool: seq<Processor>, ids: seq<nat>)
    ensures OnlyFor(Kept(pool, ids), ids)
  {
  }

  ghost predicate InOrder(list: seq<Processor>, id: nat, pqs: seq<Processor>, colors: seq<Processor>,
                          dis: seq<Processor>, srs: seq<Processor>)
  {
    && (forall p :: p in list <==> p.layerId == id && (p in pqs || p in colors || p in dis || p in srs))
    && Ordered(list)
  }

  lemma Assembled(id: nat, pqs: seq<Processor>, colors: seq<Processor>, dis: seq<Processor>, srs: seq<Processor>,
                  pq: seq<Processor>, color: seq<Processor>, di: seq<Processor>, sr: seq<Processor>)
    requires ServedBy(pq, pqs, id, AiPq) && ServedBy(color, colors, id, AiColor)
    requires ServedBy(di, dis, id, Di) && ServedBy(sr, srs, id, AiSr)
    ensures InOrder(pq + color + di + sr, id, pqs, colors, dis, srs)
  {
    Follows([], pq, AiPq);
    assert [] + pq == pq;
    Follows(pq, color, AiColor);
    Follows(pq + color, di, Di);
    Follows(pq + color + di, sr, AiSr);
    assert forall p :: p in pq + color + di + sr <==> p in pq || p in color || p in di || p in sr;
  }

  ghost predicate Ordered(list: seq<Processor>) {
    forall i, j :: 0 <= i < j < |list| ==> RunsBefore(list[i].kind, list[j].kind)
  }

  lemma Follows(list: seq<Processor>, more: seq<Processor>, kind: Kind)
    requires Ordered(list) && |more| <= 1 && (more != [] ==> more[0].kind == kind)
    requires forall i :: 0 <= i < |list| ==> RunsBefore(list[i].kind, kind)
    ensures Ordered(list + more)
    ensures forall i :: 0 <= i < |list + more| ==>
            (list + more)[i].kind == kind || RunsBefore((list + more)[i].kind, kind)
  {
  }

  /** `first` is what a pool has for a layer: one processor of its kind at most. */
  ghost predicate ServedBy(first: seq<Processor>, pool: seq<Processor>, id: nat, kind: Kind) {
    && |first| <= 1 && (forall p :: p in first <==> p in pool && p.layerId == id)
    && (first != [] ==> first[0].kind == kind)
  }

  lemma OnlyOneServes(pool: seq<Processor>, id: nat, first: seq<Processor>, kind: Kind, limit: nat)
    requires PoolOk(pool, kind, limit)
    requires first == [] ==> !Serves(pool, id)
    requires first != [] ==> |first| == 1 && first[0] in pool && first[0].layerId == id
    ensures ServedBy(first, pool, id, kind)
  {
  }
}
