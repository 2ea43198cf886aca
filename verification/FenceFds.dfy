/**
 * Ownership of fence descriptors while video processors run
 * (composition/videoprocessorsmanager/VideoProcessorsManager.cpp,
 * common/base/DrmFramebuffer.cpp, common/base/DrmSync.cpp).
 *
 * The table knows every descriptor obtained so far by a number of its own, so that a
 * number is never reused, who is responsible for closing it, and which fence it stands for.
 */
module FenceFds {
  import opened DrmSync

  /**
   * `Local`: the running function has to dispose of it. `Owned`: a `DrmFence` object or a
   * callee has taken it over. `Closed`: closed.
   */
  datatype FdState = Local | Owned | Closed

  /** Duplicates of a descriptor stand for the same fence. */
  datatype Fd = Fd(state: FdState, fence: Fence)

  type Fds = map<int, Fd>

  /** Who can receive a descriptor. */
  datatype Callee =
    | ProcessFence(processor: nat)  // setProcessFence of the processor's output
    | DiFence(processor: nat)       // its setDiProcessorFence
    | Displayed(processor: nat)     // onBufferDisplayed of the processor
    | LayerDisplayed(fb: nat)       // the release fence of the layer

  /** One hand-over, with the fence behind the descriptor: none when it is -1. */
  datatype Call = Call(callee: Callee, fence: Fence)

  /** The descriptors that a value stands for: -1 is none. */
  function Just(fd: int): set<int> {
    if fd >= 0 then {fd} else {}
  }

  /** Descriptors obtained earlier have not changed hands. */
  ghost predicate Extends(before: Fds, after: Fds) {
    forall fd :: fd in before ==> fd in after && after[fd] == before[fd]
  }

  function LocalFds(fds: Fds): set<int> {
    set fd | fd in fds && fds[fd].state == Local
  }

  function FenceOf(fds: Fds, fd: int): Fence {
    if fd in fds then fds[fd].fence else NoFence
  }

  /** `dup`, which may fail. */
  function Copy(f: Fence, works: bool): Fence {
    if works then f else NoFence
  }

  /** What `DrmFramebuffer::onLayerDisplayed` leaves as the release fence of a layer. */
  function LeftWith(release: Fence, process: Fence, mergeWorks: bool): Fence {
    if release.NoFence? then process
    else if process.NoFence? then release
    else Merge(release, process, mergeWorks)
  }

  class FdTable {
    var fds: Fds
    ghost var calls: seq<Call>

    ghost predicate Valid()
      reads this
    {
      forall fd :: fd in fds ==> fd >= 0 && fds[fd].fence.Sync?
    }

    ghost function Locals(): set<int>
      reads this
    {
      LocalFds(fds)
    }

    constructor ()
      ensures Valid() && fds == map[] && calls == []
    {
      fds, calls := map[], [];
    }

    /** A descriptor handed to us by somebody else, or obtained by a system call that may fail: -1 for no fence. */
    method Obtain(fence: Fence) returns (fd: int)
      requires Valid()
      modifies this`fds
      ensures Valid() && FenceOf(fds, fd) == fence
      ensures if fence.Sync? then fd >= 0 && fd !in old(fds) && fds == old(fds)[fd := Fd(Local, fence)]
              else fd == -1 && fds == old(fds)
      ensures Locals() == old(Locals()) + Just(fd)
    {
      if fence.Sync? {
        fd := Unused();
        fds := fds[fd := Fd(Local, fence)];
      } else {
        fd := -1;
      }
    }

    method Unused() returns (fd: int)
      ensures fd >= 0 && fd !in fds
    {
      fd := 0;
      ghost var seen := {};
      while fd in fds
        invariant fd >= 0 && seen <= fds.Keys && forall k :: k in seen <==> 0 <= k < fd
        decreases fds.Keys - seen
      {
        seen := seen + {fd};
        fd := fd + 1;
      }
    }

    /** `(fd >= 0) ? dup(fd) : -1`. The descriptor must be open and ours. */
    method DupIfAny(fd: int, works: bool) returns (r: int)
      requires Valid() && (fd >= 0 ==> fd in Locals())
      modifies this`fds
      ensures Valid() && FenceOf(fds, r) == Copy(FenceOf(old(fds), fd), works)
      ensures if fd >= 0 && works then r >= 0 && r !in old(fds) && fds == old(fds)[r := Fd(Local, old(fds)[fd].fence)]
              else r == -1 && fds == old(fds)
      ensures Locals() == old(Locals()) + Just(r)
    {
      if fd >= 0 && works {
        r := Obtain(fds[fd].fence);
      } else {
        r := -1;
      }
    }

    /** `close`. Only what is ours, and open, may be closed. */
    method Close(fd: int)
      requires Valid() && fd in Locals()
      modifies this`fds
      ensures Valid() && fds == old(fds)[fd := Fd(Closed, old(fds)[fd].fence)] && Locals() == old(Locals()) - {fd}
    {
      fds := fds[fd := fds[fd].(state := Closed)];
    }

    /** Pass a descriptor on to a callee or a new `DrmFence`; -1 passes nothing. */
    method Give(fd: int, ghost callee: Callee)
      requires Valid() && (fd >= 0 ==> fd in Locals())
      modifies this
      ensures Valid() && fds == if fd >= 0 then old(fds)[fd := Fd(Owned, old(fds)[fd].fence)] else old(fds)
      ensures calls == old(calls) + [Call(callee, FenceOf(old(fds), fd))]
      ensures Locals() == old(Locals()) - Just(fd)
    {
      calls := calls + [Call(callee, FenceOf(fds, fd))];
      if fd >= 0 {
        fds := fds[fd := fds[fd].(state := Owned)];
      }
    }

    /**
     * `DrmFramebuffer::onLayerDisplayed`: both descriptors are taken over. One alone is
     * kept; two are merged into a new fence and closed with the temporaries holding them.
     */
    method OnLayerDisplayed(ghost fb: nat, releaseFence: int, processFence: int, mergeWorks: bool)
      requires Valid()
      requires releaseFence >= 0 ==> releaseFence in Locals()
      requires processFence >= 0 ==> processFence in Locals() && processFence != releaseFence
      modifies this
      ensures Valid() && Locals() == old(Locals()) - Just(releaseFence) - Just(processFence)
      ensures forall fd :: fd in old(fds) ==>
                fd in fds && (fd != releaseFence && fd != processFence ==> fds[fd] == old(fds)[fd])
      ensures calls == old(calls) +
                [Call(LayerDisplayed(fb),
                      LeftWith(FenceOf(old(fds), releaseFence), FenceOf(old(fds), processFence), mergeWorks))]
    {
      if releaseFence < 0 || processFence < 0 {
        var fenceFd := if releaseFence < 0 then processFence else releaseFence;
        Give(fenceFd, LayerDisplayed(fb));
      } else {
        var merged := Obtain(Merge(fds[releaseFence].fence, fds[processFence].fence, mergeWorks));
        Give(merged, LayerDisplayed(fb));
        Close(releaseFence);
        Close(processFence);
      }
    }
  }

  /**
   * The release fence left with a layer is made of what is at hand of two fences, each a
   * copy that may have failed. It covers both exactly when no copy that failed takes points
   * with it, and the merge, where there are two, works or has nothing to keep.
   */
  lemma LeftCoversIff(release: Fence, releaseDup: bool, process: Fence, processDup: bool, mergeWorks: bool)
    ensures var r, p := Copy(release, releaseDup), Copy(process, processDup);
            var both := Points(release) + Points(process);
            Covers(LeftWith(r, p, mergeWorks), both, {}) <==>
              both <= Points(r) + Points(p) && (mergeWorks || r.NoFence? || p.NoFence? || both == {})
  {
  }
}
