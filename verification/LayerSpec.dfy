/**
 * What each video-tunnel operation of a layer does to its state
 * (hwc2/Hwc2Layer.cpp), in closed form: no loops, one function per operation.
 * `Hwc2Layer` performs the same operations in place and is proved against these.
 */
module LayerSpec {
  import opened VideoTunnelTypes
  import opened DrmSync
  import opened CArithmetic

  const BAD_PARAMETER := 4

  /** One second in microseconds: further ahead than this a timestamp is implausible. */
  const PLAUSIBLE_US := 1_000_000

  datatype VideoStatus = Blank | Hide | Show | ColorOnce | ColorAlways | ColorDisable | HoldFrame

  /** The layer's attachment to a tunnel. */
  datatype Link = Link(
    isVt: bool,              // mFbType is the tunnel sideband type
    needRelease: bool,       // mNeedReleaseVtResource
    connected: bool,         // mVtConsumer is set
    tunnelId: int,
    idUpdate: bool)          // mTunnelIdUpdate

  /** What decides when a timestamp is due. */
  datatype Clock = Clock(gameMode: bool, expected: int /* mExpectedPresentTime, microseconds */)

  /** The solid-colour buffer: mSolidColorBufferfd, and whether its allocator exists. */
  datatype Colour = Colour(fd: int, hasHandle: bool)

  /** mCurReleaseFence and mPrevReleaseFence; None is no fence object, or the shared NO_FENCE. */
  datatype Fences = Fences(cur: Option<Fence>, prev: Option<Fence>)

  datatype Layer = Layer(
    link: Link,
    clock: Clock,
    queue: seq<Frame>,       // mQueueItems
    cur: Option<Frame>,      // the frame behind mVtBufferFd
    pre: Option<Frame>,      // the frame behind mPreVtBufferFd
    vtUpdate: bool,
    refreshed: bool,         // mVtRefreshed
    timestamp: int,
    queuedFrames: int,
    status: VideoStatus,
    colour: Colour,
    diFd: int,
    fences: Fences)

  /** Equality, one component at a time. */
  ghost predicate Agree(a: Layer, b: Layer)
    ensures Agree(a, b) <==> a == b
  {
    && a.link == b.link && a.clock == b.clock && a.queue == b.queue && a.cur == b.cur && a.pre == b.pre
    && a.vtUpdate == b.vtUpdate && a.refreshed == b.refreshed && a.timestamp == b.timestamp
    && a.queuedFrames == b.queuedFrames && a.status == b.status && a.colour == b.colour
    && a.diFd == b.diFd && a.fences == b.fences
  }

  /** One call of `onVtFrameDisplayed`. */
  datatype GiveBack = GiveBack(frame: Frame, fence: Fence)

  datatype Outcome = Outcome(layer: Layer, gives: seq<GiveBack>, ret: int)

  const INITIAL := Layer(Link(false, false, false, -1, false), Clock(false, 0), [], None, None,
                         false, false, -1, 0, Show, Colour(-1, false), -1, Fences(None, None))

  /** The frames a layer is responsible for, in arrival order. */
  function Held(l: Layer): seq<Frame> {
    OptSeq(l.pre) + l.queue
  }

  function Frames(gives: seq<GiveBack>): seq<Frame> {
    seq(|gives|, i requires 0 <= i < |gives| => gives[i].frame)
  }

  function Plain(q: seq<Frame>): seq<GiveBack> {
    seq(|q|, i requires 0 <= i < |q| => GiveBack(q[i], NoFence))
  }

  lemma PlainMore(q: seq<Frame>, n: nat)
    requires n < |q|
    ensures Plain(q[..n + 1]) == Plain(q[..n]) + [GiveBack(q[n], NoFence)]
  {
  }

  /** Without a consumer `onVtFrameDisplayed` reaches nobody. */
  function Reach(l: Layer, gives: seq<GiveBack>): seq<GiveBack> {
    if l.link.connected then gives else []
  }

  function DupOf(f: Option<Fence>): Fence {
    if f.Some? then f.value else NoFence
  }

  predicate Due(l: Layer, ts: int) {
    ts == -1 || l.clock.gameMode || ts < l.clock.expected || ts >= l.clock.expected + PLAUSIBLE_US
  }

  predicate Expired(l: Layer, f: Frame) {
    f.ts > 0 && Due(l, f.ts) && !l.clock.gameMode
  }

  function ExpiredCount(l: Layer, q: seq<Frame>): nat {
    if q == [] then 0
    else ExpiredCount(l, q[..|q| - 1]) + (if Expired(l, q[|q| - 1]) then 1 else 0)
  }

  function DropCount(l: Layer): nat {
    var n := ExpiredCount(l, l.queue);
    if n == 0 then 0 else n - 1
  }

  lemma {:induction false} ExpiredCountBound(l: Layer, q: seq<Frame>)
    ensures ExpiredCount(l, q) <= |q|
  {
    if q != [] { ExpiredCountBound(l, q[..|q| - 1]); }
  }

  /** What every operation keeps: the current frame heads the queue, and only a connected layer holds frames. */
  ghost predicate Wf(l: Layer) {
    && (l.cur.Some? ==> |l.queue| > 0 && l.cur.value == l.queue[0])
    && (l.link.tunnelId >= 0 ==> l.link.connected)
    && (l.link.tunnelId < 0 ==> l.pre.None? && |l.queue| == 0)
  }

  /** What a tunnel layer offers for display. */
  function BufferFd(l: Layer): int {
    if l.diFd >= 0 then l.diFd
    else FdOf(if Due(l, l.timestamp) && l.vtUpdate then l.cur else l.pre)
  }

  function Deliver(l: Layer, frames: seq<Frame>): Outcome {
    if (!l.link.isVt && !l.link.needRelease) || l.link.tunnelId < 0 then Outcome(l, [], -EINVAL)
    else
      var l' := l.(queue := l.queue + frames, queuedFrames := l.queuedFrames + |frames|);
      Outcome(l', [], if l'.queue == [] then -EAGAIN else 0)
  }

  function SetPresentTime(l: Layer, ns: int): Layer {
    if l.link.isVt then l.(clock := l.clock.(expected := Quot(ns, 1000))) else l
  }

  /** Drop all expired frames but one from the head, then make the head current. */
  function Update(l: Layer): Outcome {
    if !l.link.isVt || l.queue == [] then Outcome(l, [], 0)
    else
      ExpiredCountBound(l, l.queue);
      var d := DropCount(l);
      var head := l.queue[d];
      var present := Due(l, head.ts);
      Outcome(l.(queue := l.queue[d..], queuedFrames := l.queuedFrames - d,
                 cur := Some(head), vtUpdate := true, timestamp := head.ts,
                 link := l.link.(idUpdate := l.link.idUpdate && !present)),
              Reach(l, Plain(l.queue[..d])), 0)
  }

  /** `setVtPrevReleaseFence` */
  function Shifted(f: Fences): Fences {
    Fences(None, if f.cur.Some? then f.cur else f.prev)
  }

  function ShiftFence(l: Layer): Layer {
    l.(fences := Shifted(l.fences))
  }

  /** Put the current frame, if any, on the screen and give the one it replaces back. */
  function Promote(l: Layer): Outcome {
    if l.pre.None? && l.cur.None? then Outcome(l, [], 0)
    else
      Outcome(l.(queue := Rest(l), pre := l.cur, cur := None, vtUpdate := false,
                 queuedFrames := if l.pre.Some? then l.queuedFrames - 1 else l.queuedFrames,
                 fences := Shifted(l.fences)),
              Reach(l, OnScreenGive(l.pre, l.fences.prev)), if l.pre.None? || l.link.connected then 0 else -1)
  }

  /** `releaseVtBuffer`: promote, unless there is nothing new that is due. */
  function Release(l: Layer): Outcome {
    if !l.link.isVt then Outcome(l, [], -EINVAL)
    else
      var l1 := l.(refreshed := false);
      if l.refreshed && !(Due(l, l.timestamp) && l.vtUpdate) then Outcome(ShiftFence(l1), [], 0)
      else if !l.vtUpdate || !Due(l, l.timestamp) || l.queue == [] then Outcome(l1, [], -EAGAIN)
      else Promote(l1)
  }

  /** `releaseVtResourceLocked(needDisconnect, needKeepLastFrame)` */
  function Flush(l: Layer, disconnect: bool, keepLast: bool): Outcome {
    if (!l.link.isVt && !l.link.needRelease) || !l.link.connected then Outcome(l, [], 0)
    else
      var dropPre := !keepLast || disconnect;
      var leave := l.link.tunnelId >= 0 && disconnect;
      Outcome(l.(pre := if dropPre then None else l.pre, cur := None, queue := [],
                 vtUpdate := false, timestamp := -1, queuedFrames := 0,
                 link := l.link.(needRelease := false, connected := !leave,
                                 tunnelId := if leave then -1 else l.link.tunnelId)),
              FlushGives(l, dropPre), 0)
  }

  function FlushGives(l: Layer, dropPre: bool): seq<GiveBack> {
    (if dropPre then OnScreenGive(l.pre, l.fences.prev) else [])
    + OnScreenGive(l.cur, l.fences.cur) + Plain(Rest(l))
  }

  /** A frame that was presented goes back with a copy of the fence of its presentation. */
  function OnScreenGive(f: Option<Frame>, fence: Option<Fence>): seq<GiveBack> {
    if f.Some? then [GiveBack(f.value, DupOf(fence))] else []
  }

  /** The queued frames behind the current one. */
  function Rest(l: Layer): seq<Frame> {
    if l.cur.Some? && |l.queue| > 0 then l.queue[1..] else l.queue
  }

  function FreeSolidColor(l: Layer): Layer {
    if l.colour.fd >= 0
    then l.(colour := l.colour.(fd := -1), vtUpdate := false, refreshed := false,
            fences := l.fences.(cur := Some(NoFence)))
    else l
  }

  /** `onNeedShowTempBuffer`; `fd` is the duplicated colour buffer, negative when none was made. */
  function ShowTempBuffer(l: Layer, fd: int): Layer {
    var l1 := if l.colour.fd < 0 then l.(colour := Colour(if fd >= 0 then fd else l.colour.fd, true)) else l;
    if l1.colour.fd >= 0 then l1.(vtUpdate := true) else l1
  }

  /** `isVtNeedClearFrameOrShowColorBuffer`; `ret` is 1 for true. */
  function HandleStatus(l: Layer): Outcome {
    match l.status
    case Blank => Flush(l.(status := Show), false, false).(ret := 1)
    case Hide =>
      var o := Flush(l, false, false);
      o.(layer := o.layer.(fences := o.layer.fences.(cur := Some(NoFence))), ret := 1)
    case ColorOnce =>
      Flush(if BufferFd(l) >= 0 || l.queue != [] then l.(status := Show) else l, false, false)
    case ColorAlways => Flush(l, false, false)
    case ColorDisable => Outcome(FreeSolidColor(l.(status := Show)), [], 0)
    case HoldFrame => Flush(l, false, true)
    case Show => Outcome(l, [], 0)
  }

  /** What `interruptVtProcess` decides: carry on, blank the plane, or show the colour buffer. */
  datatype Decision = Proceed | BlankPlane | ShowColor

  function Decide(l: Layer, cleared: bool): Decision {
    if cleared then BlankPlane
    else if BufferFd(l) < 0 && l.colour.hasHandle then ShowColor
    else if BufferFd(l) < 0 && !l.link.idUpdate then BlankPlane
    else Proceed
  }

  /** `getSolidColorBuffer`; `fd` is a duplicate of the allocated buffer, negative when there is none. */
  function FetchSolidColor(l: Layer, fd: int): Layer {
    if l.link.isVt && l.colour.fd < 0 && l.colour.hasHandle && l.refreshed && fd >= 0
       && (l.status.ColorOnce? || l.status.ColorAlways?)
    then l.(colour := l.colour.(fd := fd)) else l
  }

  /**
   * `interruptVtProcess` as the compositions use it: when it asks for colour, the colour
   * buffer is fetched, shown and freed again.
   */
  function Interrupt(l: Layer, fd: int): Outcome {
    if !l.link.isVt then Outcome(l, [], 0)
    else
      var o := HandleStatus(l);
      if Decide(o.layer, o.ret == 1).ShowColor?
      then o.(layer := FreeSolidColor(FetchSolidColor(o.layer, fd)))
      else o
  }

  /** `clearBufferInfo` also drops the tunnel type; a tunnel layer keeps its previous fence. */
  function ClearInfo(l: Layer): Layer {
    l.(link := l.link.(isVt := false),
       fences := if l.link.isVt then l.fences else l.fences.(prev := l.fences.cur))
  }

  /** `setBuffer` */
  function SetBuffer(l: Layer): Layer {
    var l' := ClearInfo(l);
    l'.(link := l'.link.(needRelease := l.link.needRelease || l.link.isVt))
  }

  function ClearUpdateFlag(l: Layer): Outcome {
    if l.link.needRelease then Flush(l, true, false) else Outcome(l, [], 0)
  }

  /** The layer of `setSidebandStream` before it looks at the channel. */
  function BecomeTunnel(l: Layer): Layer {
    var l' := ClearInfo(l);
    l'.(link := l'.link.(isVt := true))
  }

  /** `registerConsumer`, on a layer that holds nothing; `ok` is whether a new consumer could be connected. */
  function Register(l: Layer, channel: int, ok: bool): Layer {
    if l.link.connected || ok
    then l.(link := l.link.(connected := true, tunnelId := channel, idUpdate := true), queuedFrames := 0, queue := [])
    else l.(link := l.link.(connected := true, tunnelId := -1))
  }

  /** Leave the old tunnel, then join the new one. */
  function SwitchTunnel(l: Layer, channel: int, ok: bool): Outcome {
    var o := if l.link.tunnelId >= 0 then Flush(l, true, false) else Outcome(l, [], 0);
    Outcome(Register(o.layer, channel, ok), o.gives, if o.layer.link.connected || ok then 0 else BAD_PARAMETER)
  }

  /** `setSidebandStream` for a tunnel. */
  function SetTunnel(l: Layer, channel: int, ok: bool): Outcome {
    if channel < 0 then Outcome(BecomeTunnel(l), [], BAD_PARAMETER)
    else if l.link.tunnelId == channel then Outcome(BecomeTunnel(l), [], 0)
    else SwitchTunnel(BecomeTunnel(l), channel, ok)
  }

  lemma UpdateKeepsWf(l: Layer)
    requires Wf(l)
    ensures Wf(Update(l).layer)
  {
    if l.queue != [] { ExpiredCountBound(l, l.queue); }
  }

  lemma ReleaseKeepsWf(l: Layer)
    requires Wf(l)
    ensures Wf(Promote(l).layer) && Wf(Release(l).layer)
  {
  }

  lemma FlushKeepsWf(l: Layer, disconnect: bool, keepLast: bool)
    requires Wf(l)
    ensures Wf(Flush(l, disconnect, keepLast).layer)
  {
  }

  /** What a flush leaves alone. */
  lemma FlushFrame(l: Layer, disconnect: bool, keepLast: bool)
    ensures var f := Flush(l, disconnect, keepLast).layer;
            && f.clock == l.clock && f.refreshed == l.refreshed && f.status == l.status && f.colour == l.colour
            && f.diFd == l.diFd && f.fences == l.fences
  {
  }

  /** What the commands that clear the last frame leave alone, and what they change besides the frames. */
  lemma ClearFrame(l: Layer)
    requires l.status == Blank || l.status == Hide
    ensures var h := HandleStatus(l).layer;
            && h.clock == l.clock && h.refreshed == l.refreshed && h.colour == l.colour && h.diFd == l.diFd
            && h.status == (if l.status == Blank then Show else Hide)
            && h.fences == if l.status == Hide then l.fences.(cur := Some(NoFence)) else l.fences
  {
    FlushFrame(l.(status := Show), false, false);
    FlushFrame(l, false, false);
  }

  lemma SetTunnelKeepsWf(l: Layer, channel: int, ok: bool)
    requires Wf(l)
    ensures Wf(SetTunnel(l, channel, ok).layer)
  {
    if channel >= 0 { SwitchTunnelKeepsWf(BecomeTunnel(l), channel, ok); }
  }

  lemma SwitchTunnelKeepsWf(l: Layer, channel: int, ok: bool)
    requires Wf(l) && l.link.isVt && channel >= 0
    ensures Wf(SwitchTunnel(l, channel, ok).layer)
  {
  }

  /**
   * When a set-up reports success: the layer is on this tunnel already, or a new consumer
   * connects, or one is left over from before although the layer is on no tunnel. In the
   * last case no instance knows the layer.
   */
  lemma SetTunnelSucceedsIff(l: Layer, channel: int, ok: bool)
    requires Wf(l)
    ensures SetTunnel(l, channel, ok).ret == 0 <==>
              channel >= 0 && (l.link.tunnelId == channel || ok || (l.link.connected && l.link.tunnelId < 0))
  {
    var b := BecomeTunnel(l);
    assert b.link.tunnelId == l.link.tunnelId && b.link.connected == l.link.connected && b.link.isVt;
  }

  /**
   * A failed connect is reported once. The consumer object stays, so the next tunnel counts
   * as joined without an attempt to connect, whatever that attempt would have brought.
   */
  lemma FailedConnectIsForgotten(l: Layer, first: int, second: int, ok: bool)
    requires Wf(l) && !l.link.connected && first >= 0 && second >= 0
    ensures var failed := SetTunnel(l, first, false); var next := SetTunnel(failed.layer, second, ok);
            && failed.ret == BAD_PARAMETER && failed.layer.link.tunnelId == -1
            && next.ret == 0 && next.layer.link.connected && next.layer.link.tunnelId == second
            && next.layer == SetTunnel(failed.layer, second, !ok).layer
  {
    SetTunnelSucceedsIff(l, first, false);
    SetTunnelKeepsWf(l, first, false);
    SetTunnelSucceedsIff(SetTunnel(l, first, false).layer, second, ok);
  }
}
