/**
 * Whole runs of one video-tunnel layer: any sequence of deliveries, vsync work, commands,
 * flushes, type changes and reconnects. No frame is lost or handed back twice, and frames
 * reach the screen in arrival order.
 */
module LayerRuns {
  import opened VideoTunnelTypes
  import opened DrmSync
  import opened LayerSpec

  datatype Op =
    | OpDeliver(frames: seq<Frame>)
    | OpSetTime(ns: int)
    | OpUpdate
    | OpRelease
    | OpFlush(disconnect: bool, keepLast: bool)
    | OpInterrupt(colourFd: int)
    | OpCommand(status: VideoStatus)
    | OpGameMode(on: bool)
    | OpRefresh
    | OpTempBuffer(fd: int)
    | OpFreeColour
    | OpPresented(fence: Option<Fence>)
    | OpSetBuffer
    | OpClearUpdateFlag
    | OpSetNonTunnel
    | OpSetTunnel(channel: int, ok: bool)
    | OpSetDiFd(fd: int)

  function Step(l: Layer, op: Op): Outcome {
    match op
    case OpDeliver(frames) => Deliver(l, frames)
    case OpSetTime(ns) => Outcome(SetPresentTime(l, ns), [], 0)
    case OpUpdate => Update(l)
    case OpRelease => Release(l)
    case OpFlush(disconnect, keepLast) => Flush(l, disconnect, keepLast)
    case OpInterrupt(fd) => Interrupt(l, fd)
    case OpCommand(status) => Outcome(l.(status := status), [], 0)
    case OpGameMode(on) => Outcome(l.(clock := l.clock.(gameMode := on)), [], 0)
    case OpRefresh => Outcome(l.(refreshed := true), [], 0)
    case OpTempBuffer(fd) => Outcome(ShowTempBuffer(l, fd), [], 0)
    case OpFreeColour => Outcome(FreeSolidColor(l), [], 0)
    case OpPresented(fence) => Outcome(l.(fences := l.fences.(cur := fence)), [], 0)
    case OpSetBuffer => Outcome(SetBuffer(l), [], 0)
    case OpClearUpdateFlag => ClearUpdateFlag(l)
    case OpSetNonTunnel => Outcome(ClearInfo(l), [], 0)
    case OpSetTunnel(channel, ok) => SetTunnel(l, channel, ok)
    case OpSetDiFd(fd) => Outcome(l.(diFd := fd), [], 0)
  }

  /** The frames a step takes over. */
  function Accepted(l: Layer, op: Op): seq<Frame> {
    if op.OpDeliver? && Deliver(l, op.frames).ret != -EINVAL then op.frames else []
  }

  /** Whether `releaseVtBuffer` gets as far as changing what is on screen. */
  predicate Promotes(l: Layer) {
    && l.link.isVt && !(l.refreshed && !(Due(l, l.timestamp) && l.vtUpdate))
    && l.vtUpdate && Due(l, l.timestamp) && l.queue != []
  }

  /** The frame, if any, that a step puts on the screen for the first time. */
  function NewlyShown(l: Layer, op: Op): seq<Frame> {
    if op.OpRelease? && Promotes(l) then OptSeq(l.cur) else []
  }

  lemma FramesOfPlain(q: seq<Frame>)
    ensures Frames(Plain(q)) == q
  {
  }

  /** A flush that drops everything hands back exactly what is held, in arrival order. */
  lemma FlushGivesHeld(l: Layer, dropPre: bool)
    requires Wf(l)
    ensures Frames(FlushGives(l, dropPre)) == if dropPre then Held(l) else l.queue
  {
  }

  /** `rest` is `whole` with the block `gone` cut out at position k; order is untouched. */
  ghost predicate CutOut(whole: seq<Frame>, k: nat, gone: seq<Frame>, rest: seq<Frame>) {
    k <= |rest| && whole == rest[..k] + gone + rest[k..]
  }

  /** The queue loses frames from its old end only, and the screen gets nothing new. */
  ghost predicate Trims(pre: Option<Frame>, q: seq<Frame>, l': Layer) {
    && |l'.queue| <= |q| && l'.queue == q[|q| - |l'.queue|..]
    && (l'.pre == pre || l'.pre.None?)
  }

  /** The head of the queue moves to the screen. */
  ghost predicate Shows(q: seq<Frame>, l': Layer) {
    q != [] && l'.queue == q[1..] && l'.pre == Some(q[0])
  }

  /** What a step that brings in no frame and shows none does with the frames held. */
  ghost predicate Sheds(l: Layer, o: Outcome, k: nat) {
    Wf(o.layer) && CutOut(Held(l), k, Frames(o.gives), Held(o.layer)) && Trims(l.pre, l.queue, o.layer)
  }

  lemma NothingShed(l: Layer, l': Layer)
    requires Wf(l') && l'.queue == l.queue && l'.pre == l.pre
    ensures Sheds(l, Outcome(l', [], 0), 0)
  {
  }

  lemma PrefixCut(gone: seq<Frame>, rest: seq<Frame>)
    ensures CutOut(gone + rest, 0, gone, rest)
  {
  }

  lemma FlushSheds(l: Layer, disconnect: bool, keepLast: bool) returns (k: nat)
    requires Wf(l)
    ensures Sheds(l, Flush(l, disconnect, keepLast), k)
  {
    var o := Flush(l, disconnect, keepLast);
    var dropPre := !keepLast || disconnect;
    if (!l.link.isVt && !l.link.needRelease) || !l.link.connected {
      k := 0;
      NothingShed(l, l);
    } else {
      FlushGivesHeld(l, dropPre);
      var kept := if dropPre then [] else OptSeq(l.pre);
      k := |kept|;
      assert Held(o.layer) == kept;
      CutAll(kept, Frames(o.gives));
    }
  }

  /** Everything behind `kept` goes. */
  lemma CutAll(kept: seq<Frame>, gone: seq<Frame>)
    ensures CutOut(kept + gone, |kept|, gone, kept)
  {
    assert kept[..|kept|] == kept && kept[|kept|..] == [];
  }

  lemma UpdateSheds(l: Layer) returns (k: nat)
    requires Wf(l)
    ensures Sheds(l, Update(l), k)
  {
    UpdateKeepsWf(l);
    k := 0;
    if l.link.isVt && l.queue != [] {
      ExpiredCountBound(l, l.queue);
      var d := DropCount(l);
      FramesOfPlain(l.queue[..d]);
      k := |OptSeq(l.pre)|;
      assert l.queue == l.queue[..d] + l.queue[d..];
    } else {
      NothingShed(l, l);
    }
  }

  /** With no current frame, a promotion only takes the old frame off the screen. */
  lemma ReleaseSheds(l: Layer) returns (k: nat)
    requires Wf(l) && NewlyShown(l, OpRelease) == []
    ensures Sheds(l, Release(l), k)
  {
    k := 0;
    ReleaseKeepsWf(l);
    if Promotes(l) && l.pre.Some? {
      PrefixCut([l.pre.value], l.queue);
      assert Frames(Release(l).gives) == [l.pre.value];
      assert Held(Release(l).layer) == l.queue;
    } else {
      NothingShed(l, Release(l).layer);
      assert Release(l).gives == [];
    }
  }

  lemma ReleaseShows(l: Layer)
    requires Wf(l) && NewlyShown(l, OpRelease) != []
    ensures var o := Release(l);
            && Wf(o.layer) && CutOut(Held(l), 0, Frames(o.gives), Held(o.layer))
            && Shows(l.queue, o.layer) && NewlyShown(l, OpRelease) == [l.queue[0]]
  {
  }

  lemma HandleStatusSheds(l: Layer) returns (k: nat)
    requires Wf(l)
    ensures Sheds(l, HandleStatus(l), k)
  {
    match l.status
    case Blank => k := CommandSheds(l, l.(status := Show), false, HandleStatus(l));
    case Hide => k := CommandSheds(l, l, false, HandleStatus(l));
    case ColorOnce =>
      k := CommandSheds(l, if BufferFd(l) >= 0 || l.queue != [] then l.(status := Show) else l, false, HandleStatus(l));
    case ColorAlways => k := CommandSheds(l, l, false, HandleStatus(l));
    case HoldFrame => k := CommandSheds(l, l, true, HandleStatus(l));
    case ColorDisable => k := 0; NothingShed(l, FreeSolidColor(l.(status := Show)));
    case Show => k := 0; NothingShed(l, l);
  }

  /** A flush on behalf of a command, which may change the status before and the fences after. */
  lemma CommandSheds(l: Layer, l1: Layer, keepLast: bool, o: Outcome) returns (k: nat)
    requires Wf(l) && l1 == l.(status := l1.status)
    requires var f := Flush(l1, false, keepLast); o.gives == f.gives && o.layer == f.layer.(fences := o.layer.fences)
    ensures Sheds(l, o, k)
  {
    k := FlushSheds(l1, false, keepLast);
    ShedsAlike(l1, Flush(l1, false, keepLast), l, o, k);
  }

  /** Shedding is about the frames held only. */
  lemma ShedsAlike(l: Layer, o: Outcome, m: Layer, p: Outcome, k: nat)
    requires Sheds(l, o, k) && m.queue == l.queue && m.pre == l.pre
    requires p.gives == o.gives && p.layer.queue == o.layer.queue && p.layer.pre == o.layer.pre
    requires p.layer.cur == o.layer.cur && p.layer.link == o.layer.link
    ensures Sheds(m, p, k)
  {
  }

  lemma InterruptSheds(l: Layer, fd: int) returns (k: nat)
    requires Wf(l)
    ensures Sheds(l, Interrupt(l, fd), k)
  {
    if l.link.isVt {
      k := HandleStatusSheds(l);
    } else {
      k := 0;
      NothingShed(l, l);
    }
  }

  lemma SetTunnelSheds(l: Layer, channel: int, ok: bool) returns (k: nat)
    requires Wf(l)
    ensures Sheds(l, SetTunnel(l, channel, ok), k)
  {
    SetTunnelKeepsWf(l, channel, ok);
    if channel >= 0 && l.link.tunnelId != channel && l.link.tunnelId >= 0 {
      k := FlushSheds(BecomeTunnel(l), true, false);
    } else {
      k := 0;
      NothingShed(l, SetTunnel(l, channel, ok).layer);
    }
  }

  /** Every operation other than a delivery, when it shows nothing new, only sheds frames. */
  lemma StepSheds(l: Layer, op: Op) returns (k: nat)
    requires Wf(l) && !op.OpDeliver? && NewlyShown(l, op) == []
    ensures Sheds(l, Step(l, op), k)
  {
    hide Update, Release, Flush, Interrupt, SetTunnel, Sheds, Held;
    k := 0;
    match op
    case OpUpdate => k := UpdateSheds(l);
    case OpRelease => k := ReleaseSheds(l);
    case OpFlush(disconnect, keepLast) => k := FlushSheds(l, disconnect, keepLast);
    case OpInterrupt(fd) => k := InterruptSheds(l, fd);
    case OpClearUpdateFlag => if l.link.needRelease { k := FlushSheds(l, true, false); } else { NothingShed(l, l); }
    case OpSetTunnel(channel, ok) => k := SetTunnelSheds(l, channel, ok);
    case _ => NothingShed(l, Step(l, op).layer);
  }

  lemma DeliverAdds(l: Layer, frames: seq<Frame>)
    requires Wf(l)
    ensures var o := Deliver(l, frames);
            && Wf(o.layer) && o.gives == [] && o.layer.pre == l.pre
            && o.layer.queue == l.queue + Accepted(l, OpDeliver(frames))
            && Held(o.layer) == Held(l) + Accepted(l, OpDeliver(frames))
  {
  }

  /**
   * A run, with its history: every frame accepted, every frame put on screen, every frame
   * handed back, each in the order it happened.
   */
  datatype Run = Run(layer: Layer, accepted: seq<Frame>, shown: seq<Frame>, given: seq<Frame>)

  const START := Run(INITIAL, [], [], [])

  function Advance(r: Run, op: Op): Run {
    var o := Step(r.layer, op);
    Run(o.layer, r.accepted + Accepted(r.layer, op), r.shown + NewlyShown(r.layer, op), r.given + Frames(o.gives))
  }

  function RunAll(ops: seq<Op>): Run {
    if ops == [] then START else Advance(RunAll(ops[..|ops| - 1]), ops[|ops| - 1])
  }

  /** Frames are numbered as they arrive; nothing else is asked of the surroundings. */
  ghost predicate Arrives(ops: seq<Op>) {
    forall n :: 0 < n <= |ops| ==> Increasing(RunAll(ops[..n]).accepted)
  }

  ghost predicate RunInv(r: Run) {
    && Wf(r.layer)
    && multiset(r.accepted) == multiset(Held(r.layer)) + multiset(r.given)
    && Increasing(r.shown + r.layer.queue)
    && (forall f :: f in r.shown ==> f in r.accepted)
    && (r.layer.pre.Some? ==> r.shown != [] && r.shown[|r.shown| - 1] == r.layer.pre.value)
  }

  lemma CutOutMultiset(whole: seq<Frame>, k: nat, gone: seq<Frame>, rest: seq<Frame>)
    requires CutOut(whole, k, gone, rest)
    ensures multiset(whole) == multiset(gone) + multiset(rest)
  {
    assert rest == rest[..k] + rest[k..];
  }

  lemma TailIncreasing(shown: seq<Frame>, q: seq<Frame>, q': seq<Frame>)
    requires Increasing(shown + q) && |q'| <= |q| && q' == q[|q| - |q'|..]
    ensures Increasing(shown + q')
  {
    var j := |q| - |q'|;
    forall a, b | 0 <= a < b < |shown + q'| ensures (shown + q')[a].id < (shown + q')[b].id {
      var a', b' := if a < |shown| then a else a + j, if b < |shown| then b else b + j;
      assert (shown + q)[a'].id < (shown + q)[b'].id;
    }
  }

  lemma AppendIncreasing(s: seq<Frame>, more: seq<Frame>, seen: seq<Frame>)
    requires Increasing(s) && Increasing(seen + more) && forall f :: f in s ==> f in seen
    ensures Increasing(s + more)
  {
    forall a, b | 0 <= a < b < |s + more| ensures (s + more)[a].id < (s + more)[b].id {
      if b >= |s| {
        var b' := |seen| + (b - |s|);
        assert (seen + more)[b'] == more[b - |s|];
        if a < |s| {
          assert s[a] in seen;
          var a' :| 0 <= a' < |seen| && seen[a'] == s[a];
          assert (seen + more)[a'].id < (seen + more)[b'].id;
        } else {
          assert (seen + more)[|seen| + (a - |s|)].id < (seen + more)[b'].id;
        }
      }
    }
  }

  /** What was shown or is queued was accepted. */
  lemma QueueWasAccepted(r: Run)
    requires RunInv(r)
    ensures forall f :: f in r.shown + r.layer.queue ==> f in r.accepted
  {
    forall f | f in r.layer.queue ensures f in r.accepted {
      assert f in multiset(Held(r.layer));
      assert f in multiset(r.accepted);
    }
  }

  lemma ShedKeepsInv(r: Run, o: Outcome, k: nat)
    requires RunInv(r) && Sheds(r.layer, o, k)
    ensures RunInv(Run(o.layer, r.accepted, r.shown, r.given + Frames(o.gives)))
  {
    CutOutMultiset(Held(r.layer), k, Frames(o.gives), Held(o.layer));
    TailIncreasing(r.shown, r.layer.queue, o.layer.queue);
  }

  lemma ShowKeepsInv(r: Run, o: Outcome)
    requires RunInv(r) && Wf(o.layer) && CutOut(Held(r.layer), 0, Frames(o.gives), Held(o.layer))
    requires Shows(r.layer.queue, o.layer)
    ensures RunInv(Run(o.layer, r.accepted, r.shown + [r.layer.queue[0]], r.given + Frames(o.gives)))
  {
    CutOutMultiset(Held(r.layer), 0, Frames(o.gives), Held(o.layer));
    HeadMoves(r, r.layer.queue[0], o.layer.queue);
  }

  lemma HeadMoves(r: Run, head: Frame, rest: seq<Frame>)
    requires RunInv(r) && r.layer.queue != [] && head == r.layer.queue[0] && rest == r.layer.queue[1..]
    ensures Increasing(r.shown + [head] + rest) && forall f :: f in r.shown + [head] ==> f in r.accepted
  {
    QueueWasAccepted(r);
    assert r.shown + [head] + rest == r.shown + r.layer.queue;
    assert head in r.shown + r.layer.queue;
  }

  lemma AddKeepsInv(r: Run, l': Layer, more: seq<Frame>)
    requires RunInv(r) && Wf(l') && l'.pre == r.layer.pre && l'.queue == r.layer.queue + more
    requires Held(l') == Held(r.layer) + more
    requires Increasing(r.accepted + more)
    ensures RunInv(Run(l', r.accepted + more, r.shown, r.given))
  {
    QueueWasAccepted(r);
    AppendIncreasing(r.shown + r.layer.queue, more, r.accepted);
    assert r.shown + l'.queue == r.shown + r.layer.queue + more;
  }

  lemma DeliverKeepsInv(r: Run, frames: seq<Frame>)
    requires RunInv(r) && Increasing(Advance(r, OpDeliver(frames)).accepted)
    ensures RunInv(Advance(r, OpDeliver(frames)))
  {
    DeliverAdds(r.layer, frames);
    AddKeepsInv(r, Deliver(r.layer, frames).layer, Accepted(r.layer, OpDeliver(frames)));
    assert Frames([]) == [] && r.given + [] == r.given && r.shown + [] == r.shown;
  }

  lemma StepKeepsInv(r: Run, op: Op)
    requires RunInv(r) && Increasing(Advance(r, op).accepted)
    ensures RunInv(Advance(r, op))
  {
    assert r.accepted + [] == r.accepted && r.shown + [] == r.shown;
    if op.OpDeliver? {
      DeliverKeepsInv(r, op.frames);
    } else if NewlyShown(r.layer, op) == [] {
      var k := StepSheds(r.layer, op);
      ShedKeepsInv(r, Step(r.layer, op), k);
    } else {
      ReleaseShows(r.layer);
      ShowKeepsInv(r, Release(r.layer));
    }
  }

  lemma PrefixArrives(ops: seq<Op>, n: nat)
    requires Arrives(ops) && n <= |ops|
    ensures Arrives(ops[..n])
  {
    forall k | 0 < k <= n ensures Increasing(RunAll(ops[..n][..k]).accepted) {
      assert ops[..n][..k] == ops[..k];
    }
  }

  /** The invariant holds after every run. */
  lemma {:induction false} EveryRun(ops: seq<Op>)
    requires Arrives(ops)
    ensures RunInv(RunAll(ops)) && Increasing(RunAll(ops).accepted)
  {
    if ops == [] {
    } else {
      var front := ops[..|ops| - 1];
      PrefixArrives(ops, |front|);
      assert ops[..|ops|] == ops;
      assert Increasing(RunAll(ops).accepted);
      hide RunInv, Arrives, Step, Accepted, NewlyShown;
      EveryRun(front);
      StepKeepsInv(RunAll(front), ops[|ops| - 1]);
    }
  }

  lemma IncreasingCountsOnce(s: seq<Frame>, f: Frame)
    requires Increasing(s)
    ensures multiset(s)[f] <= 1
  {
    if f in s {
      var i :| 0 <= i < |s| && s[i] == f;
      assert s == s[..i] + [f] + s[i + 1..];
      forall x | x in s[..i] || x in s[i + 1..] ensures x != f {
        var a :| 0 <= a < |s| && a != i && s[a] == x;
        assert s[a].id < s[i].id || s[i].id < s[a].id;
      }
    }
  }

  /**
   * Conservation: after any run, every frame the layer accepted is either held, once, or
   * has been handed back, once; nothing else is held or was handed back.
   */
  lemma FramesAreConserved(ops: seq<Op>, f: Frame)
    requires Arrives(ops)
    ensures var r := RunAll(ops);
            multiset(Held(r.layer))[f] + multiset(r.given)[f] == if f in r.accepted then 1 else 0
  {
    EveryRun(ops);
    var r := RunAll(ops);
    IncreasingCountsOnce(r.accepted, f);
    assert (multiset(Held(r.layer)) + multiset(r.given))[f] == multiset(r.accepted)[f];
  }

  /**
   * Presentation: frames go on screen in arrival order, none twice; the frame on screen is
   * the last one put there; and the queued ones all come after it.
   */
  lemma ShownInArrivalOrder(ops: seq<Op>)
    requires Arrives(ops)
    ensures var r := RunAll(ops);
            && Increasing(r.shown)
            && (r.layer.pre.Some? ==> r.shown != [] && r.shown[|r.shown| - 1] == r.layer.pre.value)
            && forall f, g :: f in r.shown && g in r.layer.queue ==> f.id < g.id
  {
    EveryRun(ops);
    SplitIncreasing(RunAll(ops).shown, RunAll(ops).layer.queue);
  }

  lemma SplitIncreasing(s: seq<Frame>, t: seq<Frame>)
    requires Increasing(s + t)
    ensures Increasing(s) && forall f, g :: f in s && g in t ==> f.id < g.id
  {
    assert forall i :: 0 <= i < |s| ==> (s + t)[i] == s[i];
    forall f, g | f in s && g in t ensures f.id < g.id {
      var i :| 0 <= i < |s| && s[i] == f;
      var j :| 0 <= j < |t| && t[j] == g;
      assert (s + t)[i].id < (s + t)[|s| + j].id;
    }
  }

  /** A descriptor offered for display, when no de-interlacer output replaces it, is one the layer still holds. */
  lemma DisplayedIsHeld(ops: seq<Op>)
    requires Arrives(ops) && RunAll(ops).layer.diFd < 0
    ensures var l := RunAll(ops).layer;
            BufferFd(l) == -1 || exists f :: f in Held(l) && BufferFd(l) == f.fd
  {
    EveryRun(ops);
    OfferedIsHeld(RunAll(ops).layer);
  }

  lemma OfferedIsHeld(l: Layer)
    requires Wf(l) && l.diFd < 0
    ensures BufferFd(l) == -1 || exists f :: f in Held(l) && BufferFd(l) == f.fd
  {
  }

  // ---- mQueuedFrames ----

  ghost predicate CountIsExact(l: Layer) {
    l.queuedFrames == |Held(l)|
  }

  /** The step keeps the frame on screen while it resets the counter: HOLD_FRAME's flush. */
  ghost predicate KeepsOnScreen(l: Layer, op: Op) {
    && l.pre.Some? && (l.link.isVt || l.link.needRelease) && l.link.connected
    && ((op.OpFlush? && op.keepLast && !op.disconnect)
        || (op.OpInterrupt? && l.link.isVt && l.status == HoldFrame))
  }

  lemma FlushCount(l: Layer, disconnect: bool, keepLast: bool)
    requires Wf(l) && CountIsExact(l)
    ensures CountIsExact(Flush(l, disconnect, keepLast).layer)
       <==> !KeepsOnScreen(l, OpFlush(disconnect, keepLast))
  {
  }

  lemma HandleStatusCount(l: Layer)
    requires Wf(l) && CountIsExact(l) && l.link.isVt
    ensures CountIsExact(HandleStatus(l).layer) <==> !KeepsOnScreen(l, OpInterrupt(0))
  {
    match l.status
    case Blank => FlushCount(l.(status := Show), false, false);
    case Hide => FlushCount(l, false, false);
    case ColorOnce =>
      FlushCount(if BufferFd(l) >= 0 || l.queue != [] then l.(status := Show) else l, false, false);
    case ColorAlways => FlushCount(l, false, false);
    case HoldFrame => FlushCount(l, false, true);
    case ColorDisable =>
    case Show =>
  }

  lemma SetTunnelCount(l: Layer, channel: int, ok: bool)
    requires Wf(l) && CountIsExact(l)
    ensures CountIsExact(SetTunnel(l, channel, ok).layer)
  {
  }

  lemma UpdateReleaseCount(l: Layer)
    requires Wf(l) && CountIsExact(l)
    ensures CountIsExact(Update(l).layer) && CountIsExact(Release(l).layer)
  {
    if l.queue != [] { ExpiredCountBound(l, l.queue); }
  }

  /** A step keeps the counter equal to the number of frames held exactly when it is not such a flush. */
  lemma StepCountIff(l: Layer, op: Op)
    requires Wf(l) && CountIsExact(l)
    ensures CountIsExact(Step(l, op).layer) <==> !KeepsOnScreen(l, op)
  {
    match op
    case OpDeliver(frames) => DeliverAdds(l, frames);
    case OpUpdate => UpdateReleaseCount(l);
    case OpRelease => UpdateReleaseCount(l);
    case OpFlush(disconnect, keepLast) => FlushCount(l, disconnect, keepLast);
    case OpInterrupt(fd) => if l.link.isVt { HandleStatusCount(l); }
    case OpClearUpdateFlag => FlushCount(l, true, false);
    case OpSetTunnel(channel, ok) => SetTunnelCount(l, channel, ok);
    case _ =>
  }

  /** No HOLD_FRAME command, and no direct flush that keeps the last frame. */
  ghost predicate NeverHolds(ops: seq<Op>) {
    forall op :: op in ops ==> op != OpCommand(HoldFrame) && !(op.OpFlush? && op.keepLast && !op.disconnect)
  }

  lemma {:induction false} StatusNotHold(l: Layer, op: Op)
    requires l.status != HoldFrame && op != OpCommand(HoldFrame)
    ensures Step(l, op).layer.status != HoldFrame
  {
    match op
    case OpInterrupt(fd) => InterruptStatus(l, fd);
    case OpSetTunnel(channel, ok) => SetTunnelStatus(l, channel, ok);
    case _ =>
  }

  lemma InterruptStatus(l: Layer, fd: int)
    requires l.status != HoldFrame
    ensures Interrupt(l, fd).layer.status != HoldFrame
  {
    var o := HandleStatus(l);
    assert o.layer.status != HoldFrame;
    assert FreeSolidColor(FetchSolidColor(o.layer, fd)).status == o.layer.status;
  }

  lemma SetTunnelStatus(l: Layer, channel: int, ok: bool)
    ensures SetTunnel(l, channel, ok).layer.status == l.status
  {
  }

  /** Over a whole run without HOLD_FRAME, `mQueuedFrames` is the number of frames held. */
  lemma {:induction false} QueuedFramesIsHeldCount(ops: seq<Op>)
    requires Arrives(ops) && NeverHolds(ops)
    ensures CountIsExact(RunAll(ops).layer) && RunAll(ops).layer.status != HoldFrame
  {
    if ops == [] {
    } else {
      var front, op := ops[..|ops| - 1], ops[|ops| - 1];
      PrefixArrives(ops, |front|);
      assert forall o :: o in front ==> o in ops;
      QueuedFramesIsHeldCount(front);
      EveryRun(front);
      assert op in ops;
      StepCountIff(RunAll(front).layer, op);
      StatusNotHold(RunAll(front).layer, op);
    }
  }

  // ---- letting go ----

  /**
   * The full flush of teardown and tunnel changes empties the layer exactly when the
   * layer is still a tunnel layer or was marked for release. A layer turned into a colour
   * or another sideband by `setColor`/`setSidebandStream` is neither: it keeps its frames.
   */
  lemma FullFlushEmptiesIff(l: Layer)
    requires Wf(l)
    ensures Held(Flush(l, true, false).layer) == [] <==> (Held(l) == [] || l.link.isVt || l.link.needRelease)
  {
  }

  // ---- two runs from the start ----

  const ONE := Frame(0, 7, -1)

  lemma RunMore(ops: seq<Op>, op: Op)
    ensures RunAll(ops + [op]) == Advance(RunAll(ops), op)
    ensures Arrives(ops) && Increasing(RunAll(ops + [op]).accepted) ==> Arrives(ops + [op])
  {
    assert (ops + [op])[..|ops|] == ops;
    ArrivesMore(ops, ops + [op]);
  }

  lemma ArrivesMore(ops: seq<Op>, more: seq<Op>)
    requires |more| == |ops| + 1 && more[..|ops|] == ops
    ensures Arrives(ops) && Increasing(RunAll(more).accepted) ==> Arrives(more)
  {
    forall n | 0 < n <= |ops| ensures more[..n] == ops[..n] {}
    assert more[..|more|] == more;
  }

  lemma PlainMore(ops: seq<Op>, op: Op)
    requires Arrives(ops) && !op.OpDeliver?
    ensures Arrives(ops + [op]) && RunAll(ops + [op]).layer == Step(RunAll(ops).layer, op).layer
  {
    RunMore(ops, op);
    assert ops[..|ops|] == ops;
    assert RunAll(ops + [op]).accepted == RunAll(ops).accepted;
  }

  /** A layer joins a tunnel and one frame is delivered. */
  lemma OneDelivered()
    ensures var ops := [OpSetTunnel(0, true)] + [OpDeliver([ONE])];
            var r := RunAll(ops);
            && Arrives(ops) && r.accepted == [ONE]
            && r.layer == Deliver(SetTunnel(INITIAL, 0, true).layer, [ONE]).layer
  {
    assert RunAll([]) == START;
    RunMore([], OpSetTunnel(0, true));
    assert [] + [OpSetTunnel(0, true)] == [OpSetTunnel(0, true)];
    RunMore([OpSetTunnel(0, true)], OpDeliver([ONE]));
  }

  lemma OneShown(d: Layer)
    requires Wf(d) && d.link.isVt && d.queue == [ONE] && d.cur.None? && d.pre.None? && !d.refreshed
    ensures var u := Update(d).layer; var r := Release(u).layer;
            && r.queue == [] && r.cur.None? && r.pre == Some(ONE) && r.link.isVt
            && r.link.connected == d.link.connected && r.diFd == d.diFd
  {
    ExpiredCountBound(d, d.queue);
    var u := Update(d).layer;
    assert u.queue == [ONE] && u.cur == Some(ONE) && u.vtUpdate && u.timestamp == -1;
    assert Due(u, u.timestamp);
  }

  lemma HoldOne(r: Layer)
    requires r.queue == [] && r.cur.None? && r.pre == Some(ONE) && r.link.isVt && r.link.connected && r.diFd < 0
    ensures var l := Interrupt(r.(status := HoldFrame), -1).layer;
            Held(l) == [ONE] && l.pre == Some(ONE) && l.queuedFrames == 0
  {
    var o := HandleStatus(r.(status := HoldFrame));
    assert o.layer.pre == Some(ONE) && o.layer.queue == [] && o.layer.queuedFrames == 0 && !o.layer.vtUpdate;
    assert BufferFd(o.layer) == 7;
  }

  function ShowingOne(): seq<Op> {
    [OpSetTunnel(0, true)] + [OpDeliver([ONE])] + [OpUpdate] + [OpRelease]
  }

  ghost predicate Showing(r: Layer) {
    r.queue == [] && r.cur.None? && r.pre == Some(ONE) && r.link.isVt && r.link.connected && r.diFd < 0
  }

  lemma ShowAfter(ops: seq<Op>, d: Layer)
    requires Arrives(ops) && RunAll(ops).layer == d && d.link.connected && d.diFd < 0
    requires Wf(d) && d.link.isVt && d.queue == [ONE] && d.cur.None? && d.pre.None? && !d.refreshed
    ensures Arrives(ops + [OpUpdate] + [OpRelease]) && Showing(RunAll(ops + [OpUpdate] + [OpRelease]).layer)
  {
    hide RunAll, Arrives, Update, Release;
    OneShown(d);
    PlainMore(ops, OpUpdate);
    PlainMore(ops + [OpUpdate], OpRelease);
  }

  lemma ShowingRun()
    ensures Arrives(ShowingOne()) && Showing(RunAll(ShowingOne()).layer)
  {
    OneDelivered();
    ShowAfter([OpSetTunnel(0, true)] + [OpDeliver([ONE])], Deliver(SetTunnel(INITIAL, 0, true).layer, [ONE]).layer);
  }

  /** HOLD_FRAME on a layer that shows a frame keeps the frame, and the counter says that nothing is held. */
  lemma HoldAfter(ops: seq<Op>, hold: Op, interrupt: Op)
    requires Arrives(ops) && Showing(RunAll(ops).layer) && hold == OpCommand(HoldFrame) && interrupt == OpInterrupt(-1)
    ensures Arrives(ops + [hold] + [interrupt])
    ensures var l := RunAll(ops + [hold] + [interrupt]).layer;
            Held(l) == [ONE] && l.pre == Some(ONE) && l.queuedFrames == 0
  {
    HoldOne(RunAll(ops).layer);
    PlainMore(ops, hold);
    PlainMore(ops + [hold], interrupt);
  }

  /** A run from the start that ends so. */
  lemma HoldFrameRun(ops: seq<Op>)
    requires ops == ShowingOne()
    ensures Arrives(ops + [OpCommand(HoldFrame)] + [OpInterrupt(-1)])
    ensures var l := RunAll(ops + [OpCommand(HoldFrame)] + [OpInterrupt(-1)]).layer;
            Held(l) == [ONE] && l.pre == Some(ONE) && l.queuedFrames == 0
  {
    ShowingRun();
    HoldAfter(ops, OpCommand(HoldFrame), OpInterrupt(-1));
  }

  /** A run in which the flush of teardown leaves a frame with a layer that has become a colour. */
  lemma NonTunnelFlushRun()
    ensures var ops := [OpSetTunnel(0, true)] + [OpDeliver([ONE])] + [OpSetNonTunnel] + [OpFlush(true, false)];
            var l := RunAll(ops).layer;
            Arrives(ops) && Held(l) == [ONE] && l.link.connected
  {
    var ops := [OpSetTunnel(0, true)] + [OpDeliver([ONE])];
    OneDelivered();
    RunMore(ops, OpSetNonTunnel);
    RunMore(ops + [OpSetNonTunnel], OpFlush(true, false));
  }
}
