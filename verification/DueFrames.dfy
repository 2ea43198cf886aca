/**
 * When a frame comes on screen: not before its own timestamp says so, and what is offered
 * for display is what the following release puts on screen (hwc2/Hwc2Layer.cpp).
 */
module DueFrames {
  import opened VideoTunnelTypes
  import opened LayerSpec
  import opened LayerRuns

  /** Frame f may come on screen: its timestamp is absent, reached, or a second or more ahead. */
  predicate Ripe(c: Clock, f: Frame) {
    c.gameMode || f.ts == -1 || f.ts < c.expected || f.ts >= c.expected + 1_000_000
  }

  /** The timestamp that decides is that of the current frame. */
  ghost predicate Stamped(l: Layer) {
    l.cur.Some? ==> l.timestamp == l.cur.value.ts
  }

  lemma FlushStamped(l: Layer, disconnect: bool, keepLast: bool)
    requires Stamped(l)
    ensures Stamped(Flush(l, disconnect, keepLast).layer)
  {
  }

  lemma InterruptStamped(l: Layer, fd: int)
    requires Stamped(l)
    ensures Stamped(Interrupt(l, fd).layer)
  {
    FlushStamped(l.(status := Show), false, false);
    FlushStamped(l, false, false);
    FlushStamped(l, false, true);
    var o := HandleStatus(l);
    assert Stamped(o.layer);
    assert Stamped(FreeSolidColor(FetchSolidColor(o.layer, fd)));
  }

  lemma SetTunnelStamped(l: Layer, channel: int, ok: bool)
    requires Stamped(l)
    ensures Stamped(SetTunnel(l, channel, ok).layer)
  {
    FlushStamped(BecomeTunnel(l), true, false);
  }

  lemma StepStamped(l: Layer, op: Op)
    requires Stamped(l)
    ensures Stamped(Step(l, op).layer)
  {
    match op
    case OpUpdate => if l.queue != [] { ExpiredCountBound(l, l.queue); }
    case OpFlush(disconnect, keepLast) => FlushStamped(l, disconnect, keepLast);
    case OpInterrupt(fd) => InterruptStamped(l, fd);
    case OpClearUpdateFlag => FlushStamped(l, true, false);
    case OpSetTunnel(channel, ok) => SetTunnelStamped(l, channel, ok);
    case _ =>
  }

  lemma {:induction false} RunStamped(ops: seq<Op>)
    ensures Stamped(RunAll(ops).layer)
  {
    if ops != [] {
      RunStamped(ops[..|ops| - 1]);
      StepStamped(RunAll(ops[..|ops| - 1]).layer, ops[|ops| - 1]);
    }
  }

  /** Nothing but a release brings another frame on screen, and then it is the current one. */
  lemma OnlyReleaseShows(l: Layer, op: Op)
    requires Wf(l)
    ensures var l' := Step(l, op).layer;
            l'.pre.Some? && l'.pre != l.pre ==> op.OpRelease? && l'.pre == l.cur && Due(l, l.timestamp)
  {
    if op.OpDeliver? {
      DeliverAdds(l, op.frames);
    } else if NewlyShown(l, op) == [] {
      var k := StepSheds(l, op);
    } else {
      ReleaseShows(l);
    }
  }

  /**
   * Over any run, whatever comes on screen is a frame that may: game mode is on, or its own
   * timestamp is absent, before the expected time, or a second or more behind it.
   */
  lemma ShownOnlyWhenRipe(ops: seq<Op>, op: Op)
    requires Arrives(ops)
    ensures var l := RunAll(ops).layer; var l' := Step(l, op).layer;
            l'.pre.Some? && l'.pre != l.pre ==> op.OpRelease? && Ripe(l.clock, l'.pre.value)
  {
    EveryRun(ops);
    RunStamped(ops);
    OnlyReleaseShows(RunAll(ops).layer, op);
  }

  /**
   * After an update a release puts the head of the queue on screen exactly when the head's
   * own timestamp allows it, refreshed or not; otherwise the screen and the queue stay as they are.
   */
  lemma UpdateThenRelease(l: Layer)
    requires Wf(l) && l.link.isVt && l.queue != []
    ensures var u := Update(l).layer; var r := Release(u).layer;
            && u.queue != [] && u.cur == Some(u.queue[0]) && u.pre == l.pre && u.clock == l.clock
            && (if Ripe(l.clock, u.queue[0]) then r.pre == Some(u.queue[0]) && r.queue == u.queue[1..]
                else r.pre == l.pre && r.queue == u.queue)
  {
    ExpiredCountBound(l, l.queue);
    var u := Update(l).layer;
    assert Due(u, u.timestamp) <==> Ripe(l.clock, u.queue[0]);
  }

  /**
   * What a tunnel layer offers for display between an update and the release after it is
   * the frame that the release leaves on screen: the new head when it may be shown, and
   * the old frame when it may not.
   */
  lemma OfferedIsShown(l: Layer)
    requires Wf(l) && l.link.isVt && l.queue != [] && l.diFd < 0
    ensures var u := Update(l).layer;
            && BufferFd(u) == FdOf(Release(u).layer.pre)
            && u.queue != []
            && BufferFd(u) == FdOf(if Ripe(l.clock, u.queue[0]) then Some(u.queue[0]) else l.pre)
  {
    UpdateThenRelease(l);
    ExpiredCountBound(l, l.queue);
  }

  /**
   * The expected time is that of the display, in microseconds, cut off toward zero: a
   * timestamp is before it exactly when it is by a full microsecond, or by less before time 0.
   */
  lemma PresentTimeUnit(l: Layer, ns: int, ts: int)
    requires l.link.isVt
    ensures var c := SetPresentTime(l, ns).clock;
            && (ts < c.expected <==> if ns >= 0 then 1000 * (ts + 1) <= ns else 1000 * ts < ns)
            && c.gameMode == l.clock.gameMode
  {
  }

  // ---- a layer that got an ordinary buffer ----

  /** A layer marked for release is cleared at the end of the frame: everything goes back, in order, and it leaves. */
  lemma MarkedIsCleared(l: Layer)
    requires Wf(l) && l.link.connected
    ensures var o := ClearUpdateFlag(l);
            if l.link.needRelease
            then Frames(o.gives) == Held(l) && Held(o.layer) == [] && o.layer.link.tunnelId < 0
                 && !o.layer.link.needRelease && (l.link.tunnelId >= 0 ==> !o.layer.link.connected)
            else o.gives == [] && o.layer == l
  {
    FlushGivesHeld(l, true);
  }

  /** So an ordinary buffer set on a tunnel layer ends its tunnel with that frame. */
  lemma OrdinaryBufferEndsTunnel(l: Layer)
    requires Wf(l) && l.link.isVt && l.link.connected
    ensures var o := ClearUpdateFlag(SetBuffer(l));
            && Frames(o.gives) == Held(l) && Held(o.layer) == [] && o.layer.link.tunnelId < 0
            && !o.layer.link.isVt && !o.layer.link.needRelease
  {
    MarkedIsCleared(SetBuffer(l));
  }

  // ---- what a command does to the plane ----

  /** There is nothing to show: the plane shows the colour buffer, waits for the new tunnel, or is blanked. */
  function Fallback(l: Layer): Decision {
    if l.colour.hasHandle then ShowColor else if l.link.idUpdate then Proceed else BlankPlane
  }

  /** The commands that clear the video: the plane is blanked, and blanking happens once. */
  lemma ClearingDecides(l: Layer)
    requires Wf(l) && l.link.isVt && l.link.connected && (l.status == Blank || l.status == Hide)
    ensures var o := HandleStatus(l);
            && Decide(o.layer, o.ret == 1) == BlankPlane && Held(o.layer) == []
            && o.layer.status == if l.status == Blank then Show else Hide
  {
    ClearFrame(l);
    FullFlushEmptiesIff(l);
  }

  /** The commands that drop the queue: colour always replaces the video, holding keeps the frame on screen. */
  lemma DroppingDecides(l: Layer)
    requires Wf(l) && l.link.isVt && l.link.connected && l.diFd < 0
    requires l.status == ColorOnce || l.status == ColorAlways || l.status == HoldFrame
    ensures var o := HandleStatus(l);
            && o.layer.queue == [] && o.layer.pre == (if l.status == HoldFrame then l.pre else None)
            && Decide(o.layer, o.ret == 1) == if o.layer.pre.Some? then Proceed else Fallback(l)
  {
  }

  /**
   * Any other time video is shown whenever there is a frame to show. Disabling the colour
   * frees its buffer, and a pending update with it.
   */
  lemma ShowingDecides(l: Layer)
    requires Wf(l) && l.link.isVt && l.diFd < 0 && (l.status == Show || l.status == ColorDisable)
    ensures var o := HandleStatus(l);
            && Held(o.layer) == Held(l) && o.gives == [] && o.layer.status == Show
            && BufferFd(o.layer) == (if l.status == ColorDisable && l.colour.fd >= 0 then FdOf(l.pre) else BufferFd(l))
            && Decide(o.layer, o.ret == 1) == if BufferFd(o.layer) >= 0 then Proceed else Fallback(l)
  {
  }

  // ---- the first frame of a tunnel ----

  /** The layer joins another tunnel. */
  predicate Switches(l: Layer, op: Op) {
    op.OpSetTunnel? && op.channel != l.link.tunnelId && SetTunnel(l, op.channel, op.ok).ret == 0
  }

  /** The update finds a frame that may be shown. */
  predicate FindsRipe(l: Layer, op: Op)
    requires Wf(l)
  {
    UpdateKeepsWf(l);
    op.OpUpdate? && l.link.isVt && l.queue != [] && Update(l).layer.queue != []
    && Ripe(l.clock, Update(l).layer.queue[0])
  }

  /** Since the layer joined its tunnel no update has found a frame of it that may be shown. */
  ghost predicate AwaitsFirst(ops: seq<Op>)
    requires Arrives(ops)
  {
    if ops == [] then false
    else
      var front, op := ops[..|ops| - 1], ops[|ops| - 1];
      PrefixArrives(ops, |front|);
      EveryRun(front);
      Switches(RunAll(front).layer, op) || (AwaitsFirst(front) && !FindsRipe(RunAll(front).layer, op))
  }

  /** What a step does to `mTunnelIdUpdate`. */
  lemma StepAwaits(l: Layer, op: Op)
    requires Wf(l)
    ensures Step(l, op).layer.link.idUpdate <==> Switches(l, op) || (l.link.idUpdate && !FindsRipe(l, op))
  {
    match op
    case OpUpdate => if l.link.isVt && l.queue != [] { UpdateThenRelease(l); ExpiredCountBound(l, l.queue); }
    case OpSetTunnel(channel, ok) => SwitchAwaits(l, channel, ok);
    case OpInterrupt(fd) => InterruptAwaits(l, fd);
    case _ =>
  }

  lemma SwitchAwaits(l: Layer, channel: int, ok: bool)
    requires Wf(l)
    ensures SetTunnel(l, channel, ok).layer.link.idUpdate <==>
              Switches(l, OpSetTunnel(channel, ok)) || l.link.idUpdate
  {
    var b := BecomeTunnel(l);
    assert b.link == l.link.(isVt := true);
  }

  lemma InterruptAwaits(l: Layer, fd: int)
    ensures Interrupt(l, fd).layer.link.idUpdate == l.link.idUpdate
  {
    assert HandleStatus(l).layer.link.idUpdate == l.link.idUpdate;
  }

  /**
   * Over any run `mTunnelIdUpdate`, which keeps the plane from being blanked for want of a
   * frame, is set exactly from the moment the layer joins a tunnel until an update finds
   * the first frame that may be shown.
   */
  lemma {:induction false} TunnelAwaitsFirstFrame(ops: seq<Op>)
    requires Arrives(ops)
    ensures RunAll(ops).layer.link.idUpdate <==> AwaitsFirst(ops)
  {
    if ops != [] {
      hide Step, Switches, FindsRipe, Arrives, Wf;
      var front := ops[..|ops| - 1];
      PrefixArrives(ops, |front|);
      EveryRun(front);
      TunnelAwaitsFirstFrame(front);
      StepAwaits(RunAll(front).layer, ops[|ops| - 1]);
    }
  }
}
