/**
 * The fence of a frame's presentation (hwc2/Hwc2Layer.cpp, common/base/DrmFramebuffer.cpp):
 * a history of what the display set for a layer, kept beside the layer's own two fences, and
 * exactly when a frame goes back with the fence of its own presentation.
 */
module PresentedFences {
  import opened VideoTunnelTypes
  import opened DrmSync
  import opened LayerSpec
  import opened LayerRuns

  /**
   * `latest` is the fence the display set last and no release has settled yet; `own` is the
   * one settled last for the frame that is on screen, if the display has set any for it.
   */
  datatype Trace = Trace(latest: Option<Fence>, own: Option<Fence>)

  /** A release that gets as far as settling the display's fence: it shows a frame, or answers a refresh. */
  predicate Refreshes(l: Layer) {
    l.link.isVt && l.refreshed && !(l.vtUpdate && Due(l, l.timestamp))
  }

  predicate Settles(l: Layer, op: Op) {
    op.OpRelease? && (Refreshes(l) || (Promotes(l) && (l.pre.Some? || l.cur.Some?)))
  }

  /** The step takes the colour buffer, or hides the video: nothing of the layer is on display. */
  predicate Blanks(l: Layer, op: Op) {
    match op
    case OpFreeColour => l.colour.fd >= 0
    case OpInterrupt(fd) => l.link.isVt && (l.status == Hide || FreesColour(l, fd))
    case _ => false
  }

  predicate FreesColour(l: Layer, fd: int) {
    if l.status == ColorDisable then l.colour.fd >= 0
    else
      var o := HandleStatus(l);
      Decide(o.layer, o.ret == 1).ShowColor? && FetchSolidColor(o.layer, fd).colour.fd >= 0
  }

  function Track(t: Trace, l: Layer, op: Op): Trace {
    if Settles(l, op) then Trace(None, if Promotes(l) || t.latest.Some? then t.latest else t.own)
    else if op.OpPresented? then t.(latest := op.fence)
    else if Blanks(l, op) then t.(latest := Some(NoFence))
    else t
  }

  /** The layer's own fences agree with the history. */
  ghost predicate Tracked(t: Trace, l: Layer) {
    && l.fences.cur == t.latest
    && (l.pre.Some? ==> ReportPoints(l.fences.prev) == ReportPoints(t.own))
  }

  /**
   * The fence a frame has to go back with: that of its presentation for the one on screen,
   * the display's last one for the current one, none for a frame that was only queued.
   */
  function Proper(t: Trace, l: Layer, f: Frame): set<nat> {
    if l.pre == Some(f) then ReportPoints(t.own)
    else if l.cur == Some(f) then ReportPoints(t.latest)
    else {}
  }

  ghost predicate GivesProper(t: Trace, l: Layer, gives: seq<GiveBack>) {
    forall i :: 0 <= i < |gives| ==> Points(gives[i].fence) == Proper(t, l, gives[i].frame)
  }

  /** A frame is shown for which the display has set no fence, while one of an earlier frame is there. */
  predicate ShowsUnpresented(l: Layer, op: Op) {
    op.OpRelease? && Promotes(l) && l.cur.Some? && l.fences.cur.None? && ReportPoints(l.fences.prev) != {}
  }

  /** The current frame is dropped as late although the display has set a fence for it. */
  predicate DropsPresented(l: Layer, op: Op) {
    op.OpUpdate? && l.link.isVt && l.cur.Some? && l.queue != [] && DropCount(l) > 0 && ReportPoints(l.fences.cur) != {}
  }

  /** The buffer information of a layer that is no tunnel layer, but still shows a frame, is cleared. */
  predicate ClearsShown(l: Layer, op: Op) {
    && (op.OpSetBuffer? || op.OpSetNonTunnel? || op.OpSetTunnel?) && !l.link.isVt && l.pre.Some?
    && ReportPoints(l.fences.cur) != ReportPoints(l.fences.prev)
  }

  /** The three ways in which a frame comes to a fence that is not its own. */
  predicate Mixes(l: Layer, op: Op) {
    ShowsUnpresented(l, op) || DropsPresented(l, op) || ClearsShown(l, op)
  }

  // ---- hand-backs ----

  lemma PlainProper(t: Trace, l: Layer, q: seq<Frame>)
    requires forall i :: 0 <= i < |q| ==> l.pre != Some(q[i]) && l.cur != Some(q[i])
    ensures GivesProper(t, l, Plain(q))
  {
  }

  lemma JoinProper(t: Trace, l: Layer, a: seq<GiveBack>, b: seq<GiveBack>)
    requires GivesProper(t, l, a) && GivesProper(t, l, b)
    ensures GivesProper(t, l, a + b)
  {
  }

  /** The frames held are all different, and the current one heads the queue. */
  lemma HeldDiffer(l: Layer)
    requires Wf(l) && Increasing(Held(l))
    ensures forall i :: 0 <= i < |l.queue| ==> l.pre != Some(l.queue[i])
    ensures forall i :: 0 < i < |l.queue| ==> l.cur != Some(l.queue[i])
    ensures l.cur.Some? ==> l.cur != l.pre
  {
    var p := |OptSeq(l.pre)|;
    assert forall i :: 0 <= i < |l.queue| ==> Held(l)[p + i] == l.queue[i];
    if l.pre.Some? { assert Held(l)[0] == l.pre.value; }
  }

  lemma FlushGivesProper(t: Trace, l: Layer, dropPre: bool)
    requires Wf(l) && Increasing(Held(l)) && Tracked(t, l)
    ensures GivesProper(t, l, FlushGives(l, dropPre))
  {
    HeldDiffer(l);
    PlainProper(t, l, Rest(l));
    var first := if dropPre then OnScreenGive(l.pre, l.fences.prev) else [];
    assert GivesProper(t, l, first);
    assert GivesProper(t, l, OnScreenGive(l.cur, l.fences.cur));
    JoinProper(t, l, first, OnScreenGive(l.cur, l.fences.cur));
    JoinProper(t, l, first + OnScreenGive(l.cur, l.fences.cur), Plain(Rest(l)));
  }

  /** A step that leaves the fences alone and keeps the frame on screen, or takes it off, keeps track. */
  lemma FlushTracked(t: Trace, l: Layer, disconnect: bool, keepLast: bool)
    requires Wf(l) && Increasing(Held(l)) && Tracked(t, l)
    ensures var o := Flush(l, disconnect, keepLast); Tracked(t, o.layer) && GivesProper(t, l, o.gives)
  {
    FlushGivesProper(t, l, !keepLast || disconnect);
  }

  lemma UpdateProperIff(t: Trace, l: Layer)
    requires Wf(l) && Increasing(Held(l)) && Tracked(t, l)
    ensures Tracked(t, Update(l).layer)
    ensures GivesProper(t, l, Update(l).gives) <==> !DropsPresented(l, OpUpdate)
  {
    if l.link.isVt && l.queue != [] {
      ExpiredCountBound(l, l.queue);
      HeldDiffer(l);
      var d := DropCount(l);
      assert Update(l).gives == Plain(l.queue[..d]);
      if DropsPresented(l, OpUpdate) {
        assert Update(l).gives[0].frame == l.cur.value;
      }
    }
  }

  lemma ReleaseProperIff(t: Trace, l: Layer)
    requires Wf(l) && Tracked(t, l)
    ensures GivesProper(t, l, Release(l).gives)
    ensures Tracked(Track(t, l, OpRelease), Release(l).layer) <==> !ShowsUnpresented(l, OpRelease)
  {
    if Refreshes(l) {
      assert Release(l) == Outcome(ShiftFence(l.(refreshed := false)), [], 0);
      assert !Promotes(l);
    } else if Promotes(l) {
      assert Release(l) == Promote(l.(refreshed := false));
    } else {
      assert Release(l).gives == [] && Release(l).layer.fences == l.fences && Release(l).layer.pre == l.pre;
    }
  }

  lemma HandleStatusProper(t: Trace, l: Layer)
    requires Wf(l) && Increasing(Held(l)) && Tracked(t, l)
    ensures var o := HandleStatus(l);
            && GivesProper(t, l, o.gives)
            && o.layer.fences.prev == l.fences.prev && (o.layer.pre == l.pre || o.layer.pre.None?)
            && o.layer.fences.cur == if l.status == Hide || (l.status == ColorDisable && l.colour.fd >= 0)
                                     then Some(NoFence) else l.fences.cur
  {
    match l.status
    case Blank => StatusFlush(t, l, l.(status := Show), false);
    case Hide => StatusFlush(t, l, l, false);
    case ColorOnce =>
      StatusFlush(t, l, if BufferFd(l) >= 0 || l.queue != [] then l.(status := Show) else l, false);
    case ColorAlways => StatusFlush(t, l, l, false);
    case HoldFrame => StatusFlush(t, l, l, true);
    case ColorDisable =>
    case Show =>
  }

  lemma StatusFlush(t: Trace, l: Layer, l1: Layer, keepLast: bool)
    requires Wf(l) && Increasing(Held(l)) && Tracked(t, l) && l1 == l.(status := l1.status)
    ensures var o := Flush(l1, false, keepLast);
            && GivesProper(t, l, o.gives) && o.layer.fences == l.fences && (o.layer.pre == l.pre || o.layer.pre.None?)
  {
    assert Held(l1) == Held(l);
    FlushTracked(t, l1, false, keepLast);
    FlushFrame(l1, false, keepLast);
  }

  /** The colour buffer is fetched, shown and freed: the fence the display set last is gone if there was one. */
  lemma ColourFences(l: Layer, fd: int)
    ensures var c := FreeSolidColor(FetchSolidColor(l, fd));
            && c.pre == l.pre && c.fences.prev == l.fences.prev
            && c.fences.cur == if FetchSolidColor(l, fd).colour.fd >= 0 then Some(NoFence) else l.fences.cur
  {
  }

  lemma InterruptProper(t: Trace, l: Layer, fd: int)
    requires Wf(l) && Increasing(Held(l)) && Tracked(t, l)
    ensures var o := Interrupt(l, fd);
            Tracked(Track(t, l, OpInterrupt(fd)), o.layer) && GivesProper(t, l, o.gives)
  {
    if l.link.isVt {
      HandleStatusProper(t, l);
      var o := HandleStatus(l);
      ColourFences(o.layer, fd);
      assert l.status == ColorDisable ==> o.layer == FreeSolidColor(l.(status := Show));
      assert l.status == ColorDisable ==> FetchSolidColor(o.layer, fd) == o.layer && o.layer.colour.fd < 0;
      hide HandleStatus, GivesProper, FetchSolidColor, FreeSolidColor, Decide, Wf;
    } else {
      NoneProper(t, l);
    }
  }

  lemma ClearProperIff(t: Trace, l: Layer, op: Op)
    requires Tracked(t, l) && (op.OpSetBuffer? || op.OpSetNonTunnel? || op.OpSetTunnel?)
    ensures Tracked(t, ClearInfo(l)) <==> !ClearsShown(l, op)
  {
  }

  /** On a layer whose cleared fences still agree, a change of tunnel is a flush. */
  lemma SwitchProper(t: Trace, b: Layer, channel: int, ok: bool)
    requires Wf(b) && Increasing(Held(b)) && Tracked(t, b)
    ensures var o := SwitchTunnel(b, channel, ok); Tracked(t, o.layer) && GivesProper(t, b, o.gives)
  {
    FlushTracked(t, b, true, false);
    FlushFrame(b, true, false);
  }

  /** Otherwise the flush hands the frame on screen back with the wrong fence. */
  lemma SwitchImproper(t: Trace, b: Layer, channel: int, ok: bool)
    requires Wf(b) && b.link.isVt && b.pre.Some? && ReportPoints(b.fences.prev) != ReportPoints(t.own)
    ensures !GivesProper(t, b, SwitchTunnel(b, channel, ok).gives)
  {
    assert Flush(b, true, false).gives == FlushGives(b, true);
    assert FlushGives(b, true)[0] == GiveBack(b.pre.value, DupOf(b.fences.prev));
  }

  lemma SetTunnelProperIff(t: Trace, l: Layer, channel: int, ok: bool)
    requires Wf(l) && Increasing(Held(l)) && Tracked(t, l)
    ensures var o := SetTunnel(l, channel, ok);
            Tracked(t, o.layer) && GivesProper(t, l, o.gives) <==> !ClearsShown(l, OpSetTunnel(channel, ok))
  {
    var b := BecomeTunnel(l);
    var o := SetTunnel(l, channel, ok);
    assert b.fences == ClearInfo(l).fences && b.pre == l.pre && b.queue == l.queue && b.cur == l.cur && b.link.isVt;
    assert Tracked(t, b) <==> !ClearsShown(l, OpSetTunnel(channel, ok)) by {
      ClearProperIff(t, l, OpSetTunnel(channel, ok));
    }
    assert Held(b) == Held(l);
    assert GivesProper(t, l, o.gives) <==> GivesProper(t, b, o.gives) by {
      forall f ensures Proper(t, l, f) == Proper(t, b, f) {}
    }
    hide BecomeTunnel, SwitchTunnel, GivesProper;
    if channel < 0 || l.link.tunnelId == channel {
      assert o.layer == b && o.gives == [];
      NoneProper(t, b);
    } else if Tracked(t, b) {
      SwitchProper(t, b, channel, ok);
    } else {
      SwitchImproper(t, b, channel, ok);
    }
  }

  lemma NoneProper(t: Trace, l: Layer)
    ensures GivesProper(t, l, [])
  {
  }

  /**
   * One operation, from a layer whose fences agree with the history: every frame it hands
   * back has the fence that is its own, and the fences still agree, exactly when the
   * operation is none of the three that mix fences up.
   */
  lemma StepProperIff(t: Trace, l: Layer, op: Op)
    requires Wf(l) && Increasing(Held(l)) && Tracked(t, l)
    ensures var o := Step(l, op);
            Tracked(Track(t, l, op), o.layer) && GivesProper(t, l, o.gives) <==> !Mixes(l, op)
  {
    hide Wf, Interrupt, SetTunnel, Update, Flush, Release;
    match op
    case OpDeliver(frames) =>
    case OpUpdate => UpdateProperIff(t, l);
    case OpRelease => ReleaseProperIff(t, l);
    case OpFlush(disconnect, keepLast) => FlushTracked(t, l, disconnect, keepLast);
    case OpInterrupt(fd) => InterruptProper(t, l, fd);
    case OpClearUpdateFlag => FlushTracked(t, l, true, false);
    case OpSetBuffer => ClearProperIff(t, l, op);
    case OpSetNonTunnel => ClearProperIff(t, l, op);
    case OpSetTunnel(channel, ok) => SetTunnelProperIff(t, l, channel, ok);
    case _ =>
  }

  // ---- runs ----

  /** The history of a run from the start. */
  function TraceAll(ops: seq<Op>): Trace {
    if ops == [] then Trace(None, None)
    else
      var front := ops[..|ops| - 1];
      Track(TraceAll(front), RunAll(front).layer, ops[|ops| - 1])
  }

  /** Operation n hands every frame back with its own fence, and the layer's fences agree with the history after it. */
  ghost predicate ProperAt(ops: seq<Op>, n: nat)
    requires n < |ops|
  {
    var t, l := TraceAll(ops[..n]), RunAll(ops[..n]).layer;
    var o := Step(l, ops[n]);
    Tracked(Track(t, l, ops[n]), o.layer) && GivesProper(t, l, o.gives)
  }

  predicate MixesAt(ops: seq<Op>, n: nat)
    requires n < |ops|
  {
    Mixes(RunAll(ops[..n]).layer, ops[n])
  }

  /** After any run the frames held are in arrival order. */
  lemma RunHeldIncreasing(ops: seq<Op>)
    requires Arrives(ops)
    ensures Wf(RunAll(ops).layer) && Increasing(Held(RunAll(ops).layer))
  {
    EveryRun(ops);
    HeldIncreasing(RunAll(ops));
  }

  lemma HeldIncreasing(r: Run)
    requires RunInv(r)
    ensures Increasing(Held(r.layer))
  {
    if r.layer.pre.Some? {
      var n := |r.shown| - 1;
      assert r.shown == r.shown[..n] + [r.layer.pre.value];
      assert r.shown + r.layer.queue == r.shown[..n] + Held(r.layer);
      SplitIncreasingTail(r.shown[..n], Held(r.layer));
    } else {
      SplitIncreasingTail(r.shown, r.layer.queue);
      assert Held(r.layer) == r.layer.queue;
    }
  }

  lemma SplitIncreasingTail(s: seq<Frame>, t: seq<Frame>)
    requires Increasing(s + t)
    ensures Increasing(t)
  {
    assert forall i :: 0 <= i < |t| ==> (s + t)[|s| + i] == t[i];
  }

  /**
   * Over any run, every frame goes back with the fence of its own presentation, the current
   * one with the display's last fence, and one that was only queued with none, and the
   * layer's fences agree with the history throughout, exactly when no operation mixes them up.
   */
  lemma EveryRunProperIff(ops: seq<Op>)
    requires Arrives(ops)
    ensures (forall n :: 0 <= n < |ops| ==> ProperAt(ops, n)) <==> (forall n :: 0 <= n < |ops| ==> !MixesAt(ops, n))
  {
    hide MixesAt, ProperAt, Tracked, Arrives, RunAll, TraceAll;
    if forall n :: 0 <= n < |ops| ==> ProperAt(ops, n) {
      forall n | 0 <= n < |ops| ensures !MixesAt(ops, n) {
        TrackedThrough(ops, n);
        StepProperHere(ops, n);
      }
    }
    if forall n :: 0 <= n < |ops| ==> !MixesAt(ops, n) {
      forall n | 0 <= n < |ops| ensures ProperAt(ops, n) {
        UnmixedTracked(ops, n);
        StepProperHere(ops, n);
      }
    }
  }

  lemma StepProperHere(ops: seq<Op>, n: nat)
    requires Arrives(ops) && n < |ops| && Tracked(TraceAll(ops[..n]), RunAll(ops[..n]).layer)
    ensures ProperAt(ops, n) <==> !MixesAt(ops, n)
  {
    PrefixArrives(ops, n);
    RunHeldIncreasing(ops[..n]);
    StepProperIff(TraceAll(ops[..n]), RunAll(ops[..n]).layer, ops[n]);
  }

  lemma TrackedThrough(ops: seq<Op>, n: nat)
    requires n <= |ops| && forall k :: 0 <= k < n ==> ProperAt(ops, k)
    ensures Tracked(TraceAll(ops[..n]), RunAll(ops[..n]).layer)
  {
    if n > 0 {
      assert ProperAt(ops, n - 1);
      assert ops[..n][..n - 1] == ops[..n - 1];
    }
  }

  lemma {:induction false} UnmixedTracked(ops: seq<Op>, n: nat)
    requires Arrives(ops) && n <= |ops| && forall k :: 0 <= k < n ==> !MixesAt(ops, k)
    ensures forall k :: 0 <= k < n ==> ProperAt(ops, k)
    ensures Tracked(TraceAll(ops[..n]), RunAll(ops[..n]).layer)
  {
    hide MixesAt, ProperAt, Tracked, Arrives, RunAll, TraceAll;
    if n > 0 {
      UnmixedTracked(ops, n - 1);
      StepProperHere(ops, n - 1);
    }
    TrackedThrough(ops, n);
  }

  // ---- a run in which a frame goes back with an older frame's fence ----

  const TWO := Frame(1, 8, -1)
  const FIVE := Sync({5})

  /** Frame f is on screen, alone, and `prev` is the fence kept for it. */
  ghost predicate ShowsAlone(l: Layer, f: Frame, prev: Option<Fence>) {
    && l.queue == [] && l.cur.None? && l.pre == Some(f) && l.fences == Fences(None, prev)
    && l.link.isVt && l.link.connected && l.link.tunnelId >= 0 && !l.refreshed
  }

  /** Frame f has been delivered and waits alone. */
  ghost predicate WaitsAlone(l: Layer, f: Frame) {
    && l.queue == [f] && f.ts == -1 && l.cur.None? && l.fences.cur.None?
    && l.link.isVt && l.link.connected && l.link.tunnelId >= 0 && !l.refreshed
  }

  /** An update, perhaps a presentation, and a release show a frame without timestamp that waits. */
  lemma ShowNext(d: Layer, f: Frame, fence: Option<Fence>)
    requires WaitsAlone(d, f)
    ensures var u := Update(d).layer;
            var o := Release(u.(fences := u.fences.(cur := fence)));
            && ShowsAlone(o.layer, f, if fence.Some? then fence else d.fences.prev)
            && u.fences.cur.None?
  {
    ExpiredCountBound(d, d.queue);
    var u := Update(d).layer;
    assert u.queue == [f] && u.cur == Some(f) && u.vtUpdate && u.timestamp == -1 && Due(u, u.timestamp);
  }

  lemma FirstShown(ops: seq<Op>)
    requires Arrives(ops) && WaitsAlone(RunAll(ops).layer, ONE)
    ensures var more := ops + [OpUpdate] + [OpPresented(Some(FIVE))] + [OpRelease];
            Arrives(more) && ShowsAlone(RunAll(more).layer, ONE, Some(FIVE))
                && RunAll(more).accepted == RunAll(ops).accepted
  {
    hide RunAll, Update, Release, Arrives;
    ShowNext(RunAll(ops).layer, ONE, Some(FIVE));
    PlainStep(ops, OpUpdate);
    PlainStep(ops + [OpUpdate], OpPresented(Some(FIVE)));
    PlainStep(ops + [OpUpdate] + [OpPresented(Some(FIVE))], OpRelease);
  }

  lemma PlainStep(ops: seq<Op>, op: Op)
    requires Arrives(ops) && !op.OpDeliver?
    ensures Arrives(ops + [op]) && RunAll(ops + [op]).layer == Step(RunAll(ops).layer, op).layer
    ensures RunAll(ops + [op]).accepted == RunAll(ops).accepted
  {
    LayerRuns.PlainMore(ops, op);
    RunMore(ops, op);
  }

  lemma SecondShown(ops: seq<Op>)
    requires Arrives(ops) && ShowsAlone(RunAll(ops).layer, ONE, Some(FIVE)) && RunAll(ops).accepted == [ONE]
    ensures var more := ops + [OpDeliver([TWO])] + [OpUpdate] + [OpRelease];
            Arrives(more) && ShowsAlone(RunAll(more).layer, TWO, Some(FIVE))
  {
    hide RunAll, Update, Release, Arrives;
    var d := SecondDelivered(ops);
    ShowNext(d, TWO, None);
    assert d.fences.cur == None && Update(d).layer.fences.(cur := None) == Update(d).layer.fences;
    PlainStep(ops + [OpDeliver([TWO])], OpUpdate);
    PlainStep(ops + [OpDeliver([TWO])] + [OpUpdate], OpRelease);
  }

  lemma SecondDelivered(ops: seq<Op>) returns (d: Layer)
    requires Arrives(ops) && ShowsAlone(RunAll(ops).layer, ONE, Some(FIVE)) && RunAll(ops).accepted == [ONE]
    ensures Arrives(ops + [OpDeliver([TWO])]) && d == RunAll(ops + [OpDeliver([TWO])]).layer
    ensures WaitsAlone(d, TWO) && d.fences.prev == Some(FIVE)
  {
    hide RunAll, Arrives;
    RunMore(ops, OpDeliver([TWO]));
    d := RunAll(ops + [OpDeliver([TWO])]).layer;
    assert d == Deliver(RunAll(ops).layer, [TWO]).layer && [] + [TWO] == [TWO];
    assert RunAll(ops + [OpDeliver([TWO])]).accepted == [ONE] + [TWO];
  }

  lemma FirstWaits()
    ensures WaitsAlone(Deliver(SetTunnel(INITIAL, 0, true).layer, [ONE]).layer, ONE)
  {
  }

  /**
   * A run from the start: the display sets a fence for the first frame only, the second is
   * shown without one, and a flush hands the second back with the first one's fence.
   */
  lemma StaleFenceRun(ops: seq<Op>)
    requires ops == [OpSetTunnel(0, true)] + [OpDeliver([ONE])] + [OpUpdate] + [OpPresented(Some(FIVE))] + [OpRelease]
                    + [OpDeliver([TWO])] + [OpUpdate] + [OpRelease]
    ensures Arrives(ops) && ShowsAlone(RunAll(ops).layer, TWO, Some(FIVE))
    ensures Step(RunAll(ops).layer, OpFlush(true, false)).gives == [GiveBack(TWO, FIVE)]
  {
    hide RunAll, Arrives, SetTunnel, Deliver, Update, Release;
    var start := [OpSetTunnel(0, true)] + [OpDeliver([ONE])];
    OneDelivered();
    FirstWaits();
    FirstShown(start);
    SecondShown(start + [OpUpdate] + [OpPresented(Some(FIVE))] + [OpRelease]);
  }
}
