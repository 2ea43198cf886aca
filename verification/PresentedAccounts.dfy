/**
 * From the presentation of a frame to the fence the driver gets with its buffer: what a
 * display set for the frame on one layer is reported to the instance when the frame comes
 * back, and is in the account of the buffer until it has gone back to the driver.
 */
module PresentedAccounts {
  import opened VideoTunnelTypes
  import opened DrmSync
  import opened TunnelInstance
  import opened LayerSpec
  import opened BufferLedger
  import opened TunnelProtocol
  import opened TunnelTheorems
  import opened PresentedFences
  import LayerRuns

  /** The history of every layer, beside the run of the system. */
  type Traces = map<nat, Trace>

  function TraceStep(ts: Traces, s: Sys, step: Step): Traces {
    match step
    case Join(l, state) => ts[l := Trace(state.fences.cur, None)]
    case LayerStep(l, op) => if l in s.layers && l in ts then ts[l := Track(ts[l], s.layers[l], op)] else ts
    case _ => ts
  }

  function TracesOf(tunnel: nat, steps: seq<Step>): Traces {
    if steps == [] then map[]
    else
      var front := steps[..|steps| - 1];
      TraceStep(TracesOf(tunnel, front), RunAll(tunnel, front), steps[|steps| - 1])
  }

  ghost predicate AllTracked(ts: Traces, s: Sys) {
    forall l :: l in s.layers ==> l in ts && Tracked(ts[l], s.layers[l])
  }

  /** The step is not one of the three by which a layer mixes its fences up. */
  predicate Unmixed(s: Sys, step: Step) {
    step.LayerStep? && step.layer in s.layers ==> !Mixes(s.layers[step.layer], step.op)
  }

  ghost predicate AllUnmixed(tunnel: nat, steps: seq<Step>) {
    forall n :: 0 <= n < |steps| ==> UnmixedAt(tunnel, steps, n)
  }

  predicate UnmixedAt(tunnel: nat, steps: seq<Step>, n: nat)
    requires n < |steps|
  {
    Unmixed(RunAll(tunnel, steps[..n]), steps[n])
  }

  lemma LayerStepTracked(ts: Traces, s: Sys, l: nat, op: LayerRuns.Op)
    requires Inv(s) && AllTracked(ts, s) && l in s.layers && !Mixes(s.layers[l], op)
    ensures AllTracked(TraceStep(ts, s, LayerStep(l, op)), Apply(s, LayerStep(l, op)))
    ensures GivesProper(ts[l], s.layers[l], LayerRuns.Step(s.layers[l], op).gives)
  {
    hide Mixes, Tracked, GivesProper, Track;
    StepProperIff(ts[l], s.layers[l], op);
  }

  /** A delivery changes neither the fences nor the frame on screen. */
  lemma DeliverTracked(t: Trace, l: Layer, frames: seq<Frame>)
    requires Tracked(t, l)
    ensures Tracked(t, Deliver(l, frames).layer)
  {
  }

  /** A layer that joins holds nothing. */
  lemma JoinTracked(l: Layer)
    requires Held(l) == []
    ensures Tracked(Trace(l.fences.cur, None), l)
  {
  }

  lemma StepTracked(ts: Traces, s: Sys, step: Step)
    requires Inv(s) && AllTracked(ts, s) && Enabled(s, step) && Unmixed(s, step)
    ensures AllTracked(TraceStep(ts, s, step), Apply(s, step))
  {
    hide Inv, Tracked, Track, Mixes;
    match step
    case LayerStep(l, op) => LayerStepTracked(ts, s, l, op);
    case Join(l, state) => JoinTracked(state);
    case Offer =>
      var c := s.batch.value.todo[0];
      DeliverTracked(ts[c], s.layers[c], s.batch.value.items);
    case _ =>
  }

  lemma {:induction false} RunTracked(tunnel: nat, steps: seq<Step>)
    requires Legal(tunnel, steps) && AllUnmixed(tunnel, steps)
    ensures AllTracked(TracesOf(tunnel, steps), RunAll(tunnel, steps))
  {
    hide Inv, Enabled, Unmixed, Legal, AllTracked;
    if steps == [] {
      StartTracked(tunnel);
    } else {
      var n := |steps| - 1;
      LegalFront(tunnel, steps);
      UnmixedFront(tunnel, steps);
      RunTracked(tunnel, steps[..n]);
      EveryRun(tunnel, steps[..n]);
      LastStep(tunnel, steps);
      StepTracked(TracesOf(tunnel, steps[..n]), RunAll(tunnel, steps[..n]), steps[n]);
    }
  }

  lemma StartTracked(tunnel: nat)
    ensures AllTracked(map[], Start(tunnel))
  {
  }

  lemma UnmixedFront(tunnel: nat, steps: seq<Step>)
    requires steps != [] && AllUnmixed(tunnel, steps)
    ensures AllUnmixed(tunnel, steps[..|steps| - 1])
  {
    var front := steps[..|steps| - 1];
    forall k | 0 <= k < |front| ensures UnmixedAt(tunnel, front, k) {
      assert front[..k] == steps[..k] && UnmixedAt(tunnel, steps, k);
    }
  }

  lemma LastStep(tunnel: nat, steps: seq<Step>)
    requires steps != [] && Legal(tunnel, steps) && AllUnmixed(tunnel, steps)
    ensures var s := RunAll(tunnel, steps[..|steps| - 1]);
            Enabled(s, steps[|steps| - 1]) && Unmixed(s, steps[|steps| - 1])
  {
    assert UnmixedAt(tunnel, steps, |steps| - 1);
  }

  // ---- what is on record for a frame ----

  /** The points are among those reported for the buffer of frame f. */
  ghost predicate Reported(g: Ledger, f: Frame, points: set<nat>) {
    || (exists i :: 0 <= i < |g.queue| && g.queue[i].frame == f && points <= g.queue[i].reported)
    || (exists i :: 0 <= i < |g.returned| && g.returned[i].frame == f && points <= g.returned[i].reported)
  }

  /** Some layer has still to hand f back, with a fence that waits for the points. */
  ghost predicate IsOwed(owed: map<nat, Owed>, f: Frame, points: set<nat>) {
    exists l :: l in owed && OwedBy(owed[l], f, points)
  }

  ghost predicate OwedBy(o: Owed, f: Frame, points: set<nat>) {
    exists i :: 0 <= i < |o.gives| && o.gives[i].frame == f && points <= Points(o.gives[i].fence)
  }

  ghost predicate OnRecord(s: Sys, f: Frame, points: set<nat>) {
    Reported(s.ledger, f, points) || IsOwed(s.owed, f, points)
  }

  lemma SameReported(g: Ledger, g': Ledger, f: Frame, points: set<nat>)
    requires Reported(g, f, points) && |g.queue| <= |g'.queue| && g'.returned == g.returned
    requires forall i :: 0 <= i < |g.queue| ==>
               g'.queue[i].frame == g.queue[i].frame && g'.queue[i].reported == g.queue[i].reported
    ensures Reported(g', f, points)
  {
    if i :| 0 <= i < |g.queue| && g.queue[i].frame == f && points <= g.queue[i].reported {
      assert g'.queue[i].frame == f;
    }
  }

  /** Handing a frame back adds to the account of its buffer, and leaves the others as they are. */
  lemma GiveReports(g: Ledger, x: Frame, fence: Fence, luck: Luck, i: nat, f: Frame, points: set<nat>)
    requires i < |g.queue| && g.queue[i].frame == x && FindFd(g.queue, x.fd) == i
    requires Reported(g, f, points) || (f == x && points <= Points(fence))
    ensures Reported(GiveOne(g, x, fence, luck), f, points)
  {
    hide FindFd, GiveOne;
    GiveOneAt(g, x, fence, luck, i);
    var b := After(g, i, fence, luck);
    assert b.frame == x && b.reported == g.queue[i].reported + Points(fence);
    if b.refs == 0 {
      RemovedReports(g, i, b, luck, f, points);
    } else {
      ChangedReports(g, i, b, f, points);
    }
  }

  lemma ChangedReports(g: Ledger, i: nat, b: Buffer, f: Frame, points: set<nat>)
    requires i < |g.queue| && b.frame == g.queue[i].frame && g.queue[i].reported <= b.reported
    requires Reported(g, f, points) || (f == b.frame && points <= b.reported)
    ensures Reported(g.(queue := g.queue[i := b]), f, points)
  {
    var q := g.queue[i := b];
    if k :| 0 <= k < |g.queue| && g.queue[k].frame == f && points <= g.queue[k].reported {
      assert q[k].frame == f && points <= q[k].reported;
    } else if !Reported(g, f, points) {
      assert q[i] == b;
    }
  }

  lemma RemovedReports(g: Ledger, i: nat, b: Buffer, luck: Luck, f: Frame, points: set<nat>)
    requires i < |g.queue| && b.frame == g.queue[i].frame && g.queue[i].reported <= b.reported
    requires Reported(g, f, points) || (f == b.frame && points <= b.reported)
    ensures Reported(Removed(g, i, b, luck), f, points)
  {
    var g' := Removed(g, i, b, luck);
    assert g'.returned[|g.returned|] == ReturnOf(b, g.tunnel, luck);
    if f == b.frame && points <= b.reported {
    } else if k :| 0 <= k < |g.queue| && g.queue[k].frame == f && points <= g.queue[k].reported {
      RemovedKeeps(g, i, b, luck, k);
    } else {
      var k :| 0 <= k < |g.returned| && g.returned[k].frame == f && points <= g.returned[k].reported;
      assert g'.returned[k] == g.returned[k];
    }
  }

  /** A hand-back moves what a layer owes into the account. */
  lemma GiveKeepsRecord(s: Sys, l: nat, luck: Luck, f: Frame, points: set<nat>)
    requires Inv(s) && Giving(s, l) && OnRecord(s, f, points)
    ensures OnRecord(Give(s, l, luck), f, points)
  {
    var o := s.owed[l].gives[0];
    GivenHolds(s, l, luck);
    var i := HeldIsFound(s.ledger, Holds(s), l, o.frame);
    if Reported(s.ledger, f, points) || (f == o.frame && points <= Points(o.fence)) {
      GiveReports(s.ledger, o.frame, o.fence, luck, i, f, points);
    } else {
      StillOwed(s, l, luck, f, points);
    }
  }

  lemma StillOwed(s: Sys, l: nat, luck: Luck, f: Frame, points: set<nat>)
    requires Giving(s, l) && IsOwed(s.owed, f, points)
    requires !(f == s.owed[l].gives[0].frame && points <= Points(s.owed[l].gives[0].fence))
    ensures IsOwed(Give(s, l, luck).owed, f, points)
  {
    var owed' := Give(s, l, luck).owed;
    var m :| m in s.owed && OwedBy(s.owed[m], f, points);
    if m == l {
      var k :| 0 <= k < |s.owed[l].gives| && s.owed[l].gives[k].frame == f
          && points <= Points(s.owed[l].gives[k].fence);
      assert owed'[l].gives[k - 1] == s.owed[l].gives[k];
      assert OwedBy(owed'[l], f, points);
    } else {
      assert owed'[m] == s.owed[m];
    }
  }

  /** Layers that were not handing back go on to, or come and go with nothing owed. */
  lemma OwedStays(owed: map<nat, Owed>, owed': map<nat, Owed>, f: Frame, points: set<nat>)
    requires IsOwed(owed, f, points)
    requires forall l :: l in owed && owed[l].gives != [] ==> l in owed' && owed'[l] == owed[l]
    ensures IsOwed(owed', f, points)
  {
    var l :| l in owed && OwedBy(owed[l], f, points);
    assert owed[l].gives != [];
  }

  /** Once on record the points stay on record, whatever happens. */
  lemma StepKeepsRecord(s: Sys, step: Step, f: Frame, points: set<nat>)
    requires Inv(s) && Enabled(s, step) && OnRecord(s, f, points)
    ensures OnRecord(Apply(s, step), f, points)
  {
    hide Inv, Reported, IsOwed;
    if step.HandBack? {
      GiveKeepsRecord(s, step.layer, step.luck, f, points);
    } else {
      var s' := Apply(s, step);
      LedgerKeeps(s, step);
      OwedKeeps(s, step);
      if Reported(s.ledger, f, points) {
        SameReported(s.ledger, s'.ledger, f, points);
      } else {
        OwedStays(s.owed, s'.owed, f, points);
      }
    }
  }

  /** Only hand-backs change what is reported. */
  lemma LedgerKeeps(s: Sys, step: Step)
    requires Enabled(s, step) && !step.HandBack?
    ensures var g, g' := s.ledger, Apply(s, step).ledger;
            && |g.queue| <= |g'.queue| && g'.returned == g.returned
            && forall i :: 0 <= i < |g.queue| ==>
                 g'.queue[i].frame == g.queue[i].frame && g'.queue[i].reported == g.queue[i].reported
  {
  }

  lemma OwedKeeps(s: Sys, step: Step)
    requires Enabled(s, step) && !step.HandBack?
    ensures var owed' := Apply(s, step).owed;
            forall l :: l in s.owed && s.owed[l].gives != [] ==> l in owed' && owed'[l] == s.owed[l]
  {
  }

  /** What a layer lets go of in a step is on record with the fence it has to go back with. */
  lemma LetGoIsOnRecord(ts: Traces, s: Sys, l: nat, op: LayerRuns.Op, i: nat)
    requires Inv(s) && AllTracked(ts, s) && l in s.layers && !Mixes(s.layers[l], op)
    requires i < |LayerRuns.Step(s.layers[l], op).gives|
    ensures var f := LayerRuns.Step(s.layers[l], op).gives[i].frame;
            OnRecord(Apply(s, LayerStep(l, op)), f, Proper(ts[l], s.layers[l], f))
  {
    hide Inv, Mixes, Reported, Proper, Tracked;
    LayerStepTracked(ts, s, l, op);
    var o, s' := LayerRuns.Step(s.layers[l], op), Apply(s, LayerStep(l, op));
    var f := o.gives[i].frame;
    assert s'.owed[l].gives == o.gives;
    assert OwedBy(s'.owed[l], f, Proper(ts[l], s.layers[l], f));
    assert IsOwed(s'.owed, f, Proper(ts[l], s.layers[l], f));
  }

  // ---- whole runs ----

  /** Step n of the run is one of layer l that lets go of frame f, for which the display set `points` last. */
  ghost predicate LetsGo(tunnel: nat, steps: seq<Step>, n: nat, f: Frame, points: set<nat>) {
    && n < |steps| && steps[n].LayerStep?
    && var s, l := RunAll(tunnel, steps[..n]), steps[n].layer;
       && l in s.layers && l in TracesOf(tunnel, steps[..n])
       && points == Proper(TracesOf(tunnel, steps[..n])[l], s.layers[l], f)
       && f in FramesIn(LayerRuns.Step(s.layers[l], steps[n].op).gives)
  }

  /**
   * In any run in which no layer mixes its fences up: from the moment a layer lets go of a
   * frame, the points the display set for it are with the hand-back that is due, or among
   * the points reported for its buffer.
   */
  lemma {:induction false} PresentationIsReported(tunnel: nat, steps: seq<Step>, n: nat, f: Frame, points: set<nat>)
    requires Legal(tunnel, steps) && AllUnmixed(tunnel, steps) && LetsGo(tunnel, steps, n, f, points)
    ensures OnRecord(RunAll(tunnel, steps), f, points)
    decreases |steps|
  {
    hide Inv, Enabled, Unmixed, Legal, AllTracked, OnRecord, AllUnmixed;
    var k := |steps| - 1;
    LegalFront(tunnel, steps);
    UnmixedFront(tunnel, steps);
    EveryRun(tunnel, steps[..k]);
    LastStep(tunnel, steps);
    if n == k {
      RunTracked(tunnel, steps[..k]);
      LetsGoNow(tunnel, steps, f, points);
    } else {
      assert steps[..k][..n] == steps[..n];
      PresentationIsReported(tunnel, steps[..k], n, f, points);
      StepKeepsRecord(RunAll(tunnel, steps[..k]), steps[k], f, points);
    }
  }

  lemma LetsGoNow(tunnel: nat, steps: seq<Step>, f: Frame, points: set<nat>)
    requires steps != [] && LetsGo(tunnel, steps, |steps| - 1, f, points)
    requires var s := RunAll(tunnel, steps[..|steps| - 1]);
             && Inv(s) && AllTracked(TracesOf(tunnel, steps[..|steps| - 1]), s) && Unmixed(s, steps[|steps| - 1])
    ensures OnRecord(RunAll(tunnel, steps), f, points)
  {
    hide Inv, AllTracked, OnRecord;
    var k := |steps| - 1;
    var s, l, op := RunAll(tunnel, steps[..k]), steps[k].layer, steps[k].op;
    var gives := LayerRuns.Step(s.layers[l], op).gives;
    var i :| 0 <= i < |gives| && gives[i].frame == f;
    LetGoIsOnRecord(TracesOf(tunnel, steps[..k]), s, l, op, i);
  }

  /**
   * So when the buffer has gone back to the driver, the fence that went with it cannot
   * signal, now or later, before the display is done with every presentation of it, once
   * what failing calls dropped has signalled.
   */
  lemma ReturnCoversPresentation(tunnel: nat, steps: seq<Step>, n: nat, f: Frame, points: set<nat>, k: nat)
    requires Legal(tunnel, steps) && AllUnmixed(tunnel, steps) && LetsGo(tunnel, steps, n, f, points)
    requires k < |RunAll(tunnel, steps).ledger.returned| && RunAll(tunnel, steps).ledger.returned[k].frame == f
    ensures var g := RunAll(tunnel, steps).ledger; var r := g.returned[k];
            && points <= r.reported
            && (r.lost <= g.signalled ==>
                  forall later: set<nat> :: g.signalled <= later && Signals(r.fence, later) ==> points <= later)
  {
    hide Inv, Legal, AllUnmixed, LetsGo, OnRecord;
    PresentationIsReported(tunnel, steps, n, f, points);
    EveryRun(tunnel, steps);
    RecordOfReturned(RunAll(tunnel, steps), f, points, k);
    ReleaseFenceIsNeverEarlyIff(tunnel, steps, k);
  }

  /** What is on record for a buffer that has gone back is what was reported with it. */
  lemma RecordOfReturned(s: Sys, f: Frame, points: set<nat>, k: nat)
    requires Inv(s) && OnRecord(s, f, points) && k < |s.ledger.returned| && s.ledger.returned[k].frame == f
    ensures points <= s.ledger.returned[k].reported
  {
    ReturnedIsNotOwed(s, f, points, k);
    OneFate(s.ledger, Holds(s), Offered(s), Open(s), f.id);
  }

  lemma ReturnedIsNotOwed(s: Sys, f: Frame, points: set<nat>, k: nat)
    requires Inv(s) && k < |s.ledger.returned| && s.ledger.returned[k].frame == f
    ensures !IsOwed(s.owed, f, points) && f.id < s.ledger.next && WasReturned(s.ledger.returned, f.id)
  {
    assert f.id < s.ledger.next && WasReturned(s.ledger.returned, f.id);
    NobodyHasReturned(s, f.id);
    forall l | l in s.owed ensures !OwedBy(s.owed[l], f, points) {
      forall i | 0 <= i < |s.owed[l].gives| ensures s.owed[l].gives[i].frame != f {
        assert s.owed[l].gives[i].frame in OwedSet(s.owed, l);
      }
    }
  }
}
