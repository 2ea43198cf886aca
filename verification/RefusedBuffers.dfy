/**
 * Buffers that stay with an instance until its end: those that nobody took, because every
 * consumer refused them or the driver failed before they were offered, and those that a
 * layer still holds when it is erased as a consumer. The clean-up releases them to no tunnel.
 */
module RefusedBuffers {
  import opened VideoTunnelTypes
  import opened DrmSync
  import opened TunnelInstance
  import opened LayerSpec
  import opened BufferLedger
  import opened TunnelProtocol
  import opened TunnelTheorems
  import opened DisturbedDeliveries
  import opened DisturbedRuns
  import opened InstanceEnd

  /** f is queued, no layer has it, and it is not on offer. */
  ghost predicate Stray(s: Sys, f: Frame) {
    InQueue(s.ledger.queue, f) && Unheld(Holds(s), f) && (s.batch.Some? ==> f !in s.batch.value.items)
  }

  ghost predicate Unheld(h: Holdings, f: Frame) {
    forall l :: l in h ==> f !in h[l]
  }

  lemma StrayFacts(s: Sys, f: Frame)
    requires Inv(s) && Stray(s, f)
    ensures f.id < s.ledger.next
    ensures forall l :: l in s.layers ==> Wf(s.layers[l])
    ensures forall l :: l in s.owed ==> l in s.layers
  {
  }

  /** No step of anybody takes such a buffer out of the queue or gives it to a layer. */
  lemma StrayStays(s: Sys, step: Step, f: Frame)
    requires Inv(s) && Enabled(s, step) && Stray(s, f)
    ensures Stray(Apply(s, step), f)
  {
    hide Inv, Stray;
    StrayFacts(s, f);
    match step
    case Acquire(frames, driverFails) => AcquireKeepsStray(s, frames, driverFails, f);
    case CountItem => ReffedKeepsStray(s, CountNext(s), {s.batch.value.items[s.batch.value.at].id}, true, f);
    case UncountItem => ReffedKeepsStray(s, UncountNext(s), {s.batch.value.items[s.batch.value.at].id}, false, f);
    case Offer => OfferKeepsStray(s, f);
    case LayerStep(l, op) => StepOfLayerKeepsStray(s, l, op, f);
    case HandBack(l, luck) => GiveKeepsStray(s, l, luck, f);
    case LeaveTunnel(l) => QuitKeepsStray(s, l, f);
    case Join(l, state) =>
      assert l !in s.owed;
      EnterKeepsStray(s, l, state, f);
    case Signal(points) => SignalKeepsStray(s, points, f);
  }

  lemma GiveKeepsStray(s: Sys, l: nat, luck: Luck, f: Frame)
    requires Inv(s) && Giving(s, l) && Stray(s, f)
    ensures Stray(Give(s, l, luck), f)
  {
    hide Inv;
    GivenLeaves(s, l, luck);
  }

  lemma QuitKeepsStray(s: Sys, l: nat, f: Frame)
    requires Stray(s, f)
    ensures Stray(Quit(s, l), f)
  {
    QuitHolds(s.layers, s.owed, l);
  }

  lemma SignalKeepsStray(s: Sys, points: set<nat>, f: Frame)
    requires Stray(s, f)
    ensures Stray(Apply(s, Signal(points)), f)
  {
    assert Holds(Apply(s, Signal(points))) == Holds(s);
  }

  lemma EnterKeepsStray(s: Sys, l: nat, state: Layer, f: Frame)
    requires Stray(s, f) && s.batch.None? && l !in s.layers && l !in s.owed && Held(state) == []
    ensures Stray(Enter(s, l, state), f)
  {
    EnterHolds(s.layers, s.owed, l, state);
  }

  lemma AcquireKeepsStray(s: Sys, frames: seq<Frame>, driverFails: bool, f: Frame)
    requires s.batch.None? && FreshFrames(s.ledger, frames) && Stray(s, f) && f.id < s.ledger.next
    ensures Stray(TakeBuffers(s, frames, driverFails), f)
  {
    var q := s.ledger.queue;
    var i :| 0 <= i < |q| && q[i].frame == f;
    assert (q + NewBuffers(frames, -1))[i].frame == f;
    assert Holds(TakeBuffers(s, frames, driverFails)) == Holds(s);
    forall k | 0 <= k < |frames| ensures frames[k] != f {
      assert frames[k].id >= s.ledger.next > f.id;
    }
  }

  lemma ReffedKeepsStray(s: Sys, t: Sys, ids: set<nat>, up: bool, f: Frame)
    requires Stray(s, f) && t.layers == s.layers && t.owed == s.owed
    requires t.ledger == s.ledger.(queue := Reffed(s.ledger.queue, ids, up))
    requires t.batch.Some? ==> s.batch.Some? && t.batch.value.items == s.batch.value.items
    ensures Stray(t, f)
  {
    ReffedInQueue(s.ledger.queue, ids, up);
  }

  lemma AcceptKeepsStray(s: Sys, c: nat, state: Layer, f: Frame)
    requires Asking(s) && Stray(s, f) && c == s.batch.value.todo[0]
    requires Held(state) == Held(s.layers[c]) + s.batch.value.items
    ensures Stray(Accept(s, c, state), f)
  {
    AcceptHolds(s, c, state);
  }

  lemma OfferKeepsStray(s: Sys, f: Frame)
    requires Asking(s) && Stray(s, f) && forall l :: l in s.layers ==> Wf(s.layers[l])
    ensures Stray(Ask(s), f)
  {
    var c, items := s.batch.value.todo[0], s.batch.value.items;
    if Takes(s.layers[c]) {
      LayerRuns.DeliverAdds(s.layers[c], items);
      AcceptKeepsStray(s, c, Deliver(s.layers[c], items).layer, f);
    } else {
      assert Holds(Ask(s)) == Holds(s);
    }
  }

  lemma StepOfLayerKeepsStray(s: Sys, l: nat, op: LayerRuns.Op, f: Frame)
    requires Inv(s) && Enabled(s, LayerStep(l, op)) && Stray(s, f)
    ensures Stray(Apply(s, LayerStep(l, op)), f)
  {
    LayerStepHands(s.layers[l], op);
    MovedHolds(s, l, LayerRuns.Step(s.layers[l], op), Detaches(s.layers[l], op));
  }

  /** The buffer's item, with nothing counted. */
  predicate Idle(b: Buffer, f: Frame) {
    b.frame == f && (b.refs == 0 || b.refs == -1)
  }

  lemma StrayIsIdle(s: Sys, f: Frame)
    requires Inv(s) && Stray(s, f)
    ensures exists i :: 0 <= i < |s.ledger.queue| && Idle(s.ledger.queue[i], f)
    ensures !WasReturned(s.ledger.returned, f.id)
  {
    var i :| 0 <= i < |s.ledger.queue| && s.ledger.queue[i].frame == f;
    assert Holders(Holds(s), f) == {};
    if s.batch.Some? && f.id in Offered(s) {
      OfferedAreOpen(s, f);
    }
    assert Idle(s.ledger.queue[i], f);
  }

  lemma LastStepKeepsStray(tunnel: nat, steps: seq<Step>, f: Frame)
    requires steps != [] && Legal(tunnel, steps) && Stray(RunAll(tunnel, steps[..|steps| - 1]), f)
    ensures Stray(RunAll(tunnel, steps), f)
  {
    var n := |steps| - 1;
    LegalFront(tunnel, steps);
    EveryRun(tunnel, steps[..n]);
    assert Enabled(RunAll(tunnel, steps[..n]), steps[n]);
    StrayStays(RunAll(tunnel, steps[..n]), steps[n], f);
  }

  lemma {:induction false} StraysRemain(tunnel: nat, steps: seq<Step>, n: nat, f: Frame)
    requires Legal(tunnel, steps) && n <= |steps| && Stray(RunAll(tunnel, steps[..n]), f)
    ensures Stray(RunAll(tunnel, steps), f)
    decreases |steps|
  {
    if n == |steps| {
      assert steps[..n] == steps;
    } else {
      var front := steps[..|steps| - 1];
      LegalFront(tunnel, steps);
      assert front[..n] == steps[..n];
      StraysRemain(tunnel, front, n, f);
      LastStepKeepsStray(tunnel, steps, f);
    }
  }

  /**
   * Over any legal run: a buffer that is queued, held by nobody and not on offer after the
   * first n steps is so after all later ones, with a count of zero or, if it was never
   * offered, -1, and it is not returned before the end of the instance.
   */
  lemma StraysStay(tunnel: nat, steps: seq<Step>, n: nat, f: Frame)
    requires Legal(tunnel, steps) && n <= |steps| && Stray(RunAll(tunnel, steps[..n]), f)
    ensures var s := RunAll(tunnel, steps);
            && Stray(s, f) && !WasReturned(s.ledger.returned, f.id)
            && exists i :: 0 <= i < |s.ledger.queue| && Idle(s.ledger.queue[i], f)
  {
    StraysRemain(tunnel, steps, n, f);
    EveryRun(tunnel, steps);
    StrayIsIdle(RunAll(tunnel, steps), f);
  }

  // ---- runs with one consumer ----

  /** Layer 0 alone is attached, in this state, and has handed back what it let go of. */
  ghost predicate Solo(s: Sys, zero: Layer, consumers: seq<nat>, batch: Option<Batch>, next: nat) {
    && s.layers == map[0 := zero] && s.owed == map[] && s.consumers == consumers && s.batch == batch
    && s.ledger.next == next
  }

  /** A run that has come to such a state; with one consumer nothing can have been harmed. */
  ghost predicate SoloAt(tunnel: nat, steps: seq<Step>, zero: Layer, consumers: seq<nat>, batch: Option<Batch>,
                         next: nat)
  {
    && Legal(tunnel, steps) && Inv(RunAll(tunnel, steps)) && Untouched(RunAll(tunnel, steps))
    && Solo(RunAll(tunnel, steps), zero, consumers, batch, next) && |consumers| <= 1
  }

  lemma SoloMore(tunnel: nat, steps: seq<Step>, s: Sys, step: Step)
    requires Legal(tunnel, steps) && RunAll(tunnel, steps) == s && Inv(s) && Untouched(s) && |s.consumers| <= 1
    requires Enabled(s, step)
    ensures Legal(tunnel, steps + [step]) && RunAll(tunnel, steps + [step]) == Apply(s, step)
    ensures Inv(Apply(s, step)) && Untouched(Apply(s, step))
  {
    UntouchedIsHarmless(s, step);
    StepKeepsInvIff(s, step);
    OneConsumerStaysUntouched(s, step);
    LegalMore(tunnel, steps, s, step);
  }

  lemma JoinMoves(tunnel: nat, zero: Layer)
    requires Wf(zero) && zero.link.tunnelId >= 0 && Held(zero) == []
    ensures Enabled(Start(tunnel), Join(0, zero)) && Solo(Apply(Start(tunnel), Join(0, zero)), zero, [0], None, 0)
  {
  }

  lemma SoloJoins(tunnel: nat)
    ensures SoloAt(tunnel, [Join(0, Joined(tunnel))], Joined(tunnel), [0], None, 0)
  {
    hide Joined, Inv;
    TakenFacts(tunnel, []);
    JoinMoves(tunnel, Joined(tunnel));
    StartInv(tunnel);
    assert RunAll(tunnel, []) == Start(tunnel) && Legal(tunnel, []);
    SoloMore(tunnel, [], Start(tunnel), Join(0, Joined(tunnel)));
    assert [] + [Join(0, Joined(tunnel))] == [Join(0, Joined(tunnel))];
  }

  const TURNS := LayerStep(0, LayerRuns.OpSetNonTunnel)

  lemma TurnMoves(s: Sys, zero: Layer, consumers: seq<nat>, next: nat)
    requires Solo(s, zero, consumers, None, next)
    ensures Enabled(s, TURNS) && Solo(Apply(s, TURNS), ClearInfo(zero), consumers, None, next)
    ensures Apply(s, TURNS).ledger == s.ledger
  {
    assert s.layers[0 := ClearInfo(zero)] == map[0 := ClearInfo(zero)];
  }

  /** The layer stops being a tunnel layer, and keeps what it holds. */
  lemma SoloTurns(tunnel: nat, steps: seq<Step>, zero: Layer, next: nat)
    requires SoloAt(tunnel, steps, zero, [0], None, next)
    ensures SoloAt(tunnel, steps + [TURNS], ClearInfo(zero), [0], None, next)
    ensures RunAll(tunnel, steps + [TURNS]).ledger == RunAll(tunnel, steps).ledger
  {
    TurnMoves(RunAll(tunnel, steps), zero, [0], next);
    SoloMore(tunnel, steps, RunAll(tunnel, steps), TURNS);
  }

  lemma AcquireMoves(s: Sys, zero: Layer, f: Frame)
    requires Solo(s, zero, [0], None, f.id) && FreshFrames(s.ledger, [f])
    ensures var t := Apply(s, Acquire([f], false)); var u := Apply(t, CountItem);
            && Enabled(s, Acquire([f], false)) && Enabled(t, CountItem)
            && Solo(t, zero, [0], Some(Batch([f], [0], 0, false)), f.id + 1)
            && Solo(u, zero, [0], Some(Batch([f], [0], 1, false)), f.id + 1)
            && OnlyNew(s.ledger.queue, u.ledger.queue, f)
  {
    AcquiredIsNew(s.ledger, [f], f);
    ReffedInQueue(Apply(s, Acquire([f], false)).ledger.queue, {f.id}, true);
  }

  /** A buffer arrives, and is counted. */
  lemma SoloAcquires(tunnel: nat, steps: seq<Step>, zero: Layer, f: Frame)
    requires SoloAt(tunnel, steps, zero, [0], None, f.id) && FreshFrames(RunAll(tunnel, steps).ledger, [f])
    ensures SoloAt(tunnel, steps + [Acquire([f], false)] + [CountItem], zero, [0], Some(Batch([f], [0], 1, false)),
                   f.id + 1)
    ensures OnlyNew(RunAll(tunnel, steps).ledger.queue,
                    RunAll(tunnel, steps + [Acquire([f], false)] + [CountItem]).ledger.queue, f)
  {
    var s := RunAll(tunnel, steps);
    AcquireMoves(s, zero, f);
    SoloMore(tunnel, steps, s, Acquire([f], false));
    SoloMore(tunnel, steps + [Acquire([f], false)], Apply(s, Acquire([f], false)), CountItem);
  }

  /** Queued are the frames that were, and f. */
  ghost predicate OnlyNew(q: seq<Buffer>, q': seq<Buffer>, f: Frame) {
    forall x :: InQueue(q', x) <==> InQueue(q, x) || x == f
  }

  lemma AcquiredIsNew(g: Ledger, frames: seq<Frame>, f: Frame)
    requires frames == [f]
    ensures OnlyNew(g.queue, BufferLedger.Acquire(g, frames).queue, f)
  {
    var q, q' := g.queue, g.queue + NewBuffers(frames, -1);
    assert q'[|q|].frame == f;
    forall x | InQueue(q, x) ensures InQueue(q', x) {
      var i :| 0 <= i < |q| && q[i].frame == x;
      assert q'[i].frame == x;
    }
    forall x | InQueue(q', x) ensures InQueue(q, x) || x == f {
      var i :| 0 <= i < |q'| && q'[i].frame == x;
    }
  }

  lemma TakeSoloMoves(s: Sys, zero: Layer, f: Frame, next: nat)
    requires Solo(s, zero, [0], Some(Batch([f], [0], 1, false)), next) && Takes(zero)
    ensures Enabled(s, Offer) && Solo(Apply(s, Offer), Deliver(zero, [f]).layer, [0], None, next)
    ensures Apply(s, Offer).ledger.queue == s.ledger.queue
  {
    assert s.layers[0 := Deliver(zero, [f]).layer] == map[0 := Deliver(zero, [f]).layer];
  }

  lemma SoloTakes(tunnel: nat, steps: seq<Step>, zero: Layer, f: Frame, next: nat)
    requires SoloAt(tunnel, steps, zero, [0], Some(Batch([f], [0], 1, false)), next) && Takes(zero)
    ensures SoloAt(tunnel, steps + [Offer], Deliver(zero, [f]).layer, [0], None, next)
    ensures RunAll(tunnel, steps + [Offer]).ledger.queue == RunAll(tunnel, steps).ledger.queue
  {
    TakeSoloMoves(RunAll(tunnel, steps), zero, f, next);
    SoloMore(tunnel, steps, RunAll(tunnel, steps), Offer);
  }

  /** The one buffer on offer, counted and taken by nobody. */
  lemma CountedOnce(s: Sys, f: Frame, i: nat)
    requires Inv(s) && Untouched(s) && s.batch == Some(Batch([f], [0], 1, false))
    requires i < |s.ledger.queue| && s.ledger.queue[i].frame == f
    ensures s.ledger.queue[i].refs == 1
  {
    forall l | l in s.layers ensures f !in Holds(s)[l] {
      if f in Holds(s)[l] { NobodyHoldsItems(s, l, f); }
    }
    assert Holders(Holds(s), f) == {};
    assert OnCount(s.batch.value) == [f] && f.id in Ids([f]);
  }

  lemma RefuseSoloMoves(s: Sys, zero: Layer, f: Frame, next: nat)
    requires Solo(s, zero, [0], Some(Batch([f], [0], 1, false)), next) && !Takes(zero)
    ensures var t := Apply(s, Offer); var u := Apply(t, UncountItem);
            && Enabled(s, Offer) && Enabled(t, UncountItem) && t.consumers == []
            && Solo(u, zero, [], None, next) && u.ledger.queue == Reffed(s.ledger.queue, {f.id}, false)
  {
    assert Remove([0], 0) == [];
  }

  /** After the count, and after it was taken back. */
  lemma CountedThenNot(s: Sys, f: Frame)
    requires Inv(s) && Untouched(s) && s.batch == Some(Batch([f], [0], 1, false))
    ensures var q := Reffed(s.ledger.queue, {f.id}, false);
            forall i :: 0 <= i < |q| && q[i].frame == f ==> q[i].refs == 0
  {
    hide Inv, Untouched;
    forall i | 0 <= i < |s.ledger.queue| && s.ledger.queue[i].frame == f ensures s.ledger.queue[i].refs == 1 {
      CountedOnce(s, f, i);
    }
  }

  /** The only consumer refuses and is erased. */
  lemma SoloRefuses(tunnel: nat, steps: seq<Step>, zero: Layer, f: Frame, next: nat)
    requires SoloAt(tunnel, steps, zero, [0], Some(Batch([f], [0], 1, false)), next) && !Takes(zero)
    ensures SoloAt(tunnel, steps + [Offer] + [UncountItem], zero, [], None, next)
    ensures var q, q' := RunAll(tunnel, steps).ledger.queue,
            RunAll(tunnel, steps + [Offer] + [UncountItem]).ledger.queue;
            && (forall x :: InQueue(q', x) <==> InQueue(q, x))
            && forall i :: 0 <= i < |q'| && q'[i].frame == f ==> q'[i].refs == 0
  {
    hide Inv, Untouched, Legal, RunAll, Enabled, Apply;
    var s := RunAll(tunnel, steps);
    RefuseSoloMoves(s, zero, f, next);
    SoloMore(tunnel, steps, s, Offer);
    SoloMore(tunnel, steps + [Offer], Apply(s, Offer), UncountItem);
    CountedThenNot(s, f);
    ReffedInQueue(s.ledger.queue, {f.id}, false);
  }

  /** A layer joins, stops being a tunnel layer, and refuses the one buffer that arrives. */
  function StraySteps(tunnel: nat): seq<Step> {
    [Join(0, Joined(tunnel))] + [TURNS] + [Acquire([ONE], false)] + [CountItem] + [Offer] + [UncountItem]
  }

  /**
   * The only consumer refuses the only buffer, so the instance is left without consumers
   * and is cleaned up: the buffer is released, but never to its own tunnel.
   */
  lemma StrayRun(tunnel: nat)
    ensures var s := RunAll(tunnel, StraySteps(tunnel));
            && Legal(tunnel, StraySteps(tunnel)) && s.batch.None? && s.consumers == [] && Stray(s, ONE)
            && (exists i :: 0 <= i < |s.ledger.queue| && s.ledger.queue[i].frame == ONE && s.ledger.queue[i].refs == 0)
            && WentTo(CleanUp(s.ledger), -1, ONE.id) && !WentTo(CleanUp(s.ledger), tunnel, ONE.id)
  {
    hide Inv, RunAll, Legal, Untouched;
    var j, steps := Joined(tunnel), [Join(0, Joined(tunnel))] + [TURNS];
    SoloJoins(tunnel);
    SoloTurns(tunnel, [Join(0, j)], j, 0);
    SoloStartsEmpty(tunnel, steps, ClearInfo(j), ONE);
    SoloAcquires(tunnel, steps, ClearInfo(j), ONE);
    assert InQueue(RunAll(tunnel, steps + [Acquire([ONE], false)] + [CountItem]).ledger.queue, ONE);
    SoloRefuses(tunnel, steps + [Acquire([ONE], false)] + [CountItem], ClearInfo(j), ONE, 1);
    TakenFacts(tunnel, []);
    var s := RunAll(tunnel, StraySteps(tunnel));
    assert InQueue(RunAll(tunnel, steps + [Acquire([ONE], false)] + [CountItem] + [Offer]
                          + [UncountItem]).ledger.queue, ONE);
    assert StraySteps(tunnel) == steps + [Acquire([ONE], false)] + [CountItem] + [Offer] + [UncountItem];
    assert Holds(s)[0] == {};
    assert InQueue(s.ledger.queue, ONE);
    var i :| 0 <= i < |s.ledger.queue| && s.ledger.queue[i].frame == ONE;
    QueuedGoesNowhere(tunnel, StraySteps(tunnel), ONE);
  }

  lemma NothingQueued(q: seq<Buffer>)
    requires QueueOk(q, 0)
    ensures q == []
  {
    assert |q| > 0 ==> q[0].frame.id < 0;
  }

  /** Before anything was acquired the first buffer is fresh. */
  lemma SoloStartsEmpty(tunnel: nat, steps: seq<Step>, zero: Layer, f: Frame)
    requires SoloAt(tunnel, steps, zero, [0], None, 0) && f.id == 0
    ensures RunAll(tunnel, steps).ledger.queue == [] && FreshFrames(RunAll(tunnel, steps).ledger, [f])
  {
    NothingQueued(RunAll(tunnel, steps).ledger.queue);
  }

  lemma QueuedGoesNowhere(tunnel: nat, steps: seq<Step>, f: Frame)
    requires Legal(tunnel, steps) && RunAll(tunnel, steps).batch.None? && InQueue(RunAll(tunnel, steps).ledger.queue, f)
    ensures WentTo(CleanUp(RunAll(tunnel, steps).ledger), -1, f.id)
    ensures !WentTo(CleanUp(RunAll(tunnel, steps).ledger), tunnel, f.id)
  {
    EveryRun(tunnel, steps);
    var g := RunAll(tunnel, steps).ledger;
    var i :| 0 <= i < |g.queue| && g.queue[i].frame == f;
    assert Queued(g.queue, f.id);
    CleanUpAccount(tunnel, steps, f.id);
    EachBufferReturnsOnce(tunnel, steps, f.id);
  }

  /** A layer joins, takes a buffer, stops being a tunnel layer, and refuses the next buffer. */
  function HeldSteps(tunnel: nat): seq<Step> {
    [Join(0, Joined(tunnel))] + [Acquire([ONE], false)] + [CountItem] + [Offer] + [TURNS]
    + [Acquire([TWO], false)] + [CountItem] + [Offer] + [UncountItem]
  }

  /**
   * The refusal erases the only consumer, which still has a buffer on screen or queued. The
   * clean-up releases that buffer to no tunnel while the layer holds it.
   */
  lemma HeldRun(tunnel: nat)
    ensures var s := RunAll(tunnel, HeldSteps(tunnel));
            && Legal(tunnel, HeldSteps(tunnel)) && s.batch.None? && s.consumers == []
            && 0 in s.layers && ONE in Held(s.layers[0])
            && WentTo(CleanUp(s.ledger), -1, ONE.id) && !WentTo(CleanUp(s.ledger), tunnel, ONE.id)
  {
    hide Inv, RunAll, Legal, Untouched;
    var j, steps := Joined(tunnel), [Join(0, Joined(tunnel))];
    SoloJoins(tunnel);
    SoloStartsEmpty(tunnel, steps, j, ONE);
    TakenFacts(tunnel, [ONE]);
    SoloAcquires(tunnel, steps, j, ONE);
    SoloTakes(tunnel, steps + [Acquire([ONE], false)] + [CountItem], j, ONE, 1);
    HeldSecond(tunnel, steps + [Acquire([ONE], false)] + [CountItem] + [Offer], Taken(tunnel, [ONE]));
  }

  lemma HeldSecond(tunnel: nat, steps: seq<Step>, zero: Layer)
    requires SoloAt(tunnel, steps, zero, [0], None, 1) && ONE in Held(zero) && !zero.link.needRelease
    requires forall x :: InQueue(RunAll(tunnel, steps).ledger.queue, x) ==> x == ONE
    ensures var more := steps + [TURNS] + [Acquire([TWO], false)] + [CountItem] + [Offer] + [UncountItem];
            var s := RunAll(tunnel, more);
            && Legal(tunnel, more) && s.batch.None? && s.consumers == [] && 0 in s.layers && ONE in Held(s.layers[0])
            && WentTo(CleanUp(s.ledger), -1, ONE.id) && !WentTo(CleanUp(s.ledger), tunnel, ONE.id)
  {
    hide Inv, RunAll, Legal, Untouched;
    var c := ClearInfo(zero);
    SoloTurns(tunnel, steps, zero, 1);
    SecondIsFresh(RunAll(tunnel, steps + [TURNS]).ledger);
    SoloAcquires(tunnel, steps + [TURNS], c, TWO);
    SoloRefuses(tunnel, steps + [TURNS] + [Acquire([TWO], false)] + [CountItem], c, TWO, 2);
    HeldAtCleanUp(tunnel, steps + [TURNS] + [Acquire([TWO], false)] + [CountItem] + [Offer] + [UncountItem], 0, ONE);
  }

  lemma SecondIsFresh(g: Ledger)
    requires g.next == 1 && forall x :: InQueue(g.queue, x) ==> x == ONE
    ensures FreshFrames(g, [TWO])
  {
    assert forall i :: 0 <= i < |g.queue| ==> InQueue(g.queue, g.queue[i].frame);
  }
}
