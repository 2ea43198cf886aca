/**
 * Runs from the start in which a hand-back disturbs a delivery: the two kinds of harm, and
 * one flush that does both.
 */
module DisturbedRuns {
  import opened VideoTunnelTypes
  import opened DrmSync
  import opened LayerSpec
  import opened BufferLedger
  import opened TunnelProtocol
  import opened TunnelTheorems
  import opened DisturbedDeliveries

  const ONE := Frame(0, 7, -1)
  const TWO := Frame(1, 8, -1)

  /** A layer that has joined the tunnel and holds nothing. */
  function Joined(tunnel: nat): Layer {
    SetTunnel(INITIAL, tunnel, true).layer
  }

  lemma RunMore(tunnel: nat, steps: seq<Step>, step: Step)
    ensures RunAll(tunnel, steps + [step]) == Apply(RunAll(tunnel, steps), step)
    ensures Allowed(tunnel, steps) && Enabled(RunAll(tunnel, steps), step) ==> Allowed(tunnel, steps + [step])
    ensures Legal(tunnel, steps) && Enabled(RunAll(tunnel, steps), step) && Harmless(RunAll(tunnel, steps), step)
            ==> Legal(tunnel, steps + [step])
  {
    var all := steps + [step];
    assert all[..|steps|] == steps;
    forall k | 0 <= k < |steps| ensures all[..k] == steps[..k] && all[k] == steps[k] {}
    if Legal(tunnel, steps) && Enabled(RunAll(tunnel, steps), step) && Harmless(RunAll(tunnel, steps), step) {
      forall k | 0 <= k < |all| ensures Enabled(RunAll(tunnel, all[..k]), all[k]) && HarmlessAt(tunnel, all, k) {
        assert k < |steps| ==> HarmlessAt(tunnel, steps, k);
      }
    }
  }

  /** One legal step more. */
  lemma LegalMore(tunnel: nat, steps: seq<Step>, s: Sys, step: Step)
    requires Legal(tunnel, steps) && RunAll(tunnel, steps) == s && Enabled(s, step) && Harmless(s, step)
    ensures Legal(tunnel, steps + [step]) && RunAll(tunnel, steps + [step]) == Apply(s, step)
  {
    RunMore(tunnel, steps, step);
  }

  // ---- the states on the way ----

  /** The accounts are right and nothing has gone wrong in the delivery so far. */
  ghost predicate Clean(s: Sys) {
    Inv(s) && !Gone(s) && !Orphaned(s)
  }

  /** Layers 0 and 1 are attached in these states, layer 0 owes this, and this is the delivery. */
  ghost predicate Two(s: Sys, zero: Layer, one: Layer, owing: seq<GiveBack>, b: Batch) {
    && s.layers == map[0 := zero, 1 := one] && s.batch == Some(b)
    && s.owed == if owing == [] then map[] else map[0 := Owed(owing, false)]
  }

  /** What layer 0 is after it took the frames, and after it let go of them. */
  function Taken(tunnel: nat, frames: seq<Frame>): Layer {
    Deliver(Joined(tunnel), frames).layer
  }

  function Emptied(tunnel: nat, frames: seq<Frame>): Layer {
    Flush(Taken(tunnel, frames), false, false).layer
  }

  const FLUSH := LayerStep(0, LayerRuns.OpFlush(false, false))

  function Joins(tunnel: nat): seq<Step> {
    [Join(0, Joined(tunnel))] + [Join(1, Joined(tunnel))]
  }

  lemma JoinsRun(tunnel: nat)
    ensures Legal(tunnel, Joins(tunnel))
    ensures var j := Joined(tunnel);
            RunAll(tunnel, Joins(tunnel)) == Sys(Start(tunnel).ledger, [0, 1], map[0 := j, 1 := j], map[], None)
  {
    var j := Joined(tunnel);
    assert RunAll(tunnel, []) == Start(tunnel) && Legal(tunnel, []);
    LegalMore(tunnel, [], Start(tunnel), Join(0, j));
    assert [] + [Join(0, j)] == [Join(0, j)];
    LegalMore(tunnel, [Join(0, j)], Apply(Start(tunnel), Join(0, j)), Join(1, j));
  }

  /** The first buffers of a tunnel. */
  ghost predicate FirstFrames(frames: seq<Frame>) {
    && frames != [] && (forall i :: 0 <= i < |frames| ==> frames[i].id == i)
    && forall i, j :: 0 <= i < j < |frames| ==> frames[i].fd != frames[j].fd
  }

  lemma AcquireRun(tunnel: nat, frames: seq<Frame>)
    requires FirstFrames(frames)
    ensures var steps := Joins(tunnel) + [Acquire(frames, false)]; var s := RunAll(tunnel, steps);
            && Legal(tunnel, steps) && Clean(s)
            && Two(s, Joined(tunnel), Joined(tunnel), [], Batch(frames, [0, 1], 0, false))
  {
    JoinsRun(tunnel);
    var s := RunAll(tunnel, Joins(tunnel));
    LegalMore(tunnel, Joins(tunnel), s, Acquire(frames, false));
    EveryRun(tunnel, Joins(tunnel));
    EveryRun(tunnel, Joins(tunnel) + [Acquire(frames, false)]);
    AcquireKeepsBooks(s.ledger, Holds(s), frames);
  }

  lemma CountStep(s: Sys, zero: Layer, one: Layer, owing: seq<GiveBack>, b: Batch)
    requires Inv(s) && Two(s, zero, one, owing, b) && !b.refused && b.at < |b.items|
    ensures var t := Apply(s, CountItem);
            && Enabled(s, CountItem) && Harmless(s, CountItem) && Inv(t) && SameHarm(s, t)
            && Two(t, zero, one, owing, b.(at := b.at + 1))
  {
    CountKeepsHarm(s);
  }

  lemma TakeStep(s: Sys, zero: Layer, one: Layer, b: Batch)
    requires Clean(s) && Two(s, zero, one, [], b) && Takes(zero)
    requires b.todo == [0, 1] && !b.refused && b.at == |b.items|
    ensures var t := Apply(s, Offer);
            && Enabled(s, Offer) && Harmless(s, Offer) && Clean(t)
            && Two(t, Deliver(zero, b.items).layer, one, [], Batch(b.items, [1], 0, false))
  {
    TakenIsClean(s);
    TakeMoves(s, zero, one, b);
  }

  lemma TakeMoves(s: Sys, zero: Layer, one: Layer, b: Batch)
    requires Two(s, zero, one, [], b) && Takes(zero) && b.todo == [0, 1] && !b.refused && b.at == |b.items|
    ensures Asking(s) && Enabled(s, Offer)
    ensures Two(Apply(s, Offer), Deliver(zero, b.items).layer, one, [], Batch(b.items, [1], 0, false))
  {
    assert b.todo[1..] == [1];
  }

  lemma TakenFacts(tunnel: nat, frames: seq<Frame>)
    ensures Takes(Joined(tunnel)) && Held(Joined(tunnel)) == [] && !Joined(tunnel).link.needRelease
    ensures Wf(Joined(tunnel)) && Joined(tunnel).link.tunnelId == tunnel
    ensures Held(Taken(tunnel, frames)) == frames && Held(Emptied(tunnel, frames)) == []
    ensures frames != [] ==> Plain(frames) != []
    ensures Flushes(Taken(tunnel, frames), Emptied(tunnel, frames), Plain(frames))
  {
    assert [] + [] + Plain(frames) == Plain(frames);
  }

  /** The flush takes layer `zero` to `after`, letting go of `gives`. */
  ghost predicate Flushes(zero: Layer, after: Layer, gives: seq<GiveBack>) {
    && LayerRuns.Step(zero, LayerRuns.OpFlush(false, false)) == Outcome(after, gives, 0)
    && !Detaches(zero, LayerRuns.OpFlush(false, false))
  }

  lemma FlushMoves(s: Sys, zero: Layer, one: Layer, after: Layer, gives: seq<GiveBack>, b: Batch)
    requires Two(s, zero, one, [], b) && Flushes(zero, after, gives) && gives != []
    ensures Enabled(s, FLUSH) && Two(Apply(s, FLUSH), after, one, gives, b)
  {
    assert Apply(s, FLUSH) == Move(s, 0, Outcome(after, gives, 0), false);
    assert s.layers[0 := after] == map[0 := after, 1 := one];
    assert s.owed[0 := Owed(gives, false)] == map[0 := Owed(gives, false)];
  }

  lemma FlushStep(s: Sys, zero: Layer, one: Layer, after: Layer, gives: seq<GiveBack>, b: Batch)
    requires Inv(s) && Two(s, zero, one, [], b) && Flushes(zero, after, gives) && gives != []
    ensures var t := Apply(s, FLUSH);
            && Enabled(s, FLUSH) && Harmless(s, FLUSH) && Inv(t) && (Gone(t) <==> Gone(s))
            && (Orphaned(t) <==> Orphaned(s))
            && Two(t, after, one, gives, b)
  {
    FlushMoves(s, zero, one, after, gives, b);
    LayerStepEffect(s, 0, LayerRuns.OpFlush(false, false));
  }

  /** Layer 0 is the only holder of what it owes. */
  lemma ZeroIsSole(s: Sys, zero: Layer, one: Layer, owing: seq<GiveBack>, b: Batch)
    requires Two(s, zero, one, owing, b) && owing != [] && owing[0].frame in b.items && Held(one) == []
    ensures Giving(s, 0) && NextGiven(s, 0) == owing[0].frame && SoleOnOffer(s, 0, owing[0].frame)
  {
    assert owing[0].frame in FramesIn(owing);
    assert OwedSet(s.owed, 1) == {} && HeldSet(s.layers[1]) == {};
  }

  lemma GiveMoves(s: Sys, zero: Layer, one: Layer, owing: seq<GiveBack>, b: Batch, luck: Luck)
    requires Two(s, zero, one, owing, b) && owing != []
    ensures Enabled(s, HandBack(0, luck)) && Two(Apply(s, HandBack(0, luck)), zero, one, owing[1..], b)
  {
    assert map[0 := Owed(owing, false)] - {0} == map[];
    assert map[0 := Owed(owing, false)][0 := Owed(owing[1..], false)] == map[0 := Owed(owing[1..], false)];
  }

  lemma GiveStep(s: Sys, zero: Layer, one: Layer, owing: seq<GiveBack>, b: Batch, luck: Luck)
    requires Inv(s) && Two(s, zero, one, owing, b) && owing != [] && owing[0].frame in b.items && Held(one) == []
    ensures var t, id := Apply(s, HandBack(0, luck)), owing[0].frame.id;
            && Enabled(s, HandBack(0, luck)) && Harmless(s, HandBack(0, luck)) && Inv(t)
            && Two(t, zero, one, owing[1..], b)
            && (Gone(t) <==> Gone(s) || id !in Ids(OnCount(b)))
            && (Orphaned(t) <==> Orphaned(s) || id in Ids(OnCount(b)))
  {
    ZeroIsSole(s, zero, one, owing, b);
    GiveMoves(s, zero, one, owing, b, luck);
    HandBackEffect(s, 0, luck);
  }

  /** A legal run that has come to such a state. */
  ghost predicate At(tunnel: nat, steps: seq<Step>, zero: Layer, one: Layer, owing: seq<GiveBack>, b: Batch) {
    Legal(tunnel, steps) && Inv(RunAll(tunnel, steps)) && Two(RunAll(tunnel, steps), zero, one, owing, b)
  }

  lemma AtBatch(tunnel: nat, steps: seq<Step>, zero: Layer, one: Layer, owing: seq<GiveBack>, b: Batch)
    requires At(tunnel, steps, zero, one, owing, b)
    ensures RunAll(tunnel, steps).batch == Some(b)
  {
  }

  lemma CountRun(tunnel: nat, steps: seq<Step>, zero: Layer, one: Layer, owing: seq<GiveBack>, b: Batch)
    requires At(tunnel, steps, zero, one, owing, b) && !b.refused && b.at < |b.items|
    ensures At(tunnel, steps + [CountItem], zero, one, owing, b.(at := b.at + 1))
    ensures SameHarm(RunAll(tunnel, steps), RunAll(tunnel, steps + [CountItem]))
  {
    CountStep(RunAll(tunnel, steps), zero, one, owing, b);
    LegalMore(tunnel, steps, RunAll(tunnel, steps), CountItem);
  }

  lemma TakeRun(tunnel: nat, steps: seq<Step>, zero: Layer, one: Layer, b: Batch)
    requires At(tunnel, steps, zero, one, [], b) && Clean(RunAll(tunnel, steps)) && Takes(zero)
    requires b.todo == [0, 1] && !b.refused && b.at == |b.items|
    ensures At(tunnel, steps + [Offer], Deliver(zero, b.items).layer, one, [], Batch(b.items, [1], 0, false))
    ensures Clean(RunAll(tunnel, steps + [Offer]))
  {
    TakeStep(RunAll(tunnel, steps), zero, one, b);
    LegalMore(tunnel, steps, RunAll(tunnel, steps), Offer);
  }

  lemma FlushRun(tunnel: nat, steps: seq<Step>, zero: Layer, one: Layer, after: Layer, gives: seq<GiveBack>, b: Batch)
    requires At(tunnel, steps, zero, one, [], b) && Flushes(zero, after, gives) && gives != []
    requires Clean(RunAll(tunnel, steps))
    ensures At(tunnel, steps + [FLUSH], after, one, gives, b) && Clean(RunAll(tunnel, steps + [FLUSH]))
  {
    FlushStep(RunAll(tunnel, steps), zero, one, after, gives, b);
    LegalMore(tunnel, steps, RunAll(tunnel, steps), FLUSH);
  }

  lemma GiveRun(tunnel: nat, steps: seq<Step>, zero: Layer, one: Layer, owing: seq<GiveBack>, b: Batch, luck: Luck)
    requires At(tunnel, steps, zero, one, owing, b)
    requires owing != [] && owing[0].frame in b.items && Held(one) == []
    ensures At(tunnel, steps + [HandBack(0, luck)], zero, one, owing[1..], b)
    ensures var s, t, id := RunAll(tunnel, steps), RunAll(tunnel, steps + [HandBack(0, luck)]), owing[0].frame.id;
            && (Gone(t) <==> Gone(s) || id !in Ids(OnCount(b)))
            && (Orphaned(t) <==> Orphaned(s) || id in Ids(OnCount(b)))
  {
    GiveStep(RunAll(tunnel, steps), zero, one, owing, b, luck);
    LegalMore(tunnel, steps, RunAll(tunnel, steps), HandBack(0, luck));
  }

  // ---- one buffer ----

  /** Layers 0 and 1 join, one buffer arrives, layer 0 takes it and lets go of it. */
  function Opening(tunnel: nat): seq<Step> {
    Joins(tunnel) + [Acquire([ONE], false)] + [CountItem] + [Offer] + [FLUSH]
  }

  lemma OpeningRun(tunnel: nat, frames: seq<Frame>)
    requires frames == [ONE]
    ensures At(tunnel, Opening(tunnel), Emptied(tunnel, frames), Joined(tunnel), Plain(frames),
               Batch(frames, [1], 0, false))
    ensures Clean(RunAll(tunnel, Opening(tunnel)))
  {
    hide Inv, RunAll, Legal, Gone, Orphaned, Two, Emptied, Joined, Plain, Flushes;
    var steps, j, b := Joins(tunnel) + [Acquire(frames, false)], Joined(tunnel), Batch(frames, [0, 1], 0, false);
    TakenFacts(tunnel, frames);
    AcquireRun(tunnel, frames);
    CountRun(tunnel, steps, j, j, [], b);
    TakeRun(tunnel, steps + [CountItem], j, j, b.(at := 1));
    FlushRun(tunnel, steps + [CountItem] + [Offer], Taken(tunnel, frames), j, Emptied(tunnel, frames), Plain(frames),
             Batch(frames, [1], 0, false));
  }

  /** What is on offer and no longer queued has been returned. */
  lemma GoneWasReturned(s: Sys, f: Frame)
    requires Inv(s) && s.batch.Some? && f in s.batch.value.items && !InQueue(s.ledger.queue, f)
    ensures WasReturned(s.ledger.returned, f.id)
  {
    var q, items := s.ledger.queue, s.batch.value.items;
    assert f.id in Ids(items);
    assert f.id < s.ledger.next;
    forall i | 0 <= i < |q| ensures q[i].frame.id != f.id {
      SameIdSameFrame(s, i, f);
      assert q[i].frame == f ==> InQueue(q, f);
    }
  }

  lemma SameIdSameFrame(s: Sys, i: nat, f: Frame)
    requires Inv(s) && s.batch.Some? && f in s.batch.value.items && i < |s.ledger.queue|
    ensures s.ledger.queue[i].frame.id == f.id ==> s.ledger.queue[i].frame == f
  {
    var items := s.batch.value.items;
    OfferedItems(s);
    assert f.id in Ids(items);
    var k :| 0 <= k < |items| && items[k] == f;
    assert Increasing(items);
  }

  /** The one buffer on offer goes back before it is counted. */
  lemma GoesBack(tunnel: nat, steps: seq<Step>, zero: Layer, one: Layer, owing: seq<GiveBack>, b: Batch, luck: Luck)
    requires At(tunnel, steps, zero, one, owing, b) && |owing| == 1 && Held(one) == []
    requires b.items == [owing[0].frame] && b.at == 0 && !b.refused
    ensures At(tunnel, steps + [HandBack(0, luck)], zero, one, [], b)
    ensures WasReturned(RunAll(tunnel, steps + [HandBack(0, luck)]).ledger.returned, owing[0].frame.id)
  {
    hide Inv, RunAll, Legal, Gone, Orphaned, Two;
    assert owing[0].frame in b.items && owing[1..] == [] && OnCount(b) == [];
    GiveRun(tunnel, steps, zero, one, owing, b, luck);
    AtBatch(tunnel, steps + [HandBack(0, luck)], zero, one, owing[1..], b);
    OneIsGone(RunAll(tunnel, steps + [HandBack(0, luck)]), owing[0].frame);
  }

  /** The one buffer on offer goes back after it was counted. */
  lemma GoesBackLate(tunnel: nat, steps: seq<Step>, zero: Layer, one: Layer, owing: seq<GiveBack>, b: Batch, luck: Luck)
    requires At(tunnel, steps, zero, one, owing, b) && |owing| == 1 && Held(one) == []
    requires b.items == [owing[0].frame] && b.at == 0 && !b.refused
    ensures At(tunnel, steps + [CountItem] + [HandBack(0, luck)], zero, one, [], b.(at := 1))
    ensures Orphaned(RunAll(tunnel, steps + [CountItem] + [HandBack(0, luck)]))
  {
    hide Inv, RunAll, Legal, Gone, Orphaned, Two;
    CountRun(tunnel, steps, zero, one, owing, b);
    assert owing[0].frame in b.items && owing[1..] == [] && OnCount(b.(at := 1)) == b.items;
    GiveRun(tunnel, steps + [CountItem], zero, one, owing, b.(at := 1), luck);
  }

  lemma OneIsGone(s: Sys, f: Frame)
    requires Inv(s) && Gone(s) && s.batch.value.items == [f]
    ensures WasReturned(s.ledger.returned, f.id)
  {
    GoneWasReturned(s, f);
  }

  lemma TakesReturned(s: Sys, zero: Layer, one: Layer, b: Batch)
    requires Two(s, zero, one, [], b) && b == Batch([ONE], [1], 0, false) && Wf(one) && Takes(one)
    ensures var u := Apply(s, CountItem); var t := Apply(u, Offer);
            && Enabled(s, CountItem) && Enabled(u, Offer) && t.batch.None?
            && 1 in t.layers && ONE in Held(t.layers[1]) && t.ledger.returned == s.ledger.returned
  {
    LayerRuns.DeliverAdds(one, [ONE]);
  }

  /**
   * A run in which harm is done: layer 0 hands its only reference back before layer 1 is
   * counted. The buffer goes to the driver, layer 1 is offered it all the same, and in the
   * end holds a buffer that has been returned.
   */
  lemma EarlyReturnRun(tunnel: nat, luck: Luck)
    ensures var steps := Opening(tunnel) + [HandBack(0, luck)] + [CountItem] + [Offer]; var s := RunAll(tunnel, steps);
            && Allowed(tunnel, steps) && s.batch.None?
            && 1 in s.layers && ONE in Held(s.layers[1]) && WasReturned(s.ledger.returned, ONE.id)
  {
    hide Inv, RunAll, Legal, Gone, Orphaned, Two;
    var steps := Opening(tunnel) + [HandBack(0, luck)];
    OpeningRun(tunnel, [ONE]);
    TakenFacts(tunnel, [ONE]);
    GoesBack(tunnel, Opening(tunnel), Emptied(tunnel, [ONE]), Joined(tunnel), Plain([ONE]),
             Batch([ONE], [1], 0, false), luck);
    TakesReturned(RunAll(tunnel, steps), Emptied(tunnel, [ONE]), Joined(tunnel), Batch([ONE], [1], 0, false));
    RunMore(tunnel, steps, CountItem);
    RunMore(tunnel, steps + [CountItem], Offer);
  }

  const REFUSES := LayerStep(1, LayerRuns.OpSetNonTunnel)

  lemma TurnMoves(s: Sys, zero: Layer, one: Layer, b: Batch)
    requires Two(s, zero, one, [], b) && !one.link.needRelease
    ensures Enabled(s, REFUSES)
    ensures var t := Apply(s, REFUSES); t.batch == Some(b) && t.owed == map[] && 1 in t.layers && !Takes(t.layers[1])
  {
  }

  /** Layer 1 stops being a tunnel layer. */
  lemma TurnAway(tunnel: nat, steps: seq<Step>, zero: Layer, one: Layer, b: Batch)
    requires At(tunnel, steps, zero, one, [], b) && !one.link.needRelease
    ensures var t := RunAll(tunnel, steps + [REFUSES]);
            && Legal(tunnel, steps + [REFUSES]) && Inv(t) && (Orphaned(t) <==> Orphaned(RunAll(tunnel, steps)))
            && t.batch == Some(b) && t.owed == map[] && 1 in t.layers && !Takes(t.layers[1])
  {
    hide Inv, Gone, Orphaned;
    var s := RunAll(tunnel, steps);
    TurnMoves(s, zero, one, b);
    LayerStepEffect(s, 1, LayerRuns.OpSetNonTunnel);
    LegalMore(tunnel, steps, s, REFUSES);
  }

  /** The offer that layer 1 refuses, and the counting down. */
  lemma RefuseMoves(s: Sys)
    requires s.batch == Some(Batch([ONE], [1], 1, false)) && s.owed == map[] && 1 in s.layers && !Takes(s.layers[1])
    ensures var u := Apply(s, Offer); var t := Apply(u, UncountItem);
            && Enabled(s, Offer) && Enabled(u, UncountItem) && t.batch.None?
            && t.layers == s.layers && t.owed == s.owed
            && t.ledger == s.ledger.(queue := Reffed(s.ledger.queue, {ONE.id}, false))
  {
  }

  /** What is orphaned in the offer of one buffer is that buffer, and one reference is counted for it. */
  lemma OrphanIsOne(s: Sys) returns (i: nat)
    requires Inv(s) && Orphaned(s) && s.batch == Some(Batch([ONE], [1], 1, false))
    ensures i < |s.ledger.queue| && s.ledger.queue[i].frame == ONE && s.ledger.queue[i].refs == 1
    ensures ONE.id in s.ledger.accepted && Holders(Holds(s), ONE) == {}
  {
    i :| 0 <= i < |s.ledger.queue| && Bare(s.ledger, Holds(s), i);
    OfferedItems(s);
    assert OnCount(s.batch.value) == [ONE];
    assert s.ledger.queue[i].frame.id in Ids([ONE]);
  }

  /**
   * The other one: layer 0 hands it back after it has been counted for layer 1, and layer 1,
   * which has meanwhile stopped being a tunnel layer, refuses. The buffer was accepted
   * once, is still queued with a count of zero, and nobody holds it.
   */
  lemma OrphanRun(tunnel: nat, luck: Luck)
    ensures var steps := Opening(tunnel) + [CountItem] + [HandBack(0, luck)] + [REFUSES] + [Offer] + [UncountItem];
            var s := RunAll(tunnel, steps);
            && Allowed(tunnel, steps) && s.batch.None? && ONE.id in s.ledger.accepted && Holders(Holds(s), ONE) == {}
            && exists i :: 0 <= i < |s.ledger.queue| && s.ledger.queue[i].frame == ONE && s.ledger.queue[i].refs == 0
  {
    hide Inv, RunAll, Legal, Orphaned, Two, Emptied, Joined;
    var steps := Opening(tunnel) + [CountItem] + [HandBack(0, luck)];
    OpeningRun(tunnel, [ONE]);
    TakenFacts(tunnel, [ONE]);
    GoesBackLate(tunnel, Opening(tunnel), Emptied(tunnel, [ONE]), Joined(tunnel), Plain([ONE]),
                 Batch([ONE], [1], 0, false),
                 luck);
    TurnAway(tunnel, steps, Emptied(tunnel, [ONE]), Joined(tunnel), Batch([ONE], [1], 1, false));
    RefusedAtEnd(tunnel, steps + [REFUSES]);
  }

  lemma RefusedAtEnd(tunnel: nat, steps: seq<Step>)
    requires var s := RunAll(tunnel, steps);
             && Legal(tunnel, steps) && Inv(s) && Orphaned(s) && s.batch == Some(Batch([ONE], [1], 1, false))
             && s.owed == map[] && 1 in s.layers && !Takes(s.layers[1])
    ensures var s := RunAll(tunnel, steps + [Offer] + [UncountItem]);
            && Allowed(tunnel, steps + [Offer] + [UncountItem])
            && s.batch.None? && ONE.id in s.ledger.accepted && Holders(Holds(s), ONE) == {}
            && exists i :: 0 <= i < |s.ledger.queue| && s.ledger.queue[i].frame == ONE && s.ledger.queue[i].refs == 0
  {
    var s := RunAll(tunnel, steps);
    var i := OrphanIsOne(s);
    RefuseMoves(s);
    RunMore(tunnel, steps, Offer);
    RunMore(tunnel, steps + [Offer], UncountItem);
    var t := Apply(Apply(s, Offer), UncountItem);
    assert t.ledger.queue[i].frame == ONE && t.ledger.queue[i].refs == 0;
  }

  // ---- two buffers ----

  /** The same with two buffers, both taken and let go of by layer 0. */
  function WideOpening(tunnel: nat): seq<Step> {
    Joins(tunnel) + [Acquire([ONE, TWO], false)] + [CountItem] + [CountItem] + [Offer] + [FLUSH]
  }

  lemma WideOpeningRun(tunnel: nat, frames: seq<Frame>)
    requires frames == [ONE, TWO]
    ensures At(tunnel, WideOpening(tunnel), Emptied(tunnel, frames), Joined(tunnel), Plain(frames),
               Batch(frames, [1], 0, false))
  {
    hide Inv, RunAll, Legal, Gone, Orphaned, Two, Emptied, Joined, Plain, Flushes;
    var steps, j, b := Joins(tunnel) + [Acquire(frames, false)], Joined(tunnel), Batch(frames, [0, 1], 0, false);
    TakenFacts(tunnel, frames);
    AcquireRun(tunnel, frames);
    CountRun(tunnel, steps, j, j, [], b);
    CountRun(tunnel, steps + [CountItem], j, j, [], b.(at := 1));
    TakeRun(tunnel, steps + [CountItem] + [CountItem], j, j, b.(at := 2));
    FlushRun(tunnel, steps + [CountItem] + [CountItem] + [Offer], Taken(tunnel, frames), j, Emptied(tunnel, frames),
             Plain(frames), Batch(frames, [1], 0, false));
  }

  /**
   * Of two buffers on offer the first goes back, then both are counted, then the second
   * goes back: the first has gone and the second is orphaned.
   */
  lemma SplitFlush(tunnel: nat, steps: seq<Step>, zero: Layer, one: Layer, owing: seq<GiveBack>, b: Batch, luck: Luck)
    requires At(tunnel, steps, zero, one, owing, b) && |owing| == 2 && Held(one) == []
    requires b.items == [owing[0].frame, owing[1].frame] && b.at == 0 && !b.refused
    ensures var more := steps + [HandBack(0, luck)] + [CountItem] + [CountItem] + [HandBack(0, luck)];
            var s := RunAll(tunnel, more);
            Legal(tunnel, more) && Inv(s) && s.batch.Some? && Gone(s) && Orphaned(s)
  {
    hide Inv, RunAll, Legal, Gone, Orphaned, Two;
    assert owing[0].frame in b.items && owing[1].frame in b.items && OnCount(b) == [];
    GiveRun(tunnel, steps, zero, one, owing, b, luck);
    CountRun(tunnel, steps + [HandBack(0, luck)], zero, one, owing[1..], b);
    CountRun(tunnel, steps + [HandBack(0, luck)] + [CountItem], zero, one, owing[1..], b.(at := 1));
    assert OnCount(b.(at := 2)) == b.items && owing[1..][0] == owing[1];
    GiveRun(tunnel, steps + [HandBack(0, luck)] + [CountItem] + [CountItem], zero, one, owing[1..], b.(at := 2), luck);
    AtBatch(tunnel, steps + [HandBack(0, luck)] + [CountItem] + [CountItem] + [HandBack(0, luck)], zero, one,
            owing[1..][1..], b.(at := 2));
  }

  /**
   * A run in which the counting for layer 1 falls between the two hand-backs of layer 0's
   * flush: the delivery ends badly whether layer 1 takes the offer or not.
   */
  lemma SplitFlushRun(tunnel: nat, frames: seq<Frame>, luck: Luck)
    requires frames == [ONE, TWO]
    ensures var steps := WideOpening(tunnel) + [HandBack(0, luck)] + [CountItem] + [CountItem] + [HandBack(0, luck)];
            var s := RunAll(tunnel, steps);
            Legal(tunnel, steps) && Inv(s) && Gone(s) && Orphaned(s) && !Inv(DeliverAll(s))
  {
    hide Inv, RunAll, Legal, Gone, Orphaned, Two, Emptied, Joined;
    var steps := WideOpening(tunnel) + [HandBack(0, luck)] + [CountItem] + [CountItem] + [HandBack(0, luck)];
    WideOpeningRun(tunnel, frames);
    TakenFacts(tunnel, frames);
    assert Plain(frames)[0].frame == ONE && Plain(frames)[1].frame == TWO;
    SplitFlush(tunnel, WideOpening(tunnel), Emptied(tunnel, frames), Joined(tunnel), Plain(frames),
               Batch(frames, [1], 0, false),
               luck);
    SplitFlushAlwaysHarms(RunAll(tunnel, steps));
  }
}
