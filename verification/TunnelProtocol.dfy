/**
 * One tunnel instance and all the layers that listen to it, as a state machine whose steps
 * are the program's atomic sections: the driver hands out buffers; for each consumer every
 * buffer is counted, then all are offered, and after a refusal counted down again; and
 * meanwhile layers work on their frames, hand them back one by one, join and leave.
 */
module TunnelProtocol {
  import opened VideoTunnelTypes
  import opened DrmSync
  import opened TunnelInstance
  import opened LayerSpec
  import opened BufferLedger
  import LayerRuns

  /**
   * A delivery under way: `acquireBuffer` between taking buffers and having told everyone.
   * The first `at` items have been counted up for the next consumer, or, once one has
   * refused, counted down again.
   */
  datatype Batch = Batch(items: seq<Frame>, todo: seq<nat>, at: nat, refused: bool)

  /** A layer with its lock held: hand-backs still to be made, and whether it then leaves the tunnel. */
  datatype Owed = Owed(gives: seq<GiveBack>, leaves: bool)

  datatype Sys = Sys(
    ledger: Ledger,
    consumers: seq<nat>,     // mConsumers
    layers: map<nat, Layer>, // every layer attached to the instance
    owed: map<nat, Owed>,    // the layers in the middle of handing back
    batch: Option<Batch>)

  datatype Step =
    | Acquire(frames: seq<Frame>, driverFails: bool)
    | CountItem                          // refHandle of one item for the next consumer
    | Offer                              // its onFrameAvailable; a refusal erases it
    | UncountItem                        // unrefHandle of one item after a refusal
    | LayerStep(layer: nat, op: LayerRuns.Op)
    | HandBack(layer: nat, luck: Luck)   // one onFrameDisplayed
    | LeaveTunnel(layer: nat)            // unregisterVtConsumer, after everything went back
    | Join(layer: nat, state: Layer)     // registerVtConsumer reached this instance
    | Signal(points: set<nat>)

  /** A new instance, connected to its tunnel. */
  function Start(tunnel: nat): Sys {
    Sys(Ledger(tunnel, [], [], 0, {}, {}), [], map[], map[], None)
  }

  function HeldSet(l: Layer): set<Frame> {
    set f | f in Held(l)
  }

  function OwedSet(owed: map<nat, Owed>, l: nat): set<Frame> {
    if l in owed then FramesIn(owed[l].gives) else {}
  }

  /** What a layer holds, or has let go of but not yet handed back. */
  function Holds(s: Sys): Holdings {
    HoldsOf(s.layers, s.owed)
  }

  function HoldsOf(layers: map<nat, Layer>, owed: map<nat, Owed>): Holdings {
    map l | l in layers :: HeldSet(layers[l]) + OwedSet(owed, l)
  }

  function Ids(frames: seq<Frame>): set<nat> {
    set f | f in frames :: f.id
  }

  /** The items that carry a reference for an offer that is prepared, made, or taken back. */
  function OnCount(b: Batch): seq<Frame> {
    if b.at > |b.items| then [] else if b.refused then b.items[b.at..] else b.items[..b.at]
  }

  function Offered(s: Sys): set<nat> {
    if s.batch.Some? then Ids(OnCount(s.batch.value)) else {}
  }

  /** The buffers of a delivery under way. */
  function Open(s: Sys): set<nat> {
    if s.batch.Some? then Ids(s.batch.value.items) else {}
  }

  function Remove(consumers: seq<nat>, c: nat): seq<nat> {
    if consumers == [] then []
    else
      var last := consumers[|consumers| - 1];
      Remove(consumers[..|consumers| - 1], c) + if last == c then [] else [last]
  }

  /** The delivery goes on with these consumers. */
  function Remaining(items: seq<Frame>, todo: seq<nat>): Option<Batch> {
    if todo == [] then None else Some(Batch(items, todo, 0, false))
  }

  // One function per atomic step.

  function TakeBuffers(s: Sys, frames: seq<Frame>, driverFails: bool): Sys {
    s.(ledger := BufferLedger.Acquire(s.ledger, frames),
       batch := if driverFails || frames == [] then s.batch else Remaining(frames, s.consumers))
  }

  predicate Counting(s: Sys) {
    s.batch.Some? && !s.batch.value.refused && s.batch.value.at < |s.batch.value.items|
  }

  function CountNext(s: Sys): Sys
    requires Counting(s)
  {
    var b := s.batch.value;
    s.(ledger := s.ledger.(queue := Reffed(s.ledger.queue, {b.items[b.at].id}, true)),
       batch := Some(b.(at := b.at + 1)))
  }

  /** Every item is counted, and the consumer is asked. */
  predicate Asking(s: Sys) {
    && s.batch.Some? && !s.batch.value.refused && s.batch.value.at == |s.batch.value.items|
    && s.batch.value.todo != [] && s.batch.value.todo[0] in s.layers
  }

  /** The next consumer keeps the offer; its layer is now `state`. */
  function Accept(s: Sys, c: nat, state: Layer): Sys
    requires s.batch.Some? && s.batch.value.todo != []
  {
    var b := s.batch.value;
    s.(ledger := s.ledger.(accepted := s.ledger.accepted + Ids(b.items)), layers := s.layers[c := state],
       batch := Remaining(b.items, b.todo[1..]))
  }

  /** The next consumer refuses, and is erased. */
  function Refuse(s: Sys, c: nat): Sys
    requires s.batch.Some? && s.batch.value.todo != []
  {
    var b := s.batch.value;
    s.(consumers := Remove(s.consumers, c), batch := Some(Batch(b.items, b.todo[1..], 0, true)))
  }

  predicate Uncounting(s: Sys) {
    s.batch.Some? && s.batch.value.refused && s.batch.value.at < |s.batch.value.items|
  }

  /** The answer of `unrefHandle` is ignored. */
  function UncountNext(s: Sys): Sys
    requires Uncounting(s)
  {
    var b := s.batch.value;
    s.(ledger := s.ledger.(queue := Reffed(s.ledger.queue, {b.items[b.at].id}, false)),
       batch := if b.at + 1 == |b.items| then Remaining(b.items, b.todo) else Some(b.(at := b.at + 1)))
  }

  /** Layer l has moved to `o.layer`; what it lets go of is still to be handed back. */
  function Move(s: Sys, l: nat, o: Outcome, leaves: bool): Sys {
    s.(layers := s.layers[l := o.layer],
       owed := if o.gives == [] && !leaves then s.owed else s.owed[l := Owed(o.gives, leaves)])
  }

  predicate Giving(s: Sys, l: nat) {
    l in s.layers && l in s.owed && s.owed[l].gives != []
  }

  /** Layer l makes its next hand-back, and releases its lock after the last one unless it leaves. */
  function Give(s: Sys, l: nat, luck: Luck): Sys
    requires Giving(s, l)
  {
    var o := s.owed[l];
    s.(ledger := GiveOne(s.ledger, o.gives[0].frame, o.gives[0].fence, luck),
       owed := if |o.gives| == 1 && !o.leaves then s.owed - {l} else s.owed[l := Owed(o.gives[1..], o.leaves)])
  }

  predicate Leaving(s: Sys, l: nat) {
    l in s.layers && l in s.owed && s.owed[l] == Owed([], true)
  }

  function Quit(s: Sys, l: nat): Sys {
    s.(consumers := Remove(s.consumers, l), layers := s.layers - {l}, owed := s.owed - {l})
  }

  function Enter(s: Sys, l: nat, state: Layer): Sys {
    s.(consumers := s.consumers + [l], layers := s.layers[l := state])
  }

  function Ask(s: Sys): Sys
    requires Asking(s)
  {
    var c := s.batch.value.todo[0];
    if Takes(s.layers[c]) then Accept(s, c, Deliver(s.layers[c], s.batch.value.items).layer) else Refuse(s, c)
  }

  function Apply(s: Sys, step: Step): Sys {
    match step
    case Acquire(frames, driverFails) => TakeBuffers(s, frames, driverFails)
    case CountItem => if Counting(s) then CountNext(s) else s
    case Offer => if Asking(s) then Ask(s) else s
    case UncountItem => if Uncounting(s) then UncountNext(s) else s
    case LayerStep(l, op) =>
      if l in s.layers then Move(s, l, LayerRuns.Step(s.layers[l], op), Detaches(s.layers[l], op)) else s
    case HandBack(l, luck) => if Giving(s, l) then Give(s, l, luck) else s
    case LeaveTunnel(l) => if Leaving(s, l) then Quit(s, l) else s
    case Join(l, state) => Enter(s, l, state)
    case Signal(points) => s.(ledger := s.ledger.(signalled := s.ledger.signalled + points))
  }

  /** The layer keeps what it is offered: `onVtFrameAvailable` does not refuse. */
  predicate Takes(l: Layer) {
    (l.link.isVt || l.link.needRelease) && l.link.tunnelId >= 0
  }

  /** The layer leaves its tunnel: `disconnectInstanceLocked`. */
  predicate Detaches(l: Layer, op: LayerRuns.Op) {
    LayerRuns.Step(l, op).layer.link.tunnelId != l.link.tunnelId
  }

  /** Nobody holds the manager's lock: no delivery is under way, and no layer is leaving. */
  ghost predicate ManagerFree(s: Sys) {
    s.batch.None? && forall l :: l in s.owed ==> !s.owed[l].leaves
  }

  /**
   * What the surroundings guarantee. Buffers are acquired, consumers join and consumers
   * leave under the manager's lock. A layer works, and takes an offer, under its own lock,
   * which it keeps until it has handed back what it let go of. The driver's descriptors
   * are not in use; layers get frames from the instance only. A layer that believes to have
   * joined after a failed connect (`LayerSpec.FailedConnectIsForgotten`) has not: it never makes a `Join`.
   */
  ghost predicate Enabled(s: Sys, step: Step) {
    match step
    case Acquire(frames, _) => ManagerFree(s) && FreshFrames(s.ledger, frames)
    case CountItem => Counting(s)
    case Offer => Asking(s) && s.batch.value.todo[0] !in s.owed
    case UncountItem => Uncounting(s)
    case LayerStep(l, op) =>
      l in s.layers && l !in s.owed && !op.OpDeliver? && (Detaches(s.layers[l], op) ==> ManagerFree(s))
    case HandBack(l, _) => Giving(s, l)
    case LeaveTunnel(l) => Leaving(s, l)
    case Join(l, state) => ManagerFree(s) && l !in s.layers && Wf(state) && state.link.tunnelId >= 0
        && Held(state) == []
    case Signal(_) => true
  }

  /** A buffer on offer has gone back to the driver in the meantime. */
  ghost predicate Gone(s: Sys) {
    s.batch.Some? && exists f :: f in s.batch.value.items && !InQueue(s.ledger.queue, f)
  }

  /** A buffer that some layer took in this delivery has no holder left. */
  ghost predicate Orphaned(s: Sys) {
    AnyBare(s.ledger, Holds(s))
  }

  /**
   * The two ways in which a step can break the accounts: a consumer takes an offer of which
   * a buffer has already gone back, or the delivery ends with a refusal while a buffer that
   * was taken before has no holder left.
   */
  ghost predicate Harmless(s: Sys, step: Step) {
    && (step.Offer? && Asking(s) && Takes(s.layers[s.batch.value.todo[0]]) ==> !Gone(s))
    && (step.UncountItem? && Uncounting(s) && Ends(s.batch.value) ==> !Orphaned(s))
  }

  /** This was the last consumer and this is the last item to be counted down. */
  predicate Ends(b: Batch) {
    b.todo == [] && b.at + 1 == |b.items|
  }

  ghost predicate LayersOk(layers: map<nat, Layer>) {
    forall l :: l in layers ==> Wf(layers[l]) && Increasing(Held(layers[l]))
  }

  ghost predicate ConsumersOk(consumers: seq<nat>, layers: map<nat, Layer>) {
    Distinct(consumers) && forall c :: c in consumers ==> c in layers
  }

  /** What a layer has still to hand back: it no longer holds it, and each frame comes once. */
  ghost predicate OwedOk(o: Owed, l: Layer) {
    && (forall i, j :: 0 <= i < j < |o.gives| ==> o.gives[i].frame != o.gives[j].frame)
    && (forall f :: f in FramesIn(o.gives) ==> f !in Held(l))
    && (o.leaves ==> Held(l) == [])
  }

  ghost predicate AllOwedOk(owed: map<nat, Owed>, layers: map<nat, Layer>) {
    forall l :: l in owed ==> l in layers && OwedOk(owed[l], layers[l])
  }

  /** The items on offer are the newest buffers; only consumers already told hold any; and nobody is leaving. */
  ghost predicate BatchOk(s: Sys) {
    s.batch.Some? ==>
      var b := s.batch.value;
      && OnOffer(s.ledger, b.items) && TodoOk(s.consumers, b) && OnlyToldHold(Holds(s), s.consumers, b.items, b.todo)
      && forall l :: l in s.owed ==> !s.owed[l].leaves
  }

  ghost predicate Inv(s: Sys) {
    && Books(s.ledger, Holds(s), Offered(s), Open(s)) && LayersOk(s.layers) && ConsumersOk(s.consumers, s.layers)
    && AllOwedOk(s.owed, s.layers) && BatchOk(s)
  }

  // ---- the layers' own steps ----

  lemma CutSame(whole: seq<Frame>, k: nat, gone: seq<Frame>, rest: seq<Frame>)
    requires LayerRuns.CutOut(whole, k, gone, rest)
    ensures forall f :: f in whole <==> f in gone || f in rest
  {
    assert rest == rest[..k] + rest[k..];
  }

  lemma CutIncreasing(whole: seq<Frame>, k: nat, gone: seq<Frame>, rest: seq<Frame>)
    requires Increasing(whole) && LayerRuns.CutOut(whole, k, gone, rest)
    ensures Increasing(rest) && Increasing(gone)
    ensures forall f :: f in whole <==> f in gone || f in rest
    ensures forall f :: f in gone ==> f !in rest
  {
    var n := |gone|;
    assert forall i :: 0 <= i < |rest| ==> rest[i] == whole[if i < k then i else i + n];
    assert forall i :: 0 <= i < n ==> gone[i] == whole[k + i];
    CutSame(whole, k, gone, rest);
  }

  /** From `held` to `o`: frames that were held go back, each once, and the others are kept. */
  ghost predicate Handed(held: seq<Frame>, o: Outcome, leaves: bool) {
    && Wf(o.layer) && Increasing(Held(o.layer))
    && HeldSet(o.layer) == (set f | f in held) - FramesIn(o.gives)
    && (forall i :: 0 <= i < |o.gives| ==> o.gives[i].frame in held)
    && (forall i, j :: 0 <= i < j < |o.gives| ==> o.gives[i].frame != o.gives[j].frame)
    && (leaves ==> Held(o.layer) == [])
  }

  lemma CutIsHanded(held: seq<Frame>, o: Outcome, k: nat)
    requires Increasing(held) && Wf(o.layer) && LayerRuns.CutOut(held, k, Frames(o.gives), Held(o.layer))
    ensures Handed(held, o, false)
  {
    CutIncreasing(held, k, Frames(o.gives), Held(o.layer));
    assert forall i :: 0 <= i < |o.gives| ==> Frames(o.gives)[i] == o.gives[i].frame;
    forall f ensures f in Frames(o.gives) <==> f in FramesIn(o.gives) {
      if f in Frames(o.gives) {
        var i :| 0 <= i < |o.gives| && Frames(o.gives)[i] == f;
        assert o.gives[i].frame == f;
      }
    }
  }

  lemma LayerStepHands(l: Layer, op: LayerRuns.Op)
    requires Wf(l) && Increasing(Held(l)) && !op.OpDeliver?
    ensures Handed(Held(l), LayerRuns.Step(l, op), Detaches(l, op))
  {
    var k := StepCut(l, op);
    CutIsHanded(Held(l), LayerRuns.Step(l, op), k);
    if Detaches(l, op) { DetachedIsEmpty(l, op); }
  }

  lemma StepCut(l: Layer, op: LayerRuns.Op) returns (k: nat)
    requires Wf(l) && !op.OpDeliver?
    ensures var o := LayerRuns.Step(l, op);
            Wf(o.layer) && LayerRuns.CutOut(Held(l), k, Frames(o.gives), Held(o.layer))
  {
    if LayerRuns.NewlyShown(l, op) == [] {
      k := LayerRuns.StepSheds(l, op);
    } else {
      k := 0;
      LayerRuns.ReleaseShows(l);
    }
  }

  /** A layer that leaves its tunnel has handed everything back first. */
  lemma DetachedIsEmpty(l: Layer, op: LayerRuns.Op)
    requires Wf(l) && !op.OpDeliver? && Detaches(l, op)
    ensures Held(LayerRuns.Step(l, op).layer) == []
  {
    match op
    case OpFlush(disconnect, keepLast) =>
    case OpInterrupt(fd) => FlushKeepsTunnel(l);
    case OpClearUpdateFlag =>
    case OpSetTunnel(channel, ok) => SetTunnelEmpties(l, channel, ok);
    case _ =>
  }

  lemma SetTunnelEmpties(l: Layer, channel: int, ok: bool)
    requires Wf(l) && SetTunnel(l, channel, ok).layer.link.tunnelId != l.link.tunnelId
    ensures Held(SetTunnel(l, channel, ok).layer) == []
  {
    var b := BecomeTunnel(l);
    if b.link.tunnelId >= 0 {
      FullFlushEmpties(b);
      RegisterEmpty(Flush(b, true, false).layer, channel, ok);
    } else {
      RegisterEmpty(b, channel, ok);
    }
  }

  lemma FullFlushEmpties(l: Layer)
    requires l.link.isVt && l.link.connected
    ensures Flush(l, true, false).layer.pre.None? && Flush(l, true, false).layer.queue == []
  {
  }

  lemma RegisterEmpty(l: Layer, channel: int, ok: bool)
    requires l.pre.None? && l.queue == []
    ensures Held(Register(l, channel, ok)) == []
  {
  }

  lemma FlushKeepsTunnel(l: Layer)
    ensures HandleStatus(l).layer.link.tunnelId == l.link.tunnelId
  {
  }

  // ---- every step keeps the invariant ----

  lemma HeldInQueue(s: Sys, l: nat, f: Frame)
    requires Inv(s) && l in s.layers && f in Holds(s)[l]
    ensures InQueue(s.ledger.queue, f)
  {
  }

  /** While buffers are on offer, no newer ones are queued. */
  ghost predicate OnOffer(g: Ledger, items: seq<Frame>) {
    && items != [] && Increasing(items)
    && (forall f :: f in items ==> f.id < g.next)
    && (forall f :: InQueue(g.queue, f) && f.id >= items[0].id ==> f in items)
  }

  ghost predicate OnlyToldHold(h: Holdings, consumers: seq<nat>, items: seq<Frame>, todo: seq<nat>) {
    forall l, f :: l in h && f in h[l] && f in items ==> l in consumers && l !in todo
  }

  ghost predicate TodoOk(consumers: seq<nat>, b: Batch) {
    && Distinct(b.todo) && (forall c :: c in b.todo ==> c in consumers)
    && if b.refused then b.at < |b.items| else b.at <= |b.items| && b.todo != []
  }

  lemma AcquiredOnOffer(g: Ledger, h: Holdings, frames: seq<Frame>)
    requires Books(g, h, {}, {}) && frames != [] && FreshFrames(g, frames)
    ensures OnOffer(BufferLedger.Acquire(g, frames), frames)
    ensures forall l, f :: l in h && f in h[l] ==> f !in frames
  {
    var q' := g.queue + NewBuffers(frames, -1);
    forall f | InQueue(q', f) && f.id >= frames[0].id ensures f in frames {
      var i :| 0 <= i < |q'| && q'[i].frame == f;
      assert i >= |g.queue|;
      assert frames[i - |g.queue|] == f;
    }
    forall l, f | l in h && f in h[l] ensures f !in frames {
      assert InQueue(g.queue, f);
    }
  }

  /** Opening a delivery allows more. */
  lemma OpenKeepsBooks(g: Ledger, h: Holdings, open: set<nat>)
    requires Books(g, h, {}, {})
    ensures Books(g, h, {}, open)
  {
  }

  lemma TakeBuffersKeepsInv(s: Sys, frames: seq<Frame>, driverFails: bool)
    requires Inv(s) && ManagerFree(s) && FreshFrames(s.ledger, frames)
    ensures Inv(TakeBuffers(s, frames, driverFails))
  {
    var s' := TakeBuffers(s, frames, driverFails);
    AcquireKeepsBooks(s.ledger, Holds(s), frames);
    OpenKeepsBooks(s'.ledger, Holds(s), Open(s'));
    if s'.batch.Some? { AcquiredOnOffer(s.ledger, Holds(s), frames); }
  }

  /** The delivery's bookkeeping when only counts change. */
  lemma ReffedOnOffer(g: Ledger, items: seq<Frame>, ids: set<nat>, up: bool)
    requires OnOffer(g, items)
    ensures OnOffer(g.(queue := Reffed(g.queue, ids, up)), items)
  {
    ReffedInQueue(g.queue, ids, up);
  }

  /** One more item counted, or one less. */
  lemma OnCountSplit(b: Batch)
    requires Increasing(b.items) && b.at < |b.items|
    ensures var one, next := b.items[b.at].id, b.(at := b.at + 1);
            && one in Ids(b.items)
            && (!b.refused ==> one !in Ids(OnCount(b)) && Ids(OnCount(next)) == Ids(OnCount(b)) + {one})
            && (b.refused ==> one in Ids(OnCount(b)) && Ids(OnCount(next)) == Ids(OnCount(b)) - {one})
  {
    var x, items, next := b.items[b.at], b.items, b.(at := b.at + 1);
    assert x in items;
    if b.refused {
      assert items[b.at..] == [x] + items[b.at + 1..];
    } else {
      assert items[..b.at + 1] == items[..b.at] + [x];
    }
    assert forall f :: f in OnCount(if b.refused then next else b) ==> f.id != x.id;
  }

  lemma CountNextKeepsInv(s: Sys)
    requires Inv(s) && Counting(s)
    ensures Inv(CountNext(s))
  {
    var b := s.batch.value;
    OnCountSplit(b);
    RefKeepsBooks(s.ledger, Holds(s), Offered(s), Open(s), {b.items[b.at].id}, true);
    ReffedOnOffer(s.ledger, b.items, {b.items[b.at].id}, true);
  }

  /** What the next consumer holds is older than what it is offered. */
  lemma OfferIsNewer(s: Sys, c: nat)
    requires Inv(s) && s.batch.Some? && c in s.batch.value.todo
    ensures Increasing(Held(s.layers[c]) + s.batch.value.items)
    ensures forall f :: f in s.batch.value.items ==> f !in Holds(s)[c]
  {
    var held, items := Held(s.layers[c]), s.batch.value.items;
    forall f | f in held ensures f.id < items[0].id {
      assert f in Holds(s)[c];
      HeldInQueue(s, c, f);
    }
    assert forall i :: 0 <= i < |held| ==> held[i] in held;
    forall i, j | 0 <= i < j < |held + items| ensures (held + items)[i].id < (held + items)[j].id {
      assert items[0].id <= items[if j < |held| then 0 else j - |held|].id;
      assert j >= |held| && i >= |held| ==> items[i - |held|].id < items[j - |held|].id;
    }
  }

  /** A queued buffer with the id of one on offer is that one. */
  lemma OfferedItems(s: Sys)
    requires Inv(s) && s.batch.Some?
    ensures var items := s.batch.value.items;
            && (forall i :: 0 <= i < |s.ledger.queue| && s.ledger.queue[i].frame.id in Ids(items) ==>
                s.ledger.queue[i].frame in items)
            && IdsOf(set f | f in items) == Ids(items)
  {
    var q, items := s.ledger.queue, s.batch.value.items;
    forall i | 0 <= i < |q| && q[i].frame.id in Ids(items) ensures q[i].frame in items {
      assert InQueue(q, q[i].frame);
      var g :| g in items && g.id == q[i].frame.id;
      var k :| 0 <= k < |items| && items[k] == g;
      assert items[0].id <= items[k].id;
    }
  }

  /** Only layer l changes, and now holds or owes `mine`. */
  lemma HoldsPut(layers: map<nat, Layer>, owed: map<nat, Owed>, owed': map<nat, Owed>, l: nat, state: Layer,
                 mine: set<Frame>)
    requires l in layers && HeldSet(state) + OwedSet(owed', l) == mine
    requires forall m :: m in layers && m != l ==> OwedSet(owed', m) == OwedSet(owed, m)
    ensures HoldsOf(layers[l := state], owed') == HoldsOf(layers, owed)[l := mine]
  {
  }

  lemma AcceptHolds(s: Sys, c: nat, state: Layer)
    requires Asking(s) && c == s.batch.value.todo[0] && Held(state) == Held(s.layers[c]) + s.batch.value.items
    ensures var items := set f | f in s.batch.value.items;
            Holds(Accept(s, c, state)) == Holds(s)[c := Holds(s)[c] + items]
  {
    var items := set f | f in s.batch.value.items;
    assert HeldSet(state) == HeldSet(s.layers[c]) + items;
    HoldsPut(s.layers, s.owed, s.owed, c, state, Holds(s)[c] + items);
  }

  lemma AcceptKeepsHolds(s: Sys, c: nat, state: Layer)
    requires Inv(s) && Asking(s) && c == s.batch.value.todo[0] && !Gone(s)
    requires Held(state) == Held(s.layers[c]) + s.batch.value.items
    ensures Books(Accept(s, c, state).ledger, Holds(Accept(s, c, state)), {}, {})
  {
    var items := set f | f in s.batch.value.items;
    OfferIsNewer(s, c);
    OfferedItems(s);
    assert OnCount(s.batch.value) == s.batch.value.items;
    AcceptKeepsBooks(s.ledger, Holds(s), Ids(s.batch.value.items), c, items);
    AcceptHolds(s, c, state);
    assert Accept(s, c, state).ledger == s.ledger.(accepted := s.ledger.accepted + IdsOf(items));
  }

  /** The rest of a delivery, after its next consumer has taken the offer. */
  lemma TakenBatchOk(h: Holdings, consumers: seq<nat>, b: Batch)
    requires TodoOk(consumers, b) && !b.refused && OnlyToldHold(h, consumers, b.items, b.todo) && b.todo[0] in h
    ensures var items := set f | f in b.items; var h' := h[b.todo[0] := h[b.todo[0]] + items];
            |b.todo| > 1 ==> && TodoOk(consumers, Batch(b.items, b.todo[1..], 0, false))
                             && OnlyToldHold(h', consumers, b.items, b.todo[1..])
  {
    assert forall x :: x in b.todo[1..] ==> x in b.todo && x != b.todo[0];
    assert forall x :: x in b.todo && x != b.todo[0] ==> x in b.todo[1..];
  }

  lemma AcceptKeepsOwed(s: Sys, c: nat, state: Layer)
    requires Inv(s) && Asking(s) && c == s.batch.value.todo[0]
    requires Held(state) == Held(s.layers[c]) + s.batch.value.items
    ensures AllOwedOk(s.owed, s.layers[c := state])
  {
    OfferIsNewer(s, c);
    hide Books, LayersOk, ConsumersOk, BatchOk, Held, FramesIn;
    if c in s.owed {
      forall f | f in FramesIn(s.owed[c].gives) ensures f !in Held(state) {
        assert f in Holds(s)[c];
      }
    }
  }

  lemma AcceptKeepsLayers(layers: map<nat, Layer>, consumers: seq<nat>, c: nat, state: Layer)
    requires LayersOk(layers) && ConsumersOk(consumers, layers) && c in layers && Wf(state) && Increasing(Held(state))
    ensures LayersOk(layers[c := state]) && ConsumersOk(consumers, layers[c := state])
  {
  }

  lemma AcceptKeepsBatch(s: Sys, c: nat, state: Layer)
    requires Inv(s) && Asking(s) && c == s.batch.value.todo[0]
    requires Held(state) == Held(s.layers[c]) + s.batch.value.items
    ensures BatchOk(Accept(s, c, state))
  {
    AcceptHolds(s, c, state);
    TakenBatchOk(Holds(s), s.consumers, s.batch.value);
  }

  lemma AcceptKeepsInv(s: Sys, c: nat, state: Layer)
    requires Inv(s) && Asking(s) && c == s.batch.value.todo[0] && !Gone(s)
    requires Wf(state) && Held(state) == Held(s.layers[c]) + s.batch.value.items
    ensures Inv(Accept(s, c, state))
  {
    var s' := Accept(s, c, state);
    AcceptKeepsHolds(s, c, state);
    OpenKeepsBooks(s'.ledger, Holds(s'), Open(s'));
    assert Offered(s') == {};
    OfferIsNewer(s, c);
    AcceptKeepsLayers(s.layers, s.consumers, c, state);
    AcceptKeepsOwed(s, c, state);
    AcceptKeepsBatch(s, c, state);
  }

  lemma {:induction false} RemoveFacts(consumers: seq<nat>, c: nat)
    ensures forall x :: x in Remove(consumers, c) <==> x in consumers && x != c
    ensures Distinct(consumers) ==> Distinct(Remove(consumers, c))
  {
    if consumers != [] {
      var front, last := consumers[..|consumers| - 1], consumers[|consumers| - 1];
      RemoveFacts(front, c);
      assert consumers == front + [last];
      if Distinct(consumers) {
        assert forall i :: 0 <= i < |front| ==> front[i] == consumers[i] && front[i] != last;
        assert last !in front;
      }
    }
  }

  /** Counting changes no frame, so it makes no buffer bare. */
  lemma ReffedBare(g: Ledger, h: Holdings, ids: set<nat>, up: bool)
    ensures AnyBare(g.(queue := Reffed(g.queue, ids, up)), h) <==> AnyBare(g, h)
  {
    var g' := g.(queue := Reffed(g.queue, ids, up));
    forall i | 0 <= i < |g.queue| ensures Bare(g', h, i) <==> Bare(g, h, i) {}
  }

  lemma RefusedBatchOk(h: Holdings, consumers: seq<nat>, b: Batch)
    requires TodoOk(consumers, b) && !b.refused && OnlyToldHold(h, consumers, b.items, b.todo) && b.items != []
    ensures TodoOk(Remove(consumers, b.todo[0]), Batch(b.items, b.todo[1..], 0, true))
    ensures OnlyToldHold(h, Remove(consumers, b.todo[0]), b.items, b.todo[1..])
  {
    RemoveFacts(consumers, b.todo[0]);
    assert forall x :: x in b.todo[1..] ==> x in b.todo && x != b.todo[0];
    assert b.todo[0] in b.todo;
  }

  /** A refusal changes no account: the consumer goes, its references are still to be counted down. */
  lemma RefuseKeepsInv(s: Sys, c: nat)
    requires Inv(s) && Asking(s) && c == s.batch.value.todo[0]
    ensures Inv(Refuse(s, c))
  {
    var b, s' := s.batch.value, Refuse(s, c);
    RefusedBatchOk(Holds(s), s.consumers, b);
    RemoveFacts(s.consumers, c);
    assert OnCount(b) == OnCount(s'.batch.value);
  }

  /** Counting down keeps the invariant unless it ends the delivery and leaves a buffer bare. */
  lemma UncountNextKeepsInvIff(s: Sys)
    requires Inv(s) && Uncounting(s)
    ensures Inv(UncountNext(s)) <==> (Ends(s.batch.value) ==> !Orphaned(s))
  {
    var b, s' := s.batch.value, UncountNext(s);
    var ids := {b.items[b.at].id};
    OnCountSplit(b);
    RefKeepsBooks(s.ledger, Holds(s), Offered(s), Open(s), ids, false);
    ReffedOnOffer(s.ledger, b.items, ids, false);
    ReffedBare(s.ledger, Holds(s), ids, false);
    assert b.at + 1 == |b.items| ==> OnCount(b.(at := b.at + 1)) == [];
    if Ends(b) {
      CloseKeepsBooksIff(s'.ledger, Holds(s), Open(s));
    }
  }

  /** Forgetting, or gaining, layers that hold nothing. */
  lemma EmptyHoldersKeepBooks(g: Ledger, h: Holdings, h': Holdings, offered: set<nat>, open: set<nat>)
    requires Books(g, h, offered, open)
    requires forall l :: l in h && l in h' ==> h'[l] == h[l]
    requires forall l :: l in h && l !in h' ==> h[l] == {}
    requires forall l :: l in h' && l !in h ==> h'[l] == {}
    ensures Books(g, h', offered, open)
  {
    forall f ensures Holders(h', f) == Holders(h, f) {}
  }

  lemma EnterHolds(layers: map<nat, Layer>, owed: map<nat, Owed>, l: nat, state: Layer)
    requires l !in layers && l !in owed && Held(state) == []
    ensures HoldsOf(layers[l := state], owed) == HoldsOf(layers, owed)[l := {}]
  {
    assert HeldSet(state) + OwedSet(owed, l) == {};
  }

  lemma EnterKeepsRest(consumers: seq<nat>, layers: map<nat, Layer>, owed: map<nat, Owed>, l: nat, state: Layer)
    requires LayersOk(layers) && ConsumersOk(consumers, layers) && AllOwedOk(owed, layers) && l !in layers
    requires Wf(state) && Held(state) == []
    ensures LayersOk(layers[l := state]) && ConsumersOk(consumers + [l], layers[l := state])
    ensures AllOwedOk(owed, layers[l := state])
  {
    assert l !in consumers;
  }

  lemma EnterKeepsInv(s: Sys, l: nat, state: Layer)
    requires Inv(s) && ManagerFree(s) && l !in s.layers && Wf(state) && Held(state) == []
    ensures Inv(Enter(s, l, state))
  {
    EnterKeepsRest(s.consumers, s.layers, s.owed, l, state);
    EnterHolds(s.layers, s.owed, l, state);
    EmptyHoldersKeepBooks(s.ledger, Holds(s), Holds(s)[l := {}], {}, {});
  }

  lemma QuitHolds(layers: map<nat, Layer>, owed: map<nat, Owed>, l: nat)
    ensures HoldsOf(layers - {l}, owed - {l}) == HoldsOf(layers, owed) - {l}
  {
  }

  lemma QuitKeepsRest(consumers: seq<nat>, layers: map<nat, Layer>, owed: map<nat, Owed>, l: nat)
    requires LayersOk(layers) && ConsumersOk(consumers, layers) && AllOwedOk(owed, layers)
    ensures LayersOk(layers - {l}) && ConsumersOk(Remove(consumers, l), layers - {l})
            && AllOwedOk(owed - {l}, layers - {l})
  {
    RemoveFacts(consumers, l);
  }

  lemma QuitKeepsInv(s: Sys, l: nat)
    requires Inv(s) && Leaving(s, l)
    ensures Inv(Quit(s, l))
  {
    QuitHolds(s.layers, s.owed, l);
    QuitKeepsRest(s.consumers, s.layers, s.owed, l);
    assert s.batch.None? by { assert s.owed[l].leaves; }
    assert HeldSet(s.layers[l]) == {} && Holds(s)[l] == {};
    EmptyHoldersKeepBooks(s.ledger, Holds(s), Holds(s) - {l}, {}, {});
  }

  lemma HandedSets(held: seq<Frame>, o: Outcome, leaves: bool)
    requires Handed(held, o, leaves)
    ensures HeldSet(o.layer) + FramesIn(o.gives) == set f | f in held
    ensures o.gives == [] ==> FramesIn(o.gives) == {}
    ensures OwedOk(Owed(o.gives, leaves), o.layer)
  {
    assert forall f :: f in Held(o.layer) <==> f in HeldSet(o.layer);
    assert forall f :: f in FramesIn(o.gives) ==> f in held;
  }

  /** What a layer lets go of it still owes, so nothing changes for the accounts. */
  lemma MovedHolds(s: Sys, l: nat, o: Outcome, leaves: bool)
    requires l in s.layers && l !in s.owed && Handed(Held(s.layers[l]), o, leaves)
    ensures Holds(Move(s, l, o, leaves)) == Holds(s)
  {
    var owed' := Move(s, l, o, leaves).owed;
    HandedSets(Held(s.layers[l]), o, leaves);
    assert OwedSet(s.owed, l) == {} && OwedSet(owed', l) == FramesIn(o.gives);
    assert HeldSet(o.layer) + FramesIn(o.gives) == HeldSet(s.layers[l]) == HeldSet(s.layers[l]) + {};
    HoldsPut(s.layers, s.owed, owed', l, o.layer, HeldSet(s.layers[l]));
  }

  lemma MoveKeepsLayers(consumers: seq<nat>, layers: map<nat, Layer>, l: nat, state: Layer)
    requires LayersOk(layers) && ConsumersOk(consumers, layers) && l in layers && Wf(state) && Increasing(Held(state))
    ensures LayersOk(layers[l := state]) && ConsumersOk(consumers, layers[l := state])
  {
  }

  lemma MoveKeepsOwed(layers: map<nat, Layer>, owed: map<nat, Owed>, l: nat, state: Layer)
    requires AllOwedOk(owed, layers) && l in layers && l !in owed
    ensures AllOwedOk(owed, layers[l := state])
    ensures forall due: Owed :: OwedOk(due, state) ==> AllOwedOk(owed[l := due], layers[l := state])
  {
    forall due: Owed | OwedOk(due, state) ensures AllOwedOk(owed[l := due], layers[l := state]) {}
  }

  lemma MoveKeepsInv(s: Sys, l: nat, o: Outcome, leaves: bool)
    requires Inv(s) && l in s.layers && l !in s.owed && Handed(Held(s.layers[l]), o, leaves)
    requires leaves ==> ManagerFree(s)
    ensures Inv(Move(s, l, o, leaves))
  {
    MovedHolds(s, l, o, leaves);
    HandedSets(Held(s.layers[l]), o, leaves);
    MoveKeepsLayers(s.consumers, s.layers, l, o.layer);
    MoveKeepsOwed(s.layers, s.owed, l, o.layer);
  }

  /** Frames still owed after one hand-back. */
  lemma OwedSplit(gives: seq<GiveBack>)
    requires gives != [] && forall i, j :: 0 <= i < j < |gives| ==> gives[i].frame != gives[j].frame
    ensures FramesIn(gives[1..]) == FramesIn(gives) - {gives[0].frame} && gives[0].frame in FramesIn(gives)
    ensures |gives| == 1 ==> FramesIn(gives[1..]) == {}
  {
    forall f ensures f in FramesIn(gives[1..]) <==> f in FramesIn(gives) && f != gives[0].frame {
      if f in FramesIn(gives) && f != gives[0].frame {
        var i :| 0 <= i < |gives| && gives[i].frame == f;
        assert gives[1..][i - 1].frame == f;
      }
    }
  }

  lemma GivenOwed(owed: map<nat, Owed>, l: nat)
    requires l in owed && owed[l].gives != []
    requires forall i, j :: 0 <= i < j < |owed[l].gives| ==> owed[l].gives[i].frame != owed[l].gives[j].frame
    ensures var f, rest := owed[l].gives[0].frame, Owed(owed[l].gives[1..], owed[l].leaves);
            && f in OwedSet(owed, l) && OwedSet(owed[l := rest], l) == OwedSet(owed, l) - {f}
            && (|owed[l].gives| == 1 ==> OwedSet(owed - {l}, l) == OwedSet(owed, l) - {f})
  {
    OwedSplit(owed[l].gives);
  }

  lemma LessOne(held: set<Frame>, due: set<Frame>, f: Frame)
    requires f !in held
    ensures held + (due - {f}) == (held + due) - {f}
  {
  }

  lemma GivenHolds(s: Sys, l: nat, luck: Luck)
    requires Giving(s, l) && OwedOk(s.owed[l], s.layers[l])
    ensures var f := s.owed[l].gives[0].frame;
            f in Holds(s)[l] && Holds(Give(s, l, luck)) == Without(Holds(s), l, f)
  {
    hide FramesIn, GiveOne;
    var f, owed', held := s.owed[l].gives[0].frame, Give(s, l, luck).owed, HeldSet(s.layers[l]);
    GivenOwed(s.owed, l);
    LessOne(held, OwedSet(s.owed, l), f);
    HoldsPut(s.layers, s.owed, owed', l, s.layers[l], Holds(s)[l] - {f});
    assert s.layers[l := s.layers[l]] == s.layers;
  }

  lemma GiveKeepsOwed(s: Sys, l: nat, luck: Luck)
    requires Giving(s, l) && AllOwedOk(s.owed, s.layers)
    ensures AllOwedOk(Give(s, l, luck).owed, s.layers)
  {
    OwedSplit(s.owed[l].gives);
  }

  /** Fewer buffers queued, and fewer held, make no difference to a delivery. */
  lemma OnOfferLess(g: Ledger, g': Ledger, items: seq<Frame>)
    requires OnOffer(g, items) && g'.next == g.next && forall x :: InQueue(g'.queue, x) ==> InQueue(g.queue, x)
    ensures OnOffer(g', items)
  {
  }

  lemma ToldLess(h: Holdings, l: nat, f: Frame, consumers: seq<nat>, items: seq<Frame>, todo: seq<nat>)
    requires l in h && OnlyToldHold(h, consumers, items, todo)
    ensures OnlyToldHold(Without(h, l, f), consumers, items, todo)
  {
  }

  /** The delivery under way when a layer hands a frame back. */
  lemma GiveKeepsBatch(s: Sys, l: nat, luck: Luck)
    requires BatchOk(s) && Giving(s, l) && s.batch.Some?
    requires forall x :: InQueue(Give(s, l, luck).ledger.queue, x) ==> InQueue(s.ledger.queue, x)
    requires Holds(Give(s, l, luck)) == Without(Holds(s), l, s.owed[l].gives[0].frame)
    ensures BatchOk(Give(s, l, luck))
  {
    OnOfferLess(s.ledger, Give(s, l, luck).ledger, s.batch.value.items);
    ToldLess(Holds(s), l, s.owed[l].gives[0].frame, s.consumers, s.batch.value.items, s.batch.value.todo);
  }

  lemma GiveKeepsInv(s: Sys, l: nat, luck: Luck)
    requires Inv(s) && Giving(s, l)
    ensures Inv(Give(s, l, luck))
  {
    var o := s.owed[l].gives[0];
    GivenHolds(s, l, luck);
    GiveOneKeepsBooks(s.ledger, Holds(s), Offered(s), Open(s), l, o.frame, o.fence, luck);
    GiveKeepsOwed(s, l, luck);
    if s.batch.Some? { GiveKeepsBatch(s, l, luck); }
  }

  lemma SignalKeepsInv(s: Sys, points: set<nat>)
    requires Inv(s)
    ensures Inv(Apply(s, Signal(points)))
  {
    SignalKeepsBooks(s.ledger, Holds(s), Offered(s), Open(s), points);
  }

  /** A layer that takes an offer holds every buffer of it, also one that has gone back. */
  lemma TakingGoneBreaks(s: Sys)
    requires Inv(s) && Asking(s) && Takes(s.layers[s.batch.value.todo[0]]) && Gone(s)
    ensures HoldsGone(Apply(s, Offer)) && !Inv(Apply(s, Offer))
  {
    var c, items := s.batch.value.todo[0], s.batch.value.items;
    LayerRuns.DeliverAdds(s.layers[c], items);
    var f :| f in items && !InQueue(s.ledger.queue, f);
    var s' := Apply(s, Offer);
    assert f in Held(s'.layers[c]);
    if Inv(s') {
      HeldInQueue(s', c, f);
    }
  }

  /** Some layer holds a buffer that is no longer queued. */
  ghost predicate HoldsGone(s: Sys) {
    exists l, f :: l in s.layers && f in Held(s.layers[l]) && !InQueue(s.ledger.queue, f)
  }

  lemma OfferKeepsInvIff(s: Sys)
    requires Inv(s) && Asking(s)
    ensures Inv(Apply(s, Offer)) <==> Harmless(s, Offer)
  {
    hide CountsOk, ReturnsOk, NoneLost, FencesOk, QueueOk, HeldOk;
    var c := s.batch.value.todo[0];
    if !Takes(s.layers[c]) {
      RefuseKeepsInv(s, c);
    } else if Gone(s) {
      TakingGoneBreaks(s);
    } else {
      LayerRuns.DeliverAdds(s.layers[c], s.batch.value.items);
      AcceptKeepsInv(s, c, Deliver(s.layers[c], s.batch.value.items).layer);
    }
  }

  lemma LayerStepKeepsInv(s: Sys, l: nat, op: LayerRuns.Op)
    requires Inv(s) && Enabled(s, LayerStep(l, op))
    ensures Inv(Apply(s, LayerStep(l, op)))
  {
    LayerStepHands(s.layers[l], op);
    MoveKeepsInv(s, l, LayerRuns.Step(s.layers[l], op), Detaches(s.layers[l], op));
  }

  /**
   * Every atomic step, in any order and with any system call failing, keeps the invariant
   * exactly when it is harmless; and only an answer to an offer can be harmful.
   */
  lemma StepKeepsInvIff(s: Sys, step: Step)
    requires Inv(s) && Enabled(s, step)
    ensures Inv(Apply(s, step)) <==> Harmless(s, step)
  {
    hide Inv;
    match step
    case Acquire(frames, driverFails) => TakeBuffersKeepsInv(s, frames, driverFails);
    case CountItem => CountNextKeepsInv(s);
    case Offer => OfferKeepsInvIff(s);
    case UncountItem => UncountNextKeepsInvIff(s);
    case LayerStep(l, op) => LayerStepKeepsInv(s, l, op);
    case HandBack(l, luck) => GiveKeepsInv(s, l, luck);
    case LeaveTunnel(l) => QuitKeepsInv(s, l);
    case Join(l, state) => EnterKeepsInv(s, l, state);
    case Signal(points) => SignalKeepsInv(s, points);
  }
}
