/** What holds over whole runs of a tunnel instance and its layers. */
module TunnelTheorems {
  import opened VideoTunnelTypes
  import opened DrmSync
  import opened TunnelInstance
  import opened LayerSpec
  import opened BufferLedger
  import opened TunnelProtocol

  function RunAll(tunnel: nat, steps: seq<Step>): Sys {
    if steps == [] then Start(tunnel) else Apply(RunAll(tunnel, steps[..|steps| - 1]), steps[|steps| - 1])
  }

  /** Every step is one the surroundings allow. */
  ghost predicate Allowed(tunnel: nat, steps: seq<Step>) {
    forall n :: 0 <= n < |steps| ==> Enabled(RunAll(tunnel, steps[..n]), steps[n])
  }

  ghost predicate HarmlessAt(tunnel: nat, steps: seq<Step>, n: nat)
    requires n < |steps|
  {
    Harmless(RunAll(tunnel, steps[..n]), steps[n])
  }

  /** And none of them is harmful. */
  ghost predicate Legal(tunnel: nat, steps: seq<Step>) {
    Allowed(tunnel, steps) && forall n :: 0 <= n < |steps| ==> HarmlessAt(tunnel, steps, n)
  }

  lemma StartInv(tunnel: nat)
    ensures Inv(Start(tunnel))
  {
  }

  lemma LegalFront(tunnel: nat, steps: seq<Step>)
    requires steps != [] && Legal(tunnel, steps)
    ensures Legal(tunnel, steps[..|steps| - 1])
  {
    var front := steps[..|steps| - 1];
    forall k | 0 <= k < |front| ensures Enabled(RunAll(tunnel, front[..k]), front[k]) && HarmlessAt(tunnel, front, k) {
      assert front[..k] == steps[..k] && front[k] == steps[k] && HarmlessAt(tunnel, steps, k);
    }
  }

  lemma {:induction false} EveryRun(tunnel: nat, steps: seq<Step>)
    requires Legal(tunnel, steps)
    ensures Inv(RunAll(tunnel, steps))
  {
    if steps == [] {
      StartInv(tunnel);
    } else {
      var n := |steps| - 1;
      LegalFront(tunnel, steps);
      EveryRun(tunnel, steps[..n]);
      assert HarmlessAt(tunnel, steps, n);
      StepKeepsInvIff(RunAll(tunnel, steps[..n]), steps[n]);
    }
  }

  ghost predicate InvAt(tunnel: nat, steps: seq<Step>, n: nat)
    requires n <= |steps|
  {
    Inv(RunAll(tunnel, steps[..n]))
  }

  /**
   * The exact condition: in a run of steps the surroundings allow, the accounts are right
   * after every step if and only if no offer in it is harmful. Any number of consumers may
   * come and go, hand back what they want whenever they want, and any system call may fail.
   */
  lemma EveryRunIff(tunnel: nat, steps: seq<Step>)
    requires Allowed(tunnel, steps)
    ensures (forall n :: 0 <= n <= |steps| ==> InvAt(tunnel, steps, n)) <==> Legal(tunnel, steps)
  {
    hide Inv, Enabled, Harmless;
    if forall n :: 0 <= n <= |steps| ==> InvAt(tunnel, steps, n) {
      forall n | 0 <= n < |steps| ensures HarmlessAt(tunnel, steps, n) {
        assert InvAt(tunnel, steps, n) && InvAt(tunnel, steps, n + 1);
        assert steps[..n + 1][..n] == steps[..n];
        StepKeepsInvIff(RunAll(tunnel, steps[..n]), steps[n]);
      }
    }
    if Legal(tunnel, steps) {
      forall n | 0 <= n <= |steps| ensures InvAt(tunnel, steps, n) {
        LegalPrefix(tunnel, steps, n);
        EveryRun(tunnel, steps[..n]);
      }
    }
  }

  lemma LegalPrefix(tunnel: nat, steps: seq<Step>, n: nat)
    requires Legal(tunnel, steps) && n <= |steps|
    ensures Legal(tunnel, steps[..n])
  {
    forall k | 0 <= k < n
      ensures Enabled(RunAll(tunnel, steps[..n][..k]), steps[..n][k]) && HarmlessAt(tunnel, steps[..n], k)
    {
      assert steps[..n][..k] == steps[..k] && HarmlessAt(tunnel, steps, k);
    }
  }

  // ---- a single consumer ----

  /** Nothing of the delivery under way has been taken or given back yet. */
  ghost predicate Untouched(s: Sys) {
    s.batch.Some? ==>
      forall f :: f in s.batch.value.items ==> InQueue(s.ledger.queue, f) && f.id !in s.ledger.accepted
  }

  lemma NobodyHoldsItems(s: Sys, l: nat, f: Frame)
    requires Inv(s) && Untouched(s) && s.batch.Some? && l in s.layers && f in Holds(s)[l]
    ensures f !in s.batch.value.items
  {
    HeldInQueue(s, l, f);
    var i :| 0 <= i < |s.ledger.queue| && s.ledger.queue[i].frame == f;
    assert l in Holders(Holds(s), f);
  }

  lemma UntouchedIsHarmless(s: Sys, step: Step)
    requires Inv(s) && Untouched(s) && Enabled(s, step)
    ensures Harmless(s, step)
  {
    if s.batch.Some? {
      OfferedItems(s);
      forall i | 0 <= i < |s.ledger.queue| ensures !Bare(s.ledger, Holds(s), i) {}
    }
  }

  /** With at most one consumer a delivery is over as soon as the offer has been taken. */
  lemma OneTodo(consumers: seq<nat>, b: Batch)
    requires TodoOk(consumers, b) && !b.refused && |consumers| <= 1
    ensures |b.todo| == 1
  {
    assert b.todo[0] in consumers;
    assert consumers == [b.todo[0]];
    DistinctSize(b.todo);
    assert Elements(b.todo) == {b.todo[0]};
  }

  lemma AcquireStaysUntouched(s: Sys, frames: seq<Frame>, driverFails: bool)
    requires Inv(s) && Enabled(s, Acquire(frames, driverFails))
    ensures Untouched(TakeBuffers(s, frames, driverFails))
  {
    AcquireKeepsBooks(s.ledger, Holds(s), frames);
  }

  lemma GiveStaysUntouched(s: Sys, l: nat, luck: Luck)
    requires Inv(s) && Untouched(s) && Giving(s, l)
    ensures Untouched(Give(s, l, luck))
  {
    var o := s.owed[l].gives[0];
    GivenHolds(s, l, luck);
    GiveOneKeepsBooks(s.ledger, Holds(s), Offered(s), Open(s), l, o.frame, o.fence, luck);
    if s.batch.Some? { NobodyHoldsItems(s, l, o.frame); }
  }

  lemma ReffedStaysUntouched(s: Sys, t: Sys, ids: set<nat>, up: bool)
    requires Untouched(s) && t.ledger == s.ledger.(queue := Reffed(s.ledger.queue, ids, up))
    requires t.batch.Some? ==> s.batch.Some? && t.batch.value.items == s.batch.value.items
    ensures Untouched(t)
  {
    ReffedInQueue(s.ledger.queue, ids, up);
  }

  lemma AskStaysUntouched(s: Sys)
    requires Inv(s) && Untouched(s) && |s.consumers| <= 1 && Asking(s)
    ensures Untouched(Ask(s))
  {
    hide Books;
    OneTodo(s.consumers, s.batch.value);
  }

  lemma OneConsumerStaysUntouched(s: Sys, step: Step)
    requires Inv(s) && Untouched(s) && |s.consumers| <= 1 && Enabled(s, step)
    ensures Untouched(Apply(s, step))
  {
    hide Inv;
    match step
    case Acquire(frames, driverFails) => AcquireStaysUntouched(s, frames, driverFails);
    case CountItem =>
      ReffedStaysUntouched(s, CountNext(s), {s.batch.value.items[s.batch.value.at].id}, true);
    case UncountItem =>
      ReffedStaysUntouched(s, UncountNext(s), {s.batch.value.items[s.batch.value.at].id}, false);
    case Offer => AskStaysUntouched(s);
    case HandBack(l, luck) => GiveStaysUntouched(s, l, luck);
    case _ =>
  }

  /** Full interleaving: nothing is asked beyond what the surroundings guarantee and a single consumer. */
  ghost predicate SingleConsumer(tunnel: nat, steps: seq<Step>) {
    Allowed(tunnel, steps) && forall n :: 0 <= n <= |steps| ==> AtMostOne(RunAll(tunnel, steps[..n]))
  }

  predicate AtMostOne(s: Sys) {
    |s.consumers| <= 1
  }

  lemma {:induction false} SingleConsumerRun(tunnel: nat, steps: seq<Step>)
    requires SingleConsumer(tunnel, steps)
    ensures Inv(RunAll(tunnel, steps)) && Untouched(RunAll(tunnel, steps))
  {
    hide Inv, Enabled, Harmless;
    if steps == [] {
      StartInv(tunnel);
    } else {
      var n := |steps| - 1;
      var front := steps[..n];
      assert SingleConsumer(tunnel, front) by {
        forall k | 0 <= k < n ensures Enabled(RunAll(tunnel, front[..k]), front[k]) {
          assert front[..k] == steps[..k];
        }
        forall k | 0 <= k <= n ensures AtMostOne(RunAll(tunnel, front[..k])) {
          assert front[..k] == steps[..k];
        }
      }
      SingleConsumerRun(tunnel, front);
      var s := RunAll(tunnel, front);
      assert AtMostOne(s);
      UntouchedIsHarmless(s, steps[n]);
      StepKeepsInvIff(s, steps[n]);
      OneConsumerStaysUntouched(s, steps[n]);
    }
  }

  // ---- the accounts after any legal run ----

  /**
   * Between deliveries a queued buffer's reference count is the number of layers that hold
   * it or have still to hand it back (-1 and 0 both meaning none), and a buffer that some
   * layer has ever accepted is queued only while there is such a layer.
   */
  lemma CountIsHolders(tunnel: nat, steps: seq<Step>, i: nat)
    requires Legal(tunnel, steps) && RunAll(tunnel, steps).batch.None? && i < |RunAll(tunnel, steps).ledger.queue|
    ensures var s := RunAll(tunnel, steps);
            var b := s.ledger.queue[i];
            var holders := set l | l in s.layers && (b.frame in Held(s.layers[l]) || b.frame in OwedSet(s.owed, l));
            && (b.refs == |holders| || (b.refs == -1 && holders == {}))
            && (b.frame.id in s.ledger.accepted ==> b.refs > 0)
  {
    hide Inv, RunAll, Legal;
    EveryRun(tunnel, steps);
    CountAtRest(RunAll(tunnel, steps), i);
  }

  lemma CountAtRest(s: Sys, i: nat)
    requires Inv(s) && s.batch.None? && i < |s.ledger.queue|
    ensures var b := s.ledger.queue[i];
            var holders := set l | l in s.layers && (b.frame in Held(s.layers[l]) || b.frame in OwedSet(s.owed, l));
            && (b.refs == |holders| || (b.refs == -1 && holders == {}))
            && (b.frame.id in s.ledger.accepted ==> b.refs > 0)
  {
    var b := s.ledger.queue[i];
    assert Holders(Holds(s), b.frame)
        == set l | l in s.layers && (b.frame in Held(s.layers[l]) || b.frame in OwedSet(s.owed, l));
    assert |Holders(Holds(s), b.frame)| == 0 ==> Holders(Holds(s), b.frame) == {};
  }

  /**
   * Every buffer acquired so far is either still queued or has gone back to the driver,
   * once, under the instance's own tunnel; and one that has gone back is held by no layer.
   */
  lemma EachBufferReturnsOnce(tunnel: nat, steps: seq<Step>, id: nat)
    requires Legal(tunnel, steps) && id < RunAll(tunnel, steps).ledger.next
    ensures var s := RunAll(tunnel, steps);
            && (WasReturned(s.ledger.returned, id) <==>
                !exists i :: 0 <= i < |s.ledger.queue| && s.ledger.queue[i].frame.id == id)
            && (forall i, j :: 0 <= i < j < |s.ledger.returned| ==>
                  !(s.ledger.returned[i].frame.id == id && s.ledger.returned[j].frame.id == id))
            && (forall i :: 0 <= i < |s.ledger.returned| ==> s.ledger.returned[i].tunnel == s.ledger.tunnel)
            && (WasReturned(s.ledger.returned, id) ==>
                  forall l, f :: l in s.layers && (f in Held(s.layers[l]) || f in OwedSet(s.owed, l)) ==> f.id != id)
  {
    hide Inv, RunAll, Legal;
    EveryRun(tunnel, steps);
    NobodyHasReturned(RunAll(tunnel, steps), id);
  }

  lemma NobodyHasReturned(s: Sys, id: nat)
    requires Inv(s) && id < s.ledger.next
    ensures WasReturned(s.ledger.returned, id) <==>
              !exists i :: 0 <= i < |s.ledger.queue| && s.ledger.queue[i].frame.id == id
    ensures forall i, j :: 0 <= i < j < |s.ledger.returned| ==>
              !(s.ledger.returned[i].frame.id == id && s.ledger.returned[j].frame.id == id)
    ensures forall i :: 0 <= i < |s.ledger.returned| ==> s.ledger.returned[i].tunnel == s.ledger.tunnel
    ensures WasReturned(s.ledger.returned, id) ==>
              forall l, f :: l in s.layers && (f in Held(s.layers[l]) || f in OwedSet(s.owed, l)) ==> f.id != id
  {
    OneFate(s.ledger, Holds(s), Offered(s), Open(s), id);
    forall l, f | l in s.layers && (f in Held(s.layers[l]) || f in OwedSet(s.owed, l))
        && WasReturned(s.ledger.returned, id)
      ensures f.id != id
    {
      assert f in Holds(s)[l];
    }
  }

  /**
   * The release fence that went to the driver with a buffer cannot signal, now or later,
   * before every fence the consumers reported for that buffer has, exactly when every point
   * dropped by a failing call, and not reported again, has signalled.
   */
  lemma ReleaseFenceIsNeverEarlyIff(tunnel: nat, steps: seq<Step>, i: nat)
    requires Legal(tunnel, steps) && i < |RunAll(tunnel, steps).ledger.returned|
    ensures var g := RunAll(tunnel, steps).ledger;
            (forall later: set<nat> :: g.signalled <= later && Signals(g.returned[i].fence, later) ==>
               g.returned[i].reported <= later)
            <==> g.returned[i].lost <= g.signalled
  {
    EveryRun(tunnel, steps);
    var g := RunAll(tunnel, steps).ledger;
    CoversMeansNeverEarly(g.returned[i].fence, g.returned[i].reported, g.signalled);
    CoversIffLostSignalled(g.returned[i].fence, g.returned[i].reported, g.returned[i].lost, g.signalled, g.signalled);
  }

  // ---- when every system call works, nothing is lost ----

  ghost predicate NoLoss(g: Ledger) {
    && (forall i :: 0 <= i < |g.queue| ==> g.queue[i].lost == {})
    && (forall i :: 0 <= i < |g.returned| ==> g.returned[i].lost == {})
  }

  lemma GiveOneLosesNothing(g: Ledger, f: Frame, fence: Fence, luck: Luck)
    requires NoLoss(g) && Works(luck)
    ensures NoLoss(GiveOne(g, f, fence, luck))
  {
  }

  ghost predicate CallsWork(step: Step) {
    step.HandBack? ==> Works(step.luck)
  }

  lemma WorkingStepLosesNothing(s: Sys, step: Step)
    requires NoLoss(s.ledger) && CallsWork(step)
    ensures NoLoss(Apply(s, step).ledger)
  {
    if step.HandBack? && Giving(s, step.layer) {
      var o := s.owed[step.layer].gives[0];
      GiveOneLosesNothing(s.ledger, o.frame, o.fence, step.luck);
    }
  }

  lemma {:induction false} WorkingRunLosesNothing(tunnel: nat, steps: seq<Step>)
    requires forall n :: 0 <= n < |steps| ==> CallsWork(steps[n])
    ensures NoLoss(RunAll(tunnel, steps).ledger)
  {
    if steps != [] {
      var n := |steps| - 1;
      WorkingRunLosesNothing(tunnel, steps[..n]);
      WorkingStepLosesNothing(RunAll(tunnel, steps[..n]), steps[n]);
    }
  }

  // ---- an undisturbed delivery is one call of acquireBuffer ----

  /** The rest of a delivery, without interruption. */
  function DeliverAll(s: Sys): Sys
    decreases if s.batch.Some? then |s.batch.value.todo| else 0,
              if s.batch.Some? && s.batch.value.refused then 1 else 0,
              if s.batch.Some? then |s.batch.value.items| - s.batch.value.at else 0
  {
    if Counting(s) then DeliverAll(CountNext(s))
    else if Uncounting(s) then DeliverAll(UncountNext(s))
    else if Asking(s) then DeliverAll(Ask(s))
    else s
  }

  lemma ReffedMore(q: seq<Buffer>, ids: set<nat>, id: nat, up: bool)
    requires id !in ids
    ensures Reffed(Reffed(q, ids, up), {id}, up) == Reffed(q, ids + {id}, up)
  {
  }

  lemma ReffedNone(q: seq<Buffer>, up: bool)
    ensures Reffed(q, Ids([]), up) == q
  {
  }

  lemma PrefixIds(items: seq<Frame>, n: nat)
    requires Increasing(items) && n < |items|
    ensures items[n].id !in Ids(items[..n]) && Ids(items[..n + 1]) == Ids(items[..n]) + {items[n].id}
  {
    assert items[..n + 1] == items[..n] + [items[n]];
  }

  /** Counting the items up or down one by one is counting them all. */
  lemma {:induction false} CountRest(s: Sys, q: seq<Buffer>)
    requires s.batch.Some? && s.batch.value.at <= |s.batch.value.items| && Increasing(s.batch.value.items)
    requires !s.batch.value.refused && s.ledger.queue == Reffed(q, Ids(s.batch.value.items[..s.batch.value.at]), true)
    ensures var b := s.batch.value;
            DeliverAll(s) == DeliverAll(s.(ledger := s.ledger.(queue := Reffed(q, Ids(b.items), true)),
                                           batch := Some(b.(at := |b.items|))))
    decreases |s.batch.value.items| - s.batch.value.at
  {
    var b := s.batch.value;
    if b.at < |b.items| {
      PrefixIds(b.items, b.at);
      ReffedMore(q, Ids(b.items[..b.at]), b.items[b.at].id, true);
      CountRest(CountNext(s), q);
    } else {
      assert b.items[..b.at] == b.items;
    }
  }

  lemma {:induction false} UncountRest(s: Sys, q: seq<Buffer>)
    requires s.batch.Some? && s.batch.value.at < |s.batch.value.items| && Increasing(s.batch.value.items)
    requires s.batch.value.refused && s.ledger.queue == Reffed(q, Ids(s.batch.value.items[..s.batch.value.at]), false)
    ensures var b := s.batch.value;
            DeliverAll(s) == DeliverAll(s.(ledger := s.ledger.(queue := Reffed(q, Ids(b.items), false)),
                                           batch := Remaining(b.items, b.todo)))
    decreases |s.batch.value.items| - s.batch.value.at
  {
    var b := s.batch.value;
    PrefixIds(b.items, b.at);
    ReffedMore(q, Ids(b.items[..b.at]), b.items[b.at].id, false);
    if b.at + 1 < |b.items| {
      UncountRest(UncountNext(s), q);
    } else {
      assert b.items[..b.at + 1] == b.items;
    }
  }

  /** The first n of `all` have been asked. */
  ghost predicate Midway(s: Sys, base: seq<Buffer>, items: seq<Frame>, all: seq<nat>, n: nat, accepts: nat -> bool) {
    && n <= |all| && s.ledger.queue == base + NewBuffers(items, OfferedRefs(all[..n], accepts))
    && s.consumers == Takers(all[..n], accepts) + all[n..]
    && (forall i :: 0 <= i < |base| ==> base[i].frame.id !in Ids(items))
    && s.batch == Remaining(items, all[n..]) && items != [] && Increasing(items)
    && (forall c :: c in all ==> c in s.layers && Takes(s.layers[c]) == accepts(c))
  }

  lemma {:induction false} TakersFacts(consumers: seq<nat>, accepts: nat -> bool, c: nat)
    requires c !in consumers
    ensures c !in Takers(consumers, accepts)
  {
    if consumers != [] { TakersFacts(consumers[..|consumers| - 1], accepts, c); }
  }

  lemma {:induction false} RemoveNone(a: seq<nat>, c: nat)
    requires c !in a
    ensures Remove(a, c) == a
  {
    if a != [] { RemoveNone(a[..|a| - 1], c); }
  }

  lemma ReffedNew(base: seq<Buffer>, items: seq<Frame>, refs: int, up: bool)
    requires forall i :: 0 <= i < |base| ==> base[i].frame.id !in Ids(items)
    ensures Reffed(base + NewBuffers(items, refs), Ids(items), up)
         == base + NewBuffers(items, if up then RefHandle(refs) else refs - 1)
  {
  }

  /** All items of s are counted for the next consumer. */
  function Counted(s: Sys, base: seq<Buffer>, items: seq<Frame>, refs: int): Sys
    requires s.batch.Some?
  {
    s.(ledger := s.ledger.(queue := base + NewBuffers(items, RefHandle(refs))),
       batch := Some(s.batch.value.(at := |items|)))
  }

  lemma CountsAll(s: Sys, base: seq<Buffer>, items: seq<Frame>, all: seq<nat>, n: nat, accepts: nat -> bool)
    requires Midway(s, base, items, all, n, accepts) && n < |all|
    ensures DeliverAll(s) == DeliverAll(Counted(s, base, items, OfferedRefs(all[..n], accepts)))
  {
    ReffedNone(s.ledger.queue, true);
    assert items[..0] == [];
    CountRest(s, s.ledger.queue);
    ReffedNew(base, items, OfferedRefs(all[..n], accepts), true);
  }

  lemma AcceptedMidway(s: Sys, base: seq<Buffer>, items: seq<Frame>, all: seq<nat>, n: nat, accepts: nat -> bool)
    requires Midway(s, base, items, all, n, accepts) && n < |all| && accepts(all[n])
    ensures var u := Counted(s, base, items, OfferedRefs(all[..n], accepts));
            Asking(u) && Takes(u.layers[u.batch.value.todo[0]]) && Midway(Ask(u), base, items, all, n + 1, accepts)
  {
    var c := all[n];
    assert all[n..][0] == c && c in all;
    assert all[..n + 1][..n] == all[..n] && all[n..][1..] == all[n + 1..];
    assert RefHandle(OfferedRefs(all[..n], accepts)) == OfferedRefs(all[..n + 1], accepts);
    assert Takers(all[..n], accepts) + all[n..] == Takers(all[..n], accepts) + [c] + all[n + 1..];
  }

  lemma OneAccepted(s: Sys, base: seq<Buffer>, items: seq<Frame>, all: seq<nat>, n: nat, accepts: nat -> bool)
    returns (t: Sys)
    requires Midway(s, base, items, all, n, accepts) && n < |all| && accepts(all[n])
    ensures Midway(t, base, items, all, n + 1, accepts) && DeliverAll(s) == DeliverAll(t)
  {

    CountsAll(s, base, items, all, n, accepts);
    AcceptedMidway(s, base, items, all, n, accepts);
    t := Ask(Counted(s, base, items, OfferedRefs(all[..n], accepts)));
  }

  lemma OneRefused(s: Sys, base: seq<Buffer>, items: seq<Frame>, all: seq<nat>, n: nat, accepts: nat -> bool)
    returns (t: Sys)
    requires Midway(s, base, items, all, n, accepts) && n < |all| && !accepts(all[n]) && Distinct(all)
    ensures Midway(t, base, items, all, n + 1, accepts) && DeliverAll(s) == DeliverAll(t)
  {
    var c, r := all[n], OfferedRefs(all[..n], accepts);
    CountsAll(s, base, items, all, n, accepts);
    assert all[n..][0] == c && c in all && all[n..][1..] == all[n + 1..];
    var u := Ask(Counted(s, base, items, r));
    ReffedNone(u.ledger.queue, false);
    assert items[..0] == [];
    UncountRest(u, u.ledger.queue);
    RefusedQueue(base, items, all, n, accepts);
    RefusedConsumers(all, n, accepts);
    t := u.(ledger := u.ledger.(queue := base + NewBuffers(items, OfferedRefs(all[..n + 1], accepts))),
            batch := Remaining(items, all[n + 1..]));
  }

  lemma RefusedQueue(base: seq<Buffer>, items: seq<Frame>, all: seq<nat>, n: nat, accepts: nat -> bool)
    requires n < |all| && !accepts(all[n]) && forall i :: 0 <= i < |base| ==> base[i].frame.id !in Ids(items)
    ensures Reffed(base + NewBuffers(items, RefHandle(OfferedRefs(all[..n], accepts))), Ids(items), false)
         == base + NewBuffers(items, OfferedRefs(all[..n + 1], accepts))
  {
    assert all[..n + 1][..n] == all[..n];
    ReffedNew(base, items, RefHandle(OfferedRefs(all[..n], accepts)), false);
  }

  lemma RefusedConsumers(all: seq<nat>, n: nat, accepts: nat -> bool)
    requires n < |all| && !accepts(all[n]) && Distinct(all)
    ensures Remove(Takers(all[..n], accepts) + all[n..], all[n]) == Takers(all[..n + 1], accepts) + all[n + 1..]
  {
    assert all[..n + 1][..n] == all[..n];
    TakersFacts(all[..n], accepts, all[n]);
    RemoveMiddle(Takers(all[..n], accepts), all[n], all[n + 1..]);
    assert all[n..] == [all[n]] + all[n + 1..];
    assert Takers(all[..n], accepts) + [] == Takers(all[..n], accepts);
  }

  lemma {:induction false} RemoveMiddle(front: seq<nat>, c: nat, tail: seq<nat>)
    requires c !in front && c !in tail
    ensures Remove(front + ([c] + tail), c) == front + tail
  {
    var whole := front + ([c] + tail);
    if tail == [] {
      RemoveNone(front, c);
      assert whole[..|whole| - 1] == front;
      assert Remove(whole, c) == front + [];
    } else {
      var t := tail[..|tail| - 1];
      RemoveMiddle(front, c, t);
      assert whole[..|whole| - 1] == front + ([c] + t);
      assert Remove(whole, c) == (front + t) + [tail[|tail| - 1]];
    }
  }

  lemma {:induction false} DeliverAllFrom(s: Sys, base: seq<Buffer>, items: seq<Frame>, all: seq<nat>, n: nat,
                                          accepts: nat -> bool)
    requires Midway(s, base, items, all, n, accepts) && Distinct(all)
    ensures Midway(DeliverAll(s), base, items, all, |all|, accepts)
    decreases |all| - n
  {
    if n < |all| {
      var t;
      if accepts(all[n]) {
        t := OneAccepted(s, base, items, all, n, accepts);
      } else {
        t := OneRefused(s, base, items, all, n, accepts);
      }
      DeliverAllFrom(t, base, items, all, n + 1, accepts);
    }
  }

  /**
   * Taking buffers and then offering them to every consumer without interruption leaves
   * the queue and the consumer list that `VtInstance.AcquireBuffer` promises.
   */
  lemma UninterruptedDelivery(s: Sys, frames: seq<Frame>, accepts: nat -> bool)
    requires Inv(s) && Enabled(s, Acquire(frames, false)) && frames != []
    requires forall c :: c in s.consumers ==> Takes(s.layers[c]) == accepts(c)
    ensures var s' := DeliverAll(Apply(s, Acquire(frames, false)));
            && s'.ledger.queue == s.ledger.queue + NewBuffers(frames, OfferedRefs(s.consumers, accepts))
            && s'.consumers == Takers(s.consumers, accepts) && s'.batch.None?
  {
    var s1 := Apply(s, Acquire(frames, false));
    assert s.consumers[..0] == [] && s.consumers[0..] == s.consumers && s.consumers[..|s.consumers|] == s.consumers;
    DeliverAllFrom(s1, s.ledger.queue, frames, s.consumers, 0, accepts);
  }
}
