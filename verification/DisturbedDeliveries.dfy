/**
 * Deliveries that a hand-back disturbs. Buffers are counted and offered to the consumers one
 * after the other; meanwhile a layer that has taken them may already hand them back. When
 * that does harm, and when it does not.
 */
module DisturbedDeliveries {
  import opened VideoTunnelTypes
  import opened DrmSync
  import opened TunnelInstance
  import opened LayerSpec
  import opened BufferLedger
  import opened TunnelProtocol
  import opened TunnelTheorems

  /** A consumer that has still to answer will take the offer. */
  ghost predicate SomeTaker(s: Sys) {
    s.batch.Some? && exists c :: c in s.batch.value.todo && c in s.layers && Takes(s.layers[c])
  }

  /** Nothing that decides about harm has changed. */
  ghost predicate SameHarm(s: Sys, t: Sys) {
    (Gone(t) <==> Gone(s)) && (Orphaned(t) <==> Orphaned(s)) && (SomeTaker(t) <==> SomeTaker(s))
  }

  // ---- the rest of a delivery ----

  lemma ReffedKeepsHarm(s: Sys, t: Sys, ids: set<nat>, up: bool)
    requires s.batch.Some? && t.batch.Some? && t.batch.value.items == s.batch.value.items
    requires t.batch.value.todo == s.batch.value.todo && t.layers == s.layers && t.owed == s.owed
    requires t.ledger == s.ledger.(queue := Reffed(s.ledger.queue, ids, up))
    ensures SameHarm(s, t)
  {
    ReffedInQueue(s.ledger.queue, ids, up);
    ReffedBare(s.ledger, Holds(s), ids, up);
    assert Holds(t) == Holds(s);
  }

  lemma CountKeepsHarm(s: Sys)
    requires Inv(s) && Counting(s)
    ensures Inv(CountNext(s)) && SameHarm(s, CountNext(s))
  {
    CountNextKeepsInv(s);
    ReffedKeepsHarm(s, CountNext(s), {s.batch.value.items[s.batch.value.at].id}, true);
  }

  lemma UncountKeepsHarm(s: Sys)
    requires Inv(s) && Uncounting(s) && !Ends(s.batch.value)
    ensures Inv(UncountNext(s)) && SameHarm(s, UncountNext(s)) && UncountNext(s).batch.Some?
  {
    UncountNextKeepsInvIff(s);
    ReffedKeepsHarm(s, UncountNext(s), {s.batch.value.items[s.batch.value.at].id}, false);
  }

  lemma RefusedKeepsHarm(s: Sys)
    requires Inv(s) && Asking(s) && !Takes(s.layers[s.batch.value.todo[0]])
    ensures Inv(Ask(s)) && SameHarm(s, Ask(s))
  {
    var b, t := s.batch.value, Ask(s);
    RefuseKeepsInv(s, b.todo[0]);
    assert Holds(t) == Holds(s);
    assert forall c :: c in b.todo <==> c == b.todo[0] || c in b.todo[1..];
  }

  /** Layer l holds f although f is no longer queued. */
  ghost predicate HoldsReturned(s: Sys, l: nat, f: Frame) {
    && l in s.layers && f in Held(s.layers[l]) && !InQueue(s.ledger.queue, f)
    && forall m :: m in s.layers ==> Wf(s.layers[m])
  }

  lemma ReffedKeepsReturned(s: Sys, t: Sys, ids: set<nat>, up: bool, l: nat, f: Frame)
    requires HoldsReturned(s, l, f)
    requires t.layers == s.layers && t.ledger == s.ledger.(queue := Reffed(s.ledger.queue, ids, up))
    ensures HoldsReturned(t, l, f)
  {
    ReffedInQueue(s.ledger.queue, ids, up);
  }

  lemma AskKeepsReturned(s: Sys, l: nat, f: Frame)
    requires HoldsReturned(s, l, f) && Asking(s)
    ensures HoldsReturned(Ask(s), l, f)
  {
    LayerRuns.DeliverAdds(s.layers[s.batch.value.todo[0]], s.batch.value.items);
  }

  /** Once a layer holds a returned buffer, the rest of the delivery does not change that. */
  lemma {:induction false} HarmStays(s: Sys, l: nat, f: Frame)
    requires HoldsReturned(s, l, f)
    ensures HoldsReturned(DeliverAll(s), l, f)
    decreases if s.batch.Some? then |s.batch.value.todo| else 0,
              if s.batch.Some? && s.batch.value.refused then 1 else 0,
              if s.batch.Some? then |s.batch.value.items| - s.batch.value.at else 0
  {
    if Counting(s) {
      ReffedKeepsReturned(s, CountNext(s), {s.batch.value.items[s.batch.value.at].id}, true, l, f);
      HarmStays(CountNext(s), l, f);
    } else if Uncounting(s) {
      ReffedKeepsReturned(s, UncountNext(s), {s.batch.value.items[s.batch.value.at].id}, false, l, f);
      HarmStays(UncountNext(s), l, f);
    } else if Asking(s) {
      AskKeepsReturned(s, l, f);
      HarmStays(Ask(s), l, f);
    }
  }

  lemma HoldingReturnedBreaks(s: Sys, l: nat, f: Frame)
    requires HoldsReturned(s, l, f)
    ensures !Inv(s)
  {
    assert f in Holds(s)[l];
  }

  /** After a taken offer with nothing gone, nothing is orphaned either. */
  lemma TakenIsClean(s: Sys)
    requires Inv(s) && Asking(s) && Takes(s.layers[s.batch.value.todo[0]]) && !Gone(s)
    ensures Inv(Ask(s)) && !Gone(Ask(s)) && !Orphaned(Ask(s))
  {
    var c, items := s.batch.value.todo[0], s.batch.value.items;
    var state := Deliver(s.layers[c], items).layer;
    LayerRuns.DeliverAdds(s.layers[c], items);
    AcceptKeepsInv(s, c, state);
    AcceptKeepsHolds(s, c, state);
    var t := Accept(s, c, state);
    CloseKeepsBooksIff(t.ledger, Holds(t), {});
  }

  /** With nothing gone or orphaned every answer is fine. */
  lemma {:induction false} CleanRest(s: Sys)
    requires Inv(s) && !Gone(s) && !Orphaned(s)
    ensures Inv(DeliverAll(s))
    decreases if s.batch.Some? then |s.batch.value.todo| else 0,
              if s.batch.Some? && s.batch.value.refused then 1 else 0,
              if s.batch.Some? then |s.batch.value.items| - s.batch.value.at else 0
  {
    hide Inv, Gone, Orphaned;
    if Counting(s) {
      CountKeepsHarm(s);
      CleanRest(CountNext(s));
    } else if Uncounting(s) {
      CleanUncount(s);
      CleanRest(UncountNext(s));
    } else if Asking(s) {
      if Takes(s.layers[s.batch.value.todo[0]]) { TakenIsClean(s); } else { RefusedKeepsHarm(s); }
      CleanRest(Ask(s));
    }
  }

  lemma CleanUncount(s: Sys)
    requires Inv(s) && Uncounting(s) && !Gone(s) && !Orphaned(s)
    ensures Inv(UncountNext(s)) && !Gone(UncountNext(s)) && !Orphaned(UncountNext(s))
  {
    if Ends(s.batch.value) {
      UncountNextKeepsInvIff(s);
      ReffedBare(s.ledger, Holds(s), {s.batch.value.items[s.batch.value.at].id}, false);
      assert Holds(UncountNext(s)) == Holds(s);
    } else {
      UncountKeepsHarm(s);
    }
  }

  /** When the next consumer takes the offer, the delivery ends well exactly if nothing had gone. */
  lemma TakenEnds(s: Sys)
    requires Inv(s) && Asking(s) && Takes(s.layers[s.batch.value.todo[0]])
    ensures Inv(DeliverAll(Ask(s))) <==> !Gone(s)
  {
    if Gone(s) {
      TakenGoneStays(s);
    } else {
      TakenIsClean(s);
      CleanRest(Ask(s));
    }
  }

  lemma TakenGoneStays(s: Sys)
    requires Inv(s) && Asking(s) && Takes(s.layers[s.batch.value.todo[0]]) && Gone(s)
    ensures !Inv(DeliverAll(Ask(s)))
  {
    var c, t := s.batch.value.todo[0], Ask(s);
    LayerRuns.DeliverAdds(s.layers[c], s.batch.value.items);
    var f :| f in s.batch.value.items && !InQueue(s.ledger.queue, f);
    assert f in Held(t.layers[c]);
    HarmStays(t, c, f);
    HoldingReturnedBreaks(DeliverAll(t), c, f);
  }

  /** The last item is counted down after the last refusal. */
  lemma EndsIff(s: Sys)
    requires Inv(s) && Uncounting(s) && Ends(s.batch.value)
    ensures !SomeTaker(s) && (Inv(DeliverAll(UncountNext(s))) <==> !Orphaned(s))
  {
    UncountNextKeepsInvIff(s);
    assert UncountNext(s).batch.None?;
  }

  /** Of a consistent delivery exactly one kind of step is next. */
  lemma NextStep(s: Sys)
    requires Inv(s) && s.batch.Some?
    ensures Counting(s) || Uncounting(s) || Asking(s)
  {
    var b := s.batch.value;
    if !b.refused {
      assert b.todo[0] in s.consumers;
    }
  }

  /**
   * From any point of a delivery, if it is not interrupted further: it ends with right
   * accounts exactly when nobody takes the offer after a buffer of it has gone back, and
   * somebody takes it after a buffer of it was orphaned.
   */
  lemma {:induction false} RestOfDeliveryIff(s: Sys)
    requires Inv(s) && s.batch.Some?
    ensures Inv(DeliverAll(s)) <==> (Gone(s) ==> !SomeTaker(s)) && (Orphaned(s) ==> SomeTaker(s))
    decreases |s.batch.value.todo|, if s.batch.value.refused then 1 else 0, |s.batch.value.items| - s.batch.value.at
  {
    hide Inv, Gone, Orphaned;
    NextStep(s);
    if Counting(s) {
      CountKeepsHarm(s);
      RestOfDeliveryIff(CountNext(s));
    } else if Uncounting(s) {
      if Ends(s.batch.value) {
        EndsIff(s);
      } else {
        UncountKeepsHarm(s);
        RestOfDeliveryIff(UncountNext(s));
      }
    } else {
      if Takes(s.layers[s.batch.value.todo[0]]) {
        TakenEnds(s);
        assert s.batch.value.todo[0] in s.batch.value.todo;
      } else {
        RefusedKeepsHarm(s);
        RestOfDeliveryIff(Ask(s));
      }
    }
  }

  // ---- what a hand-back does to a delivery ----

  /** The next frame layer l hands back. */
  function NextGiven(s: Sys, l: nat): Frame
    requires Giving(s, l)
  {
    s.owed[l].gives[0].frame
  }

  /** f is on offer and nobody but l has it. */
  ghost predicate SoleOnOffer(s: Sys, l: nat, f: Frame) {
    s.batch.Some? && f in s.batch.value.items && Holders(Holds(s), f) == {l}
  }

  lemma GivenLeaves(s: Sys, l: nat, luck: Luck)
    requires Inv(s) && Giving(s, l)
    ensures var t, f := Give(s, l, luck), NextGiven(s, l);
            && Inv(t) && l in Holders(Holds(s), f) && InQueue(s.ledger.queue, f)
            && Holds(t) == Without(Holds(s), l, f) && t.ledger.accepted == s.ledger.accepted
            && Leaves(s.ledger.queue, t.ledger.queue, Holds(s), Offered(s), l, f)
  {
    var o := s.owed[l].gives[0];
    GivenHolds(s, l, luck);
    GiveOneKeepsBooks(s.ledger, Holds(s), Offered(s), Open(s), l, o.frame, o.fence, luck);
    GiveKeepsInv(s, l, luck);
    HeldInQueue(s, l, o.frame);
  }

  /** The items counted have the ids that carry a reference. */
  lemma OfferedAreOpen(s: Sys, f: Frame)
    requires Inv(s) && s.batch.Some? && InQueue(s.ledger.queue, f) && f.id in Offered(s)
    ensures f in s.batch.value.items
  {
    OfferedItems(s);
    var i :| 0 <= i < |s.ledger.queue| && s.ledger.queue[i].frame == f;
    var g :| g in OnCount(s.batch.value) && g.id == f.id;
    assert g in s.batch.value.items;
  }

  lemma GoneAfter(s: Sys, l: nat, luck: Luck)
    requires Inv(s) && s.batch.Some? && Giving(s, l)
    ensures var f := NextGiven(s, l);
            Gone(Give(s, l, luck)) <==> Gone(s) || (SoleOnOffer(s, l, f) && f.id !in Offered(s))
  {
    GivenLeaves(s, l, luck);
    var t, f, items := Give(s, l, luck), NextGiven(s, l), s.batch.value.items;
    if x :| x in items && !InQueue(s.ledger.queue, x) {
      assert !InQueue(t.ledger.queue, x);
    }
  }

  /** An accepted, queued buffer that nobody holds. */
  ghost predicate BareFrame(s: Sys, f: Frame) {
    InQueue(s.ledger.queue, f) && f.id in s.ledger.accepted && Holders(Holds(s), f) == {}
  }

  lemma OrphanedMeans(s: Sys)
    ensures Orphaned(s) <==> exists f :: BareFrame(s, f)
  {
    if Orphaned(s) {
      var i :| 0 <= i < |s.ledger.queue| && Bare(s.ledger, Holds(s), i);
      assert BareFrame(s, s.ledger.queue[i].frame);
    }
    if f :| BareFrame(s, f) {
      var i :| 0 <= i < |s.ledger.queue| && s.ledger.queue[i].frame == f;
      assert Bare(s.ledger, Holds(s), i);
    }
  }

  /** A buffer somebody holds has been accepted. */
  lemma HeldIsAccepted(s: Sys, f: Frame)
    requires Inv(s) && InQueue(s.ledger.queue, f) && Holders(Holds(s), f) != {}
    ensures f.id in s.ledger.accepted
  {
    var i :| 0 <= i < |s.ledger.queue| && s.ledger.queue[i].frame == f;
  }

  /** One frame, before and after the hand-back: it is bare if it was, or if its last holder let go of a counted one. */
  lemma BareAfter(s: Sys, l: nat, luck: Luck, x: Frame)
    requires Inv(s) && s.batch.Some? && Giving(s, l)
    ensures var f := NextGiven(s, l);
            BareFrame(Give(s, l, luck), x) <==>
            BareFrame(s, x) || (x == f && SoleOnOffer(s, l, f) && f.id in Offered(s))
  {
    GivenLeaves(s, l, luck);
    var f := NextGiven(s, l);
    HoldersWithout(Holds(s), l, f, x);
    if x == f { LastHolderLetsGo(s, l, luck); }
  }

  /** In the books: after l lets go of f, its only holder so far, f is queued exactly if it is counted. */
  lemma StillQueuedIff(q: seq<Buffer>, q': seq<Buffer>, h: Holdings, offered: set<nat>, l: nat, f: Frame)
    requires l in h && f in h[l] && InQueue(q, f) && Leaves(q, q', h, offered, l, f)
    ensures InQueue(q', f) && Holders(Without(h, l, f), f) == {} <==> Holders(h, f) == {l} && f.id in offered
  {
    HoldersWithout(h, l, f, f);
    assert l in Holders(h, f);
    assert Holders(h, f) - {l} == {} <==> Holders(h, f) == {l};
  }

  lemma LastHolderLetsGo(s: Sys, l: nat, luck: Luck)
    requires Inv(s) && s.batch.Some? && Giving(s, l)
    ensures var f := NextGiven(s, l);
            BareFrame(Give(s, l, luck), f) <==> SoleOnOffer(s, l, f) && f.id in Offered(s)
    ensures !BareFrame(s, NextGiven(s, l))
  {
    var f, t := NextGiven(s, l), Give(s, l, luck);
    GivenLeaves(s, l, luck);
    HeldIsAccepted(s, f);
    StillQueuedIff(s.ledger.queue, t.ledger.queue, Holds(s), Offered(s), l, f);
    if f.id in Offered(s) { OfferedAreOpen(s, f); }
  }

  lemma OrphanedAfter(s: Sys, l: nat, luck: Luck)
    requires Inv(s) && s.batch.Some? && Giving(s, l)
    ensures var f := NextGiven(s, l);
            Orphaned(Give(s, l, luck)) <==> Orphaned(s) || (SoleOnOffer(s, l, f) && f.id in Offered(s))
  {
    OrphanedMeans(s);
    OrphanedMeans(Give(s, l, luck));
    forall x
      ensures BareFrame(Give(s, l, luck), x) <==>
              BareFrame(s, x) || (x == NextGiven(s, l) && SoleOnOffer(s, l, x) && x.id in Offered(s))
    {
      BareAfter(s, l, luck, x);
    }
  }

  /**
   * What one hand-back does to the delivery under way. Handing back a buffer that others
   * hold too, or that is not on offer, changes nothing. When its only holder hands back one
   * that is on offer, it is taken away if it has not been counted for the next consumer
   * yet, and orphaned if it has.
   */
  lemma HandBackEffect(s: Sys, l: nat, luck: Luck)
    requires Inv(s) && s.batch.Some? && Enabled(s, HandBack(l, luck))
    ensures var t, f := Apply(s, HandBack(l, luck)), NextGiven(s, l);
            && Inv(t) && t.batch == s.batch && t.layers == s.layers
            && (Gone(t) <==> Gone(s) || (SoleOnOffer(s, l, f) && f.id !in Offered(s)))
            && (Orphaned(t) <==> Orphaned(s) || (SoleOnOffer(s, l, f) && f.id in Offered(s)))
  {
    GiveKeepsInv(s, l, luck);
    GoneAfter(s, l, luck);
    OrphanedAfter(s, l, luck);
  }

  /** A layer's own step hands nothing back yet, so it changes neither. */
  lemma LayerStepEffect(s: Sys, l: nat, op: LayerRuns.Op)
    requires Inv(s) && s.batch.Some? && Enabled(s, LayerStep(l, op))
    ensures var t := Apply(s, LayerStep(l, op));
            && Inv(t) && t.batch == s.batch && t.ledger == s.ledger && Holds(t) == Holds(s)
            && (Gone(t) <==> Gone(s)) && (Orphaned(t) <==> Orphaned(s))
  {
    LayerStepHands(s.layers[l], op);
    LayerStepKeepsInv(s, l, op);
    MovedHolds(s, l, LayerRuns.Step(s.layers[l], op), Detaches(s.layers[l], op));
  }

  /**
   * The exact condition for a hand-back during a delivery that is then left to finish:
   * it does harm if and only if the buffer is on offer and had no other holder and, when it
   * was not yet counted for the next consumer, some consumer still to answer takes the
   * offer, or, when it was, none of them does.
   */
  lemma HandBackHarmsIff(s: Sys, l: nat, luck: Luck)
    requires Inv(s) && s.batch.Some? && !Gone(s) && !Orphaned(s) && Enabled(s, HandBack(l, luck))
    ensures !Inv(DeliverAll(Apply(s, HandBack(l, luck))))
       <==> SoleOnOffer(s, l, NextGiven(s, l)) && (NextGiven(s, l).id in Offered(s) <==> !SomeTaker(s))
  {
    hide Inv, Gone, Orphaned;
    HandBackEffect(s, l, luck);
    RestOfDeliveryIff(Apply(s, HandBack(l, luck)));
  }

  /**
   * The counting can fall between two hand-backs of one flush, so that the first buffer
   * goes back and the second is orphaned. Then no answer of the other consumers is right.
   */
  lemma SplitFlushAlwaysHarms(s: Sys)
    requires Inv(s) && s.batch.Some? && Gone(s) && Orphaned(s)
    ensures !Inv(DeliverAll(s))
  {
    RestOfDeliveryIff(s);
  }
}
