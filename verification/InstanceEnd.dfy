/**
 * The end of a tunnel instance (common/videotunnel/VtInstanceMgr.cpp,
 * common/videotunnel/VtInstance.cpp). The manager removes an instance without consumers,
 * and disconnects it before its destructor hands the queued buffers back.
 */
module InstanceEnd {
  import opened VideoTunnelTypes
  import opened TunnelInstance
  import opened LayerSpec
  import opened BufferLedger
  import opened TunnelProtocol
  import opened TunnelTheorems

  /** The destructor: the queued buffers go back under `mTunnelId`, then the instance disconnects. */
  function Destroy(g: Ledger): Ledger {
    g.(queue := [], returned := g.returned + LastReturns(g.queue, g.tunnel), tunnel := -1)
  }

  /** `clearUpInstancesLocked`: `disconnect`, which sets the tunnel id to -1, and then the destructor. */
  function CleanUp(g: Ledger): Ledger {
    Destroy(g.(tunnel := -1))
  }

  /** The buffer has been released to this tunnel. */
  ghost predicate WentTo(g: Ledger, tunnel: int, id: nat) {
    exists i :: 0 <= i < |g.returned| && g.returned[i].frame.id == id && g.returned[i].tunnel == tunnel
  }

  ghost predicate EachOnce(returned: seq<Return>) {
    forall i, j :: 0 <= i < j < |returned| ==> returned[i].frame.id != returned[j].frame.id
  }

  ghost predicate Queued(q: seq<Buffer>, id: nat) {
    exists i :: 0 <= i < |q| && q[i].frame.id == id
  }

  lemma LastReturnsFacts(g: Ledger, tunnel: int, id: nat)
    requires QueueOk(g.queue, g.next) && ReturnsOk(g)
    ensures var d := g.(returned := g.returned + LastReturns(g.queue, tunnel));
            && EachOnce(d.returned)
            && (WasReturned(d.returned, id) <==> WasReturned(g.returned, id) || Queued(g.queue, id))
            && (forall t :: WentTo(d, t, id) <==> WentTo(g, t, id) || (t == tunnel && Queued(g.queue, id)))
  {
    var n, d := |g.returned|, g.(returned := g.returned + LastReturns(g.queue, tunnel));
    assert forall i :: 0 <= i < n ==> d.returned[i] == g.returned[i];
    assert forall i :: n <= i < |d.returned| ==>
           d.returned[i].frame == g.queue[i - n].frame && d.returned[i].tunnel == tunnel;
    if i :| 0 <= i < n && g.returned[i].frame.id == id {
      assert d.returned[i].frame.id == id;
    }
    if i :| 0 <= i < |g.queue| && g.queue[i].frame.id == id {
      assert d.returned[n + i].frame.id == id;
    }
    forall t ensures WentTo(d, t, id) <==> WentTo(g, t, id) || (t == tunnel && Queued(g.queue, id)) {
      if i :| 0 <= i < n && g.returned[i].frame.id == id && g.returned[i].tunnel == t {
        assert d.returned[i].frame.id == id && d.returned[i].tunnel == t;
      }
    }
  }

  /**
   * After any legal run the clean-up releases every buffer that is left, once, but to no
   * tunnel: a buffer has gone back to its own tunnel exactly if it had before the clean-up.
   */
  lemma CleanUpAccount(tunnel: nat, steps: seq<Step>, id: nat)
    requires Legal(tunnel, steps) && RunAll(tunnel, steps).batch.None? && id < RunAll(tunnel, steps).ledger.next
    ensures var g := RunAll(tunnel, steps).ledger; var c := CleanUp(g);
            && WasReturned(c.returned, id) && EachOnce(c.returned)
            && (WentTo(c, tunnel, id) <==> WasReturned(g.returned, id))
            && (WentTo(c, -1, id) <==> Queued(g.queue, id))
  {
    EveryRun(tunnel, steps);
    OwnTunnel(tunnel, steps);
    var g := RunAll(tunnel, steps).ledger;
    LastReturnsFacts(g, -1, id);
    var c, d := CleanUp(g), g.(returned := g.returned + LastReturns(g.queue, -1));
    assert c.returned == d.returned;
    assert forall t :: WentTo(c, t, id) <==> WentTo(d, t, id);
    if i :| 0 <= i < |g.returned| && g.returned[i].frame.id == id {
      assert g.returned[i].tunnel == tunnel;
    }
  }

  lemma {:induction false} OwnTunnel(tunnel: nat, steps: seq<Step>)
    ensures RunAll(tunnel, steps).ledger.tunnel == tunnel
  {
    if steps != [] {
      OwnTunnel(tunnel, steps[..|steps| - 1]);
    }
  }

  /** So all buffers end up with their own tunnel exactly when none is queued at the clean-up. */
  lemma AllGoHomeIff(tunnel: nat, steps: seq<Step>)
    requires Legal(tunnel, steps) && RunAll(tunnel, steps).batch.None?
    ensures var g := RunAll(tunnel, steps).ledger;
            (forall id: nat :: id < g.next ==> WentTo(CleanUp(g), tunnel, id)) <==> g.queue == []
  {
    var g := RunAll(tunnel, steps).ledger;
    EveryRun(tunnel, steps);
    forall id: nat | id < g.next ensures WentTo(CleanUp(g), tunnel, id) <==> !Queued(g.queue, id) {
      CleanUpAccount(tunnel, steps, id);
      EachBufferReturnsOnce(tunnel, steps, id);
    }
    if g.queue != [] {
      assert Queued(g.queue, g.queue[0].frame.id);
    }
  }

  /** A destructor that runs without a clean-up, as when the manager itself ends, sends them all to their own tunnel. */
  lemma DestroySendsAllHome(tunnel: nat, steps: seq<Step>, id: nat)
    requires Legal(tunnel, steps) && RunAll(tunnel, steps).batch.None? && id < RunAll(tunnel, steps).ledger.next
    ensures var d := Destroy(RunAll(tunnel, steps).ledger); WentTo(d, tunnel, id) && EachOnce(d.returned)
  {
    EveryRun(tunnel, steps);
    OwnTunnel(tunnel, steps);
    var g := RunAll(tunnel, steps).ledger;
    LastReturnsFacts(g, tunnel, id);
    EachBufferReturnsOnce(tunnel, steps, id);
    var d := g.(returned := g.returned + LastReturns(g.queue, tunnel));
    assert Destroy(g).returned == d.returned;
    if i :| 0 <= i < |g.returned| && g.returned[i].frame.id == id {
      assert g.returned[i].tunnel == tunnel;
      assert WentTo(g, tunnel, id);
    }
    assert WentTo(d, tunnel, id);
  }

  /**
   * Whatever a layer still holds at the clean-up, having been erased as a consumer, or has
   * let go of but not handed back, is released to no tunnel.
   */
  lemma HeldAtCleanUp(tunnel: nat, steps: seq<Step>, l: nat, f: Frame)
    requires Legal(tunnel, steps) && RunAll(tunnel, steps).batch.None?
    requires var s := RunAll(tunnel, steps); l in s.layers && (f in Held(s.layers[l]) || f in OwedSet(s.owed, l))
    ensures WentTo(CleanUp(RunAll(tunnel, steps).ledger), -1, f.id)
    ensures !WentTo(CleanUp(RunAll(tunnel, steps).ledger), tunnel, f.id)
  {
    EveryRun(tunnel, steps);
    var s := RunAll(tunnel, steps);
    HeldInQueue(s, l, f);
    var i :| 0 <= i < |s.ledger.queue| && s.ledger.queue[i].frame == f;
    assert Queued(s.ledger.queue, f.id);
    CleanUpAccount(tunnel, steps, f.id);
    EachBufferReturnsOnce(tunnel, steps, f.id);
  }
}
