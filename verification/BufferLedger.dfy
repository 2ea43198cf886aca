/**
 * The accounting behind a tunnel instance: for every buffer, how many layers hold it, how
 * many references are counted, and whether it has gone back to the driver.
 */
module BufferLedger {
  import opened VideoTunnelTypes
  import opened DrmSync
  import opened TunnelInstance
  import opened LayerSpec

  /** Which frames each layer holds. */
  type Holdings = map<nat, set<Frame>>

  datatype Ledger = Ledger(
    tunnel: int,            // mTunnelId
    queue: seq<Buffer>,     // mBufferQueue
    returned: seq<Return>,  // every buffer handed back to the driver
    next: nat,              // buffers 0 .. next - 1 have been acquired
    accepted: set<nat>,     // buffers some layer has accepted
    signalled: set<nat>)    // fence points that have signalled

  function Holders(h: Holdings, f: Frame): set<nat> {
    set l | l in h && f in h[l]
  }

  /** A count of -1 means the item was never offered. */
  function Live(refs: int): int {
    if refs == -1 then 0 else refs
  }

  ghost predicate InQueue(q: seq<Buffer>, f: Frame) {
    exists i :: 0 <= i < |q| && q[i].frame == f
  }

  ghost predicate WasReturned(returned: seq<Return>, id: nat) {
    exists i :: 0 <= i < |returned| && returned[i].frame.id == id
  }

  /** Queued items are in arrival order and their descriptors differ. */
  ghost predicate QueueOk(q: seq<Buffer>, next: nat) {
    && (forall i :: 0 <= i < |q| ==> q[i].frame.id < next)
    && (forall i, j :: 0 <= i < j < |q| ==> q[i].frame.id < q[j].frame.id && q[i].frame.fd != q[j].frame.fd)
  }

  /**
   * The reference count is the number of holders, plus one while an offer is under way. A
   * buffer that a layer has accepted keeps a holder, except while its delivery is `open`.
   */
  ghost predicate CountsOk(g: Ledger, h: Holdings, offered: set<nat>, open: set<nat>) {
    forall i :: 0 <= i < |g.queue| ==>
      var b := g.queue[i];
      && b.refs >= -1
      && Live(b.refs) == |Holders(h, b.frame)| + (if b.frame.id in offered then 1 else 0)
      && (b.frame.id in g.accepted ==> Holders(h, b.frame) != {} || b.frame.id in open)
      && (Holders(h, b.frame) != {} ==> b.frame.id in g.accepted)
  }

  ghost predicate HeldOk(q: seq<Buffer>, h: Holdings) {
    forall l, f :: l in h && f in h[l] ==> InQueue(q, f)
  }

  /** No buffer goes back twice, and none that is still queued has gone back. */
  ghost predicate ReturnsOk(g: Ledger) {
    && (forall i, j :: 0 <= i < j < |g.returned| ==> g.returned[i].frame.id != g.returned[j].frame.id)
    && (forall i, j :: 0 <= i < |g.returned| && 0 <= j < |g.queue| ==> g.returned[i].frame.id != g.queue[j].frame.id)
    && (forall i :: 0 <= i < |g.returned| ==> g.returned[i].frame.id < g.next && g.returned[i].tunnel == g.tunnel)
  }

  /** Every acquired buffer is queued or has gone back. */
  ghost predicate NoneLost(g: Ledger) {
    forall id: nat :: id < g.next ==>
      WasReturned(g.returned, id) || exists i :: 0 <= i < |g.queue| && g.queue[i].frame.id == id
  }

  /** Every point consumers have reported for a buffer is accounted for. */
  ghost predicate FencesOk(g: Ledger) {
    && (forall i :: 0 <= i < |g.queue| ==>
          Accounted(g.queue[i].fence, g.queue[i].reported, g.queue[i].lost, g.signalled))
    && (forall i :: 0 <= i < |g.returned| ==>
          Accounted(g.returned[i].fence, g.returned[i].reported, g.returned[i].lost, g.signalled))
  }

  ghost predicate Books(g: Ledger, h: Holdings, offered: set<nat>, open: set<nat>) {
    && QueueOk(g.queue, g.next) && CountsOk(g, h, offered, open) && HeldOk(g.queue, h)
    && ReturnsOk(g) && NoneLost(g) && FencesOk(g) && offered <= open
    && forall id :: id in g.accepted ==> id < g.next
  }

  /** Layer l no longer holds f. */
  function Without(h: Holdings, l: nat, f: Frame): Holdings
    requires l in h
  {
    h[l := h[l] - {f}]
  }

  /** A layer hands f back with a fence: `onFrameDisplayed`. */
  function GiveOne(g: Ledger, f: Frame, fence: Fence, luck: Luck): Ledger {
    var d := OnDisplayed(g.queue, g.tunnel, f.fd, Some(fence), g.signalled, luck);
    g.(queue := d.queue, returned := g.returned + d.returned)
  }

  /** The item after f's holder reported: what `GiveOne` does to it. */
  function After(g: Ledger, i: nat, fence: Fence, luck: Luck): Buffer
    requires i < |g.queue|
  {
    Dropped(g.queue[i], Some(fence), g.signalled, luck)
  }

  /** The ledger once item i has gone back with the given fence. */
  function Removed(g: Ledger, i: nat, b: Buffer, luck: Luck): Ledger
    requires i < |g.queue|
  {
    g.(queue := g.queue[..i] + g.queue[i + 1..], returned := g.returned + [ReturnOf(b, g.tunnel, luck)])
  }

  /** A held frame is the one found under its descriptor. */
  lemma HeldIsFound(g: Ledger, h: Holdings, l: nat, f: Frame) returns (i: nat)
    requires QueueOk(g.queue, g.next) && HeldOk(g.queue, h) && l in h && f in h[l]
    ensures i < |g.queue| && g.queue[i].frame == f && FindFd(g.queue, f.fd) == i
  {
    assert InQueue(g.queue, f);
    i :| 0 <= i < |g.queue| && g.queue[i].frame == f;
    var k := FindFd(g.queue, f.fd);
  }

  lemma GiveOneAt(g: Ledger, f: Frame, fence: Fence, luck: Luck, i: nat)
    requires i < |g.queue| && FindFd(g.queue, f.fd) == i
    ensures GiveOne(g, f, fence, luck) ==
            if After(g, i, fence, luck).refs == 0 then Removed(g, i, After(g, i, fence, luck), luck)
            else g.(queue := g.queue[i := After(g, i, fence, luck)])
  {
    assert g.returned + [] == g.returned;
  }

  lemma GiveOneFinds(g: Ledger, h: Holdings, offered: set<nat>, open: set<nat>, l: nat, f: Frame, fence: Fence,
                     luck: Luck) returns (i: nat)
    requires Books(g, h, offered, open) && l in h && f in h[l]
    ensures i < |g.queue| && g.queue[i].frame == f
    ensures After(g, i, fence, luck).refs >= 0
    ensures GiveOne(g, f, fence, luck) ==
            if After(g, i, fence, luck).refs == 0 then Removed(g, i, After(g, i, fence, luck), luck)
            else g.(queue := g.queue[i := After(g, i, fence, luck)])
  {
    i := HeldIsFound(g, h, l, f);
    assert l in Holders(h, f);
    GiveOneAt(g, f, fence, luck, i);
  }

  lemma HoldersWithout(h: Holdings, l: nat, f: Frame, x: Frame)
    requires l in h && f in h[l]
    ensures Holders(Without(h, l, f), x) == if x == f then Holders(h, f) - {l} else Holders(h, x)
    ensures |Holders(Without(h, l, f), x)| == |Holders(h, x)| - (if x == f then 1 else 0)
  {
  }

  lemma StillHeldOk(q: seq<Buffer>, q': seq<Buffer>, h: Holdings, l: nat, f: Frame)
    requires HeldOk(q, h) && l in h && |q'| == |q| && forall j :: 0 <= j < |q| ==> q'[j].frame == q[j].frame
    ensures HeldOk(q', Without(h, l, f))
  {
    forall m, x | m in Without(h, l, f) && x in Without(h, l, f)[m] ensures InQueue(q', x) {
      assert InQueue(q, x);
      var j :| 0 <= j < |q| && q[j].frame == x;
      assert q'[j].frame == x;
    }
  }

  lemma DropKeepsCounts(g: Ledger, h: Holdings, offered: set<nat>, open: set<nat>, l: nat, f: Frame, b: Buffer, i: nat)
    requires QueueOk(g.queue, g.next) && CountsOk(g, h, offered, open) && offered <= open && l in h && f in h[l]
    requires i < |g.queue| && g.queue[i].frame == f && b.frame == f && b.refs == g.queue[i].refs - 1 > 0
    ensures var g' := g.(queue := g.queue[i := b]);
            QueueOk(g'.queue, g'.next) && CountsOk(g', Without(h, l, f), offered, open)
  {
    var g' := g.(queue := g.queue[i := b]);
    assert forall j :: 0 <= j < |g.queue| ==> g'.queue[j].frame == g.queue[j].frame;
    forall j | 0 <= j < |g.queue|
      ensures |Holders(Without(h, l, f), g.queue[j].frame)|
              == |Holders(h, g.queue[j].frame)| - (if j == i then 1 else 0)
      ensures j != i ==> Holders(Without(h, l, f), g.queue[j].frame) == Holders(h, g.queue[j].frame)
    {
      HoldersWithout(h, l, f, g.queue[j].frame);
    }
  }

  lemma DropKeepsFences(g: Ledger, fence: Fence, luck: Luck, i: nat)
    requires FencesOk(g) && i < |g.queue|
    ensures FencesOk(g.(queue := g.queue[i := After(g, i, fence, luck)]))
  {
    RecordKeepsAccount(g.queue[i].fence, g.queue[i].reported, g.queue[i].lost, Some(fence), g.signalled, luck);
  }

  /** Other layers still hold f: only its own item changes. */
  lemma DropKeepsBooks(g: Ledger, h: Holdings, offered: set<nat>, open: set<nat>, l: nat, f: Frame, fence: Fence,
                       luck: Luck, i: nat)
    requires Books(g, h, offered, open) && l in h && f in h[l]
    requires i < |g.queue| && g.queue[i].frame == f && After(g, i, fence, luck).refs > 0
    ensures Books(g.(queue := g.queue[i := After(g, i, fence, luck)]), Without(h, l, f), offered, open)
  {
    var b := After(g, i, fence, luck);
    var g' := g.(queue := g.queue[i := b]);
    DropKeepsCounts(g, h, offered, open, l, f, b, i);
    StillHeldOk(g.queue, g'.queue, h, l, f);
    DropKeepsFences(g, fence, luck, i);
    SameIds(g, g');
  }

  lemma SameIds(g: Ledger, g': Ledger)
    requires ReturnsOk(g) && NoneLost(g)
    requires g'.returned == g.returned && g'.tunnel == g.tunnel && g'.next == g.next && |g'.queue| == |g.queue|
    requires forall j :: 0 <= j < |g.queue| ==> g'.queue[j].frame == g.queue[j].frame
    ensures ReturnsOk(g') && NoneLost(g')
  {
  }

  /** Where position j of the shortened queue was before. */
  function Old(i: nat, j: nat): nat {
    if j < i then j else j + 1
  }

  lemma RemovedQueue(g: Ledger, i: nat, b: Buffer, luck: Luck)
    requires QueueOk(g.queue, g.next) && i < |g.queue| && b.frame == g.queue[i].frame
    ensures var q := Removed(g, i, b, luck).queue;
            && |q| == |g.queue| - 1 && QueueOk(q, g.next)
            && (forall j :: 0 <= j < |q| ==> q[j] == g.queue[Old(i, j)] && q[j].frame.id != b.frame.id)
  {
    var q := Removed(g, i, b, luck).queue;
    assert forall j :: 0 <= j < |q| ==> q[j] == g.queue[Old(i, j)];
  }

  /** Where position k of the queue is once item i is gone. */
  function New(i: nat, k: nat): nat
    requires k != i
  {
    if k < i then k else k - 1
  }

  lemma RemovedKeeps(g: Ledger, i: nat, b: Buffer, luck: Luck, k: nat)
    requires i < |g.queue| && k < |g.queue| && k != i
    ensures var q := Removed(g, i, b, luck).queue; New(i, k) < |q| && q[New(i, k)] == g.queue[k]
  {
  }

  lemma RemovedLosesNone(g: Ledger, i: nat, b: Buffer, luck: Luck)
    requires NoneLost(g) && i < |g.queue| && b.frame == g.queue[i].frame
    ensures NoneLost(Removed(g, i, b, luck))
  {
    var g' := Removed(g, i, b, luck);
    forall id: nat | id < g.next
      ensures WasReturned(g'.returned, id) || exists j :: 0 <= j < |g'.queue| && g'.queue[j].frame.id == id
    {
      if WasReturned(g.returned, id) {
        var k :| 0 <= k < |g.returned| && g.returned[k].frame.id == id;
        assert g'.returned[k].frame.id == id;
      } else {
        var k :| 0 <= k < |g.queue| && g.queue[k].frame.id == id;
        if k == i {
          assert g'.returned[|g.returned|].frame.id == id;
        } else {
          RemovedKeeps(g, i, b, luck, k);
        }
      }
    }
  }

  lemma RemovedReturns(g: Ledger, i: nat, b: Buffer, luck: Luck)
    requires QueueOk(g.queue, g.next) && ReturnsOk(g)
    requires i < |g.queue| && b.frame == g.queue[i].frame
    ensures ReturnsOk(Removed(g, i, b, luck))
  {
    RemovedQueue(g, i, b, luck);
  }

  lemma RemovedFences(g: Ledger, fence: Fence, luck: Luck, i: nat)
    requires FencesOk(g) && i < |g.queue|
    ensures FencesOk(Removed(g, i, After(g, i, fence, luck), luck))
  {
    var b, g' := After(g, i, fence, luck), Removed(g, i, After(g, i, fence, luck), luck);
    RecordKeepsAccount(g.queue[i].fence, g.queue[i].reported, g.queue[i].lost, Some(fence), g.signalled, luck);
    DuplicatedKeepsAccount(b.fence, b.reported, b.lost, g.signalled, luck);
    assert forall j :: 0 <= j < |g'.queue| ==> g'.queue[j] == g.queue[Old(i, j)];
    assert forall j :: 0 <= j < |g.returned| ==> g'.returned[j] == g.returned[j];
  }

  lemma RemovedInQueue(g: Ledger, i: nat, b: Buffer, luck: Luck)
    requires QueueOk(g.queue, g.next) && i < |g.queue| && b.frame == g.queue[i].frame
    ensures forall x :: InQueue(Removed(g, i, b, luck).queue, x) <==> InQueue(g.queue, x) && x != b.frame
  {
    RemovedQueue(g, i, b, luck);
    var q := Removed(g, i, b, luck).queue;
    forall x | InQueue(q, x) ensures InQueue(g.queue, x) && x != b.frame {
      var j :| 0 <= j < |q| && q[j].frame == x;
      assert g.queue[Old(i, j)].frame == x;
    }
    forall x | InQueue(g.queue, x) && x != b.frame ensures InQueue(q, x) {
      var k :| 0 <= k < |g.queue| && g.queue[k].frame == x;
      RemovedKeeps(g, i, b, luck, k);
    }
  }

  /** Whatever is still held is still queued once f has gone back, as nobody else held it. */
  lemma RemovedHeldOk(g: Ledger, h: Holdings, l: nat, f: Frame, i: nat, b: Buffer, luck: Luck)
    requires QueueOk(g.queue, g.next) && HeldOk(g.queue, h) && i < |g.queue| && b.frame == f == g.queue[i].frame
    requires l in h && Holders(Without(h, l, f), f) == {}
    ensures HeldOk(Removed(g, i, b, luck).queue, Without(h, l, f))
  {
    RemovedInQueue(g, i, b, luck);
    var h' := Without(h, l, f);
    forall m, x | m in h' && x in h'[m] ensures InQueue(Removed(g, i, b, luck).queue, x) {
      assert m in Holders(h', x);
      assert InQueue(g.queue, x);
    }
  }

  /** f's last holder gives it back: it leaves the queue for the driver. */
  lemma ReturnKeepsBooks(g: Ledger, h: Holdings, offered: set<nat>, open: set<nat>, l: nat, f: Frame, fence: Fence,
                         luck: Luck, i: nat)
    requires Books(g, h, offered, open) && l in h && f in h[l]
    requires i < |g.queue| && g.queue[i].frame == f && After(g, i, fence, luck).refs == 0
    ensures Books(Removed(g, i, After(g, i, fence, luck), luck), Without(h, l, f), offered, open)
    ensures Holders(Without(h, l, f), f) == {}
  {
    var b := After(g, i, fence, luck);
    var g', h' := Removed(g, i, b, luck), Without(h, l, f);
    RemovedQueue(g, i, b, luck);
    RemovedReturns(g, i, b, luck);
    HoldersWithout(h, l, f, f);
    assert |Holders(h, f)| == 1;
    assert CountsOk(g', h', offered, open) by {
      forall j | 0 <= j < |g'.queue|
        ensures Holders(h', g'.queue[j].frame) == Holders(h, g.queue[Old(i, j)].frame)
      {
        HoldersWithout(h, l, f, g'.queue[j].frame);
      }
    }
    RemovedHeldOk(g, h, l, f, i, b, luck);
    RemovedLosesNone(g, i, b, luck);
    RemovedFences(g, fence, luck, i);
  }

  /** After f has come back from l: whether it is still queued. */
  ghost predicate Stays(h: Holdings, offered: set<nat>, l: nat, f: Frame) {
    Holders(h, f) != {l} || f.id in offered
  }

  /** When f comes back from l it leaves the queue unless it stays, and no other frame does. */
  ghost predicate Leaves(q: seq<Buffer>, q': seq<Buffer>, h: Holdings, offered: set<nat>, l: nat, f: Frame) {
    forall x :: InQueue(q', x) <==> InQueue(q, x) && (x != f || Stays(h, offered, l, f))
  }

  /**
   * Handing one held frame back keeps the books; it leaves the queue if l alone held it and no
   * offer of it is pending.
   */
  lemma GiveOneKeepsBooks(g: Ledger, h: Holdings, offered: set<nat>, open: set<nat>, l: nat, f: Frame, fence: Fence,
                          luck: Luck)
    requires Books(g, h, offered, open) && l in h && f in h[l]
    ensures Books(GiveOne(g, f, fence, luck), Without(h, l, f), offered, open)
    ensures Leaves(g.queue, GiveOne(g, f, fence, luck).queue, h, offered, l, f)
  {
    var i := GiveOneFinds(g, h, offered, open, l, f, fence, luck);
    var b := After(g, i, fence, luck);
    if b.refs == 0 {
      ReturnKeepsBooks(g, h, offered, open, l, f, fence, luck, i);
      SoleHolder(h, l, f);
      RemovedInQueue(g, i, b, luck);
    } else {
      DropKeepsBooks(g, h, offered, open, l, f, fence, luck, i);
      ChangedInQueue(g.queue, i, b);
    }
  }

  lemma SoleHolder(h: Holdings, l: nat, f: Frame)
    requires l in h && f in h[l]
    ensures |Holders(h, f)| == 1 <==> Holders(h, f) == {l}
    ensures |Holders(h, f)| >= 1
  {
    assert Holders(h, f) == (Holders(h, f) - {l}) + {l};
  }

  lemma ChangedInQueue(q: seq<Buffer>, i: nat, b: Buffer)
    requires i < |q| && b.frame == q[i].frame
    ensures forall x :: InQueue(q[i := b], x) <==> InQueue(q, x)
  {
    assert forall j :: 0 <= j < |q| ==> q[i := b][j].frame == q[j].frame;
    forall x | InQueue(q, x) ensures InQueue(q[i := b], x) {
      var j :| 0 <= j < |q| && q[j].frame == x;
      assert q[i := b][j].frame == x;
    }
    forall x | InQueue(q[i := b], x) ensures InQueue(q, x) {
      var j :| 0 <= j < |q| && q[i := b][j].frame == x;
      assert q[j].frame == x;
    }
  }

  function FramesIn(gives: seq<GiveBack>): set<Frame> {
    set i | 0 <= i < |gives| :: gives[i].frame
  }

  // ---- acquiring and offering ----

  /** The driver's next buffers: consecutive ids, and descriptors that are not open. */
  ghost predicate FreshFrames(g: Ledger, frames: seq<Frame>) {
    && (forall i :: 0 <= i < |frames| ==> frames[i].id == g.next + i)
    && (forall i, j :: 0 <= i < j < |frames| ==> frames[i].fd != frames[j].fd)
    && (forall i, j :: 0 <= i < |frames| && 0 <= j < |g.queue| ==> frames[i].fd != g.queue[j].frame.fd)
  }

  function Acquire(g: Ledger, frames: seq<Frame>): Ledger {
    g.(queue := g.queue + NewBuffers(frames, -1), next := g.next + |frames|)
  }

  lemma AcquiredIsUnheld(g: Ledger, h: Holdings, f: Frame)
    requires Books(g, h, {}, {}) && f.id >= g.next
    ensures Holders(h, f) == {}
  {
    forall l | l in h ensures f !in h[l] {
      assert f in h[l] ==> InQueue(g.queue, f);
    }
  }

  lemma AcquireLosesNone(g: Ledger, frames: seq<Frame>)
    requires QueueOk(g.queue, g.next) && NoneLost(g) && FreshFrames(g, frames)
    ensures NoneLost(Acquire(g, frames)) && QueueOk(Acquire(g, frames).queue, Acquire(g, frames).next)
  {
    var g' := Acquire(g, frames);
    forall id: nat | id < g'.next && !WasReturned(g'.returned, id)
      ensures exists j :: 0 <= j < |g'.queue| && g'.queue[j].frame.id == id
    {
      if id < g.next {
        var j :| 0 <= j < |g.queue| && g.queue[j].frame.id == id;
        assert g'.queue[j].frame.id == id;
      } else {
        assert g'.queue[|g.queue| + (id - g.next)].frame.id == id;
      }
    }
  }

  lemma AcquireKeepsHeld(g: Ledger, h: Holdings, frames: seq<Frame>)
    requires HeldOk(g.queue, h)
    ensures HeldOk(Acquire(g, frames).queue, h)
  {
    forall l, f | l in h && f in h[l] ensures InQueue(Acquire(g, frames).queue, f) {
      assert InQueue(g.queue, f);
      var j :| 0 <= j < |g.queue| && g.queue[j].frame == f;
      assert Acquire(g, frames).queue[j].frame == f;
    }
  }

  lemma AcquireKeepsCounts(g: Ledger, h: Holdings, frames: seq<Frame>)
    requires Books(g, h, {}, {}) && FreshFrames(g, frames)
    ensures CountsOk(Acquire(g, frames), h, {}, {})
  {
    forall i | 0 <= i < |frames| ensures Holders(h, frames[i]) == {} {
      AcquiredIsUnheld(g, h, frames[i]);
    }
  }

  lemma AcquireKeepsBooks(g: Ledger, h: Holdings, frames: seq<Frame>)
    requires Books(g, h, {}, {}) && FreshFrames(g, frames)
    ensures Books(Acquire(g, frames), h, {}, {})
    ensures forall i :: 0 <= i < |frames| ==> InQueue(Acquire(g, frames).queue, frames[i])
  {
    var g' := Acquire(g, frames);
    AcquireLosesNone(g, frames);
    assert forall i :: 0 <= i < |frames| ==> g'.queue[|g.queue| + i].frame == frames[i];
    AcquireKeepsCounts(g, h, frames);
    AcquireKeepsHeld(g, h, frames);
  }

  /** `refHandle`, or `unrefHandle` with its answer ignored, on the items with these ids. */
  function Reffed(q: seq<Buffer>, ids: set<nat>, up: bool): seq<Buffer> {
    seq(|q|, i requires 0 <= i < |q| =>
      if q[i].frame.id in ids then q[i].(refs := if up then RefHandle(q[i].refs) else q[i].refs - 1) else q[i])
  }

  lemma ReffedInQueue(q: seq<Buffer>, ids: set<nat>, up: bool)
    ensures forall x :: InQueue(q, x) <==> InQueue(Reffed(q, ids, up), x)
  {
    forall x | InQueue(q, x) ensures InQueue(Reffed(q, ids, up), x) {
      var i :| 0 <= i < |q| && q[i].frame == x;
      assert Reffed(q, ids, up)[i].frame == x;
    }
    forall x | InQueue(Reffed(q, ids, up), x) ensures InQueue(q, x) {
      var i :| 0 <= i < |q| && Reffed(q, ids, up)[i].frame == x;
      assert q[i].frame == x;
    }
  }

  /** Counting an offer up before it is made, or down after it was refused; of any items on offer. */
  lemma RefKeepsBooks(g: Ledger, h: Holdings, offered: set<nat>, open: set<nat>, ids: set<nat>, up: bool)
    requires Books(g, h, offered, open) && ids <= open && (if up then ids !! offered else ids <= offered)
    ensures Books(g.(queue := Reffed(g.queue, ids, up)), h, if up then offered + ids else offered - ids, open)
  {
    var g' := g.(queue := Reffed(g.queue, ids, up));
    ReffedInQueue(g.queue, ids, up);
    SameIds(g, g');
    assert CountsOk(g', h, if up then offered + ids else offered - ids, open);
    assert FencesOk(g');
  }

  /** An accepted buffer that nobody holds. */
  ghost predicate Bare(g: Ledger, h: Holdings, i: nat)
    requires i < |g.queue|
  {
    g.queue[i].frame.id in g.accepted && Holders(h, g.queue[i].frame) == {}
  }

  ghost predicate AnyBare(g: Ledger, h: Holdings) {
    exists i :: 0 <= i < |g.queue| && Bare(g, h, i)
  }

  /** A delivery can be closed exactly when it leaves no accepted buffer without a holder. */
  lemma CloseKeepsBooksIff(g: Ledger, h: Holdings, open: set<nat>)
    requires Books(g, h, {}, open)
    ensures Books(g, h, {}, {}) <==> !AnyBare(g, h)
  {
    if Books(g, h, {}, {}) {
      forall i | 0 <= i < |g.queue| ensures !Bare(g, h, i) {}
    }
    if !AnyBare(g, h) {
      forall i | 0 <= i < |g.queue| ensures g.queue[i].frame.id in g.accepted ==> Holders(h, g.queue[i].frame) != {} {
        assert !Bare(g, h, i);
      }
    }
  }

  lemma HoldersWith(h: Holdings, c: nat, items: set<Frame>, f: Frame)
    requires c in h && items !! h[c]
    ensures |Holders(h[c := h[c] + items], f)| == |Holders(h, f)| + (if f in items then 1 else 0)
  {
    var h' := h[c := h[c] + items];
    assert Holders(h', f) == Holders(h, f) + (if f in items then {c} else {});
  }

  /** An offer taken: the counted references now belong to layer c. */
  lemma AcceptKeepsBooks(g: Ledger, h: Holdings, ids: set<nat>, c: nat, items: set<Frame>)
    requires Books(g, h, ids, ids) && c in h && items !! h[c]
    requires forall f :: f in items ==> InQueue(g.queue, f) && f.id in ids
    requires forall i :: 0 <= i < |g.queue| && g.queue[i].frame.id in ids ==> g.queue[i].frame in items
    ensures Books(g.(accepted := g.accepted + IdsOf(items)), h[c := h[c] + items], {}, {})
  {
    var g', h' := g.(accepted := g.accepted + IdsOf(items)), h[c := h[c] + items];
    assert IdsOf(items) <= ids;
    forall i | 0 <= i < |g.queue|
      ensures |Holders(h', g.queue[i].frame)| == |Holders(h, g.queue[i].frame)|
              + (if g.queue[i].frame.id in ids then 1 else 0)
    {
      HoldersWith(h, c, items, g.queue[i].frame);
    }
    assert CountsOk(g', h', {}, {});
    forall id | id in IdsOf(items) ensures id < g.next {
      var x :| x in items && x.id == id;
      assert InQueue(g.queue, x);
    }
  }

  function IdsOf(items: set<Frame>): set<nat> {
    set f | f in items :: f.id
  }

  /** More fence points signal. */
  lemma SignalKeepsBooks(g: Ledger, h: Holdings, offered: set<nat>, open: set<nat>, points: set<nat>)
    requires Books(g, h, offered, open)
    ensures Books(g.(signalled := g.signalled + points), h, offered, open)
  {
  }

  /**
   * What the books say about one buffer: it has not been acquired, or it is queued and
   * nobody has been told it is free, or it has gone back once and no layer holds it.
   */
  lemma OneFate(g: Ledger, h: Holdings, offered: set<nat>, open: set<nat>, id: nat)
    requires Books(g, h, offered, open) && id < g.next
    ensures WasReturned(g.returned, id) <==> !exists i :: 0 <= i < |g.queue| && g.queue[i].frame.id == id
    ensures forall i, j :: 0 <= i < j < |g.returned| ==> !(g.returned[i].frame.id == id && g.returned[j].frame.id == id)
    ensures WasReturned(g.returned, id) ==> forall l, f :: l in h && f in h[l] ==> f.id != id
  {
    if WasReturned(g.returned, id) {
      forall l, f | l in h && f in h[l] ensures f.id != id {
        assert InQueue(g.queue, f);
      }
    }
  }
}
