/**
 * The ring of frames waiting for the AI colour thread
 * (postprocessor/nnprocess/AiColorProcessor.cpp). The display thread duplicates a frame's
 * descriptor into the next slot and queues the slot's index; the AI thread takes indices
 * from the front. The steps below are the pieces between which the two threads interleave.
 */
module AiColorRing {

  const MAX_CACHE := 5

  datatype Ring = Ring(queue: seq<int>, slots: seq<int>, cacheIndex: int, dupCount: int, closeCount: int)

  /** Where the display thread is inside `asyncProcess`. */
  datatype Producer = Out | Duped(fd: int) | Wrote(fd: int) | Pushed | Spinning

  /** Where the AI thread is inside `threadProcess`. */
  datatype Consumer = Waiting | Fronted(index: int) | Holding(index: int, fd: int) | Popped(fd: int)

  /** `duped` and `closed` are histories; `lost` counts failed duplicates that a teardown passed over. */
  datatype Sys = Sys(ring: Ring, producer: Producer, consumer: Consumer, running: bool,
                     duped: seq<int>, closed: seq<int>, lost: nat)

  datatype Step = Dup(fd: int) | Write | Push | Advance | SpinEnd
                | Front | Read | Pop | Close | Teardown(ok: nat -> bool) | Setup

  /** The slots whose index is queued, oldest first. */
  function Live(r: Ring): (fds: seq<int>)
    requires SlotsOk(r)
    ensures |fds| == |r.queue|
  {
    seq(|r.queue|, k requires 0 <= k < |r.queue| => r.slots[r.queue[k]])
  }

  predicate SlotsOk(r: Ring) {
    && |r.slots| == MAX_CACHE && 0 <= r.cacheIndex < MAX_CACHE
    && forall k :: 0 <= k < |r.queue| ==> 0 <= r.queue[k] < MAX_CACHE
  }

  function Next(index: int): int {
    if index + 1 == MAX_CACHE then 0 else index + 1
  }

  /** How many of n queued buffers a teardown gets through before the driver refuses one. */
  function DrainCount(n: nat, ok: nat -> bool): (k: nat)
    ensures k <= n && ((forall i :: 0 < i <= n ==> ok(i)) ==> k == n)
  {
    if n == 0 || !ok(n) then 0 else 1 + DrainCount(n - 1, ok)
  }

  /** Duplicates that failed. */
  function Failed(fds: seq<int>): (n: nat)
    ensures n <= |fds| && (n == 0 <==> -1 !in fds)
  {
    if fds == [] then 0 else Failed(fds[..|fds| - 1]) + if fds[|fds| - 1] == -1 then 1 else 0
  }

  function Drained(r: Ring, ok: nat -> bool): seq<int>
    requires SlotsOk(r)
  {
    Live(r)[..DrainCount(|r.queue|, ok)]
  }

  /** `teardown`: descriptors of -1 are not closed and not counted. */
  function Drain(r: Ring, ok: nat -> bool): Ring
    requires SlotsOk(r)
  {
    var k := DrainCount(|r.queue|, ok);
    r.(queue := r.queue[k..], closeCount := r.closeCount + k - Failed(Drained(r, ok)))
  }

  predicate Enabled(s: Sys, step: Step) {
    match step
    case Dup(_) => s.producer.Out? && s.running
    case Write => s.producer.Duped?
    case Push => s.producer.Wrote?
    case Advance => s.producer.Pushed?
    case SpinEnd => s.producer.Spinning? && |s.ring.queue| < MAX_CACHE
    case Front => s.consumer.Waiting? && s.running && |s.ring.queue| > 0
    case Read => s.consumer.Fronted?
    case Pop => s.consumer.Holding?
    case Close => s.consumer.Popped?
    case Teardown(_) => s.producer.Out? && s.consumer.Waiting?
    case Setup => !s.running
  }

  function DoDup(r: Ring): Ring {
    r.(dupCount := r.dupCount + 1)
  }

  function DoWrite(r: Ring, fd: int): Ring
    requires SlotsOk(r)
  {
    r.(slots := r.slots[r.cacheIndex := fd])
  }

  function DoPush(r: Ring): Ring {
    r.(queue := r.queue + [r.cacheIndex])
  }

  function DoAdvance(r: Ring): Ring {
    r.(cacheIndex := Next(r.cacheIndex))
  }

  function DoPop(r: Ring): Ring
    requires |r.queue| > 0
  {
    r.(queue := r.queue[1..])
  }

  function DoClose(r: Ring): Ring {
    r.(closeCount := r.closeCount + 1)
  }

  /** The system keeps what makes each step meaningful. */
  predicate Steppable(s: Sys) {
    SlotsOk(s.ring) && (s.consumer.Fronted? || s.consumer.Holding? ==>
                        s.ring.queue != [] && 0 <= s.consumer.index < MAX_CACHE)
  }

  function Take(s: Sys, step: Step): Sys
    requires Steppable(s) && Enabled(s, step)
  {
    match step
    case Dup(fd) => s.(ring := DoDup(s.ring), producer := Duped(fd), duped := s.duped + [fd])
    case Write => s.(ring := DoWrite(s.ring, s.producer.fd), producer := Wrote(s.producer.fd))
    case Push => s.(ring := DoPush(s.ring), producer := Pushed)
    case Advance => s.(ring := DoAdvance(s.ring), producer := Spinning)
    case SpinEnd => s.(producer := Out)
    case Front => s.(consumer := Fronted(s.ring.queue[0]))
    case Read => s.(consumer := Holding(s.consumer.index, s.ring.slots[s.consumer.index]))
    case Pop => s.(ring := DoPop(s.ring), consumer := Popped(s.consumer.fd))
    case Close => s.(ring := DoClose(s.ring), consumer := Waiting, closed := s.closed + [s.consumer.fd])
    case Teardown(ok) =>
      var gone := Drained(s.ring, ok);
      s.(ring := Drain(s.ring, ok), running := false, closed := s.closed + gone, lost := s.lost + Failed(gone))
    case Setup => s.(running := true)
  }

  // ---- the invariant ----

  /** The index that the next queued slot will have. */
  function End(s: Sys): int {
    if s.producer.Pushed? then Next(s.ring.cacheIndex) else s.ring.cacheIndex
  }

  function Room(p: Producer): nat {
    if p.Pushed? || p.Spinning? then MAX_CACHE else MAX_CACHE - 1
  }

  /** Queue position k of n holds the index n - k places before `end` around the ring. */
  ghost predicate Consecutive(queue: seq<int>, end: int) {
    forall k :: 0 <= k < |queue| ==> queue[k] == (end + k - |queue|) % MAX_CACHE
  }

  function BeingClosed(c: Consumer): seq<int> {
    if c.Popped? then [c.fd] else []
  }

  function BeingQueued(p: Producer): seq<int> {
    if p.Duped? || p.Wrote? then [p.fd] else []
  }

  ghost predicate Inv(s: Sys) {
    && Steppable(s)
    && |s.ring.queue| <= Room(s.producer)
    && Consecutive(s.ring.queue, End(s))
    && (s.producer.Wrote? ==> s.ring.slots[s.ring.cacheIndex] == s.producer.fd)
    && (s.consumer.Fronted? || s.consumer.Holding? ==> s.consumer.index == s.ring.queue[0])
    && (s.consumer.Holding? ==> s.consumer.fd == s.ring.slots[s.consumer.index])
    && s.duped == s.closed + BeingClosed(s.consumer) + Live(s.ring) + BeingQueued(s.producer)
    && s.ring.dupCount == |s.duped| && s.ring.closeCount + s.lost == |s.closed|
  }

  /** The display thread never writes a slot that the AI thread may still read, in any interleaving. */
  lemma NeverOverwritesLive(s: Sys)
    requires Inv(s) && Enabled(s, Write)
    ensures s.ring.cacheIndex !in s.ring.queue
    ensures Live(Take(s, Write).ring) == Live(s.ring)
  {
  }

  lemma WriteKeepsInv(s: Sys)
    requires Inv(s) && Enabled(s, Write)
    ensures Inv(Take(s, Write))
  {
    NeverOverwritesLive(s);
    var t := Take(s, Write);
    if t.consumer.Holding? {
      assert s.ring.queue[0] in s.ring.queue;
    }
  }

  lemma ConsecutiveDrop(queue: seq<int>, end: int, n: nat)
    requires Consecutive(queue, end) && n <= |queue|
    ensures Consecutive(queue[n..], end)
  {
  }

  lemma ConsecutivePush(queue: seq<int>, end: int)
    requires Consecutive(queue, end) && 0 <= end < MAX_CACHE
    ensures Consecutive(queue + [end], Next(end))
  {
  }

  lemma LiveDrop(r: Ring, n: nat)
    requires SlotsOk(r) && n <= |r.queue|
    ensures SlotsOk(r.(queue := r.queue[n..])) && Live(r.(queue := r.queue[n..])) == Live(r)[n..]
    ensures Live(r) == Live(r)[..n] + Live(r)[n..]
  {
  }

  lemma PushKeepsInv(s: Sys)
    requires Inv(s) && Enabled(s, Push)
    ensures Inv(Take(s, Push))
  {
    ConsecutivePush(s.ring.queue, s.ring.cacheIndex);
    assert Live(Take(s, Push).ring) == Live(s.ring) + [s.producer.fd];
  }

  lemma AdvanceKeepsInv(s: Sys, step: Step)
    requires Inv(s) && Enabled(s, step) && (step.Advance? || step.SpinEnd? || step.Front? || step.Read? || step.Setup?)
    ensures Inv(Take(s, step))
  {
  }

  lemma DupKeepsInv(s: Sys, fd: int)
    requires Inv(s) && Enabled(s, Dup(fd))
    ensures Inv(Take(s, Dup(fd)))
  {
  }

  lemma PopHistory(closed: seq<int>, fd: int, live: seq<int>, queued: seq<int>)
    ensures closed + [] + ([fd] + live) + queued == closed + [fd] + live + queued
  {
  }

  lemma PopKeepsInv(s: Sys)
    requires Inv(s) && Enabled(s, Pop)
    ensures Inv(Take(s, Pop))
  {
    var t := Take(s, Pop);
    ConsecutiveDrop(s.ring.queue, End(s), 1);
    LiveDrop(s.ring, 1);
    assert t.ring == s.ring.(queue := s.ring.queue[1..]);
    assert Live(s.ring) == [s.consumer.fd] + Live(t.ring);
    PopHistory(s.closed, s.consumer.fd, Live(t.ring), BeingQueued(s.producer));
  }

  lemma CloseKeepsInv(s: Sys)
    requires Inv(s) && Enabled(s, Close)
    ensures Inv(Take(s, Close))
  {
  }

  /** A teardown closes the oldest of the live duplicates. */
  lemma TeardownKeepsHistory(s: Sys, ok: nat -> bool)
    requires Inv(s) && Enabled(s, Teardown(ok))
    ensures var t := Take(s, Teardown(ok));
            && SlotsOk(t.ring) && t.duped == t.closed + Live(t.ring)
            && t.ring.dupCount == |t.duped| && t.ring.closeCount + t.lost == |t.closed|
  {
    hide Consecutive, Failed, DrainCount;
    var k := DrainCount(|s.ring.queue|, ok);
    LiveDrop(s.ring, k);
    var live := Live(s.ring);
    assert s.duped == s.closed + live;
    assert s.closed + live == (s.closed + live[..k]) + live[k..];
    assert Live(Take(s, Teardown(ok)).ring) == live[k..];
  }

  lemma TeardownKeepsInv(s: Sys, ok: nat -> bool)
    requires Inv(s) && Enabled(s, Teardown(ok))
    ensures Inv(Take(s, Teardown(ok)))
  {
    hide Consecutive, Failed, DrainCount;
    TeardownKeepsHistory(s, ok);
    hide Live;
    var k, t := DrainCount(|s.ring.queue|, ok), Take(s, Teardown(ok));
    ConsecutiveDrop(s.ring.queue, End(s), k);
    assert t.closed + [] + Live(t.ring) + [] == t.closed + Live(t.ring);
  }

  lemma StepKeepsInv(s: Sys, step: Step)
    requires Inv(s) && Enabled(s, step)
    ensures Inv(Take(s, step))
  {
    hide Inv;
    match step
    case Dup(fd) => DupKeepsInv(s, fd);
    case Write => WriteKeepsInv(s);
    case Push => PushKeepsInv(s);
    case Pop => PopKeepsInv(s);
    case Close => CloseKeepsInv(s);
    case Teardown(ok) => TeardownKeepsInv(s, ok);
    case _ => AdvanceKeepsInv(s, step);
  }

  // ---- whole lives ----

  ghost predicate Took(s: Sys, step: Step, t: Sys) {
    Steppable(s) && Enabled(s, step) && t == Take(s, step)
  }

  /** Any interleaving of the two threads, with teardowns and setups in between. */
  ghost predicate IsRun(states: seq<Sys>, steps: seq<Step>) {
    |states| == |steps| + 1 && forall k :: 0 <= k < |steps| ==> Took(states[k], steps[k], states[k + 1])
  }

  function Fresh(slots: seq<int>): Sys {
    Sys(Ring([], slots, 0, 0, 0), Out, Waiting, false, [], [], 0)
  }

  lemma {:induction false} EveryRun(states: seq<Sys>, steps: seq<Step>)
    requires IsRun(states, steps) && |states[0].ring.slots| == MAX_CACHE && states[0] == Fresh(states[0].ring.slots)
    ensures Inv(states[|steps|])
  {
    if steps != [] {
      var n := |steps| - 1;
      assert IsRun(states[..n + 1], steps[..n]) by {
        forall k | 0 <= k < n ensures Took(states[..n + 1][k], steps[..n][k], states[..n + 1][k + 1]) {
          assert Took(states[k], steps[k], states[k + 1]);
        }
      }
      EveryRun(states[..n + 1], steps[..n]);
      assert Took(states[n], steps[n], states[n + 1]);
      StepKeepsInv(states[n], steps[n]);
    }
  }

  /**
   * The ring is a queue: duplicates are closed in the order in which they were made, each
   * once, and at any moment the two counters differ by what is queued or in a thread's hands.
   */
  lemma ClosedInOrder(s: Sys)
    requires Inv(s)
    ensures s.closed <= s.duped
    ensures s.ring.dupCount - s.ring.closeCount
            == |s.ring.queue| + |BeingQueued(s.producer)| + |BeingClosed(s.consumer)| + s.lost
    ensures s.producer.Out? && s.consumer.Waiting? ==> s.ring.dupCount - s.ring.closeCount == |s.ring.queue| + s.lost
  {
  }

  /**
   * After a teardown the counters agree exactly when the driver refused none of the queued
   * buffers and none of them, then or at an earlier teardown, was a failed duplicate.
   */
  lemma CountersAgreeIff(s: Sys, ok: nat -> bool)
    requires Inv(s) && Enabled(s, Teardown(ok))
    ensures var t := Take(s, Teardown(ok));
            t.ring.dupCount == t.ring.closeCount
            <==> DrainCount(|s.ring.queue|, ok) == |s.ring.queue| && -1 !in Live(s.ring) && s.lost == 0
  {
  }
}
