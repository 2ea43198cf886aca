/** Which frames `updateVtBuffer` drops (hwc2/Hwc2Layer.cpp). */
module LateFrames {
  import opened VideoTunnelTypes
  import opened LayerSpec

  /** An expired frame with a newer expired frame behind it. */
  ghost predicate Superseded(l: Layer, q: seq<Frame>, i: int)
    requires 0 <= i < |q|
  {
    Expired(l, q[i]) && exists j :: i < j < |q| && Expired(l, q[j])
  }

  /** If exactly the first n frames are expired, n are counted. */
  lemma {:induction false} CountPrefix(l: Layer, q: seq<Frame>, n: nat)
    requires n <= |q|
    requires forall i :: 0 <= i < |q| ==> (Expired(l, q[i]) <==> i < n)
    ensures ExpiredCount(l, q) == n
  {
    if q != [] {
      var front := q[..|q| - 1];
      CountPrefix(l, front, if n == |q| then n - 1 else n);
    }
  }

  /** Frames that are not expired add nothing to the count. */
  lemma {:induction false} CountIgnoresTail(l: Layer, q: seq<Frame>, m: nat)
    requires m < |q| && Expired(l, q[m])
    requires forall i :: m < i < |q| ==> !Expired(l, q[i])
    ensures ExpiredCount(l, q) == ExpiredCount(l, q[..m]) + 1
  {
    var front := q[..|q| - 1];
    if m == |q| - 1 {
      assert front == q[..m];
    } else {
      CountIgnoresTail(l, front, m);
      assert front[..m] == q[..m];
    }
  }

  /** Either no frame is expired or there is a newest expired one. */
  lemma {:induction false} NewestExpired(l: Layer, q: seq<Frame>) returns (m: int)
    ensures m == -1 ==> ExpiredCount(l, q) == 0 && forall i :: 0 <= i < |q| ==> !Expired(l, q[i])
    ensures m != -1 ==> 0 <= m < |q| && Expired(l, q[m]) && forall i :: m < i < |q| ==> !Expired(l, q[i])
  {
    if q == [] {
      m := -1;
    } else if Expired(l, q[|q| - 1]) {
      m := |q| - 1;
    } else {
      m := NewestExpired(l, q[..|q| - 1]);
    }
  }

  /**
   * Whatever the timestamps are, an update keeps the newest frame, so it never empties
   * the queue, and it drops from the old end only.
   */
  lemma UpdateKeepsNewest(l: Layer)
    requires l.link.isVt && l.queue != []
    ensures var q := Update(l).layer.queue;
            && 0 < |q| <= |l.queue| && q[|q| - 1] == l.queue[|l.queue| - 1]
            && q == l.queue[|l.queue| - |q|..] && Update(l).layer.cur == Some(q[0])
  {
    ExpiredCountBound(l, l.queue);
  }

  /**
   * An update drops exactly the superseded frames if and only if no frame that is still
   * good is queued ahead of a superseded one.
   */
  lemma DropsExactlySupersededIff(l: Layer)
    requires l.link.isVt
    ensures (forall i :: 0 <= i < |l.queue| ==> (i < DropCount(l) <==> Superseded(l, l.queue, i)))
       <==> (forall i, j :: 0 <= i < j < |l.queue| && Superseded(l, l.queue, j) ==> Expired(l, l.queue[i]))
  {
    var q := l.queue;
    if forall i :: 0 <= i < |q| ==> (i < DropCount(l) <==> Superseded(l, q, i)) {
      forall i, j | 0 <= i < j < |q| && Superseded(l, q, j) ensures Expired(l, q[i]) {
        assert j < DropCount(l);
        assert Superseded(l, q, i);
      }
    }
    if forall i, j :: 0 <= i < j < |q| && Superseded(l, q, j) ==> Expired(l, q[i]) {
      SupersededArePrefix(l);
    }
  }

  lemma SupersededArePrefix(l: Layer)
    requires forall i, j :: 0 <= i < j < |l.queue| && Superseded(l, l.queue, j) ==> Expired(l, l.queue[i])
    ensures forall i :: 0 <= i < |l.queue| ==> (i < DropCount(l) <==> Superseded(l, l.queue, i))
  {
    var q := l.queue;
    var m := NewestExpired(l, q);
    if m == -1 {
      forall i | 0 <= i < |q| ensures !Superseded(l, q, i) {}
    } else {
      var n := PrefixLength(l, q, m);
      assert forall i :: 0 <= i < m ==> q[..m][i] == q[i];
      CountPrefix(l, q[..m], n);
      CountIgnoresTail(l, q, m);
      assert DropCount(l) == n;
      forall i | 0 <= i < |q| ensures i < n <==> Superseded(l, q, i) {
        if i < n { assert Expired(l, q[m]); }
      }
    }
  }

  /** Ahead of the newest expired frame m, the expired frames are the first n. */
  lemma PrefixLength(l: Layer, q: seq<Frame>, m: nat) returns (n: nat)
    requires m < |q| && Expired(l, q[m])
    requires forall i, j :: 0 <= i < j < |q| && Superseded(l, q, j) ==> Expired(l, q[i])
    ensures n <= m && forall i :: 0 <= i < m ==> (Expired(l, q[i]) <==> i < n)
  {
    n := 0;
    while n < m && Expired(l, q[n])
      invariant n <= m && forall i :: 0 <= i < n ==> Expired(l, q[i])
    {
      n := n + 1;
    }
    forall i | n <= i < m ensures !Expired(l, q[i]) {
      if Expired(l, q[i]) {
        assert Superseded(l, q, i);
      }
    }
  }

  /** A due frame is queued behind position i. */
  ghost predicate DueBehind(l: Layer, i: int) {
    exists j :: 0 <= j < |l.queue| && i < j && l.queue[j].ts < l.clock.expected
  }

  /**
   * The intended policy. Outside game mode, with positive, non-decreasing timestamps all
   * less than a second ahead, the frames dropped are the due ones except the newest due
   * one, and when any frame is due the new head is that one.
   */
  lemma LateFramePolicy(l: Layer)
    requires l.link.isVt && !l.clock.gameMode && l.queue != []
    requires forall i :: 0 <= i < |l.queue| ==> 0 < l.queue[i].ts < l.clock.expected + PLAUSIBLE_US
    requires forall i, j :: 0 <= i < j < |l.queue| ==> l.queue[i].ts <= l.queue[j].ts
    ensures forall i :: 0 <= i < |l.queue| ==> (i < DropCount(l) <==> DueBehind(l, i))
    ensures DropCount(l) < |l.queue| && Update(l).layer.cur == Some(l.queue[DropCount(l)])
    ensures DueBehind(l, -1) ==> l.queue[DropCount(l)].ts < l.clock.expected && !DueBehind(l, DropCount(l))
  {
    SupersededIsDueBehind(l);
    SupersededArePrefix(l);
    ExpiredCountBound(l, l.queue);
    if DueBehind(l, -1) {
      NewestDue(l, DropCount(l));
    }
  }

  /**
   * With plausible ordered timestamps, a frame is superseded when a due one is queued behind it,
   * and these come first.
   */
  lemma SupersededIsDueBehind(l: Layer)
    requires l.link.isVt && !l.clock.gameMode
    requires forall i :: 0 <= i < |l.queue| ==> 0 < l.queue[i].ts < l.clock.expected + PLAUSIBLE_US
    requires forall i, j :: 0 <= i < j < |l.queue| ==> l.queue[i].ts <= l.queue[j].ts
    ensures forall i :: 0 <= i < |l.queue| ==> (Superseded(l, l.queue, i) <==> DueBehind(l, i))
    ensures forall i, j :: 0 <= i < j < |l.queue| && Superseded(l, l.queue, j) ==> Expired(l, l.queue[i])
  {
  }

  lemma NewestDue(l: Layer, d: nat)
    requires d < |l.queue| && DueBehind(l, -1)
    requires forall i :: 0 <= i < |l.queue| ==> (i < d <==> DueBehind(l, i))
    ensures l.queue[d].ts < l.clock.expected && !DueBehind(l, d)
  {
    var k :| 0 <= k < |l.queue| && l.queue[k].ts < l.clock.expected;
    assert !DueBehind(l, d);
    if k < d { assert DueBehind(l, d - 1); }
  }

  /** In game mode nothing is dropped: every frame is shown. */
  lemma {:induction false} GameModeDropsNothing(l: Layer, q: seq<Frame>)
    requires l.clock.gameMode
    ensures ExpiredCount(l, q) == 0
  {
    if q != [] { GameModeDropsNothing(l, q[..|q| - 1]); }
  }
}
