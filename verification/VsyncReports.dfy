/**
 * What the observer of a vsync source is told (common/hwc/HwcVsync.cpp), over whole runs
 * of passes and calls that may change the mode, the period and the controller at any time.
 */
module VsyncReports {
  import opened VsyncSpec
  import opened VsyncRuns

  /** The source when event k comes. */
  function At(v: Vsync, tunnel: bool, events: seq<Event>, k: nat): Vsync
    requires k <= |events|
  {
    RunFrom(v, tunnel, events[..k])
  }

  /** What the observer is told by event k, a pass. */
  function Told(v: Vsync, tunnel: bool, events: seq<Event>, k: nat): Report
    requires k < |events| && events[k].Turn?
  {
    Pass(At(v, tunnel, events, k), tunnel, events[k].now, events[k].vblank, events[k].during).1
  }

  /** Event k is a pass that waits by software. */
  predicate SoftTurn(v: Vsync, tunnel: bool, events: seq<Event>, k: nat)
    requires k < |events|
  {
    events[k].Turn? && !At(v, tunnel, events, k).mix
  }

  /** The period asked for when event k comes. */
  function PeriodAt(v: Vsync, tunnel: bool, events: seq<Event>, k: nat): int
    requires k <= |events|
  {
    Period(At(v, tunnel, events, k).reqPeriod)
  }

  /** A software wait sleeps until its tick, so the next one does not begin before. */
  ghost predicate Sleeps(v: Vsync, tunnel: bool, events: seq<Event>) {
    forall k :: 0 <= k < |events| && SoftTurn(v, tunnel, events, k) ==>
      At(v, tunnel, events, k).softTime <= events[k].now
  }

  lemma AtNext(v: Vsync, tunnel: bool, events: seq<Event>, k: nat)
    requires k < |events|
    ensures At(v, tunnel, events, k + 1) == After(At(v, tunnel, events, k), tunnel, events[k])
  {
    assert events[..k + 1][..k] == events[..k];
  }

  /** The calls made during a pass take its times as they are, in each of its branches. */
  lemma PassCalls(v: Vsync, tunnel: bool, e: Event)
    requires e.Turn?
    ensures var w := After(v, tunnel, e);
            && w.softTime == (if v.mix then v.softTime else SoftTick(v, e.now).softTime)
            && w.softPeriod == (if v.mix then v.softPeriod else Period(v.reqPeriod))
            && w.reqPeriod == LastPeriod(Period(v.reqPeriod), e.during)
  {
    var u := v.(reqPeriod := Period(v.reqPeriod));
    if !v.mix {
      CallsKeepTimes(SoftTick(v, e.now), tunnel, e.during);
    } else if NeedsRebase(v) {
      CallsKeepTimes(u, tunnel, e.during);
    } else {
      CallsKeepTimes(u.(vsyncTime := MixNext(u.vsyncTime, u.curPeriod, e.now)), tunnel, e.during);
    }
  }

  /** A software pass reports its tick; every other event leaves the software tick alone. */
  lemma SoftEvent(v: Vsync, tunnel: bool, e: Event)
    ensures var w := After(v, tunnel, e);
            if e.Turn? && !v.mix
            then && w.softTime == SoftTick(v, e.now).softTime && w.softPeriod == Period(v.reqPeriod)
                 && Pass(v, tunnel, e.now, e.vblank, e.during).1.timestamp == w.softTime
                 && Pass(v, tunnel, e.now, e.vblank, e.during).1.ret == 0
            else w.softTime == v.softTime && w.softPeriod == v.softPeriod
  {
    if e.Turn? {
      PassCalls(v, tunnel, e);
    }
  }

  /** The software tick never goes back. */
  lemma {:induction false} TickMoves(v: Vsync, tunnel: bool, events: seq<Event>, j: nat, k: nat)
    requires Sleeps(v, tunnel, events) && v.softPeriod >= 0 && j <= k <= |events|
    ensures At(v, tunnel, events, k).softPeriod >= 0
    ensures At(v, tunnel, events, j).softTime <= At(v, tunnel, events, k).softTime
    decreases k
  {
    if j < k {
      TickMoves(v, tunnel, events, j, k - 1);
      AtNext(v, tunnel, events, k - 1);
      SoftEvent(At(v, tunnel, events, k - 1), tunnel, events[k - 1]);
      if SoftTurn(v, tunnel, events, k - 1) {
        SoftTickFacts(At(v, tunnel, events, k - 1), events[k - 1].now);
      }
    } else if k > 0 {
      TickMoves(v, tunnel, events, k - 1, k - 1);
      AtNext(v, tunnel, events, k - 1);
      SoftEvent(At(v, tunnel, events, k - 1), tunnel, events[k - 1]);
    }
  }

  /**
   * Every timestamp reported by a software wait lies between the moment the pass began and
   * one requested period after it, and is later than every one a software wait reported
   * before, whatever was asked for in between.
   */
  lemma SoftReportsAreTimely(v: Vsync, tunnel: bool, events: seq<Event>, k: nat)
    requires Sleeps(v, tunnel, events) && v.softPeriod >= 0 && k < |events| && SoftTurn(v, tunnel, events, k)
    ensures var r, now := Told(v, tunnel, events, k), events[k].now;
            && r.ret == 0 && now <= r.timestamp <= now + PeriodAt(v, tunnel, events, k)
            && forall j :: 0 <= j < k && SoftTurn(v, tunnel, events, j) ==>
                 Told(v, tunnel, events, j).timestamp < r.timestamp
  {
    TickMoves(v, tunnel, events, k, k);
    SoftEvent(At(v, tunnel, events, k), tunnel, events[k]);
    SoftTickFacts(At(v, tunnel, events, k), events[k].now);
    forall j | 0 <= j < k && SoftTurn(v, tunnel, events, j)
      ensures Told(v, tunnel, events, j).timestamp < Told(v, tunnel, events, k).timestamp
    {
      AtNext(v, tunnel, events, j);
      SoftEvent(At(v, tunnel, events, j), tunnel, events[j]);
      TickMoves(v, tunnel, events, j + 1, k);
    }
  }

  /** Every software wait from event j to event k finds the same period requested. */
  ghost predicate SamePeriod(v: Vsync, tunnel: bool, events: seq<Event>, j: nat, k: nat)
    requires j <= k < |events|
  {
    forall i :: j <= i <= k && SoftTurn(v, tunnel, events, i) ==>
      PeriodAt(v, tunnel, events, i) == PeriodAt(v, tunnel, events, j)
  }

  /** An event that finds the same period requested, if it is a software wait, keeps the tick on its grid. */
  lemma EventOnGrid(v: Vsync, tunnel: bool, e: Event, base: int)
    requires v.softPeriod > 0 && OnGrid(v.softTime, base, v.softPeriod)
    requires e.Turn? && !v.mix ==> v.softTime <= e.now && Period(v.reqPeriod) == v.softPeriod
    ensures var w := After(v, tunnel, e); w.softPeriod == v.softPeriod && OnGrid(w.softTime, base, v.softPeriod)
  {
    SoftEvent(v, tunnel, e);
    if e.Turn? && !v.mix {
      SoftTickFacts(v, e.now);
      GridTrans(SoftTick(v, e.now).softTime, v.softTime, base, v.softPeriod);
    }
  }

  /** Where the tick is between two software waits: still on the grid of the first. */
  lemma {:induction false} TickOnGrid(v: Vsync, tunnel: bool, events: seq<Event>, j: nat, k: nat)
    requires Sleeps(v, tunnel, events) && v.softPeriod >= 0 && j < k <= |events|
    requires SoftTurn(v, tunnel, events, j) && SamePeriod(v, tunnel, events, j, k - 1)
    ensures var p := PeriodAt(v, tunnel, events, j); var w := At(v, tunnel, events, k);
            w.softPeriod == p && OnGrid(w.softTime, Told(v, tunnel, events, j).timestamp, p)
    decreases k
  {
    hide OnGrid, After, At, Pass;
    AtNext(v, tunnel, events, k - 1);
    if j < k - 1 {
      TickOnGrid(v, tunnel, events, j, k - 1);
      assert SoftTurn(v, tunnel, events, k - 1) ==>
          PeriodAt(v, tunnel, events, k - 1) == PeriodAt(v, tunnel, events, j);
      EventOnGrid(At(v, tunnel, events, k - 1), tunnel, events[k - 1], Told(v, tunnel, events, j).timestamp);
    } else {
      SoftEvent(At(v, tunnel, events, j), tunnel, events[j]);
      OnOwnGrid(At(v, tunnel, events, k).softTime, PeriodAt(v, tunnel, events, j));
    }
  }

  lemma OnOwnGrid(t: int, period: int)
    requires period > 0
    ensures OnGrid(t, t, period)
  {
  }

  /**
   * As long as the requested period stays the same, the timestamps reported by software
   * waits are whole periods apart, also across a stretch of the mixed mode.
   */
  lemma SoftReportsStayOnGrid(v: Vsync, tunnel: bool, events: seq<Event>, j: nat, k: nat)
    requires Sleeps(v, tunnel, events) && v.softPeriod >= 0 && j < k < |events|
    requires SoftTurn(v, tunnel, events, j) && SoftTurn(v, tunnel, events, k) && SamePeriod(v, tunnel, events, j, k)
    ensures var p := PeriodAt(v, tunnel, events, j);
            var d := Told(v, tunnel, events, k).timestamp - Told(v, tunnel, events, j).timestamp;
            d >= p && d % p == 0
  {
    TickOnGrid(v, tunnel, events, j, k + 1);
    AtNext(v, tunnel, events, k);
    SoftEvent(At(v, tunnel, events, k), tunnel, events[k]);
    SoftReportsAreTimely(v, tunnel, events, k);
    GridGap(Told(v, tunnel, events, k).timestamp, Told(v, tunnel, events, j).timestamp, PeriodAt(v, tunnel, events, j));
  }

  /** A mixed pass reports the mixed time, which is the one `EveryRunStaysOnGrid` is about, or 0 with an error. */
  lemma MixedReports(v: Vsync, tunnel: bool, events: seq<Event>, k: nat)
    requires k < |events| && events[k].Turn? && At(v, tunnel, events, k).mix
    ensures var r, w := Told(v, tunnel, events, k), At(v, tunnel, events, k + 1);
            && (r.ret == 0 ==> r.timestamp == w.vsyncTime)
            && (r.ret != 0 ==> r.timestamp == 0 && w.vsyncTime == At(v, tunnel, events, k).vsyncTime)
            && (r.ret == 0 <==> !NeedsRebase(At(v, tunnel, events, k)) || At(v, tunnel, events, k).crtc.Some?)
  {
    var u := At(v, tunnel, events, k);
    AtNext(v, tunnel, events, k);
    CallsKeepTimes(u.(reqPeriod := Period(u.reqPeriod)), tunnel, events[k].during);
  }

  /** Events j and k are passes and only calls come between them. */
  ghost predicate Consecutive(events: seq<Event>, j: nat, k: nat) {
    && j < k < |events| && events[j].Turn? && events[k].Turn?
    && forall i :: j < i < k ==> events[i].Change?
  }

  lemma {:induction false} LastStays(v: Vsync, tunnel: bool, events: seq<Event>, j: nat, k: nat)
    requires j < k <= |events| && events[j].Turn? && forall i :: j < i < k ==> events[i].Change?
    ensures At(v, tunnel, events, k).last == Told(v, tunnel, events, j).timestamp
    decreases k
  {
    AtNext(v, tunnel, events, k - 1);
    if j < k - 1 {
      LastStays(v, tunnel, events, j, k - 1);
    }
  }

  /** The period requested when event k, a pass, ends: that of its beginning unless another was asked for meanwhile. */
  function RequestedAfter(v: Vsync, tunnel: bool, events: seq<Event>, k: nat): int
    requires k < |events| && events[k].Turn?
  {
    LastPeriod(PeriodAt(v, tunnel, events, k), events[k].during)
  }

  /**
   * In any mode, after any calls: the period reported with a timestamp is its distance from
   * the one reported before, except for a tunnel source and after a timestamp of 0, where
   * it is the one requested.
   */
  lemma ReportedPeriods(v: Vsync, tunnel: bool, events: seq<Event>, j: nat, k: nat)
    requires Consecutive(events, j, k)
    ensures var before, r := Told(v, tunnel, events, j), Told(v, tunnel, events, k);
            r.period == if tunnel || before.timestamp == 0
                        then RequestedAfter(v, tunnel, events, k) else r.timestamp - before.timestamp
  {
    LastStays(v, tunnel, events, j, k);
    var u := At(v, tunnel, events, k);
    PassPeriod(u, tunnel, events[k]);
  }

  lemma PassPeriod(v: Vsync, tunnel: bool, e: Event)
    requires e.Turn?
    ensures var r := Pass(v, tunnel, e.now, e.vblank, e.during).1;
            r.period == if tunnel || v.last == 0 then LastPeriod(Period(v.reqPeriod), e.during)
                        else r.timestamp - v.last
  {
    PassCalls(v, tunnel, e);
  }
}
