/**
 * Vsync timestamps over whole runs: they stay on a grid, move forward, and are never far
 * from the clock.
 */
module VsyncRuns {
  import opened CArithmetic
  import opened VideoTunnelTypes
  import opened VsyncSpec

  // ---- grids ----

  /** `t` is a whole number of periods away from `base`. */
  predicate OnGrid(t: int, base: int, period: int)
    requires period > 0
  {
    (t - base) % period == 0
  }

  lemma {:induction false} TimesIsMultiple(k: int, period: int)
    requires period > 0
    ensures (k * period) % period == 0
    decreases if k >= 0 then k else -k
  {
    if k > 0 {
      TimesIsMultiple(k - 1, period);
      AddPeriod((k - 1) * period, period);
    } else if k < 0 {
      TimesIsMultiple(k + 1, period);
      AddPeriod(k * period, period);
    }
  }

  lemma AddPeriod(d: int, period: int)
    requires period > 0
    ensures (d + period) % period == d % period
  {
    var q := d / period;
    assert d + period == (q + 1) * period + d % period;
    Unique(d + period, q + 1, d % period, period);
  }

  lemma Unique(d: int, q: int, r: int, period: int)
    requires period > 0 && d == q * period + r && 0 <= r < period
    ensures d / period == q && d % period == r
  {
    var e := d / period - q;
    assert e * period == r - d % period;
    assert e >= 1 ==> e * period >= period;
    assert e <= -1 ==> e * period <= -period;
  }

  lemma GridTrans(a: int, b: int, c: int, period: int)
    requires period > 0 && OnGrid(a, b, period) && OnGrid(b, c, period)
    ensures OnGrid(a, c, period)
  {
    var m, n := (a - b) / period, (b - c) / period;
    assert a - c == (m + n) * period;
    TimesIsMultiple(m + n, period);
  }

  lemma GridStep(base: int, k: int, period: int)
    requires period > 0
    ensures OnGrid(base + k * period, base, period)
  {
    TimesIsMultiple(k, period);
  }

  /** Two different points of one grid are at least a period apart. */
  lemma GridGap(a: int, b: int, period: int)
    requires period > 0 && OnGrid(a, b, period) && a > b
    ensures a >= b + period
  {
  }

  lemma QuotFacts(a: int, b: int)
    requires b > 0
    ensures a >= 0 ==> 0 <= a - Quot(a, b) * b < b && Quot(a, b) >= 0
    ensures a <= 0 ==> -b < a - Quot(a, b) * b <= 0 && Quot(a, b) <= 0
    ensures Quot(a, b) >= 0 <==> a > -b
  {
  }

  // ---- the software vsync ----

  /** The base of a tick: the previous tick, or after a change the last old tick not after now. */
  lemma SoftBaseFacts(time: int, oldPeriod: int, period: int, now: int)
    requires period > 0 && oldPeriod >= 0 && time <= now
    ensures var base := SoftBase(time, oldPeriod, period, now);
            && time <= base <= now
            && (period == oldPeriod || oldPeriod == 0 ==> base == time)
            && (period != oldPeriod && oldPeriod > 0 ==> OnGrid(base, time, oldPeriod) && now < base + oldPeriod)
  {
    if period != oldPeriod && oldPeriod > 0 {
      var k := Quot(now - time, oldPeriod);
      QuotFacts(now - time, oldPeriod);
      assert k * oldPeriod >= 0;
      GridStep(time, k, oldPeriod);
    }
  }

  /** The next tick is on the grid of the base, after it, never in the past, and at most one period ahead of both. */
  lemma SoftNextFacts(base: int, period: int, now: int)
    requires period > 0
    ensures var t := SoftNext(base, period, now);
            && OnGrid(t, base, period) && t >= base + period && t >= now
            && t - period <= (if base >= now then base else now)
            && (t <= now + period <==> base <= now)
  {
    var next := base + period;
    GridStep(base, 1, period);
    if next < now {
      var q := Quot(now - next, period);
      QuotFacts(now - next, period);
      assert q * period >= 0;
      assert SoftNext(base, period, now) == base + (q + 2) * period;
      GridStep(base, q + 2, period);
    }
  }

  /** Software vsync, one call that starts no earlier than the previous tick. */
  lemma SoftTickFacts(v: Vsync, now: int)
    requires v.softTime <= now && v.softPeriod >= 0
    ensures var w := SoftTick(v, now); var base := SoftBase(v.softTime, v.softPeriod, w.softPeriod, now);
            && w.softPeriod == Period(v.reqPeriod) > 0
            && now <= w.softTime <= now + w.softPeriod && w.softTime > v.softTime
            && OnGrid(w.softTime, base, w.softPeriod) && v.softTime <= base <= now
  {
    var period := Period(v.reqPeriod);
    SoftBaseFacts(v.softTime, v.softPeriod, period, now);
    SoftNextFacts(SoftBase(v.softTime, v.softPeriod, period, now), period, now);
  }

  /**
   * Without that assumption: the tick is never in the past, and it is within one period of
   * the clock exactly when the previous tick is not ahead of the clock, or the period has
   * just changed and the previous tick is a whole number of old periods ahead.
   */
  lemma SoftWithinPeriodIff(v: Vsync, now: int)
    requires v.softPeriod >= 0
    ensures var w := SoftTick(v, now);
            && now <= w.softTime
            && (w.softTime <= now + w.softPeriod <==>
                v.softTime <= now
                || (v.softPeriod > 0 && w.softPeriod != v.softPeriod && (v.softTime - now) % v.softPeriod == 0))
  {
  }

  /** A run of software waits: `reqs[k]` is requested before call k, which starts at `nows[k]`. */
  ghost predicate SoftRun(states: seq<Vsync>, reqs: seq<int>, nows: seq<int>) {
    && |states| == |nows| + 1 && |reqs| == |nows|
    && forall k :: 0 <= k < |nows| ==> SoftCall(states[k], reqs[k], nows[k], states[k + 1])
  }

  ghost predicate SoftCall(v: Vsync, req: int, now: int, w: Vsync) {
    v.softTime <= now && w == SoftTick(v.(reqPeriod := req), now)
  }

  lemma SoftRunPrefix(states: seq<Vsync>, reqs: seq<int>, nows: seq<int>)
    requires SoftRun(states, reqs, nows) && nows != []
    ensures var n := |nows| - 1;
            SoftRun(states[..n + 1], reqs[..n], nows[..n]) && SoftCall(states[n], reqs[n], nows[n], states[n + 1])
  {
  }

  /**
   * Over any run, with any requests: every tick is in [now, now + period] of its call, and
   * every tick is later than all ticks before it.
   */
  lemma {:induction false} SoftRunFacts(states: seq<Vsync>, reqs: seq<int>, nows: seq<int>)
    requires SoftRun(states, reqs, nows) && states[0].softPeriod >= 0
    ensures forall k :: 0 <= k < |nows| ==> nows[k] <= states[k + 1].softTime <= nows[k] + Period(reqs[k])
    ensures forall k :: 0 <= k < |nows| ==> states[k].softTime < states[|nows|].softTime
    ensures states[|nows|].softPeriod >= 0
  {
    if nows != [] {
      var n := |nows| - 1;
      SoftRunPrefix(states, reqs, nows);
      SoftRunFacts(states[..n + 1], reqs[..n], nows[..n]);
      SoftTickFacts(states[n].(reqPeriod := reqs[n]), nows[n]);
      forall k | 0 <= k < n
        ensures nows[k] <= states[k + 1].softTime <= nows[k] + Period(reqs[k])
                && states[k].softTime < states[n].softTime
      {
        assert nows[..n][k] == nows[k] && states[..n + 1][k + 1] == states[k + 1] && reqs[..n][k] == reqs[k];
        assert states[..n + 1][k] == states[k] && states[..n + 1][n] == states[n];
      }
    }
  }

  /** As long as the period stays the same no tick drifts off the grid of the first, however late the calls are. */
  lemma {:induction false} SoftRunKeepsPhase(states: seq<Vsync>, reqs: seq<int>, nows: seq<int>, period: int)
    requires SoftRun(states, reqs, nows) && period > 0 && states[0].softPeriod == period
    requires forall k :: 0 <= k < |nows| ==> Period(reqs[k]) == period
    ensures states[|nows|].softPeriod == period
    ensures OnGrid(states[|nows|].softTime, states[0].softTime, period)
  {
    if nows != [] {
      var n := |nows| - 1;
      SoftRunPrefix(states, reqs, nows);
      assert Period(reqs[n]) == period;
      assert forall k :: 0 <= k < n ==> Period(reqs[..n][k]) == Period(reqs[k]);
      SoftRunKeepsPhase(states[..n + 1], reqs[..n], nows[..n], period);
      SoftTickFacts(states[n].(reqPeriod := reqs[n]), nows[n]);
      GridTrans(states[n + 1].softTime, states[n].softTime, states[0].softTime, period);
    }
  }

  // ---- the mixed vsync ----

  /**
   * Between rebases the next time is on the grid, after now and less than two periods
   * after it; within one period when the clock has reached the previous time, and also
   * when it is a whole number of periods short of it. It is later than the previous time
   * unless the clock is a period or more short of it.
   */
  lemma MixNextFacts(time: int, period: int, now: int)
    requires period > 0
    ensures var t := MixNext(time, period, now);
            && OnGrid(t, time, period) && now < t < now + 2 * period
            && (t <= now + period <==> time <= now || OnGrid(time, now, period))
            && (t > time <==> now > time - period)
  {
    var q := Quot(now - time, period);
    QuotFacts(now - time, period);
    assert MixNext(time, period, now) == time + (q + 1) * period;
    GridStep(time, q + 1, period);
    if q >= 0 {
      assert (q + 1) * period >= period;
    } else {
      assert (q + 1) * period <= 0;
    }
    if time > now {
      assert (time - now) == ((time - now) / period) * period + (time - now) % period;
      assert time + q * period == now + (time - now) % period;
    }
  }

  lemma NextDistance(time: int, period: int, now: int)
    requires period > 0 && time <= now
    ensures var d := MixNext(time, period, now) - time;
            d >= period && d % period == 0 && (d == period <==> now < time + period)
  {
    MixNextFacts(time, period, now);
    GridGap(MixNext(time, period, now), time, period);
  }

  // ---- calls of other threads ----

  /** Calls take the thread's own times as they are. */
  lemma {:induction false} CallsKeepTimes(v: Vsync, tunnel: bool, calls: seq<Call>)
    ensures var w := ApplyAll(v, tunnel, calls);
            && w.vsyncTime == v.vsyncTime && w.curPeriod == v.curPeriod && w.last == v.last
            && w.softTime == v.softTime && w.softPeriod == v.softPeriod
            && w.reqPeriod == LastPeriod(v.reqPeriod, calls) && w.mixOffset == LastOffset(v.mixOffset, calls)
  {
    if calls != [] { CallsKeepTimes(v, tunnel, calls[..|calls| - 1]); }
  }

  /** The period asked for last. */
  function LastPeriod(req: int, calls: seq<Call>): int {
    if calls == [] then req
    else
      var c := calls[|calls| - 1];
      if c.NewPeriod? then c.period else LastPeriod(req, calls[..|calls| - 1])
  }

  /** The offset after these calls: that of a tunnel mode, if one of them asked for it. */
  function LastOffset(offset: int, calls: seq<Call>): int {
    if calls == [] then offset
    else if calls[|calls| - 1].VtMode? then VT_OFFSET_LOW_RFRESHRATE
    else LastOffset(offset, calls[..|calls| - 1])
  }

  /** A call that asks for a rebase whatever the period is. */
  predicate Forces(v: Vsync, tunnel: bool, c: Call) {
    c.MixMode? || c.VtMode? || (c.Enable? && tunnel && v.mix)
  }

  predicate AnyForces(v: Vsync, tunnel: bool, calls: seq<Call>) {
    && calls != []
    && (Forces(ApplyAll(v, tunnel, calls[..|calls| - 1]), tunnel, calls[|calls| - 1])
        || AnyForces(v, tunnel, calls[..|calls| - 1]))
  }

  lemma {:induction false} RebaseFlagIff(v: Vsync, tunnel: bool, calls: seq<Call>)
    ensures ApplyAll(v, tunnel, calls).rebase <==> v.rebase || AnyForces(v, tunnel, calls)
  {
    if calls != [] { RebaseFlagIff(v, tunnel, calls[..|calls| - 1]); }
  }

  /**
   * After any calls the next mixed wait goes back to the hardware exactly when one of them
   * started a mixed mode, or enabled or disabled a tunnel source in mixed mode, or when the
   * period asked for last is not the one in use: a period changed and changed back causes nothing.
   */
  lemma RebaseAfterCallsIff(v: Vsync, tunnel: bool, calls: seq<Call>)
    requires !NeedsRebase(v)
    ensures NeedsRebase(ApplyAll(v, tunnel, calls)) <==>
              AnyForces(v, tunnel, calls) || Period(LastPeriod(v.reqPeriod, calls)) != v.curPeriod
  {
    RebaseFlagIff(v, tunnel, calls);
    CallsKeepTimes(v, tunnel, calls);
  }

  /**
   * A rebase takes the hardware time of the controller set when it began, shifted by 1 ms
   * above 60 Hz and by 5 ms otherwise on a tunnel display that is enabled, and else by the
   * offset used before or 5 ms once a tunnel mode was asked for. Whatever is asked for while it
   * waits, no further rebase follows, unless the period asked for last is not positive.
   */
  lemma RebaseFacts(v: Vsync, tunnel: bool, now: int, vblank: nat -> int, during: seq<Call>)
    requires NeedsRebase(v)
    ensures var (w, ret) := MixTick(v, tunnel, now, vblank, during);
            && (ret == 0 <==> v.crtc.Some?)
            && (ret == 0 ==> w.vsyncTime == vblank(v.crtc.value) + w.mixOffset && w.curPeriod == w.reqPeriod)
            && (ret == 0 ==> (NeedsRebase(w) <==> LastPeriod(Period(v.reqPeriod), during) <= 0))
            && (ret == 0 && !(w.enabled && tunnel) ==> w.mixOffset == LastOffset(v.mixOffset, during))
            && (ret == 0 && w.enabled && tunnel && w.curPeriod > 0 ==>
                  w.mixOffset == if 61 * w.curPeriod <= SECOND then VT_OFFSET_HIGH_RFRESHRATE
                                 else VT_OFFSET_LOW_RFRESHRATE)
            && (ret != 0 ==> w.vsyncTime == v.vsyncTime && w.curPeriod == v.curPeriod)
  {
    CallsKeepTimes(v.(reqPeriod := Period(v.reqPeriod)), tunnel, during);
  }

  /**
   * So a new controller set while a rebase waits for the old one is not waited for: the
   * times stay on the grid of the old controller, and no rebase is pending.
   */
  lemma LateSwitchIsLost(v: Vsync, tunnel: bool, now: int, vblank: nat -> int, crtc: nat)
    requires NeedsRebase(v) && v.crtc.Some?
    ensures var (w, ret) := MixTick(v, tunnel, now, vblank, [MixMode(Some(crtc))]);
            && ret == 0 && w.crtc == Some(crtc) && w.mix && !NeedsRebase(w)
            && w.vsyncTime == vblank(v.crtc.value) + w.mixOffset
  {
    var u := v.(reqPeriod := Period(v.reqPeriod));
    assert [MixMode(Some(crtc))][..0] == [];
    assert ApplyAll(u, tunnel, [MixMode(Some(crtc))]) == Apply(u, tunnel, MixMode(Some(crtc)));
  }

  // ---- runs of the thread and its callers ----

  /** A call between two passes, or a pass with the calls that come while it waits. */
  datatype Event = Change(call: Call) | Turn(now: int, vblank: nat -> int, during: seq<Call>)

  function After(v: Vsync, tunnel: bool, e: Event): Vsync {
    match e
    case Change(c) => Apply(v, tunnel, c)
    case Turn(now, vblank, during) => Pass(v, tunnel, now, vblank, during).0
  }

  function RunFrom(v: Vsync, tunnel: bool, events: seq<Event>): Vsync {
    if events == [] then v
    else After(RunFrom(v, tunnel, events[..|events| - 1]), tunnel, events[|events| - 1])
  }

  predicate Rebases(v: Vsync, e: Event) {
    e.Turn? && v.mix && NeedsRebase(v) && v.crtc.Some?
  }

  /** The state right after the last rebase of a run, or at its start. */
  function LastRebase(v: Vsync, tunnel: bool, events: seq<Event>): Vsync {
    if events == [] then v
    else
      var n := |events| - 1;
      var u := RunFrom(v, tunnel, events[..n]);
      if Rebases(u, events[n]) then After(u, tunnel, events[n]) else LastRebase(v, tunnel, events[..n])
  }

  /** A pass that does not rebase moves along the grid, or does not move. */
  lemma TurnKeepsGrid(v: Vsync, tunnel: bool, e: Event)
    requires !Rebases(v, e)
    ensures After(v, tunnel, e).curPeriod == v.curPeriod
    ensures v.curPeriod > 0 ==> OnGrid(After(v, tunnel, e).vsyncTime, v.vsyncTime, v.curPeriod)
  {
    if e.Turn? {
      var u := v.(reqPeriod := Period(v.reqPeriod));
      if !v.mix {
        CallsKeepTimes(SoftTick(v, e.now), tunnel, e.during);
      } else if NeedsRebase(v) {
        CallsKeepTimes(u, tunnel, e.during);
      } else {
        MixNextFacts(v.vsyncTime, v.curPeriod, e.now);
        CallsKeepTimes(u.(vsyncTime := MixNext(v.vsyncTime, v.curPeriod, e.now)), tunnel, e.during);
      }
    }
  }

  /**
   * Over any run of passes and calls, however late the passes and whatever the calls, the
   * mixed time is on the grid of the last rebase.
   */
  lemma {:induction false} EveryRunStaysOnGrid(v: Vsync, tunnel: bool, events: seq<Event>)
    ensures var base, w := LastRebase(v, tunnel, events), RunFrom(v, tunnel, events);
            w.curPeriod == base.curPeriod && (w.curPeriod > 0 ==> OnGrid(w.vsyncTime, base.vsyncTime, w.curPeriod))
  {
    if events != [] {
      var n := |events| - 1;
      var u := RunFrom(v, tunnel, events[..n]);
      EveryRunStaysOnGrid(v, tunnel, events[..n]);
      if !Rebases(u, events[n]) {
        TurnKeepsGrid(u, tunnel, events[n]);
        if u.curPeriod > 0 {
          GridTrans(After(u, tunnel, events[n]).vsyncTime, u.vsyncTime,
                    LastRebase(v, tunnel, events[..n]).vsyncTime, u.curPeriod);
        }
      }
    }
  }

  /** Every pass is a mixed one, without a rebase, and begins when the one before has ended. */
  predicate Smooth(v: Vsync, tunnel: bool, events: seq<Event>) {
    events == []
    || (var u, e := RunFrom(v, tunnel, events[..|events| - 1]), events[|events| - 1];
        && Smooth(v, tunnel, events[..|events| - 1])
        && (e.Turn? ==> u.mix && !NeedsRebase(u) && u.vsyncTime <= e.now))
  }

  function Turns(events: seq<Event>): nat {
    if events == [] then 0
    else Turns(events[..|events| - 1]) + if events[|events| - 1].Turn? then 1 else 0
  }

  /**
   * Between rebases, with any calls in between: the times strictly increase, by a whole
   * number of periods, at least one a pass, and each lies in (now, now + period].
   */
  lemma {:induction false} SmoothRunFacts(v: Vsync, tunnel: bool, events: seq<Event>)
    requires Smooth(v, tunnel, events) && v.curPeriod > 0
    ensures var p := v.curPeriod; var w := RunFrom(v, tunnel, events);
            && w.curPeriod == p && OnGrid(w.vsyncTime, v.vsyncTime, p)
            && w.vsyncTime >= v.vsyncTime + Turns(events) * p
            && (events != [] && events[|events| - 1].Turn? ==>
                  events[|events| - 1].now < w.vsyncTime <= events[|events| - 1].now + p)
  {
    if events != [] {
      var n := |events| - 1;
      var u := RunFrom(v, tunnel, events[..n]);
      SmoothRunFacts(v, tunnel, events[..n]);
      TurnKeepsGrid(u, tunnel, events[n]);
      GridTrans(After(u, tunnel, events[n]).vsyncTime, u.vsyncTime, v.vsyncTime, v.curPeriod);
      if events[n].Turn? {
        TurnAdvances(u, tunnel, events[n]);
        assert (Turns(events[..n]) + 1) * v.curPeriod == Turns(events[..n]) * v.curPeriod + v.curPeriod;
      }
    }
  }

  lemma TurnAdvances(v: Vsync, tunnel: bool, e: Event)
    requires e.Turn? && v.mix && !NeedsRebase(v) && v.vsyncTime <= e.now
    ensures var w := After(v, tunnel, e);
            w.vsyncTime >= v.vsyncTime + v.curPeriod && e.now < w.vsyncTime <= e.now + v.curPeriod
  {
    var u := v.(reqPeriod := Period(v.reqPeriod));
    MixNextFacts(v.vsyncTime, v.curPeriod, e.now);
    NextDistance(v.vsyncTime, v.curPeriod, e.now);
    CallsKeepTimes(u.(vsyncTime := MixNext(v.vsyncTime, v.curPeriod, e.now)), tunnel, e.during);
  }

  /**
   * Two passes of a source that is no tunnel source, with any calls in between. The period
   * reported with the second is the distance of the two timestamps: without a rebase a
   * positive number of periods, and one period exactly when the second pass begins less
   * than a period after the first timestamp. After a failed wait it is the period asked for.
   */
  lemma ReportedPeriodIff(v: Vsync, first: Event, calls: seq<Call>, second: Event)
    requires first.Turn? && second.Turn? && v.mix
    ensures var (u, r) := Pass(v, false, first.now, first.vblank, first.during);
            var w := ApplyAll(u, false, calls);
            var (_, s) := Pass(w, false, second.now, second.vblank, second.during);
            && (r.timestamp != 0 ==> s.period == s.timestamp - r.timestamp)
            && (r.timestamp != 0 && w.mix && !NeedsRebase(w) && second.now >= r.timestamp ==>
                  && s.period >= w.curPeriod && s.period % w.curPeriod == 0
                  && (s.period == w.curPeriod <==> second.now < r.timestamp + w.curPeriod))
            && (r.ret != 0 ==> s.period == Pass(w, false, second.now, second.vblank, second.during).0.reqPeriod)
  {
    var (u, r) := Pass(v, false, first.now, first.vblank, first.during);
    CallsKeepTimes(u, false, calls);
    var w := ApplyAll(u, false, calls);
    if r.timestamp != 0 && w.mix && !NeedsRebase(w) && second.now >= r.timestamp {
      NextDistance(w.vsyncTime, w.curPeriod, second.now);
      CallsKeepTimes(w.(reqPeriod := Period(w.reqPeriod), vsyncTime := MixNext(w.vsyncTime, w.curPeriod, second.now)),
                     false, second.during);
    }
  }
}
