/**
 * Whole runs of the vdin capture thread: no buffer is ever in two places or lost, and a
 * request for a few frames ends, after an exact number of captures.
 */
module VdinRuns {
  import opened VideoTunnelTypes
  import opened VdinSpec

  // ---- where the buffers are ----

  /** Each buffer of `all` is with the driver, in the queue, or on screen, and in one of these only. */
  ghost predicate Placed(driver: set<int>, queue: seq<int>, shown: set<int>, all: set<int>) {
    && Distinct(queue) && driver + Elements(queue) + shown == all
    && driver !! Elements(queue) && driver !! shown && shown !! Elements(queue)
  }

  ghost predicate Parted(v: Vdin, all: set<int>) {
    Placed(v.driver, v.queue, OnScreen(v), all)
  }

  /** `all` are six buffer indices. */
  ghost predicate SixIndices(all: set<int>) {
    |all| == VDIN_BUF_CNT && forall i :: i in all ==> i >= 0
  }

  /** What holds between any two steps of the thread. The driver always has a buffer to capture into. */
  ghost predicate Inv(v: Vdin, all: set<int>) {
    && SixIndices(all) && Parted(v, all) && v.onScreen >= -1
    && 0 <= v.capCnt <= VDIN_CAP_CNT && |v.driver| >= 1 && Paired(v)
  }

  lemma {:induction false} FirstBuffersFacts(n: nat)
    ensures |FirstBuffers(n)| == n && forall i :: i in FirstBuffers(n) <==> 0 <= i < n
  {
    if n > 0 {
      FirstBuffersFacts(n - 1);
    }
  }

  /** The three places together hold all the buffers. */
  lemma PlacesCount(driver: set<int>, queue: seq<int>, shown: set<int>, all: set<int>)
    requires Placed(driver, queue, shown, all)
    ensures |driver| + |queue| + |shown| == |all|
  {
    DistinctSize(queue);
    assert |driver + Elements(queue)| == |driver| + |queue|;
    assert |driver + Elements(queue) + shown| == |driver + Elements(queue)| + |shown|;
  }

  lemma IndicesSplit(queue: seq<int>, n: nat)
    requires n <= |queue| && Distinct(queue)
    ensures Elements(queue) == Elements(queue[..n]) + Elements(queue[n..])
            && Elements(queue[..n]) !! Elements(queue[n..])
    ensures Distinct(queue[..n]) && Distinct(queue[n..])
  {
  }

  /** Giving the oldest n captured buffers back to the driver. */
  lemma GiveBack(driver: set<int>, queue: seq<int>, shown: set<int>, all: set<int>, n: nat)
    requires Placed(driver, queue, shown, all) && n <= |queue|
    ensures Placed(driver + Elements(queue[..n]), queue[n..], shown, all)
    ensures |driver + Elements(queue[..n])| == |driver| + n
  {
    IndicesSplit(queue, n);
    DistinctSize(queue[..n]);
  }

  /** Queueing a buffer that was on screen or comes from the driver. */
  lemma Enqueue(driver: set<int>, queue: seq<int>, shown: set<int>, all: set<int>, idx: int)
    requires Placed(driver, queue, shown, all) && (idx in driver || idx in shown)
    ensures Placed(driver - {idx}, queue + [idx], shown - {idx}, all)
  {
  }

  lemma RequeueKeepsParted(v: Vdin, all: set<int>)
    requires Parted(v, all)
    ensures Parted(Requeue(v), all) && |Requeue(v).driver| == |v.driver| + Owed(v)
  {
    GiveBack(v.driver, v.queue, OnScreen(v), all, Owed(v));
  }

  /** The queue once the buffer on screen, if any, has been put back into it. */
  function Unshown(v: Vdin): seq<int> {
    v.queue + if v.onScreen >= 0 then [v.onScreen] else []
  }

  lemma UnshownPlaced(v: Vdin, all: set<int>)
    requires Parted(v, all)
    ensures Placed(v.driver, Unshown(v), {}, all)
  {
  }

  /** Showing a buffer that comes from the driver. */
  lemma Show(driver: set<int>, queue: seq<int>, all: set<int>, idx: int)
    requires Placed(driver, queue, {}, all) && idx in driver
    ensures Placed(driver - {idx}, queue, {idx}, all)
  {
  }

  lemma KeepKeepsParted(v: Vdin, idx: int, all: set<int>)
    requires Parted(v, all) && idx in v.driver && idx >= 0
    ensures Parted(Keep(v, idx), all) && |Keep(v, idx).driver| == |v.driver| - 1
  {
    UnshownPlaced(v, all);
    if v.processor.Some? {
      Enqueue(v.driver, Unshown(v), {}, all, idx);
      assert {} - {idx} == OnScreen(Keep(v, idx));
    } else {
      Show(v.driver, Unshown(v), all, idx);
    }
  }

  lemma ObeyFacts(v: Vdin)
    requires Paired(v) && 0 <= v.capCnt <= VDIN_CAP_CNT
    ensures var w := Obey(v);
            && w.queue == v.queue && w.onScreen == v.onScreen && w.driver == v.driver
            && 0 <= w.capCnt <= VDIN_CAP_CNT && Paired(w)
  {
    if v.commands != [] {
      assert Updates(v.commands) == Updates(v.commands[1..]) + if IsUpdate(v.commands[0]) then 1 else 0;
    }
  }

  lemma ArmedFacts(v: Vdin)
    requires Paired(v) && 0 <= v.capCnt <= VDIN_CAP_CNT
    ensures var w := Armed(v);
            && w.queue == v.queue && w.onScreen == v.onScreen && w.driver == v.driver
            && 0 <= w.capCnt <= VDIN_CAP_CNT && Paired(w)
  {
    ObeyFacts(v);
  }

  lemma ArmedKeepsInv(v: Vdin, all: set<int>)
    requires Inv(v, all)
    ensures Inv(Armed(v), all)
  {
    ArmedFacts(v);
  }

  /**
   * A capture never takes the driver's last buffer: either captures are owed, and then
   * enough buffers went back first, or the driver had at least two.
   */
  lemma TwoBeforeCapture(v: Vdin, all: set<int>)
    requires Inv(v, all) && !Rests(v)
    ensures |Requeue(v).driver| >= 2
  {
    PlacesCount(v.driver, v.queue, OnScreen(v), all);
    RequeueKeepsParted(v, all);
  }

  lemma RequeueKeepsInv(w: Vdin, all: set<int>)
    requires Inv(w, all) && !Rests(w)
    ensures Inv(Requeue(w), all) && |Requeue(w).driver| >= 2
  {
    TwoBeforeCapture(w, all);
    RequeueKeepsParted(w, all);
  }

  lemma KeepKeepsInv(r: Vdin, idx: int, all: set<int>)
    requires Inv(r, all) && |r.driver| >= 2 && idx in r.driver
    ensures Inv(Keep(r, idx), all)
  {
    assert idx in all;
    KeepKeepsParted(r, idx, all);
  }

  lemma RestKeepsInv(w: Vdin, answer: Option<int>, all: set<int>)
    requires Inv(w, all) && (w.mode.Idle? || Rests(w))
    ensures Inv(Capture(w, answer), all)
  {
    assert Capture(w, answer) == w || Capture(w, answer) == w.(mode := Idle);
  }

  lemma CaptureKeepsInv(w: Vdin, answer: Option<int>, all: set<int>)
    requires Inv(w, all) && !w.mode.Idle? && !Rests(w)
    requires answer.Some? ==> answer.value in Requeue(w).driver
    ensures Inv(Capture(w, answer), all)
  {
    hide Inv;
    RequeueKeepsInv(w, all);
    if answer.Some? {
      KeepKeepsInv(Requeue(w), answer.value, all);
    }
  }

  lemma PassKeepsInv(v: Vdin, answer: Option<int>, all: set<int>)
    requires Inv(v, all) && Answers(v, answer)
    ensures Inv(Pass(v, answer), all)
  {
    hide Obey, Capture, Requeue, Rests, SixIndices, Parted;
    ArmedKeepsInv(v, all);
    if Captures(v) {
      CaptureKeepsInv(Armed(v), answer, all);
    } else {
      RestKeepsInv(Armed(v), answer, all);
    }
  }

  lemma {:induction false} UpdatesAppend(commands: seq<bv32>, cmd: bv32)
    ensures Updates(commands + [cmd]) == Updates(commands) + if IsUpdate(cmd) then 1 else 0
  {
    if commands == [] {
      assert [cmd][1..] == [];
    } else {
      assert (commands + [cmd])[1..] == commands[1..] + [cmd];
      UpdatesAppend(commands[1..], cmd);
    }
  }

  // ---- runs with commands arriving at any time ----

  datatype Op = Command(flags: bv32) | Processor(processor: Option<nat>) | Round(answer: Option<int>)

  /** Flags above `PRESENT_MAX` are the post-processor's own; the driver answers with what it holds. */
  ghost predicate Allowed(v: Vdin, op: Op) {
    match op
    case Command(flags) => !Has(flags, PRESENT_UPDATE_PROCESSOR)
    case Processor(_) => true
    case Round(answer) => Paired(v) && Answers(v, answer)
  }

  function Apply(v: Vdin, op: Op): Vdin
    requires op.Round? ==> Paired(v)
  {
    match op
    case Command(flags) => Present(v, flags)
    case Processor(p) => Ask(v, p)
    case Round(answer) => Pass(v, answer)
  }

  /** The states of a run: one before each operation and one at the end. */
  ghost predicate IsRun(states: seq<Vdin>, ops: seq<Op>) {
    && |states| == |ops| + 1
    && forall k :: 0 <= k < |ops| ==> Took(states[k], ops[k], states[k + 1])
  }

  ghost predicate Took(v: Vdin, op: Op, w: Vdin) {
    Allowed(v, op) && w == Apply(v, op)
  }

  lemma StepKeepsInv(v: Vdin, op: Op, all: set<int>)
    requires Inv(v, all) && Allowed(v, op)
    ensures Inv(Apply(v, op), all)
  {
    match op
    case Command(flags) => UpdatesAppend(v.commands, flags);
    case Processor(p) => UpdatesAppend(v.commands, PRESENT_UPDATE_PROCESSOR);
    case Round(answer) => PassKeepsInv(v, answer, all);
  }

  /** Whatever commands arrive and however the driver behaves, no buffer is lost or in two places. */
  lemma {:induction false} EveryRun(states: seq<Vdin>, ops: seq<Op>, all: set<int>)
    requires IsRun(states, ops) && Inv(states[0], all)
    ensures forall k :: 0 <= k < |states| ==> Inv(states[k], all)
  {
    hide Inv;
    if ops != [] {
      var n := |ops| - 1;
      assert IsRun(states[..n + 1], ops[..n]) by {
        forall k | 0 <= k < n ensures Took(states[..n + 1][k], ops[..n][k], states[..n + 1][k + 1]) {
          assert Took(states[k], ops[k], states[k + 1]);
        }
      }
      EveryRun(states[..n + 1], ops[..n], all);
      assert Took(states[n], ops[n], states[n + 1]);
      assert Inv(states[..n + 1][n], all);
      StepKeepsInv(states[n], ops[n], all);
      forall k | 0 <= k < |states| ensures Inv(states[k], all) {
        assert k <= n ==> Inv(states[..n + 1][k], all);
      }
    }
  }

  /** The state in which the thread starts satisfies the invariant. */
  lemma StartIsInv(v: Vdin)
    requires v.queue == [] && v.onScreen == -1 && v.driver == FirstBuffers(VDIN_BUF_CNT)
    requires 0 <= v.capCnt <= VDIN_CAP_CNT && Paired(v)
    ensures Inv(v, FirstBuffers(VDIN_BUF_CNT))
  {
    FirstBuffersFacts(VDIN_BUF_CNT);
  }

  lemma NothingPlus(s: set<int>)
    ensures {} + s == s
  {
  }

  lemma VdinStartIsInv(v: Vdin)
    requires v.queue == [] && v.driver == {} && 0 <= v.capCnt <= VDIN_CAP_CNT && Paired(v)
    ensures Inv(VdinStarted(v), FirstBuffers(VDIN_BUF_CNT))
  {
    NothingPlus(FirstBuffers(VDIN_BUF_CNT));
    StartIsInv(VdinStarted(v));
  }

  // ---- how many captures a request takes ----

  /** Captures still to come before the thread rests. */
  function Measure(v: Vdin): int {
    v.capCnt + |v.driver| - 1
  }

  /** In a round without commands: what one round does to the measure, and when it ends the request. */
  lemma OneRound(v: Vdin, answer: Option<int>, all: set<int>)
    requires Inv(v, all) && Quiet(v) && Answers(v, answer)
    ensures var w := Pass(v, answer);
            if Measure(v) == 0 then w == v.(mode := Idle) && !Captures(v)
            else Captures(v) && Quiet(w) && Measure(w) == Measure(v) - (if answer.Some? then 1 else 0)
  {
    QuietIsArmed(v);
    RestsIff(v, all);
    if Measure(v) != 0 { QuietCapture(v, answer, all); }
  }

  /** Without a command to obey a request is served as it is. */
  lemma QuietIsArmed(v: Vdin)
    requires Quiet(v)
    ensures Obey(v) == v && Armed(v) == v
  {
  }

  lemma RestsIff(v: Vdin, all: set<int>)
    requires Inv(v, all)
    ensures Measure(v) == 0 <==> Rests(v)
  {
    PlacesCount(v.driver, v.queue, OnScreen(v), all);
  }

  lemma QuietCapture(v: Vdin, answer: Option<int>, all: set<int>)
    requires Inv(v, all) && Quiet(v) && !Rests(v) && (answer.Some? ==> answer.value in Requeue(v).driver)
    ensures var w := Capture(v, answer); Quiet(w) && Measure(w) == Measure(v) - if answer.Some? then 1 else 0
  {
    RequeueKeepsParted(v, all);
    if answer.Some? {
      assert answer.value in all;
      KeepKeepsParted(Requeue(v), answer.value, all);
    }
  }

  /** A request is being served, it is not a screen capture, and no command waits. */
  predicate Quiet(v: Vdin) {
    v.mode.Once? && v.commands == [] && !Has(v.preCmd, PRESENT_CAPSCREEN)
  }

  /** Rounds in a row with no command arriving. */
  function Rounds(v: Vdin, answers: seq<Option<int>>): (w: Vdin)
    requires Paired(v) && v.commands == []
    ensures Paired(w) && w.commands == []
  {
    if answers == [] then v else Pass(Rounds(v, answers[..|answers| - 1]), answers[|answers| - 1])
  }

  ghost predicate AllAnswer(v: Vdin, answers: seq<Option<int>>)
    requires Paired(v) && v.commands == []
  {
    answers != [] ==>
      var n := |answers| - 1; AllAnswer(v, answers[..n]) && Answers(Rounds(v, answers[..n]), answers[n])
  }

  /** Successful captures of these rounds. */
  function Captured(v: Vdin, answers: seq<Option<int>>): nat
    requires Paired(v) && v.commands == []
  {
    if answers == [] then 0
    else
      var n := |answers| - 1;
      Captured(v, answers[..n]) + if Captures(Rounds(v, answers[..n])) && answers[n].Some? then 1 else 0
  }

  function Buffers(answers: seq<Option<int>>): nat {
    if answers == [] then 0
    else Buffers(answers[..|answers| - 1]) + if answers[|answers| - 1].Some? then 1 else 0
  }

  lemma IdleStays(v: Vdin, answer: Option<int>)
    requires v.mode.Idle? && v.commands == []
    ensures Paired(v) && Pass(v, answer) == v && !Captures(v)
  {
  }

  /** Where a request of measure m stands after so many captures and so many buffers from the driver. */
  ghost predicate Serving(v: Vdin, all: set<int>, m: int, captured: nat, buffers: nat) {
    && Inv(v, all) && v.commands == [] && captured == m - Measure(v)
    && (if v.mode.Idle? then captured == m else Quiet(v) && captured == buffers)
    && (buffers > m ==> v.mode.Idle?)
  }

  lemma ServingMore(v: Vdin, answer: Option<int>, all: set<int>, m: int, captured: nat, buffers: nat)
    requires Serving(v, all, m, captured, buffers) && Answers(v, answer)
    ensures Serving(Pass(v, answer), all, m, captured + (if Captures(v) && answer.Some? then 1 else 0),
                    buffers + if answer.Some? then 1 else 0)
  {
    PassKeepsInv(v, answer, all);
    if v.mode.Idle? {
      IdleStays(v, answer);
    } else {
      OneRound(v, answer, all);
      PassKeepsNoCommands(v, answer);
    }
  }

  lemma PassKeepsNoCommands(v: Vdin, answer: Option<int>)
    requires v.commands == []
    ensures Paired(v) && Pass(v, answer).commands == []
  {
  }

  lemma StartsServing(v: Vdin, all: set<int>)
    requires Inv(v, all) && Quiet(v)
    ensures Paired(v) && v.commands == [] && Serving(v, all, Measure(v), 0, 0)
  {
  }

  lemma {:induction false} ServingRounds(v: Vdin, answers: seq<Option<int>>, all: set<int>)
    requires Inv(v, all) && Quiet(v) && AllAnswer(v, answers)
    ensures Serving(Rounds(v, answers), all, Measure(v), Captured(v, answers), Buffers(answers))
  {
    StartsServing(v, all);
    hide Serving, Has, Inv, Measure, Captures, Pass, Answers;
    if answers != [] {
      var n := |answers| - 1;
      ServingRounds(v, answers[..n], all);
      ServingMore(Rounds(v, answers[..n]), answers[n], all, Measure(v), Captured(v, answers[..n]),
                  Buffers(answers[..n]));
    }
  }

  /**
   * A request goes idle after exactly `Measure` captures: it cannot rest before, each
   * capture lowers the measure by one, and it rests once the driver has answered more often.
   */
  lemma OnceGoesIdle(v: Vdin, answers: seq<Option<int>>, all: set<int>)
    requires Inv(v, all) && Quiet(v) && AllAnswer(v, answers)
    ensures var w := Rounds(v, answers);
            && Inv(w, all)
            && (w.mode.Idle? || (Quiet(w) && Captured(v, answers) == Buffers(answers)))
            && Captured(v, answers) == Measure(v) - Measure(w)
            && (w.mode.Idle? ==> Captured(v, answers) == Measure(v))
            && (Buffers(answers) > Measure(v) ==> w.mode.Idle?)
  {
    ServingRounds(v, answers, all);
  }

  /** The round that takes a request is an ordinary round of the request it starts. */
  lemma RequestRound(v: Vdin, cmd: bv32, answer: Option<int>, all: set<int>)
    requires Inv(v, all) && v.commands == [] && IsOnce(cmd)
    requires Paired(Present(v, cmd)) && Answers(Present(v, cmd), answer)
    ensures var w := Pass(Present(v, cmd), answer);
            Inv(w, all) && Quiet(w) && Measure(w) == VDIN_CAP_CNT + |v.driver| - 1 - if answer.Some? then 1 else 0
  {
    var start := Obey(Present(v, cmd));
    RequestIsObeyed(v, cmd);
    StartedInv(v, start, all);
    QuietIsArmed(start);
    OneRound(start, answer, all);
    PassKeepsInv(start, answer, all);
  }

  lemma RequestIsObeyed(v: Vdin, cmd: bv32)
    requires Paired(v) && v.commands == [] && IsOnce(cmd) && Paired(Present(v, cmd))
    ensures var start := Obey(Present(v, cmd));
            && start == v.(mode := Once, capCnt := VDIN_CAP_CNT, preCmd := cmd) && Quiet(start)
            && Armed(Present(v, cmd)) == start
  {
    assert Present(v, cmd).commands == [cmd] && [cmd][1..] == [];
  }

  lemma StartedInv(v: Vdin, start: Vdin, all: set<int>)
    requires Inv(v, all) && start == v.(mode := Once, capCnt := VDIN_CAP_CNT, preCmd := start.preCmd)
    ensures Inv(start, all) && OnScreen(start) == OnScreen(v) && Measure(start) == VDIN_CAP_CNT + |v.driver| - 1
  {
  }

  /**
   * From rest, a request for frames captures exactly `VDIN_CAP_CNT` of them, no matter how
   * often the driver has nothing to give, and then rests again.
   */
  lemma RequestCapturesFive(v: Vdin, cmd: bv32, answer: Option<int>, first: Vdin, answers: seq<Option<int>>,
                            all: set<int>)
    requires Inv(v, all) && v.mode.Idle? && |v.driver| == 1 && v.commands == [] && IsOnce(cmd)
    requires Paired(Present(v, cmd)) && Answers(Present(v, cmd), answer) && first == Pass(Present(v, cmd), answer)
    requires Paired(first) && first.commands == [] && AllAnswer(first, answers)
    ensures var end := Rounds(first, answers);
            var one := if answer.Some? then 1 else 0;
            && (end.mode.Idle? ==>
                  one + Captured(first, answers) == VDIN_CAP_CNT && end.capCnt == 0 && |end.driver| == 1)
            && one + Captured(first, answers) <= VDIN_CAP_CNT
            && (one + Buffers(answers) > VDIN_CAP_CNT ==> end.mode.Idle?)
  {
    assert Inv(first, all) && Quiet(first) && Measure(first) == VDIN_CAP_CNT - if answer.Some? then 1 else 0 by {
      RequestRound(v, cmd, answer, all);
    }
    OnceGoesIdle(first, answers, all);
  }

  /**
   * A screen capture does not end: the round after it the thread captures continuously,
   * and only a further command makes it rest.
   */
  lemma {:induction false} ScreenCaptureRunsOn(v: Vdin, answers: seq<Option<int>>)
    requires Paired(v) && v.mode.Once? && v.commands == [] && Has(v.preCmd, PRESENT_CAPSCREEN) && answers != []
    ensures Rounds(v, answers).mode.Always? && Rounds(v, answers).preCmd == 0xFFFF_FFFF
    ensures Captured(v, answers) == Buffers(answers)
  {
    var n := |answers| - 1;
    if n == 0 {
      assert Rounds(v, answers[..0]) == v;
    } else {
      ScreenCaptureRunsOn(v, answers[..n]);
      ContinuousRound(Rounds(v, answers[..n]), answers[n]);
    }
  }

  // ---- continuous capture ----

  /** Every one of these rounds, and the one after them, asks the driver for a buffer. */
  ghost predicate AlwaysAsks(v: Vdin, answers: seq<Option<int>>)
    requires Paired(v) && v.commands == []
  {
    forall n :: 0 <= n <= |answers| ==> Captures(Rounds(v, answers[..n])) && Rounds(v, answers[..n]).mode.Always?
  }

  lemma ContinuousRound(v: Vdin, answer: Option<int>)
    requires Paired(v) && v.mode.Always? && v.commands == []
    ensures Captures(v) && Pass(v, answer).mode.Always? && Pass(v, answer).commands == []
  {
    assert Armed(v) == v.(capCnt := VDIN_CAP_CNT);
  }

  /** In continuous mode, without a further command, the thread never rests and takes whatever the driver gives. */
  lemma {:induction false} ContinuousRunsOn(v: Vdin, answers: seq<Option<int>>)
    requires Paired(v) && v.mode.Always? && v.commands == []
    ensures AlwaysAsks(v, answers) && Captured(v, answers) == Buffers(answers)
  {
    if answers == [] {
      ContinuousRound(v, None);
    } else {
      var n := |answers| - 1;
      ContinuousRunsOn(v, answers[..n]);
      assert answers[..n][..n] == answers[..n];
      ContinuousRound(Rounds(v, answers[..n]), answers[n]);
      ContinuousRound(Rounds(v, answers), None);
      forall k | 0 <= k <= |answers|
        ensures Captures(Rounds(v, answers[..k])) && Rounds(v, answers[..k]).mode.Always?
      {
        if k <= n {
          assert answers[..n][..k] == answers[..k];
        } else {
          assert answers[..k] == answers;
        }
      }
    }
  }

  lemma PresentFacts(v: Vdin, flags: bv32)
    requires Paired(v) && !IsUpdate(flags)
    ensures var w := Present(v, flags);
            && Paired(w) && w.commands != [] && w.commands[|w.commands| - 1] == flags
  {
    UpdatesAppend(v.commands, flags);
  }

  /** The round that takes a sideband command asks the driver already, whatever the mode was. */
  lemma SidebandRound(v: Vdin, answer: Option<int>)
    requires Paired(v) && v.commands != [] && Has(v.commands[0], PRESENT_SIDEBAND)
    ensures Captures(v) && Pass(v, answer).mode.Always?
  {
    assert Obey(v).mode.Always? && Armed(v).capCnt == VDIN_CAP_CNT;
  }

  /**
   * A sideband command, with any other flags and behind any waiting commands, makes the
   * thread capture continuously: the round that takes it asks the driver, so does every
   * round after it until a further command comes, and exactly as many buffers are captured
   * as the driver gives.
   */
  lemma SidebandRunsOn(v: Vdin, flags: bv32, before: seq<Option<int>>, answer: Option<int>, answers: seq<Option<int>>)
    requires Paired(v) && Has(flags, PRESENT_SIDEBAND) && |before| + 1 == |Present(v, flags).commands|
    ensures Paired(Present(v, flags))
    ensures var w := Serve(Present(v, flags), before);
            && Captures(w) && Pass(w, answer).commands == [] && Paired(Pass(w, answer))
            && AlwaysAsks(Pass(w, answer), answers) && Captured(Pass(w, answer), answers) == Buffers(answers)
  {
    PresentFacts(v, flags);
    ServeAll(Present(v, flags), before);
    var w := Serve(Present(v, flags), before);
    assert w.commands == [flags];
    SidebandRound(w, answer);
    PassServes(w, answer);
    PassKeepsPaired(w, answer);
    ContinuousRunsOn(Pass(w, answer), answers);
  }

  /** A screen capture without the sideband or processor flag. */
  predicate IsScreen(cmd: bv32) {
    Has(cmd, PRESENT_CAPSCREEN) && !Has(cmd, PRESENT_SIDEBAND) && !Has(cmd, PRESENT_UPDATE_PROCESSOR)
  }

  lemma ScreenRound(v: Vdin, answer: Option<int>)
    requires Paired(v) && v.commands != [] && IsScreen(v.commands[0])
    ensures var w := Pass(v, answer);
            Captures(v) && w.mode.Once? && w.preCmd == v.commands[0]
  {
    assert Obey(v).mode.Once? && Armed(v).capCnt == VDIN_CAP_CNT;
  }

  /**
   * So does a screen capture, behind any waiting commands: it asks for no particular number
   * of frames, but captures from the round that takes it until a further command comes.
   */
  lemma ScreenCommandRunsOn(v: Vdin, flags: bv32, before: seq<Option<int>>, answer: Option<int>,
                            answers: seq<Option<int>>)
    requires Paired(v) && IsScreen(flags) && |before| + 1 == |Present(v, flags).commands|
    ensures Paired(Present(v, flags))
    ensures var w := Serve(Present(v, flags), before);
            && Captures(w) && Pass(w, answer).commands == [] && Paired(Pass(w, answer))
            && Captured(Pass(w, answer), answers) == Buffers(answers)
            && (answers != [] ==> Rounds(Pass(w, answer), answers).mode.Always?)
  {
    PresentFacts(v, flags);
    ServeAll(Present(v, flags), before);
    var w := Serve(Present(v, flags), before);
    assert w.commands == [flags];
    ScreenRound(w, answer);
    PassServes(w, answer);
    PassKeepsPaired(w, answer);
    if answers != [] { ScreenCaptureRunsOn(Pass(w, answer), answers); }
  }

  // ---- the order in which buffers go round ----

  /** What one pass gives back to the driver, and what it takes from it. */
  function Freed(v: Vdin): seq<int>
    requires Paired(v)
  {
    if Captures(v) then v.queue[..Owed(Armed(v))] else []
  }

  function Taken(v: Vdin, answer: Option<int>): seq<int>
    requires Paired(v)
  {
    if Captures(v) then OptSeq(answer) else []
  }

  /**
   * The captured buffers, the one on screen last, are a line: a pass gives back from its
   * front, never the buffer on screen, and adds what it captures at its end.
   */
  lemma PassKeepsLine(v: Vdin, answer: Option<int>, all: set<int>)
    requires Inv(v, all) && Answers(v, answer)
    ensures var w := Pass(v, answer);
            && Unshown(v) + Taken(v, answer) == Freed(v) + Unshown(w)
            && w.driver == v.driver + Elements(Freed(v)) - Elements(Taken(v, answer))
            && |Freed(v)| <= |v.queue|
  {
    assert Paired(v);
    hide Obey, Inv, Rests, Capture, Owed;
    ArmedKeepsInv(v, all);
    ArmedSame(v, all);
    var a := Armed(v);
    assert Unshown(a) == Unshown(v);
    if Captures(v) {
      TakenIsIndex(a, answer, all);
      CaptureKeepsLine(a, answer);
    } else {
      RestKeepsLine(a, answer);
      assert Elements<int>([]) == {};
    }
  }

  lemma ArmedSame(v: Vdin, all: set<int>)
    requires Inv(v, all)
    ensures Armed(v).queue == v.queue && Armed(v).onScreen == v.onScreen && Armed(v).driver == v.driver
    ensures Owed(Armed(v)) <= |v.queue|
  {
    ArmedFacts(v);
  }

  lemma TakenIsIndex(v: Vdin, answer: Option<int>, all: set<int>)
    requires Inv(v, all) && (answer.Some? ==> answer.value in Requeue(v).driver)
    ensures answer.Some? ==> answer.value >= 0
  {
    RequeueKeepsParted(v, all);
    if answer.Some? { assert answer.value in all; }
  }

  lemma RestKeepsLine(v: Vdin, answer: Option<int>)
    requires v.mode.Idle? || Rests(v)
    ensures Unshown(Capture(v, answer)) == Unshown(v) && Capture(v, answer).driver == v.driver
  {
  }

  lemma RequeueLine(v: Vdin)
    ensures Unshown(v) == v.queue[..Owed(v)] + Unshown(Requeue(v))
    ensures Requeue(v).driver == v.driver + Elements(v.queue[..Owed(v)])
  {
    assert v.queue == v.queue[..Owed(v)] + v.queue[Owed(v)..];
  }

  lemma CaptureKeepsLine(v: Vdin, answer: Option<int>)
    requires !v.mode.Idle? && !Rests(v) && (answer.Some? ==> answer.value >= 0)
    ensures var w, freed := Capture(v, answer), v.queue[..Owed(v)];
            && Unshown(v) + OptSeq(answer) == freed + Unshown(w)
            && w.driver == v.driver + Elements(freed) - Elements(OptSeq(answer))
  {
    hide Requeue, Keep, Rests, Unshown;
    var r, freed := Requeue(v), v.queue[..Owed(v)];
    RequeueLine(v);
    if answer.Some? {
      KeepAppends(r, answer.value);
      assert Elements([answer.value]) == {answer.value};
      assert (freed + Unshown(r)) + [answer.value] == freed + (Unshown(r) + [answer.value]);
    } else {
      assert Elements<int>([]) == {};
      assert Unshown(v) + [] == Unshown(v);
    }
  }

  /** With a processor or without, a captured buffer comes last. */
  lemma KeepAppends(v: Vdin, idx: int)
    requires idx >= 0
    ensures Unshown(Keep(v, idx)) == Unshown(v) + [idx] && Keep(v, idx).driver == v.driver - {idx}
  {
  }

  function StepFreed(v: Vdin, op: Op): seq<int>
    requires Paired(v)
  {
    if op.Round? then Freed(v) else []
  }

  function StepTaken(v: Vdin, op: Op): seq<int>
    requires Paired(v)
  {
    if op.Round? then Taken(v, op.answer) else []
  }

  /** Everything given back, and everything captured, in a run. */
  function AllFreed(states: seq<Vdin>, ops: seq<Op>): seq<int>
    requires |states| == |ops| + 1 && forall k :: 0 <= k < |ops| ==> Paired(states[k])
  {
    if ops == [] then []
    else
      var n := |ops| - 1;
      AllFreed(states[..n + 1], ops[..n]) + StepFreed(states[n], ops[n])
  }

  function AllTaken(states: seq<Vdin>, ops: seq<Op>): seq<int>
    requires |states| == |ops| + 1 && forall k :: 0 <= k < |ops| ==> Paired(states[k])
  {
    if ops == [] then []
    else
      var n := |ops| - 1;
      AllTaken(states[..n + 1], ops[..n]) + StepTaken(states[n], ops[n])
  }

  /**
   * Over any run the buffers go back to the driver in the order in which they were
   * captured, each once, and those captured and not yet given back are the line.
   */
  lemma {:induction false} BuffersGoBackInOrder(states: seq<Vdin>, ops: seq<Op>, all: set<int>)
    requires IsRun(states, ops) && Inv(states[0], all)
    ensures forall k :: 0 <= k < |ops| ==> Paired(states[k])
    ensures Unshown(states[0]) + AllTaken(states, ops) == AllFreed(states, ops) + Unshown(states[|ops|])
  {
    RunsArePaired(states, ops, all);
    if ops != [] {
      hide Inv, Unshown, Freed, Taken, Allowed, Apply;
      var n := |ops| - 1;
      RunFront(states, ops);
      BuffersGoBackInOrder(states[..n + 1], ops[..n], all);
      assert states[..n + 1][n] == states[n];
      StepKeepsLine(states[n], ops[n], states[n + 1], all);
      LinesJoin(Unshown(states[0]), AllTaken(states[..n + 1], ops[..n]), AllFreed(states[..n + 1], ops[..n]),
                Unshown(states[n]), StepTaken(states[n], ops[n]), StepFreed(states[n], ops[n]),
                Unshown(states[n + 1]));
    }
  }

  lemma RunsArePaired(states: seq<Vdin>, ops: seq<Op>, all: set<int>)
    requires IsRun(states, ops) && Inv(states[0], all)
    ensures forall k :: 0 <= k < |states| ==> Inv(states[k], all) && Paired(states[k])
    ensures forall k :: 0 <= k < |ops| ==> Took(states[k], ops[k], states[k + 1])
  {
    EveryRun(states, ops, all);
  }

  lemma RunFront(states: seq<Vdin>, ops: seq<Op>)
    requires IsRun(states, ops) && ops != []
    ensures var n := |ops| - 1; IsRun(states[..n + 1], ops[..n])
  {
    var n := |ops| - 1;
    forall k | 0 <= k < n ensures Took(states[..n + 1][k], ops[..n][k], states[..n + 1][k + 1]) {
      assert Took(states[k], ops[k], states[k + 1]);
    }
  }

  lemma StepKeepsLine(v: Vdin, op: Op, w: Vdin, all: set<int>)
    requires Inv(v, all) && Took(v, op, w)
    ensures Unshown(v) + StepTaken(v, op) == StepFreed(v, op) + Unshown(w)
  {
    if op.Round? {
      PassKeepsLine(v, op.answer, all);
    } else {
      assert w.queue == v.queue && w.onScreen == v.onScreen;
    }
  }

  lemma LinesJoin(line0: seq<int>, taken: seq<int>, freed: seq<int>, line1: seq<int>, t: seq<int>, f: seq<int>,
                  line2: seq<int>)
    requires line0 + taken == freed + line1 && line1 + t == f + line2
    ensures line0 + (taken + t) == (freed + f) + line2
  {
    assert line0 + (taken + t) == (line0 + taken) + t == (freed + line1) + t == freed + (line1 + t);
  }

  // ---- which processor is in force ----

  lemma PassLeavesCommands(v: Vdin, answer: Option<int>)
    requires Paired(v)
    ensures var w, o := Pass(v, answer), Obey(v);
            w.commands == o.commands && w.requests == o.requests && w.processor == o.processor
  {
    CaptureLeavesCommands(Obey(v), answer);
  }

  lemma KeepLeavesCommands(v: Vdin, idx: int)
    ensures var w := Keep(Requeue(v), idx);
            w.commands == v.commands && w.requests == v.requests && w.processor == v.processor
  {
  }

  lemma CaptureLeavesCommands(o: Vdin, answer: Option<int>)
    ensures var w := Capture(Arm(o), answer);
            w.commands == o.commands && w.requests == o.requests && w.processor == o.processor
  {
    hide Keep, Rests;
    if answer.Some? { KeepLeavesCommands(Arm(o), answer.value); }
  }

  lemma ObeyServes(v: Vdin)
    requires Paired(v) && v.commands != []
    ensures var w, u := Obey(v), if IsUpdate(v.commands[0]) then 1 else 0;
            && w.commands == v.commands[1..] && w.requests == v.requests[u..]
            && w.processor == if u == 0 then v.processor else v.requests[0]
  {
  }

  /** One round takes one command, and puts the oldest requested processor in force if it is an update. */
  lemma PassServes(v: Vdin, answer: Option<int>)
    requires Paired(v) && v.commands != []
    ensures var w, u := Pass(v, answer), if IsUpdate(v.commands[0]) then 1 else 0;
            && w.commands == v.commands[1..] && w.requests == v.requests[u..]
            && w.processor == if u == 0 then v.processor else v.requests[0]
  {
    PassLeavesCommands(v, answer);
    ObeyServes(v);
  }

  lemma PassKeepsPaired(v: Vdin, answer: Option<int>)
    requires Paired(v)
    ensures Paired(Pass(v, answer))
  {
    if v.commands == [] { PassLeavesCommands(v, answer); } else { PassServes(v, answer); }
  }

  /** Rounds in a row, commands waiting or not. */
  function Serve(v: Vdin, answers: seq<Option<int>>): (w: Vdin)
    requires Paired(v)
    ensures Paired(w)
  {
    if answers == [] then v
    else
      var before, last := Serve(v, answers[..|answers| - 1]), answers[|answers| - 1];
      PassKeepsPaired(before, last);
      Pass(before, last)
  }

  /** The processor in force once the first n waiting commands have been obeyed. */
  function InForce(v: Vdin, n: nat): Option<nat>
    requires n <= |v.requests|
  {
    if n == 0 then v.processor else v.requests[n - 1]
  }

  lemma {:induction false} UpdatesSplit(commands: seq<bv32>, n: nat)
    requires n < |commands|
    ensures Updates(commands[..n + 1]) == Updates(commands[..n]) + if IsUpdate(commands[n]) then 1 else 0
    ensures Updates(commands[..n + 1]) <= Updates(commands)
  {
    assert commands[..n + 1] == commands[..n] + [commands[n]];
    UpdatesAppend(commands[..n], commands[n]);
    UpdatesPrefix(commands, n + 1);
  }

  lemma {:induction false} UpdatesPrefix(commands: seq<bv32>, n: nat)
    requires n <= |commands|
    ensures Updates(commands[..n]) <= Updates(commands)
  {
    if n > 0 {
      assert commands[..n][1..] == commands[1..][..n - 1];
      UpdatesPrefix(commands[1..], n - 1);
    }
  }

  /** As many rounds as there are commands waiting obey them all, whatever the driver answers. */
  lemma {:induction false} ServeAll(v: Vdin, answers: seq<Option<int>>)
    requires Paired(v) && |answers| <= |v.commands|
    ensures var n := |answers|; var u := Updates(v.commands[..n]); var w := Serve(v, answers);
            && u <= |v.requests| && w.commands == v.commands[n..] && w.requests == v.requests[u..]
            && w.processor == InForce(v, u)
  {
    if answers != [] {
      var n := |answers| - 1;
      ServeAll(v, answers[..n]);
      UpdatesSplit(v.commands, n);
      var w := Serve(v, answers[..n]);
      assert w.commands[0] == v.commands[n];
      PassServes(w, answers[n]);
    } else {
      assert v.commands[..0] == [];
    }
  }

  /** Requests that no waiting command will serve. */
  function Surplus(v: Vdin): int {
    |v.requests| - Updates(v.commands)
  }

  lemma AskFacts(v: Vdin, processor: Option<nat>)
    requires Paired(v)
    ensures var w := Ask(v, processor);
            && Paired(w) && |w.commands| == |v.commands| + 1 && Updates(w.commands) == Updates(v.commands) + 1
            && w.requests == v.requests + [processor]
  {
    UpdatesAppend(v.commands, PRESENT_UPDATE_PROCESSOR);
  }

  /**
   * A processor asked for while the post-processor is started is in force, once every
   * command waiting then has been obeyed, exactly when there are no more requests than
   * update commands, or the request that the new command serves is for the same processor.
   */
  lemma AskTakesEffectIff(v: Vdin, processor: Option<nat>, answers: seq<Option<int>>)
    requires Paired(v) && |answers| == |v.commands| + 1
    ensures Paired(Ask(v, processor)) && Serve(Ask(v, processor), answers).commands == []
    ensures Serve(Ask(v, processor), answers).processor == processor
       <==> Surplus(v) == 0 || v.requests[Updates(v.commands)] == processor
  {
    AskFacts(v, processor);
    var w := Ask(v, processor);
    ServeAll(w, answers);
    assert w.commands[..|answers|] == w.commands;
  }

  /**
   * While started, nothing changes the surplus: every command and round, and every further request,
   * leaves it as it is.
   */
  lemma StepKeepsSurplus(v: Vdin, op: Op)
    requires Paired(v) && Allowed(v, op)
    ensures Surplus(Apply(v, op)) == Surplus(v) && Paired(Apply(v, op))
  {
    match op
    case Command(flags) => UpdatesAppend(v.commands, flags);
    case Processor(p) => UpdatesAppend(v.commands, PRESENT_UPDATE_PROCESSOR);
    case Round(answer) =>
      if v.commands != [] { PassServes(v, answer); }
  }

  lemma {:induction false} RunKeepsSurplus(states: seq<Vdin>, ops: seq<Op>)
    requires IsRun(states, ops) && Paired(states[0])
    ensures Surplus(states[|ops|]) == Surplus(states[0]) && Paired(states[|ops|])
  {
    if ops != [] {
      var n := |ops| - 1;
      assert IsRun(states[..n + 1], ops[..n]) by {
        forall k | 0 <= k < n ensures Took(states[..n + 1][k], ops[..n][k], states[..n + 1][k + 1]) {
          assert Took(states[k], ops[k], states[k + 1]);
        }
      }
      RunKeepsSurplus(states[..n + 1], ops[..n]);
      assert Took(states[n], ops[n], states[n + 1]);
      StepKeepsSurplus(states[n], ops[n]);
    }
  }

  /** A call while stopped adds one to the surplus. */
  lemma AskStoppedAddsSurplus(v: Vdin, processor: Option<nat>)
    ensures Surplus(AskStopped(v, processor)) == Surplus(v) + 1
  {
  }

  function AskAllStopped(v: Vdin, processors: seq<Option<nat>>): Vdin {
    if processors == [] then v
    else AskStopped(AskAllStopped(v, processors[..|processors| - 1]), processors[|processors| - 1])
  }

  lemma {:induction false} AskAllStoppedFacts(v: Vdin, processors: seq<Option<nat>>)
    ensures var w := AskAllStopped(v, processors);
            && Surplus(w) == Surplus(v) + |processors|
            && w == v.(requests := w.requests, processor := w.processor)
            && w.processor == if processors == [] then v.processor else processors[|processors| - 1]
  {
    if processors != [] {
      AskAllStoppedFacts(v, processors[..|processors| - 1]);
      AskStoppedAddsSurplus(AskAllStopped(v, processors[..|processors| - 1]), processors[|processors| - 1]);
    }
  }

  /** A stop, any requests while it is stopped, and a new start up to the thread. */
  function Restarted(v: Vdin, processors: seq<Option<nat>>): Vdin {
    Started(AskAllStopped(Stopped(VdinStopped(v)), processors))
  }

  /**
   * After a stop, any requests while it is stopped, and a new start, from any state: the
   * last request is in force, and every one of the requests has become surplus.
   */
  lemma RestartFacts(v: Vdin, processors: seq<Option<nat>>)
    ensures var w := Restarted(v, processors);
            && w.queue == [] && w.driver == {} && w.capCnt == v.capCnt && w.commands == [] && w.mode.Idle?
            && Surplus(w) == |processors|
            && w.processor == if processors == [] then None else processors[|processors| - 1]
  {
    AskAllStoppedFacts(Stopped(VdinStopped(v)), processors);
  }

  /** And with the thread's own start all buffers are with the driver again. */
  lemma RestartIsInv(v: Vdin, processors: seq<Option<nat>>)
    requires 0 <= v.capCnt <= VDIN_CAP_CNT
    ensures Inv(VdinStarted(Restarted(v, processors)), FirstBuffers(VDIN_BUF_CNT))
  {
    RestartFacts(v, processors);
    VdinStartIsInv(Restarted(v, processors));
  }

  function AskAll(v: Vdin, processors: seq<Option<nat>>): Vdin {
    if processors == [] then v else Ask(AskAll(v, processors[..|processors| - 1]), processors[|processors| - 1])
  }

  lemma {:induction false} AskAllFacts(v: Vdin, processors: seq<Option<nat>>)
    requires Paired(v)
    ensures var w := AskAll(v, processors);
            && Paired(w) && w.requests == v.requests + processors && |w.commands| == |v.commands| + |processors|
            && Updates(w.commands) == Updates(v.commands) + |processors| && w.processor == v.processor
  {
    if processors != [] {
      var n := |processors| - 1;
      AskAllFacts(v, processors[..n]);
      UpdatesAppend(AskAll(v, processors[..n]).commands, PRESENT_UPDATE_PROCESSOR);
      assert processors == processors[..n] + [processors[n]];
    }
  }

  /**
   * With a surplus of k, requests are served k late until the next stop: after any number of further
   * requests, and once all commands have been obeyed, the processor in force is the one
   * asked for k requests before the last.
   */
  lemma ServedLate(v: Vdin, processors: seq<Option<nat>>, answers: seq<Option<int>>)
    requires Paired(v) && processors != [] && |answers| == |v.commands| + |processors|
    ensures Paired(AskAll(v, processors))
    ensures var all := v.requests + processors;
            Serve(AskAll(v, processors), answers).processor == all[|all| - 1 - Surplus(v)]
  {
    var w := AskAll(v, processors);
    AskAllFacts(v, processors);
    assert w.commands[..|answers|] == w.commands;
    ServeAll(w, answers);
  }
}
