/**
 * What one pass of the vdin capture thread does (postprocessor/VdinPostProcessor.cpp).
 * Six buffers go round between the vdin driver, a queue of captured buffers and the one
 * buffer that is on screen.
 */
module VdinSpec {
  import opened VideoTunnelTypes

  const VDIN_BUF_CNT := 6
  const VDIN_CAP_CNT := VDIN_BUF_CNT - 1

  const PRESENT_BLANK: bv32 := 1
  const PRESENT_SIDEBAND: bv32 := 2
  const PRESENT_CAPSCREEN: bv32 := 4
  const PRESENT_UPDATE_PROCESSOR: bv32 := 0x2_0000

  datatype Mode = Once | Always | Blank | Idle

  /**
   * `processor` is the processor in force, `requests` the processors still to be put in
   * force, `preCmd` the last command taken (-1 as its bits when it has been forgotten).
   */
  datatype Vdin = Vdin(
    queue: seq<int>, onScreen: int, driver: set<int>,
    mode: Mode, capCnt: int, preCmd: bv32,
    commands: seq<bv32>, processor: Option<nat>, requests: seq<Option<nat>>)

  predicate Has(cmd: bv32, flag: bv32) {
    cmd & flag != 0
  }

  predicate IsUpdate(cmd: bv32) {
    !Has(cmd, PRESENT_SIDEBAND) && Has(cmd, PRESENT_UPDATE_PROCESSOR)
  }

  /** A request to capture a few frames and then rest: a blank, or a present with no flag. */
  predicate IsOnce(cmd: bv32) {
    && !Has(cmd, PRESENT_SIDEBAND) && !Has(cmd, PRESENT_UPDATE_PROCESSOR) && !Has(cmd, PRESENT_CAPSCREEN)
    && (Has(cmd, PRESENT_BLANK) || cmd == 0)
  }

  function Updates(commands: seq<bv32>): nat {
    if commands == [] then 0
    else Updates(commands[1..]) + if IsUpdate(commands[0]) then 1 else 0
  }

  /** Every update command has a processor waiting for it, so that `front()` is defined. */
  predicate Paired(v: Vdin) {
    Updates(v.commands) <= |v.requests|
  }

  /** Take the next command, or notice that there is none. */
  function Obey(v: Vdin): Vdin
    requires Paired(v)
  {
    if v.commands == [] then
      if v.mode.Once? && Has(v.preCmd, PRESENT_CAPSCREEN) then v.(mode := Always, preCmd := 0xFFFF_FFFF) else v
    else
      var cmd := v.commands[0];
      var w := v.(commands := v.commands[1..], preCmd := cmd);
      if Has(cmd, PRESENT_SIDEBAND) then w.(mode := Always)
      else if Has(cmd, PRESENT_UPDATE_PROCESSOR) then w.(processor := v.requests[0], requests := v.requests[1..])
      else if Has(cmd, PRESENT_CAPSCREEN) || Has(cmd, PRESENT_BLANK) || cmd == 0
      then w.(mode := Once, capCnt := VDIN_CAP_CNT)
      else w
  }

  /** In continuous mode captures are always owed. */
  function Arm(v: Vdin): Vdin {
    if v.mode.Always? then v.(capCnt := VDIN_CAP_CNT) else v
  }

  function Armed(v: Vdin): Vdin
    requires Paired(v)
  {
    Arm(Obey(v))
  }

  function OnScreen(v: Vdin): set<int> {
    if v.onScreen >= 0 then {v.onScreen} else {}
  }

  /** All buffers but one are captured and no capture is owed. */
  predicate Rests(v: Vdin) {
    v.capCnt <= 0 && |v.queue| + |OnScreen(v)| == VDIN_CAP_CNT
  }

  /** How many captured buffers go back to the driver. */
  function Owed(v: Vdin): nat {
    if v.capCnt <= 0 then 0 else if v.capCnt <= |v.queue| then v.capCnt else |v.queue|
  }

  /** The buffers 0 to n - 1. */
  function FirstBuffers(n: nat): set<int> {
    if n == 0 then {} else FirstBuffers(n - 1) + {n - 1}
  }

  function Requeue(v: Vdin): Vdin {
    var n := Owed(v);
    v.(queue := v.queue[n..], driver := v.driver + Elements(v.queue[..n]), capCnt := v.capCnt - n)
  }

  /** A captured buffer is processed and queued, or goes on screen; the one it replaces is queued. */
  function Keep(v: Vdin, idx: int): Vdin {
    var queue := v.queue + if v.onScreen >= 0 then [v.onScreen] else [];
    if v.processor.Some?
    then v.(queue := queue + [idx], onScreen := if v.onScreen >= 0 then -1 else v.onScreen, driver := v.driver - {idx})
    else v.(queue := queue, onScreen := idx, driver := v.driver - {idx})
  }

  /** This pass asks the driver for a captured buffer. */
  predicate Captures(v: Vdin)
    requires Paired(v)
  {
    !Obey(v).mode.Idle? && !Rests(Armed(v))
  }

  /** The driver answers only with a buffer it holds. */
  predicate Answers(v: Vdin, answer: Option<int>)
    requires Paired(v)
  {
    Captures(v) && answer.Some? ==> answer.value in Requeue(Armed(v)).driver
  }

  /** A pass once the command has been taken. */
  function Capture(w: Vdin, answer: Option<int>): Vdin {
    if w.mode.Idle? then w
    else if Rests(w) then if w.mode.Once? then w.(mode := Idle) else w
    else if answer.Some? then Keep(Requeue(w), answer.value)
    else Requeue(w)
  }

  /** `process`. `answer` is what `dequeueBuffer` gives: a buffer index, or nothing. */
  function Pass(v: Vdin, answer: Option<int>): Vdin
    requires Paired(v)
  {
    Capture(Armed(v), answer)
  }

  /** `present`: a command is not queued behind an equal one. */
  function Present(v: Vdin, flags: bv32): Vdin {
    if v.commands == [] || v.commands[|v.commands| - 1] != flags then v.(commands := v.commands + [flags]) else v
  }

  /** `setFbProcessor` while the post-processor is started. */
  function Ask(v: Vdin, processor: Option<nat>): Vdin {
    v.(commands := v.commands + [PRESENT_UPDATE_PROCESSOR], requests := v.requests + [processor])
  }

  /** `setFbProcessor` while it is stopped: the processor is set at once, and a null request is left behind. */
  function AskStopped(v: Vdin, processor: Option<nat>): Vdin {
    v.(processor := processor, requests := v.requests + [None])
  }

  /** `start`, and `startVdin` at the beginning of the thread. */
  function Started(v: Vdin): Vdin {
    v.(mode := Idle)
  }

  function VdinStarted(v: Vdin): Vdin {
    v.(onScreen := -1, driver := v.driver + FirstBuffers(VDIN_BUF_CNT))
  }

  /** `stopVdin` at the end of the thread, and the rest of `stop`. */
  function VdinStopped(v: Vdin): Vdin {
    v.(queue := [], onScreen := -1, driver := {})
  }

  function Stopped(v: Vdin): Vdin {
    v.(commands := [], requests := [], processor := None)
  }
}
