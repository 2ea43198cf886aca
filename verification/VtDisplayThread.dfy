/**
 * The video-tunnel display thread (hwc2/VtDisplayThread.cpp): one vsync's work, repeated
 * while a game-mode layer still has frames queued. The loop is shown to end.
 */
module DisplayThread {
  import opened VideoTunnelTypes
  import opened DrmSync
  import opened LayerSpec
  import opened TunnelLayer
  import LayerRuns
  import LateFrames

  /**
   * What presenting does to one layer: a pending command may be handled, then a fence and a
   * processed buffer attached.
   */
  datatype Presentation = Presentation(interrupted: bool, colourFd: int, diFd: int, fence: Option<Fence>)

  function Present(l: Layer, p: Presentation): Layer {
    var l' := if p.interrupted then Interrupt(l, p.colourFd).layer else l;
    l'.(diFd := p.diFd, fences := l'.fences.(cur := p.fence))
  }

  function Round(l: Layer, ns: int, shown: bool, p: Presentation): Layer {
    var updated := Update(SetPresentTime(l, ns)).layer;
    Release(if shown then Present(updated, p) else updated).layer
  }

  predicate HasGameBuffer(l: Layer) {
    l.link.isVt && l.clock.gameMode && l.queue != []
  }

  /** Rounds a layer can still cause: one a frame, and one more for a pending COLOR_DISABLE. */
  function Work(l: Layer): nat {
    if HasGameBuffer(l) then |l.queue| + (if l.status == ColorDisable then 1 else 0) else 0
  }

  function GameFrames(l: Layer): nat {
    if HasGameBuffer(l) then |l.queue| else 0
  }

  /**
   * Rounds a layer causes when its command is handled in each: SHOW works the queue off,
   * COLOR_DISABLE spends one round on freeing a colour buffer, any other command clears the queue.
   */
  function Cost(l: Layer): nat {
    if !HasGameBuffer(l) then 0
    else
      match l.status
      case Show => |l.queue|
      case ColorDisable => |l.queue| + if l.colour.fd >= 0 then 1 else 0
      case _ => 1
  }

  lemma UpdateInGameMode(l: Layer, ns: int)
    requires Wf(l) && l.link.isVt && l.clock.gameMode && l.queue != []
    ensures var u := Update(SetPresentTime(l, ns)).layer;
            && Wf(u) && u.queue == l.queue && u.cur == Some(l.queue[0]) && u.vtUpdate && u.status == l.status
            && u.link.isVt && u.link.connected && u.clock.gameMode && u.colour == l.colour
  {
    var t := SetPresentTime(l, ns);
    LateFrames.GameModeDropsNothing(t, t.queue);
    UpdateKeepsWf(t);
  }

  lemma FlushEffect(l: Layer, keepLast: bool)
    requires Wf(l)
    ensures var f := Flush(l, false, keepLast).layer;
            && f.link.isVt == l.link.isVt && f.clock == l.clock && f.status == l.status && |f.queue| <= |l.queue|
            && (l.link.isVt && l.link.connected ==> f.queue == [])
  {
  }

  /** What a command does to queue, mode and status. */
  ghost predicate CommandEffect(u: Layer, h: Layer) {
    && h.link.isVt == u.link.isVt && h.clock == u.clock && |h.queue| <= |u.queue| && h.status != ColorDisable
    && (u.link.isVt && u.link.connected && u.status != ColorDisable && u.status != Show ==> h.queue == [])
    && (u.status == ColorDisable ==> h.status == Show && h.queue == u.queue && h.cur == u.cur)
    && (u.status == Show ==> h == u)
  }

  lemma FlushingStatusEffect(u: Layer)
    requires Wf(u) && u.status != ColorDisable && u.status != Show
    ensures CommandEffect(u, HandleStatus(u).layer)
  {
    hide Flush;
    FlushEffect(u, u.status == HoldFrame);
    if u.status == Blank || u.status == ColorOnce { FlushEffect(u.(status := Show), false); }
  }

  lemma StatusEffect(u: Layer)
    requires Wf(u)
    ensures CommandEffect(u, HandleStatus(u).layer)
  {
    if u.status != ColorDisable && u.status != Show { FlushingStatusEffect(u); }
  }

  /** Showing the colour buffer changes neither queue, mode nor status. */
  lemma InterruptEffect(u: Layer, fd: int)
    requires u.link.isVt
    ensures var h, i := HandleStatus(u).layer, Interrupt(u, fd).layer;
            && i.link == h.link && i.clock == h.clock && i.queue == h.queue && i.cur == h.cur && i.status == h.status
            && (BufferFd(h) >= 0 ==> i == h)
  {
  }

  /** A command handled while game frames are queued either clears the queue or was COLOR_DISABLE. */
  lemma InterruptInGameMode(u: Layer, fd: int)
    requires Wf(u) && u.link.isVt && u.link.connected && u.clock.gameMode && u.vtUpdate && u.cur.Some?
    ensures var i := Interrupt(u, fd).layer;
            && i.link.isVt && i.clock == u.clock && i.status != ColorDisable
            && (i.queue == [] || (i.queue == u.queue && i.cur == u.cur && i.status == Show
                                  && (u.status == ColorDisable || (u.status == Show && i.vtUpdate))))
  {
    StatusEffect(u);
    InterruptEffect(u, fd);
  }

  /**
   * One round costs every game-mode layer with frames some of its work: the queue is
   * cleared or loses a frame, except that a pending COLOR_DISABLE may take the round.
   */
  lemma RoundShrinks(l: Layer, ns: int, shown: bool, p: Presentation)
    requires Wf(l) && HasGameBuffer(l)
    ensures var r := Round(l, ns, shown, p);
            && Work(r) < Work(l)
            && (|r.queue| < |l.queue| || (shown && p.interrupted && l.status == ColorDisable && r.status == Show
                                          && r.queue == l.queue))
  {
    var u := Update(SetPresentTime(l, ns)).layer;
    UpdateInGameMode(l, ns);
    var i := if shown then Present(u, p) else u;
    PresentInGameMode(u, shown, p);
    ReleaseInGameMode(i);
  }

  lemma PresentInGameMode(u: Layer, shown: bool, p: Presentation)
    requires Wf(u) && u.link.isVt && u.link.connected && u.clock.gameMode && u.vtUpdate && u.cur.Some?
    ensures var i := if shown then Present(u, p) else u;
            && Wf(i) && i.link.isVt && i.clock == u.clock && (i.status == ColorDisable ==> u.status == ColorDisable)
            && (i.queue == []
                || (i.queue == u.queue && i.cur == u.cur && i.vtUpdate)
                || (i.queue == u.queue && i.cur == u.cur && shown && p.interrupted
                    && u.status == ColorDisable && i.status == Show))
  {
    if shown && p.interrupted {
      var _ := LayerRuns.InterruptSheds(u, p.colourFd);
      InterruptInGameMode(u, p.colourFd);
    }
  }

  lemma ReleaseInGameMode(l: Layer)
    requires Wf(l) && l.link.isVt && l.clock.gameMode && (l.queue != [] ==> l.cur.Some?)
    ensures var r := Release(l).layer;
            && r.status == l.status && r.link == l.link && r.clock == l.clock
            && r.queue == if l.vtUpdate && l.queue != [] then l.queue[1..] else l.queue
  {
  }

  /** What a round's presentation can change about mode, status and queue length. */
  lemma PresentEffect(u: Layer, p: Presentation)
    requires Wf(u)
    ensures var i := Present(u, p);
            && Wf(i) && i.link.isVt == u.link.isVt && i.clock == u.clock && |i.queue| <= |u.queue|
            && (i.status == ColorDisable ==> u.status == ColorDisable)
  {
    if p.interrupted && u.link.isVt {
      var _ := LayerRuns.InterruptSheds(u, p.colourFd);
      StatusEffect(u);
      InterruptEffect(u, p.colourFd);
    }
  }

  lemma UpdateEffect(l: Layer)
    requires Wf(l)
    ensures var u := Update(l).layer;
            Wf(u) && u.link.isVt == l.link.isVt && u.clock == l.clock && |u.queue| <= |l.queue| && u.status == l.status
  {
    UpdateKeepsWf(l);
    if l.queue != [] { ExpiredCountBound(l, l.queue); }
  }

  lemma ReleaseEffect(l: Layer)
    requires Wf(l)
    ensures var r := Release(l).layer;
            Wf(r) && r.link.isVt == l.link.isVt && r.clock == l.clock && |r.queue| <= |l.queue| && r.status == l.status
  {
  }

  /** No round makes work for a layer. */
  lemma RoundAddsNothing(l: Layer, ns: int, shown: bool, p: Presentation)
    requires Wf(l)
    ensures Wf(Round(l, ns, shown, p)) && Work(Round(l, ns, shown, p)) <= Work(l)
  {
    var u := Update(SetPresentTime(l, ns)).layer;
    UpdateEffect(SetPresentTime(l, ns));
    PresentEffect(u, p);
    ReleaseEffect(if shown then Present(u, p) else u);
  }

  // ---- the thread ----

  ghost predicate LayersValid(layers: seq<Hwc2Layer>)
    reads layers
  {
    Distinct(layers) && forall i :: 0 <= i < |layers| ==> layers[i].Valid()
  }

  ghost function Views(layers: seq<Hwc2Layer>): (v: seq<Layer>)
    reads layers
    ensures |v| == |layers| && forall i :: 0 <= i < |v| ==> v[i] == layers[i].View()
  {
    if layers == [] then [] else Views(layers[..|layers| - 1]) + [layers[|layers| - 1].View()]
  }

  ghost predicate AnyGameBuffer(v: seq<Layer>) {
    exists i :: 0 <= i < |v| && HasGameBuffer(v[i])
  }

  function AtLeastOne(n: nat): nat {
    if n == 0 then 1 else n
  }

  function Below(n: nat): nat {
    if n == 0 then 0 else n - 1
  }

  function MaxOf(s: seq<nat>): (m: nat)
    ensures forall i :: 0 <= i < |s| ==> s[i] <= m
    ensures m == 0 || m in s
  {
    if s == [] then 0
    else
      var m := MaxOf(s[..|s| - 1]);
      if m < s[|s| - 1] then s[|s| - 1] else m
  }

  lemma MaxShrinks(s: seq<nat>, t: seq<nat>)
    requires |s| == |t| && forall i :: 0 <= i < |s| ==> t[i] < s[i] || t[i] == 0
    ensures MaxOf(t) < MaxOf(s) || MaxOf(t) == 0
  {
  }

  lemma MaxStepsDown(s: seq<nat>, t: seq<nat>)
    requires |s| == |t| && forall i :: 0 <= i < |s| ==> t[i] == Below(s[i])
    ensures MaxOf(t) == Below(MaxOf(s))
  {
    if MaxOf(s) > 0 {
      var i :| 0 <= i < |s| && s[i] == MaxOf(s);
      assert t[i] == MaxOf(s) - 1;
    }
  }

  function Works(v: seq<Layer>): (w: seq<nat>)
    ensures |w| == |v| && forall i :: 0 <= i < |v| ==> w[i] == Work(v[i])
  {
    seq(|v|, i requires 0 <= i < |v| => Work(v[i]))
  }

  function Costs(v: seq<Layer>): (c: seq<nat>)
    ensures |c| == |v| && forall i :: 0 <= i < |v| ==> c[i] == Cost(v[i])
  {
    seq(|v|, i requires 0 <= i < |v| => Cost(v[i]))
  }

  function AllFrames(v: seq<Layer>): (f: seq<nat>)
    ensures |f| == |v| && forall i :: 0 <= i < |v| ==> f[i] == GameFrames(v[i])
  {
    seq(|v|, i requires 0 <= i < |v| => GameFrames(v[i]))
  }

  /** What there is still to do: the layer with most of it decides, as all work off their queues side by side. */
  datatype Left = Left(work: nat, frames: nat, cost: nat)

  function LeftOf(v: seq<Layer>): Left {
    Left(MaxOf(Works(v)), MaxOf(AllFrames(v)), MaxOf(Costs(v)))
  }

  lemma LeftIsPositiveIff(v: seq<Layer>)
    ensures var left := LeftOf(v);
            && (left.work > 0 <==> AnyGameBuffer(v)) && (left.frames > 0 <==> AnyGameBuffer(v))
            && (left.cost > 0 <==> AnyGameBuffer(v))
  {
    if AnyGameBuffer(v) {
      var i :| 0 <= i < |v| && HasGameBuffer(v[i]);
      assert Works(v)[i] > 0 && AllFrames(v)[i] > 0 && Costs(v)[i] > 0;
    }
  }

  /** A round in which no command is handled takes exactly one frame from each game-mode queue. */
  lemma UninterruptedRound(l: Layer, ns: int, shown: bool, p: Presentation)
    requires Wf(l) && !(shown && p.interrupted)
    ensures GameFrames(Round(l, ns, shown, p)) == Below(GameFrames(l))
  {
    var u := Update(SetPresentTime(l, ns)).layer;
    if HasGameBuffer(l) {
      UpdateInGameMode(l, ns);
      ReleaseInGameMode(if shown then Present(u, p) else u);
    } else {
      RoundAddsNothing(l, ns, shown, p);
    }
  }

  /** What handling a command leaves of a queue whose head is new and due. */
  lemma InterruptExactly(u: Layer, fd: int)
    requires Wf(u) && u.link.isVt && u.link.connected && u.clock.gameMode && u.vtUpdate && u.cur.Some?
    ensures var i := Interrupt(u, fd).layer;
            && i.link.isVt && i.clock == u.clock
            && (u.status == Show ==> i == u)
            && (u.status == ColorDisable ==>
                  i.status == Show && i.queue == u.queue && i.cur == u.cur && i.vtUpdate == (u.colour.fd < 0))
            && (u.status != Show && u.status != ColorDisable ==> i.queue == [])
  {
    StatusEffect(u);
    InterruptEffect(u, fd);
  }

  /** A round that handles the layer's command brings it exactly one round closer to the end. */
  lemma InterruptedRound(l: Layer, ns: int, p: Presentation)
    requires Wf(l) && p.interrupted
    ensures Cost(Round(l, ns, true, p)) == Below(Cost(l))
  {
    hide Update, Release, SetPresentTime;
    var u := Update(SetPresentTime(l, ns)).layer;
    if HasGameBuffer(l) {
      UpdateInGameMode(l, ns);
      InterruptExactly(u, p.colourFd);
      ReleaseInGameMode(Present(u, p));
    } else {
      RoundAddsNothing(l, ns, true, p);
    }
  }

  /** What the compositions do in one round, layer by layer; nothing is assumed about it. */
  type Plan = nat -> Presentation

  lemma RoundShrinksWork(l: Layer, ns: int, shown: bool, p: Presentation)
    requires Wf(l)
    ensures Work(Round(l, ns, shown, p)) < Work(l) || Work(Round(l, ns, shown, p)) == 0
  {
    RoundAddsNothing(l, ns, shown, p);
    if HasGameBuffer(l) { RoundShrinks(l, ns, shown, p); }
  }

  /** v' is v after a round. */
  ghost predicate Rounded(v: seq<Layer>, v': seq<Layer>, ns: int, displayed: bool, plan: Plan) {
    |v| == |v'| && forall i :: 0 <= i < |v| ==> Wf(v[i]) && v'[i] == Round(v[i], ns, displayed, plan(i))
  }

  /** No command is handled in this round, or every layer's is. */
  ghost predicate NoneHandled(displayed: bool, plan: Plan) {
    displayed ==> forall i :: !plan(i).interrupted
  }

  ghost predicate AllHandled(displayed: bool, plan: Plan) {
    displayed && forall i :: plan(i).interrupted
  }

  lemma RoundShrinksMaxWork(v: seq<Layer>, v': seq<Layer>, ns: int, displayed: bool, plan: Plan)
    requires Rounded(v, v', ns, displayed, plan)
    ensures MaxOf(Works(v')) < MaxOf(Works(v)) || MaxOf(Works(v')) == 0
  {
    forall i | 0 <= i < |v| ensures Works(v')[i] < Works(v)[i] || Works(v')[i] == 0 {
      RoundShrinksWork(v[i], ns, displayed, plan(i));
    }
    MaxShrinks(Works(v), Works(v'));
  }

  lemma RoundTakesOne(v: seq<Layer>, v': seq<Layer>, ns: int, displayed: bool, plan: Plan)
    requires Rounded(v, v', ns, displayed, plan) && NoneHandled(displayed, plan)
    ensures MaxOf(AllFrames(v')) == Below(MaxOf(AllFrames(v)))
  {
    forall i | 0 <= i < |v| ensures AllFrames(v')[i] == Below(AllFrames(v)[i]) {
      UninterruptedRound(v[i], ns, displayed, plan(i));
    }
    MaxStepsDown(AllFrames(v), AllFrames(v'));
  }

  lemma RoundCostsOne(v: seq<Layer>, v': seq<Layer>, ns: int, displayed: bool, plan: Plan)
    requires Rounded(v, v', ns, displayed, plan) && AllHandled(displayed, plan)
    ensures MaxOf(Costs(v')) == Below(MaxOf(Costs(v)))
  {
    forall i | 0 <= i < |v| ensures Costs(v')[i] == Below(Costs(v)[i]) {
      InterruptedRound(v[i], ns, plan(i));
    }
    MaxStepsDown(Costs(v), Costs(v'));
  }

  /** What a round does to the work that is left. */
  lemma RoundsShrink(v: seq<Layer>, v': seq<Layer>, ns: int, displayed: bool, plan: Plan)
    requires Rounded(v, v', ns, displayed, plan)
    ensures LeftOf(v').work < LeftOf(v).work || LeftOf(v').work == 0
    ensures NoneHandled(displayed, plan) ==> LeftOf(v').frames == Below(LeftOf(v).frames)
    ensures AllHandled(displayed, plan) ==> LeftOf(v').cost == Below(LeftOf(v).cost)
  {
    RoundShrinksMaxWork(v, v', ns, displayed, plan);
    if NoneHandled(displayed, plan) { RoundTakesOne(v, v', ns, displayed, plan); }
    if AllHandled(displayed, plan) { RoundCostsOne(v, v', ns, displayed, plan); }
  }

  class VtDisplayThread {

    /** `setVtLayersPresentTime` and `updateVtBuffers`: both on every layer. */
    static method UpdateLayers(layers: seq<Hwc2Layer>, ns: int)
      requires LayersValid(layers)
      modifies layers
      ensures LayersValid(layers)
      ensures forall i :: 0 <= i < |layers| ==>
                layers[i].View() == Update(SetPresentTime(old(layers[i].View()), ns)).layer
    {
      SetTimes(layers, ns);
      UpdateEach(layers);
    }

    static method UpdateEach(layers: seq<Hwc2Layer>)
      requires LayersValid(layers)
      modifies layers
      ensures LayersValid(layers)
      ensures forall i :: 0 <= i < |layers| ==> layers[i].View() == Update(old(layers[i].View())).layer
    {
      hide Update;
      var k := 0;
      while k < |layers|
        invariant 0 <= k <= |layers| && LayersValid(layers)
        invariant forall i :: 0 <= i < k ==> layers[i].View() == Update(old(layers[i].View())).layer
        invariant forall i :: k <= i < |layers| ==> layers[i].View() == old(layers[i].View())
      {
        UpdateOne(layers[k]);
        k := k + 1;
      }
    }

    static method SetTimes(layers: seq<Hwc2Layer>, ns: int)
      requires LayersValid(layers)
      modifies layers
      ensures LayersValid(layers)
      ensures forall i :: 0 <= i < |layers| ==> layers[i].View() == SetPresentTime(old(layers[i].View()), ns)
    {
      hide SetPresentTime;
      var k := 0;
      while k < |layers|
        invariant 0 <= k <= |layers| && LayersValid(layers)
        invariant forall i :: 0 <= i < k ==> layers[i].View() == SetPresentTime(old(layers[i].View()), ns)
        invariant forall i :: k <= i < |layers| ==> layers[i].View() == old(layers[i].View())
      {
        layers[k].SetPresentTime(ns);
        k := k + 1;
      }
    }

    static method UpdateOne(layer: Hwc2Layer)
      requires layer.Valid()
      modifies layer
      ensures layer.Valid() && layer.View() == Update(old(layer.View())).layer
    {
      layer.UpdateVtBuffer();
    }

    static method ReleaseOne(layer: Hwc2Layer)
      requires layer.Valid()
      modifies layer
      ensures layer.Valid() && layer.View() == Release(old(layer.View())).layer
    {
      var _ := layer.ReleaseVtBuffer(0);
    }

    static method PresentOne(layer: Hwc2Layer, p: Presentation)
      requires layer.Valid()
      modifies layer
      ensures layer.Valid() && layer.View() == Present(old(layer.View()), p)
    {
      if p.interrupted {
        layer.HandleInterrupt(p.colourFd);
      }
      layer.mDifd := p.diFd;
      layer.mCurReleaseFence := p.fence;
    }

    static method PresentLayers(layers: seq<Hwc2Layer>, plan: Plan)
      requires LayersValid(layers)
      modifies layers
      ensures LayersValid(layers)
      ensures forall i :: 0 <= i < |layers| ==> layers[i].View() == Present(old(layers[i].View()), plan(i))
    {
      hide Present;
      var k := 0;
      while k < |layers|
        invariant 0 <= k <= |layers| && LayersValid(layers)
        invariant forall i :: 0 <= i < k ==> layers[i].View() == Present(old(layers[i].View()), plan(i))
        invariant forall i :: k <= i < |layers| ==> layers[i].View() == old(layers[i].View())
      {
        PresentOne(layers[k], plan(k));
        k := k + 1;
      }
    }

    static method ReleaseLayers(layers: seq<Hwc2Layer>)
      requires LayersValid(layers)
      modifies layers
      ensures LayersValid(layers)
      ensures forall i :: 0 <= i < |layers| ==> layers[i].View() == Release(old(layers[i].View())).layer
    {
      hide Release;
      var k := 0;
      while k < |layers|
        invariant 0 <= k <= |layers| && LayersValid(layers)
        invariant forall i :: 0 <= i < k ==> layers[i].View() == Release(old(layers[i].View())).layer
        invariant forall i :: k <= i < |layers| ==> layers[i].View() == old(layers[i].View())
      {
        ReleaseOne(layers[k]);
        k := k + 1;
      }
    }

    /** One pass of the loop in `handleVtDisplay`; `displayed` is the answer of `handleVtDisplayConnection`. */
    static method RunRound(layers: seq<Hwc2Layer>, ns: int, displayed: bool, plan: Plan)
      requires LayersValid(layers)
      modifies layers
      ensures LayersValid(layers)
      ensures forall i :: 0 <= i < |layers| ==> layers[i].View() == Round(old(layers[i].View()), ns, displayed, plan(i))
    {
      hide Present, Release, Update, SetPresentTime;
      UpdateLayers(layers, ns);
      if displayed {
        PresentLayers(layers, plan);
      }
      ReleaseLayers(layers);
    }

    /** `Hwc2Display::newGameBuffer` */
    static method NewGameBuffer(layers: seq<Hwc2Layer>) returns (found: bool)
      ensures found == AnyGameBuffer(Views(layers))
    {
      var k := 0;
      while k < |layers|
        invariant 0 <= k <= |layers| && forall i :: 0 <= i < k ==> !HasGameBuffer(layers[i].View())
      {
        if layers[k].NewGameBuffer() {
          assert HasGameBuffer(Views(layers)[k]);
          return true;
        }
        k := k + 1;
      }
      found := false;
    }

    /** One pass and the question whether another one is needed; `left` is what there was to do before. */
    static method Pass(layers: seq<Hwc2Layer>, ns: int, displayed: bool, plan: Plan, ghost left: Left)
      returns (more: bool, ghost left': Left)
      requires LayersValid(layers) && left == LeftOf(Views(layers))
      modifies layers
      ensures LayersValid(layers) && left' == LeftOf(Views(layers)) && more == AnyGameBuffer(Views(layers))
      ensures (more <==> left'.work > 0) && (more <==> left'.frames > 0) && (more <==> left'.cost > 0)
      ensures left'.work < left.work || left'.work == 0
      ensures NoneHandled(displayed, plan) ==> left'.frames == Below(left.frames)
      ensures AllHandled(displayed, plan) ==> left'.cost == Below(left.cost)
    {
      hide Round, NoneHandled, AllHandled;
      ghost var v := Views(layers);
      RunRound(layers, ns, displayed, plan);
      RoundsShrink(v, Views(layers), ns, displayed, plan);
      left' := LeftOf(Views(layers));
      LeftIsPositiveIff(Views(layers));
      more := NewGameBuffer(layers);
    }

    /**
     * `handleVtDisplay` after its wait. Whatever the compositions do in each round and
     * whenever it happens, the loop ends with every game-mode queue empty, after no more
     * rounds than the layer with most work causes on its own. The number of rounds is exact
     * when no command is ever handled (the longest game-mode queue), and when every round
     * presents every layer and so handles its command (the largest cost).
     */
    static method HandleVtDisplay(layers: seq<Hwc2Layer>, times: nat -> int, displayed: nat -> bool, plans: nat -> Plan)
      returns (rounds: nat)
      requires LayersValid(layers)
      modifies layers
      ensures LayersValid(layers) && !AnyGameBuffer(Views(layers))
      ensures 1 <= rounds <= AtLeastOne(LeftOf(old(Views(layers))).work)
      ensures (forall k :: NoneHandled(displayed(k), plans(k))) ==>
              rounds == AtLeastOne(LeftOf(old(Views(layers))).frames)
      ensures (forall k :: AllHandled(displayed(k), plans(k))) ==> rounds == AtLeastOne(LeftOf(old(Views(layers))).cost)
    {
      hide AnyGameBuffer, LeftOf, NoneHandled, AllHandled, LayersValid, Views;
      ghost var start := LeftOf(Views(layers));
      ghost var plain := forall k :: NoneHandled(displayed(k), plans(k));
      ghost var handled := forall k :: AllHandled(displayed(k), plans(k));
      var more, left := Pass(layers, times(0), displayed(0), plans(0), start);
      rounds := 1;
      while more
        invariant LayersValid(layers) && left == LeftOf(Views(layers)) && more == AnyGameBuffer(Views(layers))
        invariant (more <==> left.work > 0) && (more <==> left.frames > 0) && (more <==> left.cost > 0)
        invariant 1 <= rounds <= AtLeastOne(start.work) && (more ==> rounds + left.work <= start.work)
        invariant plain ==> if more then rounds + left.frames == start.frames else rounds == AtLeastOne(start.frames)
        invariant handled ==> if more then rounds + left.cost == start.cost else rounds == AtLeastOne(start.cost)
        decreases left.work
      {
        more, left := Pass(layers, times(rounds), displayed(rounds), plans(rounds), left);
        rounds := rounds + 1;
      }
    }
  }
}
