/**
 * The lists of display modes kept by the active-mode policy (common/hwc/ActiveModeMgr.cpp):
 * the modes of the connector, and the shorter list reported to SurfaceFlinger with one mode
 * per refresh rate. Rates are exact reals.
 */
module ModeLists {
  import opened VideoTunnelTypes

  /** Frames a second. */
  datatype Rate = Rate(hz: real)

  datatype Mode = Mode(name: string, pixelW: nat, pixelH: nat, refreshRate: Rate, groupId: nat)

  const FAKE_PREVIOUS_MODE := "FAKE_PREVIOUS_MODE"
  const INITIAL_MODE := Mode("FAKE_INITIAL_MODE", 1920, 1080, Rate(60.0), 0)

  /** `strstr(s, t) != NULL`. */
  predicate Contains(s: string, t: string) {
    t <= s || (s != [] && Contains(s[1..], t))
  }

  // ---- the modes of the connector ----

  /** With Dolby Vision below 2160p60 the 4K modes are not reported, except the one in use. */
  predicate Hidden(m: Mode, active: Mode, dv: bool, highestForDv: string) {
    dv && !Contains(active.name, m.name) && !Contains(highestForDv, "2160p60hz")
    && (Contains(m.name, "2160p") || Contains(m.name, "smpte"))
  }

  function Visible(supported: seq<Mode>, active: Mode, dv: bool, highestForDv: string): seq<Mode> {
    if supported == [] then []
    else
      var m := supported[|supported| - 1];
      Visible(supported[..|supported| - 1], active, dv, highestForDv)
      + if Hidden(m, active, dv, highestForDv) then [] else [m]
  }

  /**
   * Exactly the modes that are not hidden are reported, and a mode named in the active one's name
   * is reported always.
   */
  lemma {:induction false} VisibleFacts(supported: seq<Mode>, active: Mode, dv: bool, highestForDv: string)
    ensures forall m :: m in Visible(supported, active, dv, highestForDv) <==>
            m in supported && !Hidden(m, active, dv, highestForDv)
    ensures forall m :: m in supported && Contains(active.name, m.name) ==>
            m in Visible(supported, active, dv, highestForDv)
  {
    if supported != [] {
      VisibleFacts(supported[..|supported| - 1], active, dv, highestForDv);
      assert supported == supported[..|supported| - 1] + [supported[|supported| - 1]];
    }
  }

  /** The mode in use is one of the modes reported. */
  predicate IsReal(modes: seq<Mode>, active: Mode) {
    active.name != "dummy_l" && exists m :: m in modes && m.name == active.name
  }

  /** `current` is the mode of the controller, when it is connected and has one. */
  function Reported(supported: seq<Mode>, current: Option<Mode>, dv: bool, highestForDv: string): seq<Mode> {
    if current.Some? then Visible(supported, current.value, dv, highestForDv) else []
  }

  predicate UsesReal(supported: seq<Mode>, current: Option<Mode>, dv: bool, highestForDv: string) {
    current.Some? && IsReal(Reported(supported, current, dv, highestForDv), current.value)
  }

  function LastMode(last: Mode, supported: seq<Mode>, current: Option<Mode>, dv: bool, highestForDv: string): Mode {
    if UsesReal(supported, current, dv, highestForDv) then current.value else last.(name := FAKE_PREVIOUS_MODE)
  }

  /** `mHwcActiveModes`, in order of their ids. */
  function HwcModes(last: Mode, supported: seq<Mode>, current: Option<Mode>, dv: bool,
                    highestForDv: string): seq<Mode>
  {
    var modes := Reported(supported, current, dv, highestForDv);
    if UsesReal(supported, current, dv, highestForDv) then modes else modes + [last.(name := FAKE_PREVIOUS_MODE)]
  }

  predicate Close(a: Mode, b: Mode) {
    a.name == b.name && -0.01 < a.refreshRate.hz - b.refreshRate.hz < 0.01
  }

  /** `updateHwcActiveConfig`: the first mode of that name and about that rate, else the last mode. */
  function ActiveIndex(modes: seq<Mode>, active: Mode, from: nat): (r: int)
    requires from <= |modes|
    ensures from < |modes| ==> from <= r < |modes|
    ensures forall i :: from <= i < r && i < |modes| - 1 ==> !Close(active, modes[i])
    ensures from <= r < |modes| - 1 ==> Close(active, modes[r])
    decreases |modes| - from
  {
    if from == |modes| || Close(active, modes[from]) then (if from == |modes| then |modes| - 1 else from)
    else ActiveIndex(modes, active, from + 1)
  }

  /**
   * The HWC active mode is the mode in use exactly when the list has a mode of its name and
   * rate; when the controller's mode is not reported, the mode remembered from before is, and is active.
   */
  lemma ActiveIsRightIff(last: Mode, supported: seq<Mode>, current: Option<Mode>, dv: bool, highestForDv: string)
    ensures var modes := HwcModes(last, supported, current, dv, highestForDv);
            var active := LastMode(last, supported, current, dv, highestForDv);
            var k := ActiveIndex(modes, active, 0);
            && 0 <= k < |modes|
            && (Close(active, modes[k]) <==> exists m :: m in modes && Close(active, m))
            && (!UsesReal(supported, current, dv, highestForDv) ==> Close(active, modes[k]))
  {
  }

  // ---- the list for SurfaceFlinger ----

  /** Below 1080p, modes wider than the one in use are left out. */
  predicate Filtered(m: Mode, lastW: nat) {
    lastW < 1920 && m.pixelW > lastW
  }

  /**
   * One more mode: the wider one of a rate stays, a later one of equal width wins, and one 4096
   * wide replaces nothing.
   */
  function Offer(best: map<Rate, Mode>, m: Mode, lastW: nat): map<Rate, Mode> {
    if Replaces(best, m, lastW) then best[m.refreshRate := m] else best
  }

  predicate Replaces(best: map<Rate, Mode>, m: Mode, lastW: nat) {
    && !Filtered(m, lastW)
    && (m.refreshRate in best ==> m.pixelW >= best[m.refreshRate].pixelW && m.pixelW != 4096)
  }

  function Best(modes: seq<Mode>, lastW: nat): map<Rate, Mode> {
    if modes == [] then map[] else Offer(Best(modes[..|modes| - 1], lastW), modes[|modes| - 1], lastW)
  }

  /** `m` is the first of its rate that is not left out. */
  ghost predicate FirstOfRate(modes: seq<Mode>, m: Mode, lastW: nat) {
    exists i :: 0 <= i < |modes| && modes[i] == m
      && forall j :: 0 <= j < i ==> Filtered(modes[j], lastW) || modes[j].refreshRate != m.refreshRate
  }

  /** A candidate for the rate of c that may win by its width. */
  predicate Rivals(m: Mode, c: Mode, lastW: nat) {
    !Filtered(m, lastW) && m.refreshRate == c.refreshRate && m.pixelW != 4096
  }

  /** What the choice for a rate is: of that rate, not left out, and as wide as any candidate that is not 4096 wide. */
  ghost predicate IsChoice(modes: seq<Mode>, c: Mode, lastW: nat) {
    && c in modes && !Filtered(c, lastW)
    && (forall i :: 0 <= i < |modes| && Rivals(modes[i], c, lastW) ==> c.pixelW >= modes[i].pixelW)
    && (c.pixelW == 4096 ==> FirstOfRate(modes, c, lastW))
  }

  ghost predicate Chosen(modes: seq<Mode>, best: map<Rate, Mode>, lastW: nat) {
    && (forall r :: r in best ==> best[r].refreshRate == r && IsChoice(modes, best[r], lastW))
    && (forall i :: 0 <= i < |modes| && !Filtered(modes[i], lastW) ==> modes[i].refreshRate in best)
  }

  lemma ChoiceStays(modes: seq<Mode>, m: Mode, c: Mode, lastW: nat)
    requires IsChoice(modes, c, lastW)
    requires Filtered(m, lastW) || m.refreshRate != c.refreshRate || m.pixelW < c.pixelW || m.pixelW == 4096
    ensures IsChoice(modes + [m], c, lastW)
  {
    if c.pixelW == 4096 {
      var i :| 0 <= i < |modes| && modes[i] == c
               && forall j :: 0 <= j < i ==> Filtered(modes[j], lastW) || modes[j].refreshRate != c.refreshRate;
      assert (modes + [m])[i] == c;
    }
  }

  lemma ChoiceChanges(modes: seq<Mode>, m: Mode, best: map<Rate, Mode>, lastW: nat)
    requires !Filtered(m, lastW)
    requires m.refreshRate in best ==>
               && IsChoice(modes, best[m.refreshRate], lastW) && best[m.refreshRate].refreshRate == m.refreshRate
               && m.pixelW >= best[m.refreshRate].pixelW && m.pixelW != 4096
    requires m.refreshRate !in best ==>
               forall i :: 0 <= i < |modes| ==> Filtered(modes[i], lastW) || modes[i].refreshRate != m.refreshRate
    ensures IsChoice(modes + [m], m, lastW)
  {
  }

  /** The fold chooses, for exactly the rates that have a mode not left out. */
  lemma {:induction false} BestFacts(modes: seq<Mode>, lastW: nat)
    ensures Chosen(modes, Best(modes, lastW), lastW)
  {
    if modes != [] {
      var n := |modes| - 1;
      var m := modes[n];
      var front := modes[..n];
      BestFacts(front, lastW);
      assert modes == front + [m];
      var before := Best(front, lastW);
      var best := Best(modes, lastW);
      forall r | r in best ensures best[r].refreshRate == r && IsChoice(modes, best[r], lastW) {
        if r == m.refreshRate && Replaces(before, m, lastW) {
          ChoiceChanges(front, m, before, lastW);
        } else {
          assert r in before && best[r] == before[r];
          ChoiceStays(front, m, before[r], lastW);
        }
      }
    }
  }

  /** The chosen modes in ascending order of rate, as iterating over the ordered map gives them. */
  ghost predicate Lists(list: seq<Mode>, best: map<Rate, Mode>) {
    && (forall i, j :: 0 <= i < j < |list| ==> list[i].refreshRate.hz < list[j].refreshRate.hz)
    && (forall i :: 0 <= i < |list| ==> list[i].refreshRate in best && best[list[i].refreshRate] == list[i])
    && (forall r :: r in best ==> best[r] in list)
  }

  predicate Same(a: Mode, b: Mode) {
    a.name == b.name && a.refreshRate == b.refreshRate
  }

  /** The last entry with the active mode's name and rate, or -1. */
  function MatchIndex(list: seq<Mode>, active: Mode): (r: int)
    ensures -1 <= r < |list|
    ensures r >= 0 ==> Same(active, list[r])
    ensures r == -1 ==> forall i :: 0 <= i < |list| ==> !Same(active, list[i])
  {
    if list == [] then -1
    else if Same(active, list[|list| - 1]) then |list| - 1
    else MatchIndex(list[..|list| - 1], active)
  }

  function SfList(list: seq<Mode>, active: Mode): seq<Mode> {
    if MatchIndex(list, active) == -1 then list + [active] else list
  }

  function SfActive(list: seq<Mode>, active: Mode): int {
    if MatchIndex(list, active) == -1 then |list| else MatchIndex(list, active)
  }

  /**
   * The list reported to SurfaceFlinger: it consists of reported modes, has one choice per
   * rate that has any, at most one further entry, the active mode, and the active id names
   * an entry of the active mode's name and rate.
   */
  lemma SfListFacts(modes: seq<Mode>, lastW: nat, active: Mode, list: seq<Mode>)
    requires active in modes && Lists(list, Best(modes, lastW))
    ensures var sf := SfList(list, active); var id := SfActive(list, active);
            && 0 <= id < |sf| && Same(active, sf[id])
            && list <= sf && |sf| <= |list| + 1
            && (forall m :: m in sf ==> m in modes)
    ensures forall i, j :: 0 <= i < j < |list| ==> list[i].refreshRate != list[j].refreshRate
    ensures forall i :: 0 <= i < |list| ==> IsChoice(modes, list[i], lastW)
    ensures forall m :: m in modes && !Filtered(m, lastW) ==> OffersRate(list, m.refreshRate)
  {
    BestFacts(modes, lastW);
    var best := Best(modes, lastW);
    assert MatchIndex(list, active) == -1 ==> SfList(list, active)[|list|] == active;
    forall m | m in modes && !Filtered(m, lastW) ensures OffersRate(list, m.refreshRate) {
      assert best[m.refreshRate] in list;
      var i :| 0 <= i < |list| && list[i] == best[m.refreshRate];
    }
  }

  ghost predicate OffersRate(list: seq<Mode>, rate: Rate) {
    exists i :: 0 <= i < |list| && list[i].refreshRate == rate
  }

  /** The active mode is appended exactly when it is left out, or another mode name was chosen for its rate. */
  lemma AppendedIff(modes: seq<Mode>, lastW: nat, active: Mode, list: seq<Mode>)
    requires active in modes && Lists(list, Best(modes, lastW))
    ensures SfList(list, active) != list
            <==> active.refreshRate !in Best(modes, lastW) || Best(modes, lastW)[active.refreshRate].name != active.name
  {
    BestFacts(modes, lastW);
    var best := Best(modes, lastW);
    if active.refreshRate in best {
      assert best[active.refreshRate] in list;
    }
  }
}
