/**
 * Layer ids of a display (hwc2/Hwc2Display.cpp): a slot found in a bitmap and a running
 * sequence number make up a 16-bit id. The display is updated in place; what it does is
 * stated by `Create`, `Destroy` and `Cleanup`, and proved over whole runs.
 */
module LayerIds {
  import opened VideoTunnelTypes
  import Bits

  const MAX_HWC_LAYERS := 256
  const HWC2_ERROR_NONE := 0
  const HWC2_ERROR_BAD_LAYER := 3
  /** `BitsMap(256)` allocates one byte more than 256 bits need. */
  const BITS := 264

  /** `slots` are the set bits, `layers` the live layers by id; `issued` is every id given out, in order. */
  datatype Ids = Ids(slots: set<nat>, seqNo: nat, layers: map<nat, nat>, issued: seq<nat>)

  function Slot(id: nat): nat {
    id / 256
  }

  function NextSeq(seqNo: nat): nat {
    (seqNo + 1) % MAX_HWC_LAYERS
  }

  /** `((idx & 255) << 8) | seqNo` for a sequence number below 256. */
  function MakeId(idx: nat, seqNo: nat): nat {
    (idx % MAX_HWC_LAYERS) * 256 + seqNo
  }

  /** The least free slot from `k` on, or -1. */
  function FreeFrom(slots: set<nat>, k: nat): (r: int)
    requires k <= BITS
    ensures r == -1 || (k <= r < BITS && r !in slots)
    ensures forall i: nat :: k <= i < (if r == -1 then BITS else r) ==> i in slots
    decreases BITS - k
  {
    if k == BITS then -1 else if k in slots then FreeFrom(slots, k + 1) else k
  }

  /**
   * `createLayer` for layer number `layer`; without a free slot the program aborts. `emplace` keeps
   * an entry that exists.
   */
  function Create(s: Ids, layer: nat): Option<Ids> {
    var idx := FreeFrom(s.slots, 0);
    if idx < 0 then None
    else
      var seqNo := NextSeq(s.seqNo);
      var id := MakeId(idx, seqNo);
      Some(Ids(s.slots + {idx}, seqNo, if id in s.layers then s.layers else s.layers[id := layer], s.issued + [id]))
  }

  function Destroy(s: Ids, id: nat): (Ids, int) {
    if id !in s.layers then (s, HWC2_ERROR_BAD_LAYER)
    else (s.(layers := s.layers - {id}, slots := s.slots - {Slot(id)}), HWC2_ERROR_NONE)
  }

  /** `cleanupBeforeDestroy` forgets every layer and slot, not the sequence number. */
  function Cleanup(s: Ids): Ids {
    s.(slots := {}, layers := map[])
  }

  /** The set bits are exactly the slots of the live layers, and no two live layers share one. */
  ghost predicate Inv(s: Ids) {
    && (forall id :: id in s.layers ==> Slot(id) in s.slots && Slot(id) < MAX_HWC_LAYERS)
    && (forall k :: k in s.slots ==> Owned(s, k))
    && (forall a, b :: a in s.layers && b in s.layers && Slot(a) == Slot(b) ==> a == b)
    && s.seqNo < MAX_HWC_LAYERS
  }

  ghost predicate Owned(s: Ids, k: nat) {
    exists id :: id in s.layers && Slot(id) == k
  }

  /** The last id carries the current sequence number and each id the number after its predecessor's. */
  ghost predicate Numbered(s: Ids) {
    && s.seqNo < MAX_HWC_LAYERS
    && (s.issued != [] ==> SeqOf(s.issued[|s.issued| - 1]) == s.seqNo)
    && forall k :: 0 < k < |s.issued| ==> SeqOf(s.issued[k]) == NextSeq(SeqOf(s.issued[k - 1]))
  }

  function SeqOf(id: nat): nat {
    id % 256
  }

  lemma MakeIdFacts(idx: nat, seqNo: nat)
    requires seqNo < MAX_HWC_LAYERS
    ensures Slot(MakeId(idx, seqNo)) == idx % MAX_HWC_LAYERS && SeqOf(MakeId(idx, seqNo)) == seqNo
  {
  }

  function Slots(layers: set<nat>): set<nat> {
    set id | id in layers :: Slot(id)
  }

  lemma {:induction false} SlotCount(layers: set<nat>)
    requires forall a, b :: a in layers && b in layers && Slot(a) == Slot(b) ==> a == b
    ensures |Slots(layers)| == |layers|
  {
    if layers != {} {
      var id :| id in layers;
      SlotCount(layers - {id});
      assert Slot(id) !in Slots(layers - {id});
      assert Slots(layers) == Slots(layers - {id}) + {Slot(id)};
    }
  }

  /** Numbers below n are at most n, and if they are n they are all of them. */
  lemma {:induction false} Pigeonhole(slots: set<nat>, n: nat)
    requires forall k :: k in slots ==> k < n
    ensures |slots| <= n && (|slots| == n <==> forall k: nat :: k < n ==> k in slots)
  {
    if n == 0 {
      assert slots == {};
    } else {
      var rest := slots - {n - 1};
      Pigeonhole(rest, n - 1);
      if n - 1 in slots {
        assert slots == rest + {n - 1};
      } else {
        assert rest == slots;
      }
    }
  }

  lemma SlotsAreOwned(s: Ids)
    requires Inv(s)
    ensures s.slots == Slots(s.layers.Keys)
  {
  }

  /** A full set of slots below 256 is one of 256; the search goes past it. */
  lemma FreeSlotBound(slots: set<nat>)
    requires forall k :: k in slots ==> k < MAX_HWC_LAYERS
    ensures |slots| <= MAX_HWC_LAYERS && 0 <= FreeFrom(slots, 0)
    ensures FreeFrom(slots, 0) < MAX_HWC_LAYERS <==> |slots| < MAX_HWC_LAYERS
  {
    Pigeonhole(slots, MAX_HWC_LAYERS);
    assert MAX_HWC_LAYERS !in slots;
  }

  /** As many bits as layers; the search finds a slot below 256 exactly when fewer than 256 layers live. */
  lemma FreeSlotIff(s: Ids)
    requires Inv(s)
    ensures |s.slots| == |s.layers| <= MAX_HWC_LAYERS
    ensures 0 <= FreeFrom(s.slots, 0)
    ensures FreeFrom(s.slots, 0) < MAX_HWC_LAYERS <==> |s.layers| < MAX_HWC_LAYERS
  {
    SlotsAreOwned(s);
    SlotCount(s.layers.Keys);
    FreeSlotBound(s.slots);
  }

  lemma NewIsOwned(s: Ids, t: Ids, id: nat)
    requires Inv(s) && t.slots == s.slots + {Slot(id)} && t.layers.Keys == s.layers.Keys + {id}
    requires Slot(id) !in s.slots && Slot(id) < MAX_HWC_LAYERS && t.seqNo < MAX_HWC_LAYERS
    ensures Inv(t)
  {
    forall k | k in t.slots ensures Owned(t, k) {
      if k == Slot(id) {
        assert id in t.layers;
      } else {
        assert Owned(s, k);
        var o :| o in s.layers && Slot(o) == k;
        assert o in t.layers;
      }
    }
  }

  lemma NotLive(s: Ids, id: nat)
    requires (forall a :: a in s.layers ==> Slot(a) in s.slots) && Slot(id) !in s.slots
    ensures id !in s.layers
  {
  }

  lemma CreateInSlot(s: Ids, layer: nat, t: Ids, idx: nat)
    requires FreeFrom(s.slots, 0) == idx < MAX_HWC_LAYERS && Create(s, layer) == Some(t)
    requires forall id :: id in s.layers ==> Slot(id) in s.slots
    ensures var id := MakeId(idx, t.seqNo);
            && t.issued == s.issued + [id] && id !in s.layers && Slot(id) == idx && t.seqNo < MAX_HWC_LAYERS
            && t.layers == s.layers[id := layer] && t.slots == s.slots + {idx} && t.layers.Keys == s.layers.Keys + {id}
  {
    hide FreeFrom;
    var id := MakeId(idx, NextSeq(s.seqNo));
    MakeIdFacts(idx, NextSeq(s.seqNo));
    NotLive(s, id);
  }

  /** With fewer than 256 live layers a new layer gets a slot and an id of its own, and becomes live. */
  lemma CreateWithRoom(s: Ids, layer: nat, t: Ids)
    requires Inv(s) && |s.layers| < MAX_HWC_LAYERS && Create(s, layer) == Some(t)
    ensures var id := MakeId(FreeFrom(s.slots, 0), t.seqNo);
            && t.issued == s.issued + [id] && id !in s.layers
            && t.layers == s.layers[id := layer] && t.slots == s.slots + {Slot(id)} && Slot(id) !in s.slots
    ensures Inv(t)
  {
    FreeSlotIff(s);
    CreateInSlot(s, layer, t, FreeFrom(s.slots, 0));
    NewIsOwned(s, t, MakeId(FreeFrom(s.slots, 0), t.seqNo));
  }

  /** With 256 live layers the slot found does not fit into an id: the bits no longer match the layers. */
  lemma CreateWhenFull(s: Ids, layer: nat, t: Ids)
    requires Inv(s) && |s.layers| == MAX_HWC_LAYERS && Create(s, layer) == Some(t)
    ensures !Inv(t)
  {
    FreeSlotIff(s);
    var idx := FreeFrom(s.slots, 0);
    assert idx in t.slots && idx >= MAX_HWC_LAYERS;
    assert Inv(t) ==> Owned(t, idx);
  }

  lemma CreateKeepsInvIff(s: Ids, layer: nat)
    requires Inv(s)
    ensures Create(s, layer).Some?
    ensures Inv(Create(s, layer).value) <==> |s.layers| < MAX_HWC_LAYERS
  {
    FreeSlotIff(s);
    if |s.layers| < MAX_HWC_LAYERS {
      CreateWithRoom(s, layer, Create(s, layer).value);
    } else {
      CreateWhenFull(s, layer, Create(s, layer).value);
    }
  }

  lemma DestroyKeepsInv(s: Ids, id: nat)
    requires Inv(s)
    ensures var (t, e) := Destroy(s, id);
            Inv(t) && (e == HWC2_ERROR_NONE <==> id in s.layers) && t.layers == s.layers - {id}
  {
    var t := Destroy(s, id).0;
    forall k | k in t.slots ensures Owned(t, k) {
      assert Owned(s, k);
      var o :| o in s.layers && Slot(o) == k;
      assert o in t.layers;
    }
  }

  // ---- runs ----

  datatype Op = New(layer: nat) | Gone(id: nat) | Clean

  /** `New` only while fewer than 256 layers live. */
  ghost predicate Took(s: Ids, op: Op, t: Ids) {
    match op
    case New(layer) => |s.layers| < MAX_HWC_LAYERS && Create(s, layer) == Some(t)
    case Gone(id) => t == Destroy(s, id).0
    case Clean => t == Cleanup(s)
  }

  ghost predicate IsRun(states: seq<Ids>, ops: seq<Op>) {
    |states| == |ops| + 1 && forall k :: 0 <= k < |ops| ==> Took(states[k], ops[k], states[k + 1])
  }

  lemma StepKeepsInv(s: Ids, op: Op, t: Ids)
    requires Inv(s) && Took(s, op, t)
    ensures Inv(t)
  {
    match op
    case New(layer) => CreateKeepsInvIff(s, layer);
    case Gone(id) => DestroyKeepsInv(s, id);
    case Clean =>
  }

  /** What numbering needs of a step: at most one id is issued, with the next sequence number. */
  lemma StepKeepsNumbered(s: Ids, op: Op, t: Ids)
    requires Numbered(s) && Took(s, op, t)
    ensures Numbered(t)
  {
    match op
    case New(layer) =>
      var idx := FreeFrom(s.slots, 0);
      MakeIdFacts(idx, NextSeq(s.seqNo));
      assert t.issued == s.issued + [MakeId(idx, NextSeq(s.seqNo))];
    case Gone(id) =>
    case Clean =>
  }

  lemma {:induction false} EveryRun(states: seq<Ids>, ops: seq<Op>)
    requires IsRun(states, ops) && states[0] == Ids({}, 0, map[], [])
    ensures Inv(states[|ops|]) && Numbered(states[|ops|])
  {
    if ops != [] {
      var n := |ops| - 1;
      assert IsRun(states[..n + 1], ops[..n]) by {
        forall k | 0 <= k < n ensures Took(states[..n + 1][k], ops[..n][k], states[..n + 1][k + 1]) {
          assert Took(states[k], ops[k], states[k + 1]);
        }
      }
      EveryRun(states[..n + 1], ops[..n]);
      assert Took(states[n], ops[n], states[n + 1]);
      StepKeepsInv(states[n], ops[n], states[n + 1]);
      StepKeepsNumbered(states[n], ops[n], states[n + 1]);
    }
  }

  lemma NextOfRest(n: nat)
    ensures NextSeq(n % MAX_HWC_LAYERS) == (n + 1) % MAX_HWC_LAYERS
  {
  }

  lemma {:induction false} NumbersAdvance(s: Ids, i: nat, j: nat)
    requires Numbered(s) && i <= j < |s.issued|
    ensures SeqOf(s.issued[j]) == (SeqOf(s.issued[i]) + (j - i)) % MAX_HWC_LAYERS
    decreases j - i
  {
    if i < j {
      NumbersAdvance(s, i, j - 1);
      assert SeqOf(s.issued[j]) == NextSeq(SeqOf(s.issued[j - 1]));
      NextOfRest(SeqOf(s.issued[i]) + (j - 1 - i));
    }
  }

  /**
   * Two ids issued fewer than 256 creations apart differ, whatever was destroyed or
   * cleaned up in between, even when they share a slot. At 256 apart they differ exactly when the slots do.
   */
  lemma IdsDiffer(s: Ids, i: nat, j: nat)
    requires Numbered(s) && i < j < |s.issued| && j - i <= MAX_HWC_LAYERS
    ensures s.issued[i] == s.issued[j] <==> j - i == MAX_HWC_LAYERS && Slot(s.issued[i]) == Slot(s.issued[j])
  {
    NumbersAdvance(s, i, j);
    var a, b := s.issued[i], s.issued[j];
    assert a == Slot(a) * 256 + SeqOf(a) && b == Slot(b) * 256 + SeqOf(b);
  }

  // ---- 257 layers ----

  const NEW_DISPLAY := Ids({}, 0, map[], [])

  /** Creations in a row, of layers number k to n - 1. */
  function CreateMany(s: Ids, k: nat, n: nat): Option<Ids>
    requires k <= n
    decreases n - k
  {
    if k == n then Some(s)
    else
      var t := Create(s, k);
      if t.None? then None else CreateMany(t.value, k + 1, n)
  }

  /** Slots 0 to n - 1 are taken, one layer each, and the first layer has the first id. */
  ghost predicate Filled(s: Ids, n: nat) {
    && |s.layers| == n && |s.issued| == n && s.seqNo == n % MAX_HWC_LAYERS
    && SlotsBelow(s.slots, n)
    && (n > 0 ==> s.issued[0] == MakeId(0, 1) && s.issued[0] in s.layers && s.layers[s.issued[0]] == 0)
  }

  ghost predicate SlotsBelow(slots: set<nat>, n: nat) {
    forall k: nat :: k in slots <==> k < n
  }

  lemma {:induction false} FreeFromIs(slots: set<nat>, k: nat, n: nat)
    requires SlotsBelow(slots, n) && k <= n < BITS
    ensures FreeFrom(slots, k) == n
    decreases n - k
  {
    if k < n { FreeFromIs(slots, k + 1, n); }
  }

  lemma FilledMore(s: Ids, t: Ids, n: nat, id: nat)
    requires Filled(s, n) && t.layers == s.layers[id := n] && id !in s.layers && t.issued == s.issued + [id]
    requires t.slots == s.slots + {n} && t.seqNo == (n + 1) % MAX_HWC_LAYERS && (n == 0 ==> id == MakeId(0, 1))
    ensures Filled(t, n + 1)
  {
    assert |t.layers.Keys| == |s.layers.Keys + {id}|;
  }

  lemma FilledNext(s: Ids, n: nat, t: Ids)
    requires Filled(s, n) && n < MAX_HWC_LAYERS && Create(s, n) == Some(t)
    requires forall id :: id in s.layers ==> Slot(id) in s.slots
    ensures Filled(t, n + 1)
  {
    FreeFromIs(s.slots, 0, n);
    CreateInSlot(s, n, t, n);
    NextOfRest(n);
    FilledMore(s, t, n, MakeId(n, t.seqNo));
  }

  lemma CreatedNext(s: Ids, n: nat, t: Ids)
    requires Inv(s) && Filled(s, n) && n < MAX_HWC_LAYERS && Create(s, n) == Some(t)
    ensures Inv(t) && Filled(t, n + 1)
  {
    CreateKeepsInvIff(s, n);
    FilledNext(s, n, t);
  }

  /** The first 256 get the slots in turn. */
  lemma {:induction false} CreatedFacts(s: Ids, k: nat, n: nat)
    requires Inv(s) && Filled(s, k) && k <= n <= MAX_HWC_LAYERS
    ensures var r := CreateMany(s, k, n); r.Some? && Inv(r.value) && Filled(r.value, n)
    decreases n - k
  {
    if k < n {
      FreeSlotIff(s);
      var t := Create(s, k).value;
      CreatedNext(s, k, t);
      CreatedFacts(t, k + 1, n);
    }
  }

  /** The creation after 256 others repeats the first id, and the new layer is not entered. */
  lemma RepeatsFirst(s: Ids, n: nat)
    requires n == MAX_HWC_LAYERS && Inv(s) && Filled(s, n)
    ensures Create(s, n).Some?
    ensures var t := Create(s, n).value;
            && |t.issued| == n + 1 && t.issued[n] == t.issued[0]
            && t.layers == s.layers && t.layers[t.issued[n]] == 0 && !Inv(t)
  {
    FreeFromIs(s.slots, 0, n);
    CreateWhenFull(s, n, Create(s, n).value);
    assert MakeId(n, NextSeq(s.seqNo)) == MakeId(0, 1);
  }

  /**
   * The creation after 256 others without a destruction gives out the id of the first
   * layer, which is still live, and the new layer is not entered under it.
   */
  lemma TheNextOneIsLost(n: nat)
    requires n == MAX_HWC_LAYERS
    ensures var full := CreateMany(NEW_DISPLAY, 0, n);
            full.Some? && |full.value.layers| == n && Create(full.value, n).Some?
    ensures var s := Create(CreateMany(NEW_DISPLAY, 0, n).value, n).value;
            && |s.issued| == n + 1 && s.issued[n] == s.issued[0]
            && |s.layers| == n && s.layers[s.issued[n]] == 0 && !Inv(s)
  {
    CreatedFacts(NEW_DISPLAY, 0, n);
    RepeatsFirst(CreateMany(NEW_DISPLAY, 0, n).value, n);
  }

  // ---- the display ----

  lemma LeastClearIsFree(bits: seq<bv8>, r: int)
    requires 8 * |bits| == BITS && Bits.LeastClear(bits, r)
    ensures r == FreeFrom(Bits.Ones(bits), 0)
  {
    if r == -1 {
      assert forall i: nat :: i < BITS ==> i in Bits.Ones(bits);
    } else {
      assert r !in Bits.Ones(bits);
      assert forall i: nat :: i < r ==> i in Bits.Ones(bits);
    }
  }

  class Hwc2Display {
    const mLayersBitmap: Bits.BitsMap
    var mLayerSeq: nat
    var mLayers: map<nat, nat>
    ghost var issued: seq<nat>

    ghost function View(): Ids
      reads this, mLayersBitmap.mBits
    {
      Ids(Bits.Ones(mLayersBitmap.View()), mLayerSeq, mLayers, issued)
    }

    predicate Valid() {
      mLayersBitmap.mBits.Length == BITS / 8
    }

    constructor ()
      ensures Valid() && View() == Ids({}, 0, map[], []) && fresh(mLayersBitmap.mBits)
    {
      var bitmap := new Bits.BitsMap(MAX_HWC_LAYERS);
      mLayersBitmap := bitmap;
      mLayerSeq, mLayers, issued := 0, map[], [];
    }

    /** -1 stands for the abort on a full bitmap. */
    method CreateLayerId() returns (layerId: int)
      requires Valid()
      modifies this`mLayerSeq, mLayersBitmap.mBits
      ensures var idx := FreeFrom(old(View()).slots, 0);
              if idx < 0 then layerId == -1 && View() == old(View())
              else
                && layerId == MakeId(idx, mLayerSeq)
                && View() == old(View()).(slots := old(View()).slots + {idx}, seqNo := NextSeq(old(mLayerSeq)))
    {
      var idx := mLayersBitmap.GetZeroBit();
      LeastClearIsFree(mLayersBitmap.View(), idx);
      if idx < 0 {
        return -1;
      }
      mLayersBitmap.SetBit(idx);
      mLayerSeq := mLayerSeq + 1;
      mLayerSeq := mLayerSeq % MAX_HWC_LAYERS;
      layerId := (idx % MAX_HWC_LAYERS) * 256 + mLayerSeq;
    }

    method CreateLayer(layer: nat) returns (outLayer: int)
      requires Valid()
      modifies this`mLayerSeq, this`mLayers, this`issued, mLayersBitmap.mBits
      ensures if Create(old(View()), layer).Some?
              then Some(View()) == Create(old(View()), layer) && outLayer == issued[|old(issued)|]
              else outLayer == -1 && View() == old(View())
    {
      outLayer := CreateLayerId();
      if outLayer >= 0 {
        if outLayer !in mLayers {
          mLayers := mLayers[outLayer := layer];
        }
        issued := issued + [outLayer];
      }
    }

    /** A layer id is made of a slot that fits the bitmap. */
    method DestroyLayer(inLayer: nat) returns (error: int)
      requires Valid() && (inLayer in mLayers ==> Slot(inLayer) < MAX_HWC_LAYERS)
      modifies this`mLayers, mLayersBitmap.mBits
      ensures (View(), error) == Destroy(old(View()), inLayer)
    {
      if inLayer !in mLayers {
        return HWC2_ERROR_BAD_LAYER;
      }
      mLayers := mLayers - {inLayer};
      mLayersBitmap.ClearBit(inLayer / 256);
      error := HWC2_ERROR_NONE;
    }

    method CleanupBeforeDestroy()
      modifies this`mLayers, mLayersBitmap.mBits
      ensures View() == Cleanup(old(View()))
    {
      mLayers := map[];
      mLayersBitmap.Reset();
    }
  }
}
