/**
 * How `VideoProcessorsManager` decides which layers get a processor
 * (composition/videoprocessorsmanager/VideoProcessorsManager.cpp): the state of one pool
 * after each step, and the counting argument that makes the set-up always succeed.
 */
module ProcessorPools {
  import opened VideoTunnelTypes

  datatype Kind = AiSr | AiPq | AiColor | Di

  /** A processor object; `serial` tells objects apart, `layerId` is `getUseLayerId`. */
  datatype Processor = Processor(kind: Kind, serial: nat, layerId: nat)

  ghost predicate DistinctLayers(pool: seq<Processor>) {
    forall i, j :: 0 <= i < j < |pool| ==> pool[i].layerId != pool[j].layerId
  }

  /** Between set-ups: one processor a layer, no more than the channel limit. */
  ghost predicate PoolOk(pool: seq<Processor>, kind: Kind, limit: nat) {
    && DistinctLayers(pool) && |pool| <= limit
    && forall i :: 0 <= i < |pool| ==> pool[i].kind == kind
  }

  ghost predicate OnlyFor(pool: seq<Processor>, ids: seq<nat>) {
    forall i :: 0 <= i < |pool| ==> pool[i].layerId in ids
  }

  predicate Serves(pool: seq<Processor>, id: nat) {
    exists i :: 0 <= i < |pool| && pool[i].layerId == id
  }

  /** `destroyUnusedProcessor` keeps the processors of current layers ... */
  function Kept(pool: seq<Processor>, ids: seq<nat>): seq<Processor> {
    if pool == [] then []
    else
      var last := pool[|pool| - 1];
      Kept(pool[..|pool| - 1], ids) + if last.layerId in ids then [last] else []
  }

  /** ... and tears the others down. */
  function Dropped(pool: seq<Processor>, ids: seq<nat>): seq<Processor> {
    if pool == [] then []
    else
      var last := pool[|pool| - 1];
      Dropped(pool[..|pool| - 1], ids) + if last.layerId in ids then [] else [last]
  }

  /** The layers without a processor, in layer order. */
  function Missing(pool: seq<Processor>, ids: seq<nat>): seq<nat> {
    if ids == [] then []
    else
      var last := ids[|ids| - 1];
      Missing(pool, ids[..|ids| - 1]) + if Serves(pool, last) then [] else [last]
  }

  function Min(a: int, b: int): int {
    if a > b then b else a
  }

  /** New processors with consecutive serial numbers, one for each of the layers. */
  function Created(kind: Kind, serial: nat, ids: seq<nat>): seq<Processor> {
    seq(|ids|, i requires 0 <= i < |ids| => Processor(kind, serial + i, ids[i]))
  }

  lemma {:induction false} KeptFacts(pool: seq<Processor>, ids: seq<nat>)
    ensures forall p :: p in Kept(pool, ids) <==> p in pool && p.layerId in ids
    ensures |Kept(pool, ids)| <= |pool|
  {
    if pool != [] {
      var front, last := pool[..|pool| - 1], pool[|pool| - 1];
      KeptFacts(front, ids);
      assert pool == front + [last];
    }
  }

  lemma {:induction false} KeptDistinct(pool: seq<Processor>, ids: seq<nat>)
    requires DistinctLayers(pool)
    ensures DistinctLayers(Kept(pool, ids))
  {
    if pool != [] {
      var front, last := pool[..|pool| - 1], pool[|pool| - 1];
      KeptDistinct(front, ids);
      KeptFacts(front, ids);
      forall i | 0 <= i < |Kept(front, ids)| ensures Kept(front, ids)[i].layerId != last.layerId {
        assert Kept(front, ids)[i] in front;
      }
    }
  }

  /** Nothing is kept and torn down, and nothing is forgotten. */
  lemma {:induction false} KeptOrDropped(pool: seq<Processor>, ids: seq<nat>)
    ensures multiset(Kept(pool, ids)) + multiset(Dropped(pool, ids)) == multiset(pool)
  {
    if pool != [] {
      KeptOrDropped(pool[..|pool| - 1], ids);
      assert pool == pool[..|pool| - 1] + [pool[|pool| - 1]];
    }
  }

  lemma {:induction false} MissingFacts(pool: seq<Processor>, ids: seq<nat>)
    ensures forall x :: x in Missing(pool, ids) <==> x in ids && !Serves(pool, x)
    ensures Distinct(ids) ==> Distinct(Missing(pool, ids))
  {
    if ids != [] {
      var front, last := ids[..|ids| - 1], ids[|ids| - 1];
      MissingFacts(pool, front);
      assert ids == front + [last];
      if Distinct(ids) {
        assert last !in front by {
          forall i | 0 <= i < |front| ensures front[i] != last { assert front[i] == ids[i]; }
        }
        assert Distinct(front) by {
          forall i, j | 0 <= i < j < |front| ensures front[i] != front[j] {
            assert front[i] == ids[i] && front[j] == ids[j];
          }
        }
      }
    }
  }

  function LayerIds(pool: seq<Processor>): seq<nat> {
    seq(|pool|, i requires 0 <= i < |pool| => pool[i].layerId)
  }

  /**
   * Pigeonhole: if every processor serves a different current layer, the layers left over
   * are exactly as many as the difference.
   */
  lemma MissingCount(pool: seq<Processor>, ids: seq<nat>)
    requires DistinctLayers(pool) && OnlyFor(pool, ids) && Distinct(ids)
    ensures |Missing(pool, ids)| == |ids| - |pool|
  {
    var served := LayerIds(pool);
    MissingFacts(pool, ids);
    DistinctSize(served);
    DistinctSize(ids);
    DistinctSize(Missing(pool, ids));
    ServedSet(pool);
    SubsetSize(Elements(ids), Elements(served), Elements(Missing(pool, ids)));
  }

  lemma SubsetSize(all: set<nat>, taken: set<nat>, rest: set<nat>)
    requires forall x :: x in taken ==> x in all
    requires forall x :: x in rest <==> x in all && x !in taken
    ensures |rest| == |all| - |taken|
  {
    assert rest == all - taken && taken <= all;
  }

  lemma ServedSet(pool: seq<Processor>)
    ensures forall x :: x in LayerIds(pool) <==> Serves(pool, x)
  {
    forall x ensures x in LayerIds(pool) <==> Serves(pool, x) {
      if Serves(pool, x) {
        var i :| 0 <= i < |pool| && pool[i].layerId == x;
        assert LayerIds(pool)[i] == x;
      }
    }
  }

  /** The pool after a set-up with `limit` channels; `serial` numbers the new processors. */
  function Filled(pool: seq<Processor>, kind: Kind, limit: nat, ids: seq<nat>, serial: nat): seq<Processor> {
    var need := Min(|ids|, limit) - |pool|;
    if 0 < need <= |Missing(pool, ids)| then pool + Created(kind, serial, Missing(pool, ids)[..need]) else pool
  }

  lemma FilledDiffer(pool: seq<Processor>, kind: Kind, limit: nat, ids: seq<nat>, serial: nat)
    requires PoolOk(pool, kind, limit) && Distinct(ids)
    ensures var p := Filled(pool, kind, limit, ids, serial);
            forall i, j :: 0 <= i < j < |p| ==> p[i].layerId != p[j].layerId
  {
    var missing, p := Missing(pool, ids), Filled(pool, kind, limit, ids, serial);
    MissingFacts(pool, ids);
    assert forall i :: 0 <= i < |missing| ==> missing[i] in missing;
    forall i, j | 0 <= i < j < |p| ensures p[i].layerId != p[j].layerId {
      if j >= |pool| && i < |pool| {
        assert Serves(pool, pool[i].layerId);
      }
    }
  }

  /**
   * A set-up fills the pool to the smaller of the channel limit and the number of layers,
   * with processors of different current layers, and keeps the processors it had.
   */
  lemma FilledFacts(pool: seq<Processor>, kind: Kind, limit: nat, ids: seq<nat>, serial: nat)
    requires PoolOk(pool, kind, limit) && OnlyFor(pool, ids) && Distinct(ids)
    ensures var p := Filled(pool, kind, limit, ids, serial);
            && PoolOk(p, kind, limit) && OnlyFor(p, ids) && |p| == Min(|ids|, limit) && pool <= p
  {
    MissingCount(pool, ids);
    MissingFacts(pool, ids);
    FilledDiffer(pool, kind, limit, ids, serial);
    assert forall i :: 0 <= i < |Missing(pool, ids)| ==> Missing(pool, ids)[i] in Missing(pool, ids);
  }

  /** A pool whose processors serve only current layers is never larger than a set-up asks for. */
  lemma NeverTooMany(pool: seq<Processor>, kind: Kind, limit: nat, ids: seq<nat>)
    requires PoolOk(pool, kind, limit) && OnlyFor(pool, ids) && Distinct(ids)
    ensures |pool| <= Min(|ids|, limit)
  {
    MissingCount(pool, ids);
  }
}
