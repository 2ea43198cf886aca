/**
 * Who gets which fence when video processors run
 * (composition/videoprocessorsmanager/VideoProcessorsManager.cpp): the hand-overs, in
 * order, that the processors' own fences and one release fence lead to.
 */
module FenceCalls {
  import opened DrmSync
  import opened FenceFds
  import opened ProcessorPools

  /** What one `asyncProcess` call and the `dup`s after it come to. */
  datatype Processing = Processing(fence: Fence, dupForFb: bool, dupForDi: bool)

  function SettersOf(p: Processor, luck: Processing): seq<Call> {
    [Call(ProcessFence(p.serial), Copy(luck.fence, luck.dupForFb))]
    + if p.kind == Di then [Call(DiFence(p.serial), Copy(luck.fence, luck.dupForDi))] else []
  }

  function Setters(list: seq<Processor>, luck: nat -> Processing): seq<Call> {
    if list == [] then []
    else
      var n := |list| - 1;
      Setters(list[..n], luck) + SettersOf(list[n], luck(n))
  }

  /** The fence of the last processor. */
  function LastFence(list: seq<Processor>, luck: nat -> Processing): Fence {
    if list == [] then NoFence else luck(|list| - 1).fence
  }

  function Displays(list: seq<Processor>, release: Fence, dupWorks: nat -> bool): seq<Call> {
    if list == [] then []
    else
      var n := |list| - 1;
      Displays(list[..n], release, dupWorks) + [Call(Displayed(list[n].serial), Copy(release, dupWorks(n)))]
  }

  /** The call by which a frame buffer gets its release fence, from copies of the two fences it has to cover. */
  function LayerCall(fb: nat, release: Fence, process: Fence, mergeWorks: bool): Call {
    Call(LayerDisplayed(fb), LeftWith(release, process, mergeWorks))
  }

  function Lookup(pairs: map<nat, seq<Processor>>, fb: nat): seq<Processor> {
    if fb in pairs then pairs[fb] else []
  }

  function AllSetters(pairs: map<nat, seq<Processor>>, fbs: seq<nat>, luck: nat -> nat -> Processing): seq<Call> {
    if fbs == [] then []
    else
      var n := |fbs| - 1;
      AllSetters(pairs, fbs[..n], luck) + Setters(Lookup(pairs, fbs[n]), luck(n))
  }

  /** The copies of each buffer's last fence that are set aside until the composer has its frames. */
  function Asides(pairs: map<nat, seq<Processor>>, fbs: seq<nat>, luck: nat -> nat -> Processing, pairDup: nat -> bool)
    : seq<Fence>
  {
    seq(|fbs|, i requires 0 <= i < |fbs| => Copy(LastFence(Lookup(pairs, fbs[i]), luck(i)), pairDup(i)))
  }

  /** What the second loop does for one buffer. */
  function BufferDisplays(list: seq<Processor>, fb: nat, release: Fence, aside: Fence, dupWorks: nat -> bool,
                          lastDup: bool, mergeWorks: bool): seq<Call>
  {
    Displays(list, release, dupWorks) + [LayerCall(fb, Copy(release, lastDup), aside, mergeWorks)]
  }

  function AllDisplays(pairs: map<nat, seq<Processor>>, fbs: seq<nat>, release: Fence, asides: seq<Fence>,
                       dupWorks: nat -> nat -> bool, lastDup: nat -> bool, mergeWorks: nat -> bool): seq<Call>
    requires |fbs| <= |asides|
  {
    if fbs == [] then []
    else
      var n := |fbs| - 1;
      AllDisplays(pairs, fbs[..n], release, asides, dupWorks, lastDup, mergeWorks)
      + BufferDisplays(Lookup(pairs, fbs[n]), fbs[n], release, asides[n], dupWorks(n), lastDup(n), mergeWorks(n))
  }

  // ---- one frame buffer ----

  /**
   * Every processor that ran is told once, in order, and gets a duplicate of the release
   * fence exactly when `dup` works, whatever the others got.
   */
  lemma {:induction false} EverybodyIsTold(list: seq<Processor>, release: Fence, dupWorks: nat -> bool)
    ensures var calls := Displays(list, release, dupWorks);
            && |calls| == |list|
            && forall i :: 0 <= i < |list| ==>
                 calls[i] == Call(Displayed(list[i].serial), if dupWorks(i) then release else NoFence)
  {
    if list != [] {
      EverybodyIsTold(list[..|list| - 1], release, dupWorks);
    }
  }

  /**
   * The output of every processor gets a duplicate of that processor's own fence, that of a
   * de-interlacer two; and nobody gets anything else.
   */
  lemma {:induction false} EachGetsItsOwnFence(list: seq<Processor>, luck: nat -> Processing, c: Call)
    ensures c in Setters(list, luck) <==>
              exists i :: 0 <= i < |list| && GetsOwn(list[i], luck(i), c)
  {
    if list != [] {
      var n := |list| - 1;
      EachGetsItsOwnFence(list[..n], luck, c);
      assert GetsOwn(list[n], luck(n), c) <==> c in SettersOf(list[n], luck(n));
      OwnInFront(list, luck, c);
    }
  }

  lemma OwnInFront(list: seq<Processor>, luck: nat -> Processing, c: Call)
    requires list != []
    ensures var n := |list| - 1;
            (exists i :: 0 <= i < |list| && GetsOwn(list[i], luck(i), c)) <==>
              (exists i :: 0 <= i < n && GetsOwn(list[..n][i], luck(i), c)) || GetsOwn(list[n], luck(n), c)
  {
    hide GetsOwn;
    var n := |list| - 1;
    assert forall i :: 0 <= i < n ==> list[..n][i] == list[i];
    if i :| 0 <= i < n && GetsOwn(list[..n][i], luck(i), c) {
      assert GetsOwn(list[i], luck(i), c);
    }
    if i :| 0 <= i < |list| && GetsOwn(list[i], luck(i), c) {
      assert i < n ==> GetsOwn(list[..n][i], luck(i), c);
    }
  }

  predicate GetsOwn(p: Processor, luck: Processing, c: Call) {
    || c == Call(ProcessFence(p.serial), if luck.dupForFb then luck.fence else NoFence)
    || (p.kind == Di && c == Call(DiFence(p.serial), if luck.dupForDi then luck.fence else NoFence))
  }

  // ---- all the frame buffers of a composer ----

  /** Call c belongs to buffer i: one of its processors is told, or the buffer gets its own fence. */
  ghost predicate IsToldFor(list: seq<Processor>, fb: nat, release: Fence, process: Fence, dupWorks: nat -> bool,
                      pairDup: bool, lastDup: bool, mergeWorks: bool, c: Call)
  {
    || (exists k :: 0 <= k < |list| &&
          c == Call(Displayed(list[k].serial), if dupWorks(k) then release else NoFence))
    || c == Call(LayerDisplayed(fb),
                 LeftWith(if lastDup then release else NoFence, if pairDup then process else NoFence, mergeWorks))
  }

  lemma BufferIsTold(list: seq<Processor>, fb: nat, release: Fence, process: Fence, dupWorks: nat -> bool,
                     pairDup: bool, lastDup: bool, mergeWorks: bool, c: Call)
    ensures c in BufferDisplays(list, fb, release, Copy(process, pairDup), dupWorks, lastDup, mergeWorks)
       <==> IsToldFor(list, fb, release, process, dupWorks, pairDup, lastDup, mergeWorks, c)
  {
    EverybodyIsTold(list, release, dupWorks);
    var told := Displays(list, release, dupWorks);
    if c in told {
      var k :| 0 <= k < |told| && told[k] == c;
      assert c == Call(Displayed(list[k].serial), if dupWorks(k) then release else NoFence);
    }
    if k :| 0 <= k < |list| && c == Call(Displayed(list[k].serial), if dupWorks(k) then release else NoFence) {
      assert told[k] == c;
    }
  }

  /**
   * After the composer has its frames the processors of every buffer are told of the
   * composer's release fence, each with its own duplicate of it, and every buffer is left
   * with that fence and the fence of its own last processor. Nobody hears of anything else.
   */
  lemma {:induction false} AllAreTold(pairs: map<nat, seq<Processor>>, fbs: seq<nat>, release: Fence,
                                      luck: nat -> nat -> Processing, pairDup: nat -> bool, asides: seq<Fence>,
                                      dupWorks: nat -> nat -> bool, lastDup: nat -> bool, mergeWorks: nat -> bool,
                                      c: Call)
    requires |fbs| <= |asides|
    requires forall i :: 0 <= i < |fbs| ==> asides[i] == Copy(LastFence(Lookup(pairs, fbs[i]), luck(i)), pairDup(i))
    ensures c in AllDisplays(pairs, fbs, release, asides, dupWorks, lastDup, mergeWorks)
       <==> exists i :: 0 <= i < |fbs| && ToldAt(pairs, fbs, release, luck, pairDup, dupWorks, lastDup, mergeWorks, i,
                                                 c)
  {
    if fbs != [] {
      hide IsToldFor, BufferDisplays, LastFence;
      var n := |fbs| - 1;
      AllAreTold(pairs, fbs[..n], release, luck, pairDup, asides, dupWorks, lastDup, mergeWorks, c);
      var list := Lookup(pairs, fbs[n]);
      BufferIsTold(list, fbs[n], release, LastFence(list, luck(n)), dupWorks(n), pairDup(n), lastDup(n),
                   mergeWorks(n), c);
      ToldInFront(pairs, fbs, release, luck, pairDup, dupWorks, lastDup, mergeWorks, c);
      assert ToldAt(pairs, fbs, release, luck, pairDup, dupWorks, lastDup, mergeWorks, n, c) <==>
          c in BufferDisplays(list, fbs[n], release, asides[n], dupWorks(n), lastDup(n), mergeWorks(n));
    }
  }

  /** A call belongs to some buffer exactly when it belongs to one of the first ones or to the last. */
  lemma ToldInFront(pairs: map<nat, seq<Processor>>, fbs: seq<nat>, release: Fence, luck: nat -> nat -> Processing,
                    pairDup: nat -> bool, dupWorks: nat -> nat -> bool, lastDup: nat -> bool,
                    mergeWorks: nat -> bool, c: Call)
    requires fbs != []
    ensures var n := |fbs| - 1;
            (exists i :: 0 <= i < |fbs| && ToldAt(pairs, fbs, release, luck, pairDup, dupWorks, lastDup, mergeWorks,
                                                  i, c))
            <==> (exists i :: 0 <= i < n &&
                    ToldAt(pairs, fbs[..n], release, luck, pairDup, dupWorks, lastDup, mergeWorks, i, c))
                 || ToldAt(pairs, fbs, release, luck, pairDup, dupWorks, lastDup, mergeWorks, n, c)
  {
    hide IsToldFor, LastFence;
    var n := |fbs| - 1;
    forall i | 0 <= i < n
      ensures ToldAt(pairs, fbs[..n], release, luck, pairDup, dupWorks, lastDup, mergeWorks, i, c)
         <==> ToldAt(pairs, fbs, release, luck, pairDup, dupWorks, lastDup, mergeWorks, i, c)
    {
    }
  }

  ghost predicate ToldAt(pairs: map<nat, seq<Processor>>, fbs: seq<nat>, release: Fence, luck: nat -> nat -> Processing,
                         pairDup: nat -> bool, dupWorks: nat -> nat -> bool, lastDup: nat -> bool,
                         mergeWorks: nat -> bool, i: nat, c: Call)
    requires i < |fbs|
  {
    var list := Lookup(pairs, fbs[i]);
    IsToldFor(list, fbs[i], release, LastFence(list, luck(i)), dupWorks(i), pairDup(i), lastDup(i), mergeWorks(i), c)
  }

  /**
   * Where every `dup` and merge works, the fence left with a buffer covers the composer's
   * release fence and the fence of its last processor.
   */
  lemma WorkingCallsCoverBoth(release: Fence, process: Fence)
    ensures Covers(LeftWith(Copy(release, true), Copy(process, true), true), Points(release) + Points(process), {})
  {
    LeftCoversIff(release, true, process, true, true);
  }
}
