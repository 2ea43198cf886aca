/**
 * Release fences (common/base/DrmSync.cpp) and the way a tunnel instance accumulates
 * them for one buffer (common/videotunnel/VtInstance.cpp).
 *
 * A sync file is the set of timeline points it waits for; it has signalled when all of
 * them have. Time only adds signalled points.
 */
module DrmSync {
  import opened VideoTunnelTypes

  /** A `DrmFence` object: `NoFence` wraps descriptor -1. */
  datatype Fence = NoFence | Sync(points: set<nat>)

  /**
   * How the status of a pending fence is read. `onFrameDisplayed` reads it up to three
   * times: it may come back as an error, or change between the reads so that no branch fits.
   */
  datatype Reading = Pending | Invalid | Changed

  /** What system calls come to during one report: the status reads, `sync_merge`, and `dup` at the release. */
  datatype Luck = Luck(reading: Reading, mergeOk: bool, dupOk: bool)

  function Points(f: Fence): set<nat> {
    if f.Sync? then f.points else {}
  }

  predicate Signals(f: Fence, signalled: set<nat>) {
    Points(f) <= signalled
  }

  /** `DrmFence::merge`; `ok` is whether `sync_merge` succeeds. */
  function Merge(f1: Fence, f2: Fence, ok: bool): Fence {
    if !f1.Sync? && !f2.Sync? then NoFence
    else if !ok then NoFence
    else if f1.Sync? && f2.Sync? then Sync(f1.points + f2.points)
    else if f1.Sync? then f1
    else f2
  }

  /**
   * What `onFrameDisplayed` leaves in the item's release fence. `report` is None for a
   * descriptor below -1. A fence that has signalled, is absent or reads as an error is
   * replaced, a pending one is merged, and one whose status changes in between is left alone.
   */
  function Record(f: Fence, report: Option<Fence>, signalled: set<nat>, luck: Luck): Fence {
    match report
    case None => f
    case Some(r) =>
      if Signals(f, signalled) || luck.reading.Invalid? then r
      else if luck.reading.Changed? then f
      else Merge(f, r, luck.mergeOk)
  }

  function ReportPoints(report: Option<Fence>): set<nat> {
    if report.Some? then Points(report.value) else {}
  }

  /** The fence the driver gets: a duplicate, or none when duplication fails. */
  function Duplicated(f: Fence, luck: Luck): Fence {
    if luck.dupOk then f else NoFence
  }

  /** Unsignalled points that a report drops: each of its three failing branches forgets one side or both. */
  function Forgotten(f: Fence, report: Option<Fence>, signalled: set<nat>, luck: Luck): set<nat> {
    if report.None? || Signals(f, signalled) then {}
    else
      match luck.reading
      case Invalid => Points(f) - ReportPoints(report) - signalled
      case Changed => ReportPoints(report) - Points(f) - signalled
      case Pending => if luck.mergeOk then {} else Points(f) + ReportPoints(report) - signalled
  }

  /** Every point of `reported` is awaited by `f` or has already signalled. */
  ghost predicate Covers(f: Fence, reported: set<nat>, signalled: set<nat>) {
    reported <= Points(f) + signalled
  }

  /** `Covers` is exactly "f cannot signal, now or later, before every reported point has". */
  lemma CoversMeansNeverEarly(f: Fence, reported: set<nat>, signalled: set<nat>)
    ensures Covers(f, reported, signalled)
       <==> forall later: set<nat> :: signalled <= later && Signals(f, later) ==> reported <= later
  {
  }

  /** One consumer's report keeps the coverage exactly when no branch of it drops an unsignalled point. */
  lemma RecordCoversIff(f: Fence, reported: set<nat>, report: Option<Fence>, signalled: set<nat>, luck: Luck)
    requires Covers(f, reported, signalled) && Points(f) <= reported
    ensures Covers(Record(f, report, signalled, luck), reported + ReportPoints(report), signalled)
       <==> Forgotten(f, report, signalled, luck) == {}
  {
    var drop, after := Forgotten(f, report, signalled, luck), Record(f, report, signalled, luck);
    if drop == {} {
      forall p | p in reported + ReportPoints(report) ensures p in Points(after) + signalled {
        assert p !in drop;
      }
    } else {
      var p :| p in drop;
      assert p in reported + ReportPoints(report) && p !in Points(after) + signalled;
    }
  }

  // ---- the account of one buffer ----

  /** Points dropped and not reported again since. */
  function Lost(lost: set<nat>, f: Fence, report: Option<Fence>, signalled: set<nat>, luck: Luck): set<nat> {
    (lost + Forgotten(f, report, signalled, luck)) - Points(Record(f, report, signalled, luck))
  }

  /** Every reported point is awaited, lost, or has signalled; and the lost ones are not awaited. */
  ghost predicate Accounted(f: Fence, reported: set<nat>, lost: set<nat>, signalled: set<nat>) {
    && reported <= Points(f) + lost + signalled && Points(f) <= reported
    && lost <= reported && lost !! Points(f)
  }

  lemma RecordKeepsAccount(f: Fence, reported: set<nat>, lost: set<nat>, report: Option<Fence>, signalled: set<nat>,
                           luck: Luck)
    requires Accounted(f, reported, lost, signalled)
    ensures Accounted(Record(f, report, signalled, luck), reported + ReportPoints(report),
                      Lost(lost, f, report, signalled, luck), signalled)
  {
  }

  lemma DuplicatedKeepsAccount(f: Fence, reported: set<nat>, lost: set<nat>, signalled: set<nat>, luck: Luck)
    requires Accounted(f, reported, lost, signalled)
    ensures Accounted(Duplicated(f, luck), reported, lost + Points(f) - Points(Duplicated(f, luck)), signalled)
  {
  }

  /** At any later time the fence covers the reports exactly when what was lost has signalled by then. */
  lemma CoversIffLostSignalled(f: Fence, reported: set<nat>, lost: set<nat>, signalled: set<nat>, now: set<nat>)
    requires Accounted(f, reported, lost, signalled) && signalled <= now
    ensures Covers(f, reported, now) <==> lost <= now
  {
    if Covers(f, reported, now) {
      forall p | p in lost ensures p in now {
        assert p in reported && p !in Points(f);
      }
    }
  }

  // ---- any number of reports ----

  /** A later report, with the points that had signalled by then. */
  datatype Report = Report(fence: Option<Fence>, signalled: set<nat>, luck: Luck)

  function RecordAll(reports: seq<Report>): Fence {
    if reports == [] then NoFence
    else
      var last := reports[|reports| - 1];
      Record(RecordAll(reports[..|reports| - 1]), last.fence, last.signalled, last.luck)
  }

  function AllPoints(reports: seq<Report>): set<nat> {
    if reports == [] then {}
    else AllPoints(reports[..|reports| - 1]) + ReportPoints(reports[|reports| - 1].fence)
  }

  function AllLost(reports: seq<Report>): set<nat> {
    if reports == [] then {}
    else
      var front, last := reports[..|reports| - 1], reports[|reports| - 1];
      Lost(AllLost(front), RecordAll(front), last.fence, last.signalled, last.luck)
  }

  ghost predicate TimePasses(reports: seq<Report>, now: set<nat>) {
    && (forall i, j :: 0 <= i < j < |reports| ==> reports[i].signalled <= reports[j].signalled)
    && (reports != [] ==> reports[|reports| - 1].signalled <= now)
  }

  lemma {:induction false} AllAccounted(reports: seq<Report>, now: set<nat>)
    requires TimePasses(reports, now)
    ensures Accounted(RecordAll(reports), AllPoints(reports), AllLost(reports), now)
  {
    if reports != [] {
      var front, last := reports[..|reports| - 1], reports[|reports| - 1];
      AllAccounted(front, last.signalled);
      RecordKeepsAccount(RecordAll(front), AllPoints(front), AllLost(front), last.fence, last.signalled, last.luck);
    }
  }

  /**
   * Any number of consumer reports in any order, with any system call failing: the fence
   * handed to the driver cannot signal before every reported fence has, exactly when every
   * point that was dropped and not reported again has signalled, and duplication works or
   * the fence has signalled too.
   */
  lemma ReleaseCoversIff(reports: seq<Report>, now: set<nat>, luck: Luck)
    requires TimePasses(reports, now)
    ensures Covers(Duplicated(RecordAll(reports), luck), AllPoints(reports), now)
       <==> AllLost(reports) <= now && (luck.dupOk || Signals(RecordAll(reports), now))
  {
    var f := RecordAll(reports);
    AllAccounted(reports, now);
    DuplicatedKeepsAccount(f, AllPoints(reports), AllLost(reports), now, luck);
    CoversIffLostSignalled(Duplicated(f, luck), AllPoints(reports),
                           AllLost(reports) + Points(f) - Points(Duplicated(f, luck)), now, now);
  }

  predicate Works(luck: Luck) {
    luck.reading.Pending? && luck.mergeOk && luck.dupOk
  }

  /** Where every call works nothing is lost. */
  lemma {:induction false} WorkingCallsLoseNothing(reports: seq<Report>)
    requires forall i :: 0 <= i < |reports| ==> Works(reports[i].luck)
    ensures AllLost(reports) == {}
  {
    if reports != [] {
      WorkingCallsLoseNothing(reports[..|reports| - 1]);
      assert Works(reports[|reports| - 1].luck);
    }
  }
}
