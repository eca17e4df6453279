/** `DownloadManager` of src/download_manager.rs: the download table, the
    tombstone set of removed gids and the last computed statistics, changed in
    place by adding, retrying, reconciling, removing, purging and deleting.
    Every daemon call is replaced by its answer, passed in as a parameter;
    each method runs as one step. */
module DownloadManager {
  import opened Wrappers
  import opened Text
  import opened Models
  import opened Utils
  import opened Naming
  import opened Reconcile

  /** The entry `add_download` records under the gid the daemon returned. */
  function AddedEntry(input: string, gid: string): (d: Download)
    ensures d.gid == Some(gid) && d.url == Some(input) && d.status == "WAITING"
    ensures d.progress == 0.0 && d.totalLength == 0 && d.completedLength == 0
    ensures d.speedHistory == [] && d.uploadSpeedHistory == []
    ensures d.name == ExtractFilename(input) && d.downloadType == DownloadTypeFor(input)
  {
    DefaultDownload().(gid := Some(gid), name := ExtractFilename(input), url := Some(input),
                       status := "WAITING", downloadType := DownloadTypeFor(input))
  }

  /** Recording a fresh entry under its own gid keeps a table well formed. */
  lemma AddedKeepsWellFormed(t: Table, gid: string, e: Download)
    requires e.gid == Some(gid) && e.speedHistory == [] && e.uploadSpeedHistory == []
    ensures WellFormed(t) ==> WellFormed(t[gid := e])
  {
    if WellFormed(t) {
      forall g | g in t[gid := e]
        ensures t[gid := e][g].gid == Some(g)
      {
        if g != gid {
          assert t[gid := e][g] == t[g];
        }
      }
    }
  }

  /** The gids `purge_completed` selects: finished by progress or by status. */
  function PurgedGids(t: Table): (r: set<string>)
    ensures r <= t.Keys
    ensures forall g :: g in t ==> (g in r <==> IsCompleted(t[g]))
  {
    set g | g in t && IsCompleted(t[g])
  }

  /** The in-place refresh of a known entry by `update_download_from_status`:
      field by field, each history pushed and, past its cap, its oldest
      sample removed. */
  method Refresh(d: Download, s: Snapshot) returns (r: Download)
    ensures r == MergeExisting(d, s)
  {
    var total := ParseOrZero(s.totalLength, U64_MAX);
    var completed := ParseOrZero(s.completedLength, U64_MAX);
    var speed := ParseOrZero(s.downloadSpeed, U64_MAX);
    var upload := ParseOrZero(s.uploadSpeed, U64_MAX);
    r := d.(progress := ProgressOf(total, completed), speed := FormatSpeed(speed),
            uploadSpeed := FormatSpeed(upload), status := Upper(s.status),
            totalLength := total, completedLength := completed,
            connections := ParseOrZero(s.connections, U32_MAX), errorMessage := s.errorMessage);
    if s.bittorrent.Some? {
      r := r.(seeds := ParseOrZero(s.bittorrent.value.numSeeders, U32_MAX));
    }
    r := r.(peers := OptionalCount(s.numPeers), bitfield := s.bitfield, numPieces := OptionalCount(s.numPieces));
    var history := r.speedHistory + [speed];
    if |history| > MAX_SPEED_HISTORY {
      history := history[1..];
    }
    var uploads := r.uploadSpeedHistory + [upload];
    if |uploads| > MAX_SPEED_HISTORY {
      uploads := uploads[1..];
    }
    assert history == PushCapped(d.speedHistory, speed);
    assert uploads == PushCapped(d.uploadSpeedHistory, upload);
    r := r.(speedHistory := history, uploadSpeedHistory := uploads);
    if s.files.Some? && |s.files.value| > 0 && s.files.value[0].path != [] {
      var path := s.files.value[0].path;
      r := r.(filePath := Some(path));
      var name := AfterLast(path, '/');
      if name != [] {
        r := r.(name := name);
      }
    }
  }

  /** The body of the loop of `update_global_stats`: an ACTIVE entry adds
      its latest speeds and counts as active, WAITING and PAUSED count as
      waiting, COMPLETE and ERROR as stopped, any other status adds nothing. */
  method Tally(stats: GlobalStats, d: Download) returns (r: GlobalStats)
    ensures r == Plus(Contribution(d), stats)
  {
    r := stats;
    if d.status == "ACTIVE" {
      r := r.(numActive := r.numActive + 1);
      if d.speedHistory != [] {
        r := r.(downloadSpeed := r.downloadSpeed + d.speedHistory[|d.speedHistory| - 1]);
      }
      if d.uploadSpeedHistory != [] {
        r := r.(uploadSpeed := r.uploadSpeed + d.uploadSpeedHistory[|d.uploadSpeedHistory| - 1]);
      }
    } else if d.status == "WAITING" || d.status == "PAUSED" {
      r := r.(numWaiting := r.numWaiting + 1);
    } else if d.status == "COMPLETE" {
      r := r.(numStopped := r.numStopped + 1);
    } else if d.status == "ERROR" {
      r := r.(numStopped := r.numStopped + 1);
    }
  }

  /** The loop of `update_global_stats` over the entries, in whatever order
      the map yields them; the total is the number of entries. */
  method SumStats(t: Table) returns (stats: GlobalStats)
    ensures stats == StatsOf(t)
  {
    stats := ZERO_STATS;
    var todo := t.Keys;
    while todo != {}
      invariant todo <= t.Keys
      invariant stats == StatsOver(t, t.Keys - todo)
      decreases todo
    {
      var g :| g in todo;
      ghost var done := t.Keys - todo;
      stats := Tally(stats, t[g]);
      StatsOverRemove(t, done + {g}, g);
      assert done + {g} - {g} == done;
      todo := todo - {g};
      assert t.Keys - todo == done + {g};
    }
    assert t.Keys - todo == t.Keys;
    stats := stats.(numStoppedTotal := |t|);
  }

  const NOT_FOUND := "Download not found"
  const NO_URL := "No URL available for retry"

  class Manager {
    var downloads: Table
    var deletedGids: set<string>
    var globalStats: GlobalStats

    /** Entries are stored under their own gid with capped histories. */
    predicate Valid()
      reads this
    {
      WellFormed(downloads)
    }

    /** No tombstoned gid is in the table. */
    predicate TombstonesApart()
      reads this
    {
      deletedGids !! downloads.Keys
    }

    /** `DownloadManager::new`, without starting the daemon. */
    constructor ()
      ensures downloads == map[] && deletedGids == {} && globalStats == ZERO_STATS
      ensures Valid() && TombstonesApart()
    {
      downloads := map[];
      deletedGids := {};
      globalStats := ZERO_STATS;
    }

    /** `add_download`: `call` is the daemon call the input is submitted
        with and `reply` is the daemon's answer to it.  A failure is passed
        on and changes nothing; otherwise the new entry is recorded under the
        returned gid, without consulting the tombstones. */
    method AddDownload(input: string, reply: Result<string, string>) returns (call: Submission, r: Result<string, string>)
      modifies this
      ensures call == SubmissionFor(input)
      ensures r == reply
      ensures reply.Failure? ==> downloads == old(downloads)
      ensures reply.Success? ==> downloads == old(downloads)[reply.value := AddedEntry(input, reply.value)]
      ensures deletedGids == old(deletedGids) && globalStats == old(globalStats)
      ensures old(Valid()) ==> Valid()
      ensures old(TombstonesApart()) && (reply.Success? ==> reply.value !in deletedGids) ==> TombstonesApart()
    {
      if reply.Success? {
        var gid := reply.value;
        var e := AddedEntry(input, gid);
        AddedKeepsWellFormed(downloads, gid, e);
        downloads := downloads[gid := e];
      }
      call, r := SubmissionFor(input), reply;
    }

    /** `remove_download`: the gid is tombstoned first, then dropped from the
        table; the daemon calls that follow are best effort and their outcome
        is ignored. */
    method RemoveDownload(gid: string)
      modifies this
      ensures deletedGids == Tombstone(old(deletedGids), gid)
      ensures downloads == Forget(old(downloads), gid)
      ensures globalStats == old(globalStats)
      ensures old(Valid()) ==> Valid()
      ensures old(TombstonesApart()) ==> TombstonesApart()
    {
      deletedGids := deletedGids + {gid};
      downloads := downloads - {gid};
    }

    /** `retry_download`: an unknown gid and an entry without url are errors
        that change nothing; otherwise the old entry is removed and its url
        added again, and the removal stands even when the new submission
        fails. */
    method RetryDownload(gid: string, reply: Result<string, string>) returns (r: Result<string, string>)
      modifies this
      ensures gid !in old(downloads) ==> r == Failure(NOT_FOUND) && downloads == old(downloads)
                                         && deletedGids == old(deletedGids)
      ensures gid in old(downloads) && old(downloads)[gid].url.None? ==>
                r == Failure(NO_URL) && downloads == old(downloads) && deletedGids == old(deletedGids)
      ensures gid in old(downloads) && old(downloads)[gid].url.Some? ==>
                var removed := Forget(old(downloads), gid);
                && r == reply
                && deletedGids == Tombstone(old(deletedGids), gid)
                && (reply.Failure? ==> downloads == removed)
                && (reply.Success? ==>
                      downloads == removed[reply.value := AddedEntry(old(downloads)[gid].url.value, reply.value)])
      ensures globalStats == old(globalStats)
      ensures old(Valid()) ==> Valid()
    {
      if gid !in downloads {
        return Failure(NOT_FOUND);
      }
      var d := downloads[gid];
      if d.url.None? {
        return Failure(NO_URL);
      }
      RemoveDownload(gid);
      var _, added := AddDownload(d.url.value, reply);
      r := added;
    }

    /** `update_download_from_status`: a tombstoned gid is skipped, a known
        entry is refreshed in place, an unknown gid gets a new entry. */
    method UpdateFromStatus(s: Snapshot)
      modifies this
      ensures downloads == Merge(old(downloads), deletedGids, s)
      ensures deletedGids == old(deletedGids) && globalStats == old(globalStats)
    {
      if s.gid in deletedGids {
        return;
      }
      if s.gid in downloads {
        var d := Refresh(downloads[s.gid], s);
        downloads := downloads[s.gid := d];
      } else {
        downloads := downloads[s.gid := NewEntry(s)];
      }
    }

    /** One loop of `update_downloads` over a report list. */
    method MergeList(ss: seq<Snapshot>)
      modifies this
      ensures downloads == MergeAll(old(downloads), deletedGids, ss)
      ensures deletedGids == old(deletedGids) && globalStats == old(globalStats)
    {
      for i := 0 to |ss|
        invariant downloads == MergeAll(old(downloads), deletedGids, ss[..i])
        invariant deletedGids == old(deletedGids) && globalStats == old(globalStats)
      {
        assert ss[..i + 1][..i] == ss[..i];
        if ss[i].gid !in deletedGids {
          UpdateFromStatus(ss[i]);
        }
      }
      assert ss[..|ss|] == ss;
    }

    /** `update_downloads`: the active, waiting and stopped reports are merged
        in that order, then the statistics are recomputed.  Tombstoned gids
        are neither inserted nor updated, so a removed download stays
        removed. */
    method UpdateDownloads(active: seq<Snapshot>, waiting: seq<Snapshot>, stopped: seq<Snapshot>)
      modifies this
      ensures downloads == Pass(old(downloads), deletedGids, active, waiting, stopped)
      ensures deletedGids == old(deletedGids)
      ensures globalStats == StatsOf(downloads)
      ensures old(Valid()) ==> Valid()
      ensures old(TombstonesApart()) ==> TombstonesApart()
      ensures forall g :: g in deletedGids ==> (g in downloads <==> g in old(downloads))
    {
      MergeList(active);
      MergeList(waiting);
      MergeList(stopped);
      if old(Valid()) {
        PassWellFormed(old(downloads), deletedGids, active, waiting, stopped);
      }
      UpdateGlobalStats();
    }

    /** `update_global_stats`: one loop over the entries, in whatever order
        the map yields them. */
    method UpdateGlobalStats()
      modifies this
      ensures globalStats == StatsOf(downloads)
      ensures downloads == old(downloads) && deletedGids == old(deletedGids)
    {
      globalStats := SumStats(downloads);
    }

    /** `purge_completed`: every entry finished by progress or by status is
        removed as `remove_download` removes it, and their number is
        returned; ERROR entries stay. */
    method PurgeCompleted() returns (count: nat)
      modifies this
      ensures count == |PurgedGids(old(downloads))|
      ensures downloads == old(downloads) - PurgedGids(old(downloads))
      ensures deletedGids == old(deletedGids) + PurgedGids(old(downloads))
      ensures globalStats == old(globalStats)
      ensures old(Valid()) ==> Valid()
      ensures old(TombstonesApart()) ==> TombstonesApart()
    {
      var purged := PurgedGids(downloads);
      count := |purged|;
      var todo := purged;
      while todo != {}
        invariant todo <= purged
        invariant downloads == old(downloads) - (purged - todo)
        invariant deletedGids == old(deletedGids) + (purged - todo)
        invariant globalStats == old(globalStats)
        invariant old(Valid()) ==> Valid()
        invariant old(TombstonesApart()) ==> TombstonesApart()
        decreases todo
      {
        var g :| g in todo;
        ghost var done := purged - todo;
        RemoveDownload(g);
        assert purged - (todo - {g}) == done + {g};
        ForgetOneMore(old(downloads), done, g);
        todo := todo - {g};
      }
    }

    /** `delete_file`: an unknown gid is an error that changes nothing;
        otherwise the entry is removed first and the outcome of deleting its
        file (`fileError`, the file system's error if it failed) decides the
        message.  The removal stands when the deletion fails. */
    method DeleteFile(gid: string, fileError: Option<string>) returns (r: Result<string, string>)
      modifies this
      ensures gid !in old(downloads) ==>
                r == Failure(NOT_FOUND) && downloads == old(downloads) && deletedGids == old(deletedGids)
      ensures gid in old(downloads) ==>
                var d := old(downloads)[gid];
                && downloads == Forget(old(downloads), gid)
                && deletedGids == Tombstone(old(deletedGids), gid)
                && (d.filePath.None? ==> r == Success("Removed from list: " + d.name + " (file not found)"))
                && (d.filePath.Some? && fileError.None? ==> r == Success("Deleted file: " + d.name))
                && (d.filePath.Some? && fileError.Some? ==>
                      r == Failure("Failed to delete file " + d.name + ": " + fileError.value))
      ensures globalStats == old(globalStats)
      ensures old(Valid()) ==> Valid()
    {
      if gid !in downloads {
        return Failure(NOT_FOUND);
      }
      var d := downloads[gid];
      RemoveDownload(gid);
      if d.filePath.Some? {
        if fileError.None? {
          r := Success("Deleted file: " + d.name);
        } else {
          r := Failure("Failed to delete file " + d.name + ": " + fileError.value);
        }
      } else {
        r := Success("Removed from list: " + d.name + " (file not found)");
      }
    }

    /** `get_active_downloads`: progress strictly between 0 and 1, whatever
        the status. */
    function ActiveDownloads(): (r: set<Download>)
      reads this
      ensures forall d :: d in r <==> d in downloads.Values && 0.0 < d.progress < 1.0
    {
      set d | d in downloads.Values && 0.0 < d.progress < 1.0
    }

    /** `get_queued_downloads`: WAITING or not started; unlike the Queue tab,
        PAUSED entries with progress are not included. */
    function QueuedDownloads(): (r: set<Download>)
      reads this
      ensures forall d :: d in r <==> d in downloads.Values && (d.status == "WAITING" || d.progress == 0.0)
    {
      set d | d in downloads.Values && (d.status == "WAITING" || d.progress == 0.0)
    }

    /** `get_completed_downloads`: exactly the entries `purge_completed`
        would remove. */
    function CompletedDownloads(): (r: set<Download>)
      reads this
      ensures forall d :: d in r <==> d in downloads.Values && IsCompleted(d)
      ensures forall g :: g in PurgedGids(downloads) ==> downloads[g] in r
    {
      set d | d in downloads.Values && IsCompleted(d)
    }

    /** `get_download`. */
    function GetDownload(gid: string): (r: Option<Download>)
      reads this
      ensures r.Some? <==> gid in downloads
      ensures r.Some? ==> r.value == downloads[gid]
    {
      if gid in downloads then Some(downloads[gid]) else None
    }
  }

  /** Forgetting the gids of `done` and then `g` forgets `done + {g}`. */
  lemma ForgetOneMore(t: Table, done: set<string>, g: string)
    ensures Forget(t - done, g) == t - (done + {g})
  {
  }

  /** How the manager's getters differ from the tabs of the interface: the
      completed set agrees with the Completed tab, the queued set misses only
      paused entries that have made progress, and the active set misses only
      entries whose status is ACTIVE at progress 0 or 1 and adds only WAITING
      entries with progress. */
  lemma GettersAgainstTabs(d: Download)
    ensures IsCompleted(d) <==> (d.progress >= 1.0 || d.status == "COMPLETE")
    ensures (d.status == "WAITING" || d.progress == 0.0) ==> IsQueued(d)
    ensures IsQueued(d) && !(d.status == "WAITING" || d.progress == 0.0) <==> d.status == "PAUSED" && d.progress != 0.0
    ensures 0.0 < d.progress < 1.0 && !IsActive(d) <==> 0.0 < d.progress < 1.0 && d.status == "WAITING"
    ensures IsActive(d) && !(0.0 < d.progress < 1.0) ==> d.status == "ACTIVE"
  {
  }

  /** A full removal followed by any number of reconciliation passes: the
      removed gid never returns. */
  method RemoveThenUpdate(m: Manager, gid: string, reports: seq<(seq<Snapshot>, seq<Snapshot>, seq<Snapshot>)>)
    modifies m
    ensures gid !in m.downloads && gid in m.deletedGids
  {
    m.RemoveDownload(gid);
    for i := 0 to |reports|
      invariant gid !in m.downloads && gid in m.deletedGids
    {
      m.UpdateDownloads(reports[i].0, reports[i].1, reports[i].2);
    }
  }
}
