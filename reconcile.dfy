/** The merge rule of src/download_manager.rs: how one status report of the
    download daemon is folded into the download table (`update_download_from_status`),
    how a pass folds three report lists (`update_downloads`), and how the
    aggregate statistics are recomputed (`update_global_stats`).  The daemon
    is abstracted to the reports themselves. */
module Reconcile {
  import opened Wrappers
  import opened Text
  import opened Models
  import opened Utils
  import opened Naming

  /** `MAX_SPEED_HISTORY`: the speed-history window. */
  const MAX_SPEED_HISTORY: nat := 60

  datatype FileEntry = FileEntry(path: string)

  datatype BtInfo = BtInfo(numSeeders: string)

  /** One status report of the daemon, numbers still as the text it sends. */
  datatype Snapshot = Snapshot(
    gid: string,
    status: string,
    totalLength: string,
    completedLength: string,
    downloadSpeed: string,
    uploadSpeed: string,
    connections: string,
    errorMessage: Option<string>,
    files: Option<seq<FileEntry>>,
    bittorrent: Option<BtInfo>,
    numPeers: Option<string>,
    bitfield: Option<string>,
    numPieces: Option<string>)

  type Table = map<string, Download>

  // ---------------------------------------------------------------------------
  // Parts of the merge rule

  /** The completed fraction; 0 while the total is unknown. */
  function ProgressOf(total: nat, completed: nat): (p: real)
    ensures total == 0 ==> p == 0.0
    ensures total > 0 ==> p * total as real == completed as real
    ensures p >= 0.0
    ensures completed <= total ==> p <= 1.0
  {
    if total > 0 then
      var p := completed as real / total as real;
      assert p * total as real == completed as real;
      p
    else 0.0
  }

  /** Append the newest sample and drop the oldest once the window holds more
      than `MAX_SPEED_HISTORY` samples. */
  function PushCapped(h: seq<nat>, x: nat): (r: seq<nat>)
    ensures |r| >= 1 && r[|r| - 1] == x
    ensures |h| < MAX_SPEED_HISTORY ==> r == h + [x]
    ensures |h| == MAX_SPEED_HISTORY ==> r == h[1..] + [x]
    ensures |h| <= MAX_SPEED_HISTORY ==> |r| <= MAX_SPEED_HISTORY
  {
    var pushed := h + [x];
    if |pushed| > MAX_SPEED_HISTORY then pushed[1..] else pushed
  }

  /** Every sample of a history window stays in order, newest last: after
      `k` pushes into an empty window the window is the last (at most 60) of
      the pushed samples. */
  function PushAll(h: seq<nat>, xs: seq<nat>): seq<nat>
    decreases |xs|
  {
    if xs == [] then h else PushCapped(PushAll(h, xs[..|xs| - 1]), xs[|xs| - 1])
  }

  lemma {:induction false} WindowIsSuffix(xs: seq<nat>)
    ensures |xs| <= MAX_SPEED_HISTORY ==> PushAll([], xs) == xs
    ensures |xs| > MAX_SPEED_HISTORY ==> PushAll([], xs) == xs[|xs| - MAX_SPEED_HISTORY..]
    decreases |xs|
  {
    if xs != [] {
      var init := xs[..|xs| - 1];
      WindowIsSuffix(init);
      if |xs| > MAX_SPEED_HISTORY + 1 {
        var w := init[|init| - MAX_SPEED_HISTORY..];
        assert w[1..] == xs[|xs| - MAX_SPEED_HISTORY..|xs| - 1];
        assert xs[|xs| - MAX_SPEED_HISTORY..] == xs[|xs| - MAX_SPEED_HISTORY..|xs| - 1] + [xs[|xs| - 1]];
      } else if |xs| == MAX_SPEED_HISTORY + 1 {
        assert |xs| - MAX_SPEED_HISTORY == 1;
        assert init[1..] == xs[1..|xs| - 1];
        assert xs[1..] == xs[1..|xs| - 1] + [xs[|xs| - 1]];
      } else {
        assert init + [xs[|xs| - 1]] == xs;
      }
    }
  }

  /** The path of the first reported file, when there is one and it is
      non-empty. */
  function FirstFilePath(s: Snapshot): (r: Option<string>)
    ensures r.Some? ==> r.value != [] && s.files.Some? && |s.files.value| > 0 && r.value == s.files.value[0].path
  {
    match s.files
    case Some(fs) => if |fs| > 0 && fs[0].path != [] then Some(fs[0].path) else None
    case None => None
  }

  /** `s.parse().ok()` on an optional field, then `unwrap_or(0)`. */
  function OptionalCount(f: Option<string>): (n: nat)
    ensures n <= U32_MAX
    ensures f.None? ==> n == 0
  {
    match f
    case Some(t) => ParseOrZero(t, U32_MAX)
    case None => 0
  }

  function TotalOf(s: Snapshot): nat { ParseOrZero(s.totalLength, U64_MAX) }
  function CompletedOf(s: Snapshot): nat { ParseOrZero(s.completedLength, U64_MAX) }
  function SpeedOf(s: Snapshot): nat { ParseOrZero(s.downloadSpeed, U64_MAX) }
  function UploadOf(s: Snapshot): nat { ParseOrZero(s.uploadSpeed, U64_MAX) }

  /** The fields that both branches of the merge rule take from the report. */
  predicate ShowsReport(d: Download, s: Snapshot) {
    && d.progress == ProgressOf(TotalOf(s), CompletedOf(s))
    && d.speed == FormatSpeed(SpeedOf(s))
    && d.uploadSpeed == FormatSpeed(UploadOf(s))
    && d.status == Upper(s.status)
    && d.totalLength == TotalOf(s)
    && d.completedLength == CompletedOf(s)
    && d.connections == ParseOrZero(s.connections, U32_MAX)
    && d.errorMessage == s.errorMessage
    && d.peers == OptionalCount(s.numPeers)
    && d.bitfield == s.bitfield
    && d.numPieces == OptionalCount(s.numPieces)
  }

  /** The merge rule for a gid already in the table: the reported fields are
      overwritten, both histories get the new sample, and the url, type and gid
      stay; seeds change only with torrent information, and the file path and
      name only when the first file has a non-empty path (the name only when
      its last segment is non-empty). */
  function MergeExisting(d: Download, s: Snapshot): (r: Download)
    ensures ShowsReport(r, s)
    ensures r.gid == d.gid && r.url == d.url && r.downloadType == d.downloadType
    ensures s.bittorrent.None? ==> r.seeds == d.seeds
    ensures s.bittorrent.Some? ==> r.seeds == ParseOrZero(s.bittorrent.value.numSeeders, U32_MAX)
    ensures r.speedHistory == PushCapped(d.speedHistory, SpeedOf(s))
    ensures r.uploadSpeedHistory == PushCapped(d.uploadSpeedHistory, UploadOf(s))
    ensures FirstFilePath(s).None? ==> r.filePath == d.filePath && r.name == d.name
    ensures FirstFilePath(s).Some? ==> r.filePath == FirstFilePath(s)
    ensures FirstFilePath(s).Some? && LastSegment(FirstFilePath(s).value).Some? ==>
              r.name == LastSegment(FirstFilePath(s).value).value
    ensures FirstFilePath(s).Some? && LastSegment(FirstFilePath(s).value).None? ==> r.name == d.name
  {
    var total := TotalOf(s);
    var completed := CompletedOf(s);
    var speed := SpeedOf(s);
    var upload := UploadOf(s);
    var reported := d.(
      progress := ProgressOf(total, completed),
      speed := FormatSpeed(speed),
      uploadSpeed := FormatSpeed(upload),
      status := Upper(s.status),
      totalLength := total,
      completedLength := completed,
      connections := ParseOrZero(s.connections, U32_MAX),
      errorMessage := s.errorMessage,
      seeds := if s.bittorrent.Some? then ParseOrZero(s.bittorrent.value.numSeeders, U32_MAX) else d.seeds,
      peers := OptionalCount(s.numPeers),
      bitfield := s.bitfield,
      numPieces := OptionalCount(s.numPieces),
      speedHistory := PushCapped(d.speedHistory, speed),
      uploadSpeedHistory := PushCapped(d.uploadSpeedHistory, upload));
    match FirstFilePath(s)
    case None => reported
    case Some(path) =>
      match LastSegment(path)
      case Some(name) => reported.(filePath := Some(path), name := name)
      case None => reported.(filePath := Some(path))
  }

  /** The entry created for a gid the table does not know: no url, typed as a
      torrent exactly when torrent information is reported, one sample in
      each history, named after the first file or "Unknown". */
  function NewEntry(s: Snapshot): (d: Download)
    ensures ShowsReport(d, s)
    ensures d.gid == Some(s.gid) && d.url == None
    ensures d.downloadType == (if s.bittorrent.Some? then Torrent else Http)
    ensures d.speedHistory == [SpeedOf(s)] && d.uploadSpeedHistory == [UploadOf(s)]
    ensures d.filePath == FirstFilePath(s)
    ensures d.name == (if FirstFilePath(s).Some? && LastSegment(FirstFilePath(s).value).Some?
                       then LastSegment(FirstFilePath(s).value).value else "Unknown")
    ensures d.seeds == (if s.bittorrent.Some? then ParseOrZero(s.bittorrent.value.numSeeders, U32_MAX) else 0)
  {
    var total := TotalOf(s);
    var completed := CompletedOf(s);
    var name := match FirstFilePath(s)
      case Some(path) => (match LastSegment(path) case Some(n) => n case None => "Unknown")
      case None => "Unknown";
    Download(
      Some(s.gid), name, None, ProgressOf(total, completed), FormatSpeed(SpeedOf(s)),
      Upper(s.status), total, completed,
      if s.bittorrent.Some? then Torrent else Http,
      [SpeedOf(s)], FormatSpeed(UploadOf(s)), [UploadOf(s)],
      ParseOrZero(s.connections, U32_MAX), FirstFilePath(s), s.errorMessage,
      if s.bittorrent.Some? then ParseOrZero(s.bittorrent.value.numSeeders, U32_MAX) else 0,
      OptionalCount(s.numPeers), s.bitfield, OptionalCount(s.numPieces))
  }

  /** Numbers the daemon sends in a form `str::parse` rejects are stored as 0. */
  lemma UnparsableIsZero(d: Download, s: Snapshot)
    requires ParseUnsigned(s.totalLength, U64_MAX).None?
    requires ParseUnsigned(s.connections, U32_MAX).None?
    ensures NewEntry(s).totalLength == 0 && NewEntry(s).progress == 0.0
    ensures NewEntry(s).connections == 0
    ensures MergeExisting(d, s).totalLength == 0 && MergeExisting(d, s).progress == 0.0
  {
  }

  /** Whatever the table held before, a reported gid ends up showing the
      report: an existing entry and a new one agree on every field the
      daemon reports, and differ only in what the table remembers. */
  lemma MergeAgreesWithNew(d: Download, s: Snapshot)
    requires d.gid == Some(s.gid)
    ensures ShowsReport(MergeExisting(d, s), s) && ShowsReport(NewEntry(s), s)
    ensures MergeExisting(d, s).gid == NewEntry(s).gid
    ensures MergeExisting(d, s).speedHistory[|MergeExisting(d, s).speedHistory| - 1]
            == NewEntry(s).speedHistory[0]
  {
  }

  // ---------------------------------------------------------------------------
  // One report, one list, one pass

  /** Entries are stored under their own gid and their windows are capped. */
  predicate WellFormed(t: Table) {
    forall g :: g in t ==>
      t[g].gid == Some(g)
      && |t[g].speedHistory| <= MAX_SPEED_HISTORY
      && |t[g].uploadSpeedHistory| <= MAX_SPEED_HISTORY
  }

  /** `update_download_from_status`: a tombstoned gid is skipped; otherwise the
      entry is merged or created. */
  function Merge(t: Table, deleted: set<string>, s: Snapshot): (r: Table)
    ensures s.gid in deleted ==> r == t
    ensures s.gid !in deleted ==> r.Keys == t.Keys + {s.gid}
    ensures s.gid !in deleted && s.gid in t ==> r[s.gid] == MergeExisting(t[s.gid], s)
    ensures s.gid !in deleted && s.gid !in t ==> r[s.gid] == NewEntry(s)
    ensures forall g :: g in t && g != s.gid ==> g in r && r[g] == t[g]
  {
    if s.gid in deleted then t
    else if s.gid in t then t[s.gid := MergeExisting(t[s.gid], s)]
    else t[s.gid := NewEntry(s)]
  }

  /** A report list merged in order: exactly the reported gids that are not
      tombstoned are added, and a tombstoned gid is neither added nor
      changed. */
  function MergeAll(t: Table, deleted: set<string>, ss: seq<Snapshot>): (r: Table)
    ensures r.Keys == t.Keys + Reported(deleted, ss)
    ensures forall g :: g in deleted ==> (g in r <==> g in t)
    ensures forall g :: g in deleted && g in t ==> r[g] == t[g]
    decreases |ss|
  {
    if ss == [] then t
    else
      ReportedSnoc(deleted, ss);
      Merge(MergeAll(t, deleted, ss[..|ss| - 1]), deleted, ss[|ss| - 1])
  }

  /** The gids of a report list that are not tombstoned. */
  function Reported(deleted: set<string>, ss: seq<Snapshot>): set<string> {
    set i | 0 <= i < |ss| && ss[i].gid !in deleted :: ss[i].gid
  }

  /** One pass of `update_downloads`: active, then waiting, then stopped.
      The reported gids that are not tombstoned are added, and tombstoned
      gids are neither inserted nor updated. */
  function Pass(t: Table, deleted: set<string>, active: seq<Snapshot>, waiting: seq<Snapshot>,
                stopped: seq<Snapshot>): (r: Table)
    ensures r.Keys == t.Keys + Reported(deleted, active) + Reported(deleted, waiting) + Reported(deleted, stopped)
    ensures forall g :: g in deleted ==> (g in r <==> g in t)
    ensures forall g :: g in deleted && g in t ==> r[g] == t[g]
  {
    MergeAll(MergeAll(MergeAll(t, deleted, active), deleted, waiting), deleted, stopped)
  }

  /** Merging keeps the table well formed. */
  lemma MergeWellFormed(t: Table, deleted: set<string>, s: Snapshot)
    requires WellFormed(t)
    ensures WellFormed(Merge(t, deleted, s))
  {
  }

  /** The reported gids of a list with one more report. */
  lemma ReportedSnoc(deleted: set<string>, ss: seq<Snapshot>)
    requires ss != []
    ensures var last := ss[|ss| - 1];
            Reported(deleted, ss)
            == Reported(deleted, ss[..|ss| - 1]) + (if last.gid in deleted then {} else {last.gid})
  {
    var init := ss[..|ss| - 1];
    var last := ss[|ss| - 1];
    forall g | g in Reported(deleted, ss)
      ensures g in Reported(deleted, init) + (if last.gid in deleted then {} else {last.gid})
    {
      var i :| 0 <= i < |ss| && ss[i].gid !in deleted && ss[i].gid == g;
      if i < |init| { assert init[i] == ss[i]; }
    }
    forall g | g in Reported(deleted, init) ensures g in Reported(deleted, ss) {
      var i :| 0 <= i < |init| && init[i].gid !in deleted && init[i].gid == g;
      assert ss[i] == init[i];
    }
  }

  /** A list merge keeps the table well formed. */
  lemma {:induction false} MergeAllWellFormed(t: Table, deleted: set<string>, ss: seq<Snapshot>)
    requires WellFormed(t)
    ensures WellFormed(MergeAll(t, deleted, ss))
    decreases |ss|
  {
    if ss != [] {
      MergeAllWellFormed(t, deleted, ss[..|ss| - 1]);
      MergeWellFormed(MergeAll(t, deleted, ss[..|ss| - 1]), deleted, ss[|ss| - 1]);
    }
  }

  /** A pass keeps the table well formed. */
  lemma PassWellFormed(t: Table, deleted: set<string>, active: seq<Snapshot>, waiting: seq<Snapshot>,
                       stopped: seq<Snapshot>)
    requires WellFormed(t)
    ensures WellFormed(Pass(t, deleted, active, waiting, stopped))
  {
    var t1 := MergeAll(t, deleted, active);
    var t2 := MergeAll(t1, deleted, waiting);
    MergeAllWellFormed(t, deleted, active);
    MergeAllWellFormed(t1, deleted, waiting);
    MergeAllWellFormed(t2, deleted, stopped);
  }

  // ---------------------------------------------------------------------------
  // Removal against concurrent passes

  /** `remove_download` in two steps: the tombstone, then the table. */
  function Tombstone(deleted: set<string>, g: string): set<string> { deleted + {g} }

  function Forget(t: Table, g: string): Table { t - {g} }

  /** Once a gid has been removed (tombstoned and dropped from the table),
      no number of later passes, whatever they report, brings it back. */
  lemma {:induction false} RemovedStaysRemoved(t: Table, deleted: set<string>, g: string,
                                               passes: seq<(seq<Snapshot>, seq<Snapshot>, seq<Snapshot>)>)
    requires g in deleted && g !in t
    ensures g !in Passes(t, deleted, passes)
    decreases |passes|
  {
    if passes != [] {
      var init := passes[..|passes| - 1];
      RemovedStaysRemoved(t, deleted, g, init);
    }
  }

  /** Several passes in a row, with the tombstones fixed. */
  function Passes(t: Table, deleted: set<string>, passes: seq<(seq<Snapshot>, seq<Snapshot>, seq<Snapshot>)>): Table
    decreases |passes|
  {
    if passes == [] then t
    else
      var p := passes[|passes| - 1];
      Pass(Passes(t, deleted, passes[..|passes| - 1]), deleted, p.0, p.1, p.2)
  }

  /** A pass that runs between the two steps of a removal cannot touch the
      gid: once the tombstone is set, the pass leaves the gid's entry as it
      was (or absent), whatever it reports, so the second step removes the
      entry the user saw; a pass after both steps keeps it out. */
  lemma PassBetweenRemovalSteps(t: Table, deleted: set<string>, g: string,
                                active: seq<Snapshot>, waiting: seq<Snapshot>, stopped: seq<Snapshot>)
    ensures var d := Tombstone(deleted, g);
            var t' := Pass(t, d, active, waiting, stopped);
            (g in t' <==> g in t) && (g in t ==> t'[g] == t[g]) && g !in Forget(t', g)
    ensures var d := Tombstone(deleted, g);
            g !in Pass(Forget(t, g), d, active, waiting, stopped)
  {
  }

  /** Why the tombstone comes first: with the two steps the other way round, a
      pass between them that still reports the gid puts it back. */
  lemma ForgetFirstResurrects(t: Table, deleted: set<string>, s: Snapshot)
    requires s.gid !in deleted
    ensures var t' := Merge(Forget(t, s.gid), deleted, s);
            s.gid in t' && s.gid in Tombstone(deleted, s.gid)
  {
  }

  // ---------------------------------------------------------------------------
  // Statistics

  function LastOrZero(h: seq<nat>): nat {
    if h == [] then 0 else h[|h| - 1]
  }

  /** What one download adds to the statistics: an ACTIVE entry adds its
      newest download and upload samples, any other entry no speed. */
  function Contribution(d: Download): (c: GlobalStats)
    ensures c.numActive + c.numWaiting + c.numStopped <= 1
    ensures c.downloadSpeed == if d.status == "ACTIVE" then LastOrZero(d.speedHistory) else 0
    ensures c.uploadSpeed == if d.status == "ACTIVE" then LastOrZero(d.uploadSpeedHistory) else 0
  {
    if d.status == "ACTIVE" then GlobalStats(LastOrZero(d.speedHistory), LastOrZero(d.uploadSpeedHistory), 1, 0, 0, 0)
    else if d.status == "WAITING" || d.status == "PAUSED" then GlobalStats(0, 0, 0, 1, 0, 0)
    else if d.status == "COMPLETE" || d.status == "ERROR" then GlobalStats(0, 0, 0, 0, 1, 0)
    else ZERO_STATS
  }

  function Plus(a: GlobalStats, b: GlobalStats): GlobalStats {
    GlobalStats(a.downloadSpeed + b.downloadSpeed, a.uploadSpeed + b.uploadSpeed,
                a.numActive + b.numActive, a.numWaiting + b.numWaiting,
                a.numStopped + b.numStopped, a.numStoppedTotal + b.numStoppedTotal)
  }

  /** The contributions of the entries under `ks`, in any order. */
  ghost function StatsOver(t: Table, ks: set<string>): GlobalStats
    requires ks <= t.Keys
    decreases ks
  {
    if ks == {} then ZERO_STATS
    else
      var k :| k in ks;
      Plus(Contribution(t[k]), StatsOver(t, ks - {k}))
  }

  /** The statistics `update_global_stats` computes for a table. */
  ghost function StatsOf(t: Table): (r: GlobalStats)
    ensures r.numStoppedTotal == |t|
    ensures r.numActive + r.numWaiting + r.numStopped <= r.numStoppedTotal
  {
    StatsOverAtMostOneEach(t, t.Keys);
    assert |t.Keys| == |t|;
    StatsOver(t, t.Keys).(numStoppedTotal := |t|)
  }

  /** Each entry is counted under at most one of the three counters. */
  lemma {:induction false} StatsOverAtMostOneEach(t: Table, ks: set<string>)
    requires ks <= t.Keys
    ensures StatsOver(t, ks).numActive + StatsOver(t, ks).numWaiting + StatsOver(t, ks).numStopped <= |ks|
    decreases ks
  {
    if ks != {} {
      var k := StatsOverPick(t, ks);
      StatsOverAtMostOneEach(t, ks - {k});
    }
  }

  /** Adding two contributions in either order gives the same statistics. */
  lemma PlusSwap(a: GlobalStats, b: GlobalStats, c: GlobalStats)
    ensures Plus(a, Plus(b, c)) == Plus(b, Plus(a, c))
  {
  }

  /** One unfolding of `StatsOver`, with the entry it picked. */
  lemma StatsOverPick(t: Table, ks: set<string>) returns (k: string)
    requires ks <= t.Keys && ks != {}
    ensures k in ks && StatsOver(t, ks) == Plus(Contribution(t[k]), StatsOver(t, ks - {k}))
  {
    k :| k in ks && StatsOver(t, ks) == Plus(Contribution(t[k]), StatsOver(t, ks - {k}));
  }

  /** The sum does not depend on which entry is taken first. */
  lemma {:induction false} StatsOverRemove(t: Table, ks: set<string>, k: string)
    requires ks <= t.Keys && k in ks
    ensures StatsOver(t, ks) == Plus(Contribution(t[k]), StatsOver(t, ks - {k}))
    decreases ks
  {
    var k' := StatsOverPick(t, ks);
    if k' != k {
      var rest := ks - {k'} - {k};
      assert ks - {k} - {k'} == rest;
      StatsOverRemove(t, ks - {k'}, k);
      StatsOverRemove(t, ks - {k}, k');
      PlusSwap(Contribution(t[k']), Contribution(t[k]), StatsOver(t, rest));
    }
  }

  /** The keys among `ks` whose entry has one of the given statuses. */
  ghost function Matching(t: Table, ks: set<string>, statuses: set<string>): set<string>
    requires ks <= t.Keys
  {
    set k | k in ks && t[k].status in statuses
  }

  lemma MatchingRemove(t: Table, ks: set<string>, k: string, statuses: set<string>)
    requires ks <= t.Keys && k in ks
    ensures |Matching(t, ks, statuses)|
            == |Matching(t, ks - {k}, statuses)| + (if t[k].status in statuses then 1 else 0)
  {
    var rest := Matching(t, ks - {k}, statuses);
    if t[k].status in statuses {
      assert Matching(t, ks, statuses) == rest + {k};
    } else {
      assert Matching(t, ks, statuses) == rest;
    }
  }

  /** The counters one entry adds. */
  lemma ContributionCounts(d: Download)
    ensures Contribution(d).numActive == if d.status in {"ACTIVE"} then 1 else 0
    ensures Contribution(d).numWaiting == if d.status in {"WAITING", "PAUSED"} then 1 else 0
    ensures Contribution(d).numStopped == if d.status in {"COMPLETE", "ERROR"} then 1 else 0
    ensures Contribution(d).numStoppedTotal == 0
  {
    assert "ACTIVE" != "WAITING" && "ACTIVE" != "PAUSED" && "ACTIVE" != "COMPLETE" && "ACTIVE" != "ERROR";
    assert "WAITING" != "COMPLETE" && "WAITING" != "ERROR" && "PAUSED" != "COMPLETE" && "PAUSED" != "ERROR";
  }

  /** `num_active` is the number of ACTIVE entries. */
  lemma {:induction false} CountsActive(t: Table, ks: set<string>)
    requires ks <= t.Keys
    ensures StatsOver(t, ks).numActive == |Matching(t, ks, {"ACTIVE"})|
    decreases ks
  {
    if ks == {} {
      assert Matching(t, ks, {"ACTIVE"}) == {};
    } else {
      var k := StatsOverPick(t, ks);
      assert StatsOver(t, ks).numActive == Contribution(t[k]).numActive + StatsOver(t, ks - {k}).numActive;
      CountsActive(t, ks - {k});
      assert Contribution(t[k]).numActive == if t[k].status in {"ACTIVE"} then 1 else 0 by {
        ContributionCounts(t[k]);
      }
      MatchingRemove(t, ks, k, {"ACTIVE"});
    }
  }

  /** `num_waiting` is the number of WAITING or PAUSED entries. */
  lemma {:induction false} CountsWaiting(t: Table, ks: set<string>)
    requires ks <= t.Keys
    ensures StatsOver(t, ks).numWaiting == |Matching(t, ks, {"WAITING", "PAUSED"})|
    decreases ks
  {
    if ks == {} {
      assert Matching(t, ks, {"WAITING", "PAUSED"}) == {};
    } else {
      var k := StatsOverPick(t, ks);
      assert StatsOver(t, ks).numWaiting == Contribution(t[k]).numWaiting + StatsOver(t, ks - {k}).numWaiting;
      CountsWaiting(t, ks - {k});
      assert Contribution(t[k]).numWaiting == if t[k].status in {"WAITING", "PAUSED"} then 1 else 0 by {
        ContributionCounts(t[k]);
      }
      MatchingRemove(t, ks, k, {"WAITING", "PAUSED"});
    }
  }

  /** `num_stopped` is the number of COMPLETE or ERROR entries. */
  lemma {:induction false} CountsStopped(t: Table, ks: set<string>)
    requires ks <= t.Keys
    ensures StatsOver(t, ks).numStopped == |Matching(t, ks, {"COMPLETE", "ERROR"})|
    decreases ks
  {
    if ks == {} {
      assert Matching(t, ks, {"COMPLETE", "ERROR"}) == {};
    } else {
      var k := StatsOverPick(t, ks);
      assert StatsOver(t, ks).numStopped == Contribution(t[k]).numStopped + StatsOver(t, ks - {k}).numStopped;
      CountsStopped(t, ks - {k});
      assert Contribution(t[k]).numStopped == if t[k].status in {"COMPLETE", "ERROR"} then 1 else 0 by {
        ContributionCounts(t[k]);
      }
      MatchingRemove(t, ks, k, {"COMPLETE", "ERROR"});
    }
  }

  /** The newest download (or, with `upload`, upload) sample of an entry. */
  function NewestSample(d: Download, upload: bool): nat {
    LastOrZero(if upload then d.uploadSpeedHistory else d.speedHistory)
  }

  /** The newest samples of the entries under `ks`, added up. */
  ghost function SampleSum(t: Table, ks: set<string>, upload: bool): nat
    requires ks <= t.Keys
    decreases ks
  {
    if ks == {} then 0
    else
      var k :| k in ks;
      NewestSample(t[k], upload) + SampleSum(t, ks - {k}, upload)
  }

  /** The sum of samples does not depend on which entry is taken first. */
  lemma {:induction false} SampleSumRemove(t: Table, ks: set<string>, k: string, upload: bool)
    requires ks <= t.Keys && k in ks
    ensures SampleSum(t, ks, upload) == NewestSample(t[k], upload) + SampleSum(t, ks - {k}, upload)
    decreases ks
  {
    var k' :| k' in ks && SampleSum(t, ks, upload) == NewestSample(t[k'], upload) + SampleSum(t, ks - {k'}, upload);
    if k' != k {
      assert ks - {k} - {k'} == ks - {k'} - {k};
      SampleSumRemove(t, ks - {k'}, k, upload);
      SampleSumRemove(t, ks - {k}, k', upload);
    }
  }

  /** `download_speed` and `upload_speed` add up the newest samples of the
      ACTIVE entries. */
  lemma {:induction false} SpeedsOfActive(t: Table, ks: set<string>)
    requires ks <= t.Keys
    ensures StatsOver(t, ks).downloadSpeed == SampleSum(t, Matching(t, ks, {"ACTIVE"}), false)
    ensures StatsOver(t, ks).uploadSpeed == SampleSum(t, Matching(t, ks, {"ACTIVE"}), true)
    decreases ks
  {
    if ks == {} {
      assert Matching(t, ks, {"ACTIVE"}) == {};
    } else {
      var k := StatsOverPick(t, ks);
      SpeedsOfActive(t, ks - {k});
      var active := Matching(t, ks, {"ACTIVE"});
      var rest := Matching(t, ks - {k}, {"ACTIVE"});
      if t[k].status == "ACTIVE" {
        assert active - {k} == rest;
        SampleSumRemove(t, active, k, false);
        SampleSumRemove(t, active, k, true);
      } else {
        assert active == rest;
      }
    }
  }

  /** The statistics of a whole table: the counters are the numbers of
      entries with those statuses (entries with any other status are counted
      nowhere), and the speeds are the sums of the newest samples of the
      ACTIVE entries. */
  lemma StatsCounts(t: Table)
    ensures StatsOf(t).numActive == |Matching(t, t.Keys, {"ACTIVE"})|
    ensures StatsOf(t).numWaiting == |Matching(t, t.Keys, {"WAITING", "PAUSED"})|
    ensures StatsOf(t).numStopped == |Matching(t, t.Keys, {"COMPLETE", "ERROR"})|
    ensures StatsOf(t).downloadSpeed == SampleSum(t, Matching(t, t.Keys, {"ACTIVE"}), false)
    ensures StatsOf(t).uploadSpeed == SampleSum(t, Matching(t, t.Keys, {"ACTIVE"}), true)
  {
    CountsActive(t, t.Keys);
    CountsWaiting(t, t.Keys);
    CountsStopped(t, t.Keys);
    SpeedsOfActive(t, t.Keys);
  }
}
