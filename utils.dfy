/** The helpers of src/ui/utils.rs: which tab a download belongs to, the
    per-tab filter and count, text truncation, and the unit chosen by the size
    and speed formatters. */
module Utils {
  import opened Text
  import opened Seqs
  import opened Models

  /** `is_active`: reported ACTIVE, or part-way done and not WAITING. */
  predicate IsActive(d: Download): (r: bool)
    ensures d.status == "ACTIVE" ==> r
    ensures d.status == "WAITING" ==> !r
    ensures (d.progress <= 0.0 || d.progress >= 1.0) ==> (r <==> d.status == "ACTIVE")
    ensures 0.0 < d.progress < 1.0 && d.status != "WAITING" ==> r
  {
    d.status == "ACTIVE" || (0.0 < d.progress < 1.0 && d.status != "WAITING")
  }

  /** `is_queued`: WAITING, PAUSED, or not started. */
  predicate IsQueued(d: Download): (r: bool)
    ensures d.status == "WAITING" || d.status == "PAUSED" ==> r
    ensures d.progress == 0.0 ==> r
    ensures r && d.progress != 0.0 ==> d.status == "WAITING" || d.status == "PAUSED"
  {
    d.status == "WAITING" || d.status == "PAUSED" || d.progress == 0.0
  }

  /** `is_completed`: fully downloaded, or reported COMPLETE. */
  predicate IsCompleted(d: Download): (r: bool)
    ensures d.progress >= 1.0 ==> r
    ensures d.status == "COMPLETE" ==> r
    ensures r && d.progress < 1.0 ==> d.status == "COMPLETE"
  {
    d.progress >= 1.0 || d.status == "COMPLETE"
  }

  /** The tab test shared by `filter_by_tab` and `count_by_tab`: tab 0 is
      Active, 1 Queue, 2 Completed, and no download is on any other tab. */
  predicate OnTab(d: Download, tab: nat): (r: bool)
    ensures tab == 0 ==> (r <==> IsActive(d))
    ensures tab == 1 ==> (r <==> IsQueued(d))
    ensures tab == 2 ==> (r <==> IsCompleted(d))
    ensures tab > 2 ==> !r
  {
    if tab == 0 then IsActive(d)
    else if tab == 1 then IsQueued(d)
    else if tab == 2 then IsCompleted(d)
    else false
  }

  /** `filter_by_tab`: the downloads on the tab, in table order. */
  function FilterByTab(ds: seq<Download>, tab: nat): (r: seq<Download>)
    ensures IsSubsequence(r, ds)
    ensures forall i :: 0 <= i < |r| ==> OnTab(r[i], tab)
    ensures forall i :: 0 <= i < |ds| && OnTab(ds[i], tab) ==> ds[i] in r
    ensures tab > 2 ==> r == []
    ensures |r| == CountWhere(ds, d => OnTab(d, tab))
  {
    KeepIsSubsequence(ds, d => OnTab(d, tab));
    CountIsLengthOfKeep(ds, d => OnTab(d, tab));
    Keep(ds, d => OnTab(d, tab))
  }

  /** `count_by_tab`: counts one by one, and agrees with the filter. */
  function CountByTab(ds: seq<Download>, tab: nat): (n: nat)
    ensures n == |FilterByTab(ds, tab)|
    ensures n <= |ds|
  {
    CountIsLengthOfKeep(ds, d => OnTab(d, tab));
    CountWhere(ds, d => OnTab(d, tab))
  }

  /** A download that is waiting at progress zero is not active (and is
      queued); a half-done active download is neither queued nor completed. */
  lemma ClassificationExamples(d: Download)
    ensures !IsActive(d.(status := "WAITING", progress := 0.0))
    ensures IsQueued(d.(status := "WAITING", progress := 0.0))
    ensures IsActive(d.(status := "ACTIVE", progress := 0.5))
    ensures !IsQueued(d.(status := "ACTIVE", progress := 0.5))
    ensures !IsCompleted(d.(status := "ACTIVE", progress := 0.5))
    ensures IsQueued(d.(status := "PAUSED", progress := 0.5))
    ensures IsCompleted(d.(status := "COMPLETE", progress := 1.0))
  {
  }

  /** The tabs do not partition the table: a paused download that has made
      some progress is listed under both Active and Queue. */
  lemma TabsOverlap()
    ensures exists d :: OnTab(d, 0) && OnTab(d, 1)
  {
    var d := DefaultDownload().(status := "PAUSED", progress := 0.5);
    assert OnTab(d, 0) && OnTab(d, 1);
  }

  /** Every download the daemon reports as ACTIVE, WAITING or COMPLETE is on
      at least one tab. */
  lemma ReportedStatusHasTab(d: Download)
    requires d.status in {"ACTIVE", "WAITING", "COMPLETE"}
    ensures OnTab(d, 0) || OnTab(d, 1) || OnTab(d, 2)
  {
  }

  /** `truncate_text`: text longer than `maxLen` is cut to `maxLen - 3`
      characters (none when `maxLen < 3`) followed by "...". */
  function TruncateText(text: string, maxLen: nat): (r: string)
    ensures |text| <= maxLen ==> r == text
    ensures |text| > maxLen ==> EndsWith(r, "...") && StartsWith(text, r[..|r| - 3])
    ensures |text| > maxLen ==> |r| == if maxLen >= 3 then maxLen else 3
    ensures maxLen >= 3 ==> |r| <= maxLen
  {
    if |text| > maxLen then
      var keep := if maxLen >= 3 then maxLen - 3 else 0;
      var r := text[..keep] + "...";
      assert r[..|r| - 3] == text[..keep];
      r
    else text
  }

  /** The two cases of the source's examples. */
  lemma TruncateExamples()
    ensures TruncateText("short", 10) == "short"
    ensures TruncateText("this is a very long text", 10) == "this is..."
  {
    assert "this is a very long text"[..7] == "this is";
  }

  // ---------------------------------------------------------------------------
  // Unit selection of the formatters

  /** The size in bytes of one unit. */
  function UnitSize(u: SizeUnit): (n: nat)
    ensures n >= 1
  {
    match u
    case B => 1
    case KB => 1024
    case MB => 1024 * 1024
    case GB => 1024 * 1024 * 1024
    case TB => 1024 * 1024 * 1024 * 1024
  }

  /** A scaled value whose unit is `u`, below the next unit up unless `u` is the
      largest unit the formatter knows. */
  predicate WellScaled(r: Rendered, bytes: nat, top: SizeUnit) {
    r.Scaled? && r.unit != B
    && r.value * UnitSize(r.unit) as real == bytes as real
    && 1.0 <= r.value
    && (r.unit != top ==> r.value < 1024.0)
  }

  /** `format_size`: below 1 KiB the exact number and " B"; otherwise the
      quotient by the largest of KB, MB, GB, TB that fits. */
  function FormatSize(bytes: nat): (r: Rendered)
    ensures bytes < 1024 ==> r == Text(NatToString(bytes) + " B")
    ensures bytes >= 1024 ==> WellScaled(r, bytes, TB)
  {
    if bytes >= UnitSize(TB) then Scaled(bytes as real / UnitSize(TB) as real, TB)
    else if bytes >= UnitSize(GB) then Scaled(bytes as real / UnitSize(GB) as real, GB)
    else if bytes >= UnitSize(MB) then Scaled(bytes as real / UnitSize(MB) as real, MB)
    else if bytes >= UnitSize(KB) then Scaled(bytes as real / UnitSize(KB) as real, KB)
    else Text(NatToString(bytes) + " B")
  }

  /** `format_speed` (src/ui/utils.rs and its copy in src/download_manager.rs):
      like `FormatSize` with " B/s" and no TB step, so gigabytes are the
      largest unit. */
  function FormatSpeed(bytesPerSecond: nat): (r: Rendered)
    ensures bytesPerSecond < 1024 ==> r == Text(NatToString(bytesPerSecond) + " B/s")
    ensures bytesPerSecond >= 1024 ==> WellScaled(r, bytesPerSecond, GB)
  {
    var b := bytesPerSecond;
    if b >= UnitSize(GB) then Scaled(b as real / UnitSize(GB) as real, GB)
    else if b >= UnitSize(MB) then Scaled(b as real / UnitSize(MB) as real, MB)
    else if b >= UnitSize(KB) then Scaled(b as real / UnitSize(KB) as real, KB)
    else Text(NatToString(b) + " B/s")
  }

  /** A larger size never gets a smaller unit. */
  lemma UnitIsMonotone(a: nat, b: nat)
    requires 1024 <= a <= b
    ensures FormatSize(a).unit == TB ==> FormatSize(b).unit == TB
    ensures FormatSize(a).unit == GB ==> FormatSize(b).unit in {GB, TB}
    ensures FormatSize(a).unit == MB ==> FormatSize(b).unit in {MB, GB, TB}
  {
  }

  /** The values in the source's examples: 0, 512, 1024, 1536, 1 MiB and 1 GiB
      bytes, and 0, 1 KiB and 1 MiB bytes per second. */
  lemma FormatExamples()
    ensures FormatSize(0) == Text("0 B") && FormatSize(512) == Text("512 B")
    ensures FormatSize(1024) == Scaled(1.0, KB) && FormatSize(1536) == Scaled(1.5, KB)
    ensures FormatSize(1048576) == Scaled(1.0, MB) && FormatSize(1073741824) == Scaled(1.0, GB)
    ensures FormatSpeed(0) == Text("0 B/s")
    ensures FormatSpeed(1024) == Scaled(1.0, KB) && FormatSpeed(1048576) == Scaled(1.0, MB)
  {
    assert NatToString(512) == "512" by {
      assert NatToString(5) == "5";
      assert NatToString(51) == "51";
    }
  }
}
