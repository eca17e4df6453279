/** The state helpers of src/ui/app.rs: the download the details panel
    shows, the placeholder shown when there is none, the shortcut bar of each
    mode, and the default rendering state. */
module App {
  import opened Wrappers
  import opened Models
  import opened Utils
  import opened DownloadsList

  /** `create_placeholder_download`: an empty, unidentified entry with "N/A"
      speeds. */
  function PlaceholderDownload(): (d: Download)
    ensures d.gid == None && d.url == None && d.name == "No downloads"
    ensures d.status == "IDLE" && d.progress == 0.0
    ensures d.speed == Text("N/A") && d.uploadSpeed == Text("N/A")
    ensures d.speedHistory == [] && d.uploadSpeedHistory == []
  {
    DefaultDownload().(name := "No downloads", speed := Text("N/A"), uploadSpeed := Text("N/A"))
  }

  /** The placeholder is neither active nor completed, but at progress 0 it
      passes the Queue tab's test. */
  lemma PlaceholderClassification()
    ensures !IsActive(PlaceholderDownload()) && !IsCompleted(PlaceholderDownload())
    ensures IsQueued(PlaceholderDownload())
  {
  }

  /** `get_selected_download`: the selected row of the filtered list (no
      selection meaning row 0) when it exists, otherwise the first download
      of the whole table, otherwise the placeholder. */
  function SelectedDownload(all: seq<Download>, filtered: seq<Download>, selected: Option<nat>): (d: Download)
    ensures selected.GetOr(0) < |filtered| ==> d == filtered[selected.GetOr(0)]
    ensures selected.GetOr(0) >= |filtered| && all != [] ==> d == all[0]
    ensures selected.GetOr(0) >= |filtered| && all == [] ==> d == PlaceholderDownload()
    ensures d in filtered || d in all || d == PlaceholderDownload()
  {
    var i := selected.GetOr(0);
    if filtered != [] && i < |filtered| then filtered[i]
    else if all != [] then all[0]
    else PlaceholderDownload()
  }

  /** Once the list's selection has been repaired for the filtered rows, the
      details panel shows a row of the filtered list whenever it has one. */
  lemma RepairedSelectionShowsFilteredRow(all: seq<Download>, filtered: seq<Download>, selected: Option<nat>)
    requires filtered != []
    ensures SelectedDownload(all, filtered, ClampSelection(selected, |filtered|)) in filtered
  {
    var c := ClampSelection(selected, |filtered|);
    assert c.GetOr(0) < |filtered|;
  }

  /** The tests of the source: nothing at all gives the placeholder; row 1 of
      two gives the second; a selection past an empty filtered list gives the
      first download. */
  lemma SelectionExamples(a: Download, b: Download)
    ensures SelectedDownload([], [], Some(0)).name == "No downloads"
    ensures SelectedDownload([a, b], [a, b], Some(1)) == b
    ensures SelectedDownload([a], [], Some(10)) == a
  {
  }

  /** `get_shortcuts_for_mode`: the scope name and the key hints of the
      shortcut bar. */
  function ShortcutsFor(mode: InputMode): (r: (string, seq<(string, string)>))
    ensures r.0 != [] && |r.1| >= 3
    ensures forall i :: 0 <= i < |r.1| ==> r.1[i].0 != [] && r.1[i].1 != []
  {
    match mode
    case Editing => ("Add Download", [("Enter", "submit"), ("Esc", "cancel"), ("Ctrl+U", "clear")])
    case Search => ("Search", [("Enter", "apply"), ("Esc", "clear"), ("Backspace", "delete")])
    case SpeedLimit => ("Speed Limit", [("Tab", "switch"), ("j/k", "adjust"), ("Enter", "apply"), ("Esc", "cancel")])
    case Help => ("Help", [("j/k", "scroll"), ("Esc", "close"), ("q", "close")])
    case Confirmation => ("Confirm", [("y", "yes"), ("n", "no"), ("Esc", "cancel")])
    case Settings => ("Settings", [("j/k", "navigate"), ("Enter", "edit"), ("Esc", "close")])
    case Normal =>
      ("Downloads", [("i", "add"), ("/", "search"), ("Space", "pause"), ("d", "delete"),
                     ("1-3", "tabs"), ("?", "help"), ("q", "quit")])
  }

  /** The rendering state `AppState`, without its sort column and its
      reference to the bandwidth-limit popup. */
  datatype AppState = AppState(
    downloads: seq<Download>,
    currentTab: nat,
    inputText: string,
    inputMode: InputMode,
    statusMessage: string,
    searchQuery: string,
    sortAscending: bool,
    helpScroll: nat,
    downloadLimit: nat,
    uploadLimit: nat,
    selectedIndices: seq<nat>)

  /** `AppState::default`: no downloads, first tab, Normal mode, empty texts,
      ascending order, no limits. */
  function DefaultAppState(): (s: AppState)
    ensures s.currentTab == 0 && s.searchQuery == [] && s.sortAscending
    ensures s.downloadLimit == 0 && s.uploadLimit == 0
    ensures s.inputMode == Normal && s.downloads == [] && s.selectedIndices == []
  {
    AppState([], 0, [], Normal, [], [], true, 0, 0, 0, [])
  }

  /** The default state's tab shows nothing: its download list is empty. */
  lemma DefaultShowsNothing()
    ensures FilterByTab(DefaultAppState().downloads, DefaultAppState().currentTab) == []
    ensures SelectedDownload(DefaultAppState().downloads, [], None) == PlaceholderDownload()
  {
  }
}
