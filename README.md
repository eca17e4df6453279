# tui-downloader, modelled in Dafny

tui-downloader is a terminal front end for the aria2 download daemon. This
project models the parts of it that decide what the user sees and what the
program tells the daemon:

- the download table kept by `DownloadManager`:
  - adding a download: choosing the daemon call, the entry's type and its name;
  - the merge rule that folds each status report of the daemon into the table;
  - the tombstone set that keeps removed downloads from coming back;
  - retry, purge, file deletion, and the aggregate statistics;
- the hand-written percent-decoder used for magnet display names;
- the keyboard layer (`InputHandler`): the key maps of every input mode, the
  line editor of the URL prompt, the search box and the bandwidth-limit box;
- the two bandwidth-limit parsers (`SpeedLimitSettings::parse_limit` and the
  popup's `parse_speed_limit`), and the popup's step-up and step-down rules;
- the helpers of the user interface:
  - tab membership, per-tab filter and count;
  - the unit chosen by the size and speed formatters, and text truncation;
  - selection repair and scrolling;
  - the selected download and its placeholder;
  - the URL history;
  - the status-bar message classification and the prompt's validity check.

Code that works by updating state in place is modelled as classes whose
methods say exactly how the state changes:

- `DownloadManager.Manager`;
- `Input.InputHandler`;
- `SpeedLimitPopup.SpeedLimitState`;
- `Models.UrlHistory`;
- `DownloadsList.ListState`.

Each of those methods is proved against a pure function. Properties are then
proved about that function. Examples:

- a removed gid never comes back, whatever the daemon reports;
- the counters of the statistics are the numbers of entries in each state, and the speeds are the sums of the newest samples of the active entries;
- decoding undoes encoding;
- Backspace undoes a typed character;
- the two limit parsers agree on an integer followed by a unit; a bare integer means mebibytes to the popup and bytes to the settings parser.

The loops of the source are methods with loop invariants:

- the character loop of the decoder;
- the unit scan of the limit parsers;
- the statistics sum;
- the purge;
- the merge of a report list.

Daemon replies and file-system outcomes are parameters of the methods that
would wait for them.

Two facts about removal need care:

- `add_download` (src/download_manager.rs:34-84) never consults the
  tombstones. So disjointness of the tombstone set and the table is stated
  separately, as `TombstonesApart`. `AddDownload` keeps it only when the
  daemon returns a gid that is not tombstoned.
- A removed gid stays out of the table across reconciliation passes:
  `RemovedStaysRemoved` proves this for any sequence of passes. Only
  `add_download` could bring it back.

## Model

| member | source | states |
|---|---|---|
| Naming.LastSegment | src/download_manager.rs:555-561 | `split('/').last()` when non-empty: a suffix of the path without '/', preceded by '/', and absent exactly when the path is empty or ends in '/' |
| Naming.ExtractFilename | src/download_manager.rs:535-562 | a non-magnet input gets a non-empty name without '/' or '?'; a magnet link without "dn=" is "Magnet Download" |
| Naming.MagnetDisplayName | src/download_manager.rs:536-551 | a magnet link without "dn=" gets the generic name |
| Naming.PathName | src/download_manager.rs:554-561 | the name of a URL or path is non-empty and holds no '/' or '?' |
| Naming.NameOfPath | src/download_manager.rs:554-561 | `dir/name` without a query is named `name`, for any directory that is not a magnet link, short ones included |
| Naming.ShortPathExample | src/download_manager.rs:554-561 | "/tmp/x.iso" is named "x.iso" |
| Naming.NameOfUrl | src/download_manager.rs:554-561 | the query after '?' never affects the name, for any directory that is not a magnet link |
| Naming.MagnetValue | src/download_manager.rs:538-548 | a magnet name is the decoded text between the first "dn=" and the next '&', whatever comes before that "dn=" |
| Naming.MagnetValueBeforeTrackers | src/download_manager.rs:536-551 | the trackers after '&' do not affect the magnet name |
| Naming.NameOfMagnet | src/download_manager.rs:536-551 | a display name, percent-encoded into a magnet link, is extracted back unchanged |
| Naming.MagnetWithoutName | src/download_manager.rs:538-550 | a magnet link with no "dn=" anywhere is named "Magnet Download" |
| Naming.NameOfBareFile | src/download_manager.rs:554-561 | a bare file name is its own name |
| Naming.NameOfDirectory | src/download_manager.rs:555-558 | a path ending in '/' is named "Unknown" |
| Naming.SubmissionFor | src/download_manager.rs:35-47 | the daemon call: `add_torrent` exactly for non-magnet ".torrent" input, `add_metalink` exactly for the metalink suffixes, otherwise `add_uri` |
| Naming.DownloadTypeFor | src/download_manager.rs:50-56 | the recorded type: Torrent exactly for magnets and ".torrent", Metalink exactly for the metalink suffixes otherwise |
| Naming.SubmissionMatchesType | src/download_manager.rs:35-56 | the call and the recorded type agree; a magnet link is submitted by URI but typed Torrent |
| UrlDecoding.HexDigitValue | src/download_manager.rs:590-597 | a hex digit of either case has a value below 16 |
| UrlDecoding.HexPair | src/download_manager.rs:590-597 | `u8::from_str_radix` of two characters: a byte from two hex digits; a leading '+' followed by one hex digit gives that digit; every other pair ("zA", "A" followed by a non-digit) is an error |
| UrlDecoding.DecodeSpec | src/download_manager.rs:584-610 | decoding never lengthens the text |
| UrlDecoding.Decode | src/download_manager.rs:584-610 | the decoding loop computes `DecodeSpec` |
| UrlDecoding.DecodeEscapeAt | src/download_manager.rs:589-601 | one '%' step: a valid escape gives its byte, an invalid one is kept as text |
| UrlDecoding.DecodeCharAt | src/download_manager.rs:602-606 | one step on another character: '+' becomes a space, everything else is kept |
| UrlDecoding.DecodeEncode | src/download_manager.rs:584-610 | decoding undoes percent-encoding, for every text |
| UrlDecoding.DecodePlainText | src/download_manager.rs:584-610 | text without '%' or '+' decodes to itself |
| UrlDecoding.DecodeExamples | src/download_manager.rs:584-610 | "a+b%20c" is "a b c"; bad or cut-off escapes stay literal; "%+A" is a newline |
| Reconcile.ProgressOf | src/download_manager.rs:194-198 | progress is completed/total, 0 while the total is unknown, at most 1 when completed ≤ total |
| Reconcile.PushCapped | src/download_manager.rs:228-237 | the newest sample goes last, and the oldest goes once the window is full, so a window never exceeds `MAX_SPEED_HISTORY` |
| Reconcile.WindowIsSuffix | src/download_manager.rs:228-237 | after any sequence of samples, the window holds the last 60, oldest first |
| Reconcile.FirstFilePath | src/download_manager.rs:240-252 | the path of the first reported file, when it is non-empty |
| Reconcile.OptionalCount | src/download_manager.rs:210-212 | an optional counter parses to a u32, 0 when absent |
| Reconcile.MergeExisting | src/download_manager.rs:187-252 | a known entry shows the report's fields and keeps its gid, url and type; seeds, histories, file path and name change as the branches say |
| Reconcile.NewEntry | src/download_manager.rs:253-327 | a new entry shows the report, has no url, is typed by its torrent info, and gets one-sample histories and a name taken from its first file |
| Reconcile.UnparsableIsZero | src/download_manager.rs:187-327 | numbers the daemon sends in unparsable form are stored as 0, in both branches |
| Reconcile.MergeAgreesWithNew | src/download_manager.rs:187-327 | both branches show the same report fields and the same newest speed sample |
| Reconcile.Merge | src/download_manager.rs:176-329 | a tombstoned gid is skipped; otherwise exactly that gid is updated or added and every other entry is untouched |
| Reconcile.MergeWellFormed | src/download_manager.rs:176-329 | merging keeps entries under their own gid with capped windows |
| Reconcile.MergeAllWellFormed | src/download_manager.rs:107-148 | a list merge keeps the table well formed |
| Reconcile.MergeAll | src/download_manager.rs:121-126 | a list merge adds exactly the reported gids that are not tombstoned, and a tombstoned gid is neither added nor changed |
| Reconcile.Pass | src/download_manager.rs:107-148 | a pass over the active, waiting and stopped reports adds exactly their gids that are not tombstoned, and leaves tombstoned gids alone |
| Reconcile.PassWellFormed | src/download_manager.rs:107-148 | a pass keeps the table well formed |
| Reconcile.RemovedStaysRemoved | src/download_manager.rs:387-404 | once removed, a gid stays out of the table through any number of passes |
| Reconcile.PassBetweenRemovalSteps | src/download_manager.rs:387-404 | a pass that runs between tombstoning and dropping leaves the gid's entry as it was (or absent), whatever it reports, so dropping removes it; a pass after both steps keeps it out |
| Reconcile.ForgetFirstResurrects | src/download_manager.rs:387-404 | with the two steps swapped, a pass that still reports the gid would bring it back |
| Reconcile.Contribution | src/download_manager.rs:153-168 | one entry adds to at most one of the active, waiting and stopped counters; an ACTIVE entry adds its newest download and upload samples (0 for an empty history), any other entry no speed |
| Reconcile.ContributionCounts | src/download_manager.rs:153-168 | ACTIVE counts as active, WAITING or PAUSED as waiting, COMPLETE or ERROR as stopped |
| Reconcile.StatsOverRemove | src/download_manager.rs:150-174 | the sum over the entries does not depend on the order of the HashMap |
| Reconcile.CountsActive | src/download_manager.rs:155-156 | `num_active` is the number of ACTIVE entries |
| Reconcile.CountsWaiting | src/download_manager.rs:165 | `num_waiting` is the number of WAITING or PAUSED entries |
| Reconcile.CountsStopped | src/download_manager.rs:166-167 | `num_stopped` is the number of COMPLETE or ERROR entries |
| Reconcile.StatsOf | src/download_manager.rs:150-174 | `num_stopped_total` is the table size, and the active, waiting and stopped counters together never exceed it |
| Reconcile.StatsCounts | src/download_manager.rs:150-174 | the three counters of a table are the numbers of entries with those statuses, and the two speeds are the sums of the newest samples of the ACTIVE entries |
| Reconcile.SpeedsOfActive | src/download_manager.rs:155-162 | over any set of gids, the download and upload speeds are the sums, taken separately, of the newest samples of the ACTIVE entries |
| Reconcile.SampleSumRemove | src/download_manager.rs:153-170 | the sum of newest samples does not depend on the order in which the entries are visited |
| DownloadManager.AddedEntry | src/download_manager.rs:58-81 | a new entry is WAITING at zero progress under the returned gid, with the input as url and the extracted name and type |
| DownloadManager.PurgedGids | src/download_manager.rs:418 | exactly the gids whose entry is completed by progress or by status |
| DownloadManager.Refresh | src/download_manager.rs:187-252 | the in-place update of a known entry computes `MergeExisting` |
| DownloadManager.Tally | src/download_manager.rs:154-168 | one loop step adds the entry's contribution |
| DownloadManager.SumStats | src/download_manager.rs:150-174 | the loop computes the statistics of the table |
| DownloadManager.Manager.constructor | src/download_manager.rs:19-32 | empty table, no tombstones, zero statistics |
| DownloadManager.Manager.AddDownload | src/download_manager.rs:34-84 | the input goes to the daemon call `SubmissionFor(input)`; on success the returned gid maps to `AddedEntry`; a daemon error is passed on and changes nothing |
| DownloadManager.Manager.RemoveDownload | src/download_manager.rs:387-404 | the gid is tombstoned and dropped; both invariants are kept |
| DownloadManager.Manager.RetryDownload | src/download_manager.rs:87-104 | an unknown gid or an entry without url is an error; otherwise the url is resubmitted and the old entry replaced by the new one |
| DownloadManager.Manager.UpdateFromStatus | src/download_manager.rs:176-329 | the table becomes `Merge` of the report |
| DownloadManager.Manager.MergeList | src/download_manager.rs:121-126 | one report list is merged in order |
| DownloadManager.Manager.UpdateDownloads | src/download_manager.rs:107-148 | the table becomes the pass over the three lists, the statistics are recomputed from it, and tombstoned gids are neither added nor removed |
| DownloadManager.Manager.UpdateGlobalStats | src/download_manager.rs:150-174 | the statistics become those of the table, and nothing else changes |
| DownloadManager.Manager.PurgeCompleted | src/download_manager.rs:412-432 | every completed entry is tombstoned and dropped, and their number is returned |
| DownloadManager.Manager.DeleteFile | src/download_manager.rs:435-461 | an unknown gid is an error; otherwise the file outcome is reported and the entry removed as by `remove_download` |
| DownloadManager.Manager.ActiveDownloads | src/download_manager.rs:337-345 | exactly the entries with progress strictly between 0 and 1 |
| DownloadManager.Manager.QueuedDownloads | src/download_manager.rs:348-356 | exactly the WAITING entries and those at progress 0 |
| DownloadManager.Manager.CompletedDownloads | src/download_manager.rs:359-367 | exactly the completed entries, the ones a purge would drop |
| DownloadManager.Manager.GetDownload | src/download_manager.rs:407-409 | the entry of a gid, or nothing exactly when the gid is unknown |
| DownloadManager.GettersAgainstTabs | src/download_manager.rs:337-367 | how the manager's getters differ from the interface's tabs (PAUSED with progress; WAITING in mid-download) |
| DownloadManager.RemoveThenUpdate | src/download_manager.rs:387-404 | after a removal, any number of update passes leave the gid out of the table and in the tombstones |
| Models.DefaultDownload | src/models.rs:27-52 | IDLE at progress 0, with no gid and empty histories |
| Models.SortField.Position | src/models.rs:95-103 | the columns in declaration order, numbered 0 to 5 |
| Models.SortField.Next | src/models.rs:107-116 | the sort column always moves, to the next one in declaration order, from the last back to the first |
| Models.SortDirection.Toggle | src/models.rs:141-146 | the direction always flips |
| Models.SortCycle | src/models.rs:107-116 | six steps return to the starting column, and no fewer |
| Models.SortFieldOrder | src/models.rs:301-307 | from Name the cycle goes to Size, then Progress |
| Models.ToggleInvolution | src/models.rs:310-314 | toggling twice is the identity |
| Models.AddedHistory | src/models.rs:273-284 | the history after an add never exceeds its capacity and starts with the added url |
| Models.UrlHistory.constructor | src/models.rs:266-271 | an empty history with the given capacity |
| Models.UrlHistory.Add | src/models.rs:273-284 | the entries become `AddedHistory`: retain, insert at the front, truncate |
| Models.UrlHistory.Filter | src/models.rs:286-293 | entries containing the pattern ignoring case, in history order; as many as match, capped at five; the first five matches, newest first: a matching entry preceded by fewer than five matches is returned, at the position given by their number |
| Models.ExampleHostsMatch | src/models.rs:341-349 | the two example.com urls of the filter test match "example" |
| Models.OtherHostDoesNotMatch | src/models.rs:341-349 | the test.com url of the filter test does not match "example" |
| Models.ExampleCount | src/models.rs:341-349 | two of the filter test's three urls match |
| Models.FilterExample | src/models.rs:341-349 | the source's filter test: three urls added to a history of capacity ten, filtering by "example" gives two |
| Models.AddPutsUrlFirstOnce | src/models.rs:273-284 | the url is first and appears once; the rest is a subsequence of the old entries, all kept while there is room |
| Models.AddKeepsNewestOthers | src/models.rs:273-284 | the new history holds the url and as many other entries as fit (`min(max, 1 + count of others)`); an entry other than the url with fewer than `max - 1` others before it is kept, at one plus their number |
| Models.FourIntoThree | src/models.rs:329-338 | four distinct urls in a history of capacity three leave the last three, newest first |
| Models.BytesDefaultMultiplier | src/models.rs:210-218 | the first letter of the unit picks GiB, MiB or KiB; no unit or any other letter means bytes |
| Models.LimitValue | src/models.rs:185-221 | a parsed limit fits a u64; blank input, "0" and "unlimited" in any case mean no limit |
| Models.ParseLimit | src/models.rs:185-221 | the parse computes `LimitValue`, within u64 |
| Models.ValueOfNormalized | src/models.rs:185-221 | input that trims and lower-cases to digits, skipped separators and an optional word parses to the number times the word's multiplier, truncated to u64 |
| Models.LimitOfInteger | src/models.rs:185-221 | such input is that integer times the unit's multiplier (bytes without a unit), saturated to u64 |
| Models.LimitWithoutDigits | src/models.rs:208 | input without any digit is rejected, except the words meaning unlimited |
| Models.LimitSpecialWords | src/models.rs:188-190 | "0", "" and "unlimited" mean no limit |
| Models.LimitFiveMebibytes | src/models.rs:318 | "5m" is 5 MiB |
| Models.LimitFiveHundredKibibytes | src/models.rs:323 | "500k" is 500 KiB |
| Models.ScanOfInteger | src/models.rs:193-206 | digits, then spaces or punctuation, then a word scan to those digits and a unit with the word's first letter |
| Models.FiveMegabytesPerSecondNormalized | src/models.rs:186 | trimming and lower-casing "5 MB/s" gives digits, a space, and "mb/s" |
| Models.LimitFiveMegabytesPerSecond | src/models.rs:319-322 | "5 MB/s" is 5 MiB: the space is skipped and the unit's first letter is m |
| Models.LimitNoneRejected | src/models.rs:185-221 | "none" is rejected by this parser |
| LimitText.ScanSpec | src/models.rs:197-206 | the number holds only digits and dots, the unit only letters, and the scan is in the unit exactly when a letter has been seen |
| LimitText.ScanNumberAndUnit | src/models.rs:193-206 | the scanning loop computes `ScanSpec` |
| LimitText.DecimalValue | src/models.rs:208 | a parsed number is non-negative; a digit run parses to its value; text without digits or with two dots does not parse |
| LimitText.DecimalValueOfParts | src/models.rs:208 | digits, a dot and digits parse to the whole part plus the fractional digits over the matching power of ten |
| LimitText.DecimalExample | src/models.rs:208 | "1.5" parses to one and a half |
| LimitText.TruncateToU64 | src/models.rs:220 | `f64 as u64` truncates toward zero, keeps a value below 2^64, and gives the largest u64 from it upwards |
| LimitText.ScanSkipsSeparators | src/models.rs:197-206 | characters that are neither digits, dots nor letters change nothing in the scan |
| LimitText.ScanUnitAfter | src/models.rs:197-206 | once a letter follows, the number is fixed and the unit starts with that letter |
| LimitText.ScanDigits | src/models.rs:197-206 | a digit run scans entirely into the number |
| LimitText.ScanNumFromInput | src/models.rs:197-206 | every character the scan keeps comes from the input |
| SpeedLimitPopup.StepUp | src/ui/widgets/speed_limit_popup.rs:67-82 | the limit always grows: unlimited goes to 1 MiB; below 1 MiB it grows by 100 KiB, from 1 MiB up to 10 MiB by 1 MiB, and from 10 MiB on by 5 MiB |
| SpeedLimitPopup.StepDown | src/ui/widgets/speed_limit_popup.rs:85-100 | a set limit always shrinks and reaches unlimited exactly from 100 KiB or less; above 100 KiB up to 1 MiB it drops by 100 KiB, above 1 MiB up to 10 MiB by 1 MiB, and above 10 MiB by 5 MiB |
| SpeedLimitPopup.StepDownUndoesStepUp | src/ui/widgets/speed_limit_popup.rs:67-100 | a step down undoes a step up, except where the step sizes change |
| SpeedLimitPopup.StepFromUnlimited | src/ui/widgets/speed_limit_popup.rs:67-100 | from unlimited, up then down gives 924 KiB, not unlimited |
| SpeedLimitPopup.MebibyteDefaultMultiplier | src/ui/widgets/speed_limit_popup.rs:398-409 | without a unit the popup reads mebibytes; with one it agrees with the settings parser |
| SpeedLimitPopup.SpeedLimitValue | src/ui/widgets/speed_limit_popup.rs:373-412 | a parsed limit fits a u64; blank input, "0", "unlimited" and "none" in any case mean no limit |
| SpeedLimitPopup.ParseSpeedLimit | src/ui/widgets/speed_limit_popup.rs:373-412 | the parse computes `SpeedLimitValue`, within u64 |
| SpeedLimitPopup.SpeedValueOfNormalized | src/ui/widgets/speed_limit_popup.rs:373-412 | input that trims and lower-cases to digits, skipped separators and an optional word parses to the number times the word's multiplier, truncated to u64 |
| SpeedLimitPopup.SpeedLimitOfInteger | src/ui/widgets/speed_limit_popup.rs:373-412 | such input is that integer times the multiplier (mebibytes without a unit), saturated to u64 |
| SpeedLimitPopup.Saturate | src/ui/widgets/speed_limit_popup.rs:411 | `as u64` keeps a whole value that fits and gives the largest u64 beyond |
| SpeedLimitPopup.ParsersAgreeWithUnit | src/ui/widgets/speed_limit_popup.rs:398-409 | the two parsers agree on an integer, optional separators and a unit |
| SpeedLimitPopup.ParsersDifferWithoutUnit | src/ui/widgets/speed_limit_popup.rs:398-409 | on a bare integer the popup reads MiB where the settings parser reads bytes |
| SpeedLimitPopup.SpeedLimitOfBareInteger | src/ui/widgets/speed_limit_popup.rs:398-411 | a bare integer is that many mebibytes, saturated to u64 |
| SpeedLimitPopup.LimitOfBareInteger | src/models.rs:211-220 | the settings parser reads a bare integer as that many bytes, saturated to u64 |
| SpeedLimitPopup.SpeedLimitSpecialWords | src/ui/widgets/speed_limit_popup.rs:447-449 | "" and "0" mean no limit |
| SpeedLimitPopup.SpeedLimitUnlimited | src/ui/widgets/speed_limit_popup.rs:374-378 | "unlimited" means no limit |
| SpeedLimitPopup.SpeedLimitNone | src/ui/widgets/speed_limit_popup.rs:374-378 | "none" means no limit in the popup |
| SpeedLimitPopup.SpeedLimitFive | src/ui/widgets/speed_limit_popup.rs:450 | "5" is 5 MiB |
| SpeedLimitPopup.SpeedLimitFiveMebibytes | src/ui/widgets/speed_limit_popup.rs:441 | "5m" is 5 MiB |
| SpeedLimitPopup.SpeedLimitOneGibibyte | src/ui/widgets/speed_limit_popup.rs:446 | "1g" is 1 GiB |
| SpeedLimitPopup.SpeedLimitFiveMegabytesPerSecond | src/ui/widgets/speed_limit_popup.rs:443 | "5 MB/s" and "5 mb/s" are 5 MiB, as the settings parser also reads "5 MB/s" |
| SpeedLimitPopup.FormatSpeedLimit | src/ui/widgets/speed_limit_popup.rs:347-370 | "Unlimited" exactly for zero; otherwise the speed in a well-scaled unit |
| SpeedLimitPopup.SpeedLimitState.constructor | src/ui/widgets/speed_limit_popup.rs:36-43 | the given limits, editing the download limit, with an empty box |
| SpeedLimitPopup.SpeedLimitState.Default | src/ui/widgets/speed_limit_popup.rs:24-33 | both limits unlimited |
| SpeedLimitPopup.SpeedLimitState.CurrentLimit | src/ui/widgets/speed_limit_popup.rs:50-56 | the limit being edited |
| SpeedLimitPopup.SpeedLimitState.ToggleField | src/ui/widgets/speed_limit_popup.rs:45-48 | the edited and the other limit swap roles, and the box is emptied |
| SpeedLimitPopup.SpeedLimitState.SetCurrentLimit | src/ui/widgets/speed_limit_popup.rs:58-64 | only the edited limit changes |
| SpeedLimitPopup.SpeedLimitState.IncreaseLimit | src/ui/widgets/speed_limit_popup.rs:67-82 | the edited limit steps up, and nothing else changes |
| SpeedLimitPopup.SpeedLimitState.DecreaseLimit | src/ui/widgets/speed_limit_popup.rs:85-100 | the edited limit steps down, and nothing else changes |
| SpeedLimitPopup.SpeedLimitState.ApplyInput | src/ui/widgets/speed_limit_popup.rs:103-111 | a parsable box sets the edited limit and is cleared; otherwise nothing changes |
| SpeedLimitPopup.PopupScenario | src/ui/widgets/speed_limit_popup.rs:462-498 | the source's state tests: toggling twice, then applying "5m" |
| Input.NormalModeAction | src/input.rs:129-205 | the tab keys select tabs 0-2 and nothing else does; Shift+Delete, and only it, deletes the file |
| Input.HelpModeAction | src/input.rs:335-346 | Esc, q, ? and Enter close the help, and only they do |
| Input.ConfirmationModeAction | src/input.rs:348-356 | only y/Y confirm and only n/N/Esc refuse |
| Input.SettingsModeAction | src/input.rs:358-367 | Esc or q cancels and Enter submits |
| Input.NormalModeExamples | src/input.rs:560-567 | '?' shows the help and '/' starts a search |
| Input.NormalModeMoreExamples | src/input.rs:569-580 | 'l' opens the limit popup and Shift+Delete deletes the file |
| Input.ControlExamples | src/input.rs:144-151 | Ctrl+U pages up, while a plain 'u' does nothing |
| Input.InsertChar | src/input.rs:278-282 | a typed character goes in before the cursor, and the text after it is kept |
| Input.InsertText | src/input.rs:371-374 | pasted text goes in at the cursor |
| Input.DeleteBefore | src/input.rs:245-251 | Backspace removes the character before the cursor, and nothing at the start |
| Input.DeleteAt | src/input.rs:252-257 | Delete removes the character at the cursor, and nothing at the end |
| Input.CursorLeft | src/input.rs:258-263 | one step back, stopping at the start |
| Input.CursorRight | src/input.rs:264-269 | one step forward, stopping at the end |
| Input.WordCut | src/input.rs:218-229 | the cut is just after the last space before the trailing whitespace |
| Input.DeleteWordBefore | src/input.rs:218-229 | Ctrl+W removes the text from the cut to the cursor, and keeps the rest |
| Input.EditingStep | src/input.rs:207-285 | only characters, Backspace and Delete change the text; Ctrl+U clears; Home/Ctrl+A and End/Ctrl+E move to the ends; Enter and Esc leave the line, Ctrl held or not |
| Input.EditingActions | src/input.rs:207-285 | each key reports its action: Enter submits and Esc cancels, Ctrl held or not; Backspace/Delete DeleteChar, Ctrl+W DeleteWord, Ctrl+U ClearAll, Home/Ctrl+A and End/Ctrl+E and the arrows their moves, a typed character none; a key reporting none either typed a character or left the line alone |
| Input.BackspaceUndoesInsert | src/input.rs:245-282 | Backspace undoes a typed character |
| Input.DeleteUndoesInsertAfterLeft | src/input.rs:251-282 | Left then Delete undoes a typed character |
| Input.PasteComposes | src/input.rs:371-374 | two pastes are one paste of the concatenation, and pasting one character is typing it |
| Input.CursorExample | src/input.rs:543-556 | Left, Home and End on "test" |
| Input.DropLast | src/input.rs:300-303 | `String::pop`: the last character goes; the empty text stays empty |
| Input.SearchStep | src/input.rs:287-310 | Enter and Esc, and only they, leave search; Esc clears the query; a character is appended |
| Input.SearchBackspaceUndoesChar | src/input.rs:300-307 | Backspace in the search box undoes a typed character |
| Input.SearchExample | src/input.rs:584-596 | "test" typed, then Backspace, gives "tes" |
| Input.LimitChars | src/input.rs:378-387 | the pasted text keeps only the characters the limit box accepts, in order |
| Input.SpeedLimitStep | src/input.rs:312-333 | only limit characters are appended, and others are ignored |
| Input.InputHandler.CurrentLine | src/input.rs:443-454 | the prompt's text and cursor |
| Input.InputHandler.constructor | src/input.rs:107-115 | Normal mode with empty texts |
| Input.InputHandler.HandleKey | src/input.rs:117-127 | dispatches on the mode: key-map modes change nothing, and the editing modes follow their step functions |
| Input.InputHandler.HandleInputMode | src/input.rs:207-285 | the prompt changes as `EditingStep` says, and nothing else does |
| Input.InputHandler.HandleSearchMode | src/input.rs:287-310 | the query and the action are as `SearchStep` says; Enter and Esc set the mode to Normal and every other key leaves it as it was |
| Input.InputHandler.HandleSpeedLimitMode | src/input.rs:312-333 | the limit box changes as `SpeedLimitStep` says |
| Input.InputHandler.HandlePaste | src/input.rs:369-390 | pasted text goes to the text of the current mode, filtered in the limit box |
| Input.InputHandler.EnterEditMode | src/input.rs:392-396 | Editing with an empty prompt |
| Input.InputHandler.EnterSearchMode | src/input.rs:398-401 | Search with an empty query |
| Input.InputHandler.EnterSpeedLimitMode | src/input.rs:403-406 | SpeedLimit with an empty box |
| Input.InputHandler.SetMode | src/input.rs:408-422 | only the mode changes |
| Input.InputHandler.DeleteLastChar | src/input.rs:425-441 | Backspace in whichever text the mode edits |
| Input.InputHandler.TakeInput | src/input.rs:456-459 | returns the prompt's text and empties it |
| Input.InputHandler.TakeSearchQuery | src/input.rs:462-464 | returns the query and empties it |
| Input.InputHandler.TakeSpeedLimitBuffer | src/input.rs:467-469 | returns the limit box and empties it |
| Input.InputHandler.ClearSearch | src/input.rs:471-473 | the query is emptied |
| Input.InputHandler.SetBuffer | src/input.rs:476-479 | the prompt holds the text with the cursor at its end |
| Input.PasteIntoPrompt | src/input.rs:534-540 | a URL pasted into a fresh prompt fills it, with the cursor at the end |
| Utils.IsActive | src/ui/utils.rs:26-29 | ACTIVE is active and WAITING never is; otherwise a download is active exactly when it is part-way done |
| Utils.IsQueued | src/ui/utils.rs:32-34 | WAITING, PAUSED and not-started downloads are queued, and nothing else is |
| Utils.IsCompleted | src/ui/utils.rs:37-39 | full progress or COMPLETE means completed, and nothing else does |
| Utils.OnTab | src/ui/utils.rs:16-21 | tab 0 lists active, 1 queued and 2 completed downloads; no download is on any other tab |
| Utils.FilterByTab | src/ui/utils.rs:13-23 | exactly the downloads on the tab, in order, as many as are on it; nothing for an unknown tab |
| Utils.CountByTab | src/ui/utils.rs:42-52 | the count is the length of the filtered list |
| Utils.ClassificationExamples | src/ui/utils.rs:26-39 | waiting at zero is queued and not active; half-done active is only active; paused is queued; complete is completed |
| Utils.TabsOverlap | src/ui/utils.rs:26-34 | a paused download with progress is on both the Active and the Queue tab |
| Utils.ReportedStatusHasTab | src/ui/utils.rs:26-39 | every ACTIVE, WAITING or COMPLETE download is on some tab |
| Utils.TruncateText | src/ui/utils.rs:92-98 | short text is unchanged; long text becomes a prefix of it and "...", of the maximum length |
| Utils.TruncateExamples | src/ui/utils.rs:152-155 | the source's two truncation cases |
| Utils.FormatSize | src/ui/utils.rs:55-72 | bytes below 1 KiB are exact; above, the largest unit that fits, up to TB |
| Utils.FormatSpeed | src/ui/utils.rs:75-89 | as the size, with " B/s" and GB as the largest unit |
| Utils.UnitIsMonotone | src/ui/utils.rs:55-72 | a larger size never gets a smaller unit |
| Utils.FormatExamples | src/ui/utils.rs:135-149 | the source's size and speed cases, as value and unit |
| DownloadsList.ClampSelection | src/ui/widgets/downloads_list.rs:145-153 | no selection exactly for an empty list; an in-range selection is kept, one past the end goes to the last row, none goes to the first |
| DownloadsList.ClampIdempotent | src/ui/widgets/downloads_list.rs:145-153 | repairing twice is repairing once |
| DownloadsList.ListState.constructor | src/ui/widgets/downloads_list.rs:174 | a fresh list state selects nothing |
| DownloadsList.ListState.Select | src/ui/widgets/downloads_list.rs:146-151 | the selection becomes the given index |
| DownloadsList.ValidateSelection | src/ui/widgets/downloads_list.rs:145-153 | the list state's selection is repaired in place |
| DownloadsList.SelectionScenario | src/ui/widgets/downloads_list.rs:173-186 | the source's two selection tests |
| DownloadsList.ScrollOffset | src/ui/widgets/downloads_list.rs:156-166 | the smallest offset that shows the selected row |
| DownloadsList.ScrollExamples | src/ui/widgets/downloads_list.rs:189-199 | the source's scroll cases |
| App.PlaceholderDownload | src/ui/app.rs:434-457 | an unidentified "No downloads" entry with "N/A" speeds |
| App.PlaceholderClassification | src/ui/app.rs:434-457 | the placeholder is on the Queue tab only |
| App.SelectedDownload | src/ui/app.rs:417-431 | the selected filtered row, else the first download, else the placeholder |
| App.RepairedSelectionShowsFilteredRow | src/ui/app.rs:417-431 | after selection repair a non-empty filtered list always shows one of its rows |
| App.SelectionExamples | src/ui/app.rs:497-531 | the source's selection tests |
| App.ShortcutsFor | src/ui/app.rs:366-414 | every mode has a scope name and at least three non-empty hints |
| App.DefaultAppState | src/ui/app.rs:48-66 | first tab, Normal mode, no downloads, empty texts, no limits |
| App.DefaultShowsNothing | src/ui/app.rs:48-66 | the default state shows nothing but the placeholder |
| InputField.ValidCoversTypedInput | src/ui/widgets/input_field.rs:75-88 | every input submitted as a torrent or metalink file is valid, and an invalid input is submitted by URI |
| InputField.IsValidInput | src/ui/widgets/input_field.rs:75-88 | an input with a known scheme or a torrent or metalink suffix is valid; a valid input has at least six characters, so the empty input is not |
| InputField.ValidityExamples | src/ui/widgets/input_field.rs:101-110 | the source's valid inputs (http, https, ftp, magnet, .torrent, .metalink, .meta4) and invalid ones ("" and "invalid") |
| StatusBar.Icon | src/ui/widgets/status_bar.rs:44-60 | each kind has a one-character icon |
| StatusBar.IconsDistinct | src/ui/widgets/status_bar.rs:44-60 | different kinds have different icons |
| StatusBar.MessageStyle | src/ui/widgets/status_bar.rs:44-60 | Error exactly when the lowered message mentions an error; Success, Warning and Info by the later tests, in order |
| StatusBar.StyleIgnoresCase | src/ui/widgets/status_bar.rs:44-60 | upper- or lower-casing a message does not change its style |
| StatusBar.StyleExamples | src/ui/widgets/status_bar.rs:68-72 | "Error: download failed" is an error |
| StatusBar.StyleCaseExample | src/ui/widgets/status_bar.rs:96-100 | "ERROR occurred" and "error occurred" get the same style |

## Left out

- The daemon client (src/aria2.rs) is not part of this model. Its replies are
  method parameters (`reply`, `fileError`, the report lists).
- Concurrency:
  - the locks, the background polling task and the settle delay of
    `remove_download` are left out;
  - each method is one atomic step;
  - `PassBetweenRemovalSteps` and `ForgetFirstResurrects` state the
    interleaving argument on values.
- Operations that only forward to the daemon are left out, because they have
  no local state:
  - pause, resume, pause_all, resume_all;
  - set/get speed limits, move_up/move_down, shutdown (src/download_manager.rs:375-384, 464-533).
- The file system: the outcome of the deletion in `delete_file` is a
  parameter.
- `added_at`, which is read from the clock.
- Rendering: colours, layout, `centered_rect`, drawing, and main.rs.
- Utils.FormatSize, Utils.FormatSpeed, SpeedLimitPopup.FormatSpeedLimit: the
  decimal rendering of a scaled value (`{:.2}` and the popup's own format) is
  not modelled. The result is the exact quotient and its unit.
- LimitText.DecimalValue: `str::parse::<f64>` is exact real arithmetic here,
  so f64 rounding of very long numbers is not modelled.
- Reconcile.ProgressOf: the progress is the exact quotient completed/total,
  where src/download_manager.rs:194-198 divides two f64 values. With a total
  above 2^53 and completed = total - 1 the source rounds the progress to 1.0,
  so `is_completed` (src/ui/utils.rs:37-38) holds and `purge_completed`
  (src/download_manager.rs:418) removes the entry, while the model keeps it.
- Reconcile.Contribution: the u64 sums of the speeds and the u32 counters are
  unbounded here. Wrap-around is unreachable with realistic tables.
- SpeedLimitPopup.StepUp: the u64 overflow of adding to a limit near 2^64 is
  not modelled.
- `get_all_downloads` and `get_global_stats` are plain reads of the fields
  (`downloads`, `globalStats`) and have no member of their own.
- DownloadManager.Manager.ActiveDownloads, QueuedDownloads, CompletedDownloads:
  these return sets. The unspecified order of the HashMap is not modelled.
- `SortField::as_str`, `SpeedLimitSettings::format_limit`, `ConfirmAction` and
  `AppSettings` are display or configuration data with no behaviour worth
  stating.
- `download_type_name`: a fixed label per type, also with no behaviour worth
  stating.
- `AppState.sort_order` (a `ui::utils::SortOrder`, src/ui/app.rs:37) and the
  popup state are left out of `App.AppState`. The sort order is not modelled
  at all; `Models.SortField` is the separate settings column. The popup state
  is modelled by `SpeedLimitPopup`.
- LimitText.ScanSpec: Unicode letters outside ASCII are skipped by the scan,
  where `char::is_alphabetic` counts them as unit letters. So "5é2" reads as
  52 here and as 5 with unit "é" in the source.
- Text case mapping is ASCII only. Unicode case folding and byte-offset
  slicing of non-ASCII text are not modelled.
- The copy of `format_speed` in src/download_manager.rs:565-582 is the same
  rule as `Utils.FormatSpeed` and is not modelled twice.
- UrlDecoding.Decode: it returns the text directly. The source wraps it in an
  `Ok` that is never an error.
- Input: the variant `KeyAction::None` is called `NoAction`. Modifier keys
  other than Shift and Control are not modelled.
- DownloadManager.Manager.AddDownload: it keeps `TombstonesApart` only when
  the new gid is not tombstoned, because the source does not check the
  tombstones when adding.
- `handle_key` in Normal mode returns the action; the mode changes that the
  application then makes are outside src/input.rs.
