/** The records and small value types of src/models.rs: a download as the
    table stores it, the aggregate statistics, the input modes, the sort
    cycle, the URL history and the plain-bytes limit parser. */
module Models {
  import opened Wrappers
  import opened Text
  import opened Seqs
  import opened LimitText

  /** The units chosen by the size and speed formatters. */
  datatype SizeUnit = B | KB | MB | GB | TB

  /** A formatted size or speed string.  `Text` is a string the program writes
      verbatim ("0 B/s", "512 B", "N/A"); `Scaled(value, unit)` stands for the
      two-decimal rendering of `value` followed by the unit's name, where
      `value` is the exact quotient the program rounds. */
  datatype Rendered = Text(text: string) | Scaled(value: real, unit: SizeUnit)

  datatype DownloadType = Http | Torrent | Metalink

  /** One download (the `Download` struct); `added_at` is not modelled. */
  datatype Download = Download(
    gid: Option<string>,
    name: string,
    url: Option<string>,
    progress: real,
    speed: Rendered,
    status: string,
    totalLength: nat,
    completedLength: nat,
    downloadType: DownloadType,
    speedHistory: seq<nat>,
    uploadSpeed: Rendered,
    uploadSpeedHistory: seq<nat>,
    connections: nat,
    filePath: Option<string>,
    errorMessage: Option<string>,
    seeds: nat,
    peers: nat,
    bitfield: Option<string>,
    numPieces: nat)

  /** `Download::default`. */
  function DefaultDownload(): (d: Download)
    ensures d.status == "IDLE" && d.progress == 0.0 && d.gid == None
    ensures d.speedHistory == [] && d.uploadSpeedHistory == []
  {
    Download(None, "", None, 0.0, Text("0 B/s"), "IDLE", 0, 0, Http, [], Text("0 B/s"), [], 0,
             None, None, 0, 0, None, 0)
  }

  datatype InputMode = Normal | Editing | Search | SpeedLimit | Help | Confirmation | Settings

  /** The aggregate statistics; `GlobalStats::default` is all zeros. */
  datatype GlobalStats = GlobalStats(
    downloadSpeed: nat,
    uploadSpeed: nat,
    numActive: nat,
    numWaiting: nat,
    numStopped: nat,
    numStoppedTotal: nat)

  const ZERO_STATS := GlobalStats(0, 0, 0, 0, 0, 0)

  // ---------------------------------------------------------------------------
  // Sorting

  datatype SortField = Name | Size | Progress | Speed | DateAdded | Status {
    /** The position of the column in the order the enum declares them. */
    function Position(): (n: nat)
      ensures n < 6
    {
      match this
      case Name => 0
      case Size => 1
      case Progress => 2
      case Speed => 3
      case DateAdded => 4
      case Status => 5
    }

    /** `SortField::next`: the column the sort key moves to, the next one in
        declaration order, wrapping from the last to the first. */
    function Next(): (f: SortField)
      ensures f != this
      ensures f.Position() == (Position() + 1) % 6
    {
      match this
      case Name => Size
      case Size => Progress
      case Progress => Speed
      case Speed => DateAdded
      case DateAdded => Status
      case Status => Name
    }
  }

  datatype SortDirection = Ascending | Descending {
    /** `SortDirection::toggle`. */
    function Toggle(): (d: SortDirection)
      ensures d != this
    {
      match this
      case Ascending => Descending
      case Descending => Ascending
    }
  }

  /** Six steps of the sort cycle return to the starting column, and no fewer
      do: the cycle visits all six columns. */
  lemma SortCycle(f: SortField)
    ensures f.Next().Next().Next().Next().Next().Next() == f
    ensures f.Next().Next() != f && f.Next().Next().Next() != f
    ensures f.Next().Next().Next().Next() != f && f.Next().Next().Next().Next().Next() != f
  {
  }

  /** The cycle starts Name, Size, Progress. */
  lemma SortFieldOrder()
    ensures Name.Next() == Size && Size.Next() == Progress
  {
  }

  /** Toggling the sort direction is an involution. */
  lemma ToggleInvolution(d: SortDirection)
    ensures d.Toggle().Toggle() == d
  {
  }

  // ---------------------------------------------------------------------------
  // URL history

  /** The history after `UrlHistory::add(url)`: every earlier copy of `url`
      removed, `url` put in front, the whole cut to `max` entries. */
  function AddedHistory(entries: seq<string>, url: string, max: nat): (r: seq<string>)
    ensures |r| <= max
    ensures max >= 1 ==> |r| >= 1 && r[0] == url
  {
    var kept := [url] + Keep(entries, Other(url));
    if |kept| > max then kept[..max] else kept
  }

  class UrlHistory {
    var entries: seq<string>
    var maxEntries: nat

    /** `UrlHistory::new`. */
    constructor (maxEntries: nat)
      ensures this.entries == [] && this.maxEntries == maxEntries
    {
      this.entries := [];
      this.maxEntries := maxEntries;
    }

    /** `UrlHistory::add`: retain, insert at the front, truncate. */
    method Add(url: string)
      modifies this
      ensures entries == AddedHistory(old(entries), url, maxEntries)
      ensures maxEntries == old(maxEntries)
    {
      entries := Keep(entries, Other(url));
      entries := [url] + entries;
      if |entries| > maxEntries {
        entries := entries[..maxEntries];
      }
    }

    /** `UrlHistory::filter`: the first five entries that contain `pattern`,
        ignoring ASCII case, in history order.  A matching entry preceded by
        fewer than five matches is returned, at the position given by their
        number. */
    function Filter(pattern: string): (r: seq<string>)
      reads this
      ensures |r| == if CountWhere(entries, Matches(pattern)) > 5 then 5 else CountWhere(entries, Matches(pattern))
      ensures forall i :: 0 <= i < |r| ==> Contains(Lower(r[i]), Lower(pattern))
      ensures IsSubsequence(r, entries)
      ensures forall i :: 0 <= i < |entries| && Matches(pattern)(entries[i]) && entries[i] !in r ==> |r| == 5
      ensures forall i :: 0 <= i < |entries| && Matches(pattern)(entries[i]) && CountWhere(entries[..i], Matches(pattern)) < 5 ==>
                CountWhere(entries[..i], Matches(pattern)) < |r| && r[CountWhere(entries[..i], Matches(pattern))] == entries[i]
    {
      FirstKeptProperties(entries, Matches(pattern), 5);
      FirstKept(entries, Matches(pattern), 5)
    }
  }

  /** The test `retain(|u| u != url)` keeps an entry by. */
  function Other(url: string): string -> bool {
    u => u != url
  }

  /** Whether a history entry contains a filter pattern, ignoring ASCII case. */
  function Matches(pattern: string): string -> bool {
    u => Contains(Lower(u), Lower(pattern))
  }

  const VIDEO_URL := "https://example.com/video.mp4"
  const AUDIO_URL := "https://test.com/audio.mp3"
  const IMAGE_URL := "https://example.com/image.png"

  /** The lower case of "example" is itself. */
  lemma LowerExample()
    ensures Lower("example") == "example"
  {
    LowerWithoutCapitals("example");
  }

  /** An "https://example" url without capitals matches "example". */
  lemma ExampleHostMatches(url: string, rest: string)
    requires url == "https://" + "example" + rest && Lower(url) == url
    ensures Matches("example")(url)
  {
    LowerExample();
    ContainsBetween("https://", "example", rest);
  }

  /** The video url of the filter test has no capitals. */
  lemma VideoUrlLower()
    ensures Lower(VIDEO_URL) == VIDEO_URL
  {
    LowerWithoutCapitals(VIDEO_URL);
  }

  /** The video url of the filter test matches "example". */
  lemma VideoMatches()
    ensures Matches("example")(VIDEO_URL)
  {
    VideoUrlLower();
    assert VIDEO_URL == "https://" + "example" + ".com/video.mp4";
    ExampleHostMatches(VIDEO_URL, ".com/video.mp4");
  }

  /** The image url of the filter test has no capitals. */
  lemma ImageUrlLower()
    ensures Lower(IMAGE_URL) == IMAGE_URL
  {
    LowerWithoutCapitals(IMAGE_URL);
  }

  /** The image url of the filter test matches "example". */
  lemma ImageMatches()
    ensures Matches("example")(IMAGE_URL)
  {
    ImageUrlLower();
    assert IMAGE_URL == "https://" + "example" + ".com/image.png";
    ExampleHostMatches(IMAGE_URL, ".com/image.png");
  }

  /** The two urls of the filter test on example.com match "example". */
  lemma ExampleHostsMatch()
    ensures Matches("example")(VIDEO_URL) && Matches("example")(IMAGE_URL)
  {
    VideoMatches();
    ImageMatches();
  }

  /** The url of the filter test on test.com does not match "example". */
  lemma OtherHostDoesNotMatch()
    ensures !Matches("example")(AUDIO_URL)
  {
    LowerExample();
    var a := Lower(AUDIO_URL);
    assert a == AUDIO_URL by { LowerWithoutCapitals(AUDIO_URL); }
    assert 'x' !in a;
    NotContainsMissing(a, "example", 'x');
  }

  /** Two of the three urls of the filter test match "example". */
  lemma ExampleCount()
    ensures CountWhere([IMAGE_URL, AUDIO_URL, VIDEO_URL], Matches("example")) == 2
  {
    ExampleHostsMatch();
    OtherHostDoesNotMatch();
    CountOfThree(IMAGE_URL, AUDIO_URL, VIDEO_URL, Matches("example"));
  }

  /** The filter test of the source: of three urls added to a history, the
      two on example.com match "example". */
  method FilterExample() returns (filtered: seq<string>)
    ensures |filtered| == 2
  {
    var history := new UrlHistory(10);
    history.Add(VIDEO_URL);
    history.Add(AUDIO_URL);
    history.Add(IMAGE_URL);
    assert history.entries == [IMAGE_URL, AUDIO_URL, VIDEO_URL] by {
      assert Keep([VIDEO_URL], Other(AUDIO_URL)) == [VIDEO_URL];
      assert Keep([AUDIO_URL, VIDEO_URL], Other(IMAGE_URL)) == [AUDIO_URL, VIDEO_URL];
    }
    ExampleCount();
    filtered := history.Filter("example");
  }

  /** After adding `url` to a history of capacity at least one, `url` is the
      newest entry and occurs exactly once, the rest is an order-preserving
      selection of the earlier entries, and no entry is lost while there is
      room. */
  lemma {:induction false} AddPutsUrlFirstOnce(entries: seq<string>, url: string, max: nat)
    requires max >= 1
    ensures |AddedHistory(entries, url, max)| >= 1
    ensures AddedHistory(entries, url, max)[0] == url
    ensures multiset(AddedHistory(entries, url, max))[url] == 1
    ensures IsSubsequence(AddedHistory(entries, url, max)[1..], entries)
    ensures forall i :: 0 <= i < |entries| && entries[i] != url && |entries| < max ==>
              entries[i] in AddedHistory(entries, url, max)
  {
    var kept := Keep(entries, Other(url));
    var r := AddedHistory(entries, url, max);
    KeepIsSubsequence(entries, Other(url));
    assert url !in kept;
    assert r == ([url] + kept)[..|r|];
    assert r[1..] == kept[..|r| - 1];
    PrefixOfSubsequence(kept, entries, |r| - 1);
    assert r == [url] + r[1..];
    assert url !in r[1..];
    assert multiset(r) == multiset([url]) + multiset(r[1..]);
  }

  /** Which earlier entries survive `add(url)`: the new history holds `url`
      and as many of the other entries as fit, and an entry other than `url`
      preceded by fewer than `max - 1` such entries is kept, one place
      behind their number (so the newest `max - 1` others survive, in order). */
  lemma {:induction false} AddKeepsNewestOthers(entries: seq<string>, url: string, max: nat)
    requires max >= 1
    ensures |AddedHistory(entries, url, max)| ==
              if 1 + CountWhere(entries, Other(url)) > max then max else 1 + CountWhere(entries, Other(url))
    ensures forall i :: 0 <= i < |entries| && entries[i] != url && CountWhere(entries[..i], Other(url)) < max - 1 ==>
              1 + CountWhere(entries[..i], Other(url)) < |AddedHistory(entries, url, max)| &&
              AddedHistory(entries, url, max)[1 + CountWhere(entries[..i], Other(url))] == entries[i]
  {
    var f := FirstKept(entries, Other(url), max - 1);
    assert AddedHistory(entries, url, max) == [url] + f by {
      var k := Keep(entries, Other(url));
      if |[url] + k| > max {
        assert ([url] + k)[..max] == [url] + k[..max - 1];
      }
    }
    FirstKeptProperties(entries, Other(url), max - 1);
  }

  /** Four distinct URLs added to a history of capacity three leave the three
      newest, newest first. */
  lemma FourIntoThree(u1: string, u2: string, u3: string, u4: string)
    requires u1 != u2 && u1 != u3 && u1 != u4 && u2 != u3 && u2 != u4 && u3 != u4
    ensures AddedHistory(AddedHistory(AddedHistory(AddedHistory([], u1, 3), u2, 3), u3, 3), u4, 3)
            == [u4, u3, u2]
  {
    var h1 := AddedHistory([], u1, 3);
    assert h1 == [u1];
    var h2 := AddedHistory(h1, u2, 3);
    assert Keep(h1, Other(u2)) == [u1];
    assert h2 == [u2, u1];
    var h3 := AddedHistory(h2, u3, 3);
    assert Keep(h2, Other(u3)) == [u2, u1];
    assert h3 == [u3, u2, u1];
    assert Keep(h3, Other(u4)) == [u3, u2, u1];
  }

  // ---------------------------------------------------------------------------
  // Limit parsing with plain bytes as the default unit

  /** The multiplier `parse_limit` takes from the unit text: the first letter
      g, m or k, and plain bytes otherwise (also when there is no unit). */
  function BytesDefaultMultiplier(unit: string): (m: nat)
    ensures m in {1, KIB, MIB, GIB}
    ensures m == 1 <==> unit == [] || unit[0] !in "gmk"
    ensures unit != [] && unit[0] == 'g' ==> m == GIB
    ensures unit != [] && unit[0] == 'm' ==> m == MIB
    ensures unit != [] && unit[0] == 'k' ==> m == KIB
  {
    if StartsWith(unit, "g") then GIB
    else if StartsWith(unit, "m") then MIB
    else if StartsWith(unit, "k") then KIB
    else 1
  }

  /** The value `SpeedLimitSettings::parse_limit` returns for `input`: a
      byte count that fits a u64, and zero (unlimited) for blank input, "0"
      and "unlimited" in any case. */
  function LimitValue(input: string): (r: Option<nat>)
    ensures r.Some? ==> r.value <= U64_MAX
    ensures Lower(Trim(input)) in {"", "0", "unlimited"} ==> r == Some(0)
  {
    var s := Lower(Trim(input));
    if s == "0" || s == [] || s == "unlimited" then Some(0)
    else
      var st := ScanSpec(s);
      match DecimalValue(st.num)
      case None => None
      case Some(x) => Some(TruncateToU64(Scale(x, BytesDefaultMultiplier(st.unit))))
  }

  /** `SpeedLimitSettings::parse_limit`. */
  method ParseLimit(input: string) returns (r: Option<nat>)
    ensures r == LimitValue(input)
    ensures r.Some? ==> r.value <= U64_MAX
  {
    var s := Lower(Trim(input));
    if s == "0" || s == [] || s == "unlimited" {
      return Some(0);
    }
    var num, unit := ScanNumberAndUnit(s);
    var x := DecimalValue(num);
    if x.None? {
      return None;
    }
    r := Some(TruncateToU64(Scale(x.value, BytesDefaultMultiplier(unit))));
  }

  /** The first letter of the unit text decides the multiplier. */
  function UnitHead(u: string): string {
    if u == [] then [] else u[..1]
  }

  /** Text made of digits and lower-case letters that starts with a digit is
      unchanged by trimming and lower-casing. */
  lemma NormalizedAlready(s: string)
    requires |s| > 0 && IsDigit(s[0])
    requires forall i :: 0 <= i < |s| ==> IsLowerLetter(s[i]) || IsDigit(s[i])
    ensures Lower(Trim(s)) == s
  {
    assert !IsWhitespace(s[0]) && !IsWhitespace(s[|s| - 1]);
    TrimNoop(s);
    LowerWithoutCapitals(s);
  }

  /** The scan of an integer, skipped characters and a unit keeps the
      integer as the number and a unit with the same first letter. */
  lemma ScanOfInteger(ds: string, sep: string, u: string)
    requires IsDigits(ds)
    requires forall i :: 0 <= i < |sep| ==> IsSkipped(sep[i])
    requires u == [] || IsAlphabetic(u[0])
    ensures ScanSpec(ds + sep + u).num == ds
    ensures UnitHead(ScanSpec(ds + sep + u).unit) == UnitHead(u)
  {
    ScanDigits(ds);
    ScanSkipsSeparators(ds, sep);
    if u == [] {
      assert ds + sep + u == ds + sep;
    } else {
      ScanUnitAfter(ds + sep, u);
      assert ScanSpec(ds + sep + u).unit[..1] == u[..1];
    }
  }

  /** Truncating an exact integer product to u64 only saturates. */
  lemma TruncateProduct(n: nat, m: nat)
    ensures TruncateToU64(Scale(n as real, m)) == if n * m >= U64_MAX then U64_MAX else n * m
  {
    assert Scale(n as real, m) == (n * m) as real;
  }

  /** A digit run that is the whole of "0" has the value zero. */
  lemma ZeroDigits(ds: string, sep: string, u: string)
    requires |ds| > 0 && IsDigits(ds) && ds + sep + u == "0"
    ensures DigitsValue(ds) == 0
  {
    assert |ds| == 1 && ds[0] == (ds + sep + u)[0];
    assert ds[..0] == [];
  }

  /** When the trimmed, lower-cased input is an integer, characters the
      scan skips and an optional unit, the value is the integer times the
      multiplier of the unit's first letter, truncated to u64. */
  lemma ValueOfNormalized(input: string, ds: string, sep: string, u: string)
    requires Lower(Trim(input)) == ds + sep + u
    requires |ds| > 0 && IsDigits(ds)
    requires forall i :: 0 <= i < |sep| ==> IsSkipped(sep[i])
    requires u == [] || IsAlphabetic(u[0])
    ensures LimitValue(input) == Some(TruncateToU64(Scale(DigitsValue(ds) as real, BytesDefaultMultiplier(UnitHead(u)))))
  {
    var s := Lower(Trim(input));
    var m := BytesDefaultMultiplier(UnitHead(u));
    var x := DigitsValue(ds) as real;
    assert ScanSpec(s).num == ds && BytesDefaultMultiplier(ScanSpec(s).unit) == m by {
      ScanOfInteger(ds, sep, u);
      if u != [] { assert ScanSpec(s).unit[..1] == UnitHead(u); }
    }
    assert s != [] && IsDigit(s[0]) by {
      assert s[0] == ds[0];
    }
    if s == "0" {
      ZeroDigits(ds, sep, u);
      ValueOfZero(input, m);
    } else {
      assert DecimalValue(ScanSpec(s).num) == Some(x);
      ValueOfScan(input, x, m);
    }
  }

  /** "0" means no limit, which is zero bytes whatever the multiplier. */
  lemma ValueOfZero(input: string, m: nat)
    requires Lower(Trim(input)) == "0"
    ensures LimitValue(input) == Some(TruncateToU64(Scale(0.0, m)))
  {
    assert Scale(0.0, m) == 0.0;
  }

  /** Past the words meaning "no limit", the value is the scanned number
      times the multiplier of the scanned unit. */
  lemma ValueOfScan(input: string, x: real, m: nat)
    requires Lower(Trim(input)) != [] && IsDigit(Lower(Trim(input))[0]) && Lower(Trim(input)) != "0"
    requires DecimalValue(ScanSpec(Lower(Trim(input))).num) == Some(x)
    requires BytesDefaultMultiplier(ScanSpec(Lower(Trim(input))).unit) == m
    ensures LimitValue(input) == Some(TruncateToU64(Scale(x, m)))
  {
    var s := Lower(Trim(input));
    assert s != "unlimited";
  }

  /** An integer, then any characters the scan skips (spaces, '/'), then an
      optional unit, once trimmed and lower-cased: the value is the integer
      times the multiplier of the unit's first letter (what follows that
      letter is ignored), a number without unit means bytes, and the result
      saturates at the largest u64. */
  lemma {:induction false} LimitOfInteger(input: string, ds: string, sep: string, u: string)
    requires Lower(Trim(input)) == ds + sep + u
    requires |ds| > 0 && IsDigits(ds)
    requires forall i :: 0 <= i < |sep| ==> IsSkipped(sep[i])
    requires u == [] || IsAlphabetic(u[0])
    ensures var v := DigitsValue(ds) * BytesDefaultMultiplier(UnitHead(u));
            LimitValue(input) == Some(if v >= U64_MAX then U64_MAX else v)
  {
    ValueOfNormalized(input, ds, sep, u);
    TruncateProduct(DigitsValue(ds), BytesDefaultMultiplier(UnitHead(u)));
  }

  /** Input with no digit at all, other than the words meaning unlimited,
      is rejected; "none" is one such input here. */
  lemma LimitWithoutDigits(input: string)
    requires var s := Lower(Trim(input)); s != "0" && s != [] && s != "unlimited"
    requires forall i :: 0 <= i < |Lower(Trim(input))| ==> !IsDigit(Lower(Trim(input))[i])
    ensures LimitValue(input) == None
  {
    var s := Lower(Trim(input));
    ScanNumFromInput(s);
    var num := ScanSpec(s).num;
    forall i | 0 <= i < |num| ensures !IsDigit(num[i]) {
      assert num[i] in s;
    }
  }

  /** The three spellings of "no limit". */
  lemma LimitSpecialWords()
    ensures LimitValue("0") == Some(0) && LimitValue("") == Some(0) && LimitValue("unlimited") == Some(0)
  {
    TrimNoop("0");
    TrimNoop("unlimited");
    assert Lower("unlimited") == "unlimited";
  }

  /** Digits followed by lower-case letters and digits are already trimmed
      and lower-cased, with nothing skipped between the two. */
  lemma NormalizedInteger(ds: string, u: string)
    requires |ds| > 0 && IsDigits(ds)
    requires forall i :: 0 <= i < |u| ==> IsLowerLetter(u[i]) || IsDigit(u[i])
    ensures Lower(Trim(ds + u)) == ds + [] + u
  {
    NormalizedAlready(ds + u);
    assert ds + [] + u == ds + u;
  }

  /** "5m" is five mebibytes: the letter, not "mb", picks the unit. */
  lemma LimitFiveMebibytes()
    ensures LimitValue("5m") == Some(5 * MIB)
  {
    NormalizedInteger("5", "m");
    assert "5" + "m" == "5m";
    assert DigitsValue("5") == 5;
    assert BytesDefaultMultiplier(UnitHead("m")) == MIB;
    LimitOfInteger("5m", "5", [], "m");
  }

  /** Five hundred, written in digits. */
  lemma FiveHundred()
    ensures DigitsValue("500") == 500
  {
    assert "500"[..2] == "50";
    assert "50"[..1] == "5";
  }

  /** "500k" is five hundred kibibytes. */
  lemma LimitFiveHundredKibibytes()
    ensures LimitValue("500k") == Some(500 * KIB)
  {
    NormalizedInteger("500", "k");
    assert "500" + "k" == "500k";
    FiveHundred();
    assert BytesDefaultMultiplier(UnitHead("k")) == KIB;
    LimitOfInteger("500k", "500", [], "k");
  }

  /** The text "5 mb/s" once trimmed and lower-cased: "5", a skipped space,
      and the unit "mb/s". */
  lemma FiveMegabytesPerSecondNormalized(input: string)
    requires input == "5 MB/s" || input == "5 mb/s"
    ensures Lower(Trim(input)) == "5" + " " + "mb/s"
  {
    TrimNoop(input);
    assert Lower(input) == "5 mb/s";
  }

  /** "5 MB/s" is five mebibytes: case, the space and what follows the
      unit's first letter do not matter. */
  lemma LimitFiveMegabytesPerSecond()
    ensures LimitValue("5 MB/s") == Some(5 * MIB)
  {
    FiveMegabytesPerSecondNormalized("5 MB/s");
    assert DigitsValue("5") == 5;
    assert BytesDefaultMultiplier(UnitHead("mb/s")) == MIB by {
      assert UnitHead("mb/s") != [] && UnitHead("mb/s")[0] == 'm';
    }
    LimitOfInteger("5 MB/s", "5", " ", "mb/s");
  }

  /** "none" is not one of the words meaning unlimited here, so it is rejected. */
  lemma LimitNoneRejected()
    ensures LimitValue("none") == None
  {
    TrimNoop("none");
    assert Lower("none") == "none";
    LimitWithoutDigits("none");
  }
}
