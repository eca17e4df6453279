/** How src/download_manager.rs names a download and picks the daemon call for
    a user's input: `extract_filename`, the last '/' segment of a file path,
    and the classification in `add_download`. */
module Naming {
  import opened Wrappers
  import opened Text
  import opened Models
  import opened UrlDecoding

  /** `path.split('/').last()` when it is non-empty. */
  function LastSegment(path: string): (r: Option<string>)
    ensures r.Some? ==> r.value != [] && '/' !in r.value && EndsWith(path, r.value)
    ensures r.Some? && |r.value| < |path| ==> path[|path| - |r.value| - 1] == '/'
    ensures r.None? <==> path == [] || path[|path| - 1] == '/'
  {
    var seg := AfterLast(path, '/');
    if seg == [] then None else Some(seg)
  }

  /** `extract_filename`: for a magnet link the percent-decoded text after the
      first "dn=" up to the next '&' (or "Magnet Download" without "dn="); for
      anything else the last '/' segment of the part before the first '?', or
      "Unknown" when that segment is empty. */
  function ExtractFilename(input: string): (r: string)
    ensures !StartsWith(input, "magnet:") ==> r != [] && '/' !in r && '?' !in r
    ensures StartsWith(input, "magnet:") && IndexOf(input, "dn=").None? ==> r == "Magnet Download"
  {
    if StartsWith(input, "magnet:") then MagnetDisplayName(input)
    else PathName(input)
  }

  /** The magnet branch of `extract_filename`. */
  function MagnetDisplayName(input: string): (r: string)
    ensures IndexOf(input, "dn=").None? ==> r == "Magnet Download"
  {
    match IndexOf(input, "dn=")
    case Some(k) => DecodeSpec(BeforeFirst(input[k + 3..], '&'))
    case None => "Magnet Download"
  }

  /** The URL and path branch of `extract_filename`. */
  function PathName(input: string): (r: string)
    ensures r != [] && '/' !in r && '?' !in r
  {
    var path := BeforeFirst(input, '?');
    match LastSegment(path)
    case Some(name) =>
      assert name == path[|path| - |name|..];
      assert forall i :: 0 <= i < |name| ==> name[i] == path[|path| - |name| + i];
      name
    case None => "Unknown"
  }

  /** A URL or path without a query: the name is the text after the last '/',
      whatever the length of the directory ("/tmp/x.iso" is named "x.iso"). */
  lemma NameOfPath(dir: string, name: string)
    requires !StartsWith(dir, "magnet:")
    requires '?' !in dir && name != [] && '/' !in name && '?' !in name
    ensures ExtractFilename(dir + "/" + name) == name
  {
    var path := dir + "/" + name;
    NotMagnetWithSlash(dir, path);
    assert '?' !in path;
    BeforeFirstWithout(path, '?');
    AfterLastOfSegment(dir, name);
  }

  /** A short directory is named like any other: "/tmp/x.iso" gives
      "x.iso". */
  lemma ShortPathExample()
    ensures ExtractFilename("/tmp/x.iso") == "x.iso"
  {
    assert "/tmp" + "/" + "x.iso" == "/tmp/x.iso";
    NameOfPath("/tmp", "x.iso");
  }

  /** A URL with a query: the query is ignored, whatever it holds. */
  lemma NameOfUrl(dir: string, name: string, query: string)
    requires !StartsWith(dir, "magnet:")
    requires '?' !in dir && name != [] && '/' !in name && '?' !in name
    ensures ExtractFilename(dir + "/" + name + "?" + query) == name
  {
    var path := dir + "/" + name;
    var input := path + "?" + query;
    assert input == dir + ("/" + name + "?" + query);
    NotMagnetWithSlash(dir, input);
    assert '?' !in path;
    assert input == path + ("?" + query);
    BeforeFirstAt(path, "?" + query, '?');
    AfterLastOfSegment(dir, name);
  }

  /** A text that is not a magnet link stays one when a '/' and more follow
      it: a short directory puts the '/' where "magnet:" has a letter. */
  lemma NotMagnetWithSlash(dir: string, s: string)
    requires !StartsWith(dir, "magnet:")
    requires |s| > |dir| && s[..|dir|] == dir && s[|dir|] == '/'
    ensures !StartsWith(s, "magnet:")
  {
    if |dir| >= 7 {
      assert s[..7] == dir[..7];
    } else if |s| >= 7 {
      assert s[..7][|dir|] == '/';
      assert '/' !in "magnet:";
    }
  }

  /** `find(p)` finds the occurrence of `p` at the end of `prefix` when none
      starts earlier, that is inside `prefix` or overlapping its end. */
  lemma FindAfter(prefix: string, tail: string, p: string)
    requires StartsWith(tail, p)
    requires forall j :: 0 <= j < |prefix| ==> !StartsWith((prefix + p)[j..], p)
    ensures IndexOf(prefix + tail, p) == Some(|prefix|)
  {
    var s := prefix + tail;
    assert s[|prefix|..] == tail;
    assert StartsWith(s[|prefix|..], p);
    forall j | 0 <= j < |prefix|
      ensures !StartsWith(s[j..], p)
    {
      SameWindow(prefix, tail, p, j);
      assert s[j..][..|p|] == s[j..j + |p|];
      assert (prefix + p)[j..][..|p|] == (prefix + p)[j..j + |p|];
    }
    assert IndexOf(s, p).Some?;
    FoundStartsWith(s, p);
  }

  /** Up to the end of `prefix + p`, `prefix + tail` reads the same as
      `prefix + p` when `tail` starts with `p`. */
  lemma SameWindow(prefix: string, tail: string, p: string, j: nat)
    requires StartsWith(tail, p) && j <= |prefix|
    ensures j + |p| <= |prefix + tail|
    ensures (prefix + tail)[j..j + |p|] == (prefix + p)[j..j + |p|]
  {
    var s := prefix + tail;
    var t := prefix + p;
    forall k | j <= k < j + |p|
      ensures s[k] == t[k]
    {
      if k >= |prefix| {
        assert s[k] == tail[k - |prefix|];
        assert tail[k - |prefix|] == tail[..|p|][k - |prefix|];
      }
    }
  }

  /** The last segment of `dir/name` is `name`. */
  lemma {:induction false} AfterLastOfSegment(dir: string, name: string)
    requires '/' !in name
    ensures AfterLast(dir + "/" + name, '/') == name
    decreases |name|
  {
    var s := dir + "/" + name;
    if name == [] {
      assert s[|s| - 1] == '/';
    } else {
      var name' := name[..|name| - 1];
      assert '/' !in name' by { assert forall x :: x in name' ==> x in name; }
      assert s[..|s| - 1] == dir + "/" + name';
      AfterLastOfSegment(dir, name');
      assert name == name' + [name[|name| - 1]];
    }
  }

  /** No "dn=" starts before the end of `prefix`: the one that follows it is
      the first of the link. */
  predicate NoNameBefore(prefix: string) {
    forall j :: 0 <= j < |prefix| ==> !StartsWith((prefix + "dn=")[j..], "dn=")
  }

  /** The name of a magnet link is the decoded text of the first "dn=" value
      up to the first '&'. */
  lemma MagnetValue(prefix: string, value: string)
    requires StartsWith(prefix, "magnet:") && NoNameBefore(prefix)
    ensures ExtractFilename(prefix + ("dn=" + value)) == DecodeSpec(BeforeFirst(value, '&'))
  {
    var input := prefix + ("dn=" + value);
    assert input[..7] == prefix[..7];
    FindAfter(prefix, "dn=" + value, "dn=");
    assert input[|prefix| + 3..] == value;
  }

  /** A magnet link whose "dn=" value holds no '&' before the trackers is
      named by the decoded value. */
  lemma MagnetValueBeforeTrackers(prefix: string, e: string, rest: string)
    requires StartsWith(prefix, "magnet:") && NoNameBefore(prefix)
    requires '&' !in e && (rest == [] || rest[0] == '&')
    ensures ExtractFilename(prefix + "dn=" + e + rest) == DecodeSpec(e)
  {
    var value := e + rest;
    assert prefix + "dn=" + e + rest == prefix + ("dn=" + value);
    MagnetValue(prefix, value);
    if rest == [] {
      assert value == e;
      BeforeFirstWithout(e, '&');
    } else {
      BeforeFirstAt(e, rest, '&');
    }
  }

  /** A magnet link whose display name was percent-encoded is named by that
      name, whatever trackers follow it. */
  lemma NameOfMagnet(prefix: string, name: string, rest: string)
    requires StartsWith(prefix, "magnet:") && NoNameBefore(prefix)
    requires rest == [] || rest[0] == '&'
    ensures ExtractFilename(prefix + "dn=" + Encode(name) + rest) == name
  {
    MagnetValueBeforeTrackers(prefix, Encode(name), rest);
    DecodeEncode(name);
  }

  /** A magnet link without "dn=" is called "Magnet Download". */
  lemma MagnetWithoutName(input: string)
    requires StartsWith(input, "magnet:")
    requires forall j :: 0 <= j <= |input| ==> !StartsWith(input[j..], "dn=")
    ensures ExtractFilename(input) == "Magnet Download"
  {
    FoundStartsWith(input, "dn=");
  }

  /** A bare file name is its own name. */
  lemma NameOfBareFile(input: string)
    requires !StartsWith(input, "magnet:")
    requires input != [] && '/' !in input && '?' !in input
    ensures ExtractFilename(input) == input
  {
    BeforeFirstWithout(input, '?');
    assert AfterLast(input, '/') == input;
  }

  /** A URL whose path ends in '/' has no file part and is called "Unknown". */
  lemma NameOfDirectory(input: string)
    requires !StartsWith(input, "magnet:")
    requires input != [] && '?' !in input && input[|input| - 1] == '/'
    ensures ExtractFilename(input) == "Unknown"
  {
    BeforeFirstWithout(input, '?');
  }

  // ---------------------------------------------------------------------------
  // Classification in add_download

  /** The daemon call `add_download` makes. */
  datatype Submission = AddUri | AddTorrent | AddMetalink

  predicate IsMetalinkInput(input: string) {
    EndsWith(input, ".metalink") || EndsWith(input, ".meta4")
  }

  /** Which daemon call an input goes to: magnet links and URLs by URI, torrent
      and metalink files by their own calls. */
  function SubmissionFor(input: string): (s: Submission)
    ensures s == AddTorrent <==> !StartsWith(input, "magnet:") && EndsWith(input, ".torrent")
    ensures s == AddMetalink <==>
              !StartsWith(input, "magnet:") && !EndsWith(input, ".torrent") && IsMetalinkInput(input)
  {
    if StartsWith(input, "magnet:") then AddUri
    else if EndsWith(input, ".torrent") then AddTorrent
    else if IsMetalinkInput(input) then AddMetalink
    else AddUri
  }

  /** The type recorded for a new entry. */
  function DownloadTypeFor(input: string): (t: DownloadType)
    ensures t == Torrent <==> StartsWith(input, "magnet:") || EndsWith(input, ".torrent")
    ensures t == Metalink <==> !(StartsWith(input, "magnet:") || EndsWith(input, ".torrent")) && IsMetalinkInput(input)
  {
    if StartsWith(input, "magnet:") || EndsWith(input, ".torrent") then Torrent
    else if IsMetalinkInput(input) then Metalink
    else Http
  }

  /** The call and the recorded type agree: torrent and metalink files are
      typed by their call, a URI call is a torrent exactly for magnet links. */
  lemma SubmissionMatchesType(input: string)
    ensures SubmissionFor(input) == AddTorrent ==> DownloadTypeFor(input) == Torrent
    ensures SubmissionFor(input) == AddMetalink <==> DownloadTypeFor(input) == Metalink
    ensures SubmissionFor(input) == AddUri ==>
              (DownloadTypeFor(input) == Torrent <==> StartsWith(input, "magnet:"))
  {
  }
}
