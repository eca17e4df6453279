/** The validity check of the URL prompt in src/ui/widgets/input_field.rs,
    which only colours the prompt; submission does not consult it. */
module InputField {
  import opened Text
  import opened Models
  import opened Naming

  /** `is_valid_input`: a known scheme prefix or a torrent or metalink
      suffix. */
  predicate IsValidInput(text: string): (r: bool)
    ensures r ==> |text| >= 6
    ensures StartsWith(text, "http://") || StartsWith(text, "https://") || StartsWith(text, "ftp://") ==> r
    ensures StartsWith(text, "magnet:") ==> r
    ensures EndsWith(text, ".torrent") || EndsWith(text, ".metalink") || EndsWith(text, ".meta4") ==> r
  {
    && text != []
    && (|| StartsWith(text, "http://") || StartsWith(text, "https://")
        || StartsWith(text, "ftp://") || StartsWith(text, "magnet:")
        || EndsWith(text, ".torrent") || EndsWith(text, ".metalink")
        || EndsWith(text, ".meta4"))
  }

  /** Every input that is submitted as a torrent or metalink file, and every
      input recorded as a torrent or metalink download, shows as valid; an
      input that shows as invalid goes to the daemon as a plain URI of type
      Http. */
  lemma ValidCoversTypedInput(text: string)
    ensures SubmissionFor(text) != AddUri ==> IsValidInput(text)
    ensures DownloadTypeFor(text) != Http ==> IsValidInput(text)
    ensures !IsValidInput(text) ==> SubmissionFor(text) == AddUri && DownloadTypeFor(text) == Http
  {
  }

  /** Some inputs of the source's test. */
  lemma ValidityExamples()
    ensures IsValidInput("http://example.com/file.zip")
    ensures IsValidInput("https://example.com/file.zip")
    ensures IsValidInput("ftp://example.com/file.zip")
    ensures IsValidInput("magnet:?xt=urn:btih:abc123")
    ensures IsValidInput("/path/to/file.torrent")
    ensures IsValidInput("/path/to/file.metalink")
    ensures IsValidInput("/path/to/file.meta4")
    ensures !IsValidInput("") && !IsValidInput("invalid")
  {
    SchemeExamples();
    SuffixExamples();
    InvalidExample();
  }

  /** A word with no scheme and no known suffix is invalid. */
  lemma InvalidExample()
    ensures !IsValidInput("invalid")
  {
    var s := "invalid";
    assert s[..6][0] == 'i';
    assert s[..7][0] == 'i';
    assert s[|s| - 6..][0] == 'n';
  }

  /** The source's valid inputs that carry a scheme. */
  lemma SchemeExamples()
    ensures IsValidInput("http://example.com/file.zip")
    ensures IsValidInput("https://example.com/file.zip")
    ensures IsValidInput("ftp://example.com/file.zip")
    ensures IsValidInput("magnet:?xt=urn:btih:abc123")
  {
    assert "http://example.com/file.zip"[..7] == "http://";
    assert "https://example.com/file.zip"[..8] == "https://";
    assert "ftp://example.com/file.zip"[..6] == "ftp://";
    assert "magnet:?xt=urn:btih:abc123"[..7] == "magnet:";
  }

  /** The source's valid inputs that are torrent or metalink files. */
  lemma SuffixExamples()
    ensures IsValidInput("/path/to/file.torrent")
    ensures IsValidInput("/path/to/file.metalink")
    ensures IsValidInput("/path/to/file.meta4")
  {
    var t := "/path/to/file.torrent";
    assert t[|t| - 8..] == ".torrent";
    var l := "/path/to/file.metalink";
    assert l[|l| - 9..] == ".metalink";
    var m := "/path/to/file.meta4";
    assert m[|m| - 6..] == ".meta4";
  }
}
