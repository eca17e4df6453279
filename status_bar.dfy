/** The message classification of src/ui/widgets/status_bar.rs: a message
    is shown as an error, a success, a warning or information, with an icon,
    according to the words it contains regardless of case. */
module StatusBar {
  import opened Text

  datatype MessageKind = Error | Success | Warning | Info

  /** The icon shown with each kind: ✗, ✓, ⚠ and ℹ. */
  function Icon(k: MessageKind): (s: string)
    ensures |s| == 1
  {
    match k
    case Error => "\U{2717}"
    case Success => "\U{2713}"
    case Warning => "\U{26A0}"
    case Info => "\U{2139}"
  }

  /** Different kinds get different icons. */
  lemma IconsDistinct(a: MessageKind, b: MessageKind)
    ensures Icon(a) == Icon(b) <==> a == b
  {
    if a != b {
      assert Icon(a)[0] != Icon(b)[0];
    }
  }

  predicate MentionsError(lower: string) {
    Contains(lower, "error") || Contains(lower, "failed")
  }

  predicate MentionsSuccess(lower: string) {
    Contains(lower, "success") || Contains(lower, "added") || Contains(lower, "deleted") || Contains(lower, "purged")
  }

  /** `determine_message_style`, with the style's colour replaced by the kind
      it stands for: error words win over success words, which win over
      "warning". */
  function MessageStyle(message: string): (r: (MessageKind, string))
    ensures r.1 == Icon(r.0)
    ensures r.0 == Error <==> MentionsError(Lower(message))
    ensures r.0 == Success <==> !MentionsError(Lower(message)) && MentionsSuccess(Lower(message))
    ensures r.0 == Warning <==>
              !MentionsError(Lower(message)) && !MentionsSuccess(Lower(message)) && Contains(Lower(message), "warning")
  {
    var lower := Lower(message);
    if MentionsError(lower) then (Error, Icon(Error))
    else if MentionsSuccess(lower) then (Success, Icon(Success))
    else if Contains(lower, "warning") then (Warning, Icon(Warning))
    else (Info, Icon(Info))
  }

  /** Lower-casing twice is lower-casing once. */
  lemma LowerIdempotent(s: string)
    ensures Lower(Lower(s)) == Lower(s)
  {
    assert forall i :: 0 <= i < |s| ==> Lower(Lower(s))[i] == Lower(s)[i];
  }

  /** The classification ignores case: a message, its upper-case and its
      lower-case forms are shown alike. */
  lemma StyleIgnoresCase(message: string)
    ensures MessageStyle(Upper(message)) == MessageStyle(message)
    ensures MessageStyle(Lower(message)) == MessageStyle(message)
  {
    LowerOfUpper(message);
    LowerIdempotent(message);
  }

  /** The error test of the source: a message that starts with "Error" is
      styled as an error. */
  lemma StyleExamples()
    ensures MessageStyle("Error: download failed").0 == Error
  {
    var e := Lower("Error: download failed");
    assert e[..5] == "error";
    ContainsAt(e, "error", 0);
  }

  /** The case-insensitivity test of the source: "ERROR" and "error" are
      styled alike. */
  lemma StyleCaseExample()
    ensures MessageStyle("ERROR occurred") == MessageStyle("error occurred")
  {
    StyleIgnoresCase("error occurred");
    assert Lower("ERROR occurred") == Lower("error occurred");
  }
}
