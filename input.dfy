/** The keyboard layer of src/input.rs: the key maps of the modes that only
    translate a key into an action, the line editor of the URL prompt, the
    search query and the bandwidth-limit buffer, and the `InputHandler` that
    holds them and changes them in place.  Text is taken to be ASCII, so a
    byte index of the source is a character index here. */
module Input {
  import opened Text
  import opened Seqs
  import opened Models

  datatype KeyCode =
    | Char(c: char) | Enter | Esc | Backspace | Delete | Left | Right | Up | Down
    | Home | End | PageUp | PageDown | Tab | F(n: nat) | OtherKey

  /** A key press; of its modifiers only Shift and Control are consulted. */
  datatype KeyEvent = KeyEvent(code: KeyCode, shift: bool, control: bool)

  /** A key pressed without modifiers. */
  function Plain(code: KeyCode): KeyEvent {
    KeyEvent(code, false, false)
  }

  /** `KeyAction`; its variant `None` is called `NoAction` here. */
  datatype KeyAction =
    | EnterEditMode | Quit | SelectTab(tab: nat) | MoveUp | MoveDown | PauseResume
    | Delete | DeleteFile | PurgeCompleted | MoveToTop | MoveToBottom | PageUp | PageDown
    | EnterSearchMode | ClearSearch | ShowHelp | ShowSpeedLimit | RetryDownload
    | OpenFile | OpenFolder | CopyUrl | CopyPath | CycleSort | ToggleSortDirection
    | MoveQueueUp | MoveQueueDown | ToggleSelect | SelectAll | DeselectAll
    | PauseAll | ResumeAll
    | SubmitInput | CancelInput | DeleteChar | DeleteWord | ClearAll
    | MoveCursorLeft | MoveCursorRight | MoveCursorStart | MoveCursorEnd
    | SearchSubmit | SearchCancel | SearchDeleteChar
    | SpeedLimitConfirm | SpeedLimitCancel | SpeedLimitToggleField
    | SpeedLimitIncrease | SpeedLimitDecrease
    | HelpClose | HelpScrollUp | HelpScrollDown
    | ConfirmYes | ConfirmNo
    | NoAction

  // ---------------------------------------------------------------------------
  // Modes that only translate keys

  /** `handle_normal_mode`: Shift combinations first, then Control
      combinations, then the plain key map, which also applies to modified
      keys that neither combination table knows. */
  function NormalModeAction(k: KeyEvent): (r: KeyAction)
    ensures r.SelectTab? <==> k.code in {Char('1'), Char('2'), Char('3')}
    ensures r.SelectTab? ==> r.tab <= 2 && k.code == Char(DigitChar(r.tab + 1))
    ensures r == DeleteFile <==> k.shift && k.code == KeyCode.Delete
  {
    if k.shift && k.code == KeyCode.Delete then DeleteFile
    else if k.shift && k.code in {Up, Char('K')} then MoveQueueUp
    else if k.shift && k.code in {Down, Char('J')} then MoveQueueDown
    else if k.shift && k.code == Char('P') then PauseAll
    else if k.shift && k.code == Char('R') then ResumeAll
    else if k.control && k.code == Char('a') then SelectAll
    else if k.control && k.code == Char('d') then DeselectAll
    else if k.control && k.code == Char('u') then KeyAction.PageUp
    else
      match k.code
      case Char(c) =>
        if c in {'i', 'I'} then EnterEditMode
        else if c in {'q', 'Q'} then Quit
        else if c == '1' then SelectTab(0)
        else if c == '2' then SelectTab(1)
        else if c == '3' then SelectTab(2)
        else if c == 'k' then MoveUp
        else if c == 'j' then MoveDown
        else if c == 'g' then MoveToTop
        else if c == 'G' then MoveToBottom
        else if c in {' ', 'p'} then PauseResume
        else if c == 'd' then KeyAction.Delete
        else if c in {'x', 'X'} then PurgeCompleted
        else if c == 'r' then RetryDownload
        else if c == '/' then EnterSearchMode
        else if c == '?' then ShowHelp
        else if c in {'l', 'L'} then ShowSpeedLimit
        else if c == 'o' then OpenFile
        else if c == 'O' then OpenFolder
        else if c == 'c' then CopyUrl
        else if c == 'C' then CopyPath
        else if c == 's' then CycleSort
        else if c == 'S' then ToggleSortDirection
        else if c in {'v', 'V'} then ToggleSelect
        else NoAction
      case Up => MoveUp
      case Down => MoveDown
      case Home => MoveToTop
      case End => MoveToBottom
      case PageUp => KeyAction.PageUp
      case PageDown => KeyAction.PageDown
      case Esc => ClearSearch
      case F(n) => if n == 1 then ShowHelp else NoAction
      case _ => NoAction
  }

  /** `handle_help_mode`. */
  function HelpModeAction(k: KeyEvent): (r: KeyAction)
    ensures r in {HelpClose, HelpScrollUp, HelpScrollDown, NoAction}
    ensures r == HelpClose <==> k.code in {Esc, Char('q'), Char('?'), Enter}
  {
    match k.code
    case Esc => HelpClose
    case Enter => HelpClose
    case Char(c) =>
      if c in {'q', '?'} then HelpClose
      else if c == 'k' then HelpScrollUp
      else if c == 'j' then HelpScrollDown
      else NoAction
    case Up => HelpScrollUp
    case Down => HelpScrollDown
    case _ => NoAction
  }

  /** `handle_confirmation_mode`: only y and Y confirm. */
  function ConfirmationModeAction(k: KeyEvent): (r: KeyAction)
    ensures r in {ConfirmYes, ConfirmNo, NoAction}
    ensures r == ConfirmYes <==> k.code in {Char('y'), Char('Y')}
    ensures r == ConfirmNo <==> k.code in {Char('n'), Char('N'), Esc}
  {
    match k.code
    case Char(c) => if c in {'y', 'Y'} then ConfirmYes else if c in {'n', 'N'} then ConfirmNo else NoAction
    case Esc => ConfirmNo
    case _ => NoAction
  }

  /** `handle_settings_mode`. */
  function SettingsModeAction(k: KeyEvent): (r: KeyAction)
    ensures r in {CancelInput, SubmitInput, NoAction}
    ensures r == CancelInput <==> k.code in {Esc, Char('q')}
    ensures r == SubmitInput <==> k.code == Enter
  {
    match k.code
    case Esc => CancelInput
    case Char(c) => if c == 'q' then CancelInput else NoAction
    case Enter => SubmitInput
    case _ => NoAction
  }

  /** The key bindings the source's tests check. */
  lemma NormalModeExamples()
    ensures NormalModeAction(Plain(Char('?'))) == ShowHelp
    ensures NormalModeAction(Plain(Char('/'))) == EnterSearchMode
  {
  }

  /** Shift+Delete deletes the file, and 'l' opens the speed-limit popup. */
  lemma NormalModeMoreExamples()
    ensures NormalModeAction(Plain(Char('l'))) == ShowSpeedLimit
    ensures NormalModeAction(KeyEvent(KeyCode.Delete, true, false)) == DeleteFile
  {
  }

  /** Control changes the meaning of some letters: Ctrl+U pages up where a
      plain 'u' does nothing. */
  lemma ControlExamples()
    ensures NormalModeAction(KeyEvent(Char('u'), false, true)) == KeyAction.PageUp
    ensures NormalModeAction(Plain(Char('u'))) == NoAction
  {
  }

  // ---------------------------------------------------------------------------
  // The line editor of the URL prompt

  /** The prompt's text and the cursor, an index between characters. */
  datatype Line = Line(text: string, cursor: nat) {
    predicate Valid() {
      cursor <= |text|
    }

    function Before(): string
      requires Valid()
    {
      text[..cursor]
    }

    function After(): string
      requires Valid()
    {
      text[cursor..]
    }
  }

  /** A character typed at the cursor; the cursor moves past it. */
  function InsertChar(l: Line, c: char): (r: Line)
    requires l.Valid()
    ensures r.Valid() && r.Before() == l.Before() + [c] && r.After() == l.After()
  {
    var r := Line(l.text[..l.cursor] + [c] + l.text[l.cursor..], l.cursor + 1);
    assert r.text[..r.cursor] == l.text[..l.cursor] + [c];
    assert r.text[r.cursor..] == l.text[l.cursor..];
    r
  }

  /** Pasted text inserted at the cursor; the cursor moves past it. */
  function InsertText(l: Line, data: string): (r: Line)
    requires l.Valid()
    ensures r.Valid() && r.Before() == l.Before() + data && r.After() == l.After()
  {
    var r := Line(l.text[..l.cursor] + data + l.text[l.cursor..], l.cursor + |data|);
    assert r.text[..r.cursor] == l.text[..l.cursor] + data;
    assert r.text[r.cursor..] == l.text[l.cursor..];
    r
  }

  /** Backspace: the character before the cursor goes; nothing at the start. */
  function DeleteBefore(l: Line): (r: Line)
    requires l.Valid()
    ensures r.Valid() && r.After() == l.After()
    ensures l.cursor == 0 ==> r == l
    ensures l.cursor > 0 ==> r.Before() + [l.text[l.cursor - 1]] == l.Before()
  {
    if l.cursor > 0 then
      var r := Line(l.text[..l.cursor - 1] + l.text[l.cursor..], l.cursor - 1);
      assert r.text[..r.cursor] == l.text[..l.cursor - 1];
      assert r.text[r.cursor..] == l.text[l.cursor..];
      assert l.text[..l.cursor - 1] + [l.text[l.cursor - 1]] == l.text[..l.cursor];
      r
    else l
  }

  /** Delete: the character at the cursor goes; nothing at the end. */
  function DeleteAt(l: Line): (r: Line)
    requires l.Valid()
    ensures r.Valid() && r.Before() == l.Before()
    ensures l.cursor == |l.text| ==> r == l
    ensures l.cursor < |l.text| ==> [l.text[l.cursor]] + r.After() == l.After()
  {
    if l.cursor < |l.text| then
      var r := Line(l.text[..l.cursor] + l.text[l.cursor + 1..], l.cursor);
      assert r.text[..r.cursor] == l.text[..l.cursor];
      assert r.text[r.cursor..] == l.text[l.cursor + 1..];
      assert [l.text[l.cursor]] + l.text[l.cursor + 1..] == l.text[l.cursor..];
      r
    else l
  }

  /** Left arrow: one step back, stopping at the start. */
  function CursorLeft(l: Line): (r: Line)
    requires l.Valid()
    ensures r.Valid() && r.text == l.text
    ensures l.cursor > 0 ==> r.cursor + 1 == l.cursor
    ensures l.cursor == 0 ==> r == l
  {
    if l.cursor > 0 then l.(cursor := l.cursor - 1) else l
  }

  /** Right arrow: one step forward, stopping at the end. */
  function CursorRight(l: Line): (r: Line)
    requires l.Valid()
    ensures r.Valid() && r.text == l.text
    ensures l.cursor < |l.text| ==> r.cursor == l.cursor + 1
    ensures l.cursor == |l.text| ==> r == l
  {
    if l.cursor < |l.text| then l.(cursor := l.cursor + 1) else l
  }

  /** Where Ctrl+W cuts the text before the cursor: just after the last space
      once trailing whitespace is trimmed (`rfind(' ')` plus one), or 0 when
      there is no such space.  Everything from the cut to the cursor is one
      word without spaces followed by whitespace. */
  function WordCut(before: string): (cut: nat)
    ensures cut <= |TrimEnd(before)| <= |before|
    ensures cut == 0 || before[cut - 1] == ' '
    ensures forall i :: cut <= i < |TrimEnd(before)| ==> before[i] != ' '
    ensures forall i :: |TrimEnd(before)| <= i < |before| ==> IsWhitespace(before[i])
  {
    var trimmed := TrimEnd(before);
    var word := AfterLast(trimmed, ' ');
    var cut := |trimmed| - |word|;
    CutBeforeWord(before, trimmed, word);
    cut
  }

  /** A last word of a prefix, cut off after the space before it, has no
      spaces, and the cut sits just after that space. */
  lemma CutBeforeWord(before: string, trimmed: string, word: string)
    requires |trimmed| <= |before| && trimmed == before[..|trimmed|]
    requires |word| <= |trimmed| && word == trimmed[|trimmed| - |word|..] && ' ' !in word
    requires |word| < |trimmed| ==> trimmed[|trimmed| - |word| - 1] == ' '
    ensures var cut := |trimmed| - |word|;
            (cut == 0 || before[cut - 1] == ' ') && forall i :: cut <= i < |trimmed| ==> before[i] != ' '
  {
    var cut := |trimmed| - |word|;
    if cut > 0 {
      assert before[cut - 1] == trimmed[cut - 1];
    }
    forall i | cut <= i < |trimmed|
      ensures before[i] != ' '
    {
      assert before[i] == trimmed[i];
      assert trimmed[i] == word[i - cut];
    }
  }

  /** Ctrl+W: the text from the cut point to the cursor goes, the text after
      the cursor stays, and the cursor moves to the cut point. */
  function DeleteWordBefore(l: Line): (r: Line)
    requires l.Valid()
    ensures r.Valid() && r.cursor <= l.cursor
    ensures r.Before() == l.text[..r.cursor] && r.After() == l.After()
    ensures l.cursor == 0 ==> r == l
    ensures l.cursor > 0 ==> r.cursor == WordCut(l.Before())
  {
    if l.cursor > 0 then
      var cut := WordCut(l.text[..l.cursor]);
      var r := Line(l.text[..cut] + l.text[l.cursor..], cut);
      assert r.text[..r.cursor] == l.text[..cut];
      assert r.text[r.cursor..] == l.text[l.cursor..];
      r
    else l
  }

  /** `handle_input_mode` as a function of the line: the new line and the
      action.  Only Ctrl+U, Ctrl+W, Backspace, Delete and typed characters
      change the text, and the cursor always stays within it.  Ctrl+U empties
      the line; Home and Ctrl+A go to the start, End and Ctrl+E to the end;
      a character without one of the Ctrl bindings is inserted, even with
      Ctrl held; Enter and Esc leave the line even with Ctrl held. */
  function EditingStep(l: Line, k: KeyEvent): (r: (Line, KeyAction))
    requires l.Valid()
    ensures r.0.Valid()
    ensures r.0.text != l.text ==> k.code.Char? || k.code in {Backspace, KeyCode.Delete}
    ensures k.code in {Enter, Esc} ==> r.0 == l
    ensures k.control && k.code == Char('u') ==> r.0.text == [] && r.0.cursor == 0
    ensures k.code == Home || (k.control && k.code == Char('a')) ==> r.0.text == l.text && r.0.cursor == 0
    ensures k.code == End || (k.control && k.code == Char('e')) ==> r.0.text == l.text && r.0.cursor == |l.text|
    ensures k.code.Char? && !(k.control && k.code.c in "uwae") ==>
              r.0.Before() == l.Before() + [k.code.c] && r.0.After() == l.After()
  {
    if k.control && k.code == Char('u') then (Line([], 0), ClearAll)
    else if k.control && k.code == Char('w') then (DeleteWordBefore(l), DeleteWord)
    else if k.control && k.code == Char('a') then (l.(cursor := 0), MoveCursorStart)
    else if k.control && k.code == Char('e') then (l.(cursor := |l.text|), MoveCursorEnd)
    else
      match k.code
      case Enter => (l, SubmitInput)
      case Esc => (l, CancelInput)
      case Backspace => (DeleteBefore(l), DeleteChar)
      case Delete => (DeleteAt(l), DeleteChar)
      case Left => (CursorLeft(l), MoveCursorLeft)
      case Right => (CursorRight(l), MoveCursorRight)
      case Home => (l.(cursor := 0), MoveCursorStart)
      case End => (l.(cursor := |l.text|), MoveCursorEnd)
      case Char(c) => (InsertChar(l, c), NoAction)
      case _ => (l, NoAction)
  }

  /** The action each key reports while editing: Enter submits and Esc
      cancels even with Ctrl held, Backspace and Delete report a deleted
      character whether or not there was one, the Ctrl bindings and the
      cursor keys report their moves, and a typed character reports none. */
  lemma EditingActions(l: Line, k: KeyEvent)
    requires l.Valid()
    ensures k.code == Enter ==> EditingStep(l, k).1 == SubmitInput
    ensures k.code == Esc ==> EditingStep(l, k).1 == CancelInput
    ensures k.code in {Backspace, KeyCode.Delete} ==> EditingStep(l, k).1 == DeleteChar
    ensures k.code == Left ==> EditingStep(l, k).1 == MoveCursorLeft
    ensures k.code == Right ==> EditingStep(l, k).1 == MoveCursorRight
    ensures k.control && k.code == Char('u') ==> EditingStep(l, k).1 == ClearAll
    ensures k.control && k.code == Char('w') ==> EditingStep(l, k).1 == DeleteWord
    ensures k.code == Home || (k.control && k.code == Char('a')) ==> EditingStep(l, k).1 == MoveCursorStart
    ensures k.code == End || (k.control && k.code == Char('e')) ==> EditingStep(l, k).1 == MoveCursorEnd
    ensures k.code.Char? && !(k.control && k.code.c in "uwae") ==> EditingStep(l, k).1 == NoAction
    ensures EditingStep(l, k).1 == NoAction ==> EditingStep(l, k).0.text != l.text || EditingStep(l, k).0 == l
  {
  }

  /** Backspace undoes a typed character. */
  lemma BackspaceUndoesInsert(l: Line, c: char)
    requires l.Valid()
    ensures DeleteBefore(InsertChar(l, c)) == l
  {
    var r := DeleteBefore(InsertChar(l, c));
    assert r.text == r.Before() + r.After();
    assert l.text == l.Before() + l.After();
  }

  /** Left arrow then Delete also undoes a typed character, and leaves the
      cursor where it was before the character was typed. */
  lemma DeleteUndoesInsertAfterLeft(l: Line, c: char)
    requires l.Valid()
    ensures DeleteAt(CursorLeft(InsertChar(l, c))) == l
  {
    var m := CursorLeft(InsertChar(l, c));
    var r := DeleteAt(m);
    assert m.text[m.cursor] == c by {
      assert InsertChar(l, c).Before() == l.Before() + [c];
    }
    assert r.text == r.Before() + r.After();
    assert l.text == l.Before() + l.After();
  }

  /** Pasting two texts in turn is pasting their concatenation, and pasting
      one character is typing it. */
  lemma PasteComposes(l: Line, a: string, b: string, c: char)
    requires l.Valid()
    ensures InsertText(InsertText(l, a), b) == InsertText(l, a + b)
    ensures InsertText(l, [c]) == InsertChar(l, c)
  {
    var p := InsertText(InsertText(l, a), b);
    var q := InsertText(l, a + b);
    assert p.text == p.Before() + p.After();
    assert q.text == q.Before() + q.After();
    assert p.Before() == l.Before() + a + b;
  }

  /** The cursor test of the source: on "test" with the cursor at the end,
      Left gives 3, Home 0 and End 4. */
  lemma CursorExample()
    ensures EditingStep(Line("test", 4), Plain(Left)).0 == Line("test", 3)
    ensures EditingStep(Line("test", 3), Plain(Home)).0 == Line("test", 0)
    ensures EditingStep(Line("test", 0), Plain(End)).0 == Line("test", 4)
  {
  }

  // ---------------------------------------------------------------------------
  // The search query and the bandwidth-limit buffer

  /** `String::pop` without its result. */
  function DropLast(s: string): (r: string)
    ensures s == [] ==> r == []
    ensures s != [] ==> r + [s[|s| - 1]] == s
  {
    if s == [] then s else s[..|s| - 1]
  }

  /** `handle_search_mode`: the new query, the new mode and the action.  Enter
      keeps the query and Esc clears it; both return to Normal. */
  function SearchStep(query: string, k: KeyEvent): (r: (string, InputMode, KeyAction))
    ensures r.1 == Normal <==> k.code in {Enter, Esc}
    ensures r.1 != Normal ==> r.1 == Search
    ensures k.code == Enter ==> r.0 == query
    ensures k.code == Esc ==> r.0 == []
    ensures k.code.Char? ==> r.0 == query + [k.code.c]
  {
    match k.code
    case Enter => (query, Normal, SearchSubmit)
    case Esc => ([], Normal, SearchCancel)
    case Backspace => (DropLast(query), Search, SearchDeleteChar)
    case Char(c) => (query + [c], Search, NoAction)
    case _ => (query, Search, NoAction)
  }

  /** Backspace in the search box undoes a typed character. */
  lemma SearchBackspaceUndoesChar(query: string, c: char)
    ensures SearchStep(SearchStep(query, Plain(Char(c))).0, Plain(Backspace)).0 == query
  {
    assert (query + [c])[..|query|] == query;
  }

  /** The search test of the source: "test" typed, then Backspace. */
  lemma SearchExample()
    ensures SearchStep(SearchStep(SearchStep(SearchStep("", Plain(Char('t'))).0,
              Plain(Char('e'))).0, Plain(Char('s'))).0, Plain(Char('t'))).0 == "test"
    ensures SearchStep("test", Plain(Backspace)).0 == "tes"
  {
  }

  /** The characters the bandwidth-limit box accepts. */
  predicate IsLimitChar(c: char) {
    IsDigit(c) || c in {'.', 'm', 'k', 'g'}
  }

  predicate AllLimitChars(s: string) {
    forall i :: 0 <= i < |s| ==> IsLimitChar(s[i])
  }

  /** The filter applied to pasted text in the bandwidth-limit box. */
  function LimitChars(data: string): (r: string)
    ensures AllLimitChars(r) && IsSubsequence(r, data)
    ensures AllLimitChars(data) ==> r == data
  {
    KeepIsSubsequence(data, IsLimitChar);
    KeepAll(data);
    Keep(data, IsLimitChar)
  }

  lemma {:induction false} KeepAll(data: string)
    ensures AllLimitChars(data) ==> Keep(data, IsLimitChar) == data
    decreases |data|
  {
    if data != [] {
      KeepAll(data[1..]);
      if AllLimitChars(data) {
        assert AllLimitChars(data[1..]) by {
          forall i | 0 <= i < |data[1..]| ensures IsLimitChar(data[1..][i]) {
            assert data[1..][i] == data[i + 1];
          }
        }
        assert data == [data[0]] + data[1..];
      }
    }
  }

  /** `handle_speed_limit_mode`: the new buffer and the action.  Only limit
      characters are appended, so a buffer of limit characters stays one. */
  function SpeedLimitStep(buffer: string, k: KeyEvent): (r: (string, KeyAction))
    ensures AllLimitChars(buffer) ==> AllLimitChars(r.0)
    ensures k.code.Char? && !IsLimitChar(k.code.c) ==> r == (buffer, NoAction)
    ensures k.code.Char? && IsLimitChar(k.code.c) ==> r.0 == buffer + [k.code.c]
  {
    match k.code
    case Enter => (buffer, SpeedLimitConfirm)
    case Esc => (buffer, SpeedLimitCancel)
    case Tab => (buffer, SpeedLimitToggleField)
    case Up => (buffer, SpeedLimitToggleField)
    case Down => (buffer, SpeedLimitToggleField)
    case Right => (buffer, SpeedLimitIncrease)
    case Left => (buffer, SpeedLimitDecrease)
    case Backspace => (DropLast(buffer), NoAction)
    case Char(c) => if IsLimitChar(c) then (buffer + [c], NoAction) else (buffer, NoAction)
    case _ => (buffer, NoAction)
  }

  // ---------------------------------------------------------------------------
  // The handler

  class InputHandler {
    var mode: InputMode
    var buffer: string
    var searchQuery: string
    var cursor: nat
    var speedLimitBuffer: string

    /** The cursor stays within the prompt's text and the bandwidth-limit box
        holds only limit characters. */
    predicate Valid()
      reads this
    {
      cursor <= |buffer| && AllLimitChars(speedLimitBuffer)
    }

    function CurrentLine(): (l: Line)
      reads this
      ensures l.text == buffer && l.cursor == cursor
    {
      Line(buffer, cursor)
    }

    /** `InputHandler::new`. */
    constructor ()
      ensures mode == Normal && buffer == [] && searchQuery == [] && cursor == 0 && speedLimitBuffer == []
      ensures Valid()
    {
      mode := Normal;
      buffer := [];
      searchQuery := [];
      cursor := 0;
      speedLimitBuffer := [];
    }

    /** `handle_key`: dispatch on the mode. */
    method HandleKey(key: KeyEvent) returns (action: KeyAction)
      requires Valid()
      modifies this
      ensures Valid()
      ensures old(mode) in {Normal, Help, Confirmation, Settings} ==> unchanged(this)
      ensures old(mode) == Normal ==> action == NormalModeAction(key)
      ensures old(mode) == Help ==> action == HelpModeAction(key)
      ensures old(mode) == Confirmation ==> action == ConfirmationModeAction(key)
      ensures old(mode) == Settings ==> action == SettingsModeAction(key)
      ensures old(mode) == Editing ==>
                && (CurrentLine(), action) == EditingStep(old(CurrentLine()), key)
                && mode == old(mode) && searchQuery == old(searchQuery)
                && speedLimitBuffer == old(speedLimitBuffer)
      ensures old(mode) == Search ==>
                && (searchQuery, mode, action) == SearchStep(old(searchQuery), key)
                && buffer == old(buffer) && cursor == old(cursor)
                && speedLimitBuffer == old(speedLimitBuffer)
      ensures old(mode) == SpeedLimit ==>
                && (speedLimitBuffer, action) == SpeedLimitStep(old(speedLimitBuffer), key)
                && mode == old(mode) && buffer == old(buffer) && cursor == old(cursor)
                && searchQuery == old(searchQuery)
    {
      match mode
      case Normal => action := NormalModeAction(key);
      case Editing => action := HandleInputMode(key);
      case Search => action := HandleSearchMode(key);
      case SpeedLimit => action := HandleSpeedLimitMode(key);
      case Help => action := HelpModeAction(key);
      case Confirmation => action := ConfirmationModeAction(key);
      case Settings => action := SettingsModeAction(key);
    }

    /** `handle_input_mode`, editing the prompt in place. */
    method HandleInputMode(key: KeyEvent) returns (action: KeyAction)
      requires Valid()
      modifies this
      ensures Valid()
      ensures (CurrentLine(), action) == EditingStep(old(CurrentLine()), key)
      ensures mode == old(mode) && searchQuery == old(searchQuery)
      ensures speedLimitBuffer == old(speedLimitBuffer)
    {
      if key.control {
        if key.code == Char('u') {
          buffer := [];
          cursor := 0;
          return ClearAll;
        } else if key.code == Char('w') {
          if cursor > 0 {
            var lastSpace := WordCut(buffer[..cursor]);
            buffer := buffer[..lastSpace] + buffer[cursor..];
            cursor := lastSpace;
          }
          return DeleteWord;
        } else if key.code == Char('a') {
          cursor := 0;
          return MoveCursorStart;
        } else if key.code == Char('e') {
          cursor := |buffer|;
          return MoveCursorEnd;
        }
      }
      match key.code
      case Enter =>
        action := SubmitInput;
      case Esc =>
        action := CancelInput;
      case Backspace =>
        if cursor > 0 {
          cursor := cursor - 1;
          buffer := buffer[..cursor] + buffer[cursor + 1..];
        }
        action := DeleteChar;
      case Delete =>
        if cursor < |buffer| {
          buffer := buffer[..cursor] + buffer[cursor + 1..];
        }
        action := DeleteChar;
      case Left =>
        if cursor > 0 {
          cursor := cursor - 1;
        }
        action := MoveCursorLeft;
      case Right =>
        if cursor < |buffer| {
          cursor := cursor + 1;
        }
        action := MoveCursorRight;
      case Home =>
        cursor := 0;
        action := MoveCursorStart;
      case End =>
        cursor := |buffer|;
        action := MoveCursorEnd;
      case Char(c) =>
        buffer := buffer[..cursor] + [c] + buffer[cursor..];
        cursor := cursor + 1;
        action := NoAction;
      case _ =>
        action := NoAction;
    }

    /** `handle_search_mode`, editing the query in place.  Only Enter and Esc
        set the mode; the other keys leave it as it was, which is `Search`
        whenever the handler is reached through `HandleKey`. */
    method HandleSearchMode(key: KeyEvent) returns (action: KeyAction)
      modifies this
      ensures searchQuery == SearchStep(old(searchQuery), key).0 && action == SearchStep(old(searchQuery), key).2
      ensures mode == if key.code in {Enter, Esc} then Normal else old(mode)
      ensures old(mode) == Search ==> mode == SearchStep(old(searchQuery), key).1
      ensures buffer == old(buffer) && cursor == old(cursor) && speedLimitBuffer == old(speedLimitBuffer)
    {
      match key.code
      case Enter =>
        mode := Normal;
        action := SearchSubmit;
      case Esc =>
        searchQuery := [];
        mode := Normal;
        action := SearchCancel;
      case Backspace =>
        if searchQuery != [] {
          searchQuery := searchQuery[..|searchQuery| - 1];
        }
        action := SearchDeleteChar;
      case Char(c) =>
        searchQuery := searchQuery + [c];
        action := NoAction;
      case _ =>
        action := NoAction;
    }

    /** `handle_speed_limit_mode`, editing the bandwidth-limit box in place. */
    method HandleSpeedLimitMode(key: KeyEvent) returns (action: KeyAction)
      requires Valid()
      modifies this
      ensures Valid()
      ensures (speedLimitBuffer, action) == SpeedLimitStep(old(speedLimitBuffer), key)
      ensures mode == old(mode) && buffer == old(buffer) && cursor == old(cursor)
      ensures searchQuery == old(searchQuery)
    {
      match key.code
      case Enter => action := SpeedLimitConfirm;
      case Esc => action := SpeedLimitCancel;
      case Tab => action := SpeedLimitToggleField;
      case Up => action := SpeedLimitToggleField;
      case Down => action := SpeedLimitToggleField;
      case Right => action := SpeedLimitIncrease;
      case Left => action := SpeedLimitDecrease;
      case Backspace =>
        if speedLimitBuffer != [] {
          speedLimitBuffer := speedLimitBuffer[..|speedLimitBuffer| - 1];
        }
        action := NoAction;
      case Char(c) =>
        if IsLimitChar(c) {
          speedLimitBuffer := speedLimitBuffer + [c];
        }
        action := NoAction;
      case _ => action := NoAction;
    }

    /** `handle_paste`: inserted at the cursor when editing, appended to the
        query when searching, appended after filtering in the bandwidth-limit
        box, ignored in every other mode. */
    method HandlePaste(data: string)
      requires Valid()
      modifies this
      ensures Valid() && mode == old(mode)
      ensures old(mode) == Editing ==> CurrentLine() == InsertText(old(CurrentLine()), data)
      ensures old(mode) == Search ==> searchQuery == old(searchQuery) + data
      ensures old(mode) == SpeedLimit ==> speedLimitBuffer == old(speedLimitBuffer) + LimitChars(data)
      ensures old(mode) != Editing ==> buffer == old(buffer) && cursor == old(cursor)
      ensures old(mode) != Search ==> searchQuery == old(searchQuery)
      ensures old(mode) != SpeedLimit ==> speedLimitBuffer == old(speedLimitBuffer)
    {
      match mode
      case Editing =>
        buffer := buffer[..cursor] + data + buffer[cursor..];
        cursor := cursor + |data|;
      case Search =>
        searchQuery := searchQuery + data;
      case SpeedLimit =>
        var cleaned := LimitChars(data);
        speedLimitBuffer := speedLimitBuffer + cleaned;
      case _ =>
    }

    /** `enter_edit_mode`: an empty prompt. */
    method EnterEditMode()
      modifies this
      ensures mode == Editing && buffer == [] && cursor == 0
      ensures searchQuery == old(searchQuery) && speedLimitBuffer == old(speedLimitBuffer)
    {
      mode := Editing;
      buffer := [];
      cursor := 0;
    }

    /** `enter_search_mode`: an empty query. */
    method EnterSearchMode()
      modifies this
      ensures mode == Search && searchQuery == []
      ensures buffer == old(buffer) && cursor == old(cursor) && speedLimitBuffer == old(speedLimitBuffer)
    {
      mode := Search;
      searchQuery := [];
    }

    /** `enter_speed_limit_mode`: an empty bandwidth-limit box. */
    method EnterSpeedLimitMode()
      modifies this
      ensures mode == SpeedLimit && speedLimitBuffer == []
      ensures buffer == old(buffer) && cursor == old(cursor) && searchQuery == old(searchQuery)
    {
      mode := SpeedLimit;
      speedLimitBuffer := [];
    }

    /** `enter_help_mode`, `enter_confirmation_mode`, `exit_edit_mode` and
        `exit_to_normal`: only the mode changes. */
    method SetMode(m: InputMode)
      modifies this
      ensures mode == m
      ensures buffer == old(buffer) && cursor == old(cursor)
      ensures searchQuery == old(searchQuery) && speedLimitBuffer == old(speedLimitBuffer)
    {
      mode := m;
    }

    /** `delete_last_char`: Backspace in whichever text the mode edits. */
    method DeleteLastChar()
      requires Valid()
      modifies this
      ensures Valid() && mode == old(mode)
      ensures old(mode) == Editing ==> CurrentLine() == DeleteBefore(old(CurrentLine()))
      ensures old(mode) == Search ==> searchQuery == DropLast(old(searchQuery))
      ensures old(mode) == SpeedLimit ==> speedLimitBuffer == DropLast(old(speedLimitBuffer))
      ensures old(mode) != Editing ==> buffer == old(buffer) && cursor == old(cursor)
      ensures old(mode) != Search ==> searchQuery == old(searchQuery)
      ensures old(mode) != SpeedLimit ==> speedLimitBuffer == old(speedLimitBuffer)
    {
      match mode
      case Editing =>
        if cursor > 0 {
          cursor := cursor - 1;
          buffer := buffer[..cursor] + buffer[cursor + 1..];
        }
      case Search =>
        if searchQuery != [] {
          searchQuery := searchQuery[..|searchQuery| - 1];
        }
      case SpeedLimit =>
        if speedLimitBuffer != [] {
          speedLimitBuffer := speedLimitBuffer[..|speedLimitBuffer| - 1];
        }
      case _ =>
    }

    /** `take_input`: the prompt's text is handed over and the prompt left
        empty. */
    method TakeInput() returns (text: string)
      modifies this
      ensures text == old(buffer) && buffer == [] && cursor == 0
      ensures mode == old(mode) && searchQuery == old(searchQuery) && speedLimitBuffer == old(speedLimitBuffer)
    {
      cursor := 0;
      text := buffer;
      buffer := [];
    }

    /** `take_search_query`. */
    method TakeSearchQuery() returns (text: string)
      modifies this
      ensures text == old(searchQuery) && searchQuery == []
      ensures mode == old(mode) && buffer == old(buffer) && cursor == old(cursor)
      ensures speedLimitBuffer == old(speedLimitBuffer)
    {
      text := searchQuery;
      searchQuery := [];
    }

    /** `take_speed_limit_buffer`. */
    method TakeSpeedLimitBuffer() returns (text: string)
      modifies this
      ensures text == old(speedLimitBuffer) && speedLimitBuffer == []
      ensures mode == old(mode) && buffer == old(buffer) && cursor == old(cursor)
      ensures searchQuery == old(searchQuery)
    {
      text := speedLimitBuffer;
      speedLimitBuffer := [];
    }

    /** `clear_search`. */
    method ClearSearch()
      modifies this
      ensures searchQuery == []
      ensures mode == old(mode) && buffer == old(buffer) && cursor == old(cursor)
      ensures speedLimitBuffer == old(speedLimitBuffer)
    {
      searchQuery := [];
    }

    /** `set_buffer`: the prompt holds `text` with the cursor at its end. */
    method SetBuffer(text: string)
      modifies this
      ensures CurrentLine() == Line(text, |text|)
      ensures mode == old(mode) && searchQuery == old(searchQuery)
      ensures speedLimitBuffer == old(speedLimitBuffer)
    {
      buffer := text;
      cursor := |buffer|;
    }
  }

  /** The paste test of the source: a URL pasted into a fresh prompt fills it
      and leaves the cursor after its last character. */
  method PasteIntoPrompt(url: string) returns (h: InputHandler)
    ensures h.mode == Editing && h.buffer == url && h.cursor == |url|
  {
    h := new InputHandler();
    h.EnterEditMode();
    h.HandlePaste(url);
  }
}
