/**
 * The prompt's text input: the reducer over value, cursor and previous value, the
 * completion suggestion, and what a key press does.
 */
module TextInput {
  import opened Wrappers
  import opened Strings

  function Max(a: int, b: int): int { if a >= b then a else b }
  function Min(a: int, b: int): int { if a <= b then a else b }

  /** A JavaScript `slice` index: negative counts from the end, and both ends are clamped. */
  function SliceIndex(i: int, len: nat): (r: nat)
    ensures r <= len
    ensures 0 <= i <= len ==> r == i
  {
    if i < 0 then Max(len + i, 0) else Min(i, len)
  }

  /** `s.slice(start, end)`. */
  function Slice(s: string, start: int, end: int): (r: string)
    ensures 0 <= start <= end <= |s| ==> r == s[start..end]
    ensures |r| <= |s|
  {
    var from, to := SliceIndex(start, |s|), SliceIndex(end, |s|);
    if from >= to then "" else s[from..to]
  }

  datatype State = State(value: string, cursorOffset: int, previousValue: string)

  datatype Action =
    | MoveCursorLeft
    | MoveCursorRight
    | Insert(text: string)
    | Delete

  /** The cursor sits on a character of the value or just past its end. */
  predicate Valid(s: State) {
    0 <= s.cursorOffset <= |s.value|
  }

  /** `reducer`. */
  function Reduce(s: State, a: Action): (r: State)
    ensures Valid(s) ==> Valid(r)
  {
    match a
    case MoveCursorLeft => s.(cursorOffset := Max(0, s.cursorOffset - 1))
    case MoveCursorRight => s.(cursorOffset := Min(|s.value|, s.cursorOffset + 1))
    case Insert(text) =>
      State(Slice(s.value, 0, s.cursorOffset) + text + Slice(s.value, s.cursorOffset, |s.value|),
            s.cursorOffset + |text|, s.value)
    case Delete =>
      var n := Max(0, s.cursorOffset - 1);
      State(Slice(s.value, 0, n) + Slice(s.value, s.cursorOffset, |s.value|), n, s.value)
  }

  /** The state the input starts from: the default value with the cursor after it. */
  function Initial(defaultValue: string): (r: State)
    ensures Valid(r) && r.value == r.previousValue == defaultValue
    ensures r.cursorOffset == |defaultValue|
  {
    State(defaultValue, |defaultValue|, defaultValue)
  }

  /** `onChange` is called when the value differs from the one before the last edit. */
  predicate Changed(s: State) {
    s.value != s.previousValue
  }

  /**
   * The completion shown after the value: nothing for an empty value, otherwise the rest
   * of the first suggestion that starts with the value, or nothing.
   */
  function Suggestion(value: string, suggestions: seq<string>): (r: string)
    ensures value == "" ==> r == ""
    ensures r != "" ==> exists i :: 0 <= i < |suggestions| && suggestions[i] == value + r
    decreases |suggestions|
  {
    if |value| == 0 || |suggestions| == 0 then ""
    else if StartsWith(suggestions[0], value) then
      assert suggestions[0] == value + suggestions[0][|value|..];
      suggestions[0][|value|..]
    else
      var r := Suggestion(value, suggestions[1..]);
      assert forall i :: 0 <= i < |suggestions[1..]| ==> suggestions[1..][i] == suggestions[i + 1];
      r
  }

  /** The keys the handler looks at. */
  datatype Key = Key(upArrow: bool, downArrow: bool, ctrl: bool, tab: bool, shift: bool,
                     enter: bool, leftArrow: bool, rightArrow: bool, backspace: bool, delete: bool)

  /** Keys the input leaves to others: arrows up and down, Ctrl+C and tab. */
  predicate Ignored(input: string, key: Key) {
    key.upArrow || key.downArrow || (key.ctrl && input == "c") || key.tab || (key.shift && key.tab)
  }

  /** The result of a key press: the new state and the text submitted, if any. */
  datatype Pressed = Pressed(state: State, submitted: Option<string>)

  /** The `useInput` handler. */
  function Press(s: State, input: string, key: Key, suggestions: seq<string>): (r: Pressed)
    ensures Valid(s) ==> Valid(r.state)
    ensures r.submitted.Some? ==> key.enter && r.state == s
  {
    if Ignored(input, key) then Pressed(s, None)
    else if key.enter then
      var suggestion := Suggestion(s.value, suggestions);
      Pressed(s, Some(if suggestion != "" then s.value + suggestion else s.value))
    else if key.leftArrow then Pressed(Reduce(s, MoveCursorLeft), None)
    else if key.rightArrow then Pressed(Reduce(s, MoveCursorRight), None)
    else if key.backspace || key.delete then Pressed(Reduce(s, Delete), None)
    else if input != "" then Pressed(Reduce(s, Insert(input)), None)
    else Pressed(s, None)
  }

  // ---- properties ----

  /** Moving the cursor changes only the cursor, one step, clamped to the value. */
  lemma MovesOnlyCursor(s: State)
    requires Valid(s)
    ensures var l := Reduce(s, MoveCursorLeft);
      l.value == s.value && l.previousValue == s.previousValue
      && (s.cursorOffset > 0 ==> l.cursorOffset == s.cursorOffset - 1)
      && (s.cursorOffset == 0 ==> l.cursorOffset == 0)
    ensures var rt := Reduce(s, MoveCursorRight);
      rt.value == s.value && rt.previousValue == s.previousValue
      && (s.cursorOffset < |s.value| ==> rt.cursorOffset == s.cursorOffset + 1)
      && (s.cursorOffset == |s.value| ==> rt.cursorOffset == |s.value|)
  {
  }

  /** Left then right returns the cursor to where it was, unless it was at the start. */
  lemma LeftThenRight(s: State)
    requires Valid(s) && s.cursorOffset > 0
    ensures Reduce(Reduce(s, MoveCursorLeft), MoveCursorRight) == s
  {
  }

  /** Inserting splices the text in at the cursor and moves the cursor past it. */
  lemma InsertSplices(s: State, text: string)
    requires Valid(s)
    ensures var r := Reduce(s, Insert(text));
      r.value == s.value[..s.cursorOffset] + text + s.value[s.cursorOffset..]
      && r.cursorOffset == s.cursorOffset + |text| && r.previousValue == s.value
      && r.value[s.cursorOffset..r.cursorOffset] == text
  {
    var r := Reduce(s, Insert(text));
    var c := s.cursorOffset;
    assert r.value == s.value[..c] + text + s.value[c..];
    assert r.value[c..c + |text|] == text;
  }

  /** Deleting removes exactly the character before the cursor; at the start nothing changes. */
  lemma DeleteRemovesOne(s: State)
    requires Valid(s)
    ensures var r := Reduce(s, Delete);
      r.previousValue == s.value
      && (s.cursorOffset > 0 ==>
            r.value == s.value[..s.cursorOffset - 1] + s.value[s.cursorOffset..]
            && r.cursorOffset == s.cursorOffset - 1 && |r.value| == |s.value| - 1)
      && (s.cursorOffset == 0 ==> r.value == s.value && r.cursorOffset == 0)
  {
    var c := s.cursorOffset;
    if c == 0 {
      assert s.value[0..|s.value|] == s.value;
    }
  }

  /** Deleting right after typing one character gives back the value and cursor before it. */
  lemma DeleteUndoesInsert(s: State, ch: char)
    requires Valid(s)
    ensures var r := Reduce(Reduce(s, Insert([ch])), Delete);
      r.value == s.value && r.cursorOffset == s.cursorOffset
  {
    var c := s.cursorOffset;
    InsertSplices(s, [ch]);
    var t := Reduce(s, Insert([ch]));
    DeleteRemovesOne(t);
    assert t.value[..c] == s.value[..c];
    assert t.value[c + 1..] == s.value[c..];
    assert s.value[..c] + s.value[c..] == s.value;
  }

  /**
   * For a non-empty value the completion is non-empty exactly when the first suggestion
   * that starts with the value is longer than it.
   */
  lemma {:induction false} SuggestionIsFirstMatch(value: string, suggestions: seq<string>)
    requires value != ""
    ensures var r := Suggestion(value, suggestions);
      (r != "" <==> exists i :: 0 <= i < |suggestions| && StartsWith(suggestions[i], value)
                                 && |suggestions[i]| > |value|
                                 && forall j :: 0 <= j < i ==> !StartsWith(suggestions[j], value))
    decreases |suggestions|
  {
    var r := Suggestion(value, suggestions);
    if |suggestions| > 0 {
      if StartsWith(suggestions[0], value) {
        if r == "" {
          assert |suggestions[0]| == |value|;
          forall i | 0 <= i < |suggestions| && StartsWith(suggestions[i], value) && |suggestions[i]| > |value|
            ensures exists j :: 0 <= j < i && StartsWith(suggestions[j], value)
          {
            assert i > 0;
            assert StartsWith(suggestions[0], value);
          }
        }
      } else {
        var tail := suggestions[1..];
        SuggestionIsFirstMatch(value, tail);
        if r != "" {
          var i :| 0 <= i < |tail| && StartsWith(tail[i], value) && |tail[i]| > |value|
                   && forall j :: 0 <= j < i ==> !StartsWith(tail[j], value);
          assert suggestions[i + 1] == tail[i];
          forall j | 0 <= j < i + 1 ensures !StartsWith(suggestions[j], value) {
            if j > 0 {
              assert suggestions[j] == tail[j - 1];
            }
          }
        } else {
          forall i | 0 <= i < |suggestions| && StartsWith(suggestions[i], value) && |suggestions[i]| > |value|
            ensures exists j :: 0 <= j < i && StartsWith(suggestions[j], value)
          {
            assert i > 0;
            assert tail[i - 1] == suggestions[i];
            var k :| 0 <= k < i - 1 && StartsWith(tail[k], value);
            assert suggestions[k + 1] == tail[k];
          }
        }
      }
    }
  }

  /** Enter submits the value followed by the suggestion, and leaves the state alone. */
  lemma EnterSubmitsCompletion(s: State, input: string, key: Key, suggestions: seq<string>)
    requires key.enter && !Ignored(input, key)
    ensures Press(s, input, key, suggestions) == Pressed(s, Some(s.value + Suggestion(s.value, suggestions)))
  {
    assert s.value + "" == s.value;
  }

  /** A press that is not enter submits nothing; an ignored one changes nothing. */
  lemma OnlyEnterSubmits(s: State, input: string, key: Key, suggestions: seq<string>)
    ensures !key.enter ==> Press(s, input, key, suggestions).submitted.None?
    ensures Ignored(input, key) ==> Press(s, input, key, suggestions) == Pressed(s, None)
  {
  }
}
