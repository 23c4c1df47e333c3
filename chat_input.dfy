/**
 * The chat input box: trimming, the submit guard, the Enter-key shortcut
 * and the character counter.
 */
module ChatInput {
  import opened Wrappers
  import opened Strings

  /** The characters `String.prototype.trim` strips: white space and line terminators. */
  predicate IsJsSpace(c: char)
  {
    c == '\t' || c == '\n' || c == '\U{000B}' || c == '\U{000C}' || c == '\r' || c == ' ' ||
    c == '\U{00A0}' || c == '\U{1680}' || ('\U{2000}' <= c <= '\U{200A}') ||
    c == '\U{2028}' || c == '\U{2029}' || c == '\U{202F}' || c == '\U{205F}' ||
    c == '\U{3000}' || c == '\U{FEFF}'
  }

  /** `s` with its leading white space removed. */
  function TrimStart(s: string): (r: string)
    ensures |r| <= |s| && r == s[|s| - |r|..]
    ensures forall i :: 0 <= i < |s| - |r| ==> IsJsSpace(s[i])
    ensures r != [] ==> !IsJsSpace(r[0])
  {
    if s != [] && IsJsSpace(s[0]) then TrimStart(s[1..]) else s
  }

  /** `s` with its trailing white space removed. */
  function TrimEnd(s: string): (r: string)
    ensures |r| <= |s| && r == s[..|r|]
    ensures forall i :: |r| <= i < |s| ==> IsJsSpace(s[i])
    ensures r != [] ==> !IsJsSpace(r[|r| - 1])
  {
    if s != [] && IsJsSpace(s[|s| - 1]) then TrimEnd(s[..|s| - 1]) else s
  }

  function Trim(s: string): string
  {
    TrimEnd(TrimStart(s))
  }

  /** A trimmed message is empty exactly when the message is all white space. */
  lemma {:induction false} TrimEmptyIffBlank(s: string)
    ensures Trim(s) == [] <==> forall i :: 0 <= i < |s| ==> IsJsSpace(s[i])
  {
    var t := TrimStart(s);
    if !forall i :: 0 <= i < |s| ==> IsJsSpace(s[i]) {
      var k :| 0 <= k < |s| && !IsJsSpace(s[k]);
      assert k >= |s| - |t|;
      assert t[k - (|s| - |t|)] == s[k];
      assert TrimEnd(t) != [];
    }
  }

  /** The trimmed text is a contiguous piece of the message with no white space at either end. */
  lemma TrimIsInnerPiece(s: string)
    ensures exists a, b :: 0 <= a <= b <= |s| && Trim(s) == s[a..b]
    ensures Trim(s) != [] ==> !IsJsSpace(Trim(s)[0]) && !IsJsSpace(Trim(s)[|Trim(s)| - 1])
  {
    var t := TrimStart(s);
    var a := |s| - |t|;
    assert Trim(s) == s[a..a + |Trim(s)|];
  }

  /** Trimming twice changes nothing more. */
  lemma TrimIdempotent(s: string)
    ensures Trim(Trim(s)) == Trim(s)
  {
  }

  /** The guard of `handleSubmit`: something besides white space, and input enabled. */
  predicate CanSend(message: string, disabled: bool)
  {
    Trim(message) != [] && !disabled
  }

  /** The send button's `disabled` attribute. */
  predicate ButtonDisabled(message: string, disabled: bool)
  {
    disabled || Trim(message) == []
  }

  /** The button is enabled exactly when submitting would send, i.e. when the message is not blank. */
  lemma ButtonMatchesSubmitGuard(message: string, disabled: bool)
    ensures !ButtonDisabled(message, disabled) <==> CanSend(message, disabled)
    ensures CanSend(message, disabled) <==> !disabled && exists i :: 0 <= i < |message| && !IsJsSpace(message[i])
  {
    TrimEmptyIffBlank(message);
  }

  /** The character counter, shown only for a non-empty message. */
  function Counter(message: string): (shown: Option<string>)
    ensures shown.Some? <==> |message| > 0
    ensures shown.Some? ==> IsDigits(shown.value) && ParseDecimal(shown.value) == |message|
  {
    if |message| > 0 then
      DecimalRoundTrip(|message|);
      Some(Decimal(|message|))
    else None
  }

  /** The state of one `ChatInput`: the typed text, the `disabled` prop and the texts handed to `onSend`. */
  class ChatInputBox {
    var message: string
    var disabled: bool
    var sent: seq<string>

    constructor (disabled: bool)
      ensures message == "" && this.disabled == disabled && sent == []
    {
      message := "";
      this.disabled := disabled;
      sent := [];
    }

    /** The textarea's `onChange`. */
    method Change(value: string)
      modifies this
      ensures message == value && disabled == old(disabled) && sent == old(sent)
    {
      message := value;
    }

    /** `handleSubmit`: sends the trimmed text and clears the box, or does nothing. */
    method HandleSubmit() returns (sentNow: bool)
      modifies this
      ensures sentNow <==> CanSend(old(message), old(disabled))
      ensures sentNow ==> sent == old(sent) + [Trim(old(message))] && message == ""
      ensures !sentNow ==> sent == old(sent) && message == old(message)
      ensures disabled == old(disabled)
    {
      sentNow := false;
      if Trim(message) != [] && !disabled {
        sent := sent + [Trim(message)];
        message := "";
        sentNow := true;
      }
    }

    /** `handleKeyDown`: Enter without Shift submits; every other key leaves everything as it was. */
    method HandleKeyDown(key: string, shift: bool) returns (sentNow: bool)
      modifies this
      ensures sentNow <==> key == "Enter" && !shift && CanSend(old(message), old(disabled))
      ensures sentNow ==> sent == old(sent) + [Trim(old(message))] && message == ""
      ensures !sentNow ==> sent == old(sent) && message == old(message)
      ensures disabled == old(disabled)
    {
      sentNow := false;
      if key == "Enter" && !shift {
        sentNow := HandleSubmit();
      }
    }
  }

  /** Surrounding white space is dropped and the text between is kept as typed. */
  lemma TrimSurrounded(w: string)
    requires w != [] && !IsJsSpace(w[0]) && !IsJsSpace(w[|w| - 1])
    ensures Trim([' '] + w + ['\n']) == w
  {
    var s := [' '] + w + ['\n'];
    assert s[1..] == w + ['\n'];
    assert TrimStart(s) == w + ['\n'];
    assert (w + ['\n'])[..|w|] == w;
  }

  /** Typing around a question and pressing Enter sends the bare question; Shift+Enter does not. */
  method SendScenario()
  {
    var box := new ChatInputBox(false);
    box.Change([' '] + "hi" + ['\n']);
    var first := box.HandleKeyDown("Enter", true);
    assert !first && box.message == " hi\n";
    TrimSurrounded("hi");
    var second := box.HandleKeyDown("Enter", false);
    assert second && box.sent == ["hi"] && box.message == "";
    var third := box.HandleSubmit();
    assert !third && box.sent == ["hi"];
  }
}
