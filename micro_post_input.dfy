/** The micro-post box: a text capped at 280 characters, the count of
    characters left, a submit guard shared with the Post button, and the
    preview switch. The submit alert is outside the model. */
module MicroPostInput {
  import opened Text

  const MaxChars: nat := 280

  /** The warning colour starts below this many characters left. */
  const WarnBelow: nat := 20

  /** The textarea's `maxLength`: at most `MaxChars` characters of the typed
      text are kept, and a text within the cap is kept whole. */
  function Cap(text: string): (r: string)
    ensures |r| <= MaxChars
    ensures r <= text
    ensures |text| <= MaxChars ==> r == text
    ensures |text| > MaxChars ==> |r| == MaxChars
  {
    if |text| <= MaxChars then text else text[..MaxChars]
  }

  /** The submit guard: some non-blank character and within the cap. */
  predicate CanSubmit(content: string) {
    Trim(content) != [] && |content| <= MaxChars
  }

  /** The Post button's `disabled` condition. */
  predicate PostDisabled(content: string) {
    Trim(content) == [] || |content| > MaxChars
  }

  /** The button is disabled exactly when a submit would be refused; in
      particular a blank text and an over-long one are both refused. */
  lemma DisabledIffRefused(content: string)
    ensures PostDisabled(content) <==> !CanSubmit(content)
    ensures AllWhitespace(content) ==> PostDisabled(content)
    ensures |content| > MaxChars ==> PostDisabled(content)
  {
    TrimEmptyIffBlank(content);
  }

  /** The characters left when the text is `content`. */
  function Remaining(content: string): int {
    MaxChars - |content|
  }

  /** For a capped text the count stays within [0, 280] and the warning shows
      exactly for texts longer than 260 characters. */
  lemma RemainingBounds(content: string)
    requires |content| <= MaxChars
    ensures 0 <= Remaining(content) <= MaxChars
    ensures Remaining(content) < WarnBelow <==> |content| > MaxChars - WarnBelow
  {
  }

  /** The widget's state fields. */
  class Store {
    var content: string
    var isPreviewMode: bool
    var charCount: int

    /** The count always tracks the text, and the text is capped. */
    ghost predicate Valid()
      reads this
    {
      |content| <= MaxChars && charCount == Remaining(content)
    }

    constructor ()
      ensures Valid()
      ensures content == "" && !isPreviewMode && charCount == MaxChars
    {
      content := "";
      isPreviewMode := false;
      charCount := MaxChars;
    }

    /** Typing into the textarea, followed by the effect that recomputes the
        count from the new text. */
    method HandleChange(text: string)
      modifies this`content, this`charCount
      ensures Valid()
      ensures content == Cap(text)
      ensures charCount == MaxChars - |Cap(text)|
    {
      content := Cap(text);
      charCount := MaxChars - |content|;
    }

    /** Whether the count shows in the warning colour. */
    method ShowWarning() returns (warn: bool)
      requires Valid()
      ensures warn <==> |content| > MaxChars - WarnBelow
    {
      RemainingBounds(content);
      warn := charCount < WarnBelow;
    }

    /** The form's submit: an accepted post clears the text and leaves
        preview mode; a refused one changes nothing. */
    method HandleSubmit() returns (accepted: bool)
      requires Valid()
      modifies this`content, this`isPreviewMode, this`charCount
      ensures Valid()
      ensures accepted <==> CanSubmit(old(content))
      ensures accepted <==> !PostDisabled(old(content))
      ensures accepted ==> content == "" && !isPreviewMode && charCount == MaxChars
      ensures !accepted ==>
        && content == old(content) && isPreviewMode == old(isPreviewMode)
        && charCount == old(charCount)
    {
      DisabledIffRefused(content);
      accepted := CanSubmit(content);
      if accepted {
        content := "";
        isPreviewMode := false;
        charCount := MaxChars;
      }
    }

    method Preview()
      modifies this`isPreviewMode
      ensures isPreviewMode
    {
      isPreviewMode := true;
    }

    method Edit()
      modifies this`isPreviewMode
      ensures !isPreviewMode
    {
      isPreviewMode := false;
    }
  }
}
