/**
 * The chat input: a text value replaced by typing or by the parent, and a
 * submit that ignores a blank value, hands the value on untrimmed, clears it
 * once the submission has completed and then reports the confession.
 */
module ChatInput {
  import opened JsBuiltins

  /** The calls the input makes to its parent, in order. */
  datatype Call = OnSubmit(body: string) | OnConfess

  /** `value.trim() === ""`, which holds exactly for the values made of white space only. */
  predicate TrimmedEmpty(value: string)
    ensures TrimmedEmpty(value) <==> IsBlank(value)
  {
    TrimIsEmptyIffBlank(value);
    Trim(value) == ""
  }

  /** The calls a submit of `value` makes: `onSubmit`, then `onConfess` when given and the submission completed. */
  function SubmitCalls(value: string, hasConfess: bool, completed: bool): (calls: seq<Call>)
    ensures IsBlank(value) ==> calls == []
    ensures !IsBlank(value) ==> |calls| >= 1 && calls[0] == OnSubmit(value)
    ensures |calls| == 2 <==> !IsBlank(value) && hasConfess && completed
    ensures |calls| == 2 ==> calls[1] == OnConfess
    ensures |calls| <= 2
  {
    if TrimmedEmpty(value) then []
    else [OnSubmit(value)] + if hasConfess && completed then [OnConfess] else []
  }

  class Input {
    /** Whether an `onConfess` prop was given. */
    const hasConfess: bool
    var value: string
    var calls: seq<Call>

    /** Empty, with no call made. */
    constructor (hasConfess: bool)
      ensures this.hasConfess == hasConfess && value == "" && calls == []
    {
      this.hasConfess := hasConfess;
      value := "";
      calls := [];
    }

    /** `onChange` and the parent's `setValue`: the value is replaced wholesale. */
    method SetValue(newValue: string)
      modifies this
      ensures value == newValue && calls == old(calls)
    {
      value := newValue;
    }

    /**
     * `handleSubmit` and `submitForm`: a value made of white space only is
     * ignored; any other value goes to `onSubmit` as it is, untrimmed. When the
     * submission completes, the value is cleared and `onConfess`, if given, is
     * called; when it fails, the value stays and nothing more is called.
     */
    method Submit(completed: bool)
      modifies this
      ensures IsBlank(old(value)) ==> value == old(value) && calls == old(calls)
      ensures calls == old(calls) + SubmitCalls(old(value), hasConfess, completed)
      ensures !IsBlank(old(value)) ==> |calls| > |old(calls)| && calls[|old(calls)|] == OnSubmit(old(value))
      ensures !IsBlank(old(value)) ==> (value == "" <==> completed)
      ensures !completed ==> value == old(value)
    {
      if TrimmedEmpty(value) {
        return;
      }
      calls := calls + [OnSubmit(value)];
      if completed {
        value := "";
        if hasConfess {
          calls := calls + [OnConfess];
        }
      }
    }
  }

  /**
   * Typing a confession and submitting it: the parent receives exactly the
   * typed text, unless that text is blank, and the field ends empty.
   */
  method TypeAndSubmit(input: Input, text: string)
    modifies input
    ensures input.calls == old(input.calls) + SubmitCalls(text, input.hasConfess, true)
    ensures !IsBlank(text) ==> |input.calls| > |old(input.calls)| && input.calls[|old(input.calls)|] == OnSubmit(text) && input.value == ""
    ensures IsBlank(text) ==> input.calls == old(input.calls) && input.value == text
  {
    input.SetValue(text);
    input.Submit(true);
  }
}
