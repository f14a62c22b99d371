/**
 * The typing animation of a chat message: a message by the Pope is revealed
 * one character per interval tick after a short start delay, with a cursor
 * while the typing lasts; every other message is shown whole at once.
 */
module ChatMessage {
  import Messages

  /** Milliseconds between two revealed characters. */
  const TypingSpeed: nat := 20
  /** Milliseconds before the first character. */
  const TypingInitialDelay: nat := 50

  /** Where the animation of a message stands. */
  datatype Phase =
    | Delaying   // the start delay is pending
    | Ticking    // the interval is running
    | Stopped    // no timer is left

  class TypedMessage {
    const author: string
    const body: string
    var displayedText: string
    var isTyping: bool
    /** The callback's character counter. */
    var index: nat
    var phase: Phase

    /**
     * The shown text is the body's prefix of length `index`; a message by
     * the Pope types until its interval stops, which happens only once the
     * whole body is shown; any other message is shown whole at once.
     */
    predicate Valid()
      reads this
    {
      && index <= |body|
      && displayedText == body[..index]
      && (author == Messages.Pope ==> (isTyping <==> phase != Stopped))
      && (author == Messages.Pope && phase == Delaying ==> index == 0)
      && (phase == Stopped ==> index == |body|)
      && (author != Messages.Pope ==> phase == Stopped && !isTyping)
    }

    /** The message as mounted, after its effect has run. */
    constructor (author: string, body: string)
      ensures this.author == author && this.body == body
      ensures Valid()
      ensures author == Messages.Pope ==> displayedText == "" && isTyping && phase == Delaying
      ensures author != Messages.Pope ==> displayedText == body && !isTyping && phase == Stopped
    {
      this.author := author;
      this.body := body;
      if author == Messages.Pope {
        isTyping := true;
        displayedText := "";
        index := 0;
        phase := Delaying;
      } else {
        displayedText := body;
        isTyping := false;
        index := |body|;
        phase := Stopped;
      }
    }

    /** The start delay elapses: the interval starts with the counter at zero. */
    method StartDelayFires()
      requires Valid()
      modifies this
      ensures Valid()
      ensures old(phase) == Delaying ==> phase == Ticking && index == 0
      ensures old(phase) != Delaying ==> phase == old(phase) && index == old(index)
      ensures displayedText == old(displayedText) && isTyping == old(isTyping)
    {
      if phase == Delaying {
        index := 0;
        phase := Ticking;
      }
    }

    /**
     * One interval tick: while characters remain, one more is shown;
     * otherwise typing ends and the interval is cleared. A cleared or not yet
     * started interval does not tick.
     */
    method Tick()
      requires Valid()
      modifies this
      ensures Valid()
      ensures old(phase) == Ticking && old(index) < |body| ==>
        index == old(index) + 1 && displayedText == body[..index] && isTyping && phase == Ticking
      ensures old(phase) == Ticking && old(index) == |body| ==>
        index == old(index) && displayedText == body && !isTyping && phase == Stopped
      ensures old(phase) != Ticking ==>
        index == old(index) && displayedText == old(displayedText) && isTyping == old(isTyping) && phase == old(phase)
    {
      if phase == Ticking {
        if index < |body| {
          displayedText := body[..index + 1];
          index := index + 1;
        } else {
          isTyping := false;
          phase := Stopped;
        }
      }
    }

    /** What the message shows: the typed text, with the cursor while typing, for the Pope; the body otherwise. */
    function Shown(): (r: (string, bool))
      reads this
      requires Valid()
      ensures author != Messages.Pope ==> r == (body, false)
      ensures r.1 ==> author == Messages.Pope && |r.0| < |body| + 1
      ensures r.0 <= body
      ensures !r.1 && phase == Stopped ==> r.0 == body
    {
      if author == Messages.Pope then (displayedText, isTyping) else (body, false)
    }
  }

  /**
   * The whole animation of a message by the Pope: after the start delay the
   * interval ticks once per character and once more to stop, and then the
   * whole body is shown without a cursor.
   */
  method TypeOut(message: TypedMessage) returns (ticks: nat)
    requires message.Valid() && message.author == Messages.Pope && message.phase == Delaying
    modifies message
    ensures message.Valid()
    ensures ticks == |message.body| + 1
    ensures message.displayedText == message.body && !message.isTyping && message.phase == Stopped
  {
    message.StartDelayFires();
    ticks := 0;
    while message.phase == Ticking
      invariant message.Valid()
      invariant message.phase != Delaying
      invariant message.phase == Ticking ==> ticks == message.index
      invariant message.phase == Stopped ==> ticks == |message.body| + 1
      decreases |message.body| - message.index, if message.phase == Ticking then 1 else 0
    {
      message.Tick();
      ticks := ticks + 1;
    }
  }
}
