/**
 * The chat room of the main app: sending the penitent's messages and the
 * absolve flow, in which confirming starts the burning animation and a timer
 * later clears the user's messages.
 */
module App {
  import opened Wrappers
  import opened JsBuiltins
  import opened Messages
  import ChatInput

  /** The delay, in milliseconds, between confirming absolution and clearing. */
  const BurnDelay: nat := 1500

  class ChatRoom {
    /** The user id obtained once at mount. */
    const userId: string
    const store: Store
    var showAbsolveModal: bool
    /** Burning, with the clear timer started by confirming not yet fired. */
    var isBurning: bool

    /**
     * The dialog can be open only while nothing burns: ABSOLVE, the one way
     * to open it, is disabled while burning. So at most one clear timer is
     * ever pending, exactly while `isBurning` holds.
     */
    predicate Valid()
      reads this, store
    {
      store.Valid() && (showAbsolveModal ==> !isBurning)
    }

    constructor (userId: string, store: Store)
      requires store.Valid()
      ensures Valid()
      ensures this.userId == userId && this.store == store
      ensures !showAbsolveModal && !isBurning
    {
      this.userId := userId;
      this.store := store;
      showAbsolveModal := false;
      isBurning := false;
    }

    /** The messages the room shows: this user's, in order. */
    function Visible(): (r: seq<Message>)
      reads this, store
      ensures userId != "" ==> forall m :: m in r <==> m in store.messages && m.userId == Some(userId)
    {
      List(store.messages, Some(userId))
    }

    /**
     * A click on ABSOLVE: `handleClear` opens the confirmation dialog, but
     * while burning the button is disabled and the click does nothing.
     */
    method HandleClear()
      requires Valid()
      modifies this
      ensures Valid()
      ensures showAbsolveModal <==> !isBurning
      ensures isBurning == old(isBurning)
      ensures old(isBurning) ==> showAbsolveModal == old(showAbsolveModal)
    {
      if !isBurning {
        showAbsolveModal := true;
      }
    }

    /** `handleConfirmAbsolve`, from the open dialog: closes it, starts burning and starts the clear timer. */
    method HandleConfirmAbsolve()
      requires Valid() && showAbsolveModal
      modifies this
      ensures Valid()
      ensures !showAbsolveModal && isBurning
    {
      showAbsolveModal := false;
      isBurning := true;
    }

    /** `handleCancelAbsolve`, from the open dialog: only closes it. */
    method HandleCancelAbsolve()
      requires Valid() && showAbsolveModal
      modifies this
      ensures Valid()
      ensures !showAbsolveModal && isBurning == old(isBurning)
    {
      showAbsolveModal := false;
    }

    /**
     * The clear timer fires, which it does only while burning: this user's
     * messages are cleared (all messages if the id is empty) and the burning
     * stops.
     */
    method BurnTimerFires()
      requires Valid() && isBurning
      modifies this, store
      ensures Valid()
      ensures !isBurning && showAbsolveModal == old(showAbsolveModal)
      ensures store.messages == (if userId != "" then Others(old(store.messages), userId) else [])
      ensures store.jobs == old(store.jobs)
    {
      store.Clear(Some(userId));
      isBurning := false;
    }

    /**
     * `handleSendMessage`: posts the text as the penitent under this user,
     * which schedules the reply. The form can be submitted with the Enter key
     * while burning, so nothing guards it.
     */
    method HandleSendMessage(body: string)
      requires Valid()
      modifies store
      ensures Valid()
      ensures store.messages == old(store.messages) + [Message(old(store.nextId), body, Penitent, StoredOwner(Some(userId)))]
      ensures store.jobs == old(store.jobs) + [GenerateBotReply(body, Some(userId))]
    {
      store.Send(body, Penitent, Some(userId));
    }
  }

  /**
   * `handleSelectConfession`: the confession goes to the input's `setValue`
   * when the input's ref holds a handle, and nowhere otherwise.
   */
  method HandleSelectConfession(handle: Option<ChatInput.Input>, confession: string)
    modifies if handle.Some? then {handle.value} else {}
    ensures handle.Some? ==> handle.value.value == confession && handle.value.calls == old(handle.value.calls)
  {
    if handle.Some? {
      handle.value.SetValue(confession);
    }
  }

  /** What a ref attached to `input` holds once mounted: its handle, when the component exposes one. */
  function InputHandle(input: ChatInput.Input, exposesHandle: bool): Option<ChatInput.Input>
  {
    if exposesHandle then Some(input) else None
  }

  /**
   * The input the main app renders is a plain function component: it takes
   * no ref and exposes no `setValue`, so the main app's ref stays null.
   */
  const MainInputExposesHandle: bool := false

  /** As written, a confession picked in the main app never reaches the input: value and calls stay as they were. */
  method MainAppSelectionIgnored(input: ChatInput.Input, confession: string)
    modifies input
    ensures input.value == old(input.value) && input.calls == old(input.calls)
  {
    HandleSelectConfession(InputHandle(input, MainInputExposesHandle), confession);
  }

  /** With an input that forwards its ref and exposes `setValue`, the picked confession fills the input. */
  method ForwardedSelectionFills(input: ChatInput.Input, confession: string)
    modifies input
    ensures input.value == confession && input.calls == old(input.calls)
  {
    HandleSelectConfession(InputHandle(input, true), confession);
  }

  /**
   * The whole absolve flow for a user with an id: open, confirm, timer. The
   * room then shows no messages, the other users' messages are untouched and
   * nothing is burning. A second ABSOLVE while burning opens nothing.
   */
  method AbsolveFlow(room: ChatRoom, other: string)
    requires room.Valid() && room.userId != "" && other != room.userId
    requires !room.isBurning
    modifies room, room.store
    ensures room.Valid()
    ensures room.Visible() == []
    ensures Owned(room.store.messages, other) == Owned(old(room.store.messages), other)
    ensures !room.isBurning && !room.showAbsolveModal
  {
    room.HandleClear();
    room.HandleConfirmAbsolve();
    room.HandleClear();
    assert !room.showAbsolveModal;
    room.BurnTimerFires();
    ClearedUserListsNothing(old(room.store.messages), room.userId);
    ClearKeepsOtherUsers(old(room.store.messages), room.userId, other);
  }
}
