/**
 * The confession dropdowns: the two lists of ready-made confessions, the
 * placement of the open menu relative to its button (drop up or down, align
 * right, left or centred), and the open / select / close state of the two
 * component versions, the original one and the chat one with its optional
 * automatic submission.
 */
module ConfessionDropdown {
  import opened Wrappers
  import opened DomUtils

  // ---------------------------------------------------------------------
  // The confession lists
  // ---------------------------------------------------------------------

  const VenialSins: seq<string> := [
    "I got a tattoo",
    "I was on my phone during Mass",
    "I got married in a Protestant chapel",
    "I got $150 in free Bonus Bets on Fan Duel",
    "I missed church to attend your funeral",
    "I parented my children too strictly",
    "I did not parent my children strictly enough",
    "I grabbed my dog by its hind legs and pushed it around like a vacuum cleaner",
    "I never got to say \"I love you\""
  ]

  const MortalSins: seq<string> := [
    "I actively harbor resentment toward the elderly",
    "I defrauded my local parish through a highly-complicated embezzlement scheme for my own personal enrichment",
    "I observed the Sabbath day on a Wednesday",
    "I used my $150 in free Bonus Bets on Fan Duel to participate in rigging the World Series",
    "I lied to the Pope about how I used my $150 in free bonus bets on Fan Duel",
    "I got baptized at 4 different churches and 2 different county jails",
    "I convinced my friend that there is a book in the Bible called \"Mitchell\"",
    "I defrauded my local parish through a highly-complicated embezzlement scheme for my own personal enrichment again"
  ]

  /** The `type` prop, which defaults to "venial" when it is not given. */
  function KindOf(kind: Option<string>): string
  {
    kind.GetOr("venial")
  }

  /** The list a dropdown offers: the venial sins for type "venial", the mortal sins for any other type. */
  function Confessions(kind: Option<string>): (list: seq<string>)
    ensures |list| == if KindOf(kind) == "venial" then 9 else 8
    ensures list == VenialSins <==> KindOf(kind) == "venial"
    ensures list == MortalSins <==> KindOf(kind) != "venial"
  {
    if KindOf(kind) == "venial" then VenialSins else MortalSins
  }

  /** Without a `type` prop the dropdown offers the venial sins. */
  lemma DefaultIsVenial()
    ensures Confessions(None) == VenialSins && |Confessions(None)| == 9
  {
  }

  // ---------------------------------------------------------------------
  // Placement of the open menu
  // ---------------------------------------------------------------------

  datatype Direction = Down | Up
  datatype Horizontal = Left | Right | Center

  /** The menu width the placement assumes: 200 px on the mobile layout, 250 px otherwise. */
  function MenuWidth(mobile: bool): real
  {
    if mobile then 200.0 else 250.0
  }

  /** A menu of this height fits between the button's bottom and the viewport's bottom. */
  predicate FitsBelow(button: Rect, menuHeight: real, innerHeight: real)
  {
    innerHeight - button.bottom >= menuHeight
  }

  /** The button's top is further from the viewport's top than the menu is high. */
  predicate FitsAbove(button: Rect, menuHeight: real)
  {
    button.top > menuHeight
  }

  /** Drop down unless the menu does not fit below but does fit above. */
  function VerticalPlacement(button: Rect, menuHeight: real, innerHeight: real): Direction
  {
    var spaceBelow := innerHeight - button.bottom;
    if spaceBelow < menuHeight && button.top > menuHeight then Up else Down
  }

  /**
   * The vertical rule keeps the menu inside the viewport where it can: a menu
   * dropped up starts below the viewport's top edge, and a menu dropped down
   * runs past the viewport's bottom only when it would not fit above either.
   * Dropping down is preferred: a menu that fits below always drops down.
   */
  lemma VerticalPlacementKeepsMenuVisible(button: Rect, menuHeight: real, innerHeight: real)
    ensures VerticalPlacement(button, menuHeight, innerHeight) == Up ==> button.top - menuHeight > 0.0
    ensures VerticalPlacement(button, menuHeight, innerHeight) == Down ==>
      button.bottom + menuHeight <= innerHeight || button.top <= menuHeight
    ensures button.bottom + menuHeight <= innerHeight ==> VerticalPlacement(button, menuHeight, innerHeight) == Down
  {
  }

  /** Half the menu's width fits to the right of the button. */
  predicate HalfFitsRight(button: Rect, menuWidth: real, innerWidth: real)
  {
    innerWidth - button.right >= menuWidth / 2.0
  }

  /** Half the menu's width fits to the left of the button. */
  predicate HalfFitsLeft(button: Rect, menuWidth: real)
  {
    button.left >= menuWidth / 2.0
  }

  /**
   * Align the menu with the button's right edge when half of it does not fit
   * on the right (this is checked first), else with the left edge when half of
   * it does not fit on the left, and centre it otherwise.
   */
  function HorizontalPlacement(button: Rect, menuWidth: real, innerWidth: real): (h: Horizontal)
    ensures h == Right <==> !HalfFitsRight(button, menuWidth, innerWidth)
    ensures h == Left <==> HalfFitsRight(button, menuWidth, innerWidth) && !HalfFitsLeft(button, menuWidth)
    ensures h == Center <==> HalfFitsRight(button, menuWidth, innerWidth) && HalfFitsLeft(button, menuWidth)
  {
    var spaceToRight := innerWidth - button.right;
    var spaceToLeft := button.left;
    if spaceToRight < menuWidth / 2.0 then Right
    else if spaceToLeft < menuWidth / 2.0 then Left
    else Center
  }

  /**
   * A centred menu lies inside the viewport: centred on the button, it
   * reaches half its width to either side of the button's centre.
   */
  lemma CenteredMenuFits(button: Rect, menuWidth: real, innerWidth: real)
    requires button.left <= button.right
    requires HorizontalPlacement(button, menuWidth, innerWidth) == Center
    ensures var centerX := button.left + (button.right - button.left) / 2.0;
      0.0 <= centerX - menuWidth / 2.0 && centerX + menuWidth / 2.0 <= innerWidth
  {
  }

  /** With too little room on both sides the right alignment wins. */
  lemma RightWinsWhenCramped(button: Rect, menuWidth: real, innerWidth: real)
    requires !HalfFitsRight(button, menuWidth, innerWidth) && !HalfFitsLeft(button, menuWidth)
    ensures HorizontalPlacement(button, menuWidth, innerWidth) == Right
  {
  }

  // ---------------------------------------------------------------------
  // The original dropdown
  // ---------------------------------------------------------------------

  /** The original component; `selected` records the calls of `onSelect`, in order. */
  class Dropdown {
    const kind: Option<string>
    const mobile: bool
    var isOpen: bool
    var dropDirection: Direction
    var horizontalPosition: Horizontal
    var selected: seq<string>

    /** Closed, dropping down, aligned right. */
    constructor (kind: Option<string>, mobile: bool)
      ensures this.kind == kind && this.mobile == mobile
      ensures !isOpen && dropDirection == Down && horizontalPosition == Right && selected == []
    {
      this.kind := kind;
      this.mobile := mobile;
      isOpen := false;
      dropDirection := Down;
      horizontalPosition := Right;
      selected := [];
    }

    /**
     * A click on the button: `toggleDropdown` opens a closed menu and closes
     * an open one, unless the `disabled` prop disables the button.
     */
    method Toggle(disabled: bool)
      modifies this
      ensures isOpen == if disabled then old(isOpen) else !old(isOpen)
      ensures dropDirection == old(dropDirection) && horizontalPosition == old(horizontalPosition) && selected == old(selected)
    {
      if !disabled {
        isOpen := !isOpen;
      }
    }

    /** A mouse press anywhere: one outside the dropdown closes it, one inside changes nothing. */
    method MouseDown(insideDropdown: bool)
      modifies this
      ensures isOpen == (old(isOpen) && insideDropdown)
      ensures dropDirection == old(dropDirection) && horizontalPosition == old(horizontalPosition) && selected == old(selected)
    {
      if !insideDropdown {
        isOpen := false;
      }
    }

    /**
     * The placement effect: while the menu is open, both placements are
     * recomputed from the button's rectangle, the menu's height, the width of
     * the layout and the viewport; a closed menu keeps its old placement.
     */
    method Reposition(button: Rect, menuHeight: real, innerWidth: real, innerHeight: real)
      modifies this
      ensures isOpen == old(isOpen) && selected == old(selected)
      ensures isOpen ==> (dropDirection == VerticalPlacement(button, menuHeight, innerHeight)
        && horizontalPosition == HorizontalPlacement(button, MenuWidth(mobile), innerWidth))
      ensures !isOpen ==> dropDirection == old(dropDirection) && horizontalPosition == old(horizontalPosition)
    {
      if isOpen {
        dropDirection := VerticalPlacement(button, menuHeight, innerHeight);
        horizontalPosition := HorizontalPlacement(button, MenuWidth(mobile), innerWidth);
      }
    }

    /** `handleSelect`: `onSelect` receives the confession once, and then the menu closes. */
    method Select(confession: string)
      modifies this
      ensures selected == old(selected) + [confession] && !isOpen
      ensures dropDirection == old(dropDirection) && horizontalPosition == old(horizontalPosition)
    {
      selected := selected + [confession];
      isOpen := false;
    }
  }

  // ---------------------------------------------------------------------
  // The chat dropdown
  // ---------------------------------------------------------------------

  /** The button's position as the chat dropdown records it. */
  datatype ButtonPosition = ButtonPosition(top: real, left: real, width: real, height: real)

  /** The calls `handleSelect` makes, in the order it makes them. */
  datatype Call = SelectConfession(text: string) | OnSelect(text: string) | OnSubmit(text: string)

  /** The position of a call in the order `handleSelect` makes them. */
  function Stage(c: Call): nat
  {
    match c
    case SelectConfession(_) => 0
    case OnSelect(_) => 1
    case OnSubmit(_) => 2
  }

  /**
   * The calls one selection makes: the hook, then `onSelect`, then `onSubmit`
   * when one is given. Every call passes the chosen confession, no callback
   * runs twice or out of order, the hook and `onSelect` always run, and
   * `onSubmit` runs exactly when it is given.
   */
  function SelectionCalls(confession: string, hasSubmit: bool): (calls: seq<Call>)
    ensures forall i :: 0 <= i < |calls| ==> calls[i].text == confession
    ensures forall i, j :: 0 <= i < j < |calls| ==> Stage(calls[i]) < Stage(calls[j])
    ensures SelectConfession(confession) in calls && OnSelect(confession) in calls
    ensures OnSubmit(confession) in calls <==> hasSubmit
  {
    [SelectConfession(confession), OnSelect(confession)] + if hasSubmit then [OnSubmit(confession)] else []
  }

  /** The chat version: the placement runs on the desktop layout only, and a selection may submit. */
  class ChatDropdown {
    const kind: Option<string>
    const mobile: bool
    /** Whether an `onSubmit` prop was given. */
    const hasSubmit: bool
    var isOpen: bool
    var dropDirection: Direction
    var horizontalPosition: Horizontal
    var buttonPosition: ButtonPosition
    var calls: seq<Call>

    /** Closed, dropping down, aligned right, with a zero button position. */
    constructor (kind: Option<string>, mobile: bool, hasSubmit: bool)
      ensures this.kind == kind && this.mobile == mobile && this.hasSubmit == hasSubmit
      ensures !isOpen && dropDirection == Down && horizontalPosition == Right
      ensures buttonPosition == ButtonPosition(0.0, 0.0, 0.0, 0.0) && calls == []
    {
      this.kind := kind;
      this.mobile := mobile;
      this.hasSubmit := hasSubmit;
      isOpen := false;
      dropDirection := Down;
      horizontalPosition := Right;
      buttonPosition := ButtonPosition(0.0, 0.0, 0.0, 0.0);
      calls := [];
    }

    /**
     * A click on the button: `toggleDropdown` followed by the layout effect it
     * triggers. Opening records the button's current rectangle, closing keeps
     * the old record, and a button the `disabled` prop disables does nothing.
     */
    method Toggle(button: Rect, disabled: bool)
      modifies this
      ensures isOpen == if disabled then old(isOpen) else !old(isOpen)
      ensures !disabled && isOpen ==> (buttonPosition ==
        ButtonPosition(button.top, button.left, button.right - button.left, button.bottom - button.top))
      ensures disabled || !isOpen ==> buttonPosition == old(buttonPosition)
      ensures dropDirection == old(dropDirection) && horizontalPosition == old(horizontalPosition) && calls == old(calls)
    {
      if !disabled {
        isOpen := !isOpen;
        if isOpen {
          buttonPosition := ButtonPosition(button.top, button.left, button.right - button.left, button.bottom - button.top);
        }
      }
    }

    /** A mouse press anywhere: one outside the dropdown closes it, one inside changes nothing. */
    method MouseDown(insideDropdown: bool)
      modifies this
      ensures isOpen == (old(isOpen) && insideDropdown)
      ensures dropDirection == old(dropDirection) && horizontalPosition == old(horizontalPosition)
      ensures buttonPosition == old(buttonPosition) && calls == old(calls)
    {
      if !insideDropdown {
        isOpen := false;
      }
    }

    /** The close button of the mobile sheet. */
    method CloseSheet()
      modifies this
      ensures !isOpen
      ensures dropDirection == old(dropDirection) && horizontalPosition == old(horizontalPosition)
      ensures buttonPosition == old(buttonPosition) && calls == old(calls)
    {
      isOpen := false;
    }

    /**
     * The placement effect: on the desktop layout and while open, both
     * placements are recomputed with the fixed 250 px menu width; otherwise
     * the placement is left as it was.
     */
    method Reposition(button: Rect, menuHeight: real, innerWidth: real, innerHeight: real)
      modifies this
      ensures isOpen == old(isOpen) && buttonPosition == old(buttonPosition) && calls == old(calls)
      ensures !mobile && isOpen ==> (dropDirection == VerticalPlacement(button, menuHeight, innerHeight)
        && horizontalPosition == HorizontalPlacement(button, 250.0, innerWidth))
      ensures mobile || !isOpen ==> dropDirection == old(dropDirection) && horizontalPosition == old(horizontalPosition)
    {
      if !mobile && isOpen {
        dropDirection := VerticalPlacement(button, menuHeight, innerHeight);
        horizontalPosition := HorizontalPlacement(button, 250.0, innerWidth);
      }
    }

    /** `handleSelect`: the hook, `onSelect` and, if given, `onSubmit` receive the confession in that order; then the menu closes. */
    method Select(confession: string)
      modifies this
      ensures calls == old(calls) + SelectionCalls(confession, hasSubmit) && !isOpen
      ensures dropDirection == old(dropDirection) && horizontalPosition == old(horizontalPosition)
      ensures buttonPosition == old(buttonPosition)
    {
      calls := calls + [SelectConfession(confession)];
      calls := calls + [OnSelect(confession)];
      if hasSubmit {
        calls := calls + [OnSubmit(confession)];
      }
      isOpen := false;
    }
  }
}
