// The rule-gating half of main.py's input handling as pure functions over a snapshot of
// the screen: what one event does to the game, the selection, the confirmation dialog
// and the pause state. The `Game` class (module GameLoop) performs the same steps in
// place and is proved to end in the state these functions give. Pixel hit-testing is
// abstracted: an event names what the pointer is over.

module Rules {
  import opened Cards
  import opened Zones
  import opened Lists
  import opened Turns

  /** `game_state`. */
  datatype Mode = MainMenu | InGame | Paused

  /** What the pointer is over when the left button goes down. */
  datatype Target =
    | HandCard(i: nat)                         // the i-th card of the human's hand
    | Slot(own: bool, kind: ZoneKind, i: nat)  // a character or support slot; i is ignored for the field slot
    | ReiryokuPile(own: bool)
    | BurialPile(own: bool)
    | PauseButton
    | PhaseButton                              // the next-phase button
    | ChannelButton
    | YesButton                                // the confirmation dialog's buttons
    | NoButton
    | ResumeButton                             // the pause menu's buttons
    | ExitButton
    | InfoClose                                // the card-info window's close button
    | BurialClose(own: bool)                   // a soul burial window's close button
    | BurialCard(own: bool, k: nat)            // the k-th cell of a soul burial window's grid
    | Window                                   // any other part of an open window
    | Elsewhere
  {
    /** The click lands on an open card-info or soul burial window, which takes it. */
    predicate OnWindow() {
      InfoClose? || BurialClose? || BurialCard? || Window?
    }
  }

  /** One event: a left click, the Enter or Escape key, or anything else (other keys,
      other buttons, mouse motion). */
  datatype Event = Click(target: Target) | EnterKey | EscapeKey | OtherEvent

  /** The game's own state besides the manager: `game_state`, whether the confirmation
      dialog is visible, `selected_card`, which soul burial windows were opened, and the
      turn state with both players' zones. */
  datatype Screen = Screen(
    mode: Mode,
    dialog: bool,
    selected: Ref,
    ownBurialOpen: bool,
    cpuBurialOpen: bool,
    game: View)

  predicate IsMainPhase(p: Phase) {
    p == Main1 || p == Main2
  }

  /** The slot kind that accepts a card type: characters go to character slots,
      techniques and equipment to support slots, fields to the field slot. */
  predicate Fits(cardType: string, kind: ZoneKind) {
    match kind
    case CharacterZone => cardType == "Character"
    case SupportZone => cardType == "Technique" || cardType == "Equipment"
    case FieldZone => cardType == "Field"
  }

  /** The card in a player's slot, None when there is no such slot. */
  function SlotCard(z: ZoneSet, kind: ZoneKind, i: nat): Ref {
    match kind
    case CharacterZone => if i < |z.characterZones| then z.characterZones[i] else None
    case SupportZone => if i < |z.supportZones| then z.supportZones[i] else None
    case FieldZone => z.fieldZone
  }

  /** The board whose pile or slot a target names. */
  function Side(g: View, own: bool): ZoneSet {
    if own then g.zones0 else g.zones1
  }

  /** The soul burial window of that player is shown. */
  predicate BurialOpen(s: Screen, own: bool) {
    if own then s.ownBurialOpen else s.cpuBurialOpen
  }

  /** `deselect_card`. */
  function Deselected(s: Screen): Screen {
    s.(selected := None)
  }

  /** `handle_events` for one event outside the main menu. A visible confirmation dialog
      takes every event: Enter or Yes advances the phase, Escape or No closes it.
      Otherwise Escape toggles the pause first, and the event then goes to the in-game
      handler or the pause menu. */
  function Handled(s: Screen, e: Event, rolls: seq<nat>): (r: Screen)
    requires Valid(s.game) && s.mode != MainMenu
    ensures Valid(r.game)
  {
    if s.dialog then
      if e == EnterKey || e == Click(YesButton) then s.(dialog := false, game := AdvancePlayer(s.game, rolls))
      else if e == EscapeKey || e == Click(NoButton) then s.(dialog := false)
      else s
    else
      var m := ModeAfterKey(s.mode, e);
      if m == InGame then Ingame(s.(mode := m), e) else PauseMenu(s.(mode := m), e)
  }

  /** Escape pauses a running game and resumes a paused one. */
  function ModeAfterKey(mode: Mode, e: Event): Mode {
    if e != EscapeKey then mode
    else if mode == InGame then Paused
    else if mode == Paused then InGame
    else mode
  }

  /** `handle_pause_menu_events`: Resume and Exit to Main Menu (saving is file output). */
  function PauseMenu(s: Screen, e: Event): (r: Screen)
    ensures r.game == s.game && r.selected == s.selected && r.dialog == s.dialog
    ensures r.mode != s.mode ==> e == Click(ResumeButton) || e == Click(ExitButton)
  {
    if e == Click(ResumeButton) then s.(mode := InGame)
    else if e == Click(ExitButton) then s.(mode := MainMenu)
    else s
  }

  /** A left click taken by an open window (`CardInfoWindow.handle_event` and
      `SoulBurialWindow.handle_event`): the card-info window's close button clears the
      selection; a soul burial window's close button closes that window; a cell of an open
      soul burial window's grid holding a card (the k that `_get_card_at_position` finds)
      makes that card the selection, and a window that is not open picks nothing. The grid shows the player's soul burial list itself, so the
      card is the list's current k-th entry. Any other click on a window (its title bar,
      an empty cell) changes nothing here. */
  function InWindow(s: Screen, t: Target): (r: Screen)
    ensures r.game == s.game && r.mode == s.mode && r.dialog == s.dialog
    ensures t == InfoClose ==> r == Deselected(s)
    ensures t.BurialClose? ==>
      && r.selected == s.selected
      && (if t.own then !r.ownBurialOpen && r.cpuBurialOpen == s.cpuBurialOpen
          else !r.cpuBurialOpen && r.ownBurialOpen == s.ownBurialOpen)
    ensures t.BurialCard? ==>
      var pile := Side(s.game, t.own).soulBurial;
      && r.selected == (if BurialOpen(s, t.own) && t.k < |pile| && pile[t.k].Some? then pile[t.k] else s.selected)
      && r.ownBurialOpen == s.ownBurialOpen && r.cpuBurialOpen == s.cpuBurialOpen
    ensures !(t == InfoClose || t.BurialClose? || t.BurialCard?) ==> r == s
  {
    match t
    case InfoClose => Deselected(s)
    case BurialClose(own) => if own then s.(ownBurialOpen := false) else s.(cpuBurialOpen := false)
    case BurialCard(own, k) =>
      var pile := Side(s.game, own).soulBurial;
      if BurialOpen(s, own) && k < |pile| && pile[k].Some? then s.(selected := pile[k]) else s
    case _ => s
  }

  /** `handle_ingame_events`. An open window takes the event. While a discard is pending
      only the human's clicks count, and only on a hand card; while a channel target is
      awaited any click ends the wait, a click on a hand card channelling it. Otherwise a
      click goes to the pause, next-phase or channel button, or to the cards. */
  function Ingame(s: Screen, e: Event): (r: Screen)
    requires Valid(s.game)
    ensures Valid(r.game)
  {
    var g := s.game;
    if e.Click? && e.target.OnWindow() then InWindow(s, e.target)
    else if g.sub == AwaitingDiscard then
      if g.turn == HumanIndex && e.Click? && e.target.HandCard? && e.target.i < |g.zones0.hand|
      then DiscardClick(s, e.target.i)
      else s
    else if g.sub == AwaitingChannelTarget then
      if !e.Click? then s
      else if e.target.HandCard? && e.target.i < |g.zones0.hand| then ChannelClick(s, e.target.i)
      else s.(game := g.(sub := NoSubState))
    else if !e.Click? then s
    else BoardClick(s, e.target)
  }

  /** A click when nothing is awaited: pause, ask to confirm the next phase, start
      waiting for a channel target (in a main phase, once per turn), or a card click. */
  function BoardClick(s: Screen, t: Target): (r: Screen)
    requires Valid(s.game)
    ensures Valid(r.game)
  {
    var g := s.game;
    match t
    case PauseButton => s.(mode := Paused)
    case PhaseButton => s.(dialog := true)
    case ChannelButton =>
      if IsMainPhase(PhaseAt(g.phase)) && !g.zones0.hasChanneled
      then s.(game := g.(sub := AwaitingChannelTarget))
      else s
    case _ => CardClick(s, t)
  }

  /** `handle_discard_click` on the human's i-th hand card, then `check_hand_size`. */
  function DiscardClick(s: Screen, i: nat): (r: Screen)
    requires Valid(s.game) && s.game.turn == HumanIndex && i < |s.game.zones0.hand|
    ensures Valid(r.game)
  {
    var z := Discarded(s.game.zones0, s.game.zones0.hand[i]);
    s.(game := CheckHandSize(s.game.(zones0 := z)))
  }

  /** The human channels the i-th hand card (whoever's turn it is), the wait ends and
      the selection is cleared. */
  function ChannelClick(s: Screen, i: nat): (r: Screen)
    requires Valid(s.game) && i < |s.game.zones0.hand|
    ensures Valid(r.game)
  {
    var z := Channeled(s.game.zones0, s.game.zones0.hand[i]).0;
    Deselected(s.(game := s.game.(zones0 := z, sub := NoSubState)))
  }

  /** Where `handle_card_click` would place the selected card: a hand card selected in
      Main1 or Main2 goes to the clicked empty slot of the human's own board when the slot
      accepts its type; the field slot is always index 0. */
  function Placement(s: Screen, t: Target): (r: Option<(ZoneKind, nat)>)
    ensures r.Some? ==>
      && s.selected.Some? && s.selected in s.game.zones0.hand
      && 0 <= s.game.phase < PhaseCount && IsMainPhase(PhaseAt(s.game.phase))
      && t.Slot? && t.own && t.kind == r.value.0 && Fits(s.selected.value.cardType, t.kind)
      && SlotExists(s.game.zones0, t.kind, r.value.1) && SlotAt(s.game.zones0, t.kind, r.value.1) == None
      && r.value.1 == (if t.kind == FieldZone then 0 else t.i)
    ensures (&& s.selected.Some? && s.selected in s.game.zones0.hand
             && 0 <= s.game.phase < PhaseCount && IsMainPhase(PhaseAt(s.game.phase))
             && t.Slot? && t.own && Fits(s.selected.value.cardType, t.kind)
             && SlotCard(s.game.zones0, t.kind, t.i) == None
             && SlotExists(s.game.zones0, t.kind, t.i))
            ==> r.Some?
  {
    var z := s.game.zones0;
    if s.selected.Some? && s.selected in z.hand && 0 <= s.game.phase < PhaseCount
       && IsMainPhase(PhaseAt(s.game.phase)) && t.Slot? && t.own
    then
      var cardType := s.selected.value.cardType;
      if cardType == "Character" then
        if t.kind == CharacterZone && t.i < |z.characterZones| && z.characterZones[t.i] == None
        then Some((CharacterZone, t.i)) else None
      else if cardType == "Technique" || cardType == "Equipment" then
        if t.kind == SupportZone && t.i < |z.supportZones| && z.supportZones[t.i] == None
        then Some((SupportZone, t.i)) else None
      else if cardType == "Field" then
        if t.kind == FieldZone && z.fieldZone == None then Some((FieldZone, 0)) else None
      else None
    else None
  }

  /** `handle_card_click`: place the selected card when `Placement` allows it; otherwise
      select the clicked hand card, occupied slot or top of a reiryoku pile, open a
      non-empty soul burial window, or else deselect. */
  function CardClick(s: Screen, t: Target): (r: Screen)
    requires Valid(s.game)
    ensures Valid(r.game)
  {
    match Placement(s, t)
    case Some((kind, i)) => Deselected(s.(game := s.game.(zones0 := Played(s.game.zones0, s.selected, kind, i))))
    case None => Selected(s, t)
  }

  /** The selection half of `handle_card_click`: a hand card or an occupied slot of either
      board becomes the selection, as does the top card of a non-empty reiryoku pile; a
      non-empty soul burial opens its window and keeps the selection; a click on an empty
      slot or pile, or on nothing, clears the selection. */
  function Selected(s: Screen, t: Target): (r: Screen)
    ensures r.game == s.game && r.mode == s.mode && r.dialog == s.dialog
    ensures t.HandCard? ==>
      r.selected == (if t.i < |s.game.zones0.hand| then s.game.zones0.hand[t.i] else None)
    ensures t.Slot? ==> r.selected == SlotCard(Side(s.game, t.own), t.kind, t.i)
    ensures t.ReiryokuPile? ==>
      var pile := Side(s.game, t.own).reiryokuZone;
      r.selected == (if |pile| > 0 then pile[|pile| - 1] else None)
    ensures t.BurialPile? && |Side(s.game, t.own).soulBurial| > 0 ==>
      && r.selected == s.selected
      && (if t.own then r.ownBurialOpen && r.cpuBurialOpen == s.cpuBurialOpen
          else r.cpuBurialOpen && r.ownBurialOpen == s.ownBurialOpen)
    ensures t.BurialPile? && |Side(s.game, t.own).soulBurial| == 0 ==> r.selected == None
    ensures !t.BurialPile? ==> r.ownBurialOpen == s.ownBurialOpen && r.cpuBurialOpen == s.cpuBurialOpen
    ensures !(t.HandCard? || t.Slot? || t.ReiryokuPile? || t.BurialPile?) ==> r.selected == None
  {
    var g := s.game;
    match t
    case HandCard(i) =>
      s.(selected := if i < |g.zones0.hand| then g.zones0.hand[i] else None)
    case Slot(own, kind, i) =>
      s.(selected := SlotCard(Side(g, own), kind, i))
    case ReiryokuPile(own) =>
      var pile := Side(g, own).reiryokuZone;
      s.(selected := if |pile| > 0 then pile[|pile| - 1] else None)
    case BurialPile(own) =>
      if |Side(g, own).soulBurial| == 0 then Deselected(s)
      else if own then s.(ownBurialOpen := true)
      else s.(cpuBurialOpen := true)
    case _ => Deselected(s)
  }

  /** `Game.update`, run once per frame by the main loop only while in game. */
  function Tick(s: Screen, rolls: seq<nat>): (r: Screen)
    requires Valid(s.game)
    ensures Valid(r.game)
  {
    if s.mode == InGame then s.(game := Update(s.game, rolls)) else s
  }

  // ---------------------------------------------------------------------------
  // Properties.

  /** A click changes the human's zones exactly when it places the selected card, and then
      the card has left the hand (its first occurrence, the rest in order) for the clicked
      slot, every other slot keeps its card, the opponent's zones and the turn state stay,
      and the selection is cleared. */
  lemma PlacementRules(s: Screen, t: Target)
    requires Valid(s.game)
    ensures var r := CardClick(s, t);
      && (r.game.zones0 != s.game.zones0 <==> Placement(s, t).Some?)
      && (Placement(s, t).None? ==> r.game == s.game)
      && (Placement(s, t).Some? ==>
            var (kind, i) := Placement(s, t).value;
            && SlotAt(r.game.zones0, kind, i) == s.selected
            && r.game.zones0.hand == RemoveFirst(s.game.zones0.hand, s.selected)
            && multiset(r.game.zones0.hand) == multiset(s.game.zones0.hand) - multiset{s.selected}
            && (forall k: ZoneKind, j: nat ::
                  SlotExists(s.game.zones0, k, j) && !SameSlot(k, j, kind, i) ==>
                    SlotExists(r.game.zones0, k, j) && SlotAt(r.game.zones0, k, j) == SlotAt(s.game.zones0, k, j))
            && r.game == s.game.(zones0 := r.game.zones0)
            && r.selected == None && r.mode == s.mode && r.dialog == s.dialog)
  {
    if Placement(s, t).Some? {
      var (kind, i) := Placement(s, t).value;
      PlayedMovesCard(s.game.zones0, s.selected, kind, i);
      var z := Played(s.game.zones0, s.selected, kind, i);
      assert |z.hand| == |s.game.zones0.hand| - 1;
    }
  }

  /** A card type other than Character, Technique, Equipment and Field is never placed. */
  lemma UnknownTypesStayInHand(s: Screen, t: Target)
    requires s.selected.Some?
    requires s.selected.value.cardType !in {"Character", "Technique", "Equipment", "Field"}
    ensures Placement(s, t).None?
  {
  }

  /** The wait for a channel target starts only from the channel button, in Main1 or
      Main2, when the human has not channelled this turn; and it always starts then. */
  lemma ChannelGate(s: Screen, e: Event)
    requires Valid(s.game) && s.game.sub != AwaitingChannelTarget
    ensures Ingame(s, e).game.sub == AwaitingChannelTarget ==>
      && e == Click(ChannelButton) && IsMainPhase(PhaseAt(s.game.phase)) && !s.game.zones0.hasChanneled
    ensures s.game.sub == NoSubState && e == Click(ChannelButton) && IsMainPhase(PhaseAt(s.game.phase))
            && !s.game.zones0.hasChanneled
            ==> Ingame(s, e).game.sub == AwaitingChannelTarget
  {
    if s.game.sub == AwaitingDiscard && !(e.Click? && e.target.OnWindow()) && Ingame(s, e) != s {
      var i := e.target.i;
      var g1 := s.game.(zones0 := Discarded(s.game.zones0, s.game.zones0.hand[i]));
      assert Ingame(s, e).game == CheckHandSize(g1);
    }
  }

  /** While a channel target is awaited, every click outside an open window ends the wait;
      a click on a hand card channels that card and clears the selection, any other click
      leaves the zones alone. */
  lemma ChannelTargetEnds(s: Screen, t: Target)
    requires Valid(s.game) && s.game.sub == AwaitingChannelTarget && !t.OnWindow()
    ensures var r := Ingame(s, Click(t));
      && r.game.sub == NoSubState
      && (if t.HandCard? && t.i < |s.game.zones0.hand|
          then r.game.zones0 == Channeled(s.game.zones0, s.game.zones0.hand[t.i]).0 && r.selected == None
          else r.game.zones0 == s.game.zones0 && r.selected == s.selected)
      && r.game.zones1 == s.game.zones1 && r.game.turn == s.game.turn && r.game.phase == s.game.phase
  {
  }

  /** While a discard is pending, nothing but a click by the human on a hand card, or a
      click on an open window, changes the screen; the hand card click discards the card
      and runs the hand-size check. */
  lemma DiscardRouting(s: Screen, e: Event)
    requires Valid(s.game) && s.game.sub == AwaitingDiscard
    ensures e.Click? && e.target.OnWindow() ==> Ingame(s, e) == InWindow(s, e.target)
    ensures !(s.game.turn == HumanIndex && e.Click? && e.target.HandCard? && e.target.i < |s.game.zones0.hand|)
            && !(e.Click? && e.target.OnWindow())
            ==> Ingame(s, e) == s
    ensures s.game.turn == HumanIndex && e.Click? && e.target.HandCard? && e.target.i < |s.game.zones0.hand|
            ==> var z := Discarded(s.game.zones0, s.game.zones0.hand[e.target.i]);
                && |z.hand| == |s.game.zones0.hand| - 1
                && Ingame(s, e).game == CheckHandSize(s.game.(zones0 := z))
  {
  }

  /** The phase and turn move on only through the dialog's Yes (or Enter), or when a
      pending discard brings the hand back to the limit. */
  lemma PhaseMovesOnlyByConfirmation(s: Screen, e: Event, rolls: seq<nat>)
    requires Valid(s.game) && s.mode != MainMenu
    ensures var r := Handled(s, e, rolls);
      (r.game.turn != s.game.turn || r.game.phase != s.game.phase) ==>
        || (s.dialog && (e == EnterKey || e == Click(YesButton)))
        || (!s.dialog && s.mode == InGame && s.game.sub == AwaitingDiscard && e.Click?)
  {
    if !s.dialog {
      var m := ModeAfterKey(s.mode, e);
      if m == InGame && s.game.sub == AwaitingDiscard && Ingame(s.(mode := m), e) != s.(mode := m) {
        assert e.Click?;
      }
    }
  }

  /** With the dialog visible no event reaches the game except the confirmation. */
  lemma DialogIsModal(s: Screen, e: Event, rolls: seq<nat>)
    requires Valid(s.game) && s.mode != MainMenu && s.dialog
    ensures var r := Handled(s, e, rolls);
      && r.mode == s.mode && r.selected == s.selected
      && (e == EnterKey || e == Click(YesButton) ==> !r.dialog && r.game == AdvancePlayer(s.game, rolls))
      && (e == EscapeKey || e == Click(NoButton) ==> r == s.(dialog := false))
      && (e != EnterKey && e != Click(YesButton) && e != EscapeKey && e != Click(NoButton) ==> r == s)
  {
  }

  /** Escape pauses a running game and resumes a paused one; twice, it changes nothing. */
  lemma EscapeTogglesPause(s: Screen, rolls: seq<nat>)
    requires Valid(s.game) && s.mode != MainMenu && !s.dialog
    ensures Handled(s, EscapeKey, rolls).mode == (if s.mode == InGame then Paused else InGame)
    ensures Handled(Handled(s, EscapeKey, rolls), EscapeKey, rolls) == s
  {
  }

  /** No input creates or destroys a card: every card of each player stays somewhere
      among that player's zones, whatever the event and the random numbers. */
  lemma InputKeepsCards(s: Screen, e: Event, rolls: seq<nat>)
    requires Valid(s.game) && s.mode != MainMenu
    ensures SameHoldings(s.game, Handled(s, e, rolls).game)
    ensures SameHoldings(s.game, Tick(s, rolls).game)
  {
    AdvancePlayerKeepsCards(s.game, rolls);
    HandledShape(s, e, rolls);
    if !s.dialog && ModeAfterKey(s.mode, e) == InGame {
      IngameKeepsCards(s.(mode := InGame), e);
    }
  }

  /** One event either confirms the dialog, goes to the in-game handler, or leaves the
      game alone. */
  lemma HandledShape(s: Screen, e: Event, rolls: seq<nat>)
    requires Valid(s.game) && s.mode != MainMenu
    ensures s.dialog && (e == EnterKey || e == Click(YesButton))
            ==> Handled(s, e, rolls).game == AdvancePlayer(s.game, rolls)
    ensures s.dialog && !(e == EnterKey || e == Click(YesButton)) ==> Handled(s, e, rolls).game == s.game
    ensures !s.dialog && ModeAfterKey(s.mode, e) == InGame
            ==> Handled(s, e, rolls) == Ingame(s.(mode := InGame), e)
    ensures !s.dialog && ModeAfterKey(s.mode, e) != InGame ==> Handled(s, e, rolls).game == s.game
    ensures Tick(s, rolls).game == s.game || Tick(s, rolls).game == Update(s.game, rolls)
  {
  }

  lemma IngameKeepsCards(s: Screen, e: Event)
    requires Valid(s.game)
    ensures SameHoldings(s.game, Ingame(s, e).game)
  {
    var g := s.game;
    IngameShape(s, e);
    if DiscardTarget(s, e) {
      DiscardClickKeepsCards(s, e.target.i);
    } else if ChannelTarget(s, e) {
      ChannelClickKeepsCards(s, e.target.i);
    } else if CardTarget(s, e) {
      CardClickKeepsCards(s, e.target);
    }
  }

  /** The event is a click by the human on a hand card while a discard is pending. */
  predicate DiscardTarget(s: Screen, e: Event) {
    && !(e.Click? && e.target.OnWindow()) && s.game.sub == AwaitingDiscard && s.game.turn == HumanIndex
    && e.Click? && e.target.HandCard? && e.target.i < |s.game.zones0.hand|
  }

  /** The event is a click on a hand card while a channel target is awaited. */
  predicate ChannelTarget(s: Screen, e: Event) {
    && !(e.Click? && e.target.OnWindow()) && s.game.sub == AwaitingChannelTarget
    && e.Click? && e.target.HandCard? && e.target.i < |s.game.zones0.hand|
  }

  /** The event is a click that goes to `handle_card_click`. */
  predicate CardTarget(s: Screen, e: Event) {
    && !(e.Click? && e.target.OnWindow()) && s.game.sub == NoSubState
    && e.Click? && e.target !in {PauseButton, PhaseButton, ChannelButton}
  }

  /** The in-game handler either discards, channels, handles a card click, or leaves the
      zones alone. */
  lemma IngameShape(s: Screen, e: Event)
    requires Valid(s.game)
    ensures DiscardTarget(s, e) ==> Ingame(s, e) == DiscardClick(s, e.target.i)
    ensures ChannelTarget(s, e) ==> Ingame(s, e) == ChannelClick(s, e.target.i)
    ensures CardTarget(s, e) ==> Ingame(s, e) == CardClick(s, e.target)
    ensures !DiscardTarget(s, e) && !ChannelTarget(s, e) && !CardTarget(s, e) ==>
      Ingame(s, e).game.zones0 == s.game.zones0 && Ingame(s, e).game.zones1 == s.game.zones1
  {
  }

  lemma DiscardClickKeepsCards(s: Screen, i: nat)
    requires Valid(s.game) && s.game.turn == HumanIndex && i < |s.game.zones0.hand|
    ensures SameHoldings(s.game, DiscardClick(s, i).game)
  {
    var g := s.game;
    DiscardedKeepsCards(g.zones0, g.zones0.hand[i]);
    CheckHandSizeKeepsCards(g.(zones0 := Discarded(g.zones0, g.zones0.hand[i])));
  }

  lemma ChannelClickKeepsCards(s: Screen, i: nat)
    requires Valid(s.game) && i < |s.game.zones0.hand|
    ensures SameHoldings(s.game, ChannelClick(s, i).game)
  {
    ChanneledKeepsCards(s.game.zones0, s.game.zones0.hand[i]);
  }

  lemma CardClickKeepsCards(s: Screen, t: Target)
    requires Valid(s.game)
    ensures SameHoldings(s.game, CardClick(s, t).game)
  {
    match Placement(s, t)
    case Some((kind, i)) => PlayedKeepsCards(s.game.zones0, s.selected, kind, i);
    case None =>
  }
}
