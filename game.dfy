// main.py's `Game`: the fields the input handlers update in place (`game_state`,
// `selected_card`, the dialog's visibility, the opened soul burial windows), the two
// players and the state manager, and the handlers themselves. Every handler is proved to
// end in the state the functions of module Rules give.

module GameLoop {
  import opened Cards
  import opened Zones
  import opened Turns
  import opened Players
  import opened GameState
  import opened Rules
  import opened Layout

  class Game {
    const catalogue: Catalogue
    const cards: CardStates
    var player: Player
    var cpu: Player
    var sm: GameStateManager?
    var mode: Mode
    var dialogVisible: bool
    var selected: Ref
    var ownBurialOpen: bool
    var cpuBurialOpen: bool

    /** The manager drives this game's two players and the catalogue's flags. */
    predicate Linked()
      reads this, sm
    {
      sm != null && sm.human == player && sm.cpu == cpu && sm.cards == cards && sm.Valid()
    }

    /** The screen as a value. */
    function Snap(): Screen
      reads this, sm, player, cpu, cards
      requires Linked()
    {
      Screen(mode, dialogVisible, selected, ownBurialOpen, cpuBurialOpen, sm.Snap())
    }

    /** A game on the main menu: two fresh players, no manager, nothing selected. */
    constructor (catalogue: Catalogue)
      ensures this.catalogue == catalogue && mode == MainMenu && sm == null
      ensures player.Zones() == NewZones("Player 1") && cpu.Zones() == NewZones("CPU")
      ensures cards.exhausted == {} && selected == None && !dialogVisible
      ensures !ownBurialOpen && !cpuBurialOpen
    {
      this.catalogue := catalogue;
      cards := new CardStates();
      player := new Player("Player 1");
      cpu := new Player("CPU");
      sm := null;
      mode := MainMenu;
      dialogVisible := false;
      selected := None;
      ownBurialOpen := false;
      cpuBurialOpen := false;
    }

    /** `start_new_game`. `order` is the shuffled list of catalogue ids, `ids0` and `ids1`
        the two shuffled deck id lists, `deck0` and `deck1` the orders `create_deck`'s own
        shuffle leaves. With an empty catalogue only the players are replaced. */
    method StartNewGame(order: seq<CardId>, ids0: seq<CardId>, ids1: seq<CardId>,
                        deck0: seq<Ref>, deck1: seq<Ref>)
      requires |order| == |catalogue| && (forall id :: id in order <==> id in catalogue)
      requires |order| > 0 ==>
        ShuffledDeck(catalogue, order, ids0, deck0) && ShuffledDeck(catalogue, order, ids1, deck1)
      modifies this, cards
      ensures fresh(player) && fresh(cpu)
      ensures selected == old(selected) && dialogVisible == old(dialogVisible)
      ensures ownBurialOpen == old(ownBurialOpen) && cpuBurialOpen == old(cpuBurialOpen)
      ensures |catalogue| == 0 ==> cards.exhausted == old(cards.exhausted)
      ensures |catalogue| == 0 ==>
        && player.Zones() == NewZones("Player 1") && cpu.Zones() == NewZones("CPU")
        && sm == old(sm) && mode == old(mode)
      ensures |catalogue| > 0 ==>
        && fresh(sm) && Linked() && mode == InGame && |deck0| == DeckSize && |deck1| == DeckSize
        && sm.Snap() == Turns.StartGame(NewView(deck0, deck1, old(cards.exhausted)))
        && player.hand == deck0[..OpeningHand] && player.deck == deck0[OpeningHand..]
        && cpu.hand == deck1[..OpeningHand] && cpu.deck == deck1[OpeningHand..]
    {
      player := new Player("Player 1");
      cpu := new Player("CPU");
      if |catalogue| > 0 {
        StartDealing(order, ids0, ids1, deck0, deck1);
      }
    }

    /** The rest of `start_new_game` when there are cards: both new players get their decks,
        a new manager takes them over and the game starts. */
    method StartDealing(order: seq<CardId>, ids0: seq<CardId>, ids1: seq<CardId>,
                        deck0: seq<Ref>, deck1: seq<Ref>)
      requires |order| == |catalogue| > 0 && (forall id :: id in order <==> id in catalogue)
      requires ShuffledDeck(catalogue, order, ids0, deck0) && ShuffledDeck(catalogue, order, ids1, deck1)
      requires player.Zones() == NewZones("Player 1") && cpu.Zones() == NewZones("CPU")
      requires player != cpu
      modifies this, cards, player, cpu
      ensures player == old(player) && cpu == old(cpu)
      ensures selected == old(selected) && dialogVisible == old(dialogVisible)
      ensures ownBurialOpen == old(ownBurialOpen) && cpuBurialOpen == old(cpuBurialOpen)
      ensures fresh(sm) && Linked() && mode == InGame && |deck0| == DeckSize && |deck1| == DeckSize
      ensures sm.Snap() == Turns.StartGame(NewView(deck0, deck1, old(cards.exhausted)))
      ensures player.hand == deck0[..OpeningHand] && player.deck == deck0[OpeningHand..]
      ensures cpu.hand == deck1[..OpeningHand] && cpu.deck == deck1[OpeningHand..]
    {
      ShuffledDeckContents(catalogue, order, ids0, deck0);
      ShuffledDeckContents(catalogue, order, ids1, deck1);
      player.CreateDeck(CardsOf(ids0, catalogue), deck0);
      cpu.CreateDeck(CardsOf(ids1, catalogue), deck1);
      sm := new GameStateManager(player, cpu, cards);
      mode := InGame;
      ghost var v := NewView(deck0, deck1, cards.exhausted);
      assert sm.Snap() == v;
      sm.StartGame();
      OpeningDeal(v);
    }

    /** `handle_events` for one event outside the main menu. */
    method HandleEvent(e: Event, rolls: seq<nat>)
      requires Linked() && mode != MainMenu
      modifies this, sm, player, cpu, cards
      ensures sm == old(sm) && player == old(player) && cpu == old(cpu) && Linked()
      ensures Snap() == Handled(old(Snap()), e, rolls)
    {
      if dialogVisible {
        if e == EnterKey || e == Click(YesButton) {
          dialogVisible := false;
          sm.AdvancePlayerPhase(rolls);
        } else if e == EscapeKey || e == Click(NoButton) {
          dialogVisible := false;
        }
        return;
      }
      if e == EscapeKey {
        if mode == InGame {
          mode := Paused;
        } else if mode == Paused {
          mode := InGame;
        }
      }
      if mode == InGame {
        HandleIngameEvent(e);
      } else if mode == Paused {
        HandlePauseMenuEvent(e);
      }
    }

    /** `handle_pause_menu_events`. */
    method HandlePauseMenuEvent(e: Event)
      requires Linked()
      modifies this
      ensures sm == old(sm) && player == old(player) && cpu == old(cpu) && Linked()
      ensures Snap() == PauseMenu(old(Snap()), e)
    {
      if e == Click(ResumeButton) {
        mode := InGame;
      }
      if e == Click(ExitButton) {
        mode := MainMenu;
      }
    }

    /** `handle_ingame_events`. */
    method HandleIngameEvent(e: Event)
      requires Linked()
      modifies this, sm, player, cpu, cards
      ensures sm == old(sm) && player == old(player) && cpu == old(cpu) && Linked()
      ensures Snap() == Ingame(old(Snap()), e)
    {
      if e.Click? && e.target.OnWindow() {
        HandleWindowClick(e.target);
        return;
      }
      if sm.subState == AwaitingDiscard {
        if sm.CurrentPlayer() == player && e.Click? {
          HandleDiscardClick(e.target);
        }
        return;
      }
      if sm.subState == AwaitingChannelTarget {
        HandleChannelTarget(e);
        return;
      }
      if e.Click? {
        HandleBoardClick(e.target);
      }
    }

    /** A click when nothing is awaited: the pause and next-phase buttons, the channel
        button (only in a main phase, once per turn), or a card. */
    method HandleBoardClick(t: Target)
      requires Linked() && sm.subState != AwaitingDiscard && sm.subState != AwaitingChannelTarget
      modifies this, sm, player, cpu, cards
      ensures sm == old(sm) && player == old(player) && cpu == old(cpu) && Linked()
      ensures Snap() == BoardClick(old(Snap()), t)
    {
      match t
      case PauseButton => mode := Paused;
      case PhaseButton => dialogVisible := true;
      case ChannelButton =>
        if IsMainPhase(PhaseAt(sm.phaseIndex)) && !player.hasChanneled {
          sm.subState := AwaitingChannelTarget;
        }
      case _ => HandleCardClick(t);
    }

    /** While a channel target is awaited, a click on a hand card channels it; any click
        ends the wait. */
    method HandleChannelTarget(e: Event)
      requires Linked() && sm.subState == AwaitingChannelTarget && !(e.Click? && e.target.OnWindow())
      modifies this, sm, player
      ensures sm == old(sm) && player == old(player) && cpu == old(cpu) && Linked()
      ensures Snap() == Ingame(old(Snap()), e)
    {
      if e.Click? {
        if e.target.HandCard? && e.target.i < |player.hand| {
          var _ := player.ChannelReiryoku(player.hand[e.target.i]);
          sm.subState := NoSubState;
          DeselectCard();
          return;
        }
        sm.subState := NoSubState;
      }
    }

    /** A left click on an open window: the card-info window's close button deselects, a
        soul burial window's close button hides it, a card in a soul burial window's grid
        is selected (showing it in the card-info window is display only). */
    method HandleWindowClick(t: Target)
      requires Linked()
      modifies this
      ensures sm == old(sm) && player == old(player) && cpu == old(cpu) && Linked()
      ensures Snap() == InWindow(old(Snap()), t)
    {
      match t
      case InfoClose => DeselectCard();
      case BurialClose(own) =>
        if own {
          ownBurialOpen := false;
        } else {
          cpuBurialOpen := false;
        }
      case BurialCard(own, k) =>
        var pile := if own then player.soulBurial else cpu.soulBurial;
        var open := if own then ownBurialOpen else cpuBurialOpen;
        if open && k < |pile| && pile[k].Some? {
          selected := pile[k];
        }
      case _ =>
    }

    /** `deselect_card` (hiding the card-info window is display only). */
    method DeselectCard()
      modifies this
      ensures selected == None
      ensures mode == old(mode) && dialogVisible == old(dialogVisible)
      ensures ownBurialOpen == old(ownBurialOpen) && cpuBurialOpen == old(cpuBurialOpen)
      ensures sm == old(sm) && player == old(player) && cpu == old(cpu)
    {
      selected := None;
    }

    /** `handle_discard_click`: a click on the human's i-th hand card discards it and
        runs the hand-size check; a click anywhere else does nothing. */
    method HandleDiscardClick(t: Target)
      requires Linked() && sm.turnIndex == HumanIndex
      modifies sm, player, cpu, cards
      ensures sm == old(sm) && player == old(player) && cpu == old(cpu) && Linked()
      ensures t.HandCard? && t.i < old(|player.hand|) ==> Snap() == DiscardClick(old(Snap()), t.i)
      ensures !(t.HandCard? && t.i < old(|player.hand|)) ==> Snap() == old(Snap())
    {
      if t.HandCard? && t.i < |player.hand| {
        player.DiscardCard(player.hand[t.i]);
        sm.CheckHandSize();
      }
    }

    /** `handle_card_click`: place the selected card if the click allows it, otherwise
        select what was clicked. */
    method HandleCardClick(t: Target)
      requires Linked()
      modifies this, player
      ensures sm == old(sm) && player == old(player) && cpu == old(cpu) && Linked()
      ensures Snap() == CardClick(old(Snap()), t)
    {
      var placed := PlaceSelected(t);
      if !placed {
        SelectAt(t);
      }
    }

    /** The placing half of `handle_card_click`: a selected hand card, in Main1 or Main2,
        goes to the clicked empty slot of the human's board that accepts its type. */
    method PlaceSelected(t: Target) returns (placed: bool)
      requires Linked()
      modifies this, player
      ensures sm == old(sm) && player == old(player) && cpu == old(cpu) && Linked()
      ensures placed <==> Placement(old(Snap()), t).Some?
      ensures placed ==> Snap() == CardClick(old(Snap()), t)
      ensures !placed ==> Snap() == old(Snap())
    {
      placed := false;
      ghost var s := Snap();
      if selected.Some? && selected in player.hand && IsMainPhase(PhaseAt(sm.phaseIndex)) && t.Slot? && t.own {
        var cardType := selected.value.cardType;
        if cardType == "Character" {
          if t.kind == CharacterZone && t.i < |player.characterZones| && player.characterZones[t.i] == None {
            assert Placement(s, t) == Some((CharacterZone, t.i));
            player.PlayCardToZone(selected, CharacterZone, t.i);
            DeselectCard();
            placed := true;
          }
        } else if cardType == "Technique" || cardType == "Equipment" {
          if t.kind == SupportZone && t.i < |player.supportZones| && player.supportZones[t.i] == None {
            assert Placement(s, t) == Some((SupportZone, t.i));
            player.PlayCardToZone(selected, SupportZone, t.i);
            DeselectCard();
            placed := true;
          }
        } else if cardType == "Field" {
          if t.kind == FieldZone && player.fieldZone == None {
            assert Placement(s, t) == Some((FieldZone, 0));
            player.PlayCardToZone(selected, FieldZone, 0);
            DeselectCard();
            placed := true;
          }
        }
      }
    }

    /** The selecting half of `handle_card_click`: a hand card, an occupied slot of either
        board or the top of a reiryoku pile becomes the selection, a non-empty soul burial
        opens its window, and a click on nothing clears the selection. */
    method SelectAt(t: Target)
      requires Linked()
      modifies this
      ensures sm == old(sm) && player == old(player) && cpu == old(cpu) && Linked()
      ensures Snap() == Selected(old(Snap()), t)
    {
      ghost var s := Snap();
      match t {
        case HandCard(i) =>
          SelectHandCard(i);
        case Slot(own, kind, i) =>
          SelectSlot(own, kind, i);
        case ReiryokuPile(own) =>
          SelectPileTop(own);
        case BurialPile(own) =>
          OpenBurialPile(own);
        case _ =>
          assert Selected(s, t) == Deselected(s);
          DeselectCard();
      }
    }

    /** A click on the human's i-th hand card selects it. */
    method SelectHandCard(i: nat)
      requires Linked()
      modifies this
      ensures sm == old(sm) && player == old(player) && cpu == old(cpu) && Linked()
      ensures Snap() == Selected(old(Snap()), HandCard(i))
    {
      if i < |player.hand| {
        selected := player.hand[i];
      } else {
        DeselectCard();
      }
    }

    /** A click on a reiryoku pile selects its top card, or deselects when it is empty. */
    method SelectPileTop(own: bool)
      requires Linked()
      modifies this
      ensures sm == old(sm) && player == old(player) && cpu == old(cpu) && Linked()
      ensures Snap() == Selected(old(Snap()), ReiryokuPile(own))
    {
      var pile := if own then player.reiryokuZone else cpu.reiryokuZone;
      if |pile| > 0 {
        selected := pile[|pile| - 1];
      } else {
        DeselectCard();
      }
    }

    /** A click on a slot of either board selects its card, or deselects when it is empty. */
    method SelectSlot(own: bool, kind: ZoneKind, i: nat)
      requires Linked()
      modifies this
      ensures sm == old(sm) && player == old(player) && cpu == old(cpu) && Linked()
      ensures Snap() == Selected(old(Snap()), Slot(own, kind, i))
    {
      ghost var s := Snap();
      var c := SlotCard(if own then player.Zones() else cpu.Zones(), kind, i);
      assert c == SlotCard(Side(s.game, own), kind, i);
      if c.Some? {
        selected := c;
      } else {
        DeselectCard();
      }
    }

    /** A click on a soul burial pile opens its window when the pile holds a card, and
        deselects otherwise. */
    method OpenBurialPile(own: bool)
      requires Linked()
      modifies this
      ensures sm == old(sm) && player == old(player) && cpu == old(cpu) && Linked()
      ensures Snap() == Selected(old(Snap()), BurialPile(own))
    {
      if own && |player.soulBurial| > 0 {
        ownBurialOpen := true;
      } else if !own && |cpu.soulBurial| > 0 {
        cpuBurialOpen := true;
      } else {
        DeselectCard();
      }
    }

    /** `Game.update` as the main loop runs it: only while in game. */
    method Tick(rolls: seq<nat>)
      requires Linked()
      modifies sm, player, cpu, cards
      ensures sm == old(sm) && player == old(player) && cpu == old(cpu) && Linked()
      ensures Snap() == Rules.Tick(old(Snap()), rolls)
    {
      if mode == InGame {
        sm.Update(rolls);
      }
    }
  }

  /** `[all_cards[cid] for cid in ids]`. */
  function CardsOf(ids: seq<CardId>, catalogue: Catalogue): (r: seq<Ref>)
    requires forall id :: id in ids ==> id in catalogue
    ensures |r| == |ids| && forall k :: 0 <= k < |ids| ==> r[k] == Some(catalogue[ids[k]])
  {
    if ids == [] then [] else [Some(catalogue[ids[0]])] + CardsOf(ids[1..], catalogue)
  }

  /** A deck as `start_new_game` builds it from the shuffled catalogue ids `order`: `ids`
      is a shuffle of the fifty cycled ids and `deck` a shuffle of their cards. */
  predicate ShuffledDeck(catalogue: Catalogue, order: seq<CardId>, ids: seq<CardId>, deck: seq<Ref>)
    requires |order| > 0
  {
    && multiset(ids) == multiset(DeckIds(order))
    && (forall id :: id in ids ==> id in catalogue)
    && multiset(deck) == multiset(CardsOf(ids, catalogue))
  }

  /** The manager's view of a new game: the human's turn, Restoration, the first turn,
      both players new with the given decks. */
  function NewView(deck0: seq<Ref>, deck1: seq<Ref>, exhausted: set<CardId>): View {
    View(0, 0, false, true, NoSubState, NewZones("Player 1").(deck := deck0),
         NewZones("CPU").(deck := deck1), exhausted)
  }

  /** Every new deck holds fifty catalogue cards, and when the catalogue has at most fifty
      cards every one of them is in the deck. */
  lemma {:induction false} ShuffledDeckContents(catalogue: Catalogue, order: seq<CardId>, ids: seq<CardId>, deck: seq<Ref>)
    requires |order| > 0 && (forall id :: id in order <==> id in catalogue)
    requires ShuffledDeck(catalogue, order, ids, deck)
    ensures |deck| == DeckSize
    ensures forall c :: c in deck ==> exists id :: id in catalogue && c == Some(catalogue[id])
    ensures |order| <= DeckSize ==> forall id :: id in catalogue ==> Some(catalogue[id]) in deck
  {
    var cs := CardsOf(ids, catalogue);
    assert |deck| == |multiset(deck)| == |multiset(cs)| == |ids| == |multiset(DeckIds(order))|;
    forall c | c in deck
      ensures exists id :: id in catalogue && c == Some(catalogue[id])
    {
      assert c in multiset(cs);
      var k :| 0 <= k < |cs| && cs[k] == c;
      assert ids[k] in ids;
    }
    if |order| <= DeckSize {
      SmallCatalogueFullyDealt(order);
      forall id | id in catalogue
        ensures Some(catalogue[id]) in deck
      {
        assert id in multiset(DeckIds(order));
        assert id in multiset(ids);
        var k :| 0 <= k < |ids| && ids[k] == id;
        assert cs[k] in multiset(cs);
      }
    }
  }
}
