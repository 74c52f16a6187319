# Bleach Soul Deck: turn engine, input rules and card editor transforms

This project models the core of the Bleach Soul Deck card game in Dafny and proves
properties of that model. The core has four parts.

- **The turn engine.** `GameStateManager` (game_logic/gamestate.py) moves the game through
  the seven phases Restoration, Upkeep, Draw, Main1, Combat, Main2 and End. It steps
  through the automatic phases one per frame, runs each phase's handler, enforces the
  six-card hand limit at End (the CPU discards at random) and passes the turn.
- **The player.** `Player` (game_logic/player.py) owns a hand, a deck, a soul burial,
  five character slots, five support slots, a field slot and a reiryoku zone. It draws,
  discards, plays cards to slots, channels once per turn, readies its board, and saves
  and loads itself.
- **The input rules of main.py.**
  - The modal confirmation dialog gates the next phase.
  - Escape pauses.
  - A pending discard or channel target captures the clicks.
  - A selected hand card is placed only in a main phase, on an empty slot of the kind
    its type fits.
  - The selection is otherwise driven by clicks.
  - New decks are sized to fifty cards.
  - The soul burial window's card grid (hit-testing, content height and scrolling) is
    modelled too.
- **The card editor's bulk transforms.** These are in card_generator.py (cards/card_generator.py
  is an identical copy). They cover the cost-string parser that fills `energy_icons`, the
  default background chosen by type or faction, the bold-tag toggle and the coercion of
  a numeric tier.

The modelling follows the form of the source.

- `Player`, `GameStateManager`, main.py's `Game` and the editor's card list are classes
  whose fields are updated in place.
- Each method is proved to leave exactly the state that a pure function gives. These
  functions are in modules `Zones`, `Turns`, `Rules` and `CardGen`.
- The lemmas state the rules' properties about those functions:
  - cards only move between zones, never appear or vanish;
  - the opening deal;
  - how a turn opens;
  - the hand limit;
  - which inputs can move the phase;
  - save/load round trips;
  - idempotence of the editor's transforms.

Randomness is a parameter:
- `random.choice` in the CPU discard is the k-th number of `rolls` modulo the hand size;
- `random.shuffle` results are permutations passed in.

File existence in the editor is a set of existing paths.

The model follows the code in three places where a player might expect otherwise:
- The channel button tests the human's `has_channeled_this_turn` whoever's turn it is
  (main.py:684-686). A player might expect it to be available only on the human's turn.
- The human can place and channel cards during the CPU's main phases. Neither
  `handle_ingame_events` nor `handle_card_click` tests whose turn it is (main.py:665-688,
  705-716). A player might expect the board to accept moves only on their own turn.
- Leaving End through the player's advance (game_logic/gamestate.py:33-42) runs End's
  handler again only from Main2. From End itself it passes the turn without checking the
  hand size; only the input layer's discard gate prevents that
  (`Turns.AdvanceFromEndIgnoresHandLimit`). A player might expect the hand limit to be
  checked on every way out of a turn.

## Model

| member | source | states |
|---|---|---|
| Lists.RemoveFirst | game_logic/player.py:32-37 | `list.remove`: when the element is present its first occurrence leaves the list and every other entry keeps its order; the list is unchanged otherwise |
| Zones.Drawn | game_logic/player.py:24-30 | a draw moves the front deck card to the end of the hand and returns it; an empty deck returns None and changes nothing; the board, burial, reiryoku and status are untouched |
| Zones.DrawnKeepsCards | game_logic/player.py:24-30 | a draw neither creates nor loses a card of the player |
| Zones.Discarded | game_logic/player.py:32-37 | a card in hand leaves the hand as `list.remove` takes it (its first occurrence, the rest in order) and is appended to the soul burial; a card not in hand changes nothing |
| Zones.DiscardedKeepsCards | game_logic/player.py:32-37 | a discard neither creates nor loses a card |
| Zones.Played | game_logic/player.py:39-50 | playing a card never touches the deck, burial, reiryoku zone, name, life or channel flag, nor the number of slots; no slot but the named one changes, and the hand either stays or loses the card's first occurrence |
| Zones.PlayedMovesCard | game_logic/player.py:39-50 | a card in hand played to an empty slot fills that slot, every other slot of every kind keeps its card, and the hand becomes `list.remove` of the card (first occurrence gone, the rest in order); in every other case nothing changes |
| Zones.PlayedKeepsCards | game_logic/player.py:39-50 | playing a card neither creates nor loses a card; the empty slot it fills is not a card |
| Zones.Channeled | game_logic/player.py:52-61 | channelling succeeds exactly when the card is in hand and the player has not channelled yet; on success the card moves to the end of the reiryoku zone and the flag is set; a failure changes nothing |
| Zones.ChanneledKeepsCards | game_logic/player.py:52-61 | channelling neither creates nor loses a card |
| Zones.ChannelOncePerTurn | game_logic/player.py:52-61 | after a successful channel, any second channel fails and changes nothing |
| Zones.EnergyPool | game_logic/player.py:63-75 | the pool has keys N, W, B, U and G; N equals the size of the reiryoku zone and every colour is 0 |
| Zones.ChannelAddsOneNeutral | game_logic/player.py:63-75 | channelling raises the neutral energy by exactly one when it succeeds; draws and discards leave the pool alone |
| Zones.ResolveList | game_logic/player.py:105-107 | a loaded card list is the catalogue lookup of each truthy saved id, in order; null and "" are dropped and an unknown id becomes a None entry |
| Zones.ResolveSlots | game_logic/player.py:108-109 | a loaded slot list keeps one entry per saved id, each being its catalogue lookup |
| Zones.EmptySaveLoadsNewPlayer | game_logic/player.py:101-113 | loading a save with no keys gives exactly a new player named "Player" with 30 life and five empty slots of each kind |
| Zones.ListRoundTrip | game_logic/player.py:91-107 | a card list saved as ids and loaded with a catalogue that knows every card comes back unchanged |
| Zones.SlotRoundTrip | game_logic/player.py:94-109 | a slot list saved as ids and null comes back unchanged, empty slots included |
| Zones.Saved | game_logic/player.py:86-99 | `to_dict` writes every key; each card list becomes its cards' ids in order, each slot list keeps null for an empty slot, and the field slot is its card's id or null |
| Zones.Loaded | game_logic/player.py:101-113 | `from_dict` takes every card from the catalogue (an unknown id leaves a None entry); an absent key gives a new player's value (empty lists, five empty slots, the name "Player", 30 life, not channelled); a saved slot list keeps its length |
| Zones.SaveLoadRoundTrip | game_logic/player.py:86-113 | `from_dict(to_dict())` reproduces every zone, the name, the life points and the channel flag when the catalogue knows every card |
| Players.Player.constructor | game_logic/player.py:4-17 | a new player has empty lists, five empty character and five empty support slots, no field card, 30 life and may channel |
| Players.Player.CreateDeck | game_logic/player.py:19-22 | the deck becomes a permutation of the given cards and nothing else changes |
| Players.Player.DrawCard | game_logic/player.py:24-30 | the zones and returned card are those of `Zones.Drawn` |
| Players.Player.DiscardCard | game_logic/player.py:32-37 | the zones become those of `Zones.Discarded` |
| Players.Player.PlayCardToZone | game_logic/player.py:39-50 | the zones become those of `Zones.Played` |
| Players.Player.ChannelReiryoku | game_logic/player.py:52-61 | the zones and the success flag are those of `Zones.Channeled` |
| Players.Player.ReadyAllCards | game_logic/player.py:77-84 | exactly the cards in the player's character, support and field slots stop being exhausted; every other card keeps its flag |
| Players.Player.FromDict | game_logic/player.py:101-113 | the zones become the loaded value, for which the save/load round trip is proved |
| Turns.PhaseOrderIsABijection | game_logic/gamestate.py:9-21 | `phase_order` and `phase_order.index` are inverse to each other |
| Turns.Restored | game_logic/gamestate.py:94-95 | Restoration readies exactly the current player's board cards and changes nothing else |
| Turns.DrawStep | game_logic/gamestate.py:101-110 | the Draw handler moves no cursor and touches no exhausted flag |
| Turns.DrawPhaseGrowsHand | game_logic/gamestate.py:101-110 | Draw adds the front deck card to the current hand, except on the first player's first turn or with an empty deck; the other player's zones, the turn state and the current player's other zones stay |
| Turns.CpuDiscarded | game_logic/gamestate.py:130-135 | the CPU's discard loop leaves exactly six cards when it had more, keeps the hand's cards a sub-multiset, and changes nothing else but the burial |
| Turns.CpuDiscardStep | game_logic/gamestate.py:130-135 | one round of the loop discards the hand card at the position the next random number picks |
| Turns.CpuDiscardedKeepsCards | game_logic/gamestate.py:126-137 | the CPU's discards neither create nor lose a card |
| Turns.StartTurn | game_logic/gamestate.py:77-84 | a turn starts in Restoration with automatic advance on, the current player's channel flag cleared, every zone unchanged and that player's board readied |
| Turns.EndTurn | game_logic/gamestate.py:70-75 | the other player's turn starts in Restoration; `first_turn` is cleared exactly when the turn comes back to the first player |
| Turns.EndTurnTwice | game_logic/gamestate.py:70-75 | two turn ends return the turn to the same player with `first_turn` cleared |
| Turns.CheckHandSize | game_logic/gamestate.py:63-68 | a pending discard ends and the turn passes exactly when the hand is back to six cards or fewer; otherwise nothing changes |
| Turns.CpuEndStep | game_logic/gamestate.py:116-122 | a CPU over the hand limit at End ends with exactly six cards and the human's turn in Restoration |
| Turns.EndStep | game_logic/gamestate.py:112-124 | End keeps both cursors in range; its cases are stated by `Turns.EndStepCases` |
| Turns.EndStepCases | game_logic/gamestate.py:112-124 | at End, a hand of at most six passes the turn; a human with more waits with a pending discard; a CPU with more discards down to six and the turn passes |
| Turns.Enter | game_logic/gamestate.py:86-92 | only the End handler can move the cursors or the sub-state; End's effect is `EndStep` |
| Turns.Advance | game_logic/gamestate.py:53-61 | advancing keeps both cursors in range; its steps are stated by the three lemmas below |
| Turns.AdvanceBeforeEnd | game_logic/gamestate.py:53-61 | before End, the phase moves exactly one on in the same turn, and automatic advance continues only into an automatic phase |
| Turns.AdvancePastEnd | game_logic/gamestate.py:53-61 | advancing out of End ends the turn |
| Turns.AdvanceSettles | game_logic/gamestate.py:53-61 | before the turn ends, the result is the new phase's handler with automatic advance switched off unless the reached phase is automatic |
| Turns.AdvancePlayer | game_logic/gamestate.py:33-42 | the player's advance keeps both cursors in range; its steps are stated by the lemmas below |
| Turns.AdvancePlayerSteps | game_logic/gamestate.py:33-42 | the player's advance is ignored during automatic advance, and otherwise moves exactly one phase on and waits there (before Main2) |
| Turns.AdvancePlayerFromMain2 | game_logic/gamestate.py:38-40 | from Main2 the player's advance jumps to End and runs End's handler |
| Turns.AdvanceFromMain2 | game_logic/gamestate.py:33-42 | from Main2: with at most six cards the turn passes; a human with more waits for discards; the CPU discards to six and the human plays next |
| Turns.AdvanceFromEndIgnoresHandLimit | game_logic/gamestate.py:33-42 | the player's advance out of End passes the turn whatever the hand size |
| Turns.Update | game_logic/gamestate.py:44-51 | an update keeps both cursors in range; its cases are stated by `Turns.UpdateSteps` |
| Turns.UpdateSteps | game_logic/gamestate.py:44-51 | without automatic advance an update does nothing; in an automatic phase it advances one phase; in a waiting phase it only switches automatic advance off |
| Turns.TurnOpening | game_logic/gamestate.py:44-61 | three updates run Restoration, Upkeep and Draw and leave the game waiting in Main1 with automatic advance off; a fourth update changes nothing |
| Turns.DrawnTimesShape | game_logic/player.py:24-30 | n draws give the hand the first min(n, deck size) deck cards in deck order, and the deck keeps the rest |
| Turns.DrawnTimesKeepsCards | game_logic/player.py:24-30 | repeated draws neither create nor lose a card |
| Turns.Dealt | game_logic/gamestate.py:25-28 | the opening deal leaves the turn cursors alone, and each player's hand and deck together keep their size |
| Turns.DealtStep | game_logic/gamestate.py:26-28 | each round of the opening deal is one draw by each player |
| Turns.StartGame | game_logic/gamestate.py:23-31 | starting a game keeps both cursors in range; the deal is stated by `Turns.OpeningDeal` |
| Turns.OpeningDeal | game_logic/gamestate.py:23-31 | with both hands empty each hand becomes the first five deck cards (all of them when fewer) and the deck keeps the rest; otherwise no zone changes; the same player starts in Restoration with automatic advance on |
| Turns.SavedTurn | game_logic/gamestate.py:139-140 | `to_dict` writes all three keys, and loading them back restores the turn, the phase and the first-turn flag |
| Turns.LoadedTurn | game_logic/gamestate.py:142-145 | `from_dict` sets the turn, the phase and the first-turn flag from the save, with defaults 0, 0 and true, and leaves the zones, the sub-state and automatic advance alone |
| Turns.TurnRoundTrip | game_logic/gamestate.py:139-145 | loading a saved turn state restores turn, phase and first-turn flag and nothing else; an empty save gives turn 0, phase 0, first turn |
| Turns.DrawStepKeepsCards | game_logic/gamestate.py:101-110 | the Draw phase neither creates nor loses a card |
| Turns.StartTurnKeepsCards | game_logic/gamestate.py:77-84 | starting a turn neither creates nor loses a card |
| Turns.EndTurnKeepsCards | game_logic/gamestate.py:70-75 | ending a turn neither creates nor loses a card |
| Turns.CheckHandSizeKeepsCards | game_logic/gamestate.py:63-68 | the hand-size check neither creates nor loses a card |
| Turns.EndStepKeepsCards | game_logic/gamestate.py:112-124 | the End phase, the CPU's discards included, neither creates nor loses a card |
| Turns.EnterKeepsCards | game_logic/gamestate.py:86-92 | no phase handler creates or loses a card |
| Turns.AdvanceKeepsCards | game_logic/gamestate.py:53-61 | advancing a phase neither creates nor loses a card |
| Turns.AdvancePlayerKeepsCards | game_logic/gamestate.py:33-51 | neither the player's advance nor the per-frame update creates or loses a card of either player |
| Turns.StartGameKeepsCards | game_logic/gamestate.py:23-31 | the opening deal and first turn neither create nor lose a card |
| GameState.GameStateManager.CurrentPlayer | game_logic/gamestate.py:15-17 | returns the player whose turn it is |
| GameState.GameStateManager.constructor | game_logic/gamestate.py:4-13 | a new manager starts at the human's turn, in Restoration, on the first turn, with nothing pending and automatic advance off |
| GameState.GameStateManager.StartGame | game_logic/gamestate.py:23-31 | the resulting state is `Turns.StartGame` of the old one |
| GameState.GameStateManager.DealOpeningHands | game_logic/gamestate.py:25-28 | five rounds in which the human draws and then the CPU draws |
| GameState.GameStateManager.AdvancePlayerPhase | game_logic/gamestate.py:33-42 | the resulting state is `Turns.AdvancePlayer` of the old one |
| GameState.GameStateManager.Update | game_logic/gamestate.py:44-51 | the resulting state is `Turns.Update` of the old one |
| GameState.GameStateManager.AdvancePhase | game_logic/gamestate.py:53-61 | the resulting state is `Turns.Advance` of the old one |
| GameState.GameStateManager.CheckHandSize | game_logic/gamestate.py:63-68 | the resulting state is `Turns.CheckHandSize` of the old one |
| GameState.GameStateManager.EndTurn | game_logic/gamestate.py:70-75 | the resulting state is `Turns.EndTurn`, also when called with the phase cursor one past End |
| GameState.GameStateManager.StartTurn | game_logic/gamestate.py:77-84 | the resulting state is `Turns.StartTurn` of the old one |
| GameState.GameStateManager.ExecutePhaseActions | game_logic/gamestate.py:86-92 | the resulting state is `Turns.Enter`: the handler of the current phase |
| GameState.GameStateManager.OnRestorationPhase | game_logic/gamestate.py:94-95 | the resulting state is `Turns.Restored` |
| GameState.GameStateManager.OnDrawPhase | game_logic/gamestate.py:101-110 | the resulting state is `Turns.DrawStep` |
| GameState.GameStateManager.OnEndPhase | game_logic/gamestate.py:112-124 | the resulting state is `Turns.EndStep` |
| GameState.GameStateManager.HandleCpuDiscard | game_logic/gamestate.py:126-137 | the CPU's hand goes through the random discard loop, then the hand-size check runs |
| GameState.GameStateManager.ToDict | game_logic/gamestate.py:139-140 | loading the saved cursors into the same manager changes nothing |
| GameState.GameStateManager.FromDict | game_logic/gamestate.py:142-145 | the three cursors are set from the save with defaults 0, 0 and true; the manager is valid exactly when the loaded indices are in range |
| Rules.Handled | main.py:626-646 | an event never takes the cursors out of range; its routing is stated by `Rules.HandledShape` and `Rules.DialogIsModal` |
| Rules.HandledShape | main.py:626-646 | an event either confirms the dialog and advances the phase, goes to the in-game handler, or leaves the game alone; a frame only runs the update |
| Rules.DialogIsModal | main.py:75-90 | while the dialog is shown: Enter or Yes hides it and advances the phase; Escape or No only hides it; every other event changes nothing |
| Rules.EscapeTogglesPause | main.py:639-642 | Escape pauses a running game and resumes a paused one; pressing it twice restores the screen |
| Rules.PhaseMovesOnlyByConfirmation | main.py:626-688 | the turn or phase changes only through the dialog's confirmation, or through a click while a discard is pending |
| Rules.PauseMenu | main.py:690-694 | the pause menu never changes the game, the selection or the dialog: Resume and Exit only switch the mode |
| Rules.Ingame | main.py:654-688 | the in-game handler keeps the cursors in range; its routing is stated by `Rules.IngameShape`, `Rules.DiscardRouting`, `Rules.ChannelGate` and `Rules.ChannelTargetEnds` |
| Rules.IngameShape | main.py:654-688 | the in-game handler either discards, channels, handles a card click, or leaves both players' zones alone |
| Rules.DiscardRouting | main.py:659-663 | while a discard is pending, only the human clicking one of their hand cards, or a click on an open window, changes anything; the hand card click discards the card and runs the hand-size check |
| Rules.ChannelGate | main.py:684-687 | waiting for a channel target starts exactly from the channel button, in Main1 or Main2, when the human has not channelled this turn |
| Rules.ChannelTargetEnds | main.py:665-674 | while a channel target is awaited, every click outside an open window ends the wait; a hand card clicked is channelled and deselected, any other click leaves the zones and the selection |
| Rules.BoardClick | main.py:676-688 | a click with nothing pending keeps the cursors in range; its effect is stated by `Rules.ChannelGate` and `Rules.PlacementRules` |
| Rules.DiscardClick | main.py:698-703 | discarding a hand card and checking the hand size keeps the cursors in range |
| Rules.ChannelClick | main.py:668-672 | channelling a hand card and clearing the wait keeps the cursors in range |
| Rules.Placement | main.py:705-716 | a placement is offered exactly when: a selected card is in hand; it is Main1 or Main2; the click is on an existing empty slot of the human's own board that accepts the card's type; the field slot is index 0 |
| Rules.PlacementRules | main.py:705-716 | a card click changes the human's zones exactly when it places the selected card; that card then fills the slot and leaves the hand as `list.remove` takes it, every other slot keeps its card, the CPU's zones and the turn state stay, and the selection is cleared |
| Rules.UnknownTypesStayInHand | main.py:708-716 | a card whose type is not Character, Technique, Equipment or Field is never placed |
| Rules.CardClick | main.py:705-751 | a card click keeps the cursors in range |
| Rules.Selected | main.py:718-751 | a clicked hand card becomes the selection; an occupied slot of either board selects its card and an empty one deselects; a non-empty reiryoku pile selects its top card and an empty one deselects; a non-empty soul burial opens its window and keeps the selection, an empty one deselects; any other click deselects; the game, mode and dialog never change |
| Rules.InWindow | main.py:364-390 | a click taken by an open window: the card-info window's close button deselects; a soul burial window's close button closes that window; a grid cell of an open soul burial window holding a card makes it the selection; nothing else changes, and the game never does |
| Rules.Tick | main.py:613-618 | the per-frame update keeps the cursors in range |
| Rules.InputKeepsCards | main.py:626-755 | no event and no frame creates or destroys a card of either player |
| Rules.IngameKeepsCards | main.py:654-688 | the in-game handler neither creates nor loses a card |
| Rules.DiscardClickKeepsCards | main.py:698-703 | a discard click neither creates nor loses a card |
| Rules.ChannelClickKeepsCards | main.py:668-672 | a channel click neither creates nor loses a card |
| Rules.CardClickKeepsCards | main.py:705-751 | a card click neither creates nor loses a card |
| GameLoop.Game.constructor | main.py:513-530 | a game starts on the main menu with two new players, no manager, nothing selected, the dialog hidden and both soul burial windows closed |
| GameLoop.Game.StartNewGame | main.py:600-611 | both players are replaced by new ones; the selection, the dialog and both soul burial windows' open flags stay as they were. With no cards the manager, the mode and the exhausted flags stay too. Otherwise both decks hold fifty cards and the game is in play. The manager's state is the game start of the two new decks, each hand being its deck's first five cards |
| GameLoop.Game.StartDealing | main.py:602-611 | with cards, both new players' decks hold fifty cards each, a new manager drives the two new players and the game is in play with each hand its deck's first five cards; the selection, the dialog and the soul burial windows' flags stay as they were |
| GameLoop.Game.HandleEvent | main.py:626-646 | the screen becomes `Rules.Handled` of the old one |
| GameLoop.Game.HandlePauseMenuEvent | main.py:690-694 | the screen becomes `Rules.PauseMenu` of the old one |
| GameLoop.Game.HandleIngameEvent | main.py:654-688 | the screen becomes `Rules.Ingame` of the old one |
| GameLoop.Game.HandleBoardClick | main.py:676-688 | the screen becomes `Rules.BoardClick` of the old one |
| GameLoop.Game.HandleChannelTarget | main.py:665-674 | the screen becomes `Rules.Ingame` of the old one while a channel target is awaited |
| GameLoop.Game.DeselectCard | main.py:696 | the selection is cleared and nothing else changes |
| GameLoop.Game.HandleDiscardClick | main.py:698-703 | a click on one of the human's hand cards acts as `Rules.DiscardClick`; any other click changes nothing |
| GameLoop.Game.HandleCardClick | main.py:705-751 | the screen becomes `Rules.CardClick` of the old one |
| GameLoop.Game.PlaceSelected | main.py:705-716 | it places exactly when `Rules.Placement` allows, and otherwise changes nothing |
| GameLoop.Game.HandleWindowClick | main.py:135-143 | the screen becomes `Rules.InWindow` of the old one |
| GameLoop.Game.SelectAt | main.py:718-751 | the screen becomes `Rules.Selected` of the old one |
| GameLoop.Game.SelectHandCard | main.py:718-720 | the screen becomes `Rules.Selected` of the old one for a hand card click |
| GameLoop.Game.SelectSlot | main.py:736-739 | the screen becomes `Rules.Selected` of the old one for a click on a slot |
| GameLoop.Game.SelectPileTop | main.py:733-735 | the screen becomes `Rules.Selected` of the old one for a click on a reiryoku pile |
| GameLoop.Game.OpenBurialPile | main.py:742-751 | a non-empty soul burial opens its window, and an empty one clears the selection |
| GameLoop.Game.Tick | main.py:613-618 | the screen becomes `Rules.Tick` of the old one: the manager updates only while in game |
| GameLoop.CardsOf | main.py:608-609 | each deck id is replaced by its catalogue card, in order |
| GameLoop.ShuffledDeckContents | main.py:600-611 | every new deck holds fifty catalogue cards, and with at most fifty catalogue cards every card is in it |
| Layout.Repeated | main.py:604-605 | `s * m` has m times the length of s, and position p holds element p mod \|s\| |
| Layout.DeckIds | main.py:604-605 | a deck's id list has exactly fifty ids, cycling through the shuffled catalogue ids |
| Layout.CopiesCoverDeck | main.py:604-605 | `50 // n + 1` copies of n ids are more than fifty ids |
| Layout.SmallCatalogueFullyDealt | main.py:603-605 | with at most fifty catalogue cards, every id is in each deck |
| Layout.LargeCatalogueTruncated | main.py:603-605 | with more than fifty catalogue cards, a deck is the first fifty shuffled ids |
| Layout.CardsPerRow | main.py:349 | three cards fit in a row of the soul burial window |
| Layout.ContentHeight | main.py:430-436 | the content height is 0 for no cards, else the number of rows needed times the row height |
| Layout.ContentHeightFits | main.py:430-436 | every card's row lies within the content height, and the last card's row reaches its bottom |
| Layout.ScrolledUp | main.py:392-394 | the wheel up moves the offset back by exactly 25 pixels unless that would pass the top, where it stops at 0 |
| Layout.ScrolledDown | main.py:395-397 | the wheel down moves the offset on by exactly 25 pixels unless that would pass the largest useful offset, where it stops; from a valid offset it never moves back |
| Layout.MaxScroll | main.py:396 | the largest offset is never negative; scrolled that far the content's bottom is the visible area's bottom, and content that fits does not scroll |
| Layout.ScrollStaysInRange | main.py:392-398 | wheel scrolling keeps the offset between 0 and the largest useful offset; scrolling down then up never ends below where it started |
| Layout.CardAtPositionAsWritten | main.py:412-428 | the hit-test as written: any index it returns is a card index, and only for clicks below the title area; below it, the index `row * 3 + col` of the click is returned whenever it is a card index |
| Layout.RightMarginSelectsNextRow | main.py:412-428 | with four cards, a click in the right margin of the first row returns the fourth card, which is drawn in the second row |
| Layout.CardAtPosition | main.py:412-428 | the corrected hit-test returns a card whose column and row are the click's column and row, and returns that card whenever the click is below the title area in one of the three columns on a card's cell |
| Layout.CardAtPositionIsDrawnThere | main.py:463-470 | the card found is the one whose drawn cell holds the click, and a click on a card as drawn, below the title area, finds that card |
| Layout.ClickOnDrawnCardFindsIt | main.py:412-470 | a click inside the k-th card as drawn, below the title area, makes both the hit-test as written and the corrected one return k |
| Layout.CorrectionOnlyInMargin | main.py:412-428 | the corrected hit-test agrees with the one as written everywhere left of the right margin |
| CardGen.Digits | card_generator.py:528 | the filtered digits are all digits, and are non-empty exactly when the cost has a digit |
| CardGen.Letters | card_generator.py:529 | the filtered characters are all letters |
| CardGen.DecimalString | card_generator.py:511 | the decimal form of a number is a non-empty digit string without a leading zero |
| CardGen.DecimalRoundTrip | card_generator.py:532 | `int(str(n)) == n` |
| CardGen.DecimalConcat | card_generator.py:528-532 | digits appended to a digit string shift its value by a power of ten |
| CardGen.EnergyIcons | card_generator.py:525-539 | N is present exactly when the cost has a digit, and equals the number all its digits form; a colour is present exactly when its letter occurs in either case, counting its occurrences |
| CardGen.EnergyKeys | card_generator.py:36-41 | the energy object's keys are among N, W, B, U and G, and no colour counts zero |
| CardGen.LettersKeepColours | card_generator.py:529-537 | filtering out non-letters changes no colour count |
| CardGen.CostConcat | card_generator.py:525-539 | the energy object of a cost is determined by those of its two halves: the digits join and the colour counts add |
| CardGen.SplitDigitsJoin | card_generator.py:528-532 | an example: the cost "1W2" costs twelve generic energy and one white, as all digits are joined before `int` |
| CardGen.DigitsConcat | card_generator.py:528 | digit filtering distributes over concatenation |
| CardGen.CountConcat | card_generator.py:534-537 | colour counts add over concatenation |
| CardGen.ParseCost | card_generator.py:526-537 | the parser's digit filter, letter filter and counting loop yield exactly `EnergyIcons` of the cost |
| CardGen.TallyIsEnergyIcons | card_generator.py:534-537 | counting the colour letters of the letter-filtered cost gives the cost's energy object |
| CardGen.WithEnergies | card_generator.py:525-539 | a card gains or replaces `energy_icons` with its cost's energy object and no other key changes |
| CardGen.EnergiesIdempotent | card_generator.py:523-542 | updating the energies twice is the same as updating them once |
| CardGen.BackgroundFile | card_generator.py:549-558 | a file is chosen exactly when the mapping knows the type or the faction, and it is one of the mapping's files |
| CardGen.TypeBeatsFaction | card_generator.py:554-555 | a known type decides the background whatever the faction |
| CardGen.FactionFallback | card_generator.py:557-558 | without a known type, a known faction decides |
| CardGen.Join | card_generator.py:561 | a joined path ends with the file name |
| CardGen.WithBackground | card_generator.py:560-563 | a card's path is set to the chosen file's path exactly when that file exists, and the card is otherwise unchanged |
| CardGen.BackgroundsIdempotent | card_generator.py:544-569 | setting the backgrounds twice is the same as setting them once |
| CardGen.UpdatedCount | card_generator.py:547-563 | the running count never exceeds the number of cards, and is 0 exactly when no card's path is set |
| CardGen.UpdatedCountIsCardinality | card_generator.py:547-564 | the running count equals the number of cards whose path was set |
| CardGen.UpdatedAtStep | card_generator.py:548-564 | each further card adds its own position to the updated ones, or nothing |
| CardGen.CardEditor.UpdateAllEnergies | card_generator.py:523-542 | with no cards only a warning is shown; otherwise every card becomes `WithEnergies` of itself and the list keeps its length |
| CardGen.CardEditor.DefaultBackground | card_generator.py:549-566 | one card becomes `WithBackground` of itself, and the update is reported exactly when the chosen file exists |
| CardGen.CardEditor.UpdateAllCardBackgrounds | card_generator.py:544-569 | with no cards only a warning is shown; otherwise every card becomes `WithBackground` of itself and the count reported is the number of cards whose path was set |
| CardGen.StripTags | card_generator.py:398 | removing the tags never lengthens the text |
| CardGen.StripIsOnePass | card_generator.py:398 | the removal is one left-to-right pass: `<<b>b>` becomes `<b>` |
| CardGen.WrappedIsLong | card_generator.py:397 | a text that starts with `<b>` and ends with `</b>` has at least seven characters, so the two tags do not overlap |
| CardGen.Toggled | card_generator.py:397-398 | a selection wrapped in the bold tags loses exactly those outer tags; any other selection has every bold tag met in one left-to-right pass removed and is wrapped |
| CardGen.StripTagFree | card_generator.py:398 | removing the tags from tag-free text changes nothing |
| CardGen.ToggleTwice | card_generator.py:397-398 | toggling tag-free text makes it bold, and toggling again gives it back |
| CardGen.UntoggleTwice | card_generator.py:397-398 | toggling bold tag-free text removes the tags, and toggling again restores them |
| CardGen.CoercedTier | card_generator.py:511 | only the tier key may change, and it becomes a number exactly when it was a non-empty string of digits; that number is the digits' decimal value, leading zeros included |
| CardGen.CoercionIdempotent | card_generator.py:511 | coercing twice is the same as coercing once |
| CardGen.TierRoundTrip | card_generator.py:511 | a tier typed as the decimal form of n is stored as n |
| CardGen.LeadingZeroTier | card_generator.py:511 | a tier typed as a zero followed by the decimal form of n is stored as n |

## Left out

- **Drawing and windows.**
  - All drawing and the pygame/Tk widget layer are left out: fonts, images, the card-info
    window, the phase indicator and its timing, the confirmation dialog's question text,
    and screen scaling.
  - Pixel hit-testing of hand cards, slots, piles and buttons is abstracted: an event
    names what the pointer is over.
  - Of the soul burial and card-info windows, only the clicks that change the screen are
    modelled: closing either window and picking a card in a soul burial window
    (`Rules.InWindow`). Dragging, scrolling the card-info window and the window's own
    scroll offset are left out; any other event a window takes leaves the screen alone
    (`Window`). The card-info window's visibility is not tracked: a close click stands for
    a click on that window while it is shown. An event names a window only while that
    window is shown, because the source passes clicks on a hidden window on to the board;
    a soul burial grid click for a window whose open flag is off picks nothing.
- **Main menu and files.**
  - The main menu's Load Battle and Quit buttons are left out.
  - Save Game and Load Battle read and write files, which is I/O.
  - The dictionaries they use are modelled (`to_dict`/`from_dict`), but the JSON file
    and its key order are not.
- **Side effects.**
  - `print`, `time.sleep` and `messagebox` popups are not modelled.
  - The editor's warnings are a returned flag.
- **Randomness and the file system are parameters.**
  - `random.shuffle` and `random.choice` results are passed in.
  - `os.path.exists` is a set of existing paths.
  - `BACKGROUND_DIR` is a constant string joined with POSIX rules.
- **Characters.** Character classes are ASCII only. Python's `str.isdigit`, `str.isalpha`,
  `str.upper` and `int` also accept other scripts' digits and letters; those are not modelled.
- **Editor type errors.** A card whose `cost` is not text makes the editor raise; the model
  requires text (`CostIsText`). An unhashable `type` or `faction` value would raise too;
  the model treats any non-text value as unknown.
- **Card state.** `Card` objects are reduced to their id and type. The exhausted flag is
  kept per id in one shared `CardStates`, as one card object exists per catalogue id.
- GameState.GameStateManager.FromDict: a saved phase or turn index out of range is
  accepted as the source does. The manager is then no longer `Valid` and no other method
  can be called on it.
- GameLoop.Game.StartNewGame: with an empty catalogue the source keeps the old manager,
  which still refers to the old players. The model states only that the players are
  replaced, and leaves the game in the same mode.
- GameLoop.Game.StartNewGame: a soul burial window holds the list object it was shown
  with (main.py:354, 745 and 748), and starting a new game replaces the players but not
  the windows. A window left open from the previous game therefore keeps showing, and
  picking from, the old player's soul burial. The model keeps only the window's open flag
  and always reads the current player's soul burial, so after a restart with a window
  still open a grid click may pick a different card, or none, than the source does.
- Zones.Loaded: a saved value of null under a present key is not modelled; an absent key
  and a null value are both `None`. The source differs on such a value: a null card list
  makes `from_dict` raise `TypeError` (player.py:105-107), and a null name or life total is
  stored as null (player.py:103-104) where the model gives the default.
- Zones.Discarded, Zones.Channeled, Turns.CpuDiscarded: a None entry that loading leaves
  for an unknown id is treated like any other entry. The source raises `AttributeError`
  on it in the print that names the card: after a discard or a channel moves it
  (player.py:37 and 58, gamestate.py:134), or in place of returning False when the
  channel is refused (player.py:60). Drawing a hand that holds one (main.py:918) raises
  too. The model does not capture these failures.
- Zones.Saved: requires that no card list holds such a None entry, because the source's
  `to_dict` raises `AttributeError` on it (player.py:91-93 and 97); that failure is not
  modelled as an outcome.
- Players.Player.PlayCardToZone: the source raises `IndexError` for a slot index beyond
  the five slots. The model requires the index to exist whenever the card is in hand. The
  input layer only ever passes an existing index.

## Findings

| source | as written | input that shows it | evidently intended | confidence | as-written member | corrected member |
|---|---|---|---|---|---|---|
| main.py:412-428 | the soul burial window's hit-test takes the column as `x // 90` with no upper bound, so a click in the 30-pixel right margin gives column 3 and the index `row * 3 + 3`: the first card of the next row | four cards, scroll 0, click at (280, 60): returns the fourth card, drawn at (10, 180) | a click outside the three drawn columns hits no card | not executed | Layout.RightMarginSelectsNextRow | Layout.CardAtPositionIsDrawnThere |
