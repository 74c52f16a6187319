// The turn and phase state machine of game_logic/gamestate.py as pure functions over a
// snapshot of the game. The `GameStateManager` class (module GameState) performs the
// same steps in place and is proved to end in the state these functions give.

module Turns {
  import opened Cards
  import opened Lists
  import opened Zones

  datatype Phase = Restoration | Upkeep | Draw | Main1 | Combat | Main2 | End

  const PhaseCount := 7

  /** The phase order; `phase_index` is a position in it. */
  function PhaseAt(i: int): (p: Phase)
    requires 0 <= i < PhaseCount
  {
    if i == 0 then Restoration
    else if i == 1 then Upkeep
    else if i == 2 then Draw
    else if i == 3 then Main1
    else if i == 4 then Combat
    else if i == 5 then Main2
    else End
  }

  /** `phase_order.index(p)`. */
  function IndexOf(p: Phase): (i: nat)
    ensures i < PhaseCount
  {
    match p
    case Restoration => 0
    case Upkeep => 1
    case Draw => 2
    case Main1 => 3
    case Combat => 4
    case Main2 => 5
    case End => 6
  }

  /** The phases the game steps through without waiting for the player. */
  predicate IsAutomatic(p: Phase) {
    p == Restoration || p == Upkeep || p == Draw
  }

  datatype SubState = NoSubState | AwaitingDiscard | AwaitingChannelTarget

  const HandLimit := 6
  const HumanIndex := 0
  const CpuIndex := 1

  /** What the manager and the two players hold: `turn_index`, `phase_index`, the
      automatic-advance flag, `first_turn`, `sub_state`, the zones of the human (index 0)
      and of the CPU (index 1), and the ids of the exhausted cards. */
  datatype View = View(
    turn: int,
    phase: int,
    auto: bool,
    firstTurn: bool,
    sub: SubState,
    zones0: ZoneSet,
    zones1: ZoneSet,
    exhausted: set<CardId>)

  /** Both cursors point at a player and a phase. */
  predicate Valid(g: View) {
    0 <= g.turn < 2 && 0 <= g.phase < PhaseCount
  }

  /** `current_player`. */
  function Current(g: View): ZoneSet {
    if g.turn == HumanIndex then g.zones0 else g.zones1
  }

  function WithCurrent(g: View, z: ZoneSet): View {
    if g.turn == HumanIndex then g.(zones0 := z) else g.(zones1 := z)
  }

  /** Neither player gains or loses a card: cards only move between zones. */
  predicate SameHoldings(g: View, r: View) {
    Holdings(r.zones0) == Holdings(g.zones0) && Holdings(r.zones1) == Holdings(g.zones1)
  }

  /** The cursors and flags of the manager are those of g. */
  predicate SameCursors(g: View, r: View) {
    r.turn == g.turn && r.phase == g.phase && r.auto == g.auto && r.firstTurn == g.firstTurn
    && r.sub == g.sub
  }

  /** The i-th random number, or 0 when the supply has run out. */
  function Roll(rolls: seq<nat>, k: nat): nat {
    if k < |rolls| then rolls[k] else 0
  }

  // ---------------------------------------------------------------------------
  // Phase handlers.

  /** `on_restoration_phase`: the current player readies every card on their board. */
  function Restored(g: View): (r: View)
    ensures r.exhausted <= g.exhausted
    ensures forall id :: id in OnBoard(Current(g)) ==> id !in r.exhausted
    ensures forall id :: id in g.exhausted && id !in OnBoard(Current(g)) ==> id in r.exhausted
    ensures SameCursors(g, r) && r.zones0 == g.zones0 && r.zones1 == g.zones1
  {
    g.(exhausted := g.exhausted - OnBoard(Current(g)))
  }

  /** `on_draw_phase`: the first player skips the draw of the game's first turn. */
  function DrawStep(g: View): (r: View)
    ensures SameCursors(g, r) && r.exhausted == g.exhausted
  {
    if g.turn == HumanIndex && g.firstTurn then g
    else WithCurrent(g, Drawn(Current(g)).0)
  }

  /** The CPU's discard loop: while the hand is over the limit, the card at a random
      position of the hand is discarded. */
  function CpuDiscarded(z: ZoneSet, rolls: seq<nat>, k: nat): (r: ZoneSet)
    ensures |z.hand| > HandLimit ==> |r.hand| == HandLimit
    ensures |z.hand| <= HandLimit ==> r == z
    ensures multiset(r.hand) <= multiset(z.hand)
    ensures r.name == z.name && r.deck == z.deck && r.characterZones == z.characterZones
            && r.supportZones == z.supportZones && r.fieldZone == z.fieldZone
            && r.reiryokuZone == z.reiryokuZone && r.lifePoints == z.lifePoints
            && r.hasChanneled == z.hasChanneled
    decreases |z.hand|
  {
    if |z.hand| > HandLimit then
      var z' := Discarded(z, z.hand[Roll(rolls, k) % |z.hand|]);
      CpuDiscarded(z', rolls, k + 1)
    else z
  }

  /** The discard loop only moves cards from the hand to the soul burial. */
  lemma {:induction false} CpuDiscardedKeepsCards(z: ZoneSet, rolls: seq<nat>, k: nat)
    ensures Holdings(CpuDiscarded(z, rolls, k)) == Holdings(z)
    decreases |z.hand|
  {
    if |z.hand| > HandLimit {
      var z' := Discarded(z, z.hand[Roll(rolls, k) % |z.hand|]);
      DiscardedKeepsCards(z, z.hand[Roll(rolls, k) % |z.hand|]);
      CpuDiscardedKeepsCards(z', rolls, k + 1);
    }
  }

  /** One round of the discard loop. */
  lemma CpuDiscardStep(z: ZoneSet, rolls: seq<nat>, k: nat)
    requires |z.hand| > HandLimit
    ensures CpuDiscarded(z, rolls, k)
            == CpuDiscarded(Discarded(z, z.hand[Roll(rolls, k) % |z.hand|]), rolls, k + 1)
  {
  }

  /** `start_turn`, run when the phase cursor is back at Restoration: the current player
      may channel again, automatic advance is switched on and Restoration's handler runs. */
  function StartTurn(g: View): (r: View)
    requires Valid(g) && g.phase == 0
    ensures Valid(r) && r.phase == 0 && r.turn == g.turn && r.auto
    ensures r.sub == g.sub && r.firstTurn == g.firstTurn
    ensures !Current(r).hasChanneled
    ensures SameZones(r.zones0, g.zones0)
    ensures SameZones(r.zones1, g.zones1)
    ensures r.exhausted == g.exhausted - OnBoard(Current(g))
  {
    var z := Current(g).(hasChanneled := false);
    Restored(WithCurrent(g, z).(auto := true))
  }

  /** `end_turn`: the other player's turn starts at Restoration; `first_turn` is cleared
      when the turn comes back to the first player. */
  function EndTurn(g: View): (r: View)
    requires 0 <= g.turn < 2
    ensures Valid(r) && r.phase == 0 && r.turn == 1 - g.turn && r.auto
    ensures r.firstTurn == (g.firstTurn && g.turn == HumanIndex)
    ensures r.sub == g.sub
    ensures !Current(r).hasChanneled
    ensures SameZones(r.zones0, g.zones0)
    ensures SameZones(r.zones1, g.zones1)
  {
    var t := (g.turn + 1) % 2;
    StartTurn(g.(phase := 0, turn := t, firstTurn := if t == 0 then false else g.firstTurn))
  }

  /** `check_hand_size`: a pending discard is over once the hand is back to the limit,
      and the turn then passes. */
  function CheckHandSize(g: View): (r: View)
    requires Valid(g)
    ensures Valid(r)
    ensures g.sub == AwaitingDiscard && |Current(g).hand| <= HandLimit
            ==> r.sub == NoSubState && r.turn == 1 - g.turn && r.phase == 0 && r.auto
    ensures !(g.sub == AwaitingDiscard && |Current(g).hand| <= HandLimit) ==> r == g
  {
    if g.sub == AwaitingDiscard && |Current(g).hand| <= HandLimit then
      EndTurn(g.(sub := NoSubState))
    else g
  }

  /** The CPU's End phase with too many cards: mark the discard, discard, check. */
  function CpuEndStep(g: View, rolls: seq<nat>): (r: View)
    requires Valid(g) && g.turn == CpuIndex && |g.zones1.hand| > HandLimit
    ensures Valid(r)
    ensures r.turn == HumanIndex && r.phase == 0 && r.sub == NoSubState && r.auto
    ensures |r.zones1.hand| == HandLimit
  {
    var g1 := g.(sub := AwaitingDiscard);
    var z := CpuDiscarded(g.zones1, rolls, 0);
    var g2 := g1.(zones1 := z);
    assert WithCurrent(g1, CpuDiscarded(Current(g1), rolls, 0)) == g2;
    assert |Current(g2).hand| == HandLimit && g2.sub == AwaitingDiscard;
    CheckHandSize(WithCurrent(g1, CpuDiscarded(Current(g1), rolls, 0)))
  }

  /** `on_end_phase`: a hand over the limit suspends the turn until enough cards are
      discarded (the CPU discards at once); otherwise the turn passes. */
  function EndStep(g: View, rolls: seq<nat>): (r: View)
    requires Valid(g)
    ensures Valid(r)
  {
    if |Current(g).hand| > HandLimit then
      if g.turn == CpuIndex then CpuEndStep(g, rolls)
      else g.(sub := AwaitingDiscard)
    else EndTurn(g)
  }

  /** `execute_phase_actions`: runs the handler of the current phase; Upkeep, Main1,
      Combat and Main2 have none, and only End can move the cursors. */
  function Enter(g: View, rolls: seq<nat>): (r: View)
    requires Valid(g)
    ensures Valid(r)
    ensures PhaseAt(g.phase) != End ==> SameCursors(g, r)
    ensures PhaseAt(g.phase) == End ==> r == EndStep(g, rolls)
  {
    match PhaseAt(g.phase)
    case Restoration => Restored(g)
    case Draw => DrawStep(g)
    case End => EndStep(g, rolls)
    case _ => g
  }

  /** `_advance_phase`: the cursor moves one phase on (past End the turn ends) and the
      new phase's handler runs; automatic advance stops at the first phase that waits for
      the player. */
  function Advance(g: View, rolls: seq<nat>): (r: View)
    requires Valid(g)
    ensures Valid(r)
  {
    if g.phase + 1 >= PhaseCount then EndTurn(g.(phase := g.phase + 1))
    else
      var h := Enter(g.(phase := g.phase + 1), rolls);
      if IsAutomatic(PhaseAt(h.phase)) then h else h.(auto := false)
  }

  /** `advance_player_phase`: ignored during automatic advance. Otherwise the cursor moves
      exactly one phase on: Main2 goes straight to End and runs its handler, every other
      phase goes through `_advance_phase`; out of End the turn passes. */
  function AdvancePlayer(g: View, rolls: seq<nat>): (r: View)
    requires Valid(g)
    ensures Valid(r)
  {
    if g.auto then g
    else if PhaseAt(g.phase) == Main2 then Enter(g.(phase := IndexOf(End)), rolls)
    else Advance(g, rolls)
  }

  /** `update`, called once per frame: with automatic advance on, an automatic phase
      moves one phase on and any other phase switches automatic advance off. */
  function Update(g: View, rolls: seq<nat>): (r: View)
    requires Valid(g)
    ensures Valid(r)
  {
    if !g.auto then g
    else if IsAutomatic(PhaseAt(g.phase)) then Advance(g, rolls)
    else g.(auto := false)
  }

  /** n draws from the front of the deck, one after the other. */
  function DrawnTimes(z: ZoneSet, n: nat): ZoneSet {
    if n == 0 then z else Drawn(DrawnTimes(z, n - 1)).0
  }

  /** n draws give the hand the first min(n, |deck|) deck cards in deck order, the deck
      loses exactly those, and nothing else changes. */
  lemma {:induction false} DrawnTimesShape(z: ZoneSet, n: nat)
    ensures var r := DrawnTimes(z, n);
      var m := if n <= |z.deck| then n else |z.deck|;
      && r.hand == z.hand + z.deck[..m] && r.deck == z.deck[m..]
      && r.name == z.name && r.soulBurial == z.soulBurial && r.characterZones == z.characterZones
      && r.supportZones == z.supportZones && r.fieldZone == z.fieldZone
      && r.reiryokuZone == z.reiryokuZone && r.lifePoints == z.lifePoints
      && r.hasChanneled == z.hasChanneled
  {
    if n == 0 {
      assert z.hand + z.deck[..0] == z.hand && z.deck[0..] == z.deck;
    } else {
      DrawnTimesShape(z, n - 1);
      DrawTakesNext(z, DrawnTimes(z, n - 1), n - 1);
    }
  }

  /** One more draw after m rounds takes deck card m when there is one. */
  lemma DrawTakesNext(z: ZoneSet, h: ZoneSet, n: nat)
    requires var m := if n <= |z.deck| then n else |z.deck|;
      h.hand == z.hand + z.deck[..m] && h.deck == z.deck[m..]
    ensures var m := if n + 1 <= |z.deck| then n + 1 else |z.deck|;
      Drawn(h).0.hand == z.hand + z.deck[..m] && Drawn(h).0.deck == z.deck[m..]
  {
    if n < |z.deck| {
      SliceStep(z.deck, n);
      assert Drawn(h).0.hand == h.hand + [z.deck[n]];
    }
  }

  /** Taking one more element of a sequence, seen from both ends. */
  lemma SliceStep<T>(s: seq<T>, n: nat)
    requires n < |s|
    ensures s[..n + 1] == s[..n] + [s[n]] && s[n + 1..] == s[n..][1..]
    ensures s[n..][0] == s[n]
  {
  }

  /** Repeated draws only move cards from the deck to the hand. */
  lemma DrawnTimesKeepsCards(z: ZoneSet, n: nat)
    ensures Holdings(DrawnTimes(z, n)) == Holdings(z)
  {
    var r := DrawnTimes(z, n);
    var m := if n <= |z.deck| then n else |z.deck|;
    DrawnTimesShape(z, n);
    DealtFromDeck(z.hand, z.deck, m);
    assert ListEntries(r) == ListEntries(z);
    assert SlotEntries(r) == SlotEntries(z);
  }

  /** Moving the first m deck cards to the end of the hand keeps the multiset of both. */
  lemma DealtFromDeck(hand: seq<Ref>, deck: seq<Ref>, m: nat)
    requires m <= |deck|
    ensures multiset(hand + deck[..m]) + multiset(deck[m..]) == multiset(hand) + multiset(deck)
  {
    assert deck == deck[..m] + deck[m..];
  }

  /** n rounds of the opening deal: each player draws one card per round. The cursors
      stay, and cards only pass between each player's own deck and hand. */
  function Dealt(g: View, n: nat): (r: View)
    ensures SameCursors(g, r)
    ensures |r.zones0.hand| + |r.zones0.deck| == |g.zones0.hand| + |g.zones0.deck|
    ensures |r.zones1.hand| + |r.zones1.deck| == |g.zones1.hand| + |g.zones1.deck|
  {
    DrawnTimesShape(g.zones0, n);
    DrawnTimesShape(g.zones1, n);
    g.(zones0 := DrawnTimes(g.zones0, n), zones1 := DrawnTimes(g.zones1, n))
  }

  /** One more round of the deal: each player draws once more. */
  lemma DealtStep(g: View, n: nat)
    ensures var d := Dealt(g, n);
      Dealt(g, n + 1) == d.(zones0 := Drawn(d.zones0).0, zones1 := Drawn(d.zones1).0)
  {
  }

  const OpeningHand := 5

  /** `start_game`: five cards each when both hands are empty, then the first turn. */
  function StartGame(g: View): (r: View)
    requires Valid(g) && g.phase == 0
    ensures Valid(r)
  {
    var h := if |g.zones0.hand| == 0 && |g.zones1.hand| == 0 then Dealt(g, OpeningHand) else g;
    StartTurn(h)
  }

  /** A game starts on the same player's turn, in Restoration, advancing automatically. With
      both hands empty each player's hand is the first five cards of their deck (all of it
      when shorter) and the deck keeps the rest; otherwise nobody draws. */
  lemma OpeningDeal(g: View)
    requires Valid(g) && g.phase == 0
    ensures var r := StartGame(g);
      && r.turn == g.turn && r.phase == 0 && r.auto
      && (|g.zones0.hand| == 0 && |g.zones1.hand| == 0 ==>
            var m0 := if OpeningHand <= |g.zones0.deck| then OpeningHand else |g.zones0.deck|;
            var m1 := if OpeningHand <= |g.zones1.deck| then OpeningHand else |g.zones1.deck|;
            && r.zones0.hand == g.zones0.deck[..m0] && r.zones0.deck == g.zones0.deck[m0..]
            && r.zones1.hand == g.zones1.deck[..m1] && r.zones1.deck == g.zones1.deck[m1..])
      && (|g.zones0.hand| > 0 || |g.zones1.hand| > 0 ==>
            SameZones(r.zones0, g.zones0) && SameZones(r.zones1, g.zones1))
  {
    if |g.zones0.hand| == 0 && |g.zones1.hand| == 0 {
      DrawnTimesShape(g.zones0, OpeningHand);
      DrawnTimesShape(g.zones1, OpeningHand);
      assert g.zones0.hand + g.zones0.deck[..if OpeningHand <= |g.zones0.deck| then OpeningHand else |g.zones0.deck|]
             == g.zones0.deck[..if OpeningHand <= |g.zones0.deck| then OpeningHand else |g.zones0.deck|];
      assert g.zones1.hand + g.zones1.deck[..if OpeningHand <= |g.zones1.deck| then OpeningHand else |g.zones1.deck|]
             == g.zones1.deck[..if OpeningHand <= |g.zones1.deck| then OpeningHand else |g.zones1.deck|];
    }
  }

  // ---------------------------------------------------------------------------
  // Saving and loading the cursors (`to_dict` / `from_dict`).

  /** A saved turn state; an absent key is None. */
  datatype TurnDict = TurnDict(turnIndex: Option<int>, phaseIndex: Option<int>, firstTurn: Option<bool>)

  /** `to_dict`: all three keys are written, and loading them back restores the cursors. */
  function SavedTurn(g: View): (d: TurnDict)
    ensures d.turnIndex.Some? && d.phaseIndex.Some? && d.firstTurn.Some?
    ensures LoadedTurn(g, d) == g
  {
    TurnDict(Some(g.turn), Some(g.phase), Some(g.firstTurn))
  }

  /** Loading sets the three saved fields, with defaults 0, 0 and true; the sub-state,
      the automatic flag and the zones are left as they are. */
  function LoadedTurn(g: View, d: TurnDict): (r: View)
    ensures r.zones0 == g.zones0 && r.zones1 == g.zones1 && r.sub == g.sub && r.auto == g.auto
    ensures d.turnIndex.None? ==> r.turn == 0
    ensures d.phaseIndex.None? ==> r.phase == 0
    ensures d.firstTurn.None? ==> r.firstTurn
    ensures d.turnIndex.Some? ==> r.turn == d.turnIndex.value
    ensures d.phaseIndex.Some? ==> r.phase == d.phaseIndex.value
    ensures d.firstTurn.Some? ==> r.firstTurn == d.firstTurn.value
  {
    g.(turn := GetOr(d.turnIndex, 0), phase := GetOr(d.phaseIndex, 0),
       firstTurn := GetOr(d.firstTurn, true))
  }

  // ---------------------------------------------------------------------------
  // Properties.

  /** Before End, `_advance_phase` moves the cursor exactly one phase on and keeps the
      turn; automatic advance continues only into an automatic phase. */
  lemma AdvanceBeforeEnd(g: View, rolls: seq<nat>)
    requires Valid(g) && g.phase + 1 < IndexOf(End)
    ensures var r := Advance(g, rolls);
      && r.phase == g.phase + 1 && r.turn == g.turn && r.sub == g.sub
      && r.auto == (g.auto && IsAutomatic(PhaseAt(g.phase + 1)))
      && r == Enter(g.(phase := g.phase + 1), rolls).(auto := r.auto)
  {
    var h := Enter(g.(phase := g.phase + 1), rolls);
    assert h.phase == g.phase + 1 && h.auto == g.auto;
  }

  /** Past End, `_advance_phase` ends the turn. */
  lemma AdvancePastEnd(g: View, rolls: seq<nat>)
    requires Valid(g) && PhaseAt(g.phase) == End
    ensures Advance(g, rolls) == EndTurn(g)
  {
    var t := (g.turn + 1) % 2;
    assert g.(phase := g.phase + 1).(phase := 0, turn := t, firstTurn := if t == 0 then false else g.firstTurn)
        == g.(phase := 0, turn := t, firstTurn := if t == 0 then false else g.firstTurn);
  }

  /** The player's advance is ignored during automatic advance. Otherwise it moves the
      cursor exactly one phase on and waits there, until Main2. */
  lemma AdvancePlayerSteps(g: View, rolls: seq<nat>)
    requires Valid(g)
    ensures g.auto ==> AdvancePlayer(g, rolls) == g
    ensures !g.auto && g.phase < IndexOf(Main2) ==>
      var r := AdvancePlayer(g, rolls);
      r.phase == g.phase + 1 && r.turn == g.turn && r.sub == g.sub && !r.auto
  {
    if !g.auto && g.phase < IndexOf(Main2) {
      AdvanceBeforeEnd(g, rolls);
    }
  }

  /** From Main2 the player's advance runs End: with at most six cards the turn passes;
      with more, a human waits in End for discards and the CPU discards down to six and
      passes the turn back. */
  lemma AdvanceFromMain2(g: View, rolls: seq<nat>)
    requires Valid(g) && !g.auto && PhaseAt(g.phase) == Main2
    ensures var r := AdvancePlayer(g, rolls);
      if |Current(g).hand| <= HandLimit then r == EndTurn(g.(phase := IndexOf(End)))
      else if g.turn == HumanIndex then r == g.(phase := IndexOf(End), sub := AwaitingDiscard)
      else r.turn == HumanIndex && r.phase == 0 && r.sub == NoSubState && |r.zones1.hand| == HandLimit
  {
    var e := g.(phase := IndexOf(End));
    AdvancePlayerFromMain2(g, rolls);
    assert PhaseAt(e.phase) == End;
    EndStepCases(e, rolls);
    assert Current(e) == Current(g);
  }

  lemma AdvancePlayerFromMain2(g: View, rolls: seq<nat>)
    requires Valid(g) && !g.auto && PhaseAt(g.phase) == Main2
    ensures AdvancePlayer(g, rolls) == Enter(g.(phase := IndexOf(End)), rolls)
  {
  }

  /** End either passes the turn or, for a human over the hand limit, only marks the
      pending discard; a CPU over the limit ends with exactly six cards and the human to
      play. */
  lemma EndStepCases(g: View, rolls: seq<nat>)
    requires Valid(g)
    ensures var r := EndStep(g, rolls);
      && (|Current(g).hand| <= HandLimit ==> r == EndTurn(g))
      && (|Current(g).hand| > HandLimit && g.turn == HumanIndex ==> r == g.(sub := AwaitingDiscard))
      && (|Current(g).hand| > HandLimit && g.turn == CpuIndex ==>
            r.turn == HumanIndex && r.phase == 0 && r.sub == NoSubState && |r.zones1.hand| == HandLimit)
  {
  }

  /** Out of End the player's advance passes the turn whatever the hand size: only the
      input layer, which ignores everything but discards while one is pending, keeps the
      hand limit from being skipped. */
  lemma AdvanceFromEndIgnoresHandLimit(g: View, rolls: seq<nat>)
    requires Valid(g) && !g.auto && PhaseAt(g.phase) == End
    ensures AdvancePlayer(g, rolls) == EndTurn(g)
  {
    AdvancePastEnd(g, rolls);
  }

  /** An update does nothing without automatic advance, moves an automatic phase one
      phase on, and in a waiting phase only switches automatic advance off. */
  lemma UpdateSteps(g: View, rolls: seq<nat>)
    requires Valid(g)
    ensures !g.auto ==> Update(g, rolls) == g
    ensures g.auto && IsAutomatic(PhaseAt(g.phase)) ==>
      var r := Update(g, rolls);
      && r.phase == g.phase + 1 && r.turn == g.turn && r.sub == g.sub
      && r.auto == IsAutomatic(PhaseAt(g.phase + 1))
      && r == Enter(g.(phase := g.phase + 1), rolls).(auto := r.auto)
    ensures g.auto && !IsAutomatic(PhaseAt(g.phase)) ==> Update(g, rolls) == g.(auto := false)
  {
    if g.auto && IsAutomatic(PhaseAt(g.phase)) {
      AdvanceBeforeEnd(g, rolls);
    }
  }

  /** A turn opens with Restoration, Upkeep and Draw run by three updates; the game then
      waits in Main1 with automatic advance off, the current player having drawn unless
      this is the first player's first turn. A fourth update changes nothing. */
  lemma {:induction false} TurnOpening(g: View, rolls: seq<nat>)
    requires Valid(g) && g.phase == 0 && g.auto
    ensures var r := Update(Update(Update(g, rolls), rolls), rolls);
      && r == DrawStep(g).(phase := IndexOf(Main1), auto := false)
      && Update(r, rolls) == r
  {
    UpdateSteps(g, rolls);
    var g1 := Update(g, rolls);
    assert g1 == g.(phase := 1);
    UpdateSteps(g1, rolls);
    var g2 := Update(g1, rolls);
    var d := DrawStep(g);
    assert DrawStep(g.(phase := 2)) == d.(phase := 2);
    assert g2 == d.(phase := 2);
    UpdateSteps(g2, rolls);
    var g3 := Update(g2, rolls);
    assert g3 == d.(phase := 3, auto := false);
    UpdateSteps(g3, rolls);
  }

  /** The Draw phase grows the current hand by one card taken from the front of the deck,
      by none when the deck is empty or on the first player's first turn. Nothing else
      changes: the other player's zones, the turn state and the current player's other
      zones stay. */
  lemma DrawPhaseGrowsHand(g: View)
    requires Valid(g)
    ensures var r := DrawStep(g);
      && r.turn == g.turn
      && r == WithCurrent(g, Current(r))
      && Current(r) == Current(g).(hand := Current(r).hand, deck := Current(r).deck)
      && (if (g.turn == HumanIndex && g.firstTurn) || |Current(g).deck| == 0
          then Current(r) == Current(g)
          else Current(r).hand == Current(g).hand + [Current(g).deck[0]]
               && Current(r).deck == Current(g).deck[1..])
  {
  }

  /** Two turn ends bring the turn back, with `first_turn` cleared. */
  lemma EndTurnTwice(g: View)
    requires Valid(g)
    ensures EndTurn(EndTurn(g)).turn == g.turn
    ensures !EndTurn(EndTurn(g)).firstTurn
  {
  }

  /** Loading a saved turn state restores its three fields and nothing else; a save with
      no keys gives the first player's Restoration of the first turn. */
  lemma TurnRoundTrip(g: View, h: View)
    ensures LoadedTurn(h, SavedTurn(g)) == h.(turn := g.turn, phase := g.phase, firstTurn := g.firstTurn)
    ensures LoadedTurn(h, TurnDict(None, None, None)) == h.(turn := 0, phase := 0, firstTurn := true)
  {
  }

  /** The order of phases and `phase_order.index` are inverse to each other. */
  lemma PhaseOrderIsABijection(i: int, p: Phase)
    ensures 0 <= i < PhaseCount ==> IndexOf(PhaseAt(i)) == i
    ensures PhaseAt(IndexOf(p)) == p
  {
  }

  // ---------------------------------------------------------------------------
  // Cards move, never multiply: no transition adds or removes a card of either player.

  lemma DrawStepKeepsCards(g: View)
    ensures SameHoldings(g, DrawStep(g))
  {
    DrawnKeepsCards(Current(g));
  }

  lemma StartTurnKeepsCards(g: View)
    requires Valid(g) && g.phase == 0
    ensures SameHoldings(g, StartTurn(g))
  {
    var r := StartTurn(g);
    assert SameZones(r.zones0, g.zones0) && SameZones(r.zones1, g.zones1);
    assert Entries(r.zones0) == Entries(g.zones0) && Entries(r.zones1) == Entries(g.zones1);
  }

  lemma EndTurnKeepsCards(g: View)
    requires 0 <= g.turn < 2
    ensures SameHoldings(g, EndTurn(g))
  {
    var t := (g.turn + 1) % 2;
    StartTurnKeepsCards(g.(phase := 0, turn := t, firstTurn := if t == 0 then false else g.firstTurn));
  }

  lemma CheckHandSizeKeepsCards(g: View)
    requires Valid(g)
    ensures SameHoldings(g, CheckHandSize(g))
  {
    if g.sub == AwaitingDiscard && |Current(g).hand| <= HandLimit {
      EndTurnKeepsCards(g.(sub := NoSubState));
    }
  }

  lemma EndStepKeepsCards(g: View, rolls: seq<nat>)
    requires Valid(g)
    ensures SameHoldings(g, EndStep(g, rolls))
  {
    if |Current(g).hand| > HandLimit {
      if g.turn == CpuIndex {
        var g1 := g.(sub := AwaitingDiscard);
        var g2 := WithCurrent(g1, CpuDiscarded(Current(g1), rolls, 0));
        CpuDiscardedKeepsCards(Current(g1), rolls, 0);
        CheckHandSizeKeepsCards(g2);
      }
    } else {
      EndTurnKeepsCards(g);
    }
  }

  lemma EnterKeepsCards(g: View, rolls: seq<nat>)
    requires Valid(g)
    ensures SameHoldings(g, Enter(g, rolls))
  {
    match PhaseAt(g.phase)
    case Draw => DrawStepKeepsCards(g);
    case End => EndStepKeepsCards(g, rolls);
    case _ =>
  }

  lemma AdvanceKeepsCards(g: View, rolls: seq<nat>)
    requires Valid(g)
    ensures SameHoldings(g, Advance(g, rolls))
  {
    if g.phase + 1 >= PhaseCount {
      EndTurnKeepsCards(g.(phase := g.phase + 1));
    } else {
      var g' := g.(phase := g.phase + 1);
      EnterKeepsCards(g', rolls);
      AdvanceSettles(g, rolls);
    }
  }

  /** Before the turn ends, `_advance_phase` leaves the state the new phase's handler
      gives, with automatic advance off unless that phase is automatic. */
  lemma AdvanceSettles(g: View, rolls: seq<nat>)
    requires Valid(g) && g.phase + 1 < PhaseCount
    ensures var h := Enter(g.(phase := g.phase + 1), rolls);
      Advance(g, rolls) == if IsAutomatic(PhaseAt(h.phase)) then h else h.(auto := false)
  {
    var h := Enter(g.(phase := g.phase + 1), rolls);
    if IsAutomatic(PhaseAt(h.phase)) {
      assert Advance(g, rolls) == h;
    } else {
      assert Advance(g, rolls) == h.(auto := false);
    }
  }

  /** Neither the player's advance nor the per-frame update ever creates or destroys a
      card: every card of each player stays somewhere among that player's zones. */
  lemma AdvancePlayerKeepsCards(g: View, rolls: seq<nat>)
    requires Valid(g)
    ensures SameHoldings(g, AdvancePlayer(g, rolls))
    ensures SameHoldings(g, Update(g, rolls))
  {
    if !g.auto {
      if PhaseAt(g.phase) == Main2 {
        EnterKeepsCards(g.(phase := IndexOf(End)), rolls);
      } else {
        AdvanceKeepsCards(g, rolls);
      }
    } else if IsAutomatic(PhaseAt(g.phase)) {
      AdvanceKeepsCards(g, rolls);
    }
  }

  lemma StartGameKeepsCards(g: View)
    requires Valid(g) && g.phase == 0
    ensures SameHoldings(g, StartGame(g))
  {
    var h := if |g.zones0.hand| == 0 && |g.zones1.hand| == 0 then Dealt(g, OpeningHand) else g;
    DrawnTimesKeepsCards(g.zones0, OpeningHand);
    DrawnTimesKeepsCards(g.zones1, OpeningHand);
    StartTurnKeepsCards(h);
  }
}
