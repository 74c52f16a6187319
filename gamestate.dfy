// The `GameStateManager` of game_logic/gamestate.py: the turn and phase cursors are
// fields updated in place, the players' zones and the exhausted flags are updated through
// the `Player` methods, and every method is proved to leave exactly the state that the
// corresponding function of module Turns gives.

module GameState {
  import opened Cards
  import opened Zones
  import opened Turns
  import opened Players

  class GameStateManager {
    const human: Player
    const cpu: Player
    const cards: CardStates
    var turnIndex: int
    var phaseIndex: int
    var automatic: bool
    var firstTurn: bool
    var subState: SubState

    /** Two distinct players, and both cursors in range. */
    predicate Valid()
      reads this
    {
      human != cpu && 0 <= turnIndex < 2 && 0 <= phaseIndex < PhaseCount
    }

    /** The manager's fields, both players' zones and the exhausted flags as one value. */
    function Snap(): View
      reads this, human, cpu, cards
    {
      View(turnIndex, phaseIndex, automatic, firstTurn, subState, human.Zones(), cpu.Zones(),
           cards.exhausted)
    }

    /** `current_player`. */
    function CurrentPlayer(): (p: Player)
      reads this, human, cpu, cards
      requires Valid()
      ensures p.Zones() == Current(Snap())
    {
      if turnIndex == HumanIndex then human else cpu
    }

    /** A new manager: the human's turn, Restoration, first turn, nothing pending. */
    constructor (human: Player, cpu: Player, cards: CardStates)
      requires human != cpu
      ensures this.human == human && this.cpu == cpu && this.cards == cards
      ensures Valid()
      ensures Snap() == View(0, 0, false, true, NoSubState, human.Zones(), cpu.Zones(), cards.exhausted)
    {
      this.human := human;
      this.cpu := cpu;
      this.cards := cards;
      turnIndex := 0;
      phaseIndex := 0;
      automatic := false;
      firstTurn := true;
      subState := NoSubState;
    }

    /** `start_game`: when both hands are empty each player draws five cards, one at a
        time and alternately; then the first turn starts. */
    method StartGame()
      requires Valid() && phaseIndex == 0
      modifies this, human, cpu, cards
      ensures Valid()
      ensures Snap() == Turns.StartGame(old(Snap()))
    {
      if |human.hand| == 0 && |cpu.hand| == 0 {
        DealOpeningHands();
      }
      StartTurn();
    }

    /** The opening deal of `start_game`: five rounds, the human drawing first in each. */
    method DealOpeningHands()
      requires Valid()
      modifies human, cpu
      ensures Snap() == Dealt(old(Snap()), OpeningHand)
    {
      ghost var g := Snap();
      var i := 0;
      while i < OpeningHand
        invariant 0 <= i <= OpeningHand
        invariant Valid() && Snap() == Dealt(g, i)
      {
        DealtStep(g, i);
        var _ := human.DrawCard();
        var _ := cpu.DrawCard();
        i := i + 1;
      }
    }

    /** `advance_player_phase`. */
    method AdvancePlayerPhase(rolls: seq<nat>)
      requires Valid()
      modifies this, human, cpu, cards
      ensures Valid()
      ensures Snap() == AdvancePlayer(old(Snap()), rolls)
    {
      if automatic {
        return;
      }
      if PhaseAt(phaseIndex) == Main2 {
        phaseIndex := IndexOf(End);
        ExecutePhaseActions(rolls);
      } else {
        AdvancePhase(rolls);
      }
    }

    /** `update`, once per frame (the half-second pause is left out). */
    method Update(rolls: seq<nat>)
      requires Valid()
      modifies this, human, cpu, cards
      ensures Valid()
      ensures Snap() == Turns.Update(old(Snap()), rolls)
    {
      if automatic {
        if IsAutomatic(PhaseAt(phaseIndex)) {
          AdvancePhase(rolls);
        } else {
          automatic := false;
        }
      }
    }

    /** `_advance_phase`. */
    method AdvancePhase(rolls: seq<nat>)
      requires Valid()
      modifies this, human, cpu, cards
      ensures Valid()
      ensures Snap() == Advance(old(Snap()), rolls)
    {
      ghost var g := Snap();
      phaseIndex := phaseIndex + 1;
      assert Snap() == g.(phase := g.phase + 1);
      if phaseIndex >= PhaseCount {
        EndTurn();
      } else {
        ExecutePhaseActions(rolls);
        ghost var h := Snap();
        if !IsAutomatic(PhaseAt(phaseIndex)) {
          automatic := false;
          assert Snap() == h.(auto := false);
        }
        AdvanceSettles(g, rolls);
      }
    }

    /** `check_hand_size`. */
    method CheckHandSize()
      requires Valid()
      modifies this, human, cpu, cards
      ensures Valid()
      ensures Snap() == Turns.CheckHandSize(old(Snap()))
      decreases 1, 2
    {
      var p := CurrentPlayer();
      if subState == AwaitingDiscard && |p.hand| <= HandLimit {
        subState := NoSubState;
        EndTurn();
      }
    }

    /** `end_turn`; the phase cursor may be one past End when `_advance_phase` calls it. */
    method EndTurn()
      requires human != cpu && 0 <= turnIndex < 2
      modifies this, human, cpu, cards
      ensures Valid()
      ensures Snap() == Turns.EndTurn(old(Snap()))
      decreases 1, 1
    {
      phaseIndex := 0;
      turnIndex := (turnIndex + 1) % 2;
      if turnIndex == 0 {
        firstTurn := false;
      }
      StartTurn();
    }

    /** `start_turn`; every caller has just put the phase cursor on Restoration. */
    method StartTurn()
      requires Valid() && phaseIndex == 0
      modifies this, human, cpu, cards
      ensures Valid()
      ensures Snap() == Turns.StartTurn(old(Snap()))
      decreases 0, 6
    {
      var p := CurrentPlayer();
      p.hasChanneled := false;
      automatic := true;
      ExecutePhaseActions([]);
    }

    /** `execute_phase_actions`: only Restoration, Draw and End have a handler (the phase
        indicator it also shows is display only). */
    method ExecutePhaseActions(rolls: seq<nat>)
      requires Valid()
      modifies this, human, cpu, cards
      ensures Valid()
      ensures Snap() == Enter(old(Snap()), rolls)
      decreases if phaseIndex == 6 then 1 else 0, 5
    {
      match PhaseAt(phaseIndex)
      case Restoration => OnRestorationPhase();
      case Draw => OnDrawPhase();
      case End => OnEndPhase(rolls);
      case _ =>
    }

    /** `on_restoration_phase`. */
    method OnRestorationPhase()
      requires Valid()
      modifies cards
      ensures Snap() == Restored(old(Snap()))
    {
      var p := CurrentPlayer();
      p.ReadyAllCards(cards);
    }

    /** `on_draw_phase`. */
    method OnDrawPhase()
      requires Valid()
      modifies human, cpu
      ensures Snap() == DrawStep(old(Snap()))
    {
      if turnIndex == HumanIndex && firstTurn {
        return;
      }
      var p := CurrentPlayer();
      var _ := p.DrawCard();
    }

    /** `on_end_phase`. */
    method OnEndPhase(rolls: seq<nat>)
      requires Valid()
      modifies this, human, cpu, cards
      ensures Valid()
      ensures Snap() == EndStep(old(Snap()), rolls)
      decreases 1, 4
    {
      var p := CurrentPlayer();
      ghost var g := Snap();
      if |p.hand| > HandLimit {
        subState := AwaitingDiscard;
        assert Snap() == g.(sub := AwaitingDiscard);
        if p == cpu {
          assert EndStep(g, rolls) == CpuEndStep(g, rolls);
          HandleCpuDiscard(rolls);
        }
        return;
      }
      EndTurn();
    }

    /** `handle_cpu_discard`: the k-th discard removes the card at position
        `rolls[k] % |hand|`, the model of `random.choice`; then `check_hand_size`. */
    method HandleCpuDiscard(rolls: seq<nat>)
      requires Valid()
      modifies this, human, cpu, cards
      ensures Valid()
      ensures Snap()
              == Turns.CheckHandSize(WithCurrent(old(Snap()), CpuDiscarded(Current(old(Snap())), rolls, 0)))
      decreases 1, 3
    {
      var p := CurrentPlayer();
      var k := 0;
      while |p.hand| > HandLimit
        invariant Valid() && p == CurrentPlayer()
        invariant Snap() == WithCurrent(old(Snap()), p.Zones())
        invariant CpuDiscarded(p.Zones(), rolls, k) == CpuDiscarded(Current(old(Snap())), rolls, 0)
        decreases |p.hand|
      {
        CpuDiscardStep(p.Zones(), rolls, k);
        p.DiscardCard(p.hand[Roll(rolls, k) % |p.hand|]);
        k := k + 1;
      }
      CheckHandSize();
    }

    /** `to_dict`: loading what it saves changes nothing. */
    function ToDict(): (d: TurnDict)
      reads this, human, cpu, cards
      ensures LoadedTurn(Snap(), d) == Snap()
    {
      SavedTurn(Snap())
    }

    /** `from_dict`: the three saved cursors with their defaults. A saved index out of
        range leaves a manager that is no longer valid. */
    method FromDict(d: TurnDict)
      modifies this
      ensures Snap() == LoadedTurn(old(Snap()), d)
      ensures Valid() <==> human != cpu && 0 <= GetOr(d.turnIndex, 0) < 2
                           && 0 <= GetOr(d.phaseIndex, 0) < PhaseCount
    {
      turnIndex := GetOr(d.turnIndex, 0);
      phaseIndex := GetOr(d.phaseIndex, 0);
      firstTurn := GetOr(d.firstTurn, true);
    }
  }
}
