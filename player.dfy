// The `Player` object of game_logic/player.py: its zones are fields updated in place,
// and every method is proved to leave the zones the pure rule of module Zones gives.

module Players {
  import opened Cards
  import opened Lists
  import opened Zones

  class Player {
    var name: string
    var hand: seq<Ref>
    var deck: seq<Ref>
    var soulBurial: seq<Ref>
    var characterZones: seq<Ref>
    var supportZones: seq<Ref>
    var fieldZone: Ref
    var reiryokuZone: seq<Ref>
    var lifePoints: int
    var hasChanneled: bool

    /** The player's zones as a value. */
    function Zones(): ZoneSet
      reads this
    {
      ZoneSet(name, hand, deck, soulBurial, characterZones, supportZones, fieldZone,
              reiryokuZone, lifePoints, hasChanneled)
    }

    constructor (name: string)
      ensures Zones() == NewZones(name)
    {
      this.name := name;
      hand := [];
      deck := [];
      soulBurial := [];
      characterZones := [None, None, None, None, None];
      supportZones := [None, None, None, None, None];
      fieldZone := None;
      lifePoints := StartingLife;
      reiryokuZone := [];
      hasChanneled := false;
    }

    /** Overwrites the zones with a value (used to state what the methods do). */
    method SetZones(z: ZoneSet)
      modifies this
      ensures Zones() == z
    {
      name, hand, deck, soulBurial := z.name, z.hand, z.deck, z.soulBurial;
      characterZones, supportZones, fieldZone := z.characterZones, z.supportZones, z.fieldZone;
      reiryokuZone, lifePoints, hasChanneled := z.reiryokuZone, z.lifePoints, z.hasChanneled;
    }

    /** `create_deck`: the deck becomes the given cards in shuffled order; `shuffled` is the
        order the shuffle produced. */
    method CreateDeck(cards: seq<Ref>, shuffled: seq<Ref>)
      requires multiset(shuffled) == multiset(cards)
      modifies this
      ensures Zones() == old(Zones()).(deck := shuffled)
      ensures multiset(deck) == multiset(cards)
    {
      deck := shuffled;
    }

    /** `draw_card`. */
    method DrawCard() returns (card: Ref)
      modifies this
      ensures (Zones(), card) == Drawn(old(Zones()))
    {
      if |deck| > 0 {
        card := deck[0];
        deck, hand := deck[1..], hand + [card];
      } else {
        card := None;
      }
    }

    /** `discard_card`. */
    method DiscardCard(card: Ref)
      modifies this
      ensures Zones() == Discarded(old(Zones()), card)
    {
      if card in hand {
        hand, soulBurial := RemoveFirst(hand, card), soulBurial + [card];
      }
    }

    /** `play_card_to_zone`; the slot index must exist whenever the card is in hand. */
    method PlayCardToZone(card: Ref, kind: ZoneKind, index: nat)
      requires card in hand ==> SlotExists(Zones(), kind, index)
      modifies this
      ensures Zones() == Played(old(Zones()), card, kind, index)
    {
      if card in hand {
        match kind
        case CharacterZone =>
          if characterZones[index] == None {
            characterZones, hand := characterZones[index := card], RemoveFirst(hand, card);
          }
        case SupportZone =>
          if supportZones[index] == None {
            supportZones, hand := supportZones[index := card], RemoveFirst(hand, card);
          }
        case FieldZone =>
          if fieldZone == None {
            fieldZone, hand := card, RemoveFirst(hand, card);
          }
      }
    }

    /** `channel_reiryoku`. */
    method ChannelReiryoku(card: Ref) returns (ok: bool)
      modifies this
      ensures (Zones(), ok) == Channeled(old(Zones()), card)
    {
      if card in hand && !hasChanneled {
        hand, reiryokuZone, hasChanneled := RemoveFirst(hand, card), reiryokuZone + [card], true;
        return true;
      }
      return false;
    }

    /** `ready_all_cards`: clears the exhausted flag of every card in a character, support
        or field slot, one slot at a time; the zones themselves do not change. */
    method ReadyAllCards(states: CardStates)
      modifies states
      ensures states.exhausted == old(states.exhausted) - OnBoard(Zones())
    {
      var i := 0;
      while i < |characterZones|
        invariant i <= |characterZones|
        invariant states.exhausted == old(states.exhausted) - IdsOf(characterZones[..i])
      {
        ReadyOne(characterZones, i);
        if characterZones[i].Some? {
          states.exhausted := states.exhausted - {characterZones[i].value.id};
        }
        i := i + 1;
      }
      assert characterZones[..i] == characterZones;
      var j := 0;
      while j < |supportZones|
        invariant j <= |supportZones|
        invariant states.exhausted
                  == old(states.exhausted) - IdsOf(characterZones) - IdsOf(supportZones[..j])
      {
        ReadyOne(supportZones, j);
        if supportZones[j].Some? {
          states.exhausted := states.exhausted - {supportZones[j].value.id};
        }
        j := j + 1;
      }
      assert supportZones[..j] == supportZones;
      if fieldZone.Some? {
        states.exhausted := states.exhausted - {fieldZone.value.id};
      }
      assert IdsOf([fieldZone]) == if fieldZone.Some? then {fieldZone.value.id} else {};
    }

    /** `from_dict`: every zone is rebuilt from the saved ids through the catalogue. */
    method FromDict(d: PlayerDict, cat: Catalogue)
      modifies this
      ensures Zones() == Loaded(d, cat)
    {
      var z := Loaded(d, cat);
      SetZones(z);
    }
  }

  /** One more slot adds exactly that slot's card, if any, to the ids seen so far. */
  lemma ReadyOne(s: seq<Ref>, i: nat)
    requires i < |s|
    ensures IdsOf(s[..i + 1]) == IdsOf(s[..i]) + (if s[i].Some? then {s[i].value.id} else {})
  {
    assert s[..i + 1] == s[..i] + [s[i]];
  }
}
