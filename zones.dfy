// The zones one player owns, as a value, and the pure rules for moving cards
// between them (game_logic/player.py). The `Player` class applies these rules in place.

module Zones {
  import opened Cards
  import opened Lists

  const SlotCount := 5
  const StartingLife := 30

  datatype ZoneSet = ZoneSet(
    name: string,
    hand: seq<Ref>,
    deck: seq<Ref>,
    soulBurial: seq<Ref>,        // the graveyard
    characterZones: seq<Ref>,
    supportZones: seq<Ref>,
    fieldZone: Ref,
    reiryokuZone: seq<Ref>,      // channelled energy
    lifePoints: int,
    hasChanneled: bool)

  datatype ZoneKind = CharacterZone | SupportZone | FieldZone

  function EmptySlots(): (s: seq<Ref>)
    ensures |s| == SlotCount && forall k :: 0 <= k < |s| ==> s[k] == None
  {
    [None, None, None, None, None]
  }

  /** The zones of a newly built player. */
  function NewZones(name: string): ZoneSet {
    ZoneSet(name, [], [], [], EmptySlots(), EmptySlots(), None, [], StartingLife, false)
  }

  /** Every zone and the life points agree; only the channel flag may differ. */
  predicate SameZones(a: ZoneSet, b: ZoneSet) {
    && a.name == b.name && a.hand == b.hand && a.deck == b.deck && a.soulBurial == b.soulBurial
    && a.characterZones == b.characterZones && a.supportZones == b.supportZones
    && a.fieldZone == b.fieldZone && a.reiryokuZone == b.reiryokuZone && a.lifePoints == b.lifePoints
  }

  /** The character, support and field slots agree. */
  predicate SameBoard(a: ZoneSet, b: ZoneSet) {
    a.characterZones == b.characterZones && a.supportZones == b.supportZones && a.fieldZone == b.fieldZone
  }

  /** Name, life points and channel flag agree. */
  predicate SameStatus(a: ZoneSet, b: ZoneSet) {
    a.name == b.name && a.lifePoints == b.lifePoints && a.hasChanneled == b.hasChanneled
  }

  /** Every card the player holds, wherever it is; empty slots and placeholders do not count. */
  function Holdings(z: ZoneSet): multiset<Ref> {
    Entries(z)[None := 0]
  }

  /** Every list entry and slot of the player, empty ones included. */
  function Entries(z: ZoneSet): multiset<Ref> {
    ListEntries(z) + SlotEntries(z)
  }

  function ListEntries(z: ZoneSet): multiset<Ref> {
    multiset(z.hand) + multiset(z.deck) + multiset(z.soulBurial) + multiset(z.reiryokuZone)
  }

  function SlotEntries(z: ZoneSet): multiset<Ref> {
    multiset(z.characterZones) + multiset(z.supportZones) + multiset{z.fieldZone}
  }

  /** `draw_card`: the front card of the deck goes to the end of the hand and is returned;
      an empty deck returns None and changes nothing. */
  function Drawn(z: ZoneSet): (r: (ZoneSet, Ref))
    ensures |r.0.hand| + |r.0.deck| == |z.hand| + |z.deck|
    ensures |z.deck| > 0 ==> r.0.hand == z.hand + [z.deck[0]] && r.0.deck == z.deck[1..] && r.1 == z.deck[0]
    ensures |z.deck| == 0 ==> r.0 == z && r.1 == None
    ensures SameBoard(r.0, z) && SameStatus(r.0, z)
    ensures r.0.soulBurial == z.soulBurial && r.0.reiryokuZone == z.reiryokuZone
  {
    if |z.deck| > 0 then
      assert z.deck == [z.deck[0]] + z.deck[1..];
      (z.(hand := z.hand + [z.deck[0]], deck := z.deck[1..]), z.deck[0])
    else (z, None)
  }

  /** A draw moves a card from the deck to the hand: the player holds the same cards. */
  lemma DrawnKeepsCards(z: ZoneSet)
    ensures Holdings(Drawn(z).0) == Holdings(z)
  {
    if |z.deck| > 0 {
      var r := Drawn(z).0;
      assert z.deck == [z.deck[0]] + z.deck[1..];
      assert multiset(r.hand) + multiset(r.deck) == multiset(z.hand) + multiset(z.deck);
      assert ListEntries(r) == ListEntries(z);
      assert SlotEntries(r) == SlotEntries(z);
    }
  }

  /** `discard_card`: a card in hand loses its first occurrence there and is appended to
      the soul burial; a card not in hand changes nothing. */
  function Discarded(z: ZoneSet, c: Ref): (r: ZoneSet)
    ensures c in z.hand ==> |r.hand| == |z.hand| - 1 && r.soulBurial == z.soulBurial + [c]
    ensures multiset(r.hand) == multiset(z.hand) - multiset{c}
    ensures r.hand == RemoveFirst(z.hand, c)
    ensures c !in z.hand ==> r == z
    ensures SameBoard(r, z) && SameStatus(r, z) && r.deck == z.deck && r.reiryokuZone == z.reiryokuZone
  {
    if c in z.hand then z.(hand := RemoveFirst(z.hand, c), soulBurial := z.soulBurial + [c])
    else z
  }

  /** A discard moves a card from the hand to the soul burial: the player holds the same
      cards. */
  lemma DiscardedKeepsCards(z: ZoneSet, c: Ref)
    ensures Holdings(Discarded(z, c)) == Holdings(z)
  {
    if c in z.hand {
      var r := Discarded(z, c);
      CardMoved(z.hand, z.soulBurial, c);
      assert ListEntries(r) == ListEntries(z);
      assert SlotEntries(r) == SlotEntries(z);
    }
  }

  /** The slot a zone kind and index name exists (`field` ignores the index). */
  predicate SlotExists(z: ZoneSet, kind: ZoneKind, i: nat) {
    match kind
    case CharacterZone => i < |z.characterZones|
    case SupportZone => i < |z.supportZones|
    case FieldZone => true
  }

  function SlotAt(z: ZoneSet, kind: ZoneKind, i: nat): Ref
    requires SlotExists(z, kind, i)
  {
    match kind
    case CharacterZone => z.characterZones[i]
    case SupportZone => z.supportZones[i]
    case FieldZone => z.fieldZone
  }

  /** `play_card_to_zone`: the card moves from hand into the named slot when it is in
      hand and the slot is empty; otherwise nothing changes. No type check here. No other
      slot is touched, and the hand either stays or loses the card's first occurrence. */
  function Played(z: ZoneSet, c: Ref, kind: ZoneKind, i: nat): (r: ZoneSet)
    requires c in z.hand ==> SlotExists(z, kind, i)
    ensures SameStatus(r, z) && r.deck == z.deck && r.soulBurial == z.soulBurial
            && r.reiryokuZone == z.reiryokuZone
    ensures |r.characterZones| == |z.characterZones| && |r.supportZones| == |z.supportZones|
    ensures r.hand == z.hand || r.hand == RemoveFirst(z.hand, c)
    ensures forall k: ZoneKind, j: nat :: SlotExists(z, k, j) && !SameSlot(k, j, kind, i) ==>
              SlotExists(r, k, j) && SlotAt(r, k, j) == SlotAt(z, k, j)
  {
    if c in z.hand then
      match kind
      case CharacterZone =>
        if z.characterZones[i] == None
        then z.(characterZones := z.characterZones[i := c], hand := RemoveFirst(z.hand, c))
        else z
      case SupportZone =>
        if z.supportZones[i] == None
        then z.(supportZones := z.supportZones[i := c], hand := RemoveFirst(z.hand, c))
        else z
      case FieldZone =>
        if z.fieldZone == None then z.(fieldZone := c, hand := RemoveFirst(z.hand, c)) else z
    else z
  }

  /** Slot (k, j) is the slot (kind, i) names; the field slot has one index only. */
  predicate SameSlot(k: ZoneKind, j: nat, kind: ZoneKind, i: nat) {
    k == kind && (k == FieldZone || j == i)
  }

  /** A card in hand played to an empty slot fills that slot and leaves the hand as
      `list.remove` takes it (its first occurrence, the rest in order); every other slot of
      every kind keeps its card, and the other lists, the name, the life points and the
      channel flag stay. In every other case nothing changes. */
  lemma PlayedMovesCard(z: ZoneSet, c: Ref, kind: ZoneKind, i: nat)
    requires c in z.hand ==> SlotExists(z, kind, i)
    ensures var r := Played(z, c, kind, i);
      && (c in z.hand && SlotAt(z, kind, i) == None ==>
            && SlotExists(r, kind, i) && SlotAt(r, kind, i) == c
            && r.hand == RemoveFirst(z.hand, c)
            && |r.hand| == |z.hand| - 1 && multiset(r.hand) == multiset(z.hand) - multiset{c}
            && (forall k: ZoneKind, j: nat :: SlotExists(z, k, j) ==>
                  && SlotExists(r, k, j)
                  && SlotAt(r, k, j) == (if SameSlot(k, j, kind, i) then c else SlotAt(z, k, j))))
      && (!(c in z.hand && SlotAt(z, kind, i) == None) ==> r == z)
  {
  }

  /** Playing a card moves it from the hand to a slot: the player holds the same cards. */
  lemma PlayedKeepsCards(z: ZoneSet, c: Ref, kind: ZoneKind, i: nat)
    requires c in z.hand ==> SlotExists(z, kind, i)
    ensures Holdings(Played(z, c, kind, i)) == Holdings(z)
  {
    var r := Played(z, c, kind, i);
    PlayedMovesCard(z, c, kind, i);
    if c in z.hand && SlotAt(z, kind, i) == None {
      FillSlotEntries(z, r, c, kind, i);
      FillConserves(z, r, c);
    }
  }

  /** Filling an empty slot swaps one None entry for the card. */
  lemma FillSlot(s: seq<Ref>, i: nat, c: Ref)
    requires i < |s| && s[i] == None
    ensures multiset(s[i := c]) + multiset{None} == multiset(s) + multiset{c}
  {
    assert s == s[..i] + [s[i]] + s[i + 1..];
    assert s[i := c] == s[..i] + [c] + s[i + 1..];
  }

  lemma FillSlotEntries(z: ZoneSet, r: ZoneSet, c: Ref, kind: ZoneKind, i: nat)
    requires SlotExists(z, kind, i) && SlotAt(z, kind, i) == None
    requires r.characterZones == (if kind == CharacterZone then z.characterZones[i := c] else z.characterZones)
    requires r.supportZones == (if kind == SupportZone then z.supportZones[i := c] else z.supportZones)
    requires r.fieldZone == (if kind == FieldZone then c else z.fieldZone)
    ensures SlotEntries(r) + multiset{None} == SlotEntries(z) + multiset{c}
  {
    match kind
    case CharacterZone => FillSlot(z.characterZones, i, c);
    case SupportZone => FillSlot(z.supportZones, i, c);
    case FieldZone =>
  }

  /** A card that leaves the hand for an empty slot: one None entry disappears, which
      Holdings does not see. */
  lemma FillConserves(z: ZoneSet, r: ZoneSet, c: Ref)
    requires c in z.hand && r.hand == RemoveFirst(z.hand, c)
    requires r.deck == z.deck && r.soulBurial == z.soulBurial && r.reiryokuZone == z.reiryokuZone
    requires SlotEntries(r) + multiset{None} == SlotEntries(z) + multiset{c}
    ensures Holdings(r) == Holdings(z)
  {
    HandLosesCard(z, r, c);
    SwapCardForNone(z, r, c);
    NoneIsInvisible(z, r);
  }

  lemma HandLosesCard(z: ZoneSet, r: ZoneSet, c: Ref)
    requires c in z.hand && r.hand == RemoveFirst(z.hand, c)
    requires r.deck == z.deck && r.soulBurial == z.soulBurial && r.reiryokuZone == z.reiryokuZone
    ensures ListEntries(r) + multiset{c} == ListEntries(z)
  {
    assert multiset(r.hand) + multiset{c} == multiset(z.hand);
  }

  lemma SwapCardForNone(z: ZoneSet, r: ZoneSet, c: Ref)
    requires ListEntries(r) + multiset{c} == ListEntries(z)
    requires SlotEntries(r) + multiset{None} == SlotEntries(z) + multiset{c}
    ensures Entries(r) + multiset{None} == Entries(z)
  {
    forall x ensures (Entries(r) + multiset{None})[x] == Entries(z)[x] {
      assert (ListEntries(r) + multiset{c})[x] == ListEntries(z)[x];
      assert (SlotEntries(r) + multiset{None})[x] == (SlotEntries(z) + multiset{c})[x];
    }
  }

  lemma NoneIsInvisible(z: ZoneSet, r: ZoneSet)
    requires Entries(r) + multiset{None} == Entries(z)
    ensures Holdings(r) == Holdings(z)
  {
    forall x ensures Holdings(r)[x] == Holdings(z)[x] {
    }
  }

  /** `channel_reiryoku`: succeeds exactly when the card is in hand and the player has
      not channelled yet; the card then moves to the end of the reiryoku zone and the
      once-per-turn flag is set. A failure changes nothing. */
  function Channeled(z: ZoneSet, c: Ref): (r: (ZoneSet, bool))
    ensures r.1 <==> c in z.hand && !z.hasChanneled
    ensures r.1 ==> r.0.reiryokuZone == z.reiryokuZone + [c] && r.0.hasChanneled
                    && r.0.hand == RemoveFirst(z.hand, c)
    ensures !r.1 ==> r.0 == z
    ensures SameBoard(r.0, z) && r.0.name == z.name && r.0.lifePoints == z.lifePoints
    ensures r.0.deck == z.deck && r.0.soulBurial == z.soulBurial
  {
    if c in z.hand && !z.hasChanneled then
      (z.(hand := RemoveFirst(z.hand, c), reiryokuZone := z.reiryokuZone + [c], hasChanneled := true), true)
    else (z, false)
  }

  /** Channelling moves a card from the hand to the reiryoku zone: the player holds the
      same cards. */
  lemma ChanneledKeepsCards(z: ZoneSet, c: Ref)
    ensures Holdings(Channeled(z, c).0) == Holdings(z)
  {
    if c in z.hand && !z.hasChanneled {
      var r := Channeled(z, c).0;
      CardMoved(z.hand, z.reiryokuZone, c);
      assert ListEntries(r) == ListEntries(z);
      assert SlotEntries(r) == SlotEntries(z);
    }
  }

  /** A card that leaves a list for the end of another: both together hold the same. */
  lemma CardMoved(from: seq<Ref>, to: seq<Ref>, c: Ref)
    requires c in from
    ensures multiset(RemoveFirst(from, c)) + multiset(to + [c]) == multiset(from) + multiset(to)
  {
    assert c in multiset(from);
  }

  /** A second channel in the same turn fails and changes nothing. */
  lemma ChannelOncePerTurn(z: ZoneSet, c: Ref, d: Ref)
    requires Channeled(z, c).1
    ensures Channeled(Channeled(z, c).0, d) == (Channeled(z, c).0, false)
  {
  }

  const EnergyKinds: set<char> := {'N', 'W', 'B', 'U', 'G'}

  /** `get_energy_pool`: one neutral energy per card in the reiryoku zone; no colour
      has a source yet. */
  function EnergyPool(z: ZoneSet): (pool: map<char, int>)
    ensures pool.Keys == EnergyKinds
    ensures pool['N'] == |z.reiryokuZone|
    ensures forall k :: k in pool && k != 'N' ==> pool[k] == 0
  {
    map['N' := |z.reiryokuZone|, 'W' := 0, 'B' := 0, 'U' := 0, 'G' := 0]
  }

  /** Channelling is the only move that changes the pool, by exactly one neutral energy. */
  lemma ChannelAddsOneNeutral(z: ZoneSet, c: Ref)
    ensures EnergyPool(Channeled(z, c).0)['N'] == EnergyPool(z)['N'] + (if Channeled(z, c).1 then 1 else 0)
    ensures EnergyPool(Drawn(z).0) == EnergyPool(z)
    ensures EnergyPool(Discarded(z, c)) == EnergyPool(z)
  {
  }

  /** Ids of the cards a list of entries holds. */
  function IdsOf(s: seq<Ref>): set<CardId> {
    set r | r in s && r.Some? :: r.value.id
  }

  /** Ids of the cards occupying a character, support or field slot. */
  function OnBoard(z: ZoneSet): set<CardId> {
    IdsOf(z.characterZones) + IdsOf(z.supportZones) + IdsOf([z.fieldZone])
  }

  // ---------------------------------------------------------------------------
  // Saving and loading (`to_dict` / `from_dict`).

  /** A saved player. An absent key is None; in an id list, None stands for null. */
  datatype PlayerDict = PlayerDict(
    name: Option<string>,
    lifePoints: Option<int>,
    hand: Option<seq<Option<CardId>>>,
    deck: Option<seq<Option<CardId>>>,
    soulBurial: Option<seq<Option<CardId>>>,
    characterZones: Option<seq<Option<CardId>>>,
    supportZones: Option<seq<Option<CardId>>>,
    fieldZone: Option<CardId>,           // absent or null
    reiryokuZone: Option<seq<Option<CardId>>>,
    hasChanneled: Option<bool>)

  /** Every entry of the four card lists is a card (saving a placeholder raises). */
  predicate NoPlaceholders(z: ZoneSet) {
    forall r :: r in z.hand + z.deck + z.soulBurial + z.reiryokuZone ==> r.Some?
  }

  function ListIds(s: seq<Ref>): (ids: seq<Option<CardId>>)
    requires forall r :: r in s ==> r.Some?
    ensures |ids| == |s|
    ensures forall k :: 0 <= k < |s| ==> ids[k] == SlotId(s[k])
  {
    if s == [] then [] else [Some(s[0].value.id)] + ListIds(s[1..])
  }

  function SlotIds(s: seq<Ref>): (ids: seq<Option<CardId>>)
    ensures |ids| == |s|
    ensures forall k :: 0 <= k < |s| ==> ids[k] == SlotId(s[k])
  {
    if s == [] then [] else [SlotId(s[0])] + SlotIds(s[1..])
  }

  function SlotId(r: Ref): Option<CardId> {
    if r.Some? then Some(r.value.id) else None
  }

  /** A saved list holds one entry per list entry: the card's id, or null for an empty slot. */
  predicate SavesIds(ids: Option<seq<Option<CardId>>>, s: seq<Ref>) {
    ids.Some? && |ids.value| == |s| && forall k :: 0 <= k < |s| ==> ids.value[k] == SlotId(s[k])
  }

  /** `to_dict`: every key is written; each card list becomes the list of its cards' ids
      in order, each slot list keeps null for an empty slot, and the field slot is saved as
      its card's id or null. */
  function Saved(z: ZoneSet): (d: PlayerDict)
    requires NoPlaceholders(z)
    ensures d.name == Some(z.name) && d.lifePoints == Some(z.lifePoints) && d.hasChanneled == Some(z.hasChanneled)
    ensures SavesIds(d.hand, z.hand) && SavesIds(d.deck, z.deck) && SavesIds(d.soulBurial, z.soulBurial)
    ensures SavesIds(d.reiryokuZone, z.reiryokuZone)
    ensures SavesIds(d.characterZones, z.characterZones) && SavesIds(d.supportZones, z.supportZones)
    ensures d.fieldZone == SlotId(z.fieldZone)
  {
    PlayerDict(Some(z.name), Some(z.lifePoints),
               Some(ListIds(z.hand)), Some(ListIds(z.deck)), Some(ListIds(z.soulBurial)),
               Some(SlotIds(z.characterZones)), Some(SlotIds(z.supportZones)),
               SlotId(z.fieldZone),
               Some(ListIds(z.reiryokuZone)), Some(z.hasChanneled))
  }

  /** The entry is empty or one of the catalogue's cards. */
  predicate InCatalogue(cat: Catalogue, r: Ref) {
    r.Some? ==> r.value in cat.Values
  }

  /** Every entry of the list is empty or one of the catalogue's cards. */
  predicate AllInCatalogue(cat: Catalogue, s: seq<Ref>) {
    forall c :: c in s ==> InCatalogue(cat, c)
  }

  /** `all_cards_map.get(cid)`: the card, or None for an id the catalogue lacks. */
  function Lookup(cat: Catalogue, id: Option<CardId>): Ref {
    if id.Some? && id.value in cat then Some(cat[id.value]) else None
  }

  /** Python truthiness of a saved id: null and "" are false. */
  predicate Truthy(id: Option<CardId>) {
    id.Some? && id.value != ""
  }

  /** The truthy ids of a saved list, in order. */
  function Kept(ids: seq<Option<CardId>>): seq<Option<CardId>> {
    if ids == [] then [] else (if Truthy(ids[0]) then [ids[0]] else []) + Kept(ids[1..])
  }

  /** A saved card list comes back as the catalogue lookup of each truthy id, in order:
      an unknown id becomes a None entry, null and "" are dropped. */
  function ResolveList(ids: seq<Option<CardId>>, cat: Catalogue): (r: seq<Ref>)
    ensures |r| == |Kept(ids)|
    ensures forall k :: 0 <= k < |r| ==> r[k] == Lookup(cat, Kept(ids)[k])
    ensures AllInCatalogue(cat, r)
  {
    if ids == [] then []
    else if Truthy(ids[0]) then [Lookup(cat, ids[0])] + ResolveList(ids[1..], cat)
    else ResolveList(ids[1..], cat)
  }

  /** A saved slot list comes back slot by slot; no id is dropped, an unknown one empties its slot. */
  function ResolveSlots(ids: seq<Option<CardId>>, cat: Catalogue): (r: seq<Ref>)
    ensures |r| == |ids|
    ensures forall k :: 0 <= k < |r| ==> r[k] == Lookup(cat, ids[k])
    ensures AllInCatalogue(cat, r)
  {
    if ids == [] then [] else [Lookup(cat, ids[0])] + ResolveSlots(ids[1..], cat)
  }

  function GetOr<T>(o: Option<T>, default: T): T {
    if o.Some? then o.value else default
  }

  /** `from_dict`: every card comes from the catalogue (an unknown id leaves a None entry);
      an absent key gives a new player's value: no cards in a list, five empty slots, an
      empty field slot, the name "Player", the starting life and no channel this turn. A
      saved slot list keeps its length. */
  function Loaded(d: PlayerDict, cat: Catalogue): (r: ZoneSet)
    ensures AllInCatalogue(cat, r.hand) && AllInCatalogue(cat, r.deck)
    ensures AllInCatalogue(cat, r.soulBurial) && AllInCatalogue(cat, r.reiryokuZone)
    ensures AllInCatalogue(cat, r.characterZones) && AllInCatalogue(cat, r.supportZones)
    ensures InCatalogue(cat, r.fieldZone)
    ensures d.hand.None? ==> r.hand == []
    ensures d.deck.None? ==> r.deck == []
    ensures d.soulBurial.None? ==> r.soulBurial == []
    ensures d.reiryokuZone.None? ==> r.reiryokuZone == []
    ensures d.characterZones.None? ==> r.characterZones == EmptySlots()
    ensures d.supportZones.None? ==> r.supportZones == EmptySlots()
    ensures d.characterZones.Some? ==> |r.characterZones| == |d.characterZones.value|
    ensures d.supportZones.Some? ==> |r.supportZones| == |d.supportZones.value|
    ensures !Truthy(d.fieldZone) ==> r.fieldZone == None
    ensures d.name.None? ==> r.name == "Player"
    ensures d.lifePoints.None? ==> r.lifePoints == StartingLife
    ensures d.hasChanneled.None? ==> !r.hasChanneled
  {
    var noSlots := [None, None, None, None, None];
    ZoneSet(
      GetOr(d.name, "Player"),
      ResolveList(GetOr(d.hand, []), cat),
      ResolveList(GetOr(d.deck, []), cat),
      ResolveList(GetOr(d.soulBurial, []), cat),
      ResolveSlots(GetOr(d.characterZones, noSlots), cat),
      ResolveSlots(GetOr(d.supportZones, noSlots), cat),
      if Truthy(d.fieldZone) then Lookup(cat, d.fieldZone) else None,
      ResolveList(GetOr(d.reiryokuZone, []), cat),
      GetOr(d.lifePoints, StartingLife),
      GetOr(d.hasChanneled, false))
  }

  /** Loading a save with no keys at all gives a brand-new player named "Player". */
  lemma EmptySaveLoadsNewPlayer(cat: Catalogue)
    ensures Loaded(PlayerDict(None, None, None, None, None, None, None, None, None, None), cat)
            == NewZones("Player")
  {
  }

  /** The catalogue gives back the very card saved under its id, and that id is truthy. */
  predicate Resolves(cat: Catalogue, r: Ref) {
    r.Some? ==> r.value.id != "" && r.value.id in cat && cat[r.value.id] == r.value
  }

  predicate Catalogued(z: ZoneSet, cat: Catalogue) {
    && NoPlaceholders(z)
    && (forall r :: r in z.hand + z.deck + z.soulBurial + z.reiryokuZone ==> Resolves(cat, r))
    && (forall r :: r in z.characterZones + z.supportZones ==> Resolves(cat, r))
    && Resolves(cat, z.fieldZone)
  }

  lemma {:induction false} ListRoundTrip(s: seq<Ref>, cat: Catalogue)
    requires forall r :: r in s ==> r.Some? && Resolves(cat, r)
    ensures ResolveList(ListIds(s), cat) == s
  {
    if s != [] {
      ListRoundTrip(s[1..], cat);
      var ids := ListIds(s);
      assert ids == [Some(s[0].value.id)] + ListIds(s[1..]);
      assert ids[1..] == ListIds(s[1..]) && Truthy(ids[0]);
      assert ResolveList(ids, cat) == [Lookup(cat, ids[0])] + ResolveList(ids[1..], cat);
      assert s == [s[0]] + s[1..];
    }
  }

  lemma {:induction false} SlotRoundTrip(s: seq<Ref>, cat: Catalogue)
    requires forall r :: r in s ==> Resolves(cat, r)
    ensures ResolveSlots(SlotIds(s), cat) == s
  {
    if s != [] {
      SlotRoundTrip(s[1..], cat);
      var ids := SlotIds(s);
      assert ids == [SlotId(s[0])] + SlotIds(s[1..]);
      assert ids[1..] == SlotIds(s[1..]);
      assert Resolves(cat, s[0]);
      assert Lookup(cat, ids[0]) == s[0];
      assert ResolveSlots(ids, cat) == [s[0]] + ResolveSlots(ids[1..], cat);
      assert s == [s[0]] + s[1..];
    }
  }

  /** Saving and loading with a catalogue that knows every card reproduces every zone,
      the name, the life points and the channel flag. */
  lemma SaveLoadRoundTrip(z: ZoneSet, cat: Catalogue)
    requires Catalogued(z, cat)
    ensures Loaded(Saved(z), cat) == z
  {
    forall s | s in [z.hand, z.deck, z.soulBurial, z.reiryokuZone]
      ensures ResolveList(ListIds(s), cat) == s
    {
      ListRoundTrip(s, cat);
    }
    SlotRoundTrip(z.characterZones, cat);
    SlotRoundTrip(z.supportZones, cat);
  }
}
