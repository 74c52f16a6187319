// Cards as the game logic sees them: an id, a type, and a shared exhausted flag.
// Python lists are modelled as sequences; `list.remove` is `RemoveFirst`.

module Cards {

  datatype Option<T> = None | Some(value: T)

  type CardId = string

  /** A catalogue card: its "id" and its "type" entry ("" when the entry is absent;
      neither matches any of the type names the rules test for). */
  datatype Card = Card(id: CardId, cardType: string)

  /** What a list entry or a slot holds: a card, or None (an empty slot, or the
      placeholder that loading leaves for an id the catalogue does not know). */
  type Ref = Option<Card>

  /** The catalogue maps each id to the one card object built for it. */
  type Catalogue = map<CardId, Card>

  /** One card object exists per catalogue id and both players' decks are built from
      the same objects, so the exhausted flag is state of the catalogue, kept per id. */
  class CardStates {
    var exhausted: set<CardId>

    constructor ()
      ensures exhausted == {}
    {
      exhausted := {};
    }
  }
}

module Lists {

  /** Position of the first occurrence of `x` in `s` (Python's `list.index`). */
  function FirstIndex<T(==)>(s: seq<T>, x: T): (i: nat)
    requires x in s
    ensures i < |s| && s[i] == x && x !in s[..i]
  {
    if s[0] == x then 0
    else
      var j := FirstIndex(s[1..], x);
      assert s[..j + 1] == [s[0]] + s[1..][..j];
      j + 1
  }

  /** Python's `list.remove(x)`: drops the first occurrence of `x`; the list is
      unchanged when `x` is absent. One copy of `x` goes, nothing else. */
  function RemoveFirst<T(==)>(s: seq<T>, x: T): (r: seq<T>)
    ensures x in s ==> |r| == |s| - 1
    ensures x !in s ==> r == s
    ensures multiset(r) == multiset(s) - multiset{x}
    ensures x in s ==> r == s[..FirstIndex(s, x)] + s[FirstIndex(s, x) + 1..]
  {
    if x in s then
      var i := FirstIndex(s, x);
      assert s == s[..i] + [s[i]] + s[i + 1..];
      s[..i] + s[i + 1..]
    else s
  }

}
