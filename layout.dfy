// Integer arithmetic of main.py: the deck sizing of `Game.start_new_game` and the card
// grid of `SoulBurialWindow` (hit-testing, content height and scrolling).

module Layout {
  import opened Cards

  // ---------------------------------------------------------------------------
  // Deck sizing.

  const DeckSize := 50

  /** Python's `s * m`: m copies of s one after the other. */
  function Repeated<T>(s: seq<T>, m: nat): (r: seq<T>)
    ensures |r| == |s| * m
    ensures forall p :: 0 <= p < |r| ==> r[p] == s[p % |s|]
  {
    if m == 0 then []
    else
      var t := Repeated(s, m - 1);
      OneMoreCopy(|s|, m);
      forall p | 0 <= p < |s| + |t|
        ensures (s + t)[p] == s[p % |s|]
      {
        if p < |s| {
          DivModUnique(p, |s|, 0, p);
        } else {
          ShiftMod(p, |s|);
        }
      }
      s + t
  }

  lemma OneMoreCopy(n: int, m: int)
    ensures n * m == n + n * (m - 1)
  {
  }

  /** Skipping one whole copy does not change the position inside a copy. */
  lemma ShiftMod(p: int, n: int)
    requires 0 < n <= p
    ensures (p - n) % n == p % n
  {
    var q := (p - n) / n;
    var r := (p - n) % n;
    assert p - n == q * n + r;
    assert p == (q + 1) * n + r;
    DivModUnique(p, n, q + 1, r);
  }

  /** Quotient and remainder are determined by `a == q * n + r` with `0 <= r < n`. */
  lemma DivModUnique(a: int, n: int, q: int, r: int)
    requires n > 0 && 0 <= r < n && a == q * n + r
    ensures a % n == r && a / n == q
  {
    var q' := a / n;
    var r' := a % n;
    assert a == q' * n + r';
    assert (q - q') * n == r' - r;
    if q > q' {
      MulAtLeast(q - q', n);
    } else if q < q' {
      MulAtLeast(q' - q, n);
    }
  }

  lemma MulAtLeast(x: int, n: int)
    requires x >= 1 && n > 0
    ensures x * n >= n
  {
  }

  /** `(ids * (50 // len(ids) + 1))[:50]`: the deck's ids cycle through the shuffled
      catalogue ids; the caller has returned already when the catalogue is empty. */
  function DeckIds(ids: seq<CardId>): (r: seq<CardId>)
    requires |ids| > 0
    ensures |r| == DeckSize
    ensures forall p :: 0 <= p < DeckSize ==> r[p] == ids[p % |ids|]
  {
    CopiesCoverDeck(|ids|);
    Repeated(ids, DeckSize / |ids| + 1)[..DeckSize]
  }

  /** 50 // n + 1 copies of n ids hold more than 50 ids. */
  lemma CopiesCoverDeck(n: int)
    requires n > 0
    ensures n * (DeckSize / n + 1) > DeckSize
  {
    var q := DeckSize / n;
    assert DeckSize == n * q + DeckSize % n;
    assert n * (q + 1) == n * q + n;
  }

  /** With at most fifty catalogue cards, every one of them is in each deck. */
  lemma SmallCatalogueFullyDealt(ids: seq<CardId>)
    requires 0 < |ids| <= DeckSize
    ensures forall id :: id in ids ==> id in DeckIds(ids)
  {
    var r := DeckIds(ids);
    forall id | id in ids
      ensures id in r
    {
      var k :| 0 <= k < |ids| && ids[k] == id;
      assert r[k] == ids[k % |ids|];
    }
  }

  /** With more than fifty catalogue cards, a deck is the first fifty shuffled ids. */
  lemma LargeCatalogueTruncated(ids: seq<CardId>)
    requires |ids| > DeckSize
    ensures DeckIds(ids) == ids[..DeckSize]
  {
    var r := DeckIds(ids);
    forall p | 0 <= p < DeckSize
      ensures r[p] == ids[p]
    {
      assert p % |ids| == p;
    }
  }

  // ---------------------------------------------------------------------------
  // The soul burial window: a 300-pixel wide window showing 80x120 cards with 10-pixel
  // spacing; the grid starts 50 pixels below the window's top and scrolls vertically.

  const WindowWidth := 300
  const WindowHeight := 600
  const CardWidth := 80
  const CardHeight := 120
  const CardSpacing := 10
  const GridTop := 50
  const ScrollStep := 25

  /** `cards_per_row`: (300 - 20) // 90. */
  function CardsPerRow(): (n: int)
    ensures n == 3
  {
    (WindowWidth - 20) / (CardWidth + CardSpacing)
  }

  /** `row_height`. */
  function RowHeight(): int {
    CardHeight + CardSpacing
  }

  /** Left edge of the k-th card as drawn: 10 + col * 90. */
  function CardLeft(k: nat): int {
    10 + (k % CardsPerRow()) * (CardWidth + CardSpacing)
  }

  /** Top edge of the k-th card as drawn: 50 - scroll + row * 130. */
  function CardTop(k: nat, scroll: int): int {
    GridTop - scroll + (k / CardsPerRow()) * RowHeight()
  }

  /** `_get_content_height`: rows needed for n cards times the row height, 0 for none. */
  function ContentHeight(n: nat): (h: int)
    ensures n == 0 ==> h == 0
    ensures n > 0 ==> h == ((n - 1) / CardsPerRow() + 1) * RowHeight()
  {
    if n == 0 then 0
    else (n + CardsPerRow() - 1) / CardsPerRow() * RowHeight()
  }

  /** The content is exactly tall enough: every card's row lies inside it, and the last
      card's row reaches its bottom. */
  lemma ContentHeightFits(n: nat)
    ensures forall k :: 0 <= k < n ==> (k / CardsPerRow() + 1) * RowHeight() <= ContentHeight(n)
    ensures n > 0 ==> ((n - 1) / CardsPerRow() + 1) * RowHeight() == ContentHeight(n)
  {
    forall k | 0 <= k < n
      ensures (k / CardsPerRow() + 1) * RowHeight() <= ContentHeight(n)
    {
      assert k / 3 <= (n - 1) / 3;
    }
  }

  /** Mouse wheel up: 25 pixels back, not above the top. */
  function ScrolledUp(scroll: int): (r: int)
    ensures 0 <= r && (r <= scroll || r == 0)
    ensures r > 0 ==> r == scroll - ScrollStep
  {
    if scroll - ScrollStep > 0 then scroll - ScrollStep else 0
  }

  /** Mouse wheel down: 25 pixels on, not past the content's end. */
  function ScrolledDown(scroll: int, n: nat): (r: int)
    ensures r <= MaxScroll(n)
    ensures r < MaxScroll(n) ==> r == scroll + ScrollStep
    ensures scroll <= MaxScroll(n) ==> scroll <= r
  {
    if scroll + ScrollStep < MaxScroll(n) then scroll + ScrollStep else MaxScroll(n)
  }

  /** `max_scroll`: how far the content reaches below the visible grid area. Scrolled that
      far, the content's bottom is the window's bottom; content that fits does not scroll. */
  function MaxScroll(n: nat): (m: int)
    ensures m >= 0 && ContentHeight(n) <= m + (WindowHeight - GridTop)
    ensures m > 0 ==> ContentHeight(n) == m + (WindowHeight - GridTop)
  {
    if ContentHeight(n) - (WindowHeight - GridTop) > 0 then ContentHeight(n) - (WindowHeight - GridTop) else 0
  }

  /** The scroll offset stays between 0 and the largest useful offset. */
  lemma ScrollStaysInRange(scroll: int, n: nat)
    requires 0 <= scroll <= MaxScroll(n)
    ensures 0 <= ScrolledUp(scroll) <= MaxScroll(n)
    ensures 0 <= ScrolledDown(scroll, n) <= MaxScroll(n)
    ensures ScrolledUp(ScrolledDown(scroll, n)) <= scroll
  {
  }

  /** The grid cell under a click below the title bar: row * 3 + col, with the row counted
      from the scrolled top of the grid and the column from the window's left edge. */
  function GridIndex(scroll: int, x: int, y: int): int {
    (y - GridTop + scroll) / RowHeight() * CardsPerRow() + x / (CardWidth + CardSpacing)
  }

  /** `_get_card_at_position` as written: the click's row and column in the grid give
      index row * 3 + col. Python's `//` floors; so does Dafny's `/` for a positive
      divisor. */
  function CardAtPositionAsWritten(cards: seq<Ref>, scroll: int, x: int, y: int): (r: Option<nat>)
    ensures r.Some? ==> r.value < |cards| && y >= GridTop
    ensures y >= GridTop && 0 <= GridIndex(scroll, x, y) < |cards| ==> r == Some(GridIndex(scroll, x, y))
  {
    if y < GridTop then None
    else
      var row := (y - GridTop + scroll) / RowHeight();
      var col := x / (CardWidth + CardSpacing);
      var k := row * CardsPerRow() + col;
      if 0 <= k < |cards| then Some(k) else None
  }

  /** A click in the right margin of the first row, with four cards, returns the fourth
      card, which is drawn at the start of the second row. */
  lemma RightMarginSelectsNextRow(cards: seq<Ref>)
    requires |cards| == 4
    ensures CardAtPositionAsWritten(cards, 0, 280, 60) == Some(3)
    ensures CardTop(3, 0) > 60 && CardLeft(3) + CardWidth < 280
  {
  }

  /** The corrected hit-test: a click right of the third column hits no card. */
  function CardAtPosition(cards: seq<Ref>, scroll: int, x: int, y: int): (r: Option<nat>)
    ensures r.Some? ==> r.value < |cards| && y >= GridTop
    ensures r.Some? ==> r.value % CardsPerRow() == x / (CardWidth + CardSpacing)
                        && r.value / CardsPerRow() == (y - GridTop + scroll) / RowHeight()
    ensures y >= GridTop && 0 <= x / (CardWidth + CardSpacing) < CardsPerRow()
            && 0 <= GridIndex(scroll, x, y) < |cards|
            ==> r == Some(GridIndex(scroll, x, y))
  {
    if y < GridTop then None
    else
      var row := (y - GridTop + scroll) / RowHeight();
      var col := x / (CardWidth + CardSpacing);
      if col < 0 || col >= CardsPerRow() then None
      else
        var k := row * CardsPerRow() + col;
        if 0 <= k < |cards| then Some(k) else None
  }

  /** The card found is the one whose drawn cell (the card plus the spacing after it,
      and the window's 10-pixel left margin for the first column) holds the click; and a
      click on a card as drawn, below the title bar, finds that card. */
  lemma CardAtPositionIsDrawnThere(cards: seq<Ref>, scroll: int, x: int, y: int)
    ensures CardAtPosition(cards, scroll, x, y).Some? ==>
      var k := CardAtPosition(cards, scroll, x, y).value;
      && CardLeft(k) - CardSpacing <= x < CardLeft(k) + CardWidth
      && CardTop(k, scroll) <= y < CardTop(k, scroll) + RowHeight()
    ensures forall k: nat ::
      && k < |cards| && y >= GridTop
      && CardLeft(k) <= x < CardLeft(k) + CardWidth
      && CardTop(k, scroll) <= y < CardTop(k, scroll) + CardHeight
      ==> CardAtPosition(cards, scroll, x, y) == Some(k)
  {
    forall k: nat | k < |cards| && y >= GridTop && CardLeft(k) <= x < CardLeft(k) + CardWidth
                    && CardTop(k, scroll) <= y < CardTop(k, scroll) + CardHeight
      ensures CardAtPosition(cards, scroll, x, y) == Some(k)
    {
      ClickOnDrawnCardFindsIt(cards, scroll, x, y, k);
    }
  }

  /** Both versions agree everywhere except right of the third column. */
  lemma CorrectionOnlyInMargin(cards: seq<Ref>, scroll: int, x: int, y: int)
    requires 0 <= x < 3 * (CardWidth + CardSpacing)
    ensures CardAtPosition(cards, scroll, x, y) == CardAtPositionAsWritten(cards, scroll, x, y)
  {
  }

  /** Conversely, a click inside a card as drawn, below the title bar, finds that card,
      in both versions. */
  lemma ClickOnDrawnCardFindsIt(cards: seq<Ref>, scroll: int, x: int, y: int, k: nat)
    requires k < |cards| && y >= GridTop
    requires CardLeft(k) <= x < CardLeft(k) + CardWidth
    requires CardTop(k, scroll) <= y < CardTop(k, scroll) + CardHeight
    ensures CardAtPosition(cards, scroll, x, y) == Some(k)
    ensures CardAtPositionAsWritten(cards, scroll, x, y) == Some(k)
  {
    DivModUnique(x, CardWidth + CardSpacing, k % 3, x - (k % 3) * (CardWidth + CardSpacing));
    DivModUnique(y - GridTop + scroll, RowHeight(), k / 3, y - CardTop(k, scroll));
  }
}
