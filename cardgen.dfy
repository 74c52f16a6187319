// The card-data transforms of the card editor (card_generator.py, of which
// cards/card_generator.py is an identical copy): the cost-string parser that fills
// `energy_icons`, the rule that picks a card's default background, the bold-tag toggle of
// the rules-text field and the coercion of the tier field. A card's data is a JSON object,
// modelled as a map from keys to values.

module CardGen {
  import opened Cards

  /** A JSON value as the editor stores it in a card: text, an integer, the energy-count
      object, or anything else. */
  datatype Value = Str(s: string) | Num(n: int) | Icons(counts: map<char, nat>) | OtherValue

  type CardData = map<string, Value>

  /** `dict.get(key)`. */
  function Lookup(d: CardData, key: string): Option<Value> {
    if key in d then Some(d[key]) else None
  }

  // ---------------------------------------------------------------------------
  // Characters (ASCII; Python's `isdigit`, `isalpha` and `upper` also know other scripts).

  predicate IsDigit(c: char) {
    '0' <= c <= '9'
  }

  predicate IsAlpha(c: char) {
    'a' <= c <= 'z' || 'A' <= c <= 'Z'
  }

  function Upper(c: char): char {
    if 'a' <= c <= 'z' then (c as int - 32) as char else c
  }

  /** `''.join(filter(str.isdigit, s))`. */
  function Digits(s: string): (r: string)
    ensures forall k :: 0 <= k < |r| ==> IsDigit(r[k])
    ensures |r| > 0 <==> exists k :: 0 <= k < |s| && IsDigit(s[k])
  {
    if s == [] then []
    else if IsDigit(s[0]) then [s[0]] + Digits(s[1..])
    else
      assert forall k :: 1 <= k < |s| ==> s[k] == s[1..][k - 1];
      Digits(s[1..])
  }

  /** `''.join(filter(str.isalpha, s))`. */
  function Letters(s: string): (r: string)
    ensures forall k :: 0 <= k < |r| ==> IsAlpha(r[k])
  {
    if s == [] then []
    else if IsAlpha(s[0]) then [s[0]] + Letters(s[1..])
    else Letters(s[1..])
  }

  /** Python's `int` of a string of decimal digits: the digits read in order, most
      significant first (leading zeros allowed). */
  function DecimalValue(ds: string): nat {
    if ds == [] then 0
    else DecimalValue(ds[..|ds| - 1]) * 10 + DigitValue(ds[|ds| - 1])
  }

  function DigitValue(c: char): nat {
    if IsDigit(c) then c as int - '0' as int else 0
  }

  /** Python's `str(n)` for a natural number: its decimal digits without leading zeros. */
  function DecimalString(n: nat): (r: string)
    ensures |r| > 0 && forall k :: 0 <= k < |r| ==> IsDigit(r[k])
    ensures |r| > 1 ==> r[0] != '0'
  {
    if n < 10 then [('0' as int + n) as char]
    else DecimalString(n / 10) + [('0' as int + n % 10) as char]
  }

  /** `int(str(n)) == n`. */
  lemma {:induction false} DecimalRoundTrip(n: nat)
    ensures DecimalValue(DecimalString(n)) == n
  {
    var r := DecimalString(n);
    if n >= 10 {
      DecimalRoundTrip(n / 10);
      assert r[..|r| - 1] == DecimalString(n / 10);
    }
  }

  /** Appending digits shifts the value left: `int(a + b) == int(a) * 10**len(b) + int(b)`. */
  lemma {:induction false} DecimalConcat(a: string, b: string)
    ensures DecimalValue(a + b) == DecimalValue(a) * Pow10(|b|) + DecimalValue(b)
    decreases |b|
  {
    if b == [] {
      assert a + b == a;
    } else {
      var b' := b[..|b| - 1];
      var ab := a + b;
      assert ab[..|ab| - 1] == a + b' && ab[|ab| - 1] == b[|b| - 1];
      DecimalConcat(a, b');
      var x, p, y, d := DecimalValue(a), Pow10(|b'|), DecimalValue(b'), DigitValue(b[|b| - 1]);
      assert DecimalValue(ab) == DecimalValue(a + b') * 10 + d;
      assert DecimalValue(b) == y * 10 + d;
      assert Pow10(|b|) == p * 10;
      ShiftDigit(x, p, y, d);
    }
  }

  lemma ShiftDigit(x: int, p: int, y: int, d: int)
    ensures (x * p + y) * 10 + d == x * (p * 10) + (y * 10 + d)
  {
  }

  function Pow10(k: nat): nat {
    if k == 0 then 1 else Pow10(k - 1) * 10
  }

  // ---------------------------------------------------------------------------
  // `_update_all_energies`: the cost parser.

  /** The energy colours `ENERGY_MAPPING` knows: White, Black, Blue, Gray. */
  const Colours: set<char> := {'W', 'B', 'U', 'G'}

  /** The key of the generic (number) cost. */
  const Generic := 'N'

  /** How many characters of `s` upper-case to `x`. */
  function CountUpper(s: string, x: char): nat {
    if s == [] then 0
    else CountUpper(s[..|s| - 1], x) + (if Upper(s[|s| - 1]) == x then 1 else 0)
  }

  /** Whether a cost string gives the energy key `k`: N for a cost with a digit, a colour
      for a cost with that letter in either case. */
  predicate HasIcon(cost: string, k: char) {
    if k == Generic then |Digits(cost)| > 0 else k in Colours && CountUpper(cost, k) > 0
  }

  /** The `energy_icons` object of a cost string: N is the number that all the digits of
      the cost form in order; each colour letter, in either case, counts once; every other
      character is ignored. */
  function EnergyIcons(cost: string): (r: map<char, nat>)
    ensures forall k :: k in r <==> HasIcon(cost, k)
    ensures Generic in r ==> r[Generic] == DecimalValue(Digits(cost))
    ensures forall k :: k in r && k in Colours ==> r[k] == CountUpper(cost, k)
  {
    map k | k in Colours + {Generic} && HasIcon(cost, k)
          :: if k == Generic then DecimalValue(Digits(cost)) else CountUpper(cost, k)
  }

  /** The keys of an energy object are among N, W, B, U and G, and none counts zero
      colour letters. */
  lemma EnergyKeys(cost: string)
    ensures EnergyIcons(cost).Keys <= {'N', 'W', 'B', 'U', 'G'}
    ensures forall k :: k in EnergyIcons(cost) && k in Colours ==> EnergyIcons(cost)[k] > 0
  {
  }

  /** Filtering out the non-letters changes no colour count. */
  lemma {:induction false} LettersKeepColours(s: string, x: char)
    requires x in Colours
    ensures CountUpper(Letters(s), x) == CountUpper(s, x)
  {
    if s != [] {
      LettersKeepColours(s[1..], x);
      CountFirst(s, x);
      if IsAlpha(s[0]) {
        CountFirst(Letters(s), x);
        assert Letters(s)[1..] == Letters(s[1..]);
      }
    }
  }

  /** CountUpper read from the front. */
  lemma {:induction false} CountFirst(s: string, x: char)
    requires s != []
    ensures CountUpper(s, x) == (if Upper(s[0]) == x then 1 else 0) + CountUpper(s[1..], x)
    decreases |s|
  {
    if |s| > 1 {
      CountFirst(s[..|s| - 1], x);
      assert s[..|s| - 1][1..] == s[1..][..|s[1..]| - 1];
    }
  }

  /** Digits anywhere in a cost join into one number, and colour counts add up: the
      energy object of a cost is determined by those of its two halves. */
  lemma CostConcat(c1: string, c2: string)
    ensures var r := EnergyIcons(c1 + c2);
      && (Generic in r <==> Generic in EnergyIcons(c1) || Generic in EnergyIcons(c2))
      && (Generic in r ==> r[Generic] == DecimalValue(Digits(c1)) * Pow10(|Digits(c2)|) + DecimalValue(Digits(c2)))
      && forall k :: k in Colours ==> CountUpper(c1 + c2, k) == CountUpper(c1, k) + CountUpper(c2, k)
  {
    DigitsConcat(c1, c2);
    DecimalConcat(Digits(c1), Digits(c2));
    forall k | k in Colours
      ensures CountUpper(c1 + c2, k) == CountUpper(c1, k) + CountUpper(c2, k)
    {
      CountConcat(c1, c2, k);
    }
  }

  /** An example: a cost with digits on both sides of a colour. "1W2" costs twelve generic
      energy and one white, because all the digits are joined before `int`. */
  lemma SplitDigitsJoin()
    ensures EnergyIcons("1W2") == map['N' := 12, 'W' := 1]
  {
    assert Digits("1W2") == "12";
    assert DecimalValue("12") == 12 by {
      assert "12"[..1] == "1";
    }
    assert "1W2"[..2] == "1W" && "1W2"[..1] == "1";
    forall k | k in Colours
      ensures CountUpper("1W2", k) == (if k == 'W' then 1 else 0)
    {
      assert CountUpper("1", k) == 0;
    }
  }

  lemma {:induction false} DigitsConcat(a: string, b: string)
    ensures Digits(a + b) == Digits(a) + Digits(b)
  {
    if a == [] {
      assert a + b == b;
    } else {
      assert (a + b)[1..] == a[1..] + b;
      DigitsConcat(a[1..], b);
    }
  }

  lemma {:induction false} CountConcat(a: string, b: string, x: char)
    ensures CountUpper(a + b, x) == CountUpper(a, x) + CountUpper(b, x)
    decreases |b|
  {
    if b == [] {
      assert a + b == a;
    } else {
      var b' := b[..|b| - 1];
      assert (a + b)[..|a + b| - 1] == a + b';
      CountConcat(a, b', x);
    }
  }

  /** The cost parser of `_update_all_energies` for one card: the digits and the letters
      are filtered out, the digits read as one number, and the letters counted one by one. */
  method ParseCost(cost: string) returns (icons: map<char, nat>)
    ensures icons == EnergyIcons(cost)
  {
    var generic := Digits(cost);
    var specific := Letters(cost);
    icons := map[];
    if |generic| > 0 {
      icons := icons[Generic := DecimalValue(generic)];
    }
    var i := 0;
    while i < |specific|
      invariant 0 <= i <= |specific|
      invariant Generic in icons <==> |generic| > 0
      invariant Generic in icons ==> icons[Generic] == DecimalValue(generic)
      invariant forall k :: k in icons ==> k == Generic || k in Colours
      invariant forall k :: k in Colours ==> (k in icons <==> CountUpper(specific[..i], k) > 0)
      invariant forall k :: k in Colours && k in icons ==> icons[k] == CountUpper(specific[..i], k)
    {
      assert specific[..i + 1][..i] == specific[..i];
      var c := Upper(specific[i]);
      assert forall k :: CountUpper(specific[..i + 1], k) == CountUpper(specific[..i], k) + (if c == k then 1 else 0);
      if c in Colours {
        icons := icons[c := (if c in icons then icons[c] else 0) + 1];
      }
      i := i + 1;
    }
    assert specific[..i] == specific;
    TallyIsEnergyIcons(cost, icons);
  }

  /** A map holding N as the parser reads it and the colour counts of the cost's letters
      is the cost's energy object. */
  lemma TallyIsEnergyIcons(cost: string, icons: map<char, nat>)
    requires Generic in icons <==> |Digits(cost)| > 0
    requires Generic in icons ==> icons[Generic] == DecimalValue(Digits(cost))
    requires forall k :: k in icons ==> k == Generic || k in Colours
    requires forall k :: k in Colours ==> (k in icons <==> CountUpper(Letters(cost), k) > 0)
    requires forall k :: k in Colours && k in icons ==> icons[k] == CountUpper(Letters(cost), k)
    ensures icons == EnergyIcons(cost)
  {
    forall k | k in Colours
      ensures CountUpper(Letters(cost), k) == CountUpper(cost, k)
    {
      LettersKeepColours(cost, k);
    }
  }

  /** The cost a card's `get("cost", "")` yields; it must be text for the filters. */
  predicate CostIsText(d: CardData) {
    "cost" in d ==> d["cost"].Str?
  }

  function CostOf(d: CardData): string
    requires CostIsText(d)
  {
    if "cost" in d then d["cost"].s else ""
  }

  /** One card after `_update_all_energies`. */
  function WithEnergies(d: CardData): (r: CardData)
    requires CostIsText(d)
    ensures r.Keys == d.Keys + {"energy_icons"} && r["energy_icons"] == Icons(EnergyIcons(CostOf(d)))
    ensures forall key :: key in d && key != "energy_icons" ==> r[key] == d[key]
  {
    d["energy_icons" := Icons(EnergyIcons(CostOf(d)))]
  }

  /** Updating the energies twice is updating them once: the cost is never touched. */
  lemma EnergiesIdempotent(d: CardData)
    requires CostIsText(d)
    ensures CostIsText(WithEnergies(d)) && WithEnergies(WithEnergies(d)) == WithEnergies(d)
  {
    assert CostOf(WithEnergies(d)) == CostOf(d);
  }

  // ---------------------------------------------------------------------------
  // `_update_all_card_backgrounds`: the default background of a card.

  /** `BACKGROUND_MAPPING`: faction backgrounds (Hollows share the Arrancar one) and type
      backgrounds. */
  const BackgroundMapping: map<string, string> := map[
    "Soul Reaper" := "SR_BG.png",
    "Arrancar" := "AR_BG.png",
    "Hollow" := "AR_BG.png",
    "Quincy" := "QN_BG.png",
    "Human" := "HM_BG.png",
    "Technique" := "T_BG.png",
    "Equipment" := "E_BG.png",
    "Field" := "F_BG.png"]

  /** Whether a card's entry is a name the mapping knows. */
  predicate Mapped(v: Option<Value>) {
    v.Some? && v.value.Str? && v.value.s in BackgroundMapping
  }

  /** The file name chosen for a card: by its type when the mapping knows the type, else
      by its faction, else none. */
  function BackgroundFile(d: CardData): (r: Option<string>)
    ensures r.Some? <==> Mapped(Lookup(d, "type")) || Mapped(Lookup(d, "faction"))
    ensures r.Some? ==> r.value in BackgroundMapping.Values
  {
    var t := Lookup(d, "type");
    var f := Lookup(d, "faction");
    if Mapped(t) then Some(BackgroundMapping[t.value.s])
    else if Mapped(f) then Some(BackgroundMapping[f.value.s])
    else None
  }

  /** A known type decides the background whatever the faction. */
  lemma TypeBeatsFaction(d: CardData, faction: Value)
    requires Mapped(Lookup(d, "type"))
    ensures BackgroundFile(d["faction" := faction]) == BackgroundFile(d)
    ensures BackgroundFile(d) == Some(BackgroundMapping[d["type"].s])
  {
    assert Lookup(d["faction" := faction], "type") == Lookup(d, "type");
  }

  /** Without a known type, a known faction decides. */
  lemma FactionFallback(d: CardData)
    requires !Mapped(Lookup(d, "type")) && Mapped(Lookup(d, "faction"))
    ensures BackgroundFile(d) == Some(BackgroundMapping[d["faction"].s])
  {
  }

  /** `os.path.join(dir, file)` on POSIX, for a relative file name. */
  function Join(dir: string, file: string): (p: string)
    ensures |p| >= |file| && p[|p| - |file|..] == file
  {
    if dir == [] || dir[|dir| - 1] == '/' then dir + file else dir + "/" + file
  }

  /** The background path a card would get, when a file is chosen. */
  function BackgroundPath(d: CardData, dir: string): Option<string> {
    match BackgroundFile(d)
    case Some(file) => Some(Join(dir, file))
    case None => None
  }

  /** Whether the card's chosen background file exists among `existing`. */
  predicate Updates(d: CardData, dir: string, existing: set<string>) {
    BackgroundPath(d, dir).Some? && BackgroundPath(d, dir).value in existing
  }

  /** One card after `_update_all_card_backgrounds`: the path is set only when the chosen
      file exists; otherwise the card is left alone. */
  function WithBackground(d: CardData, dir: string, existing: set<string>): (r: CardData)
    ensures Updates(d, dir, existing) ==> r == d["card_background_path" := Str(BackgroundPath(d, dir).value)]
    ensures !Updates(d, dir, existing) ==> r == d
  {
    if Updates(d, dir, existing) then d["card_background_path" := Str(BackgroundPath(d, dir).value)] else d
  }

  /** Setting the backgrounds twice is setting them once. */
  lemma BackgroundsIdempotent(d: CardData, dir: string, existing: set<string>)
    ensures WithBackground(WithBackground(d, dir, existing), dir, existing) == WithBackground(d, dir, existing)
  {
    var r := WithBackground(d, dir, existing);
    assert Lookup(r, "type") == Lookup(d, "type") && Lookup(r, "faction") == Lookup(d, "faction");
  }

  /** `updated_count` over the first cards: how many of them had their path set. */
  function UpdatedCount(cs: seq<CardData>, dir: string, existing: set<string>): (n: nat)
    ensures n <= |cs|
    ensures n == 0 <==> forall k :: 0 <= k < |cs| ==> !Updates(cs[k], dir, existing)
  {
    if cs == [] then 0
    else UpdatedCount(cs[..|cs| - 1], dir, existing) + (if Updates(cs[|cs| - 1], dir, existing) then 1 else 0)
  }

  /** The positions of the cards whose path is set. */
  function UpdatedAt(cs: seq<CardData>, dir: string, existing: set<string>): set<nat> {
    set k: nat | k < |cs| && Updates(cs[k], dir, existing)
  }

  /** The count is exactly the number of cards whose path is set. */
  lemma {:induction false} UpdatedCountIsCardinality(cs: seq<CardData>, dir: string, existing: set<string>)
    ensures UpdatedCount(cs, dir, existing) == |UpdatedAt(cs, dir, existing)|
  {
    if cs != [] {
      var n := |cs| - 1;
      UpdatedCountIsCardinality(cs[..n], dir, existing);
      UpdatedAtStep(cs, dir, existing);
    }
  }

  /** The last card adds its own position or nothing. */
  lemma UpdatedAtStep(cs: seq<CardData>, dir: string, existing: set<string>)
    requires cs != []
    ensures var n := |cs| - 1;
      UpdatedAt(cs, dir, existing)
      == UpdatedAt(cs[..n], dir, existing) + (if Updates(cs[n], dir, existing) then {n} else {})
      && n !in UpdatedAt(cs[..n], dir, existing)
  {
    var n := |cs| - 1;
    forall k: nat
      ensures k in UpdatedAt(cs, dir, existing)
              <==> k in UpdatedAt(cs[..n], dir, existing) + (if Updates(cs[n], dir, existing) then {n} else {})
    {
      if k < n {
        assert cs[..n][k] == cs[k];
      }
    }
  }

  // ---------------------------------------------------------------------------
  // The editor's list of cards, updated in place.

  class CardEditor {
    /** `cards_data`: the loaded JSON list. */
    var cardsData: seq<CardData>
    /** `BACKGROUND_DIR`, which depends on where the script lives. */
    const backgroundDir: string

    constructor (cardsData: seq<CardData>, backgroundDir: string)
      ensures this.cardsData == cardsData && this.backgroundDir == backgroundDir
    {
      this.cardsData := cardsData;
      this.backgroundDir := backgroundDir;
    }

    /** `_update_all_energies`: with no cards only a warning is shown; otherwise every
        card's `energy_icons` is replaced by the parse of its cost and nothing else of any
        card changes. */
    method UpdateAllEnergies() returns (warned: bool)
      requires forall k :: 0 <= k < |cardsData| ==> CostIsText(cardsData[k])
      modifies this
      ensures warned <==> |old(cardsData)| == 0
      ensures |cardsData| == |old(cardsData)|
      ensures forall k :: 0 <= k < |cardsData| ==> cardsData[k] == WithEnergies(old(cardsData)[k])
    {
      if |cardsData| == 0 {
        return true;
      }
      var i := 0;
      while i < |cardsData|
        invariant 0 <= i <= |cardsData| == |old(cardsData)|
        invariant forall k :: 0 <= k < i ==> cardsData[k] == WithEnergies(old(cardsData)[k])
        invariant forall k :: i <= k < |cardsData| ==> cardsData[k] == old(cardsData)[k]
      {
        var cardData := cardsData[i];
        var cost := if "cost" in cardData then cardData["cost"].s else "";
        var energyIcons := ParseCost(cost);
        cardsData := cardsData[i := cardData["energy_icons" := Icons(energyIcons)]];
        i := i + 1;
      }
      return false;
    }

    /** The body of `_update_all_card_backgrounds`' loop for one card: the type's
        background if the mapping knows the type, else the faction's; the path is set when
        the file exists. */
    method DefaultBackground(cardData: CardData, existing: set<string>) returns (r: CardData, updated: bool)
      ensures r == WithBackground(cardData, backgroundDir, existing)
      ensures updated <==> Updates(cardData, backgroundDir, existing)
    {
      r := cardData;
      updated := false;
      var cardType := Lookup(cardData, "type");
      var cardFaction := Lookup(cardData, "faction");
      var bgFilename: Option<string> := None;
      if Mapped(cardType) {
        bgFilename := Some(BackgroundMapping[cardType.value.s]);
      } else if Mapped(cardFaction) {
        bgFilename := Some(BackgroundMapping[cardFaction.value.s]);
      }
      if bgFilename.Some? {
        var bgPath := Join(backgroundDir, bgFilename.value);
        if bgPath in existing {
          r := cardData["card_background_path" := Str(bgPath)];
          updated := true;
        }
      }
    }

    /** `_update_all_card_backgrounds`: `existing` is the set of paths that exist on disk.
        Each card whose chosen background file exists gets its path set; the result counts
        those cards. */
    method UpdateAllCardBackgrounds(existing: set<string>) returns (warned: bool, updatedCount: nat)
      modifies this
      ensures warned <==> |old(cardsData)| == 0
      ensures |cardsData| == |old(cardsData)|
      ensures forall k :: 0 <= k < |cardsData| ==>
                cardsData[k] == WithBackground(old(cardsData)[k], backgroundDir, existing)
      ensures updatedCount == |UpdatedAt(old(cardsData), backgroundDir, existing)|
    {
      if |cardsData| == 0 {
        return true, 0;
      }
      updatedCount := 0;
      var i := 0;
      while i < |cardsData|
        invariant 0 <= i <= |cardsData| == |old(cardsData)|
        invariant forall k :: 0 <= k < i ==> cardsData[k] == WithBackground(old(cardsData)[k], backgroundDir, existing)
        invariant forall k :: i <= k < |cardsData| ==> cardsData[k] == old(cardsData)[k]
        invariant updatedCount == UpdatedCount(old(cardsData)[..i], backgroundDir, existing)
      {
        assert old(cardsData)[..i + 1][..i] == old(cardsData)[..i];
        var cardData, updated := DefaultBackground(cardsData[i], existing);
        cardsData := cardsData[i := cardData];
        if updated {
          updatedCount := updatedCount + 1;
        }
        i := i + 1;
      }
      assert old(cardsData)[..i] == old(cardsData);
      UpdatedCountIsCardinality(old(cardsData), backgroundDir, existing);
      return false, updatedCount;
    }
  }

  // ---------------------------------------------------------------------------
  // `_toggle_bold`: the selected text gains or loses the bold tags.

  predicate StartsWith(s: string, p: string) {
    |p| <= |s| && s[..|p|] == p
  }

  predicate EndsWith(s: string, p: string) {
    |p| <= |s| && s[|s| - |p|..] == p
  }

  /** `re.sub(r'</?b>', '', s)`: one left-to-right pass that drops each `<b>` and `</b>` it
      meets; a tag that only forms once another is removed stays. */
  function StripTags(s: string): (r: string)
    ensures |r| <= |s|
  {
    if s == [] then []
    else if StartsWith(s, "<b>") then StripTags(s[3..])
    else if StartsWith(s, "</b>") then StripTags(s[4..])
    else [s[0]] + StripTags(s[1..])
  }

  /** A single pass: removing the inner tag of `<<b>b>` forms a new `<b>`, which stays. */
  lemma StripIsOnePass()
    ensures StripTags("<<b>b>") == "<b>"
  {
    assert StripTags("b>") == "b>";
    assert StripTags("<b>b>") == "b>";
    assert StripTags("<<b>b>") == ['<'] + StripTags("<b>b>");
  }

  /** Text in which no bold tag starts anywhere. */
  predicate TagFree(s: string) {
    forall k :: 0 <= k <= |s| ==> !StartsWith(s[k..], "<b>") && !StartsWith(s[k..], "</b>")
  }

  /** A text that starts with `<b>` and ends with `</b>` has at least seven characters:
      the two tags cannot overlap. */
  lemma WrappedIsLong(s: string)
    requires StartsWith(s, "<b>") && EndsWith(s, "</b>")
    ensures |s| >= 7
  {
    assert s[0] == '<' && s[1] == 'b' && s[2] == '>';
    var n := |s|;
    assert s[n - 4] == '<' && s[n - 3] == '/' && s[n - 2] == 'b' && s[n - 1] == '>';
  }

  /** `_toggle_bold` on the selected text: a selection wrapped in the bold tags loses
      exactly those outer tags; any other selection loses every bold tag met in one
      left-to-right pass and is wrapped. */
  function Toggled(s: string): (r: string)
    ensures StartsWith(s, "<b>") && EndsWith(s, "</b>") ==> s == "<b>" + r + "</b>"
    ensures !(StartsWith(s, "<b>") && EndsWith(s, "</b>")) ==> r == "<b>" + StripTags(s) + "</b>"
  {
    if StartsWith(s, "<b>") && EndsWith(s, "</b>") then
      WrappedIsLong(s);
      assert s == s[..3] + s[3..|s| - 4] + s[|s| - 4..];
      s[3..|s| - 4]
    else "<b>" + StripTags(s) + "</b>"
  }

  /** Stripping changes nothing in tag-free text. */
  lemma {:induction false} StripTagFree(s: string)
    requires TagFree(s)
    ensures StripTags(s) == s
  {
    if s != [] {
      assert !StartsWith(s[0..], "<b>") && !StartsWith(s[0..], "</b>");
      assert s[0..] == s;
      assert TagFree(s[1..]) by {
        forall k | 0 <= k <= |s[1..]|
          ensures !StartsWith(s[1..][k..], "<b>") && !StartsWith(s[1..][k..], "</b>")
        {
          assert s[1..][k..] == s[k + 1..];
        }
      }
      StripTagFree(s[1..]);
    }
  }

  /** Toggling tag-free text makes it bold, and toggling again gives it back. */
  lemma ToggleTwice(s: string)
    requires TagFree(s)
    ensures Toggled(s) == "<b>" + s + "</b>"
    ensures Toggled(Toggled(s)) == s
  {
    assert !StartsWith(s[0..], "<b>");
    assert s[0..] == s;
    StripTagFree(s);
    var w := "<b>" + s + "</b>";
    assert w[..3] == "<b>" && w[|w| - 4..] == "</b>";
    assert "<b>" + Toggled(w) + "</b>" == w;
  }

  /** Toggling bold text removes the outer tags, and toggling again restores it when what
      they enclosed is tag-free. */
  lemma UntoggleTwice(s: string)
    requires TagFree(s)
    ensures Toggled("<b>" + s + "</b>") == s
    ensures Toggled(Toggled("<b>" + s + "</b>")) == "<b>" + s + "</b>"
  {
    var w := "<b>" + s + "</b>";
    assert w[..3] == "<b>" && w[|w| - 4..] == "</b>";
    assert "<b>" + Toggled(w) + "</b>" == w;
    ToggleTwice(s);
  }

  // ---------------------------------------------------------------------------
  // Tier coercion in `_collect_data_from_fields`.

  /** `s.isdigit()`: non-empty and every character a digit. */
  predicate AllDigits(s: string) {
    |s| > 0 && forall k :: 0 <= k < |s| ==> IsDigit(s[k])
  }

  /** A `tier` given as a string of digits becomes that number; anything else, and an
      absent tier, is kept as it is. */
  function CoercedTier(d: CardData): (r: CardData)
    ensures r.Keys == d.Keys
    ensures forall key :: key in d && key != "tier" ==> r[key] == d[key]
    ensures "tier" in d && d["tier"].Str? && AllDigits(d["tier"].s) <==> "tier" in r && r["tier"].Num? && r != d
    ensures "tier" in d && d["tier"].Str? && AllDigits(d["tier"].s) ==> r["tier"] == Num(DecimalValue(d["tier"].s))
  {
    match Lookup(d, "tier")
    case Some(Str(t)) => if AllDigits(t) then d["tier" := Num(DecimalValue(t))] else d
    case _ => d
  }

  /** Coercing twice is coercing once. */
  lemma CoercionIdempotent(d: CardData)
    ensures CoercedTier(CoercedTier(d)) == CoercedTier(d)
  {
  }

  /** A tier typed as the decimal form of n is stored as n. */
  lemma TierRoundTrip(d: CardData, n: nat)
    ensures CoercedTier(d["tier" := Str(DecimalString(n))]) == d["tier" := Num(n)]
  {
    DecimalRoundTrip(n);
  }

  /** A leading zero is dropped: a tier typed as "0" followed by the decimal form of n
      is stored as n, as `int("07") == 7`. */
  lemma {:induction false} LeadingZeroTier(d: CardData, n: nat)
    ensures CoercedTier(d["tier" := Str("0" + DecimalString(n))]) == d["tier" := Num(n)]
  {
    var t := "0" + DecimalString(n);
    LeadingZeroValue(n);
    var r := CoercedTier(d["tier" := Str(t)]);
    assert r.Keys == d.Keys + {"tier"} && r["tier"] == Num(n);
  }

  /** "0" followed by the decimal form of n is a string of digits whose value is n. */
  lemma {:induction false} LeadingZeroValue(n: nat)
    ensures AllDigits("0" + DecimalString(n)) && DecimalValue("0" + DecimalString(n)) == n
  {
    DecimalConcat("0", DecimalString(n));
    assert DecimalValue("0") == 0 by {
      assert "0"[..0] == [];
    }
    DecimalRoundTrip(n);
  }
}
