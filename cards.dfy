/**
 * Cards and the deck (aws_porker/card.py).
 *
 * A card is a value: its image path, icon file name, rank, suit, the service
 * name and category read from the catalog. The deck is an object whose card
 * list is dealt from the front, extended at the back and shuffled in place.
 */
module Cards {
  import opened Text

  /** The 13 ranks, in the evaluator's RANK_ORDER: A has position 0 and K position 12. */
  datatype Rank = Ace | Two | Three | Four | Five | Six | Seven | Eight | Nine | Ten | Jack | Queen | King

  /** RANK_VALUES: the position of a rank in RANK_ORDER. */
  function Ordinal(r: Rank): (n: nat)
    ensures n < 13
  {
    match r
    case Ace => 0
    case Two => 1
    case Three => 2
    case Four => 3
    case Five => 4
    case Six => 5
    case Seven => 6
    case Eight => 7
    case Nine => 8
    case Ten => 9
    case Jack => 10
    case Queen => 11
    case King => 12
  }

  /** RANK_ORDER[n]: the rank at position n, the inverse of `Ordinal`. */
  function RankAt(n: nat): (r: Rank)
    requires n < 13
    ensures Ordinal(r) == n
  {
    if n == 0 then Ace
    else if n == 1 then Two
    else if n == 2 then Three
    else if n == 3 then Four
    else if n == 4 then Five
    else if n == 5 then Six
    else if n == 6 then Seven
    else if n == 7 then Eight
    else if n == 8 then Nine
    else if n == 9 then Ten
    else if n == 10 then Jack
    else if n == 11 then Queen
    else King
  }

  /** `RankAt` undoes `Ordinal`, so two ranks with the same position are the same rank. */
  lemma RankAtOrdinal(r: Rank)
    ensures RankAt(Ordinal(r)) == r
  {
  }

  /** The rank as the catalog writes it. */
  function RankName(r: Rank): string
  {
    match r
    case Ace => "A"
    case Two => "2"
    case Three => "3"
    case Four => "4"
    case Five => "5"
    case Six => "6"
    case Seven => "7"
    case Eight => "8"
    case Nine => "9"
    case Ten => "10"
    case Jack => "J"
    case Queen => "Q"
    case King => "K"
  }

  /**
   * The seven colour suits, and any other suit string a catalog might hold
   * (every table lookup on suits falls back to its default for those).
   */
  datatype Suit = Red | Blue | Green | Orange | Purple | Yellow | Gray | Other(name: string)

  function SuitName(s: Suit): string
  {
    match s
    case Red => "Red"
    case Blue => "Blue"
    case Green => "Green"
    case Orange => "Orange"
    case Purple => "Purple"
    case Yellow => "Yellow"
    case Gray => "Gray"
    case Other(name) => name
  }

  /** The seven colour names, as the catalog spells them. */
  const ColourNames: seq<string> := ["Red", "Blue", "Green", "Orange", "Purple", "Yellow", "Gray"]

  /** A suit as read from a catalog string: a colour's own name is always that colour, never `Other`. */
  predicate Canonical(s: Suit)
  {
    s.Other? ==> s.name !in ColourNames
  }

  /** The suit a catalog string stands for. */
  function ParseSuit(name: string): (s: Suit)
    ensures SuitName(s) == name && Canonical(s)
  {
    if name == "Red" then Red
    else if name == "Blue" then Blue
    else if name == "Green" then Green
    else if name == "Orange" then Orange
    else if name == "Purple" then Purple
    else if name == "Yellow" then Yellow
    else if name == "Gray" then Gray
    else Other(name)
  }

  /** Canonical suits and their names correspond one to one. */
  lemma ParseSuitName(s: Suit)
    requires Canonical(s)
    ensures ParseSuit(SuitName(s)) == s
  {
  }

  /** A card; `serviceName` and `category` are empty when the catalog gave none. */
  datatype Card = Card(path: string, filename: string, rank: Rank, suit: Suit, serviceName: string, category: string)

  /**
   * Card.get_service_name: the catalog's service name if there is one, else one
   * derived from the icon file name, which then holds neither '-' nor '_'.
   */
  function GetServiceName(c: Card): (r: string)
    ensures c.serviceName != "" ==> r == c.serviceName
    ensures c.serviceName == "" ==> '-' !in r && '_' !in r
  {
    if c.serviceName != "" then c.serviceName
    else
      var stripped := Replace(Replace(c.filename, "Arch_", ""), "_48.png", "");
      var spaced := Replace(stripped, "-", " ");
      ReplaceCharRemovesIt(stripped, '-', ' ');
      ReplaceKeepsAbsent(spaced, "_", " ", '-');
      ReplaceCharRemovesIt(spaced, '_', ' ');
      Replace(spaced, "_", " ")
  }

  /** The service name an icon stem spells: every '-' and '_' read as a space. */
  function Spaced(stem: string): (r: string)
    ensures |r| == |stem|
  {
    seq(|stem|, i requires 0 <= i < |stem| => if stem[i] == '-' || stem[i] == '_' then ' ' else stem[i])
  }

  /**
   * The documented case of the fallback: a card without a catalog name whose
   * file is "Arch_" + stem + "_48.png" is named after the stem, each '-' and
   * '_' read as a space, as long as the stem does not itself hold "Arch_"
   * (checked with one trailing "_") or "_48.png".
   */
  lemma GetServiceNameOfIcon(c: Card, stem: string)
    requires c.serviceName == "" && c.filename == "Arch_" + stem + "_48.png"
    requires !Contains(stem + "_", "Arch_") && !Contains(stem, "_48.png")
    ensures GetServiceName(c) == Spaced(stem)
  {
    var tail := stem + "_48.png";
    assert c.filename == "Arch_" + tail;
    assert c.filename[..5] == "Arch_" && c.filename[5..] == tail;
    IconTailHasNoPrefix(stem);
    ReplaceWithoutPattern(tail, "Arch_", "");
    assert Replace(c.filename, "Arch_", "") == tail;
    SizeSuffixOnlyAtEnd(stem);
    ReplaceTrailingPattern(stem, "_48.png");
    ReplaceCharIsMap(stem, '-', ' ');
    ReplaceCharIsMap(Replace(stem, "-", " "), '_', ' ');
  }

  /** "_48.png" after a stem without it occurs only at the very end. */
  lemma SizeSuffixOnlyAtEnd(stem: string)
    requires !Contains(stem, "_48.png")
    ensures forall i :: 0 <= i < |stem| ==> !OccursAt(stem + "_48.png", "_48.png", i)
  {
    var tail := stem + "_48.png";
    ContainsIff(stem, "_48.png");
    forall i | 0 <= i < |stem| ensures !OccursAt(tail, "_48.png", i) {
      if i + 7 <= |stem| {
        assert tail[i..i + 7] == stem[i..i + 7];
        assert !OccursAt(stem, "_48.png", i);
      } else {
        assert tail[i..i + 7][|stem| - i] == '_';
      }
    }
  }

  /** The size suffix cannot complete an "Arch_" begun in the stem. */
  lemma IconTailHasNoPrefix(stem: string)
    requires !Contains(stem + "_", "Arch_")
    ensures !Contains(stem + "_48.png", "Arch_")
  {
    var head, tail := stem + "_", stem + "_48.png";
    ContainsIff(head, "Arch_");
    forall i ensures !OccursAt(tail, "Arch_", i) {
      if 0 <= i && i + 5 <= |tail| {
        if i + 5 <= |head| {
          assert tail[i..i + 5] == head[i..i + 5];
          assert !OccursAt(head, "Arch_", i);
        } else if i <= |stem| + 1 {
          assert tail[i..i + 5][|stem| + 1 - i] == '4';
        } else {
          assert tail[i..i + 5][0] == '8';
        }
      }
    }
    ContainsIff(tail, "Arch_");
  }

  /** The short display names of the 25 known categories. */
  const CategoryShortNames: map<string, string> := map[
    "Compute" := "Compute",
    "Storage" := "Storage",
    "Database" := "Database",
    "Networking-Content-Delivery" := "Network",
    "Security-Identity-Compliance" := "Security",
    "Analytics" := "Analytics",
    "Artificial-Intelligence" := "AI/ML",
    "App-Integration" := "Integration",
    "Business-Applications" := "Business",
    "Management-Governance" := "Management",
    "Developer-Tools" := "DevTools",
    "Migration-Modernization" := "Migration",
    "Internet-of-Things" := "IoT",
    "Media-Services" := "Media",
    "Containers" := "Container",
    "Cloud-Financial-Management" := "Cost",
    "Customer-Enablement" := "Support",
    "End-User-Computing" := "EndUser",
    "Front-End-Web-Mobile" := "Frontend",
    "Games" := "Games",
    "General-Icons" := "General",
    "Blockchain" := "Blockchain",
    "Quantum-Technologies" := "Quantum",
    "Robotics" := "Robotics",
    "Satellite" := "Satellite"
  ]

  /**
   * Card.get_category_display_name: the short name of a known category, an
   * unknown category as it is, and the suit name when the card has no
   * category. A display name is never longer than the category it shows.
   */
  function GetCategoryDisplayName(c: Card): (r: string)
    ensures c.category == "" ==> r == SuitName(c.suit)
    ensures c.category != "" && c.category in CategoryShortNames ==> r == CategoryShortNames[c.category]
    ensures c.category != "" && c.category !in CategoryShortNames ==> r == c.category
    ensures c.category != "" ==> 0 < |r| <= |c.category|
  {
    if c.category != "" then
      if c.category in CategoryShortNames then CategoryShortNames[c.category] else c.category
    else SuitName(c.suit)
  }

  /** Outcome of Deck.deal: the dealt cards, or the ValueError raised when too few remain. */
  datatype DealResult = Dealt(cards: seq<Card>) | NotEnoughCards

  /** Deck: an ordered list of cards. */
  class Deck {
    var cards: seq<Card>

    /** Deck(): the catalog's cards, shuffled. */
    constructor (catalog: seq<Card>, rand: nat -> nat)
      ensures multiset(cards) == multiset(catalog)
      ensures |cards| == |catalog|
    {
      cards := catalog;
      new;
      Shuffle(rand);
    }

    /**
     * Deck.shuffle: Python's Fisher-Yates walk. For i from the last index down
     * to 1 it swaps position i with position rand(i) % (i + 1); `rand` stands
     * for the random draws. The result is a permutation of the old cards.
     */
    method Shuffle(rand: nat -> nat)
      modifies this
      ensures multiset(cards) == old(multiset(cards))
      ensures |cards| == old(|cards|)
    {
      var i := |cards| - 1;
      while i >= 1
        invariant i < |cards| == old(|cards|)
        invariant multiset(cards) == old(multiset(cards))
      {
        var j := rand(i) % (i + 1);
        cards := cards[i := cards[j]][j := cards[i]];
        i := i - 1;
      }
    }

    /** Deck.deal: the first n cards, removed from the front; too few cards raise and change nothing. */
    method Deal(n: nat) returns (r: DealResult)
      modifies this
      ensures old(|cards|) < n ==> r == NotEnoughCards && cards == old(cards)
      ensures n <= old(|cards|) ==> r == Dealt(old(cards)[..n]) && cards == old(cards)[n..]
    {
      if |cards| < n {
        return NotEnoughCards;
      }
      r := Dealt(cards[..n]);
      cards := cards[n..];
    }

    /** Deck.add_cards: the given cards appended at the back, in order. */
    method AddCards(xs: seq<Card>)
      modifies this
      ensures cards == old(cards) + xs
    {
      cards := cards + xs;
    }

    /** Deck.cards_remaining. */
    method CardsRemaining() returns (n: nat)
      ensures n == |cards|
    {
      n := |cards|;
    }
  }

  /** Dealing n cards and adding them back leaves the deck with the same cards, the dealt ones now last. */
  lemma DealThenReturnRestores(s: seq<Card>, n: nat)
    requires n <= |s|
    ensures multiset(s[n..] + s[..n]) == multiset(s)
  {
    assert s == s[..n] + s[n..];
  }
}
