/**
 * HandEvaluator (aws_porker/hand_evaluator.py; aws_poker/hand_evaluator.py is
 * the same file line for line).
 *
 * `EvaluateHand` maps five cards to (name, score, details). It tries the ten
 * category/suit "special" hands in a fixed order and falls back to the nine
 * standard poker hands only when no special hand scored. The second half of
 * the module states that classification independently, as a priority-ordered
 * rule table over the multisets of ranks, suits and categories, and proves
 * that the evaluator returns the first rule of the table that matches.
 *
 * Hand names are the enumeration `HandName`; `NameText` gives the string the
 * game shows for each. Rank strings in the details are `Rank` values, whose
 * text is `RankName`.
 */
module HandEvaluator {
  import opened Cards
  import Sorting

  // ---------------------------------------------------------------------------
  // Results
  // ---------------------------------------------------------------------------

  datatype Option<T> = None | Some(value: T)

  /** The 19 hands the evaluator can name, in the order it tries them. */
  datatype Kind =
    | AwsMaster | LegendaryFlush | AwsArchitect | MultiCloud | SecuritySuite
    | ServerlessCombo | IotEcosystem | CloudTrio | DataPipeline | DevOpsSuite
    | StraightFlush | FourOfAKind | FullHouse | Flush | Straight
    | ThreeOfAKind | TwoPair | OnePair | HighCard

  /** The name slot of a result: "Invalid Hand", the empty "no special hand", or a hand. */
  datatype HandName = InvalidHand | NoHand | Named(kind: Kind)

  function KindText(k: Kind): string
  {
    match k
    case AwsMaster => "AWS Master"
    case LegendaryFlush => "Legendary Flush"
    case AwsArchitect => "AWS Architect"
    case MultiCloud => "Multi-Cloud"
    case SecuritySuite => "Security Suite"
    case ServerlessCombo => "Serverless Combo"
    case IotEcosystem => "IoT Ecosystem"
    case CloudTrio => "Cloud Trio"
    case DataPipeline => "Data Pipeline"
    case DevOpsSuite => "DevOps Suite"
    case StraightFlush => "Straight Flush"
    case FourOfAKind => "Four of a Kind"
    case FullHouse => "Full House"
    case Flush => "Flush"
    case Straight => "Straight"
    case ThreeOfAKind => "Three of a Kind"
    case TwoPair => "Two Pair"
    case OnePair => "One Pair"
    case HighCard => "High Card"
  }

  /** The string the game shows for a name. */
  function NameText(n: HandName): string
  {
    match n
    case InvalidHand => "Invalid Hand"
    case NoHand => ""
    case Named(k) => KindText(k)
  }

  /** The two flags and four combos the special hands report. */
  datatype Focus = SecurityFocus | IotFocus                       // "security_focus", "iot_focus"
  datatype ComboName =
    | ComputeIntegrationDatabase                                   // "Compute+Integration+Database"
    | ComputeStorageDatabase                                       // "Compute+Storage+Database"
    | AnalyticsStorage                                             // "Analytics+Storage"
    | DevToolsManagement                                           // "DevTools+Management"

  /** The `details` dictionary of each result (display-only metadata). */
  datatype Details =
    | NoDetails                                          // {}
    | SuitMultiplier(suit: Suit, multiplierTenths: nat)  // {"suit", "bonus_multiplier"}, the multiplier in tenths
    | SuitOnly(suit: Suit)                               // {"suit"}
    | CategoryList(categories: set<string>)              // {"categories": [...]}
    | SuitList(suits: set<Suit>)                         // {"suits": [...]}
    | FocusFlag(focus: Focus)                            // {"security_focus": True} or {"iot_focus": True}
    | Combo(combo: ComboName)                            // {"combo": ...}
    | SuitBonus(suit: Suit, bonus: int)                  // {"suit", "bonus"}
    | RankDetail(rank: Option<Rank>)                     // {"rank"}; None stands for ""
    | ThreeAndPair(three: Option<Rank>, pair: Option<Rank>) // {"three", "pair"}
    | HighCardDetail(highCard: Rank)                     // {"high_card"}
    | PairList(pairs: seq<Rank>)                         // {"pairs": [...]}, highest rank first

  /** The (name, score, details) triple. */
  datatype HandResult = HandResult(name: HandName, score: int, details: Details)

  const Invalid := HandResult(InvalidHand, 0, NoDetails)
  const NoSpecialHand := HandResult(NoHand, 0, NoDetails)

  // ---------------------------------------------------------------------------
  // Suit tables
  // ---------------------------------------------------------------------------

  /** _get_flush_bonus: a per-suit bonus; unknown suits get the default 500. */
  function FlushBonus(s: Suit): (bonus: int)
    ensures 500 <= bonus <= 2000
    ensures bonus == 2000 <==> s == Green
    ensures s.Other? ==> bonus == 500
  {
    match s
    case Green => 2000
    case Yellow => 1800
    case Orange => 1600
    case Red => 1000
    case Purple => 800
    case Blue => 600
    case Gray => 500
    case Other(_) => 500
  }

  /** _get_suit_bonus_multiplier, in tenths (3.0 is 30); unknown suits get the default 1.0. */
  function SuitBonusMultiplierTenths(s: Suit): nat
  {
    match s
    case Green => 30
    case Yellow => 25
    case Orange => 20
    case Red => 15
    case Purple => 13
    case Blue => 12
    case Gray => 10
    case Other(_) => 10
  }

  /**
   * int(15000 * multiplier) as an integer table. The value is exactly 15000
   * times the multiplier, so the float product truncates to it.
   */
  function MasterScore(s: Suit): (score: int)
    ensures score * 10 == 15000 * SuitBonusMultiplierTenths(s)
    ensures 15000 <= score <= 45000
  {
    match s
    case Green => 45000
    case Yellow => 37500
    case Orange => 30000
    case Red => 22500
    case Purple => 19500
    case Blue => 18000
    case Gray => 15000
    case Other(_) => 15000
  }

  // ---------------------------------------------------------------------------
  // Views of a hand: the lists and counters evaluate_hand builds
  // ---------------------------------------------------------------------------

  /** [card.rank for card in cards] */
  function RanksOf(cards: seq<Card>): (ranks: seq<Rank>)
    ensures |ranks| == |cards| && forall i :: 0 <= i < |cards| ==> ranks[i] == cards[i].rank
  {
    seq(|cards|, i requires 0 <= i < |cards| => cards[i].rank)
  }

  /** [card.suit for card in cards] */
  function SuitsOf(cards: seq<Card>): (suits: seq<Suit>)
    ensures |suits| == |cards| && forall i :: 0 <= i < |cards| ==> suits[i] == cards[i].suit
  {
    seq(|cards|, i requires 0 <= i < |cards| => cards[i].suit)
  }

  /** The category list _check_special_hands builds: "Unknown" for a card without a category. */
  function CategoriesOf(cards: seq<Card>): (categories: seq<string>)
    ensures |categories| == |cards|
    ensures forall i :: 0 <= i < |cards| ==>
              categories[i] == if cards[i].category != "" then cards[i].category else "Unknown"
  {
    seq(|cards|, i requires 0 <= i < |cards| => if cards[i].category != "" then cards[i].category else "Unknown")
  }

  /** The rank values (A = 0 ... K = 12). */
  function Values(ranks: seq<Rank>): (values: seq<int>)
    ensures |values| == |ranks| && forall i :: 0 <= i < |ranks| ==> values[i] == Ordinal(ranks[i])
  {
    seq(|ranks|, i requires 0 <= i < |ranks| => Ordinal(ranks[i]) as int)
  }

  /** Python's set(list). */
  function Elements<T>(s: seq<T>): set<T>
  {
    set x | x in s
  }

  /** The keys of a Counter. */
  ghost function Support<T>(m: multiset<T>): set<T>
  {
    set x | x in m
  }

  function IntLe(a: int, b: int): bool { a <= b }

  /** `n in counter.values()`. */
  predicate HasCount<T>(counts: multiset<T>, n: nat)
  {
    exists x :: x in counts && counts[x] == n
  }

  /** The keys of a Counter whose count is `n`. */
  function WithCount<T>(counts: multiset<T>, n: nat): set<T>
  {
    set x | x in counts && counts[x] == n
  }

  const RoyalRanks: set<Rank> := {Ace, King, Queen, Jack, Ten}
  const WheelRanks: set<Rank> := {Ace, Two, Three, Four, Five}

  const Security := "Security-Identity-Compliance"
  const Management := "Management-Governance"
  const Compute := "Compute"
  const Integration := "App-Integration"
  const Database := "Database"
  const Storage := "Storage"
  const Analytics := "Analytics"
  const InternetOfThings := "Internet-of-Things"
  const ArtificialIntelligence := "Artificial-Intelligence"
  const DeveloperTools := "Developer-Tools"

  const RequiredCategories: set<string> := {Compute, Storage, Database, Security, Analytics}

  // ---------------------------------------------------------------------------
  // The evaluator
  // ---------------------------------------------------------------------------

  /** _is_royal_straight_flush: one suit, and the rank set is exactly {A, K, Q, J, 10}. */
  predicate IsRoyalStraightFlush(ranks: seq<Rank>, suits: seq<Suit>)
  {
    |Elements(suits)| == 1 && Elements(ranks) == RoyalRanks
  }

  /** Every step of the sorted values goes up by exactly one. */
  predicate Consecutive(values: seq<int>)
  {
    forall i :: 0 <= i < |values| - 1 ==> values[i + 1] - values[i] == 1
  }

  /** The sorted rank values. */
  function SortedValues(ranks: seq<Rank>): seq<int>
  {
    Sorting.SortBy(Values(ranks), IntLe)
  }

  /** _is_straight: sorted values consecutive, or the rank set is {A, 2, 3, 4, 5}. */
  predicate IsStraight(ranks: seq<Rank>)
  {
    Consecutive(SortedValues(ranks)) || Elements(ranks) == WheelRanks
  }

  /** _is_straight_flush. */
  predicate IsStraightFlush(ranks: seq<Rank>, suits: seq<Suit>)
  {
    |Elements(suits)| == 1 && IsStraight(ranks)
  }

  /**
   * _get_most_common_rank: the first rank, in order of appearance, seen
   * `target` times; None (the source's "") when there is none.
   */
  function MostCommonRank(ranks: seq<Rank>, counts: multiset<Rank>, target: nat): (r: Option<Rank>)
    ensures r.Some? ==> r.value in ranks && counts[r.value] == target
    ensures r.None? ==> forall i :: 0 <= i < |ranks| ==> counts[ranks[i]] != target
  {
    if ranks == [] then None
    else if counts[ranks[0]] == target then Some(ranks[0])
    else MostCommonRank(ranks[1..], counts, target)
  }

  /** max(ranks, key=RANK_VALUES.get). */
  function HighestRank(ranks: seq<Rank>): (r: Rank)
    requires ranks != []
    ensures r in ranks
    ensures forall i :: 0 <= i < |ranks| ==> Ordinal(ranks[i]) <= Ordinal(r)
  {
    if |ranks| == 1 then ranks[0]
    else
      var rest := HighestRank(ranks[1..]);
      if Ordinal(ranks[0]) >= Ordinal(rest) then ranks[0] else rest
  }

  /**
   * The ranks seen `target` times, highest first: RANK_ORDER below position
   * n, scanned downwards (sorted(..., key=RANK_VALUES.get, reverse=True)).
   */
  function RanksWithCountDescending(counts: multiset<Rank>, target: nat, n: nat): seq<Rank>
    requires n <= 13
  {
    if n == 0 then []
    else
      (if counts[RankAt(n - 1)] == target then [RankAt(n - 1)] else [])
      + RanksWithCountDescending(counts, target, n - 1)
  }

  /**
   * The Two Pair list: exactly the ranks below position n seen `target`
   * times, highest first (so each at most once).
   */
  lemma {:induction false} RanksWithCountDescendingSpec(counts: multiset<Rank>, target: nat, n: nat)
    requires n <= 13
    ensures var rs := RanksWithCountDescending(counts, target, n);
            && (forall r :: r in rs <==> counts[r] == target && Ordinal(r) < n)
            && (forall i, j :: 0 <= i < j < |rs| ==> Ordinal(rs[i]) > Ordinal(rs[j]))
    decreases n
  {
    if n > 0 {
      RanksWithCountDescendingSpec(counts, target, n - 1);
      var top := RankAt(n - 1);
      var rest := RanksWithCountDescending(counts, target, n - 1);
      forall r | r in rest
        ensures Ordinal(r) < Ordinal(top)
      {
      }
      forall r
        ensures r in RanksWithCountDescending(counts, target, n) <==> counts[r] == target && Ordinal(r) < n
      {
        RankAtOrdinal(r);
      }
    }
  }

  /**
   * _check_special_hands: the first special hand that applies, or ("", 0, {}).
   * `categories` is the list the source builds from the cards first
   * (`CategoriesOf`); the rules then only look at it, the ranks and the suits.
   */
  function CheckSpecialHands(categories: seq<string>, ranks: seq<Rank>, suits: seq<Suit>): (r: HandResult)
    requires |suits| == 5
    ensures r == NoSpecialHand || (r.name.Named? && r.score >= 500)
  {
    var categoryCounts := multiset(categories);
    if IsRoyalStraightFlush(ranks, suits) then
      HandResult(Named(AwsMaster), MasterScore(suits[0]), SuitMultiplier(suits[0], SuitBonusMultiplierTenths(suits[0])))
    else if IsStraightFlush(ranks, suits) && suits[0] == Green then
      HandResult(Named(LegendaryFlush), 10000, SuitOnly(Green))
    else if |Elements(categories)| >= 5 && RequiredCategories <= Elements(categories) then
      HandResult(Named(AwsArchitect), 3000, CategoryList(RequiredCategories))
    else if |Elements(suits)| == 5 then
      HandResult(Named(MultiCloud), 2200, SuitList(Elements(suits)))
    else CategoryCombos(categoryCounts)
  }

  /** The category-count rules of _check_special_hands, Security Suite to DevOps Suite, in order. */
  function CategoryCombos(categoryCounts: multiset<string>): (r: HandResult)
    ensures r == NoSpecialHand || (r.name.Named? && r.score >= 500)
  {
    if categoryCounts[Security] >= 3 || (categoryCounts[Security] >= 2 && categoryCounts[Management] >= 1) then
      HandResult(Named(SecuritySuite), 1500, FocusFlag(SecurityFocus))
    else if categoryCounts[Compute] >= 1 && categoryCounts[Integration] >= 1 && categoryCounts[Database] >= 1 then
      HandResult(Named(ServerlessCombo), 1300, Combo(ComputeIntegrationDatabase))
    else if categoryCounts[InternetOfThings] >= 1
         && (categoryCounts[Analytics] >= 1 || categoryCounts[ArtificialIntelligence] >= 1) then
      HandResult(Named(IotEcosystem), 1000, FocusFlag(IotFocus))
    else if categoryCounts[Compute] >= 1 && categoryCounts[Storage] >= 1 && categoryCounts[Database] >= 1 then
      HandResult(Named(CloudTrio), 800, Combo(ComputeStorageDatabase))
    else if categoryCounts[Analytics] >= 2 && categoryCounts[Storage] >= 1 then
      HandResult(Named(DataPipeline), 600, Combo(AnalyticsStorage))
    else if categoryCounts[DeveloperTools] >= 2 && categoryCounts[Management] >= 1 then
      HandResult(Named(DevOpsSuite), 500, Combo(DevToolsManagement))
    else
      NoSpecialHand
  }

  /** _check_standard_hands: the best standard poker hand; High Card (10) at the least. */
  function CheckStandardHands(ranks: seq<Rank>, suits: seq<Suit>,
                              rankCounts: multiset<Rank>, suitCounts: multiset<Suit>): (r: HandResult)
    requires |ranks| == 5 && |suits| == 5
    requires rankCounts == multiset(ranks) && suitCounts == multiset(suits)
    ensures r.name.Named? && r.score >= 10
  {
    if IsStraightFlush(ranks, suits) then
      HandResult(Named(StraightFlush), 5000 + FlushBonus(suits[0]), SuitBonus(suits[0], FlushBonus(suits[0])))
    else if HasCount(rankCounts, 4) then
      HandResult(Named(FourOfAKind), 2500, RankDetail(MostCommonRank(ranks, rankCounts, 4)))
    else if HasCount(rankCounts, 3) && HasCount(rankCounts, 2) then
      HandResult(Named(FullHouse), 1200,
                 ThreeAndPair(MostCommonRank(ranks, rankCounts, 3), MostCommonRank(ranks, rankCounts, 2)))
    else if |Elements(suits)| == 1 then
      HandResult(Named(Flush), FlushBonus(suits[0]), SuitOnly(suits[0]))
    else if IsStraight(ranks) then
      HandResult(Named(Straight), 400, HighCardDetail(HighestRank(ranks)))
    else if HasCount(rankCounts, 3) then
      HandResult(Named(ThreeOfAKind), 200, RankDetail(MostCommonRank(ranks, rankCounts, 3)))
    else if |WithCount(rankCounts, 2)| == 2 then
      HandResult(Named(TwoPair), 100, PairList(RanksWithCountDescending(rankCounts, 2, 13)))
    else if HasCount(rankCounts, 2) then
      HandResult(Named(OnePair), 50, RankDetail(MostCommonRank(ranks, rankCounts, 2)))
    else
      HandResult(Named(HighCard), 10, HighCardDetail(HighestRank(ranks)))
  }

  /**
   * evaluate_hand: a hand of any size but five is ("Invalid Hand", 0, {});
   * otherwise a special hand if one scored, else a standard hand, so every
   * five-card hand gets a hand name and at least 10 points.
   */
  function EvaluateHand(cards: seq<Card>): (r: HandResult)
    ensures |cards| != 5 ==> r == Invalid
    ensures |cards| == 5 ==> r.name.Named? && r.score >= 10
  {
    if |cards| != 5 then Invalid
    else
      var ranks := RanksOf(cards);
      var suits := SuitsOf(cards);
      var special := CheckSpecialHands(CategoriesOf(cards), ranks, suits);
      if special.score > 0 then special
      else CheckStandardHands(ranks, suits, multiset(ranks), multiset(suits))
  }

  // ---------------------------------------------------------------------------
  // Hand strength
  // ---------------------------------------------------------------------------

  /** The strength_map of get_hand_strength; unknown names (including "") map to 0. */
  function StrengthRank(name: string): (rank: nat)
    ensures rank <= 20
  {
    if name == "High Card" then 1
    else if name == "One Pair" then 2
    else if name == "Two Pair" then 3
    else if name == "Three of a Kind" then 4
    else if name == "Straight" then 5
    else if name == "Flush" then 6
    else if name == "Full House" then 7
    else if name == "Four of a Kind" then 8
    else if name == "Straight Flush" then 9
    else if name == "Royal Straight Flush" then 10
    else if name == "DevOps Suite" then 11
    else if name == "Data Pipeline" then 12
    else if name == "Cloud Trio" then 13
    else if name == "IoT Ecosystem" then 14
    else if name == "Serverless Combo" then 15
    else if name == "Security Suite" then 16
    else if name == "Multi-Cloud" then 17
    else if name == "AWS Architect" then 18
    else if name == "Legendary Flush" then 19
    else if name == "AWS Master" then 20
    else 0
  }

  /** get_hand_strength: the table value times 1000, plus the score. */
  function GetHandStrength(name: string, score: int): (strength: int)
    ensures 0 <= strength - score <= 20000
  {
    StrengthRank(name) * 1000 + score
  }

  // ---------------------------------------------------------------------------
  // The classification, stated as a priority-ordered rule table
  // ---------------------------------------------------------------------------

  /** The position of each hand in the order in which the evaluator tries them. */
  function Priority(k: Kind): (n: nat)
    ensures n < 19
  {
    match k
    case AwsMaster => 0
    case LegendaryFlush => 1
    case AwsArchitect => 2
    case MultiCloud => 3
    case SecuritySuite => 4
    case ServerlessCombo => 5
    case IotEcosystem => 6
    case CloudTrio => 7
    case DataPipeline => 8
    case DevOpsSuite => 9
    case StraightFlush => 10
    case FourOfAKind => 11
    case FullHouse => 12
    case Flush => 13
    case Straight => 14
    case ThreeOfAKind => 15
    case TwoPair => 16
    case OnePair => 17
    case HighCard => 18
  }

  /** What the rules look at: the multisets of ranks, suits and (defaulted) categories. */
  datatype Profile = Profile(ranks: multiset<Rank>, suits: multiset<Suit>, categories: multiset<string>)

  function ProfileOf(cards: seq<Card>): Profile
  {
    Profile(multiset(RanksOf(cards)), multiset(SuitsOf(cards)), multiset(CategoriesOf(cards)))
  }

  /** Exactly the ranks with values m .. m+4, once each. */
  ghost predicate RunFrom(counts: multiset<Rank>, m: int)
  {
    forall r :: counts[r] == if m <= Ordinal(r) < m + 5 then 1 else 0
  }

  /** Five ranks with consecutive values, the ace counting 0 only. */
  ghost predicate FiveInARow(counts: multiset<Rank>)
  {
    exists m :: 0 <= m <= 8 && RunFrom(counts, m)
  }

  ghost predicate OneSuit(p: Profile)
  {
    |Support(p.suits)| == 1
  }

  /** The rule of each hand on its own, ignoring the rules before it. */
  ghost predicate Matches(k: Kind, p: Profile)
  {
    match k
    case AwsMaster => OneSuit(p) && Support(p.ranks) == RoyalRanks
    case LegendaryFlush => (forall s :: s in p.suits ==> s == Green) && FiveInARow(p.ranks)
    case AwsArchitect => |Support(p.categories)| >= 5 && RequiredCategories <= Support(p.categories)
    case MultiCloud => |Support(p.suits)| == 5
    case SecuritySuite =>
      p.categories[Security] >= 3 || (p.categories[Security] >= 2 && p.categories[Management] >= 1)
    case ServerlessCombo =>
      p.categories[Compute] >= 1 && p.categories[Integration] >= 1 && p.categories[Database] >= 1
    case IotEcosystem =>
      p.categories[InternetOfThings] >= 1 && (p.categories[Analytics] >= 1 || p.categories[ArtificialIntelligence] >= 1)
    case CloudTrio => p.categories[Compute] >= 1 && p.categories[Storage] >= 1 && p.categories[Database] >= 1
    case DataPipeline => p.categories[Analytics] >= 2 && p.categories[Storage] >= 1
    case DevOpsSuite => p.categories[DeveloperTools] >= 2 && p.categories[Management] >= 1
    case StraightFlush => OneSuit(p) && FiveInARow(p.ranks)
    case FourOfAKind => exists r :: p.ranks[r] == 4
    case FullHouse => (exists r :: p.ranks[r] == 3) && (exists r :: p.ranks[r] == 2)
    case Flush => OneSuit(p)
    case Straight => FiveInARow(p.ranks)
    case ThreeOfAKind => exists r :: p.ranks[r] == 3
    case TwoPair => |WithCount(p.ranks, 2)| == 2
    case OnePair => exists r :: p.ranks[r] == 2
    case HighCard => true
  }

  /** The score of each hand; `s` is the suit of the hand when the score depends on it. */
  function RuleScore(k: Kind, s: Suit): int
  {
    match k
    case AwsMaster => MasterScore(s)
    case LegendaryFlush => 10000
    case AwsArchitect => 3000
    case MultiCloud => 2200
    case SecuritySuite => 1500
    case ServerlessCombo => 1300
    case IotEcosystem => 1000
    case CloudTrio => 800
    case DataPipeline => 600
    case DevOpsSuite => 500
    case StraightFlush => 5000 + FlushBonus(s)
    case FourOfAKind => 2500
    case FullHouse => 1200
    case Flush => FlushBonus(s)
    case Straight => 400
    case ThreeOfAKind => 200
    case TwoPair => 100
    case OnePair => 50
    case HighCard => 10
  }

  /** `k` matches and no hand tried before it does. */
  ghost predicate IsFirstMatch(k: Kind, p: Profile)
  {
    Matches(k, p) && forall k' :: Priority(k') < Priority(k) ==> !Matches(k', p)
  }

  /** The result `r` names hand `k` with its rule score for suit `s`. */
  ghost predicate ResultIs(r: HandResult, k: Kind, s: Suit)
  {
    r.name == Named(k) && r.score == RuleScore(k, s)
  }

  // ---------------------------------------------------------------------------
  // Lemmas: the straight rule
  // ---------------------------------------------------------------------------

  /** The integers m, m+1, ..., m+n-1. */
  function Run(m: int, n: nat): (r: seq<int>)
    ensures |r| == n && forall i :: 0 <= i < n ==> r[i] == m + i
  {
    seq(n, i requires 0 <= i < n => m + i)
  }

  lemma {:induction false} RunCount(m: int, n: nat, x: int)
    ensures multiset(Run(m, n))[x] == if m <= x < m + n then 1 else 0
    decreases n
  {
    if n > 0 {
      assert Run(m, n) == [m] + Run(m + 1, n - 1);
      RunCount(m + 1, n - 1, x);
    }
  }

  lemma {:induction false} ConsecutiveIsRun(t: seq<int>)
    requires |t| > 0 && Consecutive(t)
    ensures t == Run(t[0], |t|)
    decreases |t|
  {
    if |t| > 1 {
      ConsecutiveIsRun(t[1..]);
      assert t == [t[0]] + t[1..];
    }
  }

  lemma RunIsConsecutive(m: int, n: nat)
    ensures Consecutive(Run(m, n))
  {
  }

  /** The smallest element of a sorted sequence holding the values m .. m+n-1 is m. */
  lemma SortedRunHead(t: seq<int>, m: int)
    requires |t| > 0 && Sorting.SortedBy(t, IntLe)
    requires multiset(t) == multiset(Run(m, |t|))
    ensures t[0] == m
  {
    RunCount(m, |t|, t[0]);
    assert t[0] in multiset(t);
    RunCount(m, |t|, m);
    assert m in multiset(t);
    var j :| 0 <= j < |t| && t[j] == m;
    assert j == 0 || IntLe(t[0], t[j]);
  }

  /** A sorted sequence holding exactly the values m .. m+n-1 is that run. */
  lemma {:induction false} SortedRunUnique(t: seq<int>, m: int)
    requires Sorting.SortedBy(t, IntLe)
    requires multiset(t) == multiset(Run(m, |t|))
    ensures t == Run(m, |t|)
    decreases |t|
  {
    var n := |t|;
    if n > 0 {
      SortedRunHead(t, m);
      var u, rest := t[1..], Run(m + 1, n - 1);
      assert Run(m, n) == [m] + rest;
      assert t == [m] + u;
      assert multiset(t) == multiset{m} + multiset(u);
      assert multiset(Run(m, n)) == multiset{m} + multiset(rest);
      MultisetCancel(multiset(u), multiset(rest), m);
      assert Sorting.SortedBy(u, IntLe) by {
        forall i, j | 0 <= i < j < |u|
          ensures IntLe(u[i], u[j])
        {
          assert u[i] == t[i + 1] && u[j] == t[j + 1];
        }
      }
      SortedRunUnique(u, m + 1);
    }
  }

  /** Two ranks with the same position are the same rank. */
  lemma OrdinalInjective(a: Rank, b: Rank)
    ensures Ordinal(a) == Ordinal(b) <==> a == b
  {
    RankAtOrdinal(a);
    RankAtOrdinal(b);
  }

  /** Counting a rank's value among the values is counting the rank. */
  lemma {:induction false} ValueCount(ranks: seq<Rank>, r: Rank)
    ensures multiset(Values(ranks))[Ordinal(r)] == multiset(ranks)[r]
    decreases |ranks|
  {
    if ranks != [] {
      var values := Values(ranks);
      ValueCount(ranks[1..], r);
      assert values[1..] == Values(ranks[1..]);
      CountCons(values, Ordinal(r) as int);
      CountCons(ranks, r);
      OrdinalInjective(ranks[0], r);
    }
  }

  /** A count splits into the first element and the rest. */
  lemma CountCons<T>(s: seq<T>, x: T)
    requires s != []
    ensures multiset(s)[x] == (if s[0] == x then 1 else 0) + multiset(s[1..])[x]
  {
    assert s == [s[0]] + s[1..];
  }

  /** The straight test agrees with "five ranks in a row": the ordinal-consecutive reading, ace low. */
  lemma StraightIff(ranks: seq<Rank>)
    requires |ranks| == 5
    ensures IsStraight(ranks) <==> FiveInARow(multiset(ranks))
    ensures Consecutive(SortedValues(ranks)) <==> FiveInARow(multiset(ranks))
  {
    var v := Values(ranks);
    var t := SortedValues(ranks);
    Sorting.SortBySorted(v, IntLe);
    assert multiset(t) == multiset(v);
    if Consecutive(t) {
      ConsecutiveIsRun(t);
      var m := t[0];
      assert t[0] in multiset(v) && t[4] in multiset(v);
      assert 0 <= m <= 8;
      forall r
        ensures multiset(ranks)[r] == if m <= Ordinal(r) < m + 5 then 1 else 0
      {
        ValueCount(ranks, r);
        RunCount(m, 5, Ordinal(r));
      }
      assert RunFrom(multiset(ranks), m);
    }
    if FiveInARow(multiset(ranks)) {
      var m :| 0 <= m <= 8 && RunFrom(multiset(ranks), m);
      forall x
        ensures multiset(v)[x] == multiset(Run(m, 5))[x]
      {
        RunCount(m, 5, x);
        if 0 <= x < 13 {
          ValueCount(ranks, RankAt(x));
        } else {
          assert x !in v;
        }
      }
      assert multiset(v) == multiset(Run(m, 5));
      SortedRunUnique(t, m);
      RunIsConsecutive(m, 5);
    }
    if Elements(ranks) == WheelRanks {
      WheelIsRun(ranks);
    }
  }

  /** Five cards whose rank set is {A, 2, 3, 4, 5} hold each of those ranks once. */
  lemma WheelIsRun(ranks: seq<Rank>)
    requires |ranks| == 5 && Elements(ranks) == WheelRanks
    ensures RunFrom(multiset(ranks), 0)
  {
    var c := multiset(ranks);
    var wheel := multiset{Ace, Two, Three, Four, Five};
    assert Ace in Elements(ranks) && Two in Elements(ranks) && Three in Elements(ranks);
    assert Four in Elements(ranks) && Five in Elements(ranks);
    assert wheel <= c;
    assert |c - wheel| == 0;
    assert c == wheel + (c - wheel);
    assert c == wheel;
  }

  /** The explicit A-2-3-4-5 test in _is_straight never decides anything for five cards. */
  lemma WheelCheckIsRedundant(ranks: seq<Rank>)
    requires |ranks| == 5
    ensures IsStraight(ranks) <==> Consecutive(SortedValues(ranks))
  {
    StraightIff(ranks);
  }

  /** Ten, jack, queen, king and ace, in any order, are not a straight: the ace counts 0 only. */
  lemma AceIsNotHigh(ranks: seq<Rank>)
    requires multiset(ranks) == multiset{Ten, Jack, Queen, King, Ace}
    ensures !IsStraight(ranks)
  {
    StraightIff(ranks);
    forall m | 0 <= m <= 8
      ensures !RunFrom(multiset(ranks), m)
    {
      assert multiset(ranks)[Ace] == 1 && multiset(ranks)[King] == 1;
    }
  }

  /** Ace, two, three, four and five, in any order, are a straight. */
  lemma AceIsLow(ranks: seq<Rank>)
    requires multiset(ranks) == multiset{Ace, Two, Three, Four, Five}
    ensures IsStraight(ranks)
  {
    StraightIff(ranks);
    forall r
      ensures multiset(ranks)[r] == if 0 <= Ordinal(r) < 5 then 1 else 0
    {
    }
    assert RunFrom(multiset(ranks), 0);
  }

  // ---------------------------------------------------------------------------
  // Lemmas: the evaluator is the first match of the rule table
  // ---------------------------------------------------------------------------

  lemma ElementsSupport<T>(s: seq<T>)
    ensures Elements(s) == Support(multiset(s))
  {
  }

  /** One suit in the set means every card has the first card's suit. */
  lemma OneSuitIff(suits: seq<Suit>)
    requires |suits| > 0
    ensures |Elements(suits)| == 1 <==> forall i :: 0 <= i < |suits| ==> suits[i] == suits[0]
  {
    if |Elements(suits)| == 1 {
      forall i | 0 <= i < |suits|
        ensures suits[i] == suits[0]
      {
        var e := Elements(suits);
        assert suits[0] in e && suits[i] in e;
        assert |e - {suits[0]}| == 0;
        assert e - {suits[0]} == {};
      }
    }
    if forall i :: 0 <= i < |suits| ==> suits[i] == suits[0] {
      assert Elements(suits) == {suits[0]};
    }
  }


  /** The rule-table readings of the evaluator's suit and straight tests. */
  lemma RoyalTest(ranks: seq<Rank>, suits: seq<Suit>, p: Profile)
    requires p.ranks == multiset(ranks) && p.suits == multiset(suits)
    ensures IsRoyalStraightFlush(ranks, suits) <==> Matches(AwsMaster, p)
  {
    ElementsSupport(ranks);
    ElementsSupport(suits);
  }

  lemma SuitCountTests(suits: seq<Suit>, p: Profile)
    requires p.suits == multiset(suits)
    ensures |Elements(suits)| == 5 <==> Matches(MultiCloud, p)
    ensures |Elements(suits)| == 1 <==> Matches(Flush, p)
  {
    ElementsSupport(suits);
  }

  lemma StraightTest(ranks: seq<Rank>, suits: seq<Suit>, p: Profile)
    requires |ranks| == 5 && p.ranks == multiset(ranks) && p.suits == multiset(suits)
    ensures IsStraight(ranks) <==> Matches(Straight, p)
    ensures IsStraightFlush(ranks, suits) <==> Matches(StraightFlush, p)
  {
    ElementsSupport(suits);
    StraightIff(ranks);
  }

  lemma GreenTest(ranks: seq<Rank>, suits: seq<Suit>, p: Profile)
    requires |ranks| == 5 && |suits| == 5 && p.ranks == multiset(ranks) && p.suits == multiset(suits)
    ensures IsStraightFlush(ranks, suits) && suits[0] == Green <==> Matches(LegendaryFlush, p)
  {
    StraightIff(ranks);
    OneSuitIff(suits);
    if forall s :: s in p.suits ==> s == Green {
      forall i | 0 <= i < 5
        ensures suits[i] == suits[0]
      {
        assert suits[i] in p.suits && suits[0] in p.suits;
      }
      assert suits[0] in p.suits;
    }
    if |Elements(suits)| == 1 && suits[0] == Green {
      forall s | s in p.suits
        ensures s == Green
      {
        var i :| 0 <= i < 5 && suits[i] == s;
      }
    }
  }

  lemma CountTests(ranks: seq<Rank>, p: Profile)
    requires p.ranks == multiset(ranks)
    ensures HasCount(p.ranks, 4) <==> Matches(FourOfAKind, p)
    ensures HasCount(p.ranks, 3) && HasCount(p.ranks, 2) <==> Matches(FullHouse, p)
    ensures HasCount(p.ranks, 3) <==> Matches(ThreeOfAKind, p)
    ensures HasCount(p.ranks, 2) <==> Matches(OnePair, p)
  {
  }

  lemma AwsMasterTest(categories: seq<string>, ranks: seq<Rank>, suits: seq<Suit>, p: Profile, k: Kind)
    requires |ranks| == 5 && |suits| == 5 && p == Profile(multiset(ranks), multiset(suits), multiset(categories))
    requires IsFirstMatch(k, p)
    ensures IsRoyalStraightFlush(ranks, suits) <==> k == AwsMaster
  {
    KindAtPriority(k);
    RoyalTest(ranks, suits, p);
  }

  lemma LegendaryFlushTest(categories: seq<string>, ranks: seq<Rank>, suits: seq<Suit>, p: Profile, k: Kind)
    requires |ranks| == 5 && |suits| == 5 && p == Profile(multiset(ranks), multiset(suits), multiset(categories))
    requires IsFirstMatch(k, p)
    ensures Priority(k) >= 1 ==> (IsStraightFlush(ranks, suits) && suits[0] == Green <==> k == LegendaryFlush)
  {
    KindAtPriority(k);
    GreenTest(ranks, suits, p);
  }

  lemma AwsArchitectTest(categories: seq<string>, ranks: seq<Rank>, suits: seq<Suit>, p: Profile, k: Kind)
    requires |ranks| == 5 && |suits| == 5 && p == Profile(multiset(ranks), multiset(suits), multiset(categories))
    requires IsFirstMatch(k, p)
    ensures Priority(k) >= 2 ==> (|Elements(categories)| >= 5 && RequiredCategories <= Elements(categories) <==> k == AwsArchitect)
  {
    KindAtPriority(k);
    ElementsSupport(categories);
    assert Matches(AwsArchitect, p) <==> |Support(p.categories)| >= 5 && RequiredCategories <= Support(p.categories);
  }

  lemma MultiCloudTest(categories: seq<string>, ranks: seq<Rank>, suits: seq<Suit>, p: Profile, k: Kind)
    requires |ranks| == 5 && |suits| == 5 && p == Profile(multiset(ranks), multiset(suits), multiset(categories))
    requires IsFirstMatch(k, p)
    ensures Priority(k) >= 3 ==> (|Elements(suits)| == 5 <==> k == MultiCloud)
  {
    KindAtPriority(k);
    SuitCountTests(suits, p);
  }

  lemma SecuritySuiteTest(categories: seq<string>, ranks: seq<Rank>, suits: seq<Suit>, p: Profile, k: Kind)
    requires |ranks| == 5 && |suits| == 5 && p == Profile(multiset(ranks), multiset(suits), multiset(categories))
    requires IsFirstMatch(k, p)
    ensures Priority(k) >= 4 ==> (p.categories[Security] >= 3 || (p.categories[Security] >= 2 && p.categories[Management] >= 1) <==> k == SecuritySuite)
  {
    KindAtPriority(k);
    assert Matches(SecuritySuite, p) <==> p.categories[Security] >= 3 || (p.categories[Security] >= 2 && p.categories[Management] >= 1);
  }

  lemma ServerlessComboTest(categories: seq<string>, ranks: seq<Rank>, suits: seq<Suit>, p: Profile, k: Kind)
    requires |ranks| == 5 && |suits| == 5 && p == Profile(multiset(ranks), multiset(suits), multiset(categories))
    requires IsFirstMatch(k, p)
    ensures Priority(k) >= 5 ==> (p.categories[Compute] >= 1 && p.categories[Integration] >= 1 && p.categories[Database] >= 1 <==> k == ServerlessCombo)
  {
    KindAtPriority(k);
    assert Matches(ServerlessCombo, p) <==> p.categories[Compute] >= 1 && p.categories[Integration] >= 1 && p.categories[Database] >= 1;
  }

  lemma IotEcosystemTest(categories: seq<string>, ranks: seq<Rank>, suits: seq<Suit>, p: Profile, k: Kind)
    requires |ranks| == 5 && |suits| == 5 && p == Profile(multiset(ranks), multiset(suits), multiset(categories))
    requires IsFirstMatch(k, p)
    ensures Priority(k) >= 6 ==> (p.categories[InternetOfThings] >= 1 && (p.categories[Analytics] >= 1 || p.categories[ArtificialIntelligence] >= 1) <==> k == IotEcosystem)
  {
    KindAtPriority(k);
    assert Matches(IotEcosystem, p) <==> p.categories[InternetOfThings] >= 1 && (p.categories[Analytics] >= 1 || p.categories[ArtificialIntelligence] >= 1);
  }

  lemma CloudTrioTest(categories: seq<string>, ranks: seq<Rank>, suits: seq<Suit>, p: Profile, k: Kind)
    requires |ranks| == 5 && |suits| == 5 && p == Profile(multiset(ranks), multiset(suits), multiset(categories))
    requires IsFirstMatch(k, p)
    ensures Priority(k) >= 7 ==> (p.categories[Compute] >= 1 && p.categories[Storage] >= 1 && p.categories[Database] >= 1 <==> k == CloudTrio)
  {
    KindAtPriority(k);
    assert Matches(CloudTrio, p) <==> p.categories[Compute] >= 1 && p.categories[Storage] >= 1 && p.categories[Database] >= 1;
  }

  lemma DataPipelineTest(categories: seq<string>, ranks: seq<Rank>, suits: seq<Suit>, p: Profile, k: Kind)
    requires |ranks| == 5 && |suits| == 5 && p == Profile(multiset(ranks), multiset(suits), multiset(categories))
    requires IsFirstMatch(k, p)
    ensures Priority(k) >= 8 ==> (p.categories[Analytics] >= 2 && p.categories[Storage] >= 1 <==> k == DataPipeline)
  {
    KindAtPriority(k);
    assert Matches(DataPipeline, p) <==> p.categories[Analytics] >= 2 && p.categories[Storage] >= 1;
  }

  lemma DevOpsSuiteTest(categories: seq<string>, ranks: seq<Rank>, suits: seq<Suit>, p: Profile, k: Kind)
    requires |ranks| == 5 && |suits| == 5 && p == Profile(multiset(ranks), multiset(suits), multiset(categories))
    requires IsFirstMatch(k, p)
    ensures Priority(k) >= 9 ==> (p.categories[DeveloperTools] >= 2 && p.categories[Management] >= 1 <==> k == DevOpsSuite)
  {
    KindAtPriority(k);
    assert Matches(DevOpsSuite, p) <==> p.categories[DeveloperTools] >= 2 && p.categories[Management] >= 1;
  }

  /** All tests of _check_special_hands at once. */
  lemma SpecialTests(categories: seq<string>, ranks: seq<Rank>, suits: seq<Suit>, p: Profile, k: Kind)
    requires |ranks| == 5 && |suits| == 5 && p == Profile(multiset(ranks), multiset(suits), multiset(categories))
    requires IsFirstMatch(k, p)
    ensures IsRoyalStraightFlush(ranks, suits) <==> k == AwsMaster
    ensures Priority(k) >= 1 ==> (IsStraightFlush(ranks, suits) && suits[0] == Green <==> k == LegendaryFlush)
    ensures Priority(k) >= 2 ==> (|Elements(categories)| >= 5 && RequiredCategories <= Elements(categories) <==> k == AwsArchitect)
    ensures Priority(k) >= 3 ==> (|Elements(suits)| == 5 <==> k == MultiCloud)
    ensures Priority(k) >= 4 ==> (p.categories[Security] >= 3 || (p.categories[Security] >= 2 && p.categories[Management] >= 1) <==> k == SecuritySuite)
    ensures Priority(k) >= 5 ==> (p.categories[Compute] >= 1 && p.categories[Integration] >= 1 && p.categories[Database] >= 1 <==> k == ServerlessCombo)
    ensures Priority(k) >= 6 ==> (p.categories[InternetOfThings] >= 1 && (p.categories[Analytics] >= 1 || p.categories[ArtificialIntelligence] >= 1) <==> k == IotEcosystem)
    ensures Priority(k) >= 7 ==> (p.categories[Compute] >= 1 && p.categories[Storage] >= 1 && p.categories[Database] >= 1 <==> k == CloudTrio)
    ensures Priority(k) >= 8 ==> (p.categories[Analytics] >= 2 && p.categories[Storage] >= 1 <==> k == DataPipeline)
    ensures Priority(k) >= 9 ==> (p.categories[DeveloperTools] >= 2 && p.categories[Management] >= 1 <==> k == DevOpsSuite)
  {
    AwsMasterTest(categories, ranks, suits, p, k);
    LegendaryFlushTest(categories, ranks, suits, p, k);
    AwsArchitectTest(categories, ranks, suits, p, k);
    MultiCloudTest(categories, ranks, suits, p, k);
    SecuritySuiteTest(categories, ranks, suits, p, k);
    ServerlessComboTest(categories, ranks, suits, p, k);
    IotEcosystemTest(categories, ranks, suits, p, k);
    CloudTrioTest(categories, ranks, suits, p, k);
    DataPipelineTest(categories, ranks, suits, p, k);
    DevOpsSuiteTest(categories, ranks, suits, p, k);
  }

  lemma RuleAwsMaster(categories: seq<string>, ranks: seq<Rank>, suits: seq<Suit>)
    requires |ranks| == 5 && |suits| == 5
    requires IsFirstMatch(AwsMaster, Profile(multiset(ranks), multiset(suits), multiset(categories)))
    ensures ResultIs(CheckSpecialHands(categories, ranks, suits), AwsMaster, suits[0])
  {
    SpecialTests(categories, ranks, suits, Profile(multiset(ranks), multiset(suits), multiset(categories)), AwsMaster);
  }

  lemma RuleLegendaryFlush(categories: seq<string>, ranks: seq<Rank>, suits: seq<Suit>)
    requires |ranks| == 5 && |suits| == 5
    requires IsFirstMatch(LegendaryFlush, Profile(multiset(ranks), multiset(suits), multiset(categories)))
    ensures ResultIs(CheckSpecialHands(categories, ranks, suits), LegendaryFlush, suits[0])
  {
    SpecialTests(categories, ranks, suits, Profile(multiset(ranks), multiset(suits), multiset(categories)), LegendaryFlush);
  }

  lemma RuleAwsArchitect(categories: seq<string>, ranks: seq<Rank>, suits: seq<Suit>)
    requires |ranks| == 5 && |suits| == 5
    requires IsFirstMatch(AwsArchitect, Profile(multiset(ranks), multiset(suits), multiset(categories)))
    ensures ResultIs(CheckSpecialHands(categories, ranks, suits), AwsArchitect, suits[0])
  {
    SpecialTests(categories, ranks, suits, Profile(multiset(ranks), multiset(suits), multiset(categories)), AwsArchitect);
  }

  lemma RuleMultiCloud(categories: seq<string>, ranks: seq<Rank>, suits: seq<Suit>)
    requires |ranks| == 5 && |suits| == 5
    requires IsFirstMatch(MultiCloud, Profile(multiset(ranks), multiset(suits), multiset(categories)))
    ensures ResultIs(CheckSpecialHands(categories, ranks, suits), MultiCloud, suits[0])
  {
    SpecialTests(categories, ranks, suits, Profile(multiset(ranks), multiset(suits), multiset(categories)), MultiCloud);
  }

  lemma RuleSecuritySuite(categories: seq<string>, ranks: seq<Rank>, suits: seq<Suit>)
    requires |ranks| == 5 && |suits| == 5
    requires IsFirstMatch(SecuritySuite, Profile(multiset(ranks), multiset(suits), multiset(categories)))
    ensures ResultIs(CheckSpecialHands(categories, ranks, suits), SecuritySuite, suits[0])
  {
    SpecialTests(categories, ranks, suits, Profile(multiset(ranks), multiset(suits), multiset(categories)), SecuritySuite);
  }

  lemma RuleServerlessCombo(categories: seq<string>, ranks: seq<Rank>, suits: seq<Suit>)
    requires |ranks| == 5 && |suits| == 5
    requires IsFirstMatch(ServerlessCombo, Profile(multiset(ranks), multiset(suits), multiset(categories)))
    ensures ResultIs(CheckSpecialHands(categories, ranks, suits), ServerlessCombo, suits[0])
  {
    SpecialTests(categories, ranks, suits, Profile(multiset(ranks), multiset(suits), multiset(categories)), ServerlessCombo);
  }

  lemma RuleIotEcosystem(categories: seq<string>, ranks: seq<Rank>, suits: seq<Suit>)
    requires |ranks| == 5 && |suits| == 5
    requires IsFirstMatch(IotEcosystem, Profile(multiset(ranks), multiset(suits), multiset(categories)))
    ensures ResultIs(CheckSpecialHands(categories, ranks, suits), IotEcosystem, suits[0])
  {
    SpecialTests(categories, ranks, suits, Profile(multiset(ranks), multiset(suits), multiset(categories)), IotEcosystem);
  }

  lemma RuleCloudTrio(categories: seq<string>, ranks: seq<Rank>, suits: seq<Suit>)
    requires |ranks| == 5 && |suits| == 5
    requires IsFirstMatch(CloudTrio, Profile(multiset(ranks), multiset(suits), multiset(categories)))
    ensures ResultIs(CheckSpecialHands(categories, ranks, suits), CloudTrio, suits[0])
  {
    SpecialTests(categories, ranks, suits, Profile(multiset(ranks), multiset(suits), multiset(categories)), CloudTrio);
  }

  lemma RuleDataPipeline(categories: seq<string>, ranks: seq<Rank>, suits: seq<Suit>)
    requires |ranks| == 5 && |suits| == 5
    requires IsFirstMatch(DataPipeline, Profile(multiset(ranks), multiset(suits), multiset(categories)))
    ensures ResultIs(CheckSpecialHands(categories, ranks, suits), DataPipeline, suits[0])
  {
    SpecialTests(categories, ranks, suits, Profile(multiset(ranks), multiset(suits), multiset(categories)), DataPipeline);
  }

  lemma RuleDevOpsSuite(categories: seq<string>, ranks: seq<Rank>, suits: seq<Suit>)
    requires |ranks| == 5 && |suits| == 5
    requires IsFirstMatch(DevOpsSuite, Profile(multiset(ranks), multiset(suits), multiset(categories)))
    ensures ResultIs(CheckSpecialHands(categories, ranks, suits), DevOpsSuite, suits[0])
  {
    SpecialTests(categories, ranks, suits, Profile(multiset(ranks), multiset(suits), multiset(categories)), DevOpsSuite);
  }

  /*
   * For a hand whose first matching rule k is a standard one, each test of
   * _check_standard_hands that is reached agrees with "k is that hand".
   */
  lemma StraightFlushTest(ranks: seq<Rank>, suits: seq<Suit>, p: Profile, k: Kind)
    requires |ranks| == 5 && |suits| == 5 && p.ranks == multiset(ranks) && p.suits == multiset(suits)
    requires IsFirstMatch(k, p) && Priority(k) >= 10
    ensures IsStraightFlush(ranks, suits) <==> k == StraightFlush
  {
    KindAtPriority(k);
    StraightTest(ranks, suits, p);
  }

  lemma FourOfAKindTest(ranks: seq<Rank>, suits: seq<Suit>, p: Profile, k: Kind)
    requires |ranks| == 5 && |suits| == 5 && p.ranks == multiset(ranks) && p.suits == multiset(suits)
    requires IsFirstMatch(k, p) && Priority(k) >= 10
    ensures Priority(k) >= 11 ==> (HasCount(p.ranks, 4) <==> k == FourOfAKind)
  {
    KindAtPriority(k);
    CountTests(ranks, p);
  }

  lemma FullHouseTest(ranks: seq<Rank>, suits: seq<Suit>, p: Profile, k: Kind)
    requires |ranks| == 5 && |suits| == 5 && p.ranks == multiset(ranks) && p.suits == multiset(suits)
    requires IsFirstMatch(k, p) && Priority(k) >= 10
    ensures Priority(k) >= 12 ==> (HasCount(p.ranks, 3) && HasCount(p.ranks, 2) <==> k == FullHouse)
  {
    KindAtPriority(k);
    CountTests(ranks, p);
  }

  lemma FlushTest(ranks: seq<Rank>, suits: seq<Suit>, p: Profile, k: Kind)
    requires |ranks| == 5 && |suits| == 5 && p.ranks == multiset(ranks) && p.suits == multiset(suits)
    requires IsFirstMatch(k, p) && Priority(k) >= 10
    ensures Priority(k) >= 13 ==> (|Elements(suits)| == 1 <==> k == Flush)
  {
    KindAtPriority(k);
    SuitCountTests(suits, p);
  }

  lemma StraightOnlyTest(ranks: seq<Rank>, suits: seq<Suit>, p: Profile, k: Kind)
    requires |ranks| == 5 && |suits| == 5 && p.ranks == multiset(ranks) && p.suits == multiset(suits)
    requires IsFirstMatch(k, p) && Priority(k) >= 10
    ensures Priority(k) >= 14 ==> (IsStraight(ranks) <==> k == Straight)
  {
    KindAtPriority(k);
    StraightTest(ranks, suits, p);
  }

  lemma ThreeOfAKindTest(ranks: seq<Rank>, suits: seq<Suit>, p: Profile, k: Kind)
    requires |ranks| == 5 && |suits| == 5 && p.ranks == multiset(ranks) && p.suits == multiset(suits)
    requires IsFirstMatch(k, p) && Priority(k) >= 10
    ensures Priority(k) >= 15 ==> (HasCount(p.ranks, 3) <==> k == ThreeOfAKind)
  {
    KindAtPriority(k);
    CountTests(ranks, p);
  }

  lemma TwoPairTest(ranks: seq<Rank>, suits: seq<Suit>, p: Profile, k: Kind)
    requires |ranks| == 5 && |suits| == 5 && p.ranks == multiset(ranks) && p.suits == multiset(suits)
    requires IsFirstMatch(k, p) && Priority(k) >= 10
    ensures Priority(k) >= 16 ==> (|WithCount(p.ranks, 2)| == 2 <==> k == TwoPair)
  {
    KindAtPriority(k);
    assert Matches(TwoPair, p) <==> |WithCount(p.ranks, 2)| == 2;
  }

  lemma OnePairTest(ranks: seq<Rank>, suits: seq<Suit>, p: Profile, k: Kind)
    requires |ranks| == 5 && |suits| == 5 && p.ranks == multiset(ranks) && p.suits == multiset(suits)
    requires IsFirstMatch(k, p) && Priority(k) >= 10
    ensures Priority(k) >= 17 ==> (HasCount(p.ranks, 2) <==> k == OnePair)
  {
    KindAtPriority(k);
    CountTests(ranks, p);
  }

  /** All tests of _check_standard_hands at once. */
  lemma StandardTests(ranks: seq<Rank>, suits: seq<Suit>, p: Profile, k: Kind)
    requires |ranks| == 5 && |suits| == 5 && p.ranks == multiset(ranks) && p.suits == multiset(suits)
    requires IsFirstMatch(k, p) && Priority(k) >= 10
    ensures IsStraightFlush(ranks, suits) <==> k == StraightFlush
    ensures Priority(k) >= 11 ==> (HasCount(p.ranks, 4) <==> k == FourOfAKind)
    ensures Priority(k) >= 12 ==> (HasCount(p.ranks, 3) && HasCount(p.ranks, 2) <==> k == FullHouse)
    ensures Priority(k) >= 13 ==> (|Elements(suits)| == 1 <==> k == Flush)
    ensures Priority(k) >= 14 ==> (IsStraight(ranks) <==> k == Straight)
    ensures Priority(k) >= 15 ==> (HasCount(p.ranks, 3) <==> k == ThreeOfAKind)
    ensures Priority(k) >= 16 ==> (|WithCount(p.ranks, 2)| == 2 <==> k == TwoPair)
    ensures Priority(k) >= 17 ==> (HasCount(p.ranks, 2) <==> k == OnePair)
  {
    StraightFlushTest(ranks, suits, p, k);
    FourOfAKindTest(ranks, suits, p, k);
    FullHouseTest(ranks, suits, p, k);
    FlushTest(ranks, suits, p, k);
    StraightOnlyTest(ranks, suits, p, k);
    ThreeOfAKindTest(ranks, suits, p, k);
    TwoPairTest(ranks, suits, p, k);
    OnePairTest(ranks, suits, p, k);
  }

  lemma RuleStraightFlush(categories: seq<string>, ranks: seq<Rank>, suits: seq<Suit>)
    requires |ranks| == 5 && |suits| == 5
    requires IsFirstMatch(StraightFlush, Profile(multiset(ranks), multiset(suits), multiset(categories)))
    ensures ResultIs(CheckStandardHands(ranks, suits, multiset(ranks), multiset(suits)), StraightFlush, suits[0])
  {
    var p := Profile(multiset(ranks), multiset(suits), multiset(categories));
    StandardTests(ranks, suits, p, StraightFlush);
  }

  lemma RuleFourOfAKind(categories: seq<string>, ranks: seq<Rank>, suits: seq<Suit>)
    requires |ranks| == 5 && |suits| == 5
    requires IsFirstMatch(FourOfAKind, Profile(multiset(ranks), multiset(suits), multiset(categories)))
    ensures ResultIs(CheckStandardHands(ranks, suits, multiset(ranks), multiset(suits)), FourOfAKind, suits[0])
  {
    var p := Profile(multiset(ranks), multiset(suits), multiset(categories));
    StandardTests(ranks, suits, p, FourOfAKind);
  }

  lemma RuleFullHouse(categories: seq<string>, ranks: seq<Rank>, suits: seq<Suit>)
    requires |ranks| == 5 && |suits| == 5
    requires IsFirstMatch(FullHouse, Profile(multiset(ranks), multiset(suits), multiset(categories)))
    ensures ResultIs(CheckStandardHands(ranks, suits, multiset(ranks), multiset(suits)), FullHouse, suits[0])
  {
    var p := Profile(multiset(ranks), multiset(suits), multiset(categories));
    StandardTests(ranks, suits, p, FullHouse);
  }

  lemma RuleFlush(categories: seq<string>, ranks: seq<Rank>, suits: seq<Suit>)
    requires |ranks| == 5 && |suits| == 5
    requires IsFirstMatch(Flush, Profile(multiset(ranks), multiset(suits), multiset(categories)))
    ensures ResultIs(CheckStandardHands(ranks, suits, multiset(ranks), multiset(suits)), Flush, suits[0])
  {
    var p := Profile(multiset(ranks), multiset(suits), multiset(categories));
    StandardTests(ranks, suits, p, Flush);
  }

  lemma RuleStraight(categories: seq<string>, ranks: seq<Rank>, suits: seq<Suit>)
    requires |ranks| == 5 && |suits| == 5
    requires IsFirstMatch(Straight, Profile(multiset(ranks), multiset(suits), multiset(categories)))
    ensures ResultIs(CheckStandardHands(ranks, suits, multiset(ranks), multiset(suits)), Straight, suits[0])
  {
    var p := Profile(multiset(ranks), multiset(suits), multiset(categories));
    StandardTests(ranks, suits, p, Straight);
  }

  lemma RuleThreeOfAKind(categories: seq<string>, ranks: seq<Rank>, suits: seq<Suit>)
    requires |ranks| == 5 && |suits| == 5
    requires IsFirstMatch(ThreeOfAKind, Profile(multiset(ranks), multiset(suits), multiset(categories)))
    ensures ResultIs(CheckStandardHands(ranks, suits, multiset(ranks), multiset(suits)), ThreeOfAKind, suits[0])
  {
    var p := Profile(multiset(ranks), multiset(suits), multiset(categories));
    StandardTests(ranks, suits, p, ThreeOfAKind);
  }

  lemma RuleTwoPair(categories: seq<string>, ranks: seq<Rank>, suits: seq<Suit>)
    requires |ranks| == 5 && |suits| == 5
    requires IsFirstMatch(TwoPair, Profile(multiset(ranks), multiset(suits), multiset(categories)))
    ensures ResultIs(CheckStandardHands(ranks, suits, multiset(ranks), multiset(suits)), TwoPair, suits[0])
  {
    var p := Profile(multiset(ranks), multiset(suits), multiset(categories));
    StandardTests(ranks, suits, p, TwoPair);
  }

  lemma RuleOnePair(categories: seq<string>, ranks: seq<Rank>, suits: seq<Suit>)
    requires |ranks| == 5 && |suits| == 5
    requires IsFirstMatch(OnePair, Profile(multiset(ranks), multiset(suits), multiset(categories)))
    ensures ResultIs(CheckStandardHands(ranks, suits, multiset(ranks), multiset(suits)), OnePair, suits[0])
  {
    var p := Profile(multiset(ranks), multiset(suits), multiset(categories));
    StandardTests(ranks, suits, p, OnePair);
  }

  lemma RuleHighCard(categories: seq<string>, ranks: seq<Rank>, suits: seq<Suit>)
    requires |ranks| == 5 && |suits| == 5
    requires IsFirstMatch(HighCard, Profile(multiset(ranks), multiset(suits), multiset(categories)))
    ensures ResultIs(CheckStandardHands(ranks, suits, multiset(ranks), multiset(suits)), HighCard, suits[0])
  {
    var p := Profile(multiset(ranks), multiset(suits), multiset(categories));
    StandardTests(ranks, suits, p, HighCard);
  }

  // ---------------------------------------------------------------------------
  // The evaluator follows the rule table
  // ---------------------------------------------------------------------------

  /** The hand tried at position n. */
  function KindAt(n: nat): (k: Kind)
    requires n < 19
    ensures Priority(k) == n
  {
    if n == 0 then AwsMaster
    else if n == 1 then LegendaryFlush
    else if n == 2 then AwsArchitect
    else if n == 3 then MultiCloud
    else if n == 4 then SecuritySuite
    else if n == 5 then ServerlessCombo
    else if n == 6 then IotEcosystem
    else if n == 7 then CloudTrio
    else if n == 8 then DataPipeline
    else if n == 9 then DevOpsSuite
    else if n == 10 then StraightFlush
    else if n == 11 then FourOfAKind
    else if n == 12 then FullHouse
    else if n == 13 then Flush
    else if n == 14 then Straight
    else if n == 15 then ThreeOfAKind
    else if n == 16 then TwoPair
    else if n == 17 then OnePair
    else HighCard
  }

  lemma KindAtPriority(k: Kind)
    ensures KindAt(Priority(k)) == k
  {
  }

  /** The position of the first `true`, or |v| when there is none. */
  function FirstTrue(v: seq<bool>): (n: nat)
    ensures n <= |v|
    ensures n < |v| ==> v[n]
    ensures forall i :: 0 <= i < n ==> !v[i]
  {
    if v == [] then 0
    else if v[0] then 0
    else 1 + FirstTrue(v[1..])
  }

  /** Which rules match, in priority order. */
  ghost function MatchVector(p: Profile): (v: seq<bool>)
    ensures |v| == 19
  {
    seq(19, i requires 0 <= i < 19 => Matches(KindAt(i), p))
  }

  /** The hand the rule table picks: the first rule, in priority order, that matches. */
  ghost function FirstMatch(p: Profile): Kind
  {
    var n := FirstTrue(MatchVector(p));
    if n < 19 then KindAt(n) else HighCard
  }

  lemma FirstMatchIsFirst(p: Profile)
    ensures IsFirstMatch(FirstMatch(p), p)
  {
    var v := MatchVector(p);
    var n := FirstTrue(v);
    forall k | Priority(k) < Priority(FirstMatch(p))
      ensures !Matches(k, p)
    {
      KindAtPriority(k);
      assert !v[Priority(k)];
    }
  }

  /** No two hands are tried at the same position. */
  lemma PriorityInjective(k: Kind, k': Kind)
    requires Priority(k) == Priority(k')
    ensures k == k'
  {
  }

  /** At most one hand is the first to match, so the rule table picks exactly one. */
  lemma FirstMatchUnique(k: Kind, p: Profile)
    requires IsFirstMatch(k, p)
    ensures k == FirstMatch(p)
  {
    var f := FirstMatch(p);
    FirstMatchIsFirst(p);
    assert !(Priority(f) < Priority(k));
    assert !(Priority(k) < Priority(f));
    PriorityInjective(k, f);
  }

  /** When the first matching rule is a standard hand, _check_special_hands scores 0. */
  lemma NoSpecial(categories: seq<string>, ranks: seq<Rank>, suits: seq<Suit>, k: Kind)
    requires |ranks| == 5 && |suits| == 5
    requires IsFirstMatch(k, Profile(multiset(ranks), multiset(suits), multiset(categories))) && Priority(k) >= 10
    ensures CheckSpecialHands(categories, ranks, suits) == NoSpecialHand
  {
    SpecialTests(categories, ranks, suits, Profile(multiset(ranks), multiset(suits), multiset(categories)), k);
  }

  /**
   * evaluate_hand classifies every five-card hand by the rule table: the
   * name is the first rule that matches, the score that rule's score for
   * the suit of the first card.
   */
  lemma EvaluateHandFollowsRules(cards: seq<Card>)
    requires |cards| == 5
    ensures ResultIs(EvaluateHand(cards), FirstMatch(ProfileOf(cards)), cards[0].suit)
  {
    var categories, ranks, suits := CategoriesOf(cards), RanksOf(cards), SuitsOf(cards);
    assert suits[0] == cards[0].suit;
    FirstMatchIsFirst(ProfileOf(cards));
    match FirstMatch(ProfileOf(cards))
    case AwsMaster => RuleAwsMaster(categories, ranks, suits);
    case LegendaryFlush => RuleLegendaryFlush(categories, ranks, suits);
    case AwsArchitect => RuleAwsArchitect(categories, ranks, suits);
    case MultiCloud => RuleMultiCloud(categories, ranks, suits);
    case SecuritySuite => RuleSecuritySuite(categories, ranks, suits);
    case ServerlessCombo => RuleServerlessCombo(categories, ranks, suits);
    case IotEcosystem => RuleIotEcosystem(categories, ranks, suits);
    case CloudTrio => RuleCloudTrio(categories, ranks, suits);
    case DataPipeline => RuleDataPipeline(categories, ranks, suits);
    case DevOpsSuite => RuleDevOpsSuite(categories, ranks, suits);
    case StraightFlush => NoSpecial(categories, ranks, suits, StraightFlush); RuleStraightFlush(categories, ranks, suits);
    case FourOfAKind => NoSpecial(categories, ranks, suits, FourOfAKind); RuleFourOfAKind(categories, ranks, suits);
    case FullHouse => NoSpecial(categories, ranks, suits, FullHouse); RuleFullHouse(categories, ranks, suits);
    case Flush => NoSpecial(categories, ranks, suits, Flush); RuleFlush(categories, ranks, suits);
    case Straight => NoSpecial(categories, ranks, suits, Straight); RuleStraight(categories, ranks, suits);
    case ThreeOfAKind => NoSpecial(categories, ranks, suits, ThreeOfAKind); RuleThreeOfAKind(categories, ranks, suits);
    case TwoPair => NoSpecial(categories, ranks, suits, TwoPair); RuleTwoPair(categories, ranks, suits);
    case OnePair => NoSpecial(categories, ranks, suits, OnePair); RuleOnePair(categories, ranks, suits);
    case HighCard => NoSpecial(categories, ranks, suits, HighCard); RuleHighCard(categories, ranks, suits);
  }

  // ---------------------------------------------------------------------------
  // The order of the cards does not matter
  // ---------------------------------------------------------------------------

  /** A per-card view of a hand, as the list comprehensions of evaluate_hand build them. */
  function MapCards<T>(cards: seq<Card>, f: Card -> T): (r: seq<T>)
    ensures |r| == |cards| && forall i :: 0 <= i < |cards| ==> r[i] == f(cards[i])
  {
    seq(|cards|, i requires 0 <= i < |cards| => f(cards[i]))
  }

  lemma MultisetCancel<T>(a: multiset<T>, b: multiset<T>, c: T)
    requires multiset{c} + a == multiset{c} + b
    ensures a == b
  {
    forall x
      ensures a[x] == b[x]
    {
      assert (multiset{c} + a)[x] == (multiset{c} + b)[x];
    }
  }

  lemma MapCardsConcat<T>(a: seq<Card>, b: seq<Card>, f: Card -> T)
    ensures MapCards(a + b, f) == MapCards(a, f) + MapCards(b, f)
  {
    assert forall i :: 0 <= i < |a| + |b| ==> MapCards(a + b, f)[i] == (MapCards(a, f) + MapCards(b, f))[i];
  }

  /** The multiset of a per-card view depends only on the multiset of the cards. */
  lemma {:induction false} MapCardsPermutation<T>(s: seq<Card>, t: seq<Card>, f: Card -> T)
    requires multiset(s) == multiset(t)
    ensures multiset(MapCards(s, f)) == multiset(MapCards(t, f))
    decreases |s|
  {
    if s == [] {
      assert |t| == |multiset(t)| == 0;
    } else {
      var c := s[0];
      assert c in multiset(t);
      var j :| 0 <= j < |t| && t[j] == c;
      var t' := t[..j] + t[j + 1..];
      assert t == t[..j] + [c] + t[j + 1..];
      assert s == [c] + s[1..];
      assert multiset(s) == multiset{c} + multiset(s[1..]);
      assert multiset(t) == multiset{c} + multiset(t');
      MultisetCancel(multiset(s[1..]), multiset(t'), c);
      MapCardsPermutation(s[1..], t', f);
      MapCardsConcat([c], s[1..], f);
      MapCardsConcat(t[..j] + [c], t[j + 1..], f);
      MapCardsConcat(t[..j], [c], f);
      MapCardsConcat(t[..j], t[j + 1..], f);
    }
  }

  /** Reordering the cards leaves the ranks, suits and categories counted the same. */
  lemma ProfileIgnoresOrder(cards: seq<Card>, cards': seq<Card>)
    requires multiset(cards) == multiset(cards')
    ensures ProfileOf(cards) == ProfileOf(cards')
  {
    var rank := (c: Card) => c.rank;
    var suit := (c: Card) => c.suit;
    var category := (c: Card) => if c.category != "" then c.category else "Unknown";
    MapCardsPermutation(cards, cards', rank);
    MapCardsPermutation(cards, cards', suit);
    MapCardsPermutation(cards, cards', category);
    assert RanksOf(cards) == MapCards(cards, rank) && RanksOf(cards') == MapCards(cards', rank);
    assert SuitsOf(cards) == MapCards(cards, suit) && SuitsOf(cards') == MapCards(cards', suit);
    assert CategoriesOf(cards) == MapCards(cards, category) && CategoriesOf(cards') == MapCards(cards', category);
  }

  /** The one suit of a single-suit hand is the suit of any of its cards. */
  lemma SuitOfOneSuit(cards: seq<Card>, i: int)
    requires 0 <= i < |cards| && OneSuit(ProfileOf(cards))
    ensures cards[i].suit == cards[0].suit
  {
    OneSuitCards(cards);
  }

  /** The rule reading of "one suit" is "every card has the first card's suit". */
  lemma OneSuitCards(cards: seq<Card>)
    requires |cards| > 0
    ensures OneSuit(ProfileOf(cards)) <==> forall i :: 0 <= i < |cards| ==> cards[i].suit == cards[0].suit
  {
    var suits := SuitsOf(cards);
    ElementsSupport(suits);
    OneSuitIff(suits);
  }

  /**
   * evaluate_hand does not depend on the order of the cards: two hands
   * holding the same five cards get the same name and score.
   */
  lemma EvaluateIgnoresOrder(cards: seq<Card>, cards': seq<Card>)
    requires |cards| == 5 && multiset(cards) == multiset(cards')
    ensures EvaluateHand(cards).name == EvaluateHand(cards').name
    ensures EvaluateHand(cards).score == EvaluateHand(cards').score
  {
    assert |cards'| == |multiset(cards')| == 5;
    ProfileIgnoresOrder(cards, cards');
    EvaluateHandFollowsRules(cards);
    EvaluateHandFollowsRules(cards');
    FirstMatchIsFirst(ProfileOf(cards));
    RuleScoreIgnoresOrder(cards, cards', FirstMatch(ProfileOf(cards)));
  }

  /** The first matching rule scores the same whichever card of a permuted hand comes first. */
  lemma RuleScoreIgnoresOrder(cards: seq<Card>, cards': seq<Card>, k: Kind)
    requires |cards| == 5 && multiset(cards) == multiset(cards') && IsFirstMatch(k, ProfileOf(cards))
    ensures |cards'| == 5 && RuleScore(k, cards[0].suit) == RuleScore(k, cards'[0].suit)
  {
    assert |cards'| == |multiset(cards')| == 5;
    if k == AwsMaster || k == StraightFlush || k == Flush {
      assert Matches(k, ProfileOf(cards));
      assert cards'[0] in multiset(cards);
      var i :| 0 <= i < 5 && cards[i] == cards'[0];
      SuitOfOneSuit(cards, i);
    } else {
      SuitFreeScore(k, cards[0].suit, cards'[0].suit);
    }
  }

  /** Only AWS Master, Straight Flush and Flush score by suit. */
  lemma SuitFreeScore(k: Kind, s: Suit, s': Suit)
    requires k != AwsMaster && k != StraightFlush && k != Flush
    ensures RuleScore(k, s) == RuleScore(k, s')
  {
  }

  // ---------------------------------------------------------------------------
  // What the rule table says about single hands
  // ---------------------------------------------------------------------------

  /** evaluate_hand names hand k exactly when k is the first rule that matches. */
  lemma EvaluateHandNamesFirstMatch(cards: seq<Card>, k: Kind)
    requires |cards| == 5
    ensures EvaluateHand(cards).name == Named(k) <==> IsFirstMatch(k, ProfileOf(cards))
    ensures EvaluateHand(cards).name == Named(k) ==> EvaluateHand(cards).score == RuleScore(k, cards[0].suit)
  {
    EvaluateHandFollowsRules(cards);
    FirstMatchIsFirst(ProfileOf(cards));
    if IsFirstMatch(k, ProfileOf(cards)) {
      FirstMatchUnique(k, ProfileOf(cards));
    }
  }

  /**
   * AWS Master: all five suits equal and the rank set exactly {A, 10, J, Q, K},
   * scoring int(15000 * multiplier) for that suit.
   */
  lemma AwsMasterIff(cards: seq<Card>)
    requires |cards| == 5
    ensures EvaluateHand(cards).name == Named(AwsMaster) <==>
              (forall i :: 0 <= i < 5 ==> cards[i].suit == cards[0].suit) && Elements(RanksOf(cards)) == RoyalRanks
    ensures EvaluateHand(cards).name == Named(AwsMaster) ==> EvaluateHand(cards).score == MasterScore(cards[0].suit)
  {
    EvaluateHandNamesFirstMatch(cards, AwsMaster);
    AwsMasterRule(cards);
  }

  /** The AWS Master rule, tried first, in terms of the cards. */
  lemma AwsMasterRule(cards: seq<Card>)
    requires |cards| == 5
    ensures IsFirstMatch(AwsMaster, ProfileOf(cards)) <==>
              (forall i :: 0 <= i < 5 ==> cards[i].suit == cards[0].suit) && Elements(RanksOf(cards)) == RoyalRanks
  {
    assert IsFirstMatch(AwsMaster, ProfileOf(cards)) <==> Matches(AwsMaster, ProfileOf(cards));
    OneSuitCards(cards);
    ElementsSupport(RanksOf(cards));
  }

  /** A rank set of exactly {A, 10, J, Q, K} is never five in a row, the ace counting low. */
  lemma RoyalIsNotFiveInARow(counts: multiset<Rank>)
    requires Support(counts) == RoyalRanks
    ensures !FiveInARow(counts)
  {
    assert Ace in Support(counts) && King in Support(counts);
    forall m | 0 <= m <= 8
      ensures !RunFrom(counts, m)
    {
      if m > 0 {
        assert counts[Ace] != 0;
      } else {
        assert counts[King] != 0;
      }
    }
  }

  /** Only AWS Master is tried before Legendary Flush. */
  lemma SecondRule(p: Profile)
    ensures IsFirstMatch(LegendaryFlush, p) <==> Matches(LegendaryFlush, p) && !Matches(AwsMaster, p)
  {
    forall k | Priority(k) < 1
      ensures k == AwsMaster
    {
      PriorityInjective(k, AwsMaster);
    }
  }

  /** The rule reading of "every card is green". */
  lemma AllGreen(cards: seq<Card>)
    ensures (forall s :: s in ProfileOf(cards).suits ==> s == Green) <==> (forall i :: 0 <= i < |cards| ==> cards[i].suit == Green)
  {
    var suits := SuitsOf(cards);
    assert ProfileOf(cards).suits == multiset(suits);
    if forall s :: s in multiset(suits) ==> s == Green {
      forall i | 0 <= i < |cards|
        ensures cards[i].suit == Green
      {
        assert suits[i] in multiset(suits);
      }
    }
    if forall i :: 0 <= i < |cards| ==> cards[i].suit == Green {
      forall s | s in multiset(suits)
        ensures s == Green
      {
        assert s in suits;
        var i :| 0 <= i < |suits| && suits[i] == s;
      }
    }
  }

  /**
   * Legendary Flush: exactly the green straight flushes, scoring 10000; a
   * royal hand is never a straight, so AWS Master never takes one.
   */
  lemma LegendaryFlushIff(cards: seq<Card>)
    requires |cards| == 5
    ensures EvaluateHand(cards).name == Named(LegendaryFlush) <==>
              (forall i :: 0 <= i < 5 ==> cards[i].suit == Green) && IsStraight(RanksOf(cards))
    ensures EvaluateHand(cards).name == Named(LegendaryFlush) ==> EvaluateHand(cards).score == 10000
  {
    EvaluateHandNamesFirstMatch(cards, LegendaryFlush);
    LegendaryFlushRule(cards);
  }

  /** The Legendary Flush rule, tried second, in terms of the cards. */
  lemma LegendaryFlushRule(cards: seq<Card>)
    requires |cards| == 5
    ensures IsFirstMatch(LegendaryFlush, ProfileOf(cards)) <==>
              (forall i :: 0 <= i < 5 ==> cards[i].suit == Green) && IsStraight(RanksOf(cards))
  {
    var p := ProfileOf(cards);
    SecondRule(p);
    AllGreen(cards);
    StraightIff(RanksOf(cards));
    if Support(p.ranks) == RoyalRanks {
      RoyalIsNotFiveInARow(p.ranks);
    }
  }

  /**
   * A "Straight Flush" result is never green (that hand is Legendary Flush)
   * and scores 5000 plus the flush bonus, between 5500 and 6800.
   */
  lemma StraightFlushNeverGreen(cards: seq<Card>)
    requires |cards| == 5 && EvaluateHand(cards).name == Named(StraightFlush)
    ensures cards[0].suit != Green
    ensures EvaluateHand(cards).score == 5000 + FlushBonus(cards[0].suit)
    ensures 5500 <= EvaluateHand(cards).score <= 6800
  {
    EvaluateHandNamesFirstMatch(cards, StraightFlush);
    StraightFlushRuleNotGreen(cards);
  }

  /** When Straight Flush is the first rule to match, the suit is not green: Legendary Flush comes first. */
  lemma StraightFlushRuleNotGreen(cards: seq<Card>)
    requires |cards| > 0 && IsFirstMatch(StraightFlush, ProfileOf(cards))
    ensures cards[0].suit != Green
    ensures 5500 <= RuleScore(StraightFlush, cards[0].suit) <= 6800
  {
    assert !Matches(LegendaryFlush, ProfileOf(cards)) && OneSuit(ProfileOf(cards));
    AllGreen(cards);
    OneSuitCards(cards);
    assert FlushBonus(cards[0].suit) <= 1800;
  }

  /** A "Flush" result scores exactly the flush bonus of its suit, between 500 and 2000. */
  lemma FlushScore(cards: seq<Card>)
    requires |cards| == 5 && EvaluateHand(cards).name == Named(Flush)
    ensures EvaluateHand(cards).score == FlushBonus(cards[0].suit)
    ensures 500 <= EvaluateHand(cards).score <= 2000
  {
    NamedScore(cards, Flush);
  }

  /** Whatever hand evaluate_hand names, it scores that hand's rule score for the first card's suit. */
  lemma NamedScore(cards: seq<Card>, k: Kind)
    requires |cards| == 5 && EvaluateHand(cards).name == Named(k)
    ensures EvaluateHand(cards).score == RuleScore(k, cards[0].suit)
  {
    EvaluateHandFollowsRules(cards);
  }

  // ---------------------------------------------------------------------------
  // Hand strength against the rule table
  // ---------------------------------------------------------------------------

  /**
   * The strength table ranks the special hands 20 down to 11 and the standard
   * hands 9 down to 1, both in the order the evaluator tries them.
   */
  lemma StrengthOfKind(k: Kind)
    ensures StrengthRank(KindText(k)) == if Priority(k) < 10 then 20 - Priority(k) else 19 - Priority(k)
  {
    StrengthOfKinds0To1(k);
    StrengthOfKinds2To3(k);
    StrengthOfKinds4To5(k);
    StrengthOfKinds6To7(k);
    StrengthOfKinds8To9(k);
    StrengthOfKinds10To18(k);
  }

  /** The strength table entries of the hands tried at positions 0 to 1. */
  lemma StrengthOfKinds0To1(k: Kind)
    ensures 0 <= Priority(k) <= 1 ==> StrengthRank(KindText(k)) == if Priority(k) < 10 then 20 - Priority(k) else 19 - Priority(k)
  {
    match k
    case AwsMaster => assert StrengthRank(KindText(AwsMaster)) == 20;
    case LegendaryFlush => assert StrengthRank(KindText(LegendaryFlush)) == 19;
    case _ =>
  }

  /** The strength table entries of the hands tried at positions 2 to 3. */
  lemma StrengthOfKinds2To3(k: Kind)
    ensures 2 <= Priority(k) <= 3 ==> StrengthRank(KindText(k)) == if Priority(k) < 10 then 20 - Priority(k) else 19 - Priority(k)
  {
    match k
    case AwsArchitect => assert StrengthRank(KindText(AwsArchitect)) == 18;
    case MultiCloud => assert StrengthRank(KindText(MultiCloud)) == 17;
    case _ =>
  }

  /** The strength table entries of the hands tried at positions 4 to 5. */
  lemma StrengthOfKinds4To5(k: Kind)
    ensures 4 <= Priority(k) <= 5 ==> StrengthRank(KindText(k)) == if Priority(k) < 10 then 20 - Priority(k) else 19 - Priority(k)
  {
    match k
    case SecuritySuite => assert StrengthRank(KindText(SecuritySuite)) == 16;
    case ServerlessCombo => assert StrengthRank(KindText(ServerlessCombo)) == 15;
    case _ =>
  }

  /** The strength table entries of the hands tried at positions 6 to 7. */
  lemma StrengthOfKinds6To7(k: Kind)
    ensures 6 <= Priority(k) <= 7 ==> StrengthRank(KindText(k)) == if Priority(k) < 10 then 20 - Priority(k) else 19 - Priority(k)
  {
    match k
    case IotEcosystem => assert StrengthRank(KindText(IotEcosystem)) == 14;
    case CloudTrio => assert StrengthRank(KindText(CloudTrio)) == 13;
    case _ =>
  }

  /** The strength table entries of the hands tried at positions 8 to 9. */
  lemma StrengthOfKinds8To9(k: Kind)
    ensures 8 <= Priority(k) <= 9 ==> StrengthRank(KindText(k)) == if Priority(k) < 10 then 20 - Priority(k) else 19 - Priority(k)
  {
    match k
    case DataPipeline => assert StrengthRank(KindText(DataPipeline)) == 12;
    case DevOpsSuite => assert StrengthRank(KindText(DevOpsSuite)) == 11;
    case _ =>
  }

  /** The strength table entries of the hands tried at positions 10 to 18. */
  lemma StrengthOfKinds10To18(k: Kind)
    ensures 10 <= Priority(k) <= 18 ==> StrengthRank(KindText(k)) == if Priority(k) < 10 then 20 - Priority(k) else 19 - Priority(k)
  {
    match k
    case StraightFlush => assert StrengthRank(KindText(StraightFlush)) == 9;
    case FourOfAKind => assert StrengthRank(KindText(FourOfAKind)) == 8;
    case FullHouse => assert StrengthRank(KindText(FullHouse)) == 7;
    case Flush => assert StrengthRank(KindText(Flush)) == 6;
    case Straight => assert StrengthRank(KindText(Straight)) == 5;
    case ThreeOfAKind => assert StrengthRank(KindText(ThreeOfAKind)) == 4;
    case TwoPair => assert StrengthRank(KindText(TwoPair)) == 3;
    case OnePair => assert StrengthRank(KindText(OnePair)) == 2;
    case HighCard => assert StrengthRank(KindText(HighCard)) == 1;
    case _ =>
  }

  /** A hand tried earlier always has the larger strength table entry. */
  lemma StrengthFollowsPriority(k: Kind, k': Kind)
    requires Priority(k) < Priority(k')
    ensures StrengthRank(KindText(k)) > StrengthRank(KindText(k'))
  {
    StrengthOfKind(k);
    StrengthOfKind(k');
  }

  /** "Royal Straight Flush" (table value 10) is never the name of an evaluated hand. */
  lemma RoyalStraightFlushNeverNamed(cards: seq<Card>)
    ensures NameText(EvaluateHand(cards).name) != "Royal Straight Flush"
  {
    var r := EvaluateHand(cards);
    if r.name.Named? {
      KindTextNotRoyal(r.name.kind);
    }
  }

  lemma KindTextNotRoyal(k: Kind)
    ensures KindText(k) != "Royal Straight Flush"
  {
    StrengthOfKind(k);
    assert StrengthRank("Royal Straight Flush") == 10;
  }

  /**
   * The strength of an evaluated result: the name's table entry times 1000
   * plus the score, where "Invalid Hand" and the empty name, like every name
   * outside the table, count 0.
   */
  lemma StrengthOfResult(r: HandResult)
    ensures r.name.Named? ==>
              GetHandStrength(NameText(r.name), r.score)
                == (if Priority(r.name.kind) < 10 then 20 - Priority(r.name.kind) else 19 - Priority(r.name.kind)) * 1000 + r.score
    ensures !r.name.Named? ==> GetHandStrength(NameText(r.name), r.score) == r.score
  {
    if r.name.Named? {
      StrengthOfKind(r.name.kind);
    } else {
      assert StrengthRank("Invalid Hand") == 0;
      assert StrengthRank("") == 0;
    }
  }
}
