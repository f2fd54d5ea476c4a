# AWS Porker in Dafny

A Dafny model of the deterministic core of AWS Porker. It is a five-card draw
poker game played over five rounds with a deck of AWS service icons. Each
card has a rank (A, 2 … 10, J, Q, K), one of seven colour suits and an AWS
service category. The model covers:

- **`Cards`** (`cards.dfy`): ranks, suits and cards as values, and the
  `Deck` class with `Shuffle`, `Deal`, `AddCards` and `CardsRemaining` over
  its card list. Also the two display helpers of `Card`.
- **`HandEvaluator`** (`hand_evaluator.dfy`): `evaluate_hand` and its
  helpers, written the way the source writes them. The ten category/suit
  "special" hands are tried first, in their fixed order. The nine standard
  poker hands are tried only when no special hand scored. The module also
  states the classification a second time, as a priority-ordered rule table
  over the multisets of ranks, suits and categories. It proves that the
  evaluator returns the first rule of that table that matches. The module
  ends with `get_hand_strength`. `aws_porker/hand_evaluator.py` and
  `aws_poker/hand_evaluator.py` are the same file line for line, so this one
  module models both.
- **`GameCode`** (`game_code.dfy`): `validate_game_code`,
  `generate_dummy_score_from_code`, the formatting half of
  `generate_game_code`, and the list update of `add_score_to_ranking`. The
  formatting half takes the MD5 hex digest as a parameter.
- **`PokerGame`** (`poker_game.dfy`): the `Game` class without pygame. Its
  fields are the game's own. Its methods are dealing, drawing, standing,
  advancing, starting a new game, the two timer events (auto-stand and
  auto-advance), opening and closing overlays, scrolling, button clicks and
  the remaining-card distribution.
- **`ArchitectureCards`** (`architecture_cards.dfy`): the catalog
  generator for architecture icons. It covers service-name extraction, the
  category-to-suit table and `assign_ranks`. `assign_ranks` sorts each
  suit's cards by service name and ranks them A, 2, …, K, A, … in that order.
- **`ResourceCards`** (`resource_cards.dfy`): the catalog generator for
  resource icons. It covers the keyword chain that picks a colour, the rank
  names, and the ranking of icons by their sorted path.
- `Text` and `Sorting` are helpers. `Text` holds the Python string built-ins
  the source uses. `Sorting` is a stable insertion sort that stands in for
  `sorted`/`list.sort`.

Randomness (`random.shuffle`) is a parameter `rand: nat -> nat` driving a
Fisher–Yates walk. The only thing the model promises about it is that the
result is a permutation. The MD5 digest is a parameter `hex`.

Behaviour the model reproduces as the code is written:

- The game-code suffix is `str(v)[-4:]` with no zero padding.
  `GameCode.FormatThenValidate` proves that a generated code passes
  validation exactly when v ≥ 1000.
- A hand whose size is not five is not an error. The evaluator returns
  `("Invalid Hand", 0, {})`.
- The strength table places "Royal Straight Flush" at 10 and the special
  hands at 11–20. `evaluate_hand` never returns "Royal Straight Flush".
- Legendary Flush is keyed to the suit Green.
- Using the last draw does not stand at once. It arms a timer, and the
  timer event (`Game.AutoStand`) stands if the game is still playing.
- The number of recorded rounds is not tied to the round counter. An
  overlay opened on the result screen and then closed returns to play on
  the same round (`PokerGame.OverlayReopensRound`). Only
  `total_score == sum of the recorded scores` is an invariant
  (`Game.Valid`).
- `deal_new_hand` drops the previous hand without returning it to the deck.
  So deck + hand is conserved only within a round, across `DrawCards`.

## Model

| member | source | states |
|---|---|---|
| `Cards.Ordinal` | aws_porker/hand_evaluator.py:12-14 | RANK_VALUES: each of the 13 ranks has a position below 13, A = 0 … K = 12 |
| `Cards.RankAt` | aws_porker/hand_evaluator.py:13 | RANK_ORDER[n] is the rank whose position is n |
| `Cards.GetServiceName` | aws_porker/card.py:54-64 | a non-empty catalog service name is returned unchanged; otherwise the name derived from the file name holds neither '-' nor '_' |
| `Cards.GetServiceNameOfIcon` | aws_porker/card.py:60-64 | a card without a catalog name whose file is "Arch_" + stem + "_48.png" gets the stem with every '-' and '_' read as a space (for stems not themselves holding "Arch_" or "_48.png") |
| `Cards.GetCategoryDisplayName` | aws_porker/card.py:66-100 | the short name for the 25 known categories, an unknown category unchanged, the suit name when the category is empty; the display name is never longer than the category |
| `Cards.ParseSuit` | aws_porker/card.py:228 | the catalog's suit string becomes a suit whose name is that string, and a colour name is always read as that colour |
| `Cards.ParseSuitName` | aws_porker/card.py:228 | reading back the name of a canonical suit gives the same suit |
| `Cards.Deck.constructor` | aws_porker/card.py:218-221 | the new deck is a permutation of the catalog |
| `Cards.Deck.Shuffle` | aws_porker/card.py:238-240 | the cards after the shuffle are a permutation of the cards before |
| `Cards.Deck.Deal` | aws_porker/card.py:242-249 | n ≤ len: returns the first n cards and leaves exactly the remaining suffix; n > len: the ValueError outcome with the deck unchanged |
| `Cards.Deck.AddCards` | aws_porker/card.py:251-253 | cards == old cards + xs: appended at the back, in order |
| `Cards.Deck.CardsRemaining` | aws_porker/card.py:255-257 | returns the length of the card list |
| `Cards.DealThenReturnRestores` | aws_porker/card.py:242-253 | dealing n cards and adding them back restores the deck's multiset |
| `HandEvaluator.EvaluateHand` | aws_porker/hand_evaluator.py:30-50 | a hand whose size is not 5 gives ("Invalid Hand", 0, {}); every 5-card hand gets a hand name and a score of at least 10 |
| `HandEvaluator.CategoriesOf` | aws_porker/hand_evaluator.py:58-64 | each card contributes its category, or "Unknown" when it has none |
| `HandEvaluator.CheckSpecialHands` | aws_porker/hand_evaluator.py:52-87 | either ("", 0, {}) or a named special hand scoring at least 500 |
| `HandEvaluator.CategoryCombos` | aws_porker/hand_evaluator.py:89-123 | the category-count rules give ("", 0, {}) or a named hand scoring at least 500 |
| `HandEvaluator.CheckStandardHands` | aws_porker/hand_evaluator.py:125-174 | always a named standard hand with a score of at least 10 |
| `HandEvaluator.EvaluateHandFollowsRules` | aws_porker/hand_evaluator.py:45-50 | every 5-card hand gets the first rule of the priority table that matches, scored for its suit; standard hands are reached only when no special rule matches |
| `HandEvaluator.EvaluateHandNamesFirstMatch` | aws_porker/hand_evaluator.py:68-123 | the evaluator names hand k if and only if k matches and no rule tried before k matches, and then the score is k's rule score |
| `HandEvaluator.FirstMatchUnique` | aws_poker/hand_evaluator.py:45-50 | at most one hand is the first to match, so exactly one hand is returned |
| `HandEvaluator.EvaluateIgnoresOrder` | aws_porker/hand_evaluator.py:38-42 | permuting the five cards changes neither the name nor the score |
| `HandEvaluator.AwsMasterIff` | aws_porker/hand_evaluator.py:68-74 | AWS Master if and only if all five suits are equal and the rank set is exactly {A, 10, J, Q, K}; it then scores int(15000 × the suit multiplier) |
| `HandEvaluator.MasterScore` | aws_porker/hand_evaluator.py:235-246 | the integer score × 10 equals 15000 × the multiplier in tenths: 45000, 37500, 30000, 22500, 19500, 18000, and 15000 for Gray or an unknown suit |
| `HandEvaluator.FlushBonus` | aws_porker/hand_evaluator.py:222-233 | the bonus lies in [500, 2000], is 2000 exactly for Green, and is 500 for an unknown suit |
| `HandEvaluator.StraightIff` | aws_porker/hand_evaluator.py:185-200 | _is_straight holds if and only if the five ranks are five consecutive ordinals (ace = 0), each once; the same holds for the sorted-consecutive loop alone |
| `HandEvaluator.WheelCheckIsRedundant` | aws_porker/hand_evaluator.py:196-198 | the explicit A-2-3-4-5 test never changes the answer |
| `HandEvaluator.AceIsLow` | aws_porker/hand_evaluator.py:189-194 | A-2-3-4-5 in any order is a straight |
| `HandEvaluator.AceIsNotHigh` | aws_poker/hand_evaluator.py:185-200 | 10-J-Q-K-A in any order is not a straight |
| `HandEvaluator.LegendaryFlushIff` | aws_porker/hand_evaluator.py:76-78 | Legendary Flush if and only if all five cards are Green and form a straight; it scores 10000 |
| `HandEvaluator.StraightFlushNeverGreen` | aws_porker/hand_evaluator.py:129-135 | a "Straight Flush" result is never Green and scores 5000 + the flush bonus, within [5500, 6800] |
| `HandEvaluator.StraightFlushRuleNotGreen` | aws_poker/hand_evaluator.py:77-78 | when Straight Flush is the first rule to match, the suit is not Green, because Legendary Flush is tried first |
| `HandEvaluator.FlushScore` | aws_porker/hand_evaluator.py:147-151 | a "Flush" result scores exactly the flush bonus of its suit, within [500, 2000] |
| `HandEvaluator.NamedScore` | aws_poker/hand_evaluator.py:30-174 | any named result scores its hand's rule score for the first card's suit |
| `HandEvaluator.MostCommonRank` | aws_porker/hand_evaluator.py:248-253 | the rank returned is in the hand with the target count; "" (None) only when no rank has that count |
| `HandEvaluator.HighestRank` | aws_porker/hand_evaluator.py:173 | the high card is in the hand, and no card has a higher ordinal |
| `HandEvaluator.RanksWithCountDescendingSpec` | aws_porker/hand_evaluator.py:163-165 | the Two Pair list holds exactly the paired ranks, in strictly descending order |
| `HandEvaluator.GetHandStrength` | aws_porker/hand_evaluator.py:255-279 | strength − score is a table entry × 1000, between 0 and 20000 |
| `HandEvaluator.StrengthOfKind` | aws_porker/hand_evaluator.py:257-278 | the table gives the special hands 20 down to 11 and the standard hands 9 down to 1, both in the evaluator's order |
| `HandEvaluator.StrengthFollowsPriority` | aws_poker/hand_evaluator.py:255-279 | a hand the evaluator tries earlier always has the larger strength entry |
| `HandEvaluator.StrengthOfResult` | aws_porker/hand_evaluator.py:279 | the strength of a result is its table entry × 1000 + score; "Invalid Hand" and "" count 0 |
| `HandEvaluator.RoyalStraightFlushNeverNamed` | aws_porker/hand_evaluator.py:267 | "Royal Straight Flush" is in the table but is never the name of an evaluated hand |
| `GameCode.ValidateAccepts` | aws_porker/poker_game.py:382-385 | any A-B-DDDD with hyphen-free A and B and four ASCII digits is accepted, whatever A and B are |
| `GameCode.ValidateHasShape` | aws_porker/poker_game.py:384-385 | every accepted code is exactly part0-part1-DDDD with hyphen-free parts and four digits |
| `GameCode.ValidateAcceptsEmptyWords` | aws_porker/poker_game.py:385 | "--1234" is accepted: the words are not checked |
| `GameCode.ValidateAcceptsExample` | aws_porker/poker_game.py:355 | "CLOUD-LAMBDA-1234" is accepted |
| `GameCode.ValidateRejectsTwoParts` | aws_porker/poker_game.py:384 | "CLOUD-1234" is rejected: it has two parts |
| `GameCode.DummyScore` | aws_porker/poker_game.py:387-391 | the pseudo-score is always within [1000, 5999] |
| `GameCode.DummyScoreIgnoresOrder` | aws_porker/poker_game.py:390 | the pseudo-score depends only on the characters of the code, not on their order |
| `GameCode.SliceRange` | aws_porker/poker_game.py:344 | int(hex[4:8], 16) is within 0..65535 |
| `GameCode.SuffixShape` | aws_porker/poker_game.py:344 | str(v)[-4:] is a digit string, and has four digits if and only if v ≥ 1000 |
| `GameCode.FormatThenValidate` | aws_porker/poker_game.py:339-346 | a generated code splits into two table words and str(v)[-4:], and it passes validate_game_code if and only if v ≥ 1000 |
| `GameCode.ShortSuffixExample` | aws_porker/poker_game.py:344 | a digest with hex[4:8] = "0064" yields a code that validate_game_code rejects |
| `GameCode.LoadedEntry` | aws_porker/poker_game.py:395-401 | a loaded entry has the code and score, is flagged as loaded, and has five "Unknown" rounds of score // 5 |
| `GameCode.AddScoreToRanking` | aws_porker/poker_game.py:409-412 | a code already present leaves the list unchanged; otherwise the new list holds the old entries plus the loaded entry |
| `GameCode.AddScoreSorted` | aws_porker/poker_game.py:410-412 | after adding a new code the list is sorted by total score, highest first |
| `GameCode.AddScoreKeepsTieOrder` | aws_porker/poker_game.py:410-412 | entries with equal scores keep their order after the stable sort: the old ones as listed, then the new entry |
| `GameCode.AddScoreRecordsCode` | aws_porker/poker_game.py:410-411 | after the update the code is in the list |
| `PokerGame.Game.constructor` | aws_porker/poker_game.py:52-92 | round 1, no score, no code, two draws, nothing selected, and hand + deck is a permutation of the catalog |
| `PokerGame.Game.DealNewHand` | aws_porker/poker_game.py:97-104 | five unselected cards and two draws; taken from the front of the deck when five remain, else from a brand-new deck; score and screen unchanged |
| `PokerGame.Game.ToggleSelection` | aws_porker/poker_game.py:172-182 | while playing, a click on card i flips exactly that flag; outside play, or off the cards, nothing changes at all; the hand, the deck and every other field are always kept |
| `PokerGame.Game.SelectedCards` | aws_porker/poker_game.py:217-227 | the loop collects exactly the selected cards, left to right |
| `PokerGame.Game.PlaceReplacements` | aws_porker/poker_game.py:235-241 | the new cards fill the selected positions in left-to-right order, unselected positions are untouched, and every flag ends False |
| `PokerGame.Game.ExchangeSelected` | aws_porker/poker_game.py:229-241 | after returning, shuffling and dealing, hand + deck is the same multiset, the deck length is unchanged, and the deal cannot fail |
| `PokerGame.Game.DrawCards` | aws_porker/poker_game.py:212-250 | a no-op when no draw is left or nothing is selected; otherwise only selected positions change, flags clear, draws drop by exactly one, and hand + deck is conserved |
| `PokerGame.Game.Stand` | aws_porker/poker_game.py:252-267 | appends the evaluated hand, adds its score to the total (so total == sum of recorded scores), stores it as the current result and shows it; the hand, selection, draws, round, deck, overlay and code are kept |
| `PokerGame.Game.NextRound` | aws_porker/poker_game.py:269-280 | the round counter moves on; past round 5: final result and the game code from the digest, hand and deck kept; otherwise "playing" with a fresh hand; scores, overlay and last result kept |
| `PokerGame.Game.NewGame` | aws_porker/poker_game.py:282-298 | resets the round, total, recorded rounds and code, and deals from a brand-new deck |
| `PokerGame.Game.AutoStand` | aws_porker/poker_game.py:158-162 | the auto-stand timer stands (records, adds and shows the evaluated hand, keeping everything else) exactly when playing with no draw left; otherwise nothing changes at all |
| `PokerGame.Game.AutoAdvance` | aws_porker/poker_game.py:164-168 | the auto-advance timer runs next_round exactly when the hand result is shown: the final result with the game code after round 5, else "playing" with a fresh hand; otherwise nothing changes at all |
| `PokerGame.Game.ShowHandsOverlay` | aws_porker/poker_game.py:436-440 | opens the hands overlay from any state, scrolled to the top; the hand, deck, scores, last result and code are kept |
| `PokerGame.Game.ShowDeckOverlay` | aws_porker/poker_game.py:442-446 | opens the deck overlay from any state, scrolled to the top; the hand, deck, scores, last result and code are kept |
| `PokerGame.Game.CloseOverlay` | aws_porker/poker_game.py:206-209 | closes the overlay and goes to "playing" while rounds remain, else to "final_result"; the hand, deck, scores, last result and code are kept |
| `PokerGame.Game.Scroll` | aws_porker/poker_game.py:153-156 | the wheel moves an open overlay by 20 per notch, clamped to 0..200; the screen, the hand, the deck, the scores, the last result and the code are kept |
| `PokerGame.Game.HandleButtonClick` | aws_porker/poker_game.py:184-210 | each button under its guard: an enabled draw exchanges the selected cards (one draw fewer, flags cleared, unselected cards kept, hand + deck conserved, a no-op with nothing selected); stand records, adds and shows the evaluated hand and keeps everything else; next round (only on "round_end") advances exactly as next_round does, with the final code after round 5 or a fresh hand; new game resets and deals a fresh hand from a new deck, keeping the overlay fields; the overlays open from any state and close to "playing" while rounds remain, else "final_result", changing only the screen fields; a disabled button, save, load and the sound toggle leave the game unchanged |
| `PokerGame.Game.RemainingCardsDistribution` | aws_porker/poker_game.py:448-471 | the dictionaries map exactly the suits and ranks present in the deck to their counts; the total is the deck length |
| `PokerGame.OverlayReopensRound` | aws_porker/poker_game.py:202-209 | stand, open and close an overlay, and stand again: round 1 now has two recorded results, so the recorded rounds can exceed current_round − 1 |
| `PokerGame.ExchangeConserves` | aws_porker/poker_game.py:230-241 | keeping the unselected cards and drawing from deck + returned cards conserves hand + deck |
| `PokerGame.PlacedInOrderPicked` | aws_porker/poker_game.py:237-241 | after in-order placement, the cards at the selected positions are exactly the dealt cards, in order |
| `PokerGame.PickedKept` | aws_porker/poker_game.py:221-224 | the selected and the unselected cards together are the hand |
| `PokerGame.TotalOfConcat` | aws_porker/poker_game.py:255-256 | the sum of recorded scores is additive over the round list |
| `ArchitectureCards.StripSizeSuffix` | create_architecture_cards.py:58 | a trailing "_48.png"/"_48.svg" is removed; a name without one (and not ending in a newline) is unchanged |
| `ArchitectureCards.ExtractServiceName` | create_architecture_cards.py:53-63 | the result holds no '-', no '_' and no "Arch_" |
| `ArchitectureCards.ExtractServiceNameKeepsPlainNames` | create_architecture_cards.py:56-62 | a name with nothing to remove or replace is returned unchanged |
| `ArchitectureCards.ExtractServiceNameOfIcon` | create_architecture_cards.py:53-63 | for any stem that does not itself hold "Arch_" (checked with one trailing "_"), "Arch_" + stem + "_48.png" yields the stem with every '-' and '_' turned into a space, character by character |
| `ArchitectureCards.SuitOfCategory` | create_architecture_cards.py:73-74 | a known directory gets its table suit, any other directory gets Gray; always one of the seven colours |
| `ArchitectureCards.CategoryDropsPrefix` | create_architecture_cards.py:93 | directory "Arch_" + rest is stored with category rest |
| `ArchitectureCards.IconRow` | create_architecture_cards.py:88-97 | a row has a colour suit, a service name without '-' or '_', the category without "Arch_", and no rank yet |
| `ArchitectureCards.GroupBySuit` | create_architecture_cards.py:105-111 | the dictionary's key order is `SuitsSeen` (each suit once, in order of first appearance) and each suit maps to exactly the positions of its rows |
| `ArchitectureCards.SuitsSeenFirstAppearance` | create_architecture_cards.py:105-111 | the suits in the key order are exactly the suits that have rows, and a suit comes before another exactly when its first row is earlier |
| `ArchitectureCards.FirstIndexIsFirstAppearance` | create_architecture_cards.py:105-111 | the head of a suit's position list is a row of that suit and no earlier row has that suit |
| `ArchitectureCards.SuitGroup` | create_architecture_cards.py:114-118 | a suit's sorted list holds each row of that suit exactly once |
| `ArchitectureCards.SuitGroupSortedByName` | create_architecture_cards.py:117-118 | a suit's list is ordered by service name |
| `ArchitectureCards.SuitGroupKeepsTieOrder` | create_architecture_cards.py:116-117 | rows of a suit with the same service name stay in catalog order after the stable sort |
| `ArchitectureCards.RankGroup` | create_architecture_cards.py:120-123 | the k-th row of the list gets ranks[k % 13]; other suits and other fields are untouched |
| `ArchitectureCards.RankGroups` | create_architecture_cards.py:113-123 | given the suit dictionary, the loop over its suits leaves every field but the rank alone and gives position i of each suit's list sorted by name ranks[i % 13] |
| `ArchitectureCards.ArchitectureCardGenerator.AssignRanks` | create_architecture_cards.py:101-123 | rows keep their order and every field but the rank; position i of its suit's sorted list gets ranks[i % 13] |
| `ArchitectureCards.EveryRowRanked` | create_architecture_cards.py:120-123 | after assign_ranks every row has a rank |
| `ArchitectureCards.FirstOfSuitIsAce` | create_architecture_cards.py:117-123 | in each suit, the row with the alphabetically first service name gets 'A' |
| `ArchitectureCards.SuitRankCountIsCyclic` | create_architecture_cards.py:121-123 | within a suit of n rows, rank r occurs n / 13 times, plus one if its position is below n % 13 |
| `ArchitectureCards.RanksBalancedWithinSuit` | create_architecture_cards.py:120-123 | within each suit, the counts of any two ranks differ by at most one |
| `ResourceCards.ExtractColorFromFilename` | create_cards.py:11-52 | the colour is always one of the seven named colours |
| `ResourceCards.ExtractColorIgnoresCase` | create_cards.py:17 | lower-casing the name first changes nothing |
| `ResourceCards.RedKeywordWins` | create_cards.py:19-20 | any name containing 'red', 'alarm' or 'error' is Red, whatever other keywords it holds |
| `ResourceCards.NoKeywordIsGray` | create_cards.py:31-52 | a name with no first-chain keyword and none of res_networking, res_iot, res_artificial-intelligence gives Gray, whatever other res_ name it holds |
| `ResourceCards.CategoryTestsShadowed` | create_cards.py:31-42 | the res_database/res_compute/res_storage/res_analytics/res_security branches are unreachable: an earlier keyword already matched |
| `ResourceCards.ColourFromFirstChain` | create_cards.py:19-42 | Blue, Green, Orange and Yellow are returned exactly when that group is the first keyword group to match |
| `ResourceCards.GetRankName` | create_cards.py:54-59 | get_rank_name(i) is the name of the rank at position i % 13 |
| `ResourceCards.GetRankNamePeriodic` | create_cards.py:58-59 | the names repeat with period 13, and index 0 (or any multiple of 13) is 'A' |
| `ResourceCards.CardRows` | create_cards.py:87-91 | one row per icon; row i has rank get_rank_name(i) and a colour suit |
| `ResourceCards.CardRowsDescribeIcons` | create_cards.py:74 | the rows follow the icons sorted by path, each icon once |
| `ResourceCards.RankIsCountOfEarlierPaths` | create_cards.py:74-91 | an icon's rank is fixed by how many icons have a smaller path, whatever order the directory walk gave |

## Left out

- Rendering, fonts, hit-testing, audio, the clipboard and the window loop
  (`draw*`, `create_buttons`, `should_show_button`, `get_button_text`,
  `run`, `load_image`, `create_card_surface`, `create_back_surface`,
  `get_rect`). These are presentation only. A click is modelled as the
  button or card position it hit.
- Timers (`pygame.time.set_timer`, `get_ticks`). The two timer events are
  the explicit operations `Game.AutoStand` and `Game.AutoAdvance`.
- File and console I/O: the ranking JSON file (`save_score`,
  `get_high_score`, the file half of `add_score_to_ranking`), CSV loading
  in `Deck.load_cards`, `input()` in `load_game_code`, and CSV writing in the
  generator scripts. The ranking list is a value. The card catalog is a
  parameter. Ranking timestamps are not modelled.
- MD5 and `datetime.now()` in `generate_game_code`. The digest is the
  parameter `hex`.
- `random.shuffle`: only "some permutation" is promised (a Fisher–Yates
  walk driven by `rand`). Uniformity is not modelled.
- Floats: the suit multiplier is the integer table `MasterScore` (with
  `SuitBonusMultiplierTenths` in the details), the percentage displays are
  not modelled, and neither is the unused `SUIT_RARITY` table.
- `_is_serverless_combo` and `_is_cloud_trio`: `evaluate_hand` never calls
  them.
- create_color_based_cards.py, create_music.py, the sound manager,
  clipboard utilities, boto3 examples, the empty `aws_poker/game.py` loop and
  its test, the analysis and ranking-display scripts, and the entry points
  are not part of this model. They are image analysis, audio, subprocess,
  network or printing code.
- `scan_architecture_icons`: the directory walk and the hidden-file filter
  are I/O. The per-icon row it builds is `ArchitectureCards.IconRow`.
- Cards are compared by value, not by Python object identity. Conservation
  is stated on multisets of card values.
- A card rank outside the 13 names would raise `KeyError` in the source.
  `Rank` has only the 13 values, so the model assumes the catalog is
  well formed. A suit outside the seven is `Suit.Other` and hits every
  `.get` default.
- Cards.Suit: the datatype also holds values such as `Other("Green")`, which
  no catalog string produces (`ParseSuit` never returns them). The deck and
  game constructors take `Suit` values and do not require `Canonical`, so
  their contracts also cover such non-canonical suits.
- `Text.Lower` lowers ASCII letters only, and `IsDigitString` accepts ASCII
  digits only. Python's `str.lower` and `str.isdigit` also handle other
  Unicode letters and digits.
- PokerGame.Game.Stand: requires the state "playing". Its two callers
  (the stand button and the auto-stand timer) only call it in that state.
- PokerGame.Game.NextRound: requires `current_round <= 5`. Its callers
  (the auto-advance timer on the result screen and the never-enabled
  "round_end" button) can only reach it there.
- PokerGame.Game.constructor: requires a catalog of at least five cards.
  With fewer, the source's first `deal(5)` raises `ValueError`.
- `save_score`, `load_game_code` and the sound toggle touch only files,
  the console and audio. In `HandleButtonClick` they leave the game state as
  it is.
