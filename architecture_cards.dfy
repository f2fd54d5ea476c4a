/**
 * The catalog generator for the architecture icons (create_architecture_cards.py).
 *
 * Each icon file becomes a catalog row: a service name derived from the file
 * name, the category directory's suit (Gray when the directory is not in the
 * table), the category without its "Arch_" prefix. `AssignRanks` then ranks
 * every suit separately: the suit's rows sorted by service name receive
 * A, 2, ..., K, A, 2, ... in that order.
 */
module ArchitectureCards {
  import opened Text
  import opened Sorting
  import opened Cards

  // ---------------------------------------------------------------------------
  // Catalog rows
  // ---------------------------------------------------------------------------

  /** A row's rank: absent until `AssignRanks` writes one. */
  datatype RankSlot = Unranked | Ranked(rank: Rank)

  /** The dictionary built for each icon file. */
  datatype CardRow = CardRow(serviceName: string, category: string, suit: Suit, iconPath: string, filename: string, rank: RankSlot)

  /** The file name ends in "_48.png" or "_48.svg". */
  predicate HasSizeSuffix(s: string)
  {
    |s| >= 7 && (s[|s| - 7..] == "_48.png" || s[|s| - 7..] == "_48.svg")
  }

  /**
   * `re.sub(r"_48\.(png|svg)$", "", s)`: `$` matches at the very end and also
   * just before a final newline, so a suffix followed by one '\n' goes too.
   */
  function StripSizeSuffix(s: string): (r: string)
    ensures HasSizeSuffix(s) ==> s == r + s[|s| - 7..]
    ensures !HasSizeSuffix(s) && !(|s| >= 1 && s[|s| - 1] == '\n') ==> r == s
    ensures forall c :: c in r ==> c in s
  {
    if HasSizeSuffix(s) then s[..|s| - 7]
    else if |s| >= 1 && s[|s| - 1] == '\n' && HasSizeSuffix(s[..|s| - 1]) then s[..|s| - 8] + "\n"
    else s
  }

  /** A string with no '_' holds no "Arch_". */
  lemma NoUnderscoreNoArch(s: string)
    requires '_' !in s
    ensures !Contains(s, "Arch_")
  {
    forall i ensures !OccursAt(s, "Arch_", i) {
      if 0 <= i && i + 5 <= |s| {
        assert s[i..i + 5][4] == s[i + 4];
      }
    }
    ContainsIff(s, "Arch_");
  }

  /**
   * extract_service_name: drop every "Arch_", strip the size suffix, and turn
   * '-' and '_' into spaces. The result holds no '-', no '_' and no "Arch_".
   */
  function ExtractServiceName(filename: string): (r: string)
    ensures '-' !in r && '_' !in r
    ensures !Contains(r, "Arch_")
  {
    var unprefixed := Replace(filename, "Arch_", "");
    var stripped := StripSizeSuffix(unprefixed);
    var spaced := Replace(stripped, "-", " ");
    ReplaceCharRemovesIt(stripped, '-', ' ');
    ReplaceKeepsAbsent(spaced, "_", " ", '-');
    ReplaceCharRemovesIt(spaced, '_', ' ');
    var r := Replace(spaced, "_", " ");
    NoUnderscoreNoArch(r);
    r
  }

  /** A name with nothing to remove or replace comes back unchanged. */
  lemma ExtractServiceNameKeepsPlainNames(name: string)
    requires '-' !in name && '_' !in name && '\n' !in name
    ensures ExtractServiceName(name) == name
  {
    NoUnderscoreNoArch(name);
    ReplaceWithoutPattern(name, "Arch_", "");
    NoUnderscoreNoSizeSuffix(name);
    assert StripSizeSuffix(name) == name;
    NoCharNoPattern(name, '-');
    ReplaceWithoutPattern(name, "-", " ");
    NoCharNoPattern(name, '_');
    ReplaceWithoutPattern(name, "_", " ");
  }

  /** Without an underscore there is no "_48.png" or "_48.svg" ending. */
  lemma NoUnderscoreNoSizeSuffix(s: string)
    requires '_' !in s
    ensures !HasSizeSuffix(s)
  {
    if |s| >= 7 {
      assert s[|s| - 7] == s[|s| - 7..][0];
    }
  }

  /** A string without the character `c` does not contain the one-character string [c]. */
  lemma NoCharNoPattern(s: string, c: char)
    requires c !in s
    ensures !Contains(s, [c])
  {
    forall i ensures !OccursAt(s, [c], i) {
      if 0 <= i && i + 1 <= |s| {
        assert s[i..i + 1][0] == s[i];
      }
    }
    ContainsIff(s, [c]);
  }

  /**
   * The icon of a service is named after it: "Arch_" + stem + "_48.png" yields
   * the stem with its separators turned into spaces, as long as the stem does
   * not itself hold another "Arch_" prefix.
   */
  lemma ExtractServiceNameOfIcon(stem: string)
    requires !Contains(stem + "_", "Arch_")
    ensures ExtractServiceName("Arch_" + stem + "_48.png") == Spaced(stem)
  {
    var f := "Arch_" + stem + "_48.png";
    var tail := stem + "_48.png";
    assert f == "Arch_" + tail;
    assert f[..5] == "Arch_";
    assert f[5..] == tail;
    IconTailHasNoPrefix(stem);
    ReplaceWithoutPattern(tail, "Arch_", "");
    assert Replace(f, "Arch_", "") == tail;
    assert HasSizeSuffix(tail);
    assert tail[..|tail| - 7] == stem;
    assert StripSizeSuffix(tail) == stem;
    ReplaceCharIsMap(stem, '-', ' ');
    var dashed := Replace(stem, "-", " ");
    ReplaceCharIsMap(dashed, '_', ' ');
  }

  // ---------------------------------------------------------------------------
  // Category directories and suits
  // ---------------------------------------------------------------------------

  /** category_to_suit: the 25 known category directories. */
  const CategoryToSuit: map<string, Suit> := map[
    "Arch_Compute" := Blue,
    "Arch_Storage" := Green,
    "Arch_Database" := Purple,
    "Arch_Networking-Content-Delivery" := Orange,
    "Arch_Security-Identity-Compliance" := Red,
    "Arch_Analytics" := Yellow,
    "Arch_Artificial-Intelligence" := Gray,
    "Arch_App-Integration" := Blue,
    "Arch_Business-Applications" := Purple,
    "Arch_Blockchain" := Gray,
    "Arch_Cloud-Financial-Management" := Green,
    "Arch_Containers" := Blue,
    "Arch_Customer-Enablement" := Orange,
    "Arch_Developer-Tools" := Yellow,
    "Arch_End-User-Computing" := Purple,
    "Arch_Front-End-Web-Mobile" := Orange,
    "Arch_Games" := Red,
    "Arch_General-Icons" := Gray,
    "Arch_Internet-of-Things" := Yellow,
    "Arch_Management-Governance" := Green,
    "Arch_Media-Services" := Red,
    "Arch_Migration-Modernization" := Orange,
    "Arch_Quantum-Technologies" := Gray,
    "Arch_Robotics" := Purple,
    "Arch_Satellite" := Blue
  ]

  /**
   * `category_to_suit.get(name, "Gray")`: a known directory's suit, Gray for
   * any other; never anything but one of the seven colours.
   */
  function SuitOfCategory(dir: string): (s: Suit)
    ensures dir in CategoryToSuit ==> s == CategoryToSuit[dir]
    ensures dir !in CategoryToSuit ==> s == Gray
    ensures !s.Other?
  {
    if dir in CategoryToSuit then CategoryToSuit[dir] else Gray
  }

  /** The stored category: the directory name with "Arch_" removed. */
  function CategoryOf(dir: string): string
  {
    Replace(dir, "Arch_", "")
  }

  /** A directory named "Arch_" + rest is stored as rest. */
  lemma CategoryDropsPrefix(rest: string)
    requires !Contains(rest, "Arch_")
    ensures CategoryOf("Arch_" + rest) == rest
  {
    var d := "Arch_" + rest;
    assert d[..5] == "Arch_" && d[5..] == rest;
    ReplaceWithoutPattern(rest, "Arch_", "");
  }

  /**
   * The row scan_architecture_icons builds for the icon `filename` found in
   * the directory `dir`: a colour suit, a clean service name, no rank yet.
   */
  function IconRow(dir: string, filename: string, iconPath: string): (r: CardRow)
    ensures r.suit == SuitOfCategory(dir) && !r.suit.Other?
    ensures r.serviceName == ExtractServiceName(filename) && '-' !in r.serviceName && '_' !in r.serviceName
    ensures r.category == CategoryOf(dir) && r.filename == filename && r.iconPath == iconPath
    ensures r.rank == Unranked
  {
    CardRow(ExtractServiceName(filename), CategoryOf(dir), SuitOfCategory(dir), iconPath, filename, Unranked)
  }

  // ---------------------------------------------------------------------------
  // The per-suit lists and their order
  // ---------------------------------------------------------------------------

  /** The positions of the rows of suit `s`, in catalog order (the list `suits[s]`). */
  function IndicesOf(cs: seq<CardRow>, s: Suit): (ix: seq<nat>)
    decreases |cs|
  {
    if cs == [] then []
    else
      var front := IndicesOf(cs[..|cs| - 1], s);
      if cs[|cs| - 1].suit == s then front + [|cs| - 1] else front
  }

  /** A suit list holds exactly the positions of that suit's rows, each once, in increasing order. */
  lemma {:induction false} IndicesOfMembers(cs: seq<CardRow>, s: Suit)
    ensures forall k :: 0 <= k < |IndicesOf(cs, s)| ==> IndicesOf(cs, s)[k] < |cs| && cs[IndicesOf(cs, s)[k]].suit == s
    ensures forall a, b :: 0 <= a < b < |IndicesOf(cs, s)| ==> IndicesOf(cs, s)[a] < IndicesOf(cs, s)[b]
    ensures forall j :: 0 <= j < |cs| && cs[j].suit == s ==> j in IndicesOf(cs, s)
    decreases |cs|
  {
    if cs != [] {
      var n := |cs| - 1;
      var front := cs[..n];
      IndicesOfMembers(front, s);
      var fx := IndicesOf(front, s);
      var ix := IndicesOf(cs, s);
      assert forall k :: 0 <= k < |fx| ==> fx[k] < n && cs[fx[k]] == front[fx[k]];
      if cs[n].suit == s {
        assert ix == fx + [n];
      } else {
        assert ix == fx;
      }
      forall j | 0 <= j < |cs| && cs[j].suit == s ensures j in ix {
        if j < n {
          assert front[j] == cs[j];
        }
      }
    }
  }

  /** Extending the catalog by one row extends only that row's suit list. */
  lemma IndicesOfSnoc(cs: seq<CardRow>, j: nat, t: Suit)
    requires j < |cs|
    ensures IndicesOf(cs[..j + 1], t) == IndicesOf(cs[..j], t) + (if cs[j].suit == t then [j] else [])
  {
    assert cs[..j + 1][..j] == cs[..j];
  }

  /** The suit lists depend on the suits alone. */
  lemma {:induction false} IndicesOfSameSuits(cs: seq<CardRow>, ds: seq<CardRow>, s: Suit)
    requires |cs| == |ds|
    requires forall j :: 0 <= j < |cs| ==> cs[j].suit == ds[j].suit
    ensures IndicesOf(cs, s) == IndicesOf(ds, s)
    decreases |cs|
  {
    if cs != [] {
      IndicesOfSameSuits(cs[..|cs| - 1], ds[..|ds| - 1], s);
    }
  }

  /** The service names of the rows, by position. */
  function Names(cs: seq<CardRow>): (names: seq<string>)
    ensures |names| == |cs|
    ensures forall j :: 0 <= j < |cs| ==> names[j] == cs[j].serviceName
  {
    seq(|cs|, j requires 0 <= j < |cs| => cs[j].serviceName)
  }

  /** The sort key of the row at position `j` (positions outside the catalog never occur). */
  function NameAt(names: seq<string>, j: nat): string
  {
    if j < |names| then names[j] else ""
  }

  /** `key=lambda x: x['service_name']`, as an order on row positions. */
  function ByName(names: seq<string>): (nat, nat) -> bool
  {
    (a: nat, b: nat) => LexLe(NameAt(names, a), NameAt(names, b))
  }

  lemma ByNameIsTotalPreorder(names: seq<string>)
    ensures IsTotalPreorder(ByName(names))
  {
    forall a: nat, b: nat ensures ByName(names)(a, b) || ByName(names)(b, a) {
      LexLeTotal(NameAt(names, a), NameAt(names, b));
    }
    forall a: nat, b: nat, c: nat | ByName(names)(a, b) && ByName(names)(b, c)
      ensures ByName(names)(a, c)
    {
      LexLeTransitive(NameAt(names, a), NameAt(names, b), NameAt(names, c));
    }
  }

  /**
   * The list of suit `s` after `suit_cards.sort(key=service_name)`: the
   * positions of that suit's rows, each once, ordered by service name.
   */
  ghost function SuitGroup(cs: seq<CardRow>, s: Suit): (g: seq<nat>)
    ensures multiset(g) == multiset(IndicesOf(cs, s))
    ensures forall i :: 0 <= i < |g| ==> g[i] < |cs| && cs[g[i]].suit == s
    ensures forall j :: 0 <= j < |cs| && cs[j].suit == s ==> j in g
    ensures Distinct(g)
  {
    var ix := IndicesOf(cs, s);
    IndicesOfMembers(cs, s);
    var g := SortBy<nat>(ix, ByName(Names(cs)));
    forall i | 0 <= i < |g| ensures g[i] < |cs| && cs[g[i]].suit == s {
      assert g[i] in multiset(ix);
    }
    forall j | 0 <= j < |cs| && cs[j].suit == s ensures j in g {
      assert j in multiset(ix);
    }
    DistinctPermutation(g, ix);
    g
  }

  /** Every suit list is ordered by service name, so its first row has the least name of the suit. */
  lemma SuitGroupSortedByName(cs: seq<CardRow>, s: Suit)
    ensures forall a, b :: 0 <= a < b < |SuitGroup(cs, s)| ==>
      LexLe(cs[SuitGroup(cs, s)[a]].serviceName, cs[SuitGroup(cs, s)[b]].serviceName)
  {
    ByNameIsTotalPreorder(Names(cs));
    SortBySorted<nat>(IndicesOf(cs, s), ByName(Names(cs)));
  }

  // ---------------------------------------------------------------------------
  // assign_ranks
  // ---------------------------------------------------------------------------

  /**
   * The outcome of assign_ranks on `before`: the rows stay where they are and
   * keep every field but the rank, and the row at position i of its suit's
   * sorted list holds ranks[i % 13].
   */
  ghost predicate RanksAssigned(before: seq<CardRow>, after: seq<CardRow>)
  {
    && SameButRanks(before, after)
    && (forall s, i :: 0 <= i < |SuitGroup(before, s)| ==>
          after[SuitGroup(before, s)[i]].rank == Ranked(RankAt(i % 13)))
  }

  /** The same rows in the same places, ranks aside. */
  ghost predicate SameButRanks(before: seq<CardRow>, after: seq<CardRow>)
  {
    && |after| == |before|
    && (forall j :: 0 <= j < |after| ==> after[j] == before[j].(rank := after[j].rank))
  }

  /** The suits in `done` are ranked as assign_ranks ranks them. */
  ghost predicate GroupsRanked(before: seq<CardRow>, after: seq<CardRow>, done: set<Suit>)
  {
    && |after| == |before|
    && (forall s, i :: s in done && 0 <= i < |SuitGroup(before, s)| ==>
          after[SuitGroup(before, s)[i]].rank == Ranked(RankAt(i % 13)))
  }

  /** Ranking one more suit keeps the suits ranked so far as they were. */
  lemma RankGroupStep(before: seq<CardRow>, cs: seq<CardRow>, next: seq<CardRow>, s: Suit, done: set<Suit>)
    requires SameButRanks(before, cs) && GroupsRanked(before, cs, done) && s !in done
    requires SameButRanks(cs, next)
    requires forall j :: 0 <= j < |next| && cs[j].suit != s ==> next[j] == cs[j]
    requires forall k :: 0 <= k < |SuitGroup(before, s)| ==> next[SuitGroup(before, s)[k]].rank == Ranked(RankAt(k % 13))
    ensures SameButRanks(before, next) && GroupsRanked(before, next, done + {s})
  {
    forall t, i | t in done && 0 <= i < |SuitGroup(before, t)|
      ensures next[SuitGroup(before, t)[i]].rank == Ranked(RankAt(i % 13))
    {
      var j := SuitGroup(before, t)[i];
      assert before[j].suit == t && cs[j].suit == t;
    }
  }

  /** A suit's list, read in rows whose ranks alone have changed, still points at rows of that suit. */
  lemma SuitGroupRows(before: seq<CardRow>, cs: seq<CardRow>, s: Suit)
    requires SameButRanks(before, cs)
    ensures forall k :: 0 <= k < |SuitGroup(before, s)| ==>
              SuitGroup(before, s)[k] < |cs| && cs[SuitGroup(before, s)[k]].suit == s
  {
  }

  /** Once every suit that has rows is done, the ranking is complete. */
  lemma AllGroupsRanked(before: seq<CardRow>, after: seq<CardRow>, done: set<Suit>)
    requires SameButRanks(before, after) && GroupsRanked(before, after, done)
    requires forall t :: t !in done ==> IndicesOf(before, t) == []
    ensures RanksAssigned(before, after)
  {
    forall t, i | 0 <= i < |SuitGroup(before, t)|
      ensures after[SuitGroup(before, t)[i]].rank == Ranked(RankAt(i % 13))
    {
      assert t in done;
    }
  }

  /**
   * The grouping loop of assign_ranks: the suits in order of first appearance,
   * each once, and for each of them the positions of its rows in catalog order.
   */
  method GroupBySuit(cs: seq<CardRow>) returns (order: seq<Suit>, groups: map<Suit, seq<nat>>)
    ensures forall t :: t in groups <==> t in order
    ensures forall a, b :: 0 <= a < b < |order| ==> order[a] != order[b]
    ensures forall t :: t in groups ==> groups[t] == IndicesOf(cs, t)
    ensures forall t :: t !in groups ==> IndicesOf(cs, t) == []
    ensures order == SuitsSeen(cs)
  {
    order := [];
    groups := map[];
    for j := 0 to |cs|
      invariant forall t :: t in groups <==> t in order
      invariant forall a, b :: 0 <= a < b < |order| ==> order[a] != order[b]
      invariant forall t :: t in groups ==> groups[t] == IndicesOf(cs[..j], t)
      invariant forall t :: t !in groups ==> IndicesOf(cs[..j], t) == []
      invariant order == SuitsSeen(cs[..j])
    {
      forall t ensures IndicesOf(cs[..j + 1], t) == IndicesOf(cs[..j], t) + (if cs[j].suit == t then [j] else []) {
        IndicesOfSnoc(cs, j, t);
      }
      var s := cs[j].suit;
      if s !in groups {
        groups := groups[s := []];
        order := order + [s];
      }
      assert cs[..j + 1][..j] == cs[..j];
      groups := groups[s := groups[s] + [j]];
    }
    assert cs[..|cs|] == cs;
  }

  /** The suits of the rows in order of first appearance, each once. */
  function SuitsSeen(cs: seq<CardRow>): (order: seq<Suit>)
    decreases |cs|
  {
    if cs == [] then []
    else
      var seen := SuitsSeen(cs[..|cs| - 1]);
      if cs[|cs| - 1].suit in seen then seen else seen + [cs[|cs| - 1].suit]
  }

  /**
   * The suits seen are exactly the suits that have rows, and each comes
   * before every suit whose first row is later: the position lists' heads
   * increase along the order.
   */
  lemma {:induction false} SuitsSeenFirstAppearance(cs: seq<CardRow>)
    ensures forall t :: t in SuitsSeen(cs) <==> IndicesOf(cs, t) != []
    ensures forall a, b :: 0 <= a < b < |SuitsSeen(cs)| ==>
              IndicesOf(cs, SuitsSeen(cs)[a])[0] < IndicesOf(cs, SuitsSeen(cs)[b])[0]
    decreases |cs|
  {
    if cs != [] {
      var n := |cs| - 1;
      var front := cs[..n];
      var seen := SuitsSeen(front);
      SuitsSeenFirstAppearance(front);
      assert cs[..n + 1] == cs;
      forall t ensures IndicesOf(cs, t) == IndicesOf(front, t) + (if cs[n].suit == t then [n] else []) {
        IndicesOfSnoc(cs, n, t);
      }
      forall t | IndicesOf(front, t) != [] ensures IndicesOf(cs, t)[0] == IndicesOf(front, t)[0] < n {
        IndicesOfMembers(front, t);
      }
    }
  }

  /** The head of a suit's position list is where that suit first appears. */
  lemma FirstIndexIsFirstAppearance(cs: seq<CardRow>, t: Suit)
    requires IndicesOf(cs, t) != []
    ensures var f := IndicesOf(cs, t)[0];
      f < |cs| && cs[f].suit == t && forall j :: 0 <= j < f ==> cs[j].suit != t
  {
    IndicesOfMembers(cs, t);
    var ix := IndicesOf(cs, t);
    forall j | 0 <= j < |cs| && cs[j].suit == t ensures ix[0] <= j {
      var k :| 0 <= k < |ix| && ix[k] == j;
      if k > 0 {
        assert ix[0] < ix[k];
      }
    }
  }

  /**
   * The ranking loop of assign_ranks for one suit's sorted list: the row at
   * position k of the list gets ranks[k % 13]; the rows of other suits and
   * every other field stay as they were.
   */
  method RankGroup(cs: seq<CardRow>, sorted: seq<nat>, ghost s: Suit) returns (r: seq<CardRow>)
    requires Distinct(sorted)
    requires forall k :: 0 <= k < |sorted| ==> sorted[k] < |cs| && cs[sorted[k]].suit == s
    ensures |r| == |cs|
    ensures forall j :: 0 <= j < |r| ==> r[j] == cs[j].(rank := r[j].rank)
    ensures forall j :: 0 <= j < |r| && cs[j].suit != s ==> r[j] == cs[j]
    ensures forall k :: 0 <= k < |sorted| ==> r[sorted[k]].rank == Ranked(RankAt(k % 13))
  {
    r := cs;
    for i := 0 to |sorted|
      invariant |r| == |cs|
      invariant forall j :: 0 <= j < |r| ==> r[j] == cs[j].(rank := r[j].rank)
      invariant forall j :: 0 <= j < |r| && cs[j].suit != s ==> r[j] == cs[j]
      invariant forall k :: 0 <= k < i ==> r[sorted[k]].rank == Ranked(RankAt(k % 13))
    {
      var idx := sorted[i];
      r := r[idx := r[idx].(rank := Ranked(RankAt(i % 13)))];
    }
  }

  /** The generator's card list. */
  class ArchitectureCardGenerator {
    var cards: seq<CardRow>

    constructor ()
      ensures cards == []
    {
      cards := [];
    }

    /**
     * assign_ranks: group the rows by suit in order of first appearance, sort
     * each group by service name, and give the i-th row of a group the rank
     * ranks[i % 13]. The groups hold the rows themselves, so the writes land
     * in `cards`, whose order is untouched.
     */
    method AssignRanks()
      modifies this
      ensures RanksAssigned(old(cards), cards)
    {
      var order, groups := GroupBySuit(cards);
      cards := RankGroups(cards, order, groups);
    }
  }

  /** The suits handled after one more turn of the loop over `order`. */
  lemma DonePrefixStep(order: seq<Suit>, g: nat, done: set<Suit>)
    requires g < |order|
    requires forall t :: t in done <==> t in order[..g]
    ensures forall t :: t in done + {order[g]} <==> t in order[..g + 1]
  {
    assert order[..g + 1] == order[..g] + [order[g]];
  }

  /**
   * The loop over the suit dictionary in assign_ranks: each suit's rows,
   * sorted by service name, get the ranks in cycle; every other row is left
   * as it was.
   */
  method RankGroups(cs0: seq<CardRow>, order: seq<Suit>, groups: map<Suit, seq<nat>>) returns (cs: seq<CardRow>)
    requires forall t :: t in groups <==> t in order
    requires forall a, b :: 0 <= a < b < |order| ==> order[a] != order[b]
    requires forall t :: t in groups ==> groups[t] == IndicesOf(cs0, t)
    requires forall t :: t !in groups ==> IndicesOf(cs0, t) == []
    ensures RanksAssigned(cs0, cs)
  {
    var names := Names(cs0);
    cs := cs0;
    ghost var done: set<Suit> := {};
    for g := 0 to |order|
      invariant SameButRanks(cs0, cs)
      invariant GroupsRanked(cs0, cs, done)
      invariant forall t :: t in done <==> t in order[..g]
    {
      var s := order[g];
      var sorted := SortBy<nat>(groups[s], ByName(names));
      assert sorted == SuitGroup(cs0, s);
      assert s !in order[..g];
      SuitGroupRows(cs0, cs, s);
      var next := RankGroup(cs, sorted, s);
      RankGroupStep(cs0, cs, next, s, done);
      cs := next;
      DonePrefixStep(order, g, done);
      done := done + {s};
    }
    assert order[..|order|] == order;
    AllGroupsRanked(cs0, cs, done);
  }

  /**
   * Rows of a suit with the same service name stay in catalog order, as
   * Python's stable sort keeps them; this decides which of them gets which rank.
   */
  lemma SuitGroupKeepsTieOrder(cs: seq<CardRow>, s: Suit, z: nat)
    ensures Filter(SuitGroup(cs, s), EquivTo(ByName(Names(cs)), z))
         == Filter(IndicesOf(cs, s), EquivTo(ByName(Names(cs)), z))
  {
    ByNameIsTotalPreorder(Names(cs));
    SortByStable<nat>(IndicesOf(cs, s), ByName(Names(cs)), z);
  }

  /** After assign_ranks every row has a rank. */
  lemma EveryRowRanked(before: seq<CardRow>, after: seq<CardRow>)
    requires RanksAssigned(before, after)
    ensures forall j :: 0 <= j < |after| ==> after[j].rank.Ranked?
  {
    forall j | 0 <= j < |after| ensures after[j].rank.Ranked? {
      var g := SuitGroup(before, before[j].suit);
      assert j in g;
      var i :| 0 <= i < |g| && g[i] == j;
      assert after[g[i]].rank == Ranked(RankAt(i % 13));
    }
  }

  /** The alphabetically first row of each suit is the Ace. */
  lemma FirstOfSuitIsAce(before: seq<CardRow>, after: seq<CardRow>, j: nat)
    requires RanksAssigned(before, after)
    requires j < |before|
    ensures exists f :: (0 <= f < |before| && before[f].suit == before[j].suit &&
      LexLe(before[f].serviceName, before[j].serviceName) && after[f].rank == Ranked(Ace))
  {
    var g := SuitGroup(before, before[j].suit);
    assert j in g;
    var i :| 0 <= i < |g| && g[i] == j;
    SuitGroupSortedByName(before, before[j].suit);
    if i > 0 {
      assert LexLe(before[g[0]].serviceName, before[g[i]].serviceName);
    } else {
      LexLeTotal(before[j].serviceName, before[j].serviceName);
    }
    assert RankAt(0 % 13) == Ace;
  }

  // ---------------------------------------------------------------------------
  // Rank balance within a suit
  // ---------------------------------------------------------------------------

  /** The rows of suit `s` whose rank is `r`. */
  function SuitRankCount(cs: seq<CardRow>, s: Suit, r: Rank): (n: nat)
    ensures n <= |cs|
    decreases |cs|
  {
    if cs == [] then 0
    else
      SuitRankCount(cs[..|cs| - 1], s, r)
        + (if cs[|cs| - 1].suit == s && cs[|cs| - 1].rank == Ranked(r) then 1 else 0)
  }

  /** How many of 0, 1, ..., n - 1 leave remainder k when divided by 13. */
  function CyclicCount(n: nat, k: nat): (c: nat)
    ensures c <= n
  {
    if n == 0 then 0 else CyclicCount(n - 1, k) + (if (n - 1) % 13 == k then 1 else 0)
  }

  lemma {:induction false} CyclicCountFormula(n: nat, k: nat)
    requires k < 13
    ensures CyclicCount(n, k) == n / 13 + (if k < n % 13 then 1 else 0)
  {
    if n > 0 {
      CyclicCountFormula(n - 1, k);
    }
  }

  /** Whether the row at a position has rank `r`. */
  function HasRankAt(cs: seq<CardRow>, r: Rank): nat -> bool
  {
    (j: nat) => j < |cs| && cs[j].rank == Ranked(r)
  }

  /** Counting the rows of a suit by rank is counting along the suit's list. */
  lemma {:induction false} SuitRankCountByIndices(cs: seq<CardRow>, n: nat, s: Suit, r: Rank)
    requires n <= |cs|
    ensures SuitRankCount(cs[..n], s, r) == CountWhere(IndicesOf(cs[..n], s), HasRankAt(cs, r))
    decreases n
  {
    if n > 0 {
      var j: nat := n - 1;
      var ix := IndicesOf(cs[..j], s);
      SuitRankCountByIndices(cs, j, s, r);
      IndicesOfSnoc(cs, j, s);
      SuitRankCountSnoc(cs, j, s, r);
      if cs[j].suit == s {
        CountWhereSnoc<nat>(ix, j, HasRankAt(cs, r));
        assert HasRankAt(cs, r)(j) == (cs[j].rank == Ranked(r));
      } else {
        assert ix + [] == ix;
      }
    }
  }

  lemma SuitRankCountSnoc(cs: seq<CardRow>, j: nat, s: Suit, r: Rank)
    requires j < |cs|
    ensures SuitRankCount(cs[..j + 1], s, r)
            == SuitRankCount(cs[..j], s, r) + (if cs[j].suit == s && cs[j].rank == Ranked(r) then 1 else 0)
  {
    assert cs[..j + 1][..j] == cs[..j];
  }

  /** Along a suit's sorted list the ranks run A, 2, ..., K, A, ..., so rank r occurs CyclicCount times. */
  lemma {:induction false} CountAlongGroup(after: seq<CardRow>, g: seq<nat>, m: nat, r: Rank)
    requires m <= |g|
    requires forall i :: 0 <= i < |g| ==> g[i] < |after| && after[g[i]].rank == Ranked(RankAt(i % 13))
    ensures CountWhere(g[..m], HasRankAt(after, r)) == CyclicCount(m, Ordinal(r))
    decreases m
  {
    if m > 0 {
      CountAlongGroup(after, g, m - 1, r);
      assert g[..m][..m - 1] == g[..m - 1];
      RankAtOrdinal(r);
      assert RankAt((m - 1) % 13) == r <==> (m - 1) % 13 == Ordinal(r);
    }
  }

  /** Within a suit, rank r occurs |group| / 13 times, plus one for the first |group| % 13 ranks. */
  lemma SuitRankCountIsCyclic(before: seq<CardRow>, after: seq<CardRow>, s: Suit, r: Rank)
    requires RanksAssigned(before, after)
    ensures SuitRankCount(after, s, r) == CyclicCount(|SuitGroup(before, s)|, Ordinal(r))
  {
    var g := SuitGroup(before, s);
    IndicesOfSameSuits(before, after, s);
    SuitRankCountByIndices(after, |after|, s, r);
    assert after[..|after|] == after;
    assert before[..|before|] == before;
    CountWherePermutation<nat>(IndicesOf(before, s), g, HasRankAt(after, r));
    CountAlongGroup(after, g, |g|, r);
    assert g[..|g|] == g;
  }

  /** Within each suit the counts of any two ranks differ by at most one. */
  lemma RanksBalancedWithinSuit(before: seq<CardRow>, after: seq<CardRow>, s: Suit, r1: Rank, r2: Rank)
    requires RanksAssigned(before, after)
    ensures SuitRankCount(after, s, r1) <= SuitRankCount(after, s, r2) + 1
  {
    var n := |SuitGroup(before, s)|;
    SuitRankCountIsCyclic(before, after, s, r1);
    SuitRankCountIsCyclic(before, after, s, r2);
    CyclicCountFormula(n, Ordinal(r1));
    CyclicCountFormula(n, Ordinal(r2));
  }
}
