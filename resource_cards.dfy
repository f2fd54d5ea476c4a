/**
 * The catalog generator for the resource icons (create_cards.py).
 *
 * A colour is guessed from keywords in the lower-cased file path, checked in
 * a fixed order so that the first group that matches decides; the icons are
 * ranked A, 2, ..., K, A, ... by their position in the list of icon paths
 * sorted as strings.
 */
module ResourceCards {
  import opened Text
  import opened Sorting
  import opened Cards

  // ---------------------------------------------------------------------------
  // extract_color_from_filename
  // ---------------------------------------------------------------------------

  /** The keyword groups of the first chain of tests, in the order they are tried. */
  predicate RedKeyword(l: string)
  {
    Contains(l, "red") || Contains(l, "alarm") || Contains(l, "error")
  }

  predicate BlueKeyword(l: string)
  {
    Contains(l, "blue") || Contains(l, "database") || Contains(l, "storage")
  }

  predicate GreenKeyword(l: string)
  {
    Contains(l, "green") || Contains(l, "success") || Contains(l, "compute")
  }

  predicate OrangeKeyword(l: string)
  {
    Contains(l, "orange") || Contains(l, "analytics") || Contains(l, "lambda")
  }

  predicate PurpleKeyword(l: string)
  {
    Contains(l, "purple") || Contains(l, "ai") || Contains(l, "ml")
  }

  predicate YellowKeyword(l: string)
  {
    Contains(l, "yellow") || Contains(l, "security")
  }

  /** Some test of the first chain matches. */
  predicate ColourKeyword(l: string)
  {
    RedKeyword(l) || BlueKeyword(l) || GreenKeyword(l) || OrangeKeyword(l) || PurpleKeyword(l) || YellowKeyword(l)
  }

  /**
   * extract_color_from_filename: the colour of the first keyword group that
   * occurs in the lower-cased name; failing all of them, the "res_" category
   * tests; failing those too, Gray. The answer is always one of the seven colours.
   */
  function ExtractColorFromFilename(filename: string): (s: Suit)
    ensures !s.Other?
  {
    var l := Lower(filename);
    if Contains(l, "red") || Contains(l, "alarm") || Contains(l, "error") then Red
    else if Contains(l, "blue") || Contains(l, "database") || Contains(l, "storage") then Blue
    else if Contains(l, "green") || Contains(l, "success") || Contains(l, "compute") then Green
    else if Contains(l, "orange") || Contains(l, "analytics") || Contains(l, "lambda") then Orange
    else if Contains(l, "purple") || Contains(l, "ai") || Contains(l, "ml") then Purple
    else if Contains(l, "yellow") || Contains(l, "security") then Yellow
    else if Contains(l, "res_database") then Blue
    else if Contains(l, "res_compute") then Green
    else if Contains(l, "res_storage") then Blue
    else if Contains(l, "res_analytics") then Orange
    else if Contains(l, "res_security") then Yellow
    else if Contains(l, "res_networking") then Purple
    else if Contains(l, "res_iot") then Red
    else if Contains(l, "res_artificial-intelligence") then Purple
    else if Contains(l, "res_management") then Gray
    else Gray
  }

  /** The name is lower-cased first, so upper and lower case give the same colour. */
  lemma ExtractColorIgnoresCase(filename: string)
    ensures ExtractColorFromFilename(Lower(filename)) == ExtractColorFromFilename(filename)
  {
    LowerIdempotent(filename);
  }

  /** First match wins: a red keyword makes the colour Red whatever else the name holds. */
  lemma RedKeywordWins(filename: string)
    requires RedKeyword(Lower(filename))
    ensures ExtractColorFromFilename(filename) == Red
  {
  }

  /** A name with no keyword at all is Gray. */
  lemma NoKeywordIsGray(filename: string)
    requires !ColourKeyword(Lower(filename))
    requires !Contains(Lower(filename), "res_networking") && !Contains(Lower(filename), "res_iot")
    requires !Contains(Lower(filename), "res_artificial-intelligence")
    ensures ExtractColorFromFilename(filename) == Gray
  {
    CategoryTestsShadowed(Lower(filename));
  }

  /**
   * Five of the category tests can never decide: each of their names
   * contains a keyword of the first chain, which has already matched.
   */
  lemma CategoryTestsShadowed(l: string)
    ensures Contains(l, "res_database") ==> BlueKeyword(l)
    ensures Contains(l, "res_compute") ==> GreenKeyword(l)
    ensures Contains(l, "res_storage") ==> BlueKeyword(l)
    ensures Contains(l, "res_analytics") ==> OrangeKeyword(l)
    ensures Contains(l, "res_security") ==> YellowKeyword(l)
  {
    if Contains(l, "res_database") {
      assert "res_database" == "res_" + "database";
      ContainsSuffix(l, "res_", "database");
    }
    if Contains(l, "res_compute") {
      assert "res_compute" == "res_" + "compute";
      ContainsSuffix(l, "res_", "compute");
    }
    if Contains(l, "res_storage") {
      assert "res_storage" == "res_" + "storage";
      ContainsSuffix(l, "res_", "storage");
    }
    if Contains(l, "res_analytics") {
      assert "res_analytics" == "res_" + "analytics";
      ContainsSuffix(l, "res_", "analytics");
    }
    if Contains(l, "res_security") {
      assert "res_security" == "res_" + "security";
      ContainsSuffix(l, "res_", "security");
    }
  }

  /**
   * Blue, Green, Orange and Yellow come only from the first chain: each is
   * returned exactly when its keyword group is the first that matches.
   */
  lemma ColourFromFirstChain(filename: string)
    ensures var l := Lower(filename);
      ExtractColorFromFilename(filename) == Blue <==> !RedKeyword(l) && BlueKeyword(l)
    ensures var l := Lower(filename);
      ExtractColorFromFilename(filename) == Green <==> !RedKeyword(l) && !BlueKeyword(l) && GreenKeyword(l)
    ensures var l := Lower(filename);
      ExtractColorFromFilename(filename) == Orange <==>
        !RedKeyword(l) && !BlueKeyword(l) && !GreenKeyword(l) && OrangeKeyword(l)
    ensures var l := Lower(filename);
      ExtractColorFromFilename(filename) == Yellow <==>
        !RedKeyword(l) && !BlueKeyword(l) && !GreenKeyword(l) && !OrangeKeyword(l) && !PurpleKeyword(l) && YellowKeyword(l)
  {
    CategoryTestsShadowed(Lower(filename));
  }

  // ---------------------------------------------------------------------------
  // get_rank_name
  // ---------------------------------------------------------------------------

  /** The rank names, A first. */
  const RankNames: seq<string> := ["A", "2", "3", "4", "5", "6", "7", "8", "9", "10", "J", "Q", "K"]

  /** get_rank_name: the rank name at the index taken modulo 13, the name of the rank at that position. */
  function GetRankName(index: nat): (r: string)
    ensures r == RankName(RankAt(index % 13))
  {
    RankNames[index % |RankNames|]
  }

  /** The names repeat with period 13, and index 0 is the Ace. */
  lemma GetRankNamePeriodic(index: nat, k: nat)
    ensures GetRankName(index + 13 * k) == GetRankName(index)
    ensures GetRankName(13 * k) == "A"
  {
    RemainderPeriodic(index, k);
    RemainderPeriodic(0, k);
  }

  lemma {:induction false} RemainderPeriodic(x: nat, k: nat)
    ensures (x + 13 * k) % 13 == x % 13
    decreases k
  {
    if k > 0 {
      RemainderPeriodic(x, k - 1);
      assert x + 13 * k == (x + 13 * (k - 1)) + 13;
    }
  }

  // ---------------------------------------------------------------------------
  // The rows of create_cards_csv
  // ---------------------------------------------------------------------------

  /** An icon found under the resource directory: its full path, its path relative to the script, its file name. */
  datatype IconFile = IconFile(fullPath: string, relativePath: string, name: string)

  /** A row of the catalog: path, filename, rank, suit. */
  datatype ResourceRow = ResourceRow(path: string, filename: string, rank: string, suit: Suit)

  /** `key=lambda x: str(x)`: icons ordered by their full path. */
  function ByPath(): (IconFile, IconFile) -> bool
  {
    (a: IconFile, b: IconFile) => LexLe(a.fullPath, b.fullPath)
  }

  lemma ByPathIsTotalPreorder()
    ensures IsTotalPreorder(ByPath())
  {
    forall a: IconFile, b: IconFile ensures ByPath()(a, b) || ByPath()(b, a) {
      LexLeTotal(a.fullPath, b.fullPath);
    }
    forall a: IconFile, b: IconFile, c: IconFile | ByPath()(a, b) && ByPath()(b, c)
      ensures ByPath()(a, c)
    {
      LexLeTransitive(a.fullPath, b.fullPath, c.fullPath);
    }
  }

  /**
   * The rows written by create_cards_csv: the icons sorted by path, the i-th
   * ranked get_rank_name(i) and coloured from its full path.
   */
  function CardRows(files: seq<IconFile>): (rows: seq<ResourceRow>)
    ensures |rows| == |files|
    ensures forall i :: 0 <= i < |rows| ==> rows[i].rank == GetRankName(i) && !rows[i].suit.Other?
  {
    var sorted := SortBy(files, ByPath());
    seq(|sorted|, i requires 0 <= i < |sorted| =>
      ResourceRow(sorted[i].relativePath, sorted[i].name, GetRankName(i), ExtractColorFromFilename(sorted[i].fullPath)))
  }

  /** The rows describe the icons, each once, in path order. */
  lemma CardRowsDescribeIcons(files: seq<IconFile>)
    ensures var sorted := SortBy(files, ByPath());
      && multiset(sorted) == multiset(files)
      && (forall i :: 0 <= i < |files| ==>
            CardRows(files)[i] == ResourceRow(sorted[i].relativePath, sorted[i].name, GetRankName(i), ExtractColorFromFilename(sorted[i].fullPath)))
      && SortedBy(sorted, ByPath())
  {
    ByPathIsTotalPreorder();
    SortBySorted(files, ByPath());
  }

  /** No two icons share a path, as files found on disk do not. */
  ghost predicate PathsDistinct(files: seq<IconFile>)
  {
    forall a, b :: 0 <= a < b < |files| ==> files[a].fullPath != files[b].fullPath
  }

  /** `a < b` on Python strings. */
  predicate LexLt(a: string, b: string)
  {
    LexLe(a, b) && a != b
  }

  /** Whether an icon's path comes before `path`. */
  function PathBefore(path: string): IconFile -> bool
  {
    (f: IconFile) => LexLt(f.fullPath, path)
  }

  /** Sorting keeps the paths distinct. */
  lemma SortedPathsDistinct(files: seq<IconFile>)
    requires PathsDistinct(files)
    ensures PathsDistinct(SortBy(files, ByPath()))
  {
    var sorted := SortBy(files, ByPath());
    assert Distinct(files);
    DistinctPermutation(sorted, files);
    forall a, b | 0 <= a < b < |sorted| ensures sorted[a].fullPath != sorted[b].fullPath {
      assert sorted[a] in multiset(files) && sorted[b] in multiset(files);
      var a' :| 0 <= a' < |files| && files[a'] == sorted[a];
      var b' :| 0 <= b' < |files| && files[b'] == sorted[b];
      assert a' != b';
    }
  }

  /** In a path-sorted list without repeated paths, exactly the first i icons come before the i-th. */
  lemma CountBeforeInSorted(sorted: seq<IconFile>, i: nat)
    requires i < |sorted|
    requires SortedBy(sorted, ByPath()) && PathsDistinct(sorted)
    ensures CountWhere(sorted, PathBefore(sorted[i].fullPath)) == i
  {
    var p := PathBefore(sorted[i].fullPath);
    var front, back := sorted[..i], sorted[i..];
    assert sorted == front + back;
    CountWhereConcat(front, back, p);
    EarlierPathsBefore(sorted, i);
    LaterPathsNotBefore(sorted, i);
  }

  lemma EarlierPathsBefore(sorted: seq<IconFile>, i: nat)
    requires i < |sorted|
    requires SortedBy(sorted, ByPath()) && PathsDistinct(sorted)
    ensures CountWhere(sorted[..i], PathBefore(sorted[i].fullPath)) == i
  {
    forall k | 0 <= k < i ensures LexLt(sorted[k].fullPath, sorted[i].fullPath) {
      assert ByPath()(sorted[k], sorted[i]);
    }
    CountWhereAll(sorted[..i], PathBefore(sorted[i].fullPath));
  }

  lemma LaterPathsNotBefore(sorted: seq<IconFile>, i: nat)
    requires i < |sorted|
    requires SortedBy(sorted, ByPath()) && PathsDistinct(sorted)
    ensures CountWhere(sorted[i..], PathBefore(sorted[i].fullPath)) == 0
  {
    forall k | i <= k < |sorted| ensures !LexLt(sorted[k].fullPath, sorted[i].fullPath) {
      if k > i {
        assert ByPath()(sorted[i], sorted[k]);
        if LexLe(sorted[k].fullPath, sorted[i].fullPath) {
          LexLeAntisymmetric(sorted[k].fullPath, sorted[i].fullPath);
        }
      }
    }
    CountWhereNone(sorted[i..], PathBefore(sorted[i].fullPath));
  }

  /**
   * An icon's rank is fixed by how many icons have a smaller path, whatever
   * order the directory walk returned them in.
   */
  lemma RankIsCountOfEarlierPaths(files: seq<IconFile>, i: nat)
    requires PathsDistinct(files)
    requires i < |files|
    ensures var sorted := SortBy(files, ByPath());
      CardRows(files)[i].rank == GetRankName(CountWhere(files, PathBefore(sorted[i].fullPath)))
  {
    var sorted := SortBy(files, ByPath());
    ByPathIsTotalPreorder();
    SortBySorted(files, ByPath());
    SortedPathsDistinct(files);
    CountBeforeInSorted(sorted, i);
    CountWherePermutation(files, sorted, PathBefore(sorted[i].fullPath));
  }
}
