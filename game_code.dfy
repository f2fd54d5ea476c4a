/**
 * The game-code helpers of PokerGame: the structural check on a code typed in
 * by a player, the pseudo-score derived from such a code, the formatting of a
 * new code from an MD5 hex digest, and the ranking-list update that records a
 * loaded code. The digest itself, the clock and the ranking file are outside
 * the model: the digest is a parameter and the ranking list is a value.
 */
module GameCode {
  import opened Text
  import Sorting

  // ---------------------------------------------------------------------------
  // validate_game_code
  // ---------------------------------------------------------------------------

  /** validate_game_code: three parts around '-', the last exactly four ASCII digits. */
  predicate ValidateGameCode(code: string)
  {
    var parts := Split(code, '-');
    |parts| == 3 && |parts[2]| == 4 && IsDigitString(parts[2])
  }

  /** A digit string holds no '-'. */
  lemma DigitsHaveNoHyphen(d: string)
    requires IsDigitString(d)
    ensures '-' !in d
  {
    forall i | 0 <= i < |d|
      ensures d[i] != '-'
    {
      assert IsAsciiDigit(d[i]);
    }
  }

  /** Three hyphen-free parts joined by '-' split back into those three parts. */
  lemma SplitThree(a: string, b: string, d: string)
    requires '-' !in a && '-' !in b && '-' !in d
    ensures Split(a + "-" + b + "-" + d, '-') == [a, b, d]
  {
    SplitJoin([a, b, d], '-');
    assert Join([a, b, d], '-') == a + "-" + b + "-" + d by {
      assert [a, b, d][1..] == [b, d];
      assert [b, d][1..] == [d];
      assert Join([d], '-') == d;
      assert Join([b, d], '-') == b + "-" + d;
    }
  }

  /**
   * Every string built as A-B-DDDD, with A and B free of hyphens and DDDD four
   * digits, is accepted, whatever A and B are (even empty: "--1234").
   */
  lemma ValidateAccepts(a: string, b: string, d: string)
    requires '-' !in a && '-' !in b
    requires |d| == 4 && IsDigitString(d)
    ensures ValidateGameCode(a + "-" + b + "-" + d)
  {
    DigitsHaveNoHyphen(d);
    SplitThree(a, b, d);
  }

  /** And every accepted code has that shape. */
  lemma ValidateHasShape(code: string)
    requires ValidateGameCode(code)
    ensures var parts := Split(code, '-');
            && code == parts[0] + "-" + parts[1] + "-" + parts[2]
            && '-' !in parts[0] && '-' !in parts[1]
            && |parts[2]| == 4 && IsDigitString(parts[2])
  {
    var parts := Split(code, '-');
    JoinSplit(code, '-');
    SplitShape(code, '-');
    assert Join(parts, '-') == parts[0] + "-" + parts[1] + "-" + parts[2] by {
      assert Join(parts[1..][1..], '-') == parts[2];
      assert Join(parts[1..], '-') == parts[1] + "-" + parts[2];
    }
  }

  /** validate("CLOUD-LAMBDA-1234") holds. */
  lemma ValidateAcceptsExample()
    ensures ValidateGameCode("CLOUD-LAMBDA-1234")
  {
    assert IsDigitString("1234");
    ValidateAccepts("CLOUD", "LAMBDA", "1234");
    assert "CLOUD" + "-" + "LAMBDA" + "-" + "1234" == "CLOUD-LAMBDA-1234";
  }

  /** validate("--1234") holds too: the two words are not checked at all. */
  lemma ValidateAcceptsEmptyWords()
    ensures ValidateGameCode("--1234")
  {
    assert IsDigitString("1234");
    ValidateAccepts("", "", "1234");
    assert "" + "-" + "" + "-" + "1234" == "--1234";
  }

  /** validate("CLOUD-1234") fails: two parts only. */
  lemma ValidateRejectsTwoParts()
    ensures !ValidateGameCode("CLOUD-1234")
  {
    SplitWithoutSep("1234", '-');
    SplitAtFirstSep("CLOUD", "1234", '-');
    assert "CLOUD-1234" == "CLOUD" + "-" + "1234";
  }

  // ---------------------------------------------------------------------------
  // generate_dummy_score_from_code
  // ---------------------------------------------------------------------------

  /** sum(ord(c) for c in code). */
  function OrdSum(code: string): (n: nat)
    ensures code == [] ==> n == 0
  {
    if code == [] then 0 else code[0] as nat + OrdSum(code[1..])
  }

  /** The character sum of a concatenation is the sum of the parts' sums. */
  lemma {:induction false} OrdSumConcat(a: string, b: string)
    ensures OrdSum(a + b) == OrdSum(a) + OrdSum(b)
    decreases |a|
  {
    if a != [] {
      OrdSumConcat(a[1..], b);
      assert (a + b)[1..] == a[1..] + b;
      assert OrdSum(a + b) == a[0] as nat + OrdSum(a[1..] + b);
    } else {
      assert a + b == b;
    }
  }

  /** generate_dummy_score_from_code: the character sum modulo 5000, plus 1000. */
  function DummyScore(code: string): (score: int)
    ensures 1000 <= score <= 5999
  {
    OrdSum(code) % 5000 + 1000
  }

  /** The character sum depends only on which characters occur, not on their order. */
  lemma {:induction false} OrdSumPermutation(a: string, b: string)
    requires multiset(a) == multiset(b)
    ensures OrdSum(a) == OrdSum(b)
    decreases |a|
  {
    if a == [] {
      assert |multiset(b)| == 0;
    } else {
      var k := Sorting.IndexOf(b, a[0]);
      var rest := b[..k] + b[k + 1..];
      Sorting.PermutationRemoveFirst(a, b, k);
      OrdSumPermutation(a[1..], rest);
      OrdSumRemoveAt(b, k);
    }
  }

  /** Taking out the character at position k takes its code point out of the sum. */
  lemma OrdSumRemoveAt(b: string, k: nat)
    requires k < |b|
    ensures OrdSum(b) == b[k] as nat + OrdSum(b[..k] + b[k + 1..])
  {
    var front, tail, back := b[..k], b[k..], b[k + 1..];
    assert b == front + tail;
    assert tail[0] == b[k] && tail[1..] == back;
    OrdSumConcat(front, tail);
    OrdSumConcat(front, back);
  }

  /** The pseudo-score ignores the order of the characters: any reordering of a code gets the same score. */
  lemma DummyScoreIgnoresOrder(a: string, b: string)
    requires multiset(a) == multiset(b)
    ensures DummyScore(a) == DummyScore(b)
  {
    OrdSumPermutation(a, b);
  }

  // ---------------------------------------------------------------------------
  // The formatting half of generate_game_code
  // ---------------------------------------------------------------------------

  const Words: seq<string> := ["CLOUD", "SCALE", "SECURE", "DEPLOY", "LAMBDA", "BUCKET", "QUEUE", "STACK"]

  predicate IsHexDigit(c: char)
  {
    '0' <= c <= '9' || 'a' <= c <= 'f'
  }

  /** What hashlib.md5(...).hexdigest() returns: 32 lower-case hexadecimal characters. */
  predicate IsHexDigest(h: string)
  {
    |h| == 32 && forall i :: 0 <= i < |h| ==> IsHexDigit(h[i])
  }

  function HexDigitValue(c: char): (v: nat)
    requires IsHexDigit(c)
    ensures v < 16
  {
    if '0' <= c <= '9' then c as nat - '0' as nat else c as nat - 'a' as nat + 10
  }

  function Pow16(n: nat): (p: nat)
    ensures p >= 1
  {
    if n == 0 then 1 else 16 * Pow16(n - 1)
  }

  /** int(s, 16) for a string of hexadecimal digits, most significant first. */
  function HexValue(s: string): (v: nat)
    requires forall i :: 0 <= i < |s| ==> IsHexDigit(s[i])
    ensures v < Pow16(|s|)
    decreases |s|
  {
    if s == [] then 0
    else HexValue(s[..|s| - 1]) * 16 + HexDigitValue(s[|s| - 1])
  }

  /** The 16-bit slice hex[4:8] reads as a value in 0 .. 65535. */
  lemma SliceRange(hex: string)
    requires IsHexDigest(hex)
    ensures HexValue(hex[4..8]) <= 65535
  {
    assert Pow16(4) == 65536;
  }

  /** generate_game_code after the digest: word-word-str(v)[-4:], with no zero padding. */
  function FormatGameCode(hex: string): (code: string)
    requires IsHexDigest(hex)
  {
    var word1 := Words[HexValue(hex[..2]) % |Words|];
    var word2 := Words[HexValue(hex[2..4]) % |Words|];
    var numPart := LastN(Decimal(HexValue(hex[4..8])), 4);
    word1 + "-" + word2 + "-" + numPart
  }

  /** The suffix: the last four decimal digits of v, or all of them when v has fewer. */
  lemma SuffixShape(v: nat)
    ensures IsDigitString(LastN(Decimal(v), 4))
    ensures |LastN(Decimal(v), 4)| == 4 <==> v >= 1000
  {
    DecimalShape(v);
    var s := Decimal(v);
    var r := LastN(s, 4);
    forall i | 0 <= i < |r|
      ensures IsAsciiDigit(r[i])
    {
      assert r[i] == s[|s| - |r| + i];
    }
  }

  /**
   * A generated code is two words from the table and a digit suffix, joined
   * by '-'; it passes validate_game_code exactly when v = int(hex[4:8], 16)
   * is at least 1000, since the suffix is not zero-padded.
   */
  lemma FormatThenValidate(hex: string)
    requires IsHexDigest(hex)
    ensures var code := FormatGameCode(hex);
            var parts := Split(code, '-');
            && |parts| == 3
            && parts[0] in Words && parts[1] in Words
            && parts[2] == LastN(Decimal(HexValue(hex[4..8])), 4)
    ensures ValidateGameCode(FormatGameCode(hex)) <==> HexValue(hex[4..8]) >= 1000
  {
    var word1 := Words[HexValue(hex[..2]) % |Words|];
    var word2 := Words[HexValue(hex[2..4]) % |Words|];
    var numPart := LastN(Decimal(HexValue(hex[4..8])), 4);
    SuffixShape(HexValue(hex[4..8]));
    DigitsHaveNoHyphen(numPart);
    WordsHaveNoHyphen(HexValue(hex[..2]) % |Words|);
    WordsHaveNoHyphen(HexValue(hex[2..4]) % |Words|);
    SplitThree(word1, word2, numPart);
  }

  lemma WordsHaveNoHyphen(i: nat)
    requires i < |Words|
    ensures '-' !in Words[i]
  {
  }

  /** A digest whose bytes 2..3 read 0x0064 (100) gives a code that fails validation. */
  lemma ShortSuffixExample()
    ensures var hex := "0000" + "0064" + "000000000000000000000000";
            IsHexDigest(hex) && !ValidateGameCode(FormatGameCode(hex))
  {
    var hex := "0000" + "0064" + "000000000000000000000000";
    assert hex[4..8] == "0064";
    assert HexValue("0064") == 100 by {
      assert "0064"[..3] == "006";
      assert "006"[..2] == "00";
      assert "00"[..1] == "0";
      assert "0"[..0] == "";
    }
    FormatThenValidate(hex);
  }

  // ---------------------------------------------------------------------------
  // add_score_to_ranking (the list logic)
  // ---------------------------------------------------------------------------

  datatype RoundRecord = RoundRecord(hand: string, score: int)

  /** One ranking entry; the timestamp is not modelled. */
  datatype RankingEntry = RankingEntry(code: string, totalScore: int, rounds: seq<RoundRecord>, loaded: bool)

  /** The entry recorded for a loaded code: five "Unknown" rounds of score // 5 each. */
  function LoadedEntry(code: string, score: int): (e: RankingEntry)
    ensures e.code == code && e.totalScore == score && e.loaded
    ensures |e.rounds| == 5
    ensures forall i :: 0 <= i < 5 ==> e.rounds[i] == RoundRecord("Unknown", score / 5)
  {
    RankingEntry(code, score, seq(5, _ => RoundRecord("Unknown", score / 5)), true)
  }

  /** `any(entry["code"] == game_code for entry in rankings)`. */
  predicate HasCode(rankings: seq<RankingEntry>, code: string)
  {
    exists i :: 0 <= i < |rankings| && rankings[i].code == code
  }

  /** The sort key of `rankings.sort(key=total_score, reverse=True)`: higher scores first. */
  predicate ScoreGe(a: RankingEntry, b: RankingEntry)
  {
    a.totalScore >= b.totalScore
  }

  /**
   * The list update of add_score_to_ranking: a code already in the list
   * changes nothing; otherwise the loaded entry is appended and the list is
   * sorted by total score, highest first.
   */
  function AddScoreToRanking(rankings: seq<RankingEntry>, code: string, score: int): (r: seq<RankingEntry>)
    ensures HasCode(rankings, code) ==> r == rankings
    ensures !HasCode(rankings, code) ==>
              multiset(r) == multiset(rankings) + multiset{LoadedEntry(code, score)}
  {
    if HasCode(rankings, code) then rankings
    else Sorting.SortBy(rankings + [LoadedEntry(code, score)], ScoreGe)
  }

  lemma ScoreGeIsTotalPreorder()
    ensures Sorting.IsTotalPreorder(ScoreGe)
  {
  }

  /**
   * After the update the list is sorted by score, highest first: a new code
   * re-sorts the whole list, and a known code leaves a sorted list as it was.
   */
  lemma AddScoreSorted(rankings: seq<RankingEntry>, code: string, score: int)
    requires Sorting.SortedBy(rankings, ScoreGe) || !HasCode(rankings, code)
    ensures Sorting.SortedBy(AddScoreToRanking(rankings, code, score), ScoreGe)
  {
    if !HasCode(rankings, code) {
      ScoreGeIsTotalPreorder();
      Sorting.SortBySorted(rankings + [LoadedEntry(code, score)], ScoreGe);
    }
  }

  /**
   * Entries with equal scores keep their order, as Python's stable sort keeps
   * them even with reverse=True: the old entries as they were listed, then
   * the new one.
   */
  lemma AddScoreKeepsTieOrder(rankings: seq<RankingEntry>, code: string, score: int, z: RankingEntry)
    requires !HasCode(rankings, code)
    ensures Sorting.Filter(AddScoreToRanking(rankings, code, score), Sorting.EquivTo(ScoreGe, z))
         == Sorting.Filter(rankings + [LoadedEntry(code, score)], Sorting.EquivTo(ScoreGe, z))
  {
    ScoreGeIsTotalPreorder();
    Sorting.SortByStable(rankings + [LoadedEntry(code, score)], ScoreGe, z);
  }

  /** After adding a new code, the code is in the list. */
  lemma AddScoreRecordsCode(rankings: seq<RankingEntry>, code: string, score: int)
    ensures HasCode(AddScoreToRanking(rankings, code, score), code)
  {
    if !HasCode(rankings, code) {
      var r := AddScoreToRanking(rankings, code, score);
      assert LoadedEntry(code, score) in multiset(r);
      var i :| 0 <= i < |r| && r[i] == LoadedEntry(code, score);
      assert r[i].code == code;
    }
  }
}
