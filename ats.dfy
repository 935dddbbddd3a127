/** The applicant tracking score: how many distinct keywords of a job's
    requirements and description occur in the text of the applicant's CV,
    scaled to a percentage with a 1.2 boost and capped at 100. */
module Ats {
  import opened Common

  /** What reading the stored CV file gives: no file at the path, an
      extraction that raised, or the extracted text. */
  datatype CvFile = Missing | Unreadable | Text(content: string)

  /** `s.replace(",", " ").split()`: the white-space and comma separated words of `s`. */
  function Tokens(s: string): (r: seq<string>)
    ensures forall i :: 0 <= i < |r| ==> r[i] != [] && NoSpace(r[i]) && ',' !in r[i]
  {
    var spaced := ReplaceChar(s, ',', ' ');
    SplitWordsLack(spaced, ',');
    Split(spaced)
  }

  /** The tokens are what is left of `s` once every comma is read as a space: put back
      between them, runs of white space (non-empty between two tokens) rebuild it. */
  lemma TokensRebuild(s: string)
    ensures exists gaps ::
      && |gaps| == |Tokens(s)| + 1
      && (forall i :: 0 <= i < |gaps| ==> AllSpace(gaps[i]))
      && (forall i :: 0 < i < |gaps| - 1 ==> gaps[i] != [])
      && ReplaceChar(s, ',', ' ') == Interleave(gaps, Tokens(s))
  {
    SplitWords(ReplaceChar(s, ',', ' '));
  }

  /** The lower-cased words of `words` longer than `minLen`, in order, duplicates kept
      (`[k.strip().lower() for k in words if len(k) > minLen]`). */
  function LongWords(words: seq<string>, minLen: nat): (r: seq<string>)
    ensures |r| <= |words|
    ensures forall k :: k in r ==> |k| > minLen
    ensures forall i :: 0 <= i < |words| && |words[i]| > minLen ==> Lower(words[i]) in r
  {
    if words == [] then []
    else
      var rest := LongWords(words[1..], minLen);
      if |words[0]| > minLen then [Lower(words[0])] + rest else rest
  }

  /** Nothing but the lower-cased long words is kept. */
  lemma {:induction false} LongWordsOnly(words: seq<string>, minLen: nat, k: string)
    requires k in LongWords(words, minLen)
    ensures exists i :: 0 <= i < |words| && |words[i]| > minLen && k == Lower(words[i])
  {
    if k == Lower(words[0]) && |words[0]| > minLen {
      assert 0 < |words|;
    } else {
      LongWordsOnly(words[1..], minLen, k);
      var i :| 0 <= i < |words[1..]| && |words[1..][i]| > minLen && k == Lower(words[1..][i]);
      assert words[i + 1] == words[1..][i];
    }
  }

  /** The keyword list: requirement tokens longer than 2, then description tokens longer than 4. */
  function Keywords(description: string, requirements: string): (r: seq<string>)
    ensures forall k :: k in r ==> |k| > 2
    ensures |r| <= |Tokens(requirements)| + |Tokens(description)|
  {
    LongWords(Tokens(requirements), 2) + LongWords(Tokens(description), 4)
  }

  /** What a keyword is, stated without the list comprehension: it is the lower-cased form
      of a requirement token longer than 2 characters or of a description token longer than 4. */
  lemma KeywordsCharacterised(description: string, requirements: string, k: string)
    ensures k in Keywords(description, requirements) <==>
      (exists i :: 0 <= i < |Tokens(requirements)| && |Tokens(requirements)[i]| > 2 && k == Lower(Tokens(requirements)[i])) ||
      (exists i :: 0 <= i < |Tokens(description)| && |Tokens(description)[i]| > 4 && k == Lower(Tokens(description)[i]))
    ensures k in Keywords(description, requirements) ==> |k| > 2
  {
    var req, desc := LongWords(Tokens(requirements), 2), LongWords(Tokens(description), 4);
    if k in req {
      LongWordsOnly(Tokens(requirements), 2, k);
    } else if k in desc {
      LongWordsOnly(Tokens(description), 4, k);
    }
  }

  /** The distinct keywords (`set(keywords)`). */
  function Distinct(keywords: seq<string>): (r: set<string>)
    ensures forall k :: k in r <==> k in keywords
    ensures keywords != [] ==> |r| > 0
  {
    var r := set k | k in keywords;
    assert keywords != [] ==> keywords[0] in r;
    r
  }

  /** The distinct keywords that occur in the CV text. */
  function MatchedSet(unique: set<string>, cvText: string): (r: set<string>)
    ensures r <= unique && |r| <= |unique|
    ensures forall k :: k in r <==> k in unique && Contains(cvText, k)
  {
    var r := set k | k in unique && Contains(cvText, k);
    SubsetCardinality(r, unique);
    r
  }

  lemma SubsetCardinality<T>(a: set<T>, b: set<T>)
    requires a <= b
    ensures |a| <= |b|
  {
    assert b == a + (b - a);
  }

  function RealMin(a: real, b: real): real { if a <= b then a else b }

  /** The score for `matched` of `total` distinct keywords, before rounding. */
  function Percentage(matched: nat, total: nat): (score: real)
    requires 0 < total && matched <= total
    ensures 0.0 <= score <= 100.0
  {
    RealMin(120.0 * (matched as real) / (total as real), 100.0)
  }

  /** The score of CV text against a non-empty keyword list. */
  function TextScore(keywords: seq<string>, cvText: string): (score: real)
    requires keywords != []
    ensures 0.0 <= score <= 100.0
  {
    var unique := Distinct(keywords);
    Percentage(|MatchedSet(unique, cvText)|, |unique|)
  }

  /** The score of CV text against the job's keyword list: 50 when the list is empty,
      else the capped percentage of distinct keywords found. */
  function KeywordScore(keywords: seq<string>, cvText: string): (score: real)
    ensures 0.0 <= score <= 100.0
    ensures keywords == [] ==> score == 50.0
  {
    if keywords == [] then 50.0 else TextScore(keywords, cvText)
  }

  /** The score of a CV against a job: 0 without a readable CV, 50 when the job yields no
      keyword, else the capped percentage of distinct keywords found in the lower-cased text. */
  function Score(description: string, requirements: string, cv: CvFile): (score: real)
    ensures 0.0 <= score <= 100.0
    ensures !cv.Text? ==> score == 0.0
    ensures cv.Text? && Keywords(description, requirements) == [] ==> score == 50.0
  {
    match cv
    case Missing => 0.0
    case Unreadable => 0.0
    case Text(raw) => KeywordScore(Keywords(description, requirements), Lower(raw))
  }

  /** Dividing by a positive number keeps a bound iff the product keeps it. */
  lemma DivAtLeast(x: real, t: real, c: real)
    requires t > 0.0
    ensures x / t >= c <==> x >= c * t
  {
    var q := x / t;
    assert x == q * t;
    if q >= c {
      assert (q - c) * t >= 0.0;
    } else {
      assert (c - q) * t > 0.0;
    }
  }

  /** The full score is reached exactly when at least five sixths of the distinct keywords
      are found (120·m/n ≥ 100). */
  lemma FullScoreIff(matched: nat, total: nat)
    requires 0 < total && matched <= total
    ensures Percentage(matched, total) == 100.0 <==> 6 * matched >= 5 * total
  {
    DivAtLeast(120.0 * (matched as real), total as real, 100.0);
  }

  /** No keyword found scores 0, every keyword found scores 100. */
  lemma ScoreExtremes(matched: nat, total: nat)
    requires 0 < total && matched <= total
    ensures matched == 0 ==> Percentage(matched, total) == 0.0
    ensures matched == total ==> Percentage(matched, total) == 100.0
  {
    FullScoreIff(matched, total);
  }

  /** More keywords found never lowers the score. */
  lemma PercentageMonotone(m1: nat, m2: nat, total: nat)
    requires 0 < total && m1 <= m2 <= total
    ensures Percentage(m1, total) <= Percentage(m2, total)
  {
    var t := total as real;
    assert 120.0 * (m1 as real) <= 120.0 * (m2 as real);
    assert 120.0 * (m1 as real) / t <= 120.0 * (m2 as real) / t;
  }

  /** Counting one more keyword adds one exactly when it occurs in the text. */
  lemma MatchedSetAdd(done: set<string>, k: string, cvText: string)
    requires k !in done
    ensures |MatchedSet(done + {k}, cvText)| ==
      |MatchedSet(done, cvText)| + (if Contains(cvText, k) then 1 else 0)
  {
    if Contains(cvText, k) {
      assert MatchedSet(done + {k}, cvText) == MatchedSet(done, cvText) + {k};
    } else {
      assert MatchedSet(done + {k}, cvText) == MatchedSet(done, cvText);
    }
  }

  /** The counting loop of `calculate_ats_score`: one pass over the distinct keywords. */
  method CountMatched(unique: set<string>, cvText: string) returns (matchedCount: nat)
    ensures matchedCount == |MatchedSet(unique, cvText)|
  {
    matchedCount := 0;
    var remaining := unique;
    while remaining != {}
      invariant remaining <= unique
      invariant matchedCount == |MatchedSet(unique - remaining, cvText)|
      decreases |remaining|
    {
      var keyword :| keyword in remaining;
      MatchedSetAdd(unique - remaining, keyword, cvText);
      assert unique - (remaining - {keyword}) == (unique - remaining) + {keyword};
      if Contains(cvText, keyword) {
        matchedCount := matchedCount + 1;
      }
      remaining := remaining - {keyword};
    }
    assert unique - remaining == unique;
  }

  /** The part of `calculate_ats_score` after extraction: 50 without keywords, else the
      distinct keywords, the counting loop and the capped percentage. */
  method ScoreKeywords(keywords: seq<string>, cvText: string) returns (score: real)
    ensures score == KeywordScore(keywords, cvText)
  {
    if keywords == [] {
      return 50.0;
    }
    var unique := Distinct(keywords);
    var matchedCount := CountMatched(unique, cvText);
    score := Percentage(matchedCount, |unique|);
  }

  /** `calculate_ats_score`: 0 without a readable CV, else the score of the lower-cased
      text against the job's keywords. */
  method CalculateAtsScore(description: string, requirements: string, cv: CvFile) returns (score: real)
    ensures score == Score(description, requirements, cv)
  {
    match cv {
      case Missing => score := 0.0;
      case Unreadable => score := 0.0;
      case Text(raw) => score := ScoreKeywords(Keywords(description, requirements), Lower(raw));
    }
  }
}
