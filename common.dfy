/** Shared vocabulary of the model: optional values, endpoint responses,
    and the small sequence and string operations that the backend's queries
    and the pages' list handling are built from. */
module Common {

  datatype Option<T> = None | Some(value: T)

  /** An HTTPException raised by an endpoint: the status code and its detail text. */
  datatype HttpError = HttpError(status: nat, detail: string)

  /** What an endpoint hands back: a value, or the HTTPException it raised. */
  datatype Response<T> = Ok(value: T) | Err(error: HttpError)

  /** A page's list after a refetch, with its loading flag: the answer, or the list it
      had when the request failed; loading ends either way. */
  function AfterRefetch<T>(items: seq<T>, fetched: Option<seq<T>>): (r: (seq<T>, bool))
    ensures !r.1
    ensures fetched.Some? ==> r.0 == fetched.value
    ensures fetched.None? ==> r.0 == items
  {
    (if fetched.Some? then fetched.value else items, false)
  }

  function Min(a: int, b: int): int { if a <= b then a else b }
  function Max(a: int, b: int): int { if a <= b then b else a }

  // ---------------------------------------------------------------------
  // Sequences: the shapes of the queries (filter, offset/limit, first, order by)

  /** The rows of `s` satisfying `p`, in their original order (a WHERE clause, or Array.filter). */
  function Filter<T>(s: seq<T>, p: T -> bool): (r: seq<T>)
    ensures |r| <= |s|
    ensures forall x :: x in r ==> x in s && p(x)
    ensures forall x :: x in s && p(x) ==> x in r
  {
    if s == [] then []
    else if p(s[0]) then [s[0]] + Filter(s[1..], p)
    else Filter(s[1..], p)
  }

  /** `.offset(skip).limit(limit)`: the rows from position `skip` on, at most `limit` of them. */
  function Window<T>(s: seq<T>, skip: nat, limit: nat): (r: seq<T>)
    ensures |r| == if skip >= |s| then 0 else Min(limit, |s| - skip)
    ensures forall i :: 0 <= i < |r| ==> r[i] == s[skip + i]
  {
    if skip >= |s| then [] else s[skip .. skip + Min(limit, |s| - skip)]
  }

  /** Two consecutive pages together are the page covering both. */
  lemma WindowsConcat<T>(s: seq<T>, skip: nat, n: nat, m: nat)
    ensures Window(s, skip, n) + Window(s, skip + n, m) == Window(s, skip, n + m)
  {
    var a, b, c := Window(s, skip, n), Window(s, skip + n, m), Window(s, skip, n + m);
    assert |a + b| == |c|;
    forall i | 0 <= i < |c| ensures (a + b)[i] == c[i] {
      if i >= |a| {
        assert b[i - |a|] == s[skip + n + (i - |a|)];
      }
    }
  }

  /** Index of the first element satisfying `p` (`.filter(...).first()`, or Array.find). */
  function FindFirst<T>(s: seq<T>, p: T -> bool): (r: Option<nat>)
    ensures r.Some? ==> r.value < |s| && p(s[r.value])
    ensures r.Some? ==> forall j :: 0 <= j < r.value ==> !p(s[j])
    ensures r.None? ==> forall j :: 0 <= j < |s| ==> !p(s[j])
  {
    if s == [] then None
    else if p(s[0]) then Some(0)
    else match FindFirst(s[1..], p)
      case None => None
      case Some(k) => Some(k + 1)
  }

  /** True iff some element satisfies `p` (Array.some). */
  predicate Any<T>(s: seq<T>, p: T -> bool)
  {
    exists i :: 0 <= i < |s| && p(s[i])
  }

  lemma AnyIffFound<T>(s: seq<T>, p: T -> bool)
    ensures Any(s, p) <==> FindFirst(s, p).Some?
  {
  }

  /** Number of elements satisfying `p` (`filter(p).length`). */
  function Count<T>(s: seq<T>, p: T -> bool): (n: nat)
    ensures n <= |s|
    ensures n == 0 <==> forall i :: 0 <= i < |s| ==> !p(s[i])
    ensures n == |Filter(s, p)|
  {
    if s == [] then 0 else (if p(s[0]) then 1 else 0) + Count(s[1..], p)
  }

  // ---------------------------------------------------------------------
  // Newest first: `order_by(created_at.desc())` on the server and
  // `sort((a, b) => b.created_at - a.created_at)` on the admin page.

  ghost predicate SortedDesc<T>(s: seq<T>, key: T -> int)
  {
    forall i, j :: 0 <= i < j < |s| ==> key(s[i]) >= key(s[j])
  }

  /** Inserts `x` before the first element whose key is not greater than its own. */
  function InsertDesc<T>(x: T, s: seq<T>, key: T -> int): seq<T>
  {
    if s == [] then [x]
    else if key(x) >= key(s[0]) then [x] + s
    else [s[0]] + InsertDesc(x, s[1..], key)
  }

  /** A stable newest-first ordering: equal keys keep their input order. */
  function SortDesc<T>(s: seq<T>, key: T -> int): seq<T>
  {
    if s == [] then [] else InsertDesc(s[0], SortDesc(s[1..], key), key)
  }

  /** A head no older than anything in a newest-first tail keeps it newest first. */
  lemma ConsSortedDesc<T>(h: T, r: seq<T>, key: T -> int)
    requires SortedDesc(r, key)
    requires forall y :: y in r ==> key(h) >= key(y)
    ensures SortedDesc([h] + r, key)
  {
    assert forall j :: 0 < j < |[h] + r| ==> ([h] + r)[j] == r[j - 1];
  }

  lemma {:induction false} InsertDescCorrect<T>(x: T, s: seq<T>, key: T -> int)
    requires SortedDesc(s, key)
    ensures multiset(InsertDesc(x, s, key)) == multiset(s) + multiset{x}
    ensures forall y :: y in InsertDesc(x, s, key) ==> y == x || y in s
    ensures SortedDesc(InsertDesc(x, s, key), key)
  {
    if s == [] || key(x) >= key(s[0]) {
      if s != [] {
        ConsSortedDesc(x, s, key);
      }
    } else {
      var t := s[1..];
      assert s == [s[0]] + t;
      InsertDescCorrect(x, t, key);
      var r := InsertDesc(x, t, key);
      assert InsertDesc(x, s, key) == [s[0]] + r;
      // every element of r is x or comes from t, so none is newer than s[0]
      forall y | y in r ensures key(s[0]) >= key(y) {
        if y != x {
          var k :| 0 <= k < |t| && t[k] == y;
          assert s[k + 1] == y;
        }
      }
      ConsSortedDesc(s[0], r, key);
    }
  }

  /** The ordering is a permutation of its input and is newest first. */
  lemma {:induction false} SortDescCorrect<T>(s: seq<T>, key: T -> int)
    ensures multiset(SortDesc(s, key)) == multiset(s)
    ensures |SortDesc(s, key)| == |s|
    ensures SortedDesc(SortDesc(s, key), key)
  {
    if s != [] {
      SortDescCorrect(s[1..], key);
      InsertDescCorrect(s[0], SortDesc(s[1..], key), key);
      assert s == [s[0]] + s[1..];
    }
  }

  // ---------------------------------------------------------------------
  // Strings

  /** The characters Python's `str.split()` and `str.strip()` treat as white space:
      \t to \r, \x1c to the space, and the Unicode separators. */
  predicate IsSpace(c: char)
  {
    ('\t' <= c <= '\r') || ('\U{1C}' <= c <= ' ') || c == '\U{85}' || c == '\U{A0}' || c == '\U{1680}'
    || ('\U{2000}' <= c <= '\U{200A}') || c == '\U{2028}' || c == '\U{2029}' || c == '\U{202F}'
    || c == '\U{205F}' || c == '\U{3000}'
  }

  function LowerChar(c: char): char
  {
    if 'A' <= c <= 'Z' then (c as int + 32) as char else c
  }

  function UpperChar(c: char): char
  {
    if 'a' <= c <= 'z' then (c as int - 32) as char else c
  }

  /** `str.lower()` on the ASCII letters. */
  function Lower(s: string): (r: string)
    ensures |r| == |s|
    ensures forall i :: 0 <= i < |s| ==> r[i] == LowerChar(s[i])
  {
    if s == [] then [] else [LowerChar(s[0])] + Lower(s[1..])
  }

  /** `str.replace(a, b)` for single characters. */
  function ReplaceChar(s: string, a: char, b: char): (r: string)
    ensures |r| == |s|
    ensures forall i :: 0 <= i < |s| ==> r[i] == (if s[i] == a then b else s[i])
  {
    if s == [] then [] else [if s[0] == a then b else s[0]] + ReplaceChar(s[1..], a, b)
  }

  function TrimLeft(s: string): (r: string)
    ensures |r| <= |s| && r == s[|s| - |r|..]
    ensures r != [] ==> !IsSpace(r[0])
  {
    if s != [] && IsSpace(s[0]) then TrimLeft(s[1..]) else s
  }

  function TrimRight(s: string): (r: string)
    ensures |r| <= |s| && r == s[..|r|]
    ensures r != [] ==> !IsSpace(r[|r| - 1])
  {
    if s != [] && IsSpace(s[|s| - 1]) then TrimRight(s[..|s| - 1]) else s
  }

  /** `str.strip()`: the string without leading and trailing white space. */
  function Strip(s: string): (r: string)
    ensures |r| <= |s|
    ensures r != [] ==> !IsSpace(r[0]) && !IsSpace(r[|r| - 1])
  {
    TrimRight(TrimLeft(s))
  }

  /** A string without white space. */
  predicate NoSpace(w: string)
  {
    forall i :: 0 <= i < |w| ==> !IsSpace(w[i])
  }

  /** The first white-space-free run of `s`. */
  function Word(s: string): (r: string)
    ensures |r| <= |s| && r == s[..|r|]
    ensures NoSpace(r)
    ensures |r| < |s| ==> IsSpace(s[|r|])
  {
    if s == [] || IsSpace(s[0]) then [] else [s[0]] + Word(s[1..])
  }

  /** The white space before the first word of `s`. */
  function Lead(s: string): (r: string)
    ensures |r| <= |s|
  {
    s[..|s| - |TrimLeft(s)|]
  }

  /** What follows the first word of `s`. */
  function AfterWord(s: string): (r: string)
    requires TrimLeft(s) != []
    ensures |r| < |s|
    ensures Word(TrimLeft(s)) != []
  {
    var t := TrimLeft(s);
    assert Word(t) != [] by { assert !IsSpace(t[0]); }
    t[|Word(t)|..]
  }

  /** `str.split()` with no separator: the maximal runs of non-white-space characters. */
  function Split(s: string): (r: seq<string>)
    ensures forall i :: 0 <= i < |r| ==> r[i] != [] && NoSpace(r[i])
    decreases |s|
  {
    if TrimLeft(s) == [] then []
    else
      var w, ws := Word(TrimLeft(s)), Split(AfterWord(s));
      WordsCons(w, ws);
      [w] + ws
  }

  lemma WordsCons(w: string, ws: seq<string>)
    requires forall i :: 0 <= i < |ws| ==> ws[i] != [] && NoSpace(ws[i])
    requires w != [] && NoSpace(w)
    ensures forall i :: 0 <= i < |[w] + ws| ==> ([w] + ws)[i] != [] && NoSpace(([w] + ws)[i])
  {
    forall i | 0 < i < |[w] + ws|
      ensures ([w] + ws)[i] == ws[i - 1]
    {
    }
  }

  /** A string made of white space only (the empty string included). */
  predicate AllSpace(g: string)
  {
    forall i :: 0 <= i < |g| ==> IsSpace(g[i])
  }

  /** `gaps[0] + words[0] + gaps[1] + ... + words[n - 1] + gaps[n]`. */
  function Interleave(gaps: seq<string>, words: seq<string>): string
    requires |gaps| == |words| + 1
    decreases |words|
  {
    if words == [] then gaps[0] else gaps[0] + words[0] + Interleave(gaps[1..], words[1..])
  }

  /** The white-space runs around the words `Split` returns, leading and trailing ones
      included (those two may be empty). */
  function Gaps(s: string): (r: seq<string>)
    ensures r != []
    decreases |s|
  {
    if TrimLeft(s) == [] then [Lead(s)] else [Lead(s)] + Gaps(AfterWord(s))
  }

  /** The white space `TrimLeft` removes, followed by what it keeps, is the string. */
  lemma TrimLeftSplits(s: string)
    ensures s == Lead(s) + TrimLeft(s)
    ensures AllSpace(Lead(s))
  {
    LeadThenTrimmed(s);
    TrimmedSpace(s);
  }

  /** `TrimLeft` removes only white space: every character before what it keeps is white space. */
  lemma {:induction false} TrimmedSpace(s: string)
    ensures forall i :: 0 <= i < |s| - |TrimLeft(s)| ==> IsSpace(s[i])
    decreases |s|
  {
    if s != [] && IsSpace(s[0]) {
      var tail := s[1..];
      TrimmedSpace(tail);
      assert forall i :: 1 <= i < |s| - |TrimLeft(s)| ==> s[i] == tail[i - 1];
    }
  }

  /** `TrimRight` removes only white space: every character after what it keeps is white space. */
  lemma {:induction false} TrimmedRightSpace(s: string)
    ensures forall i :: |TrimRight(s)| <= i < |s| ==> IsSpace(s[i])
    decreases |s|
  {
    if s != [] && IsSpace(s[|s| - 1]) {
      var init := s[..|s| - 1];
      TrimmedRightSpace(init);
      assert forall i :: 0 <= i < |init| ==> init[i] == s[i];
    }
  }

  /** The white space `Strip` removes at the end. */
  function Trail(s: string): (r: string)
    ensures |Strip(s)| + |r| == |TrimLeft(s)|
  {
    TrimLeft(s)[|Strip(s)|..]
  }

  /** `Strip` characterised: the string is white space, then the result, then white
      space; with the ensures of `Strip` (no white space at either end of the result),
      this pins the result down. */
  lemma StripSplits(s: string)
    ensures s == Lead(s) + Strip(s) + Trail(s)
    ensures AllSpace(Lead(s)) && AllSpace(Trail(s))
  {
    TrimLeftSplits(s);
    var t := TrimLeft(s);
    TrimRightSplits(t);
    assert Strip(s) == TrimRight(t);
    assert Trail(s) == t[|TrimRight(t)|..];
    ConcatAssoc(Lead(s), Strip(s), Trail(s));
  }

  /** What `TrimRight` keeps, followed by the white space it removes, is the string. */
  lemma TrimRightSplits(t: string)
    ensures t == TrimRight(t) + t[|TrimRight(t)|..]
    ensures AllSpace(t[|TrimRight(t)|..])
  {
    TrimmedRightSpace(t);
    var tail := t[|TrimRight(t)|..];
    forall i | 0 <= i < |tail|
      ensures IsSpace(tail[i])
    {
      assert tail[i] == t[|TrimRight(t)| + i];
    }
  }

  /** One step of `Split` and `Gaps`, by their definitions. */
  lemma SplitUnfold(s: string)
    requires TrimLeft(s) != []
    ensures Split(s) == [Word(TrimLeft(s))] + Split(AfterWord(s))
    ensures Gaps(s) == [Lead(s)] + Gaps(AfterWord(s))
  {
  }

  /** The leading white space, the first word and the rest make up `s`, and the rest
      starts with white space whenever another word follows. */
  lemma SplitStep(s: string)
    requires TrimLeft(s) != []
    ensures s == Lead(s) + (Word(TrimLeft(s)) + AfterWord(s))
    ensures TrimLeft(AfterWord(s)) != [] ==> Lead(AfterWord(s)) != []
  {
    var t, w := TrimLeft(s), Word(TrimLeft(s));
    LeadThenTrimmed(s);
    WordThenRest(t);
    assert AfterWord(s) == t[|w|..];
    LeadAfterWord(s);
  }

  lemma LeadThenTrimmed(s: string)
    ensures s == Lead(s) + TrimLeft(s)
  {
    var n := |s| - |TrimLeft(s)|;
    assert TrimLeft(s) == s[n..];
    assert s == s[..n] + s[n..];
  }

  lemma WordThenRest(t: string)
    ensures t == Word(t) + t[|Word(t)|..]
  {
    var w := Word(t);
    assert w == t[..|w|];
    assert t == t[..|w|] + t[|w|..];
  }

  lemma LeadAfterWord(s: string)
    requires TrimLeft(s) != []
    ensures TrimLeft(AfterWord(s)) != [] ==> Lead(AfterWord(s)) != []
  {
    var rest := AfterWord(s);
    if TrimLeft(rest) != [] {
      assert rest != [] && IsSpace(rest[0]);
      assert |TrimLeft(rest)| < |rest|;
    }
  }

  lemma ConcatAssoc(a: string, b: string, c: string)
    ensures a + b + c == a + (b + c)
  {
  }

  lemma InterleaveCons(g: string, w: string, gaps: seq<string>, words: seq<string>)
    requires |gaps| == |words| + 1
    ensures Interleave([g] + gaps, [w] + words) == g + w + Interleave(gaps, words)
  {
    assert ([g] + gaps)[1..] == gaps && ([w] + words)[1..] == words;
  }

  /** `Split` cuts `s` exactly at its white space: putting the white-space runs back between
      the words gives `s` again. */
  lemma {:induction false} SplitGaps(s: string)
    ensures |Gaps(s)| == |Split(s)| + 1
    ensures s == Interleave(Gaps(s), Split(s))
    decreases |s|
  {
    TrimLeftSplits(s);
    if TrimLeft(s) != [] {
      var rest := AfterWord(s);
      SplitStep(s);
      SplitUnfold(s);
      SplitGaps(rest);
      InterleaveCons(Lead(s), Word(TrimLeft(s)), Gaps(rest), Split(rest));
      ConcatAssoc(Lead(s), Word(TrimLeft(s)), rest);
    }
  }

  /** Both shape properties carry over from `gaps` to `[g] + gaps` when `g` is white space
      and `gaps[0]` is not empty or is the last run. */
  lemma ShiftedGaps(g: string, gaps: seq<string>)
    requires AllSpace(g)
    requires forall i :: 0 <= i < |gaps| ==> AllSpace(gaps[i])
    requires forall i :: 0 < i < |gaps| - 1 ==> gaps[i] != []
    requires |gaps| >= 2 ==> gaps[0] != []
    ensures forall i :: 0 <= i < |[g] + gaps| ==> AllSpace(([g] + gaps)[i])
    ensures forall i :: 0 < i < |[g] + gaps| - 1 ==> ([g] + gaps)[i] != []
  {
    var gs := [g] + gaps;
    forall i | 0 <= i < |gs|
      ensures AllSpace(gs[i])
    {
      if i > 0 {
        assert gs[i] == gaps[i - 1];
      }
    }
    forall i | 0 < i < |gs| - 1
      ensures gs[i] != []
    {
      assert gs[i] == gaps[i - 1];
    }
  }

  /** The runs are white space, and those between two words are not empty. */
  lemma {:induction false} GapsShape(s: string)
    ensures |Gaps(s)| == |Split(s)| + 1
    ensures forall i :: 0 <= i < |Gaps(s)| ==> AllSpace(Gaps(s)[i])
    ensures forall i :: 0 < i < |Gaps(s)| - 1 ==> Gaps(s)[i] != []
    decreases |s|
  {
    TrimLeftSplits(s);
    if TrimLeft(s) != [] {
      var rest := AfterWord(s);
      SplitStep(s);
      SplitUnfold(s);
      GapsShape(rest);
      ShiftedGaps(Lead(s), Gaps(rest));
      if |Gaps(rest)| >= 2 {
        assert TrimLeft(rest) != [];
      }
    }
  }

  /** `str.split()` characterised without reference to how it scans: the words, with runs
      of white space put back around them (non-empty ones between two words), are `s`. */
  lemma SplitWords(s: string)
    ensures exists gaps ::
      && |gaps| == |Split(s)| + 1
      && (forall i :: 0 <= i < |gaps| ==> AllSpace(gaps[i]))
      && (forall i :: 0 < i < |gaps| - 1 ==> gaps[i] != [])
      && s == Interleave(gaps, Split(s))
  {
    GapsShape(s);
    SplitGaps(s);
  }

  /** A character missing from `s` is missing from each of its words. */
  lemma {:induction false} SplitWordsLack(s: string, c: char)
    requires c !in s
    ensures forall i :: 0 <= i < |Split(s)| ==> c !in Split(s)[i]
    decreases |s|
  {
    if TrimLeft(s) != [] {
      var rest := AfterWord(s);
      SplitStep(s);
      SplitUnfold(s);
      assert c !in Word(TrimLeft(s)) && c !in rest;
      SplitWordsLack(rest, c);
      forall i | 0 < i < |Split(s)|
        ensures Split(s)[i] == Split(rest)[i - 1]
      {
      }
    }
  }

  /** Python's `k in text` for strings: `k` occurs as a contiguous substring of `text`. */
  predicate OccursAt(text: string, k: string, i: int)
  {
    0 <= i <= |text| - |k| && text[i..i + |k|] == k
  }

  predicate Contains(text: string, k: string)
    decreases |text|
  {
    k <= text || (text != [] && Contains(text[1..], k))
  }

  lemma {:induction false} ContainsIffOccurrence(text: string, k: string)
    ensures Contains(text, k) <==> exists i :: OccursAt(text, k, i)
    decreases |text|
  {
    if k <= text {
      assert OccursAt(text, k, 0);
    } else if text == [] {
    } else {
      ContainsIffOccurrence(text[1..], k);
      if exists i :: OccursAt(text, k, i) {
        var i :| OccursAt(text, k, i);
        assert i != 0;
        assert OccursAt(text[1..], k, i - 1);
      }
      if Contains(text[1..], k) {
        var i :| OccursAt(text[1..], k, i);
        assert OccursAt(text, k, i + 1);
      }
    }
  }

  /** `any(k in text for k in keys)`. */
  predicate ContainsAny(text: string, keys: seq<string>)
  {
    Any(keys, (k: string) => Contains(text, k))
  }

  /** Some key is in `text` exactly when some key occurs at some position of it. */
  lemma AnyContainsIff(text: string, keys: seq<string>)
    ensures ContainsAny(text, keys) <==>
      exists j, i :: 0 <= j < |keys| && OccursAt(text, keys[j], i)
  {
    forall j | 0 <= j < |keys|
      ensures Contains(text, keys[j]) <==> exists i :: OccursAt(text, keys[j], i)
    {
      ContainsIffOccurrence(text, keys[j]);
    }
  }

  /** `"a".join(parts)` for a one-character separator. */
  function Join(sep: char, parts: seq<string>): string
  {
    if parts == [] then []
    else if |parts| == 1 then parts[0]
    else parts[0] + [sep] + Join(sep, parts[1..])
  }

  // ---------------------------------------------------------------------
  // Decimal rendering of ids (f-strings and template literals)

  function DigitChar(d: nat): char
    requires d < 10
  {
    ('0' as int + d) as char
  }

  /** The decimal representation of `n`, without leading zeros. */
  function NatToString(n: nat): (r: string)
    ensures |r| >= 1
    ensures n < 10 <==> |r| == 1
    ensures forall c :: c in r ==> '0' <= c <= '9'
  {
    if n < 10 then [DigitChar(n)] else NatToString(n / 10) + [DigitChar(n % 10)]
  }

  /** Distinct numbers have distinct decimal representations. */
  lemma {:induction false} NatToStringInjective(n: nat, m: nat)
    requires NatToString(n) == NatToString(m)
    ensures n == m
  {
    if n < 10 || m < 10 {
      assert |NatToString(n)| == 1 && |NatToString(m)| == 1;
      assert n < 10 && m < 10;
      assert DigitChar(n) == NatToString(n)[0] == NatToString(m)[0] == DigitChar(m);
    } else {
      var a, b := NatToString(n), NatToString(m);
      assert a[|a| - 1] == DigitChar(n % 10) && b[|b| - 1] == DigitChar(m % 10);
      assert a[..|a| - 1] == NatToString(n / 10);
      assert b[..|b| - 1] == NatToString(m / 10);
      NatToStringInjective(n / 10, m / 10);
    }
  }
}
