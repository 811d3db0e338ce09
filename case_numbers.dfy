/**
 * Case-number extraction from retrieved text: seven regular expressions of the form
 * marker, gap, digit run, each scanned left to right as `re.findall` does, the
 * captures concatenated in pattern order and de-duplicated; and the ordering of
 * case numbers by integer value.
 */
module CaseNumbers {
  import opened Wrappers
  import opened PyText

  /** The characters a gap between marker and digits may hold. */
  datatype Gap =
    | NoOrHash     // `[No\.\s]*[#\s]*`
    | Hash         // `[#\s]*`
    | Spaces       // `\s*`

  /** One pattern: a literal marker (matched case-insensitively or not), a gap and a
      captured run of digits. */
  datatype Pattern = Pattern(marker: string, ignoreCase: bool, gap: Gap)

  /** The seven patterns, in the order their captures are collected. Every pattern is
      compiled with IGNORECASE, which only changes the Latin letters. */
  const Patterns: seq<Pattern> := [
    Pattern("事例", true, NoOrHash),
    Pattern("ケース", true, Hash),
    Pattern("事例番号", true, Hash),
    Pattern("Case", true, Hash),
    Pattern("CASE", true, Hash),
    Pattern("事例", true, Spaces),
    Pattern("ケース", true, Spaces)
  ]

  /** A text character matches a pattern character. Under IGNORECASE an ASCII letter
      matches either case, and "s" also matches the long s (U+017F). */
  predicate CharMatch(c: char, p: char, ignoreCase: bool)
  {
    c == p
    || (ignoreCase && IsAsciiLetter(p) && IsAsciiLetter(c) && LowerChar(c) == LowerChar(p))
    || (ignoreCase && LowerChar(p) == 's' && c == '\U{17F}')
  }

  /** The marker occurs at index `i`. */
  predicate MarkerAt(text: string, i: nat, pat: Pattern)
  {
    i + |pat.marker| <= |text|
    && forall k :: 0 <= k < |pat.marker| ==> CharMatch(text[i + k], pat.marker[k], pat.ignoreCase)
  }

  /** `[No\.\s]` under IGNORECASE. */
  predicate NoClass(c: char)
  {
    c == 'N' || c == 'n' || c == 'O' || c == 'o' || c == '.' || IsSpace(c)
  }

  predicate GapChar(gap: Gap, c: char)
  {
    match gap
    case NoOrHash => NoClass(c) || c == '#'
    case Hash => c == '#' || IsSpace(c)
    case Spaces => IsSpace(c)
  }

  /** A run of gap characters that the gap's expression matches as a whole: for
      `[No\.\s]*[#\s]*` no "#" may come before a letter or dot of the first class. */
  predicate GapShape(gap: Gap, run: string)
  {
    gap.NoOrHash? ==> forall x, y :: 0 <= x < y < |run| && run[x] == '#' ==> IsSpace(run[y]) || !NoClass(run[y])
  }

  /** The end of the maximal run of gap characters from `j`. */
  function GapEnd(text: string, j: nat, gap: Gap): (e: nat)
    requires j <= |text|
    ensures j <= e <= |text|
    ensures forall k :: j <= k < e ==> GapChar(gap, text[k])
    ensures e == |text| || !GapChar(gap, text[e])
    decreases |text| - j
  {
    if j < |text| && GapChar(gap, text[j]) then GapEnd(text, j + 1, gap) else j
  }

  /** The end of the maximal run of ASCII digits from `j`. */
  function DigitsEnd(text: string, j: nat): (e: nat)
    requires j <= |text|
    ensures j <= e <= |text|
    ensures forall k :: j <= k < e ==> IsAsciiDigit(text[k])
    ensures e == |text| || !IsAsciiDigit(text[e])
    decreases |text| - j
  {
    if j < |text| && IsAsciiDigit(text[j]) then DigitsEnd(text, j + 1) else j
  }

  /** The match of a pattern at index `i`: the captured digits and the index after
      them. Digits are outside every gap class, so the digit run must begin where the
      gap run ends. */
  function MatchAt(text: string, i: nat, pat: Pattern): (m: Option<(string, nat)>)
    requires i <= |text|
    ensures m.Some? ==> MarkerAt(text, i, pat) && |m.value.0| > 0 && AllDigits(m.value.0)
                        && i < m.value.1 <= |text|
  {
    if !MarkerAt(text, i, pat) then None
    else
      var g := i + |pat.marker|;
      var q := GapEnd(text, g, pat.gap);
      if q < |text| && IsAsciiDigit(text[q]) && GapShape(pat.gap, text[g..q]) then
        var e := DigitsEnd(text, q);
        Some((text[q..e], e))
      else None
  }

  /** `re.findall` from index `from`: after a match the scan resumes at its end. */
  function FindAll(text: string, pat: Pattern, from: nat): (found: seq<string>)
    requires from <= |text|
    ensures forall d :: d in found ==> |d| > 0 && AllDigits(d)
    decreases |text| - from
  {
    if from == |text| then []
    else match MatchAt(text, from, pat)
      case Some((digits, e)) => [digits] + FindAll(text, pat, e)
      case None => FindAll(text, pat, from + 1)
  }

  /** A text with no marker from `from` on yields nothing. */
  lemma {:induction false} NoMarkerNoMatch(text: string, pat: Pattern, from: nat)
    requires from <= |text|
    requires forall i :: from <= i <= |text| ==> !MarkerAt(text, i, pat)
    ensures FindAll(text, pat, from) == []
    decreases |text| - from
  {
    if from < |text| {
      NoMarkerNoMatch(text, pat, from + 1);
    }
  }

  /** Every capture comes from a match found at some index. */
  lemma {:induction false} FoundAreMatches(text: string, pat: Pattern, from: nat, d: string)
    requires from <= |text| && d in FindAll(text, pat, from)
    ensures exists i :: from <= i < |text| && MatchAt(text, i, pat).Some? && MatchAt(text, i, pat).value.0 == d
    decreases |text| - from
  {
    if from < |text| {
      match MatchAt(text, from, pat)
      case Some((digits, e)) =>
        if d != digits {
          FoundAreMatches(text, pat, e, d);
        }
      case None =>
        FoundAreMatches(text, pat, from + 1, d);
    }
  }

  /** One step of the scan, for the match (or none) `m` at `from`. */
  lemma FindAllStep(text: string, pat: Pattern, from: nat, m: Option<(string, nat)>)
    requires from < |text| && m == MatchAt(text, from, pat)
    ensures m.None? ==> FindAll(text, pat, from) == FindAll(text, pat, from + 1)
    ensures m.Some? ==> FindAll(text, pat, from) == [m.value.0] + FindAll(text, pat, m.value.1)
  {
  }

  /** No match starts at an index from `from` up to, not including, `i`. */
  predicate NoMatchBefore(text: string, pat: Pattern, from: nat, i: nat)
    requires from <= i <= |text|
    decreases i - from
  {
    from == i || (MatchAt(text, from, pat).None? && NoMatchBefore(text, pat, from + 1, i))
  }

  /** Completeness of the scan: the first match at or after `from` is found first,
      and the scan resumes at its end. */
  lemma {:induction false} FirstMatchFound(text: string, pat: Pattern, from: nat, i: nat, m: (string, nat))
    requires from <= i < |text| && MatchAt(text, i, pat) == Some(m)
    requires NoMatchBefore(text, pat, from, i)
    ensures FindAll(text, pat, from) == [m.0] + FindAll(text, pat, m.1)
    decreases i - from
  {
    FindAllStep(text, pat, from, MatchAt(text, from, pat));
    if from < i {
      FirstMatchFound(text, pat, from + 1, i, m);
    }
  }

  /** The captures of the first `n` patterns, concatenated in order. */
  function MatchesOf(text: string, pats: seq<Pattern>): (found: seq<string>)
    ensures forall d :: d in found ==> |d| > 0 && AllDigits(d)
  {
    if pats == [] then []
    else MatchesOf(text, pats[..|pats| - 1]) + FindAll(text, pats[|pats| - 1], 0)
  }

  /** No match starts anywhere from `from` on, so nothing is found. */
  lemma {:induction false} NoMatchNoFind(text: string, pat: Pattern, from: nat)
    requires from <= |text|
    requires forall i :: from <= i < |text| ==> MatchAt(text, i, pat).None?
    ensures FindAll(text, pat, from) == []
    decreases |text| - from
  {
    if from < |text| {
      NoMatchNoFind(text, pat, from + 1);
    }
  }

  /** Only index 0 could start a match (no later character matches the marker's first one), and it does not. */
  lemma NoMatchPastStart(text: string, pat: Pattern)
    requires |pat.marker| > 0 && MatchAt(text, 0, pat).None?
    requires forall i :: 1 <= i < |text| ==> !CharMatch(text[i], pat.marker[0], pat.ignoreCase)
    ensures FindAll(text, pat, 0) == []
  {
    forall i | 0 <= i < |text| ensures MatchAt(text, i, pat).None? {
      if i > 0 { assert !CharMatch(text[i + 0], pat.marker[0], pat.ignoreCase); }
    }
    NoMatchNoFind(text, pat, 0);
  }

  /** The first pattern skips a "No." between the marker and the digits. */
  lemma NumberAfterNoDot()
    ensures FindAll("事例No.6", Patterns[0], 0) == ["6"]
  {
    var t := "事例No.6";
    assert MarkerAt(t, 0, Patterns[0]);
    assert GapEnd(t, 2, NoOrHash) == 5;
    assert DigitsEnd(t, 5) == 6;
    assert t[2..5] == "No.";
    assert GapShape(NoOrHash, t[2..5]);
    assert t[5..6] == "6";
    assert MatchAt(t, 0, Patterns[0]) == Some(("6", 6));
  }

  /** The whitespace-only pattern for the same marker needs the digits right after the spaces. */
  lemma SpacesOnlyGapRejectsNoDot()
    ensures FindAll("事例No.6", Patterns[5], 0) == []
  {
    var t := "事例No.6";
    assert GapEnd(t, 2, Spaces) == 2;
    NoMatchPastStart(t, Patterns[5]);
  }

  /** A capture of one pattern is among the captures of the list. */
  lemma {:induction false} InMatchesOfOne(text: string, pats: seq<Pattern>, k: nat, d: string)
    requires k < |pats| && d in FindAll(text, pats[k], 0)
    ensures d in MatchesOf(text, pats)
  {
    var n := |pats| - 1;
    if k < n {
      assert pats[..n][k] == pats[k];
      InMatchesOfOne(text, pats[..n], k, d);
    }
  }

  /** A capture is a slice of the text. */
  lemma {:induction false} CaptureSlice(text: string, pat: Pattern, from: nat, d: string) returns (q: nat, e: nat)
    requires from <= |text| && d in FindAll(text, pat, from)
    ensures q < e <= |text| && d == text[q..e]
    decreases |text| - from
  {
    match MatchAt(text, from, pat)
    case Some((digits, end)) =>
      if d == digits {
        q := GapEnd(text, from + |pat.marker|, pat.gap);
        e := DigitsEnd(text, q);
      } else {
        q, e := CaptureSlice(text, pat, end, d);
      }
    case None =>
      q, e := CaptureSlice(text, pat, from + 1, d);
  }

  /** Every capture of the pattern list is a slice of the text. */
  lemma {:induction false} MatchesSlice(text: string, pats: seq<Pattern>, d: string) returns (q: nat, e: nat)
    requires d in MatchesOf(text, pats)
    ensures q < e <= |text| && d == text[q..e]
  {
    var n := |pats| - 1;
    if d in FindAll(text, pats[n], 0) {
      q, e := CaptureSlice(text, pats[n], 0, d);
    } else {
      q, e := MatchesSlice(text, pats[..n], d);
    }
  }

  /** When the only digit of the text is at `q`, every capture is that digit. */
  lemma SoleDigit(text: string, pats: seq<Pattern>, q: nat, d: string)
    requires q < |text| && forall j :: 0 <= j < |text| ==> (IsAsciiDigit(text[j]) <==> j == q)
    requires d in MatchesOf(text, pats)
    ensures d == text[q..q + 1]
  {
    var a, e := MatchesSlice(text, pats, d);
    assert text[a] == d[0] && IsAsciiDigit(d[0]);
    assert text[e - 1] == d[e - 1 - a] && IsAsciiDigit(d[e - 1 - a]);
  }

  /** De-duplicating a non-empty list of copies of one value leaves that value once. */
  lemma {:induction false} DedupConstant(xs: seq<string>, x: string)
    requires |xs| > 0 && forall y :: y in xs ==> y == x
    ensures Dedup(xs) == [x]
  {
    var n := |xs| - 1;
    assert xs[n] in xs;
    if n > 0 {
      assert forall y :: y in xs[..n] ==> y in xs;
      DedupConstant(xs[..n], x);
    }
  }

  /** A text whose only digit is at `q`, which some pattern captures, has exactly that digit as its case number. */
  lemma OneNumber(text: string, q: nat, k: nat)
    requires q < |text| && forall j :: 0 <= j < |text| ==> (IsAsciiDigit(text[j]) <==> j == q)
    requires k < |Patterns| && text[q..q + 1] in FindAll(text, Patterns[k], 0)
    ensures CaseNumbersOf(text) == [text[q..q + 1]]
  {
    InMatchesOfOne(text, Patterns, k, text[q..q + 1]);
    forall d | d in MatchesOf(text, Patterns) ensures d == text[q..q + 1] {
      SoleDigit(text, Patterns, q, d);
    }
    DedupConstant(MatchesOf(text, Patterns), text[q..q + 1]);
  }

  /** "事例No.6" yields "6". */
  lemma NoDotExample()
    ensures CaseNumbersOf("事例No.6") == ["6"]
  {
    NumberAfterNoDot();
    LastIsOnlyDigit("事例No.6", 5);
    OneNumber("事例No.6", 5, 0);
  }

  /** "事例6" yields "6". */
  lemma PlainExample()
    ensures CaseNumbersOf("事例6") == ["6"]
  {
    var t := "事例6";
    assert MarkerAt(t, 0, Patterns[0]);
    assert GapEnd(t, 2, NoOrHash) == 2;
    assert DigitsEnd(t, 2) == 3;
    assert GapShape(NoOrHash, t[2..2]);
    assert t[2..3] == "6";
    assert MatchAt(t, 0, Patterns[0]) == Some(("6", 3));
    LastIsOnlyDigit(t, 2);
    OneNumber(t, 2, 0);
  }

  /** "Case 6" yields "6". */
  lemma CaseExample()
    ensures CaseNumbersOf("Case 6") == ["6"]
  {
    var t := "Case 6";
    assert MarkerAt(t, 0, Patterns[3]);
    assert GapEnd(t, 4, Hash) == 5;
    assert DigitsEnd(t, 5) == 6;
    assert t[5..6] == "6";
    assert MatchAt(t, 0, Patterns[3]) == Some(("6", 6));
    LastIsOnlyDigit(t, 5);
    OneNumber(t, 5, 3);
  }

  /** "ケース6" yields "6". */
  lemma KatakanaExample()
    ensures CaseNumbersOf("ケース6") == ["6"]
  {
    var t := "ケース6";
    assert MarkerAt(t, 0, Patterns[1]);
    assert GapEnd(t, 3, Hash) == 3;
    assert DigitsEnd(t, 3) == 4;
    assert t[3..4] == "6";
    assert MatchAt(t, 0, Patterns[1]) == Some(("6", 4));
    LastIsOnlyDigit(t, 3);
    OneNumber(t, 3, 1);
  }

  /** The example texts end in their only digit, "6". */
  lemma LastIsOnlyDigit(t: string, q: nat)
    requires t == "事例No.6" || t == "事例6" || t == "Case 6" || t == "ケース6"
    requires q == |t| - 1
    ensures t[q..q + 1] == "6"
    ensures forall j :: 0 <= j < |t| ==> (IsAsciiDigit(t[j]) <==> j == q)
  {
  }

  /** `list(set(xs))`, keeping the first occurrence of each element. */
  function Dedup(xs: seq<string>): (r: seq<string>)
    ensures NoDuplicates(r)
    ensures forall x :: x in r <==> x in xs
    ensures |r| <= |xs|
  {
    if xs == [] then []
    else
      var d := Dedup(xs[..|xs| - 1]);
      if xs[|xs| - 1] in d then d else d + [xs[|xs| - 1]]
  }

  /** `extract_case_numbers`, as a value. */
  function CaseNumbersOf(text: string): (nums: seq<string>)
    ensures NoDuplicates(nums)
    ensures forall k :: 0 <= k < |nums| ==> |nums[k]| > 0 && AllDigits(nums[k])
  {
    var nums := Dedup(MatchesOf(text, Patterns));
    assert forall k :: 0 <= k < |nums| ==> nums[k] in MatchesOf(text, Patterns);
    nums
  }

  /** `extract_case_numbers`: the seven `findall`s extend one list, which `set`
      de-duplicates. */
  method ExtractCaseNumbers(text: string) returns (nums: seq<string>)
    ensures nums == CaseNumbersOf(text)
  {
    var found: seq<string> := [];
    for p := 0 to |Patterns|
      invariant found == MatchesOf(text, Patterns[..p])
    {
      assert Patterns[..p + 1][..p] == Patterns[..p];
      found := found + FindAll(text, Patterns[p], 0);
    }
    assert Patterns[..|Patterns|] == Patterns;
    nums := DedupList(found);
  }

  /** `list(set(xs))`, element by element. */
  method DedupList(xs: seq<string>) returns (r: seq<string>)
    ensures r == Dedup(xs)
  {
    r := [];
    for k := 0 to |xs|
      invariant r == Dedup(xs[..k])
    {
      assert xs[..k + 1][..k] == xs[..k];
      if xs[k] !in r {
        r := r + [xs[k]];
      }
    }
    assert xs[..|xs|] == xs;
  }

  /** Text without any of the markers yields no case numbers. */
  lemma NoMarkerNoCaseNumbers(text: string)
    requires forall i, p :: 0 <= i <= |text| && p in Patterns ==> !MarkerAt(text, i, p)
    ensures CaseNumbersOf(text) == []
  {
    forall p | p in Patterns ensures FindAll(text, p, 0) == [] {
      NoMarkerNoMatch(text, p, 0);
    }
    NothingFound(text, Patterns);
  }

  lemma {:induction false} NothingFound(text: string, pats: seq<Pattern>)
    requires forall p :: p in pats ==> FindAll(text, p, 0) == []
    ensures MatchesOf(text, pats) == []
  {
    if pats != [] {
      NothingFound(text, pats[..|pats| - 1]);
    }
  }

  /** The sort key `int(x) if x.isdigit() else 0`. */
  function SortKey(x: string): nat
  {
    if AllDigits(x) then DecimalValue(x) else 0
  }

  /** Ordered by `key`. */
  predicate SortedBy(xs: seq<string>, key: string -> nat)
  {
    forall i, j :: 0 <= i < j < |xs| ==> key(xs[i]) <= key(xs[j])
  }

  /** Places `x` after every element whose key is not greater. */
  function InsertBy(xs: seq<string>, x: string, key: string -> nat): (r: seq<string>)
    requires SortedBy(xs, key)
    ensures SortedBy(r, key)
    ensures forall y :: y in r <==> y in xs || y == x
  {
    if xs == [] then [x]
    else if key(x) < key(xs[0]) then [x] + xs
    else
      var rest := InsertBy(xs[1..], x, key);
      assert xs == [xs[0]] + xs[1..];
      var r := [xs[0]] + rest;
      assert forall j :: 0 < j < |r| ==> r[j] == rest[j - 1] && r[j] in rest;
      r
  }

  /** Insertion adds exactly the inserted element. */
  lemma {:induction false} InsertPermutes(xs: seq<string>, x: string, key: string -> nat)
    requires SortedBy(xs, key)
    ensures multiset(InsertBy(xs, x, key)) == multiset(xs) + multiset{x}
  {
    if xs != [] && key(x) >= key(xs[0]) {
      InsertPermutes(xs[1..], x, key);
      assert xs == [xs[0]] + xs[1..];
    }
  }

  /** `sorted(xs, key=key)`: a stable insertion sort. */
  function SortBy(xs: seq<string>, key: string -> nat): (r: seq<string>)
    ensures SortedBy(r, key)
    ensures multiset(r) == multiset(xs)
  {
    if xs == [] then []
    else
      assert xs == xs[..|xs| - 1] + [xs[|xs| - 1]];
      InsertPermutes(SortBy(xs[..|xs| - 1], key), xs[|xs| - 1], key);
      InsertBy(SortBy(xs[..|xs| - 1], key), xs[|xs| - 1], key)
  }

  /** Inserting a new element into a list without duplicates keeps it without duplicates. */
  lemma {:induction false} InsertKeepsDistinct(xs: seq<string>, x: string, key: string -> nat)
    requires SortedBy(xs, key) && NoDuplicates(xs) && x !in xs
    ensures NoDuplicates(InsertBy(xs, x, key))
  {
    if xs != [] && key(x) >= key(xs[0]) {
      assert xs == [xs[0]] + xs[1..];
      InsertKeepsDistinct(xs[1..], x, key);
      assert xs[0] !in xs[1..];
    }
  }

  /** Sorting keeps a list without duplicates. */
  lemma {:induction false} SortKeepsDistinct(xs: seq<string>, key: string -> nat)
    requires NoDuplicates(xs)
    ensures NoDuplicates(SortBy(xs, key))
  {
    if xs != [] {
      var n := |xs| - 1;
      assert xs == xs[..n] + [xs[n]];
      SortKeepsDistinct(xs[..n], key);
      assert xs[n] !in xs[..n];
      assert xs[n] !in multiset(SortBy(xs[..n], key));
      InsertKeepsDistinct(SortBy(xs[..n], key), xs[n], key);
    }
  }
}
