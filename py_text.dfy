/**
 * The few Python `str` operations the service relies on, with Python's meaning:
 * `str.isspace`, `startswith`, `endswith`, `in`, `replace`, `split`, `join`,
 * `strip`, slicing with a non-negative stop, and the line-ending translation of a
 * file read in text mode.
 */
module PyText {

  /** The characters for which Python's `str.isspace()` holds; they are what the
      regular-expression class `\s` matches and what `str.strip()` removes. */
  predicate IsSpace(c: char)
  {
    ('\t' <= c <= '\r') || ('\U{1C}' <= c <= ' ') || c == '\U{85}' || c == '\U{A0}'
    || c == '\U{1680}' || ('\U{2000}' <= c <= '\U{200A}') || c == '\U{2028}'
    || c == '\U{2029}' || c == '\U{202F}' || c == '\U{205F}' || c == '\U{3000}'
  }

  predicate IsAsciiDigit(c: char)
  {
    '0' <= c <= '9'
  }

  predicate IsAsciiLetter(c: char)
  {
    ('a' <= c <= 'z') || ('A' <= c <= 'Z')
  }

  predicate IsAscii(s: string)
  {
    forall i :: 0 <= i < |s| ==> s[i] <= '\U{7F}'
  }

  lemma AsciiConcat(a: string, b: string)
    ensures IsAscii(a + b) <==> IsAscii(a) && IsAscii(b)
  {
    if IsAscii(a) && IsAscii(b) {
      forall i | 0 <= i < |a + b| ensures (a + b)[i] <= '\U{7F}' {
        if i >= |a| { assert (a + b)[i] == b[i - |a|]; }
      }
    }
    if IsAscii(a + b) {
      forall i | 0 <= i < |a| ensures a[i] <= '\U{7F}' {
        assert (a + b)[i] == a[i];
      }
      forall i | 0 <= i < |b| ensures b[i] <= '\U{7F}' {
        assert (a + b)[|a| + i] == b[i];
      }
    }
  }

  /** ASCII lower-casing; for the letters of "rate limit" it agrees with `str.lower()`. */
  function LowerChar(c: char): char
  {
    if 'A' <= c <= 'Z' then (c as int + 32) as char else c
  }

  function Lower(s: string): (r: string)
    ensures |r| == |s| && forall i :: 0 <= i < |s| ==> r[i] == LowerChar(s[i])
  {
    if s == [] then [] else [LowerChar(s[0])] + Lower(s[1..])
  }

  predicate StartsWith(s: string, p: string)
  {
    |p| <= |s| && s[..|p|] == p
  }

  predicate EndsWith(s: string, p: string)
  {
    |p| <= |s| && s[|s| - |p|..] == p
  }

  /** One differing character is enough to refute a prefix. */
  lemma NotStartsWithAt(s: string, p: string, k: nat)
    requires k < |p| && k < |s| && s[k] != p[k]
    ensures !StartsWith(s, p)
  {
  }

  lemma StartsWithChar(s: string, p: string, k: nat)
    requires StartsWith(s, p) && k < |p|
    ensures k < |s| && s[k] == p[k]
  {
    assert s[..|p|][k] == s[k];
  }

  /** `p` occurs in `s` starting at index `i`. */
  predicate OccursAt(s: string, p: string, i: int)
  {
    0 <= i && i + |p| <= |s| && s[i..i + |p|] == p
  }

  /** Python's `p in s`. */
  predicate Contains(s: string, p: string)
  {
    StartsWith(s, p) || (|s| > 0 && Contains(s[1..], p))
  }

  /** `s[:n]` for a non-negative `n`. */
  function Take(s: string, n: nat): (r: string)
    ensures |r| == if |s| <= n then |s| else n
    ensures r == s[..|r|]
  {
    if |s| <= n then s else s[..n]
  }

  function LStrip(s: string): (r: string)
    ensures |r| <= |s| && r == s[|s| - |r|..]
    ensures r == [] || !IsSpace(r[0])
    ensures forall i :: 0 <= i < |s| - |r| ==> IsSpace(s[i])
  {
    if |s| > 0 && IsSpace(s[0]) then LStrip(s[1..]) else s
  }

  function RStrip(s: string): (r: string)
    ensures |r| <= |s| && r == s[..|r|]
    ensures r == [] || !IsSpace(r[|r| - 1])
    ensures forall i :: |r| <= i < |s| ==> IsSpace(s[i])
  {
    if |s| > 0 && IsSpace(s[|s| - 1]) then RStrip(s[..|s| - 1]) else s
  }

  predicate AllSpace(s: string)
  {
    forall i :: 0 <= i < |s| ==> IsSpace(s[i])
  }

  /** Python's `str.strip()` with no argument: the longest infix with no whitespace at
      either end, empty exactly for an all-whitespace string. */
  function Strip(s: string): (r: string)
    ensures r == [] || (!IsSpace(r[0]) && !IsSpace(r[|r| - 1]))
    ensures r == [] <==> AllSpace(s)
  {
    var l := LStrip(s);
    if l == [] then [] else
    var r := RStrip(l);
    assert r[0] == l[0];
    r
  }

  /** A string with no whitespace at either end is left as it is. */
  lemma StripUnchanged(s: string)
    requires s == [] || (!IsSpace(s[0]) && !IsSpace(s[|s| - 1]))
    ensures Strip(s) == s
  {
  }

  /** Stripping removes characters and adds none. */
  lemma StripKeepsChars(s: string)
    ensures forall c :: c in Strip(s) ==> c in s
  {
    var l := LStrip(s);
    assert forall c :: c in l ==> c in s;
    if l != [] {
      assert forall c :: c in RStrip(l) ==> c in l;
    }
  }

  lemma StripIdempotent(s: string)
    ensures Strip(Strip(s)) == Strip(s)
  {
    StripUnchanged(Strip(s));
  }

  /** Python's `s.replace(p, r)` for a non-empty `p`: occurrences are found left to right
      and do not overlap. */
  function ReplaceAll(s: string, p: string, r: string): string
    requires |p| > 0
  {
    if s == [] then []
    else if StartsWith(s, p) then r + ReplaceAll(s[|p|..], p, r)
    else [s[0]] + ReplaceAll(s[1..], p, r)
  }

  /** What reading a text file in Python's universal-newlines mode returns for the
      written text `s`: every "\r\n" and every lone "\r" becomes "\n". */
  function UniversalNewlines(s: string): (r: string)
    ensures '\r' !in r
    ensures |r| <= |s|
  {
    if s == [] then []
    else if s[0] == '\r' then
      if |s| > 1 && s[1] == '\n' then "\n" + UniversalNewlines(s[2..]) else "\n" + UniversalNewlines(s[1..])
    else [s[0]] + UniversalNewlines(s[1..])
  }

  /** Text without a carriage return reads back unchanged. */
  lemma {:induction false} NoCarriageReturnUnchanged(s: string)
    requires '\r' !in s
    ensures UniversalNewlines(s) == s
  {
    if s != [] {
      assert s[0] != '\r';
      assert forall k :: 0 <= k < |s[1..]| ==> s[1..][k] == s[k + 1];
      NoCarriageReturnUnchanged(s[1..]);
      assert s == [s[0]] + s[1..];
    }
  }

  /** Reading back what was read is stable: the translation is idempotent. */
  lemma UniversalNewlinesIdempotent(s: string)
    ensures UniversalNewlines(UniversalNewlines(s)) == UniversalNewlines(s)
  {
    NoCarriageReturnUnchanged(UniversalNewlines(s));
  }

  /** Python's `s.split(sep)` for a non-empty `sep`. */
  function Split(s: string, sep: string): (parts: seq<string>)
    requires |sep| > 0
    ensures |parts| >= 1
    ensures StartsWith(s, parts[0])
  {
    if s == [] then [[]]
    else if StartsWith(s, sep) then [[]] + Split(s[|sep|..], sep)
    else
      var rest := Split(s[1..], sep);
      [[s[0]] + rest[0]] + rest[1..]
  }

  /** Python's `sep.join(parts)`. */
  function Join(parts: seq<string>, sep: string): string
  {
    if |parts| == 0 then []
    else if |parts| == 1 then parts[0]
    else parts[0] + sep + Join(parts[1..], sep)
  }

  /** No element occurs twice. */
  predicate NoDuplicates<T(==)>(xs: seq<T>)
  {
    forall i, j :: 0 <= i < j < |xs| ==> xs[i] != xs[j]
  }

  /** Python's `a < b` on strings: lexicographic by code point, a proper prefix first. */
  predicate Less(a: string, b: string)
  {
    if a == [] then b != []
    else b != [] && (a[0] < b[0] || (a[0] == b[0] && Less(a[1..], b[1..])))
  }

  lemma {:induction false} LessIrreflexive(a: string)
    ensures !Less(a, a)
  {
    if a != [] {
      LessIrreflexive(a[1..]);
    }
  }

  lemma {:induction false} LessTransitive(a: string, b: string, c: string)
    requires Less(a, b) && Less(b, c)
    ensures Less(a, c)
  {
    if a != [] && a[0] == b[0] && b[0] == c[0] {
      LessTransitive(a[1..], b[1..], c[1..]);
    }
  }

  lemma {:induction false} LessTotal(a: string, b: string)
    requires a != b
    ensures Less(a, b) || Less(b, a)
  {
    if a != [] && b != [] && a[0] == b[0] {
      assert a == [a[0]] + a[1..] && b == [b[0]] + b[1..];
      LessTotal(a[1..], b[1..]);
    }
  }

  /** Joining a list with one more element in front. */
  lemma JoinCons(x: string, parts: seq<string>, sep: string)
    requires |parts| >= 1
    ensures Join([x] + parts, sep) == x + sep + Join(parts, sep)
  {
    assert ([x] + parts)[1..] == parts;
  }

  /** Joining a list whose first element gained a leading character. */
  lemma JoinPrepend(c: char, parts: seq<string>, sep: string)
    requires |parts| >= 1
    ensures Join([[c] + parts[0]] + parts[1..], sep) == [c] + Join(parts, sep)
  {
    var q := [[c] + parts[0]] + parts[1..];
    if |parts| > 1 {
      assert q[1..] == parts[1..];
    }
  }

  /** `sep.join(s.split(sep)) == s`. */
  lemma {:induction false} SplitJoin(s: string, sep: string)
    requires |sep| > 0
    ensures Join(Split(s, sep), sep) == s
  {
    if s == [] {
    } else if StartsWith(s, sep) {
      var rest := s[|sep|..];
      calc {
        Join(Split(s, sep), sep);
        Join([[]] + Split(rest, sep), sep);
        { JoinCons([], Split(rest, sep), sep); }
        [] + sep + Join(Split(rest, sep), sep);
        { SplitJoin(rest, sep); }
        [] + sep + rest;
        { assert s == s[..|sep|] + s[|sep|..]; }
        s;
      }
    } else {
      var rest := Split(s[1..], sep);
      calc {
        Join(Split(s, sep), sep);
        Join([[s[0]] + rest[0]] + rest[1..], sep);
        { JoinPrepend(s[0], rest, sep); }
        [s[0]] + Join(rest, sep);
        { SplitJoin(s[1..], sep); }
        [s[0]] + s[1..];
        s;
      }
    }
  }

  /** `s.replace(p, r) == r.join(s.split(p))`: every occurrence the split finds is
      replaced, and nothing else changes. */
  lemma {:induction false} ReplaceIsSplitJoin(s: string, p: string, r: string)
    requires |p| > 0
    ensures ReplaceAll(s, p, r) == Join(Split(s, p), r)
  {
    if s == [] {
    } else if StartsWith(s, p) {
      ReplaceIsSplitJoin(s[|p|..], p, r);
    } else {
      ReplaceIsSplitJoin(s[1..], p, r);
      JoinPrepend(s[0], Split(s[1..], p), r);
    }
  }

  /** No piece of a split still holds the separator. */
  lemma {:induction false} SplitPartsFree(s: string, sep: string)
    requires |sep| > 0
    ensures forall i :: 0 <= i < |Split(s, sep)| ==> !Contains(Split(s, sep)[i], sep)
  {
    if s == [] {
    } else if StartsWith(s, sep) {
      SplitPartsFree(s[|sep|..], sep);
    } else {
      var rest := Split(s[1..], sep);
      SplitPartsFree(s[1..], sep);
      var first := [s[0]] + rest[0];
      assert s[..|first|] == first;
      assert !StartsWith(first, sep);
      assert first[1..] == rest[0];
      var parts := [first] + rest[1..];
      forall i | 0 <= i < |parts| ensures !Contains(parts[i], sep) {
        if i > 0 { assert parts[i] == rest[i]; }
      }
    }
  }

  /** Replacing a pattern that does not occur changes nothing. */
  lemma {:induction false} ReplaceAbsent(s: string, p: string, r: string)
    requires |p| > 0 && !Contains(s, p)
    ensures ReplaceAll(s, p, r) == s
  {
    if s != [] {
      ReplaceAbsent(s[1..], p, r);
      assert s == [s[0]] + s[1..];
    }
  }

  /** The end of the whitespace run from `j` (a greedy `\s*`). */
  function SpaceEnd(text: string, j: nat): (w: nat)
    requires j <= |text|
    ensures j <= w <= |text|
    ensures forall k :: j <= k < w ==> IsSpace(text[k])
    ensures w == |text| || !IsSpace(text[w])
    decreases |text| - j
  {
    if j < |text| && IsSpace(text[j]) then SpaceEnd(text, j + 1) else j
  }

  /** A join starts with its first part. */
  lemma JoinStartsWithFirst(parts: seq<string>, sep: string)
    requires |parts| > 0
    ensures StartsWith(Join(parts, sep), parts[0])
  {
    if |parts| > 1 {
      assert Join(parts, sep) == parts[0] + (sep + Join(parts[1..], sep));
    }
  }

  /** An occurrence at any index is found by `in`. */
  lemma {:induction false} OccursAtContains(s: string, p: string, i: nat)
    requires OccursAt(s, p, i)
    ensures Contains(s, p)
  {
    if i == 0 {
      assert s[..|p|] == s[0..|p|];
    } else {
      assert s[1..][i - 1..i - 1 + |p|] == s[i..i + |p|];
      OccursAtContains(s[1..], p, i - 1);
    }
  }

  /** What `in` finds occurs at some index. */
  lemma {:induction false} ContainsOccurs(s: string, p: string)
    requires Contains(s, p)
    ensures exists i :: OccursAt(s, p, i)
  {
    if StartsWith(s, p) {
      assert OccursAt(s, p, 0);
    } else {
      ContainsOccurs(s[1..], p);
      var i :| OccursAt(s[1..], p, i);
      assert s[1..][i..i + |p|] == s[i + 1..i + 1 + |p|];
      assert OccursAt(s, p, i + 1);
    }
  }

  /** A pattern without whitespace characters. */
  predicate NoSpace(p: string)
  {
    forall k :: 0 <= k < |p| ==> !IsSpace(p[k])
  }

  /** Removing leading whitespace keeps an occurrence of a whitespace-free pattern. */
  lemma OccursLStrip(s: string, p: string, i: nat)
    requires |p| > 0 && NoSpace(p) && OccursAt(s, p, i)
    ensures |s| - |LStrip(s)| <= i && OccursAt(LStrip(s), p, i - (|s| - |LStrip(s)|))
  {
    var l := LStrip(s);
    var a := |s| - |l|;
    assert s[i] == p[0] by { assert s[i..i + |p|][0] == s[i]; }
    assert l[i - a..i - a + |p|] == s[i..i + |p|];
  }

  /** Removing trailing whitespace keeps an occurrence of a whitespace-free pattern. */
  lemma OccursRStrip(s: string, p: string, i: nat)
    requires |p| > 0 && NoSpace(p) && OccursAt(s, p, i)
    ensures OccursAt(RStrip(s), p, i)
  {
    var r := RStrip(s);
    var last := i + |p| - 1;
    assert s[last] == p[|p| - 1] by { assert s[i..i + |p|][|p| - 1] == s[last]; }
    assert r[i..i + |p|] == s[i..i + |p|];
  }

  /** Stripping never cuts into an occurrence of a whitespace-free pattern. */
  lemma ContainsStrip(s: string, p: string)
    requires |p| > 0 && NoSpace(p) && Contains(s, p)
    ensures Contains(Strip(s), p)
  {
    ContainsOccurs(s, p);
    var i :| OccursAt(s, p, i);
    var l := LStrip(s);
    OccursLStrip(s, p, i);
    var j := i - (|s| - |l|);
    OccursRStrip(l, p, j);
    OccursAtContains(RStrip(l), p, j);
  }

  /** An occurrence survives appending text after it. */
  lemma {:induction false} ContainsAppend(a: string, b: string, p: string)
    requires Contains(a, p)
    ensures Contains(a + b, p)
  {
    if !StartsWith(a, p) {
      assert (a + b)[1..] == a[1..] + b;
      ContainsAppend(a[1..], b, p);
    } else {
      assert (a + b)[..|p|] == a[..|p|];
    }
  }

  /** An occurrence of a pattern that starts with a non-space character rules out
      an all-whitespace text. */
  lemma {:induction false} ContainsNotAllSpace(s: string, p: string)
    requires |p| > 0 && !IsSpace(p[0]) && Contains(s, p)
    ensures !AllSpace(s)
  {
    if StartsWith(s, p) {
      assert s[0] == p[0];
    } else {
      ContainsNotAllSpace(s[1..], p);
      assert forall i :: 0 <= i < |s| - 1 ==> s[1..][i] == s[i + 1];
    }
  }

  /** The first line of a split starts with any newline-free prefix of the text. */
  lemma {:induction false} SplitHeadPrefix(s: string, q: string)
    requires StartsWith(s, q) && '\n' !in q
    ensures StartsWith(Split(s, "\n")[0], q)
  {
    if q != [] {
      assert s[0] == q[0];
      assert !StartsWith(s, "\n");
      SplitHeadPrefix(s[1..], q[1..]);
    }
  }

  /** A newline-free pattern found in a text is found in one of its lines. */
  lemma {:induction false} ContainsInSomeLine(s: string, p: string)
    requires |p| > 0 && '\n' !in p && Contains(s, p)
    ensures exists k :: 0 <= k < |Split(s, "\n")| && Contains(Split(s, "\n")[k], p)
  {
    var parts := Split(s, "\n");
    if StartsWith(s, "\n") {
      assert s[0] == '\n';
      assert !StartsWith(s, p) by { assert p[0] != '\n'; }
      ContainsInSomeLine(s[1..], p);
      var k :| 0 <= k < |Split(s[1..], "\n")| && Contains(Split(s[1..], "\n")[k], p);
      assert parts[k + 1] == Split(s[1..], "\n")[k];
    } else {
      var rest := Split(s[1..], "\n");
      assert parts[0] == [s[0]] + rest[0];
      if StartsWith(s, p) {
        SplitHeadPrefix(s[1..], p[1..]);
        assert parts[0][..|p|] == p;
        assert Contains(parts[0], p);
      } else {
        ContainsInSomeLine(s[1..], p);
        var k :| 0 <= k < |rest| && Contains(rest[k], p);
        if k == 0 {
          assert parts[0][1..] == rest[0];
          assert Contains(parts[0], p);
        } else {
          assert parts[k] == rest[k];
        }
      }
    }
  }

  predicate AllDigits(s: string)
  {
    forall k :: 0 <= k < |s| ==> IsAsciiDigit(s[k])
  }

  /** The value of a string of decimal digits, as `int(s)` reads it. */
  function DecimalValue(s: string): nat
    requires AllDigits(s)
  {
    if s == [] then 0
    else
      assert IsAsciiDigit(s[|s| - 1]);
      DecimalValue(s[..|s| - 1]) * 10 + (s[|s| - 1] as int - '0' as int)
  }

  /** The decimal digit for `d`. */
  function Digit(d: nat): (c: char)
    requires d < 10
    ensures IsAsciiDigit(c) && c as int - '0' as int == d
  {
    ('0' as int + d) as char
  }

  /** `str(n)` for a non-negative integer: its decimal digits, without leading zeros. */
  function NatToString(n: nat): (s: string)
    ensures |s| > 0 && AllDigits(s) && DecimalValue(s) == n
    ensures |s| > 1 ==> s[0] != '0'
  {
    if n < 10 then [Digit(n)]
    else
      var s := NatToString(n / 10) + [Digit(n % 10)];
      assert s[..|s| - 1] == NatToString(n / 10);
      s
  }

  /** `text[:limit] + "..."` when the text is longer than `limit`, else the text. */
  function Truncate(text: string, limit: nat): (r: string)
    ensures |r| <= limit + 3
    ensures |text| <= limit ==> r == text
    ensures |text| > limit ==> r == text[..limit] + "..."
  {
    if |text| > limit then text[..limit] + "..." else text
  }
}
