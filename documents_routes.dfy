/**
 * The download filename of the estimate and order routes: the case name is reduced
 * to letters, digits, '-' and '_', cut to fifty characters, and the result must be
 * ASCII or a fixed fallback name is used.
 */
module DocumentsRoutes {
  import opened Wrappers
  import opened PyText

  /** The two document routes. */
  datatype DocKind = Estimate | Order
  {
    function Prefix(): string
    {
      match this
      case Estimate => "estimate_"
      case Order => "order_"
    }
  }

  /** Python's `str.isalnum()`. For code points above U+007F the Unicode tables decide,
      given here as `unicodeAlnum`; no whitespace character is alphanumeric. */
  predicate IsAlnum(c: char, unicodeAlnum: char -> bool)
  {
    if c <= '\U{7F}' then IsAsciiLetter(c) || IsAsciiDigit(c)
    else !IsSpace(c) && unicodeAlnum(c)
  }

  /** A character the filename keeps as it is. */
  predicate Kept(c: char, unicodeAlnum: char -> bool)
  {
    IsAlnum(c, unicodeAlnum) || c == '-' || c == '_'
  }

  /** The generator-expression join: every character is kept or becomes '_'. */
  function SafeChars(name: string, unicodeAlnum: char -> bool): (r: string)
    ensures |r| == |name|
    ensures forall i :: 0 <= i < |name| ==>
              (Kept(name[i], unicodeAlnum) ==> r[i] == name[i])
              && (!Kept(name[i], unicodeAlnum) ==> r[i] == '_')
  {
    if name == [] then []
    else [if Kept(name[0], unicodeAlnum) then name[0] else '_'] + SafeChars(name[1..], unicodeAlnum)
  }

  /** `safe_filename[:50].strip() or "case"`, with a missing `case_name` read as "case". */
  function SafeStem(caseName: Option<string>, unicodeAlnum: char -> bool): (stem: string)
    ensures 0 < |stem| <= 50
    ensures forall i :: 0 <= i < |stem| ==> Kept(stem[i], unicodeAlnum)
    ensures var name := caseName.GetOr("case");
            stem == if name == [] then "case" else Take(SafeChars(name, unicodeAlnum), 50)
  {
    var name := caseName.GetOr("case");
    var cut := Take(SafeChars(name, unicodeAlnum), 50);
    assert forall i :: 0 <= i < |cut| ==> Kept(cut[i], unicodeAlnum);
    assert !AllSpace(cut) ==> Strip(cut) == cut by {
      if cut != [] {
        assert !IsSpace(cut[0]) && !IsSpace(cut[|cut| - 1]);
        StripUnchanged(cut);
      }
    }
    var stripped := Strip(cut);
    if stripped == [] then "case" else stripped
  }

  /** The name built from a stem: kept when ASCII, otherwise the fixed fallback. */
  function Attachment(kind: DocKind, stem: string): (filename: string)
    ensures IsAscii(filename)
    ensures IsAscii(stem) ==> filename == kind.Prefix() + stem + ".docx"
    ensures !IsAscii(stem) ==> filename == kind.Prefix() + "case.docx"
  {
    var prefix := kind.Prefix();
    assert IsAscii(prefix) by {
      if kind.Estimate? { assert IsAscii("estimate_"); } else { assert IsAscii("order_"); }
    }
    assert IsAscii(".docx") && IsAscii("case.docx");
    AsciiConcat(prefix, stem);
    AsciiConcat(prefix + stem, ".docx");
    AsciiConcat(prefix, "case.docx");
    if IsAscii(prefix + stem + ".docx") then prefix + stem + ".docx" else prefix + "case.docx"
  }

  /** The `Content-Disposition` filename of a route. */
  function DownloadName(kind: DocKind, caseName: Option<string>, unicodeAlnum: char -> bool): (filename: string)
    ensures IsAscii(filename)
  {
    Attachment(kind, SafeStem(caseName, unicodeAlnum))
  }

  /** An ASCII name of at most fifty letters, digits, '-' and '_' is used as it is. */
  lemma PlainNamePassesThrough(kind: DocKind, name: string, unicodeAlnum: char -> bool)
    requires 0 < |name| <= 50 && IsAscii(name)
    requires forall i :: 0 <= i < |name| ==> Kept(name[i], unicodeAlnum)
    ensures DownloadName(kind, Some(name), unicodeAlnum) == kind.Prefix() + name + ".docx"
  {
    assert SafeChars(name, unicodeAlnum) == name;
  }

  /** A name whose first fifty characters hold a non-ASCII letter (a Japanese case
      name, say) falls back to the fixed name. */
  lemma NonAsciiFallsBack(kind: DocKind, name: string, unicodeAlnum: char -> bool, k: nat)
    requires k < |name| && k < 50 && name[k] > '\U{7F}' && IsAlnum(name[k], unicodeAlnum)
    ensures DownloadName(kind, Some(name), unicodeAlnum) == kind.Prefix() + "case.docx"
  {
    var stem := SafeStem(Some(name), unicodeAlnum);
    assert stem[k] == name[k];
  }

  /** Every character the filename drops becomes '_', so its length up to the cut is
      the name's. */
  lemma StemLength(name: string, unicodeAlnum: char -> bool)
    requires name != []
    ensures |SafeStem(Some(name), unicodeAlnum)| == if |name| <= 50 then |name| else 50
  {
  }
}
