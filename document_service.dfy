/**
 * The text handling of the document service: HTML escaping for the PDF renderer,
 * the truncation of the RAG answer, the `{notes}` value, the order-number suffix
 * and the in-place substitution of placeholders in an order template.
 */
module DocumentService {
  import opened Wrappers
  import opened PyText

  /** The entity a special character is escaped to. */
  function Entity(c: char): string
  {
    if c == '&' then "&amp;" else if c == '<' then "&lt;" else "&gt;"
  }

  /** One character after escaping: `&`, `<` and `>` are escaped when their flag is
      set, every other character stays. */
  function Block(c: char, amp: bool, lt: bool, gt: bool): string
  {
    if (c == '&' && amp) || (c == '<' && lt) || (c == '>' && gt) then Entity(c) else [c]
  }

  /** A text escaped character by character; with all three flags it is the HTML
      escape of the text, with none the text itself. */
  function Escaped(s: string, amp: bool, lt: bool, gt: bool): string
  {
    if s == [] then [] else Block(s[0], amp, lt, gt) + Escaped(s[1..], amp, lt, gt)
  }

  /** `_sanitize_text`: "&" first, then "<", then ">". */
  function Sanitize(text: string): (r: string)
    ensures r == Escaped(text, true, true, true)
  {
    if text == [] then ""
    else
      var t1 := ReplaceAll(text, "&", "&amp;");
      var t2 := ReplaceAll(t1, "<", "&lt;");
      var t3 := ReplaceAll(t2, ">", "&gt;");
      Unescaped(text);
      EscapeStep(text, '&', false, false, false);
      EscapeStep(text, '<', true, false, false);
      EscapeStep(text, '>', true, true, false);
      t3
  }

  /** The reverse replacements: "&lt;", then "&gt;", then "&amp;". */
  function Unsanitize(text: string): string
  {
    ReplaceAll(ReplaceAll(ReplaceAll(text, "&lt;", "<"), "&gt;", ">"), "&amp;", "&")
  }

  lemma {:induction false} Unescaped(s: string)
    ensures Escaped(s, false, false, false) == s
  {
    if s != [] {
      Unescaped(s[1..]);
    }
  }

  /** A text holding no first character of the pattern passes through a replacement. */
  lemma {:induction false} PassThrough(t: string, rest: string, p: string, r: string)
    requires |p| > 0 && forall i :: 0 <= i < |t| ==> t[i] != p[0]
    ensures ReplaceAll(t + rest, p, r) == t + ReplaceAll(rest, p, r)
  {
    if t != [] {
      assert (t + rest)[0] == t[0];
      assert !StartsWith(t + rest, p);
      assert (t + rest)[1..] == t[1..] + rest;
      PassThrough(t[1..], rest, p, r);
      assert t == [t[0]] + t[1..];
    } else {
      assert t + rest == rest;
    }
  }

  /** An entity other than the pattern passes through a replacement of an entity. */
  lemma OtherEntityPassThrough(c: char, rest: string, k: char, r: string)
    requires c in "&<>" && k in "&<>" && c != k
    ensures ReplaceAll(Entity(c) + rest, Entity(k), r) == Entity(c) + ReplaceAll(rest, Entity(k), r)
  {
    var e := Entity(c);
    NotStartsWithAt(e + rest, Entity(k), 1);
    assert (e + rest)[1..] == e[1..] + rest;
    PassThrough(e[1..], rest, Entity(k), r);
  }

  /** Replacing the pattern at the front. */
  lemma MatchAtFront(p: string, rest: string, r: string)
    requires |p| > 0
    ensures ReplaceAll(p + rest, p, r) == r + ReplaceAll(rest, p, r)
  {
    assert (p + rest)[..|p|] == p;
    assert (p + rest)[|p|..] == rest;
  }

  /** One forward replacement escapes one more character. "&" must go first, since the
      entities hold "&". */
  lemma {:induction false} EscapeStep(s: string, k: char, amp: bool, lt: bool, gt: bool)
    requires k in "&<>"
    requires k == '&' ==> !amp && !lt && !gt
    requires k == '<' ==> !lt
    requires k == '>' ==> !gt
    ensures ReplaceAll(Escaped(s, amp, lt, gt), [k], Entity(k))
            == Escaped(s, amp || k == '&', lt || k == '<', gt || k == '>')
  {
    if s != [] {
      var b := Block(s[0], amp, lt, gt);
      var rest := Escaped(s[1..], amp, lt, gt);
      EscapeStep(s[1..], k, amp, lt, gt);
      if s[0] == k {
        MatchAtFront([k], rest, Entity(k));
      } else {
        PassThrough(b, rest, [k], Entity(k));
      }
    }
  }

  /** One reverse replacement unescapes one character, as long as every remaining "&"
      still begins an entity. */
  lemma {:induction false} UnescapeStep(s: string, k: char, lt: bool, gt: bool)
    requires k in "&<>"
    requires k == '&' ==> !lt && !gt
    requires k == '<' ==> lt
    requires k == '>' ==> gt
    ensures ReplaceAll(Escaped(s, true, lt, gt), Entity(k), [k])
            == Escaped(s, k != '&', lt && k != '<', gt && k != '>')
  {
    if s != [] {
      var b := Block(s[0], true, lt, gt);
      var rest := Escaped(s[1..], true, lt, gt);
      UnescapeStep(s[1..], k, lt, gt);
      if s[0] == k {
        MatchAtFront(Entity(k), rest, [k]);
      } else if b == [s[0]] {
        PassThrough(b, rest, Entity(k), [k]);
      } else {
        OtherEntityPassThrough(s[0], rest, k, [k]);
      }
    }
  }

  /** Escaping is reversible: the reverse replacements recover the input. */
  lemma SanitizeRoundTrip(text: string)
    ensures Unsanitize(Sanitize(text)) == text
  {
    UnescapeStep(text, '<', true, true);
    UnescapeStep(text, '>', false, true);
    UnescapeStep(text, '&', false, false);
    Unescaped(text);
  }

  /** An escaped entity starts at index `i`. */
  predicate EntityAt(t: string, i: nat)
    requires i <= |t|
  {
    StartsWith(t[i..], "&amp;") || StartsWith(t[i..], "&lt;") || StartsWith(t[i..], "&gt;")
  }

  /** The output holds no "<" or ">", and every "&" in it begins an entity. */
  lemma {:induction false} SanitizedWellFormed(text: string)
    ensures var r := Sanitize(text);
            forall i :: 0 <= i < |r| ==> r[i] != '<' && r[i] != '>' && (r[i] == '&' ==> EntityAt(r, i))
  {
    if text != [] {
      SanitizedWellFormed(text[1..]);
      var b := Block(text[0], true, true, true);
      var rest := Sanitize(text[1..]);
      var r := b + rest;
      assert r == Sanitize(text);
      forall i | 0 <= i < |r| ensures r[i] != '<' && r[i] != '>' && (r[i] == '&' ==> EntityAt(r, i)) {
        if i < |b| {
          if i == 0 && r[i] == '&' {
            assert r[..|b|] == b;
          }
        } else {
          assert r[i] == rest[i - |b|];
          assert r[i..] == rest[i - |b|..];
        }
      }
    }
  }

  /** A text with no "&", "<" or ">" is left as it is. */
  lemma {:induction false} PlainTextUnchanged(text: string)
    requires forall i :: 0 <= i < |text| ==> text[i] !in "&<>"
    ensures Sanitize(text) == text
  {
    if text != [] {
      PlainTextUnchanged(text[1..]);
      assert text == [text[0]] + text[1..];
    }
  }

  /** The RAG answer in the Word estimate. */
  function EstimateAnswer(answer: string): (r: string)
    ensures |r| <= 5003
    ensures |answer| <= 5000 ==> r == answer
    ensures |answer| > 5000 ==> r == answer[..5000] + "..."
  {
    Truncate(answer, 5000)
  }

  /** The RAG answer in the PDF drafts: cut first, then escaped. */
  function PdfAnswer(answer: string): (r: string)
    ensures r == Escaped(Truncate(answer, 2000), true, true, true)
    ensures Unsanitize(r) == Truncate(answer, 2000)
    ensures forall i :: 0 <= i < |r| ==> r[i] != '<' && r[i] != '>' && (r[i] == '&' ==> EntityAt(r, i))
  {
    SanitizeRoundTrip(Truncate(answer, 2000));
    SanitizedWellFormed(Truncate(answer, 2000));
    Sanitize(Truncate(answer, 2000))
  }

  const Disclaimer: string :=
    "本発注書はRAGシステムによる支援情報を基に作成されています。\n最終的な金額・内容については、実際の業者との協議により決定してください。"

  /** The `{notes}` value: the notes and a line break when there are notes, then the
      fixed disclaimer. */
  function NotesValue(notes: Option<string>): (v: string)
    ensures EndsWith(v, Disclaimer)
    ensures notes.None? || notes.value == [] ==> v == Disclaimer
    ensures notes.Some? && notes.value != [] ==> v == notes.value + "\n" + Disclaimer
  {
    var text := notes.GetOr("");
    text + (if text != [] then "\n" else "") + Disclaimer
  }

  /** `f"{n:04d}"` for `0 <= n < 10000`. */
  function Pad4(n: nat): (r: string)
    requires n < 10000
    ensures |r| == 4 && forall i :: 0 <= i < 4 ==> IsAsciiDigit(r[i])
    ensures DecimalValue(r) == n
  {
    var r := [Digit(n / 1000), Digit(n / 100 % 10), Digit(n / 10 % 10), Digit(n % 10)];
    assert r[..1][..0] == [] && r[..2][..1] == r[..1] && r[..3][..2] == r[..2] && r[..4][..3] == r[..3];
    assert DecimalValue(r[..1]) == n / 1000;
    assert DecimalValue(r[..2]) == n / 100;
    assert DecimalValue(r[..3]) == n / 10;
    assert r[..4] == r;
    r
  }

  /** The suffix of the order number: Python's `hash(case_name) % 10000` is never
      negative for the positive divisor, so it always prints as four digits. */
  function OrderSuffix(caseNameHash: int): (r: string)
    ensures |r| == 4 && forall i :: 0 <= i < 4 ==> IsAsciiDigit(r[i])
    ensures DecimalValue(r) == caseNameHash % 10000
  {
    Pad4(caseNameHash % 10000)
  }

  /** "ORD-" + the `%Y%m%d` date + "-" + the four-digit suffix. */
  function OrderNumber(dateStamp: string, caseNameHash: int): (r: string)
    ensures |r| == |dateStamp| + 9
    ensures StartsWith(r, "ORD-") && r[4..4 + |dateStamp|] == dateStamp && r[|r| - 5] == '-'
    ensures r[|r| - 4..] == OrderSuffix(caseNameHash)
  {
    "ORD-" + dateStamp + "-" + OrderSuffix(caseNameHash)
  }

  /** `case_info.get(key, "未設定")`. */
  function CaseField(caseInfo: map<string, string>, key: string): string
  {
    if key in caseInfo then caseInfo[key] else "未設定"
  }

  /** The placeholder keys, in the order the replacement dictionary lists them. */
  const PlaceholderKeys: seq<string> := [
    "{order_number}", "{order_date}", "{contractor_name}", "{contractor_address}",
    "{contractor_phone}", "{contractor_contact}", "{company_name}", "{company_address}",
    "{company_phone}", "{company_contact}", "{case_name}", "{repair_type}", "{urgency}",
    "{location}", "{tank_size}", "{price:,}", "{delivery_date}", "{completion_date}",
    "{payment_method}", "{payment_due_date}", "{notes}"
  ]

  /** Each key paired with the value at the same position. */
  function Pair(keys: seq<string>, values: seq<string>): (reps: seq<(string, string)>)
    requires |keys| == |values|
    ensures |reps| == |keys| && forall i :: 0 <= i < |reps| ==> reps[i] == (keys[i], values[i])
  {
    if keys == [] then [] else [(keys[0], values[0])] + Pair(keys[1..], values[1..])
  }

  /** The replacement dictionary of an order. `priceText` is the formatted price. */
  function Replacements(orderNumber: string, orderDate: string, contractor: string,
                        caseInfo: map<string, string>, priceText: string, notes: Option<string>)
    : (reps: seq<(string, string)>)
    ensures |reps| == |PlaceholderKeys| && forall i :: 0 <= i < |reps| ==> reps[i].0 == PlaceholderKeys[i]
    ensures reps[2].1 == contractor && reps[10].1 == CaseField(caseInfo, "case_name")
    ensures reps[20].1 == NotesValue(notes)
  {
    var unset := "（未設定）";
    var agreed := "（協議により決定）";
    Pair(PlaceholderKeys,
         [orderNumber, orderDate, contractor, unset, unset, unset, unset, unset, unset, unset,
          CaseField(caseInfo, "case_name"), CaseField(caseInfo, "repair_type"),
          CaseField(caseInfo, "urgency"), CaseField(caseInfo, "location"),
          CaseField(caseInfo, "tank_size"), priceText, agreed, agreed, agreed, agreed,
          NotesValue(notes)])
  }

  /** Every key of a replacement list is non-empty, so `str.replace` is well defined. */
  predicate ValidKeys(reps: seq<(string, string)>)
  {
    forall i :: 0 <= i < |reps| ==> |reps[i].0| > 0
  }

  lemma PlaceholderKeysValid(reps: seq<(string, string)>)
    requires |reps| == |PlaceholderKeys| && forall i :: 0 <= i < |reps| ==> reps[i].0 == PlaceholderKeys[i]
    ensures ValidKeys(reps)
  {
    forall i | 0 <= i < |reps| ensures |reps[i].0| > 0 {
      assert reps[i].0 == PlaceholderKeys[i] && PlaceholderKeys[i][0] == '{';
    }
  }

  /** A Word paragraph: its text is the concatenation of its runs; assigning the text
      replaces all runs (and their formatting) by a single run. */
  datatype Paragraph = Paragraph(runs: seq<string>)
  {
    function Text(): string
    {
      Concat(runs)
    }
  }

  function Concat(runs: seq<string>): string
  {
    if runs == [] then [] else runs[0] + Concat(runs[1..])
  }

  /** One iteration of the inner `for key, value` loop. */
  function Substitute(p: Paragraph, key: string, value: string): Paragraph
    requires |key| > 0
  {
    if Contains(p.Text(), key) then Paragraph([ReplaceAll(p.Text(), key, value)]) else p
  }

  /** A paragraph after the replacement pairs, applied in order. */
  function Filled(p: Paragraph, reps: seq<(string, string)>): Paragraph
    requires ValidKeys(reps)
  {
    if reps == [] then p
    else
      var last := reps[|reps| - 1];
      Substitute(Filled(p, reps[..|reps| - 1]), last.0, last.1)
  }

  /** A substitution replaces every occurrence of its key: the text is cut at the
      occurrences, the pieces hold no key, and they are joined with the value. */
  lemma SubstituteReplacesEvery(p: Paragraph, key: string, value: string)
    requires |key| > 0
    ensures var pieces := Split(p.Text(), key);
            && Join(pieces, key) == p.Text()
            && (forall i :: 0 <= i < |pieces| ==> !Contains(pieces[i], key))
            && Substitute(p, key, value).Text() == Join(pieces, value)
  {
    SplitJoin(p.Text(), key);
    SplitPartsFree(p.Text(), key);
    ReplaceIsSplitJoin(p.Text(), key, value);
    if !Contains(p.Text(), key) {
      ReplaceAbsent(p.Text(), key, value);
    } else {
      assert Concat([ReplaceAll(p.Text(), key, value)]) == ReplaceAll(p.Text(), key, value) + Concat([]);
    }
  }

  /** A paragraph holding none of the keys keeps its runs. */
  lemma {:induction false} NoKeyUntouched(p: Paragraph, reps: seq<(string, string)>)
    requires ValidKeys(reps)
    requires forall i :: 0 <= i < |reps| ==> !Contains(p.Text(), reps[i].0)
    ensures Filled(p, reps) == p
  {
    if reps != [] {
      NoKeyUntouched(p, reps[..|reps| - 1]);
    }
  }

  /** A python-docx document whose body paragraphs and table-cell paragraphs (cells
      taken row by row, table by table) are edited in place. */
  class OrderTemplate {
    var body: array<Paragraph>
    var cells: array<Paragraph>

    constructor(body: array<Paragraph>, cells: array<Paragraph>)
      requires body != cells
      ensures this.body == body && this.cells == cells
    {
      this.body := body;
      this.cells := cells;
    }

    /** The two replacement loops: body paragraphs, then table-cell paragraphs. */
    method Fill(reps: seq<(string, string)>)
      requires ValidKeys(reps) && body != cells
      modifies body, cells
      ensures forall i :: 0 <= i < body.Length ==> body[i] == Filled(old(body[i]), reps)
      ensures forall i :: 0 <= i < cells.Length ==> cells[i] == Filled(old(cells[i]), reps)
    {
      FillAll(body, reps);
      FillAll(cells, reps);
    }
  }

  /** Every paragraph of `paras` has the replacement pairs applied in place. */
  method FillAll(paras: array<Paragraph>, reps: seq<(string, string)>)
    requires ValidKeys(reps)
    modifies paras
    ensures forall i :: 0 <= i < paras.Length ==> paras[i] == Filled(old(paras[i]), reps)
  {
    for i := 0 to paras.Length
      invariant forall k :: 0 <= k < i ==> paras[k] == Filled(old(paras[k]), reps)
      invariant forall k :: i <= k < paras.Length ==> paras[k] == old(paras[k])
    {
      for j := 0 to |reps|
        invariant paras[i] == Filled(old(paras[i]), reps[..j])
        invariant forall k :: i < k < paras.Length ==> paras[k] == old(paras[k])
        invariant forall k :: 0 <= k < i ==> paras[k] == Filled(old(paras[k]), reps)
      {
        var (key, value) := reps[j];
        assert reps[..j + 1][..j] == reps[..j];
        if Contains(paras[i].Text(), key) {
          paras[i] := Paragraph([ReplaceAll(paras[i].Text(), key, value)]);
        }
      }
      assert reps[..|reps|] == reps;
    }
  }
}
