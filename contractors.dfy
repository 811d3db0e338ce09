/** The contractor-to-case mapping of `generate_answer`: the contractor named on a
    `対応業者：` line of a retrieved text, and the case numbers of that text. */
module Contractors {
  import opened Wrappers
  import opened PyText
  import opened CaseNumbers
  import opened SearchResults

  const Marker := "対応業者"

  /** The marker followed by a full-width or an ASCII colon at index `i`. */
  predicate LabelAt(text: string, i: nat)
  {
    i + 5 <= |text| && text[i] == '対' && text[i + 1] == '応' && text[i + 2] == '業' && text[i + 3] == '者'
    && (text[i + 4] == '：' || text[i + 4] == ':')
  }

  /** The first newline at or after `k`, or the end of the text. */
  function LineEnd(text: string, k: nat): (e: nat)
    requires k <= |text|
    ensures k <= e <= |text|
    ensures forall m :: k <= m < e ==> text[m] != '\n'
    ensures e == |text| || text[e] == '\n'
    decreases |text| - k
  {
    if k < |text| && text[k] != '\n' then LineEnd(text, k + 1) else k
  }

  /** The last index in `[j, w)` that is not a newline. */
  function LastNonNewline(text: string, j: nat, w: nat): (k: Option<nat>)
    requires j <= w <= |text|
    ensures k.Some? ==> j <= k.value < w && text[k.value] != '\n'
                        && forall m :: k.value < m < w ==> text[m] == '\n'
    ensures k.None? ==> forall m :: j <= m < w ==> text[m] == '\n'
    decreases w - j
  {
    if w == j then None
    else if text[w - 1] != '\n' then Some(w - 1)
    else LastNonNewline(text, j, w - 1)
  }

  /** Group 1 of `対応業者[：:]\s*([^\n]+)` matched at index `i`. The greedy `\s*`
      runs to the end of the whitespace; if that leaves nothing for `[^\n]+`, the
      regex gives back whitespace until a character other than a newline is free. */
  function CaptureAt(text: string, i: nat): (c: Option<string>)
    requires i <= |text|
    ensures c.Some? ==> LabelAt(text, i) && |c.value| > 0 && '\n' !in c.value
  {
    if !LabelAt(text, i) then None
    else
      var w := SpaceEnd(text, i + 5);
      if w < |text| then
        Some(text[w..LineEnd(text, w)])
      else match LastNonNewline(text, i + 5, w)
        case None => None
        case Some(k) => Some(text[k..LineEnd(text, k)])
  }

  /** A range without a match, grown by one index at its start. */
  lemma NoCaptureFrom(text: string, from: nat, upto: nat)
    requires from < upto && from <= |text| && CaptureAt(text, from).None?
    requires forall j :: from + 1 <= j < upto && j <= |text| ==> CaptureAt(text, j).None?
    ensures forall j :: from <= j < upto && j <= |text| ==> CaptureAt(text, j).None?
  {
  }

  /** `re.search` from index `from`: the leftmost index where the pattern matches. */
  function FirstMatch(text: string, from: nat): (i: Option<nat>)
    requires from <= |text|
    ensures i.Some? ==> from <= i.value <= |text| && CaptureAt(text, i.value).Some?
                        && forall j :: from <= j < i.value ==> CaptureAt(text, j).None?
    ensures i.None? ==> forall j :: from <= j <= |text| ==> CaptureAt(text, j).None?
    decreases |text| - from
  {
    if CaptureAt(text, from).Some? then Some(from)
    else if from == |text| then None
    else
      var r := FirstMatch(text, from + 1);
      NoCaptureFrom(text, from, if r.Some? then r.value else |text| + 1);
      r
  }

  /** `contractor_match.group(1).strip()`, or None without a match. The name is the
      stripped capture of the leftmost match, and lies on one line. */
  function ContractorOf(text: string): (name: Option<string>)
    ensures name.Some? ==> '\n' !in name.value
    ensures name.Some? ==> name.value == [] || (!IsSpace(name.value[0]) && !IsSpace(name.value[|name.value| - 1]))
  {
    match FirstMatch(text, 0)
    case None => None
    case Some(i) =>
      var c := CaptureAt(text, i).value;
      StripKeepsChars(c);
      Some(Strip(c))
  }

  /** The contractor is the stripped capture of the leftmost match, and there is
      none exactly when the pattern matches nowhere. */
  lemma ContractorLeftmost(text: string)
    ensures ContractorOf(text).None? <==> forall i :: 0 <= i <= |text| ==> CaptureAt(text, i).None?
    ensures ContractorOf(text).Some? ==>
              exists i :: 0 <= i <= |text| && CaptureAt(text, i).Some?
                          && (forall j :: 0 <= j < i ==> CaptureAt(text, j).None?)
                          && ContractorOf(text).value == Strip(CaptureAt(text, i).value)
  {
    match FirstMatch(text, 0)
    case None =>
    case Some(i) =>
      assert ContractorOf(text).value == Strip(CaptureAt(text, i).value);
  }

  /** A text with no contractor label names no contractor. */
  lemma NoLabelNoContractor(text: string)
    requires forall i :: 0 <= i <= |text| ==> !LabelAt(text, i)
    ensures ContractorOf(text).None?
  {
  }

  /** A text that opens with a label line names the rest of that line, when it has
      no whitespace at either end. */
  lemma LabelLineNamesContractor(name: string, rest: string)
    requires |name| > 0 && '\n' !in name && !IsSpace(name[0]) && !IsSpace(name[|name| - 1])
    requires rest == [] || rest[0] == '\n'
    ensures ContractorOf(Marker + "：" + name + rest) == Some(name)
  {
    var text := Marker + "：" + name + rest;
    assert LabelAt(text, 0);
    assert text[5..] == name + rest;
    assert SpaceEnd(text, 5) == 5;
    var e := LineEnd(text, 5);
    assert e == 5 + |name| by {
      forall m | 5 <= m < 5 + |name| ensures text[m] != '\n' {
        assert text[m] == name[m - 5];
      }
      if rest != [] {
        assert text[5 + |name|] == rest[0];
      }
      LineEndAt(text, 5, 5 + |name|);
    }
    assert text[5..e] == name;
    StripUnchanged(name);
  }

  /** A label followed only by a space still matches, because the regex gives the
      space back to the capture, and the stripped name is then empty. */
  lemma TrailingLabelNamesEmpty()
    ensures ContractorOf(Marker + "： ") == Some("")
  {
    var text := Marker + "： ";
    assert LabelAt(text, 0);
    assert SpaceEnd(text, 5) == 6;
    assert LastNonNewline(text, 5, 6) == Some(5);
    assert LineEnd(text, 5) == 6;
    assert text[5..6] == " ";
    assert CaptureAt(text, 0) == Some(" ");
    assert AllSpace(" ");
  }

  /** `LineEnd` is the first newline. */
  lemma LineEndAt(text: string, k: nat, e: nat)
    requires k <= e <= |text|
    requires forall m :: k <= m < e ==> text[m] != '\n'
    requires e == |text| || text[e] == '\n'
    ensures LineEnd(text, k) == e
  {
    var f := LineEnd(text, k);
    assert f <= e;
    assert f >= e;
  }

  /** The mapping from contractor name to case numbers. */
  type Mapping = map<string, seq<string>>

  /** What one text contributes: its contractor and its case numbers, when it has
      both a contractor line and at least one case number. */
  function Entry(text: string): Option<(string, seq<string>)>
  {
    match ContractorOf(text)
    case None => None
    case Some(name) =>
      var nums := CaseNumbersOf(text);
      if nums == [] then None else Some((name, nums))
  }

  type Contribution = Option<(string, seq<string>)>

  /** One step of the loop: the contributed numbers are appended to the
      contractor's list, which starts empty. */
  function AddEntry(m: Mapping, e: Contribution): Mapping
  {
    match e
    case None => m
    case Some((name, nums)) => m[name := (if name in m then m[name] else []) + nums]
  }

  /** The mapping after folding the contributions in order. */
  function Fold(es: seq<Contribution>): Mapping
  {
    if es == [] then map[] else AddEntry(Fold(es[..|es| - 1]), es[|es| - 1])
  }

  /** Contribution `i` is present and names `name`. */
  predicate Names(es: seq<Contribution>, i: int, name: string)
  {
    0 <= i < |es| && es[i].Some? && es[i].value.0 == name
  }

  /** A name is a key exactly when some contribution names it. */
  lemma {:induction false} FoldKeys(es: seq<Contribution>)
    ensures forall name :: name in Fold(es) <==> exists i :: Names(es, i, name)
  {
    if es != [] {
      var n := |es| - 1;
      var init := es[..n];
      FoldKeys(init);
      forall name | name in Fold(es) ensures exists i :: Names(es, i, name) {
        if name in Fold(init) {
          var i :| Names(init, i, name);
          assert Names(es, i, name);
        } else {
          assert Names(es, n, name);
        }
      }
      forall name | exists i :: Names(es, i, name) ensures name in Fold(es) {
        var i :| Names(es, i, name);
        if i < n { assert Names(init, i, name); }
      }
    }
  }

  /** With non-empty contributions, every list is non-empty. */
  lemma {:induction false} FoldListsNonEmpty(es: seq<Contribution>)
    requires forall i :: 0 <= i < |es| && es[i].Some? ==> es[i].value.1 != []
    ensures forall name :: name in Fold(es) ==> Fold(es)[name] != []
  {
    if es != [] {
      FoldListsNonEmpty(es[..|es| - 1]);
    }
  }

  /** Every number on a list comes from a contribution naming that key. */
  lemma {:induction false} FoldListsSound(es: seq<Contribution>)
    ensures forall name, x :: name in Fold(es) && x in Fold(es)[name] ==>
              exists i :: Names(es, i, name) && x in es[i].value.1
  {
    if es != [] {
      var n := |es| - 1;
      var init := es[..n];
      FoldListsSound(init);
      var m := Fold(init);
      forall name, x | name in Fold(es) && x in Fold(es)[name]
        ensures exists i :: Names(es, i, name) && x in es[i].value.1
      {
        if name in m && x in m[name] {
          var i :| Names(init, i, name) && x in init[i].value.1;
          assert Names(es, i, name) && es[i] == init[i];
        } else {
          assert Names(es, n, name) && x in es[n].value.1;
        }
      }
    }
  }

  /** Every number a contribution brings is on the list of the name it gives. */
  lemma {:induction false} FoldListsComplete(es: seq<Contribution>)
    ensures forall i, x :: 0 <= i < |es| && es[i].Some? && x in es[i].value.1 ==>
              es[i].value.0 in Fold(es) && x in Fold(es)[es[i].value.0]
  {
    if es != [] {
      var n := |es| - 1;
      var init := es[..n];
      FoldListsComplete(init);
      forall i, x | 0 <= i < |es| && es[i].Some? && x in es[i].value.1
        ensures es[i].value.0 in Fold(es) && x in Fold(es)[es[i].value.0]
      {
        if i < n {
          assert es[i] == init[i];
        }
      }
    }
  }

  /** `f` applied to each element of `xs`, in order. */
  function MapEach<A, B>(f: A -> B, xs: seq<A>): (ys: seq<B>)
    ensures |ys| == |xs|
    ensures forall i :: 0 <= i < |xs| ==> ys[i] == f(xs[i])
  {
    if xs == [] then [] else MapEach(f, xs[..|xs| - 1]) + [f(xs[|xs| - 1])]
  }

  /** The contributions of the results, in order. */
  function Contributions(hits: seq<Hit>): (es: seq<Contribution>)
  {
    MapEach((h: Hit) => Entry(h.text), hits)
  }

  /** `contractor_case_mapping` after the loop over the search results. */
  function MappingOf(hits: seq<Hit>): Mapping
  {
    Fold(Contributions(hits))
  }

  /** A contractor is a key exactly when some result has a line naming it and at
      least one case number; every list is non-empty; and every number on a
      contractor's list is a case number of a result naming that contractor, and
      every case number of a result naming a contractor is on that contractor's list. */
  lemma MappingShape(hits: seq<Hit>)
    ensures forall name :: name in MappingOf(hits) <==>
              exists i :: 0 <= i < |hits| && ContractorOf(hits[i].text) == Some(name) && CaseNumbersOf(hits[i].text) != []
    ensures forall name :: name in MappingOf(hits) ==> MappingOf(hits)[name] != []
    ensures forall name, x :: name in MappingOf(hits) && x in MappingOf(hits)[name] ==>
              exists i :: 0 <= i < |hits| && ContractorOf(hits[i].text) == Some(name) && x in CaseNumbersOf(hits[i].text)
    ensures forall i, name, x :: 0 <= i < |hits| && ContractorOf(hits[i].text) == Some(name) && x in CaseNumbersOf(hits[i].text) ==>
              name in MappingOf(hits) && x in MappingOf(hits)[name]
  {
    var es := Contributions(hits);
    FoldKeys(es);
    FoldListsNonEmpty(es);
    FoldListsSound(es);
    FoldListsComplete(es);
    forall name ensures (exists i :: Names(es, i, name)) <==>
        exists i :: 0 <= i < |hits| && ContractorOf(hits[i].text) == Some(name) && CaseNumbersOf(hits[i].text) != [] {
      forall i | 0 <= i < |hits|
        ensures Names(es, i, name) <==> ContractorOf(hits[i].text) == Some(name) && CaseNumbersOf(hits[i].text) != [] {
        assert es[i] == Entry(hits[i].text);
      }
    }
    forall name, x | name in Fold(es) && x in Fold(es)[name]
      ensures exists i :: 0 <= i < |hits| && ContractorOf(hits[i].text) == Some(name) && x in CaseNumbersOf(hits[i].text)
    {
      var i :| Names(es, i, name) && x in es[i].value.1;
      assert es[i] == Entry(hits[i].text);
    }
    forall i, name, x | 0 <= i < |hits| && ContractorOf(hits[i].text) == Some(name) && x in CaseNumbersOf(hits[i].text)
      ensures name in Fold(es) && x in Fold(es)[name]
    {
      assert es[i] == Entry(hits[i].text);
    }
  }

  /** The body of the mapping loop for one text: its contractor, then its case
      numbers. */
  method Contribute(text: string) returns (e: Contribution)
    ensures e == Entry(text)
  {
    e := None;
    var name := ContractorOf(text);
    if name.Some? {
      var nums := ExtractCaseNumbers(text);
      if nums != [] {
        e := Some((name.value, nums));
      }
    }
  }

  /** Appending one text's case numbers to its contractor's list. */
  method Accumulate(m: Mapping, e: Contribution) returns (r: Mapping)
    ensures r == AddEntry(m, e)
  {
    r := m;
    if e.Some? {
      var name := e.value.0;
      if name !in r {
        r := r[name := []];
      }
      r := r[name := r[name] + e.value.1];
    }
  }

  /** The mapping loop of `generate_answer`, updating a dictionary in place. */
  method BuildMapping(hits: seq<Hit>) returns (m: Mapping)
    ensures m == MappingOf(hits)
  {
    ghost var es: seq<Contribution> := [];
    m := map[];
    for k := 0 to |hits|
      invariant es == Contributions(hits[..k])
      invariant m == Fold(es)
    {
      assert hits[..k + 1][..k] == hits[..k];
      var e := Contribute(hits[k].text);
      m := Accumulate(m, e);
      assert (es + [e])[..|es|] == es;
      es := es + [e];
    }
    assert hits[..|hits|] == hits;
  }
}
