/** Extraction of the "judgement reasons" section from a generated answer
    (the block of `RAGService.generate_answer` after the model has replied). */
module Reasoning {
  import opened Wrappers
  import opened PyText

  /** The word whose presence switches extraction on. */
  const Key := "判断理由"
  /** The literal heading `.replace` removes: exactly one space after "3.". */
  const Heading := "3. **判断理由**"
  const FilesPrefix := "参照したKnowledgeファイル: "

  /** `\*\*判断理由\*\*` matches at `w`. */
  predicate BoldKeyAt(text: string, w: nat)
  {
    w + 8 <= |text| &&
    text[w] == '*' && text[w + 1] == '*' &&
    text[w + 2] == '判' && text[w + 3] == '断' && text[w + 4] == '理' && text[w + 5] == '由' &&
    text[w + 6] == '*' && text[w + 7] == '*'
  }

  /** `3\.\s*\*\*判断理由\*\*` matches at `i`. The greedy `\s*` can only stop at the
      end of the whitespace run, since `*` is not whitespace. */
  predicate HeadingAt(text: string, i: nat)
  {
    i + 2 <= |text| && text[i] == '3' && text[i + 1] == '.' && BoldKeyAt(text, SpaceEnd(text, i + 2))
  }

  /** The index just after the heading matched at `i`. */
  function HeadingEnd(text: string, i: nat): (h: nat)
    requires HeadingAt(text, i)
    ensures i + 10 <= h <= |text|
  {
    SpaceEnd(text, i + 2) + 8
  }

  /** The lookahead `(?=4\.|$)` holds at `p`: "4." follows, or only an optional final
      newline is left (`$` without MULTILINE). */
  predicate StopAt(text: string, p: nat)
    requires p <= |text|
  {
    (p + 2 <= |text| && text[p] == '4' && text[p + 1] == '.') ||
    p == |text| ||
    (p + 1 == |text| && text[p] == '\n')
  }

  /** Where the lazy `.*?` (DOTALL) started at `p` stops: the first stop position. */
  function SectionEnd(text: string, p: nat): (e: nat)
    requires p <= |text|
    ensures p <= e <= |text| && StopAt(text, e)
    ensures forall q :: p <= q < e ==> !StopAt(text, q)
    decreases |text| - p
  {
    if StopAt(text, p) then p else SectionEnd(text, p + 1)
  }

  /** `re.search` for the heading: the leftmost start at or after `from`. */
  function FirstHeading(text: string, from: nat): (h: Option<nat>)
    requires from <= |text|
    ensures h.Some? ==> from <= h.value < |text| && HeadingAt(text, h.value)
    ensures h.Some? ==> forall i :: from <= i < h.value ==> !HeadingAt(text, i)
    ensures h.None? ==> forall i :: from <= i < |text| ==> !HeadingAt(text, i)
    decreases |text| - from
  {
    if from == |text| then None
    else if HeadingAt(text, from) then Some(from)
    else FirstHeading(text, from + 1)
  }

  /** `match.group(0)`, when the pattern matches somewhere. */
  function Section(text: string): Option<string>
  {
    match FirstHeading(text, 0)
    case None => None
    case Some(i) => Some(text[i..SectionEnd(text, HeadingEnd(text, i))])
  }

  /** The index of the first line that mentions the key (`|lines|` when none does). */
  function FirstMarked(lines: seq<string>): (f: nat)
    ensures f <= |lines|
    ensures forall k :: 0 <= k < f ==> !Contains(lines[k], Key)
    ensures f < |lines| ==> Contains(lines[f], Key)
  {
    if lines == [] then 0
    else if Contains(lines[0], Key) then 0
    else 1 + FirstMarked(lines[1..])
  }

  /** The fallback when the heading pattern does not match: the lines from the first
      one mentioning the key on, joined again and stripped. */
  function LinesFallback(answer: string): string
  {
    var lines := Split(answer, "\n");
    Strip(Join(lines[FirstMarked(lines)..], "\n"))
  }

  /** The reasoning shown when nothing could be extracted. */
  function FilesLine(files: seq<string>): (r: string)
    ensures StartsWith(r, FilesPrefix)
  {
    FilesPrefix + Join(files, ", ")
  }

  /** The extracted text before the final fallback; empty when the key is absent. */
  function Extracted(answer: string): string
  {
    if !Contains(answer, Key) then ""
    else match Section(answer)
      case Some(m) => Strip(ReplaceAll(m, Heading, ""))
      case None => LinesFallback(answer)
  }

  /** The reasoning the answer carries: never empty; either the list of referenced
      files or a stripped piece of the answer. */
  function ReasoningOf(answer: string, files: seq<string>): (r: string)
    ensures r != []
    ensures !Contains(answer, Key) ==> r == FilesLine(files)
    ensures r == FilesLine(files) || (!IsSpace(r[0]) && !IsSpace(r[|r| - 1]))
  {
    var e := Extracted(answer);
    if e != [] then e else FilesLine(files)
  }

  /** The extraction as the service performs it, with the line-collecting loop. */
  method ExtractReasoning(answer: string, files: seq<string>) returns (reasoning: string)
    ensures reasoning == ReasoningOf(answer, files)
  {
    reasoning := "";
    if Contains(answer, Key) {
      var m := Section(answer);
      if m.Some? {
        reasoning := Strip(ReplaceAll(m.value, Heading, ""));
      } else {
        var lines := Split(answer, "\n");
        ghost var f := FirstMarked(lines);
        var started := false;
        var kept: seq<string> := [];
        for k := 0 to |lines|
          invariant started <==> f < k
          invariant kept == if started then lines[f..k] else []
        {
          if Contains(lines[k], Key) {
            started := true;
          }
          if started {
            kept := kept + [lines[k]];
          }
        }
        assert kept == lines[f..];
        reasoning := Strip(Join(kept, "\n"));
      }
    }
    if reasoning == [] {
      reasoning := FilesLine(files);
    }
  }

  /** With the key present but no heading match, the line fallback is used, and
      what it returns still mentions the key (so the file list never replaces it). */
  lemma LinesFallbackKeepsKey(answer: string, files: seq<string>)
    requires Contains(answer, Key) && Section(answer).None?
    ensures ReasoningOf(answer, files) == LinesFallback(answer)
    ensures Contains(ReasoningOf(answer, files), Key)
  {
    var lines := Split(answer, "\n");
    ContainsInSomeLine(answer, Key);
    var f := FirstMarked(lines);
    assert f < |lines|;
    var kept := lines[f..];
    var joined := Join(kept, "\n");
    JoinStartsWithFirst(kept, "\n");
    assert joined == lines[f] + joined[|lines[f]|..];
    ContainsAppend(lines[f], joined[|lines[f]|..], Key);
    ContainsStrip(joined, Key);
  }

  /** A heading occupies the start of `text`, and the next "4." begins at `e`: the
      match is everything before `e`. */
  lemma SectionBefore(text: string, e: nat)
    requires HeadingAt(text, 0)
    requires HeadingEnd(text, 0) <= e && e + 2 <= |text| && text[e] == '4' && text[e + 1] == '.'
    requires forall q :: HeadingEnd(text, 0) <= q < e ==> !(text[q] == '4' && text[q + 1] == '.')
    ensures Section(text) == Some(text[..e])
  {
    var h := HeadingEnd(text, 0);
    assert StopAt(text, e);
    forall q | h <= q < e
      ensures !StopAt(text, q)
    {
    }
  }

  /** No "4." inside `s`. */
  predicate NoNextItem(s: string)
  {
    forall q :: 0 <= q < |s| - 1 ==> !(s[q] == '4' && s[q + 1] == '.')
  }

  /** A text that starts with the literal heading matches the pattern at 0. */
  lemma SpacedHeadingAtStart(text: string)
    requires StartsWith(text, Heading)
    ensures HeadingAt(text, 0) && HeadingEnd(text, 0) == |Heading|
    ensures Contains(text, Key)
  {
    assert text[..11] == Heading;
    assert text[2] == ' ' && text[3] == '*';
    assert SpaceEnd(text, 2) == 3;
    assert OccursAt(text, Key, 5) by {
      assert text[5..9] == Heading[5..9];
    }
    OccursAtContains(text, Key, 5);
  }

  /** "3." directly followed by the bold key also matches the pattern at 0. */
  lemma UnspacedHeadingAtStart(text: string)
    requires StartsWith(text, "3.**判断理由**")
    ensures HeadingAt(text, 0) && HeadingEnd(text, 0) == 10
    ensures Contains(text, Key)
  {
    var head := "3.**判断理由**";
    assert text[..10] == head;
    assert SpaceEnd(text, 2) == 2 by {
      assert text[2] == '*';
    }
    assert OccursAt(text, Key, 4) by {
      assert text[4..8] == head[4..8];
    }
    OccursAtContains(text, Key, 4);
  }

  /** A heading `head` at the start, reasons without "4.", then "4.": the match is
      the heading and the reasons. */
  lemma LaidOutSection(head: string, body: string, rest: string)
    requires HeadingAt(head + body + "4." + rest, 0)
    requires HeadingEnd(head + body + "4." + rest, 0) == |head|
    requires NoNextItem(body)
    ensures Section(head + body + "4." + rest) == Some(head + body)
  {
    var text := head + body + "4." + rest;
    var e := |head| + |body|;
    assert text[e] == '4' && text[e + 1] == '.';
    forall q | |head| <= q < e
      ensures !(text[q] == '4' && text[q + 1] == '.')
    {
      assert text[q] == body[q - |head|];
      if q + 1 < e {
        assert text[q + 1] == body[q + 1 - |head|];
      }
    }
    SectionBefore(text, e);
    assert text[..e] == head + body;
  }

  /** The layout the prompt asks for: heading "3. **判断理由**", the reasons, then item
      "4.". The reasons are returned stripped, or the file list when they are blank. */
  lemma HeadedSectionExtracted(body: string, rest: string, files: seq<string>)
    requires NoNextItem(body) && !Contains(body, Heading)
    ensures ReasoningOf(Heading + body + "4." + rest, files) ==
            if Strip(body) == [] then FilesLine(files) else Strip(body)
  {
    HeadedSectionMatched(body, rest);
    LeadingHeadingRemoved(body);
  }

  /** The match for that layout is the heading and the reasons, and the key is present. */
  lemma HeadedSectionMatched(body: string, rest: string)
    requires NoNextItem(body)
    ensures Contains(Heading + body + "4." + rest, Key)
    ensures Section(Heading + body + "4." + rest) == Some(Heading + body)
  {
    var text := Heading + body + "4." + rest;
    assert text == (Heading + body) + ("4." + rest);
    assert StartsWith(text, Heading) by {
      assert text[..|Heading|] == Heading;
    }
    SpacedHeadingAtStart(text);
    LaidOutSection(Heading, body, rest);
  }

  /** The literal heading at the front is removed, and nothing else when the rest
      does not repeat it. */
  lemma LeadingHeadingRemoved(body: string)
    requires !Contains(body, Heading)
    ensures ReplaceAll(Heading + body, Heading, "") == body
  {
    var m := Heading + body;
    assert StartsWith(m, Heading);
    assert m[|Heading|..] == body;
    ReplaceAbsent(body, Heading, "");
  }

  /** The pattern accepts "3." with no space before the bold key, but the literal
      replacement needs exactly one space, so the heading stays in the reasoning. */
  lemma UnspacedHeadingKept(body: string, rest: string, files: seq<string>)
    requires NoNextItem(body) && '3' !in body
    ensures StartsWith(ReasoningOf("3.**判断理由**" + body + "4." + rest, files), "3.**判断理由**")
  {
    var head := "3.**判断理由**";
    var text := head + body + "4." + rest;
    assert text == (head + body) + ("4." + rest);
    UnspacedHeadingAtStart(text);
    LaidOutSection(head, body, rest);
    var m := head + body;
    UnspacedNotReplaced(body);
    assert Extracted(text) == Strip(m);
    StripKeepsLeadingWord(m, head);
  }

  /** The literal heading never occurs in "3.**判断理由**" followed by a text without '3'. */
  lemma UnspacedNotReplaced(body: string)
    requires '3' !in body
    ensures ReplaceAll("3.**判断理由**" + body, Heading, "") == "3.**判断理由**" + body
  {
    var head := "3.**判断理由**";
    var m := head + body;
    assert m[2] == '*';
    NotStartsWithAt(m, Heading, 2);
    assert m[1..] == head[1..] + body;
    assert '3' !in head[1..];
    NoFirstCharNoContains(m[1..], Heading);
    assert !Contains(m, Heading);
    ReplaceAbsent(m, Heading, "");
  }

  /** A text opening with a word whose first and last characters are not whitespace
      keeps that word at the front after stripping. */
  lemma StripKeepsLeadingWord(m: string, w: string)
    requires StartsWith(m, w) && |w| > 0 && !IsSpace(w[0]) && !IsSpace(w[|w| - 1])
    ensures StartsWith(Strip(m), w)
  {
    assert m[0] == w[0] && m[|w| - 1] == w[|w| - 1];
    assert LStrip(m) == m;
    var r := RStrip(m);
    assert |w| <= |r|;
    assert r[..|w|] == m[..|w|];
  }

  /** A pattern whose first character is absent cannot occur. */
  lemma {:induction false} NoFirstCharNoContains(s: string, p: string)
    requires |p| > 0 && p[0] !in s
    ensures !Contains(s, p)
  {
    if s != [] {
      assert s[0] != p[0];
      assert forall c :: c in s[1..] ==> c in s;
      NoFirstCharNoContains(s[1..], p);
    }
  }
}
