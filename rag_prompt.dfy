/** The prompt that `generate_answer` sends to the language model: the numbered
    context blocks, the sorted case-number list and the optional case summary. */
module RagPrompt {
  import opened Wrappers
  import opened PyText
  import opened CaseNumbers
  import opened SearchResults

  /** At most this many results go into the context. */
  const MaxContextResults := 10
  /** Each result's text is cut to this many characters. */
  const MaxResultChars := 1000
  /** At most this many case numbers are listed. */
  const MaxListedCases := 10

  function Min(a: nat, b: nat): nat
  {
    if a <= b then a else b
  }

  /** The block of the result numbered `n` (from 1): the number, the first 1000
      characters of the text, and the source file on its own line. */
  function ContextBlock(n: nat, hit: Hit): (b: string)
    ensures StartsWith(b, "[" + NatToString(n) + "] ")
    ensures OccursAt(b, Take(hit.text, MaxResultChars), |NatToString(n)| + 3)
    ensures EndsWith(b, "\n(出典: " + hit.fileName + ")")
  {
    var head := "[" + NatToString(n) + "] ";
    var tail := "\n(出典: " + hit.fileName + ")";
    var b := head + Take(hit.text, MaxResultChars) + tail;
    assert b[..|head|] == head;
    assert b[|head|..|head| + |Take(hit.text, MaxResultChars)|] == Take(hit.text, MaxResultChars);
    assert b[|b| - |tail|..] == tail;
    b
  }

  /** The blocks of `hits`, numbered 1, 2, ... in retrieval order. */
  function Blocks(hits: seq<Hit>): (bs: seq<string>)
    ensures |bs| == |hits|
  {
    if hits == [] then [] else Blocks(hits[..|hits| - 1]) + [ContextBlock(|hits|, hits[|hits| - 1])]
  }

  /** Block `i` is that of result `i`, numbered `i + 1`. */
  lemma {:induction false} BlockAt(hits: seq<Hit>, i: nat)
    requires i < |hits|
    ensures Blocks(hits)[i] == ContextBlock(i + 1, hits[i])
  {
    var n := |hits| - 1;
    if i < n {
      BlockAt(hits[..n], i);
      assert hits[..n][i] == hits[i];
    }
  }

  /** Every block is that of its result, numbered from 1. */
  lemma BlocksNumbered(hits: seq<Hit>)
    ensures |Blocks(hits)| == |hits|
    ensures forall i :: 0 <= i < |hits| ==> Blocks(hits)[i] == ContextBlock(i + 1, hits[i])
  {
    forall i | 0 <= i < |hits| ensures Blocks(hits)[i] == ContextBlock(i + 1, hits[i]) {
      BlockAt(hits, i);
    }
  }

  /** `context_text`: the blocks of the first ten results, separated by a blank line. */
  function ContextText(hits: seq<Hit>): string
  {
    Join(Blocks(hits[..Min(MaxContextResults, |hits|)]), "\n\n")
  }

  /** Results after the tenth never reach the context, and the context holds one
      block per used result, numbered from 1. */
  lemma ContextUsesFirstTen(hits: seq<Hit>)
    ensures ContextText(hits) == ContextText(hits[..Min(MaxContextResults, |hits|)])
    ensures var used := hits[..Min(MaxContextResults, |hits|)];
            |Blocks(used)| == |used| <= MaxContextResults
            && forall i :: 0 <= i < |used| ==> Blocks(used)[i] == ContextBlock(i + 1, hits[i])
  {
    var used := hits[..Min(MaxContextResults, |hits|)];
    assert used[..Min(MaxContextResults, |used|)] == used;
    BlocksNumbered(used);
  }

  /** The lists concatenated in order. */
  function Flatten(lists: seq<seq<string>>): seq<string>
  {
    if lists == [] then [] else Flatten(lists[..|lists| - 1]) + lists[|lists| - 1]
  }

  /** An element of the concatenation comes from one of the lists, and back. */
  lemma {:induction false} InFlatten(lists: seq<seq<string>>)
    ensures forall x :: x in Flatten(lists) <==> exists i :: 0 <= i < |lists| && x in lists[i]
  {
    if lists != [] {
      var n := |lists| - 1;
      InFlatten(lists[..n]);
      forall x | x in Flatten(lists) ensures exists i :: 0 <= i < |lists| && x in lists[i] {
        if x in Flatten(lists[..n]) {
          var i :| 0 <= i < n && x in lists[..n][i];
          assert lists[..n][i] == lists[i];
        }
      }
      forall x | exists i :: 0 <= i < |lists| && x in lists[i] ensures x in Flatten(lists) {
        var i :| 0 <= i < |lists| && x in lists[i];
        if i < n { assert lists[..n][i] == lists[i]; }
      }
    }
  }

  /** `extract` applied to each result's text, in order. */
  function PerResult(hits: seq<Hit>, extract: string -> seq<string>): (ls: seq<seq<string>>)
    ensures |ls| == |hits|
  {
    if hits == [] then [] else PerResult(hits[..|hits| - 1], extract) + [extract(hits[|hits| - 1].text)]
  }

  lemma {:induction false} PerResultAt(hits: seq<Hit>, extract: string -> seq<string>, i: nat)
    requires i < |hits|
    ensures PerResult(hits, extract)[i] == extract(hits[i].text)
  {
    var n := |hits| - 1;
    if i < n {
      PerResultAt(hits[..n], extract, i);
      assert hits[..n][i] == hits[i];
    }
  }

  /** `all_case_numbers` before de-duplication: every result's case numbers, in order. */
  function Collected(hits: seq<Hit>): seq<string>
  {
    Flatten(PerResult(hits, CaseNumbersOf))
  }

  /** A number is collected exactly when some result's text yields it. */
  lemma CollectedFrom(hits: seq<Hit>)
    ensures forall x :: x in Collected(hits) <==> exists i :: 0 <= i < |hits| && x in CaseNumbersOf(hits[i].text)
  {
    var lists := PerResult(hits, CaseNumbersOf);
    InFlatten(lists);
    forall x ensures x in Collected(hits) <==> exists i :: 0 <= i < |hits| && x in CaseNumbersOf(hits[i].text) {
      if x in Collected(hits) {
        var i :| 0 <= i < |lists| && x in lists[i];
        PerResultAt(hits, CaseNumbersOf, i);
      }
      if exists i :: 0 <= i < |hits| && x in CaseNumbersOf(hits[i].text) {
        var i :| 0 <= i < |hits| && x in CaseNumbersOf(hits[i].text);
        PerResultAt(hits, CaseNumbersOf, i);
      }
    }
  }

  /** One more result extends the per-result lists and their concatenation. */
  lemma CollectStep(hits: seq<Hit>, k: nat, lists: seq<seq<string>>)
    requires k < |hits| && lists == PerResult(hits[..k], CaseNumbersOf)
    ensures lists + [CaseNumbersOf(hits[k].text)] == PerResult(hits[..k + 1], CaseNumbersOf)
    ensures Flatten(lists + [CaseNumbersOf(hits[k].text)]) == Flatten(lists) + CaseNumbersOf(hits[k].text)
  {
    assert hits[..k + 1][..k] == hits[..k];
    assert (lists + [CaseNumbersOf(hits[k].text)])[..|lists|] == lists;
  }

  /** The loop that extends `all_case_numbers` with each result's case numbers. */
  method CollectCaseNumbers(hits: seq<Hit>) returns (all: seq<string>)
    ensures all == Collected(hits)
  {
    ghost var lists: seq<seq<string>> := [];
    all := [];
    for k := 0 to |hits|
      invariant lists == PerResult(hits[..k], CaseNumbersOf)
      invariant all == Flatten(lists)
    {
      var nums := ExtractCaseNumbers(hits[k].text);
      CollectStep(hits, k, lists);
      all := all + nums;
      lists := lists + [nums];
    }
    assert hits[..|hits|] == hits;
  }

  /** `sorted(set(all_case_numbers), key=...)`. */
  function SortedCaseNumbers(hits: seq<Hit>): seq<string>
  {
    SortBy(Dedup(Collected(hits)), SortKey)
  }

  /** `sorted(set(xs), key=SortKey)` holds each element of `xs` exactly once, in
      ascending key order. */
  lemma SortedSetSpec(xs: seq<string>)
    ensures var nums := SortBy(Dedup(xs), SortKey);
            NoDuplicates(nums) && SortedBy(nums, SortKey) && forall x :: x in nums <==> x in xs
  {
    var d := Dedup(xs);
    SortKeepsDistinct(d, SortKey);
    assert forall x :: x in SortBy(d, SortKey) <==> x in multiset(d);
  }

  /** The sorted list holds each case number of the results exactly once, in
      ascending integer order. */
  lemma SortedCaseNumbersSpec(hits: seq<Hit>)
    ensures var nums := SortedCaseNumbers(hits);
            NoDuplicates(nums)
            && SortedBy(nums, SortKey)
            && forall x :: x in nums <==> exists i :: 0 <= i < |hits| && x in CaseNumbersOf(hits[i].text)
  {
    SortedSetSpec(Collected(hits));
    CollectedFrom(hits);
  }

  /** `事例No.` in front of each number. */
  function Labels(nums: seq<string>): (ls: seq<string>)
    ensures |ls| == |nums| && forall i :: 0 <= i < |nums| ==> ls[i] == "事例No." + nums[i]
  {
    if nums == [] then [] else Labels(nums[..|nums| - 1]) + ["事例No." + nums[|nums| - 1]]
  }

  /** The case-number line of the prompt: the first ten labels joined by ", ", or
      "なし" when there are none. */
  function CaseLine(nums: seq<string>): string
  {
    if nums == [] then "なし" else Join(Labels(nums[..Min(MaxListedCases, |nums|)]), ", ")
  }

  /** The line reads "なし" exactly when there are no case numbers, and otherwise
      starts with the first, smallest number. */
  lemma CaseLineShape(nums: seq<string>)
    ensures CaseLine(nums) == "なし" <==> nums == []
    ensures nums != [] ==> StartsWith(CaseLine(nums), "事例No." + nums[0])
  {
    if nums != [] {
      var ls := Labels(nums[..Min(MaxListedCases, |nums|)]);
      assert ls[0] == "事例No." + nums[0];
      JoinStartsWithFirst(ls, ", ");
      assert CaseLine(nums)[0] == '事';
    }
  }

  /** A listed number is never larger than an unlisted one. */
  lemma ListedAreSmallest(nums: seq<string>, i: nat, j: nat)
    requires SortedBy(nums, SortKey)
    requires i < MaxListedCases <= j < |nums|
    ensures SortKey(nums[i]) <= SortKey(nums[j])
  {
  }

  /** A case summary as the request sends it. */
  type CaseInfo = map<string, string>

  function InfoValue(info: CaseInfo, key: string): string
  {
    if key in info then info[key] else "不明"
  }

  /** `case_context`: empty unless the case information is present and non-empty,
      otherwise repair type, urgency and location, each "不明" when absent. */
  function CaseContext(info: Option<CaseInfo>): (c: string)
    ensures c == [] <==> info.None? || info.value == map[]
  {
    if info.None? || info.value == map[] then ""
    else
      var c := "\n【案件情報】\n- 修理種別: " + InfoValue(info.value, "repair_type")
               + "\n- 緊急度: " + InfoValue(info.value, "urgency")
               + "\n- 現場情報: " + InfoValue(info.value, "location") + "\n";
      assert c[0] == '\n';
      c
  }

  const Intro := "あなたはビルメンテナンス業務の専門家です。\n以下の情報を基に、貯水槽修理案件の判断支援情報を提供してください。\n\n"
  const QueryHeading := "\n【検索クエリ】\n"
  const ContextHeading := "\n\n【参考情報（Knowledge）】\n"
  const CasesHeading := "\n\n【検索結果から抽出された事例番号】（参考）\n"
  /** The lines of the fixed output requirements that close the prompt. */
  const OutputRequirementLines: seq<string> := [
    "【出力要件】",
    "以下の形式で回答してください：",
    "",
    "1. **推奨業者候補**（最大3社）",
    "   各業者について、以下の形式で記載してください：",
    "   - **業者名**（参照ファイル: ファイル名1.txt, ファイル名2.txt）",
    "     - 選定理由：参照したKnowledgeファイル名と事例番号を必ず明記（例：「contractor_case_studies.txtの過去事例No.1より、深夜の緊急対応実績がある」）",
    "     - 対応可能な緊急度（参照ファイル: ファイル名.txt）",
    "     - 想定価格帯：金額（参照ファイル: ファイル名.txt）",
    "     - 参照事例番号：選定理由で言及した事例番号を必ず「事例No.XX」の形式で記載すること（例：「事例No.6」「事例No.10」）。選定理由に「事例6」「事例10」「Case 6」などの形式で事例番号が含まれている場合は、必ず「事例No.6」「事例No.10」の形式に統一して記載すること。「該当なし」「情報不足」とは記載しないこと。",
    "",
    "2. **想定価格情報**",
    "   - 相場価格帯（最低〜最高）",
    "   - 人件費目安",
    "   - 材料費目安",
    "   - 高額/低額ケースの説明",
    "",
    "3. **判断理由**",
    "   - 参照したKnowledgeファイル名を明記してください",
    "   - 各ファイルから抽出した根拠情報",
    "",
    "4. **リスク・注意事項**",
    "   - 法令要件",
    "   - 安全上の注意点",
    "   - 過去事例からの教訓",
    "",
    "5. **緊急度評価**",
    "   - AIによる緊急度評価",
    "   - 評価理由",
    "",
    "【重要】",
    "- 各業者名の横に必ず「（参照ファイル: ファイル名1.txt, ファイル名2.txt）」の形式で参照ファイル名を明記すること",
    "- 選定理由には必ず参照したファイル名と事例番号を含めること（例：「contractor_case_studies.txtの過去事例No.1より」）",
    "- 各業者の「参照事例番号」には、選定理由で言及した事例番号を必ず「事例No.XX」の形式で記載すること（例：「事例No.6」「事例No.10」）",
    "- 選定理由に「事例6」「事例10」「Case 6」「事例No.6」などの形式で事例番号が含まれている場合は、必ず「事例No.XX」の形式に統一して「参照事例番号」に記載すること",
    "- 選定理由に事例番号が含まれていない場合でも、「該当なし」「情報不足」とは記載せず、選定理由を再確認して事例番号を抽出し、「事例No.XX」の形式で記載すること",
    "- 選定理由に事例番号が一切含まれていない場合のみ、「該当なし」と記載すること（ただし、通常は選定理由に事例番号が含まれているはずです）",
    "- 対応可能な緊急度と想定価格帯にも参照ファイル名を明記すること",
    "- 判断理由には必ず参照したKnowledgeファイル名と事例番号を含めること",
    "- 不確実な情報は推測ではなく「情報不足」と明記すること（ただし、「参照事例番号」については上記のルールに従うこと）",
    "- 最終判断はユーザーが行うことを前提に、支援情報を提供すること",
    ""
  ]
  /** The fixed output requirements that close the prompt. */
  const OutputRequirements := "\n\n" + Join(OutputRequirementLines, "\n")

  /** The right part of `x + y` starts right after `x`. */
  lemma OccursAfter(x: string, y: string)
    ensures OccursAt(x + y, y, |x|)
  {
    assert (x + y)[|x|..|x| + |y|] == y;
  }

  /** An occurrence survives appending. */
  lemma OccursExtended(s: string, p: string, i: int, t: string)
    requires OccursAt(s, p, i)
    ensures OccursAt(s + t, p, i)
  {
    assert (s + t)[i..i + |p|] == s[i..i + |p|];
  }

  /** Where each part of a concatenation `a + query + h1 + context + h2 + line + closing`
      sits in the result. */
  lemma Layout(a: string, query: string, h1: string, context: string, h2: string, line: string, closing: string)
    ensures var p := a + query + h1 + context + h2 + line + closing;
      && StartsWith(p, a)
      && OccursAt(p, query, |a|)
      && OccursAt(p, context, |a| + |query| + |h1|)
      && OccursAt(p, line, |a| + |query| + |h1| + |context| + |h2|)
      && EndsWith(p, closing)
  {
    var s1 := a + query;
    var s2 := s1 + h1;
    var s3 := s2 + context;
    var s4 := s3 + h2;
    var s5 := s4 + line;
    var p := s5 + closing;
    OccursAfter([], a);
    assert [] + a == a;
    OccursExtended(a, a, 0, query);
    OccursExtended(s1, a, 0, h1);
    OccursExtended(s2, a, 0, context);
    OccursExtended(s3, a, 0, h2);
    OccursExtended(s4, a, 0, line);
    OccursExtended(s5, a, 0, closing);
    OccursAfter(a, query);
    OccursExtended(s1, query, |a|, h1);
    OccursExtended(s2, query, |a|, context);
    OccursExtended(s3, query, |a|, h2);
    OccursExtended(s4, query, |a|, line);
    OccursExtended(s5, query, |a|, closing);
    OccursAfter(s2, context);
    OccursExtended(s3, context, |s2|, h2);
    OccursExtended(s4, context, |s2|, line);
    OccursExtended(s5, context, |s2|, closing);
    OccursAfter(s4, line);
    OccursExtended(s5, line, |s4|, closing);
    OccursAfter(s5, closing);
  }

  /** The prompt: the fixed introduction, then the case context, the query, the
      context blocks and the case-number line under their headings, then the
      closing text. */
  function Prompt(caseContext: string, query: string, context: string, caseLine: string, closing: string): (p: string)
    ensures StartsWith(p, Intro + caseContext + QueryHeading)
    ensures OccursAt(p, query, |Intro| + |caseContext| + |QueryHeading|)
    ensures OccursAt(p, context, |Intro| + |caseContext| + |QueryHeading| + |query| + |ContextHeading|)
    ensures OccursAt(p, caseLine, |Intro| + |caseContext| + |QueryHeading| + |query| + |ContextHeading| + |context| + |CasesHeading|)
    ensures EndsWith(p, closing)
  {
    var a := Intro + caseContext + QueryHeading;
    Layout(a, query, ContextHeading, context, CasesHeading, caseLine, closing);
    a + query + ContextHeading + context + CasesHeading + caseLine + closing
  }

  /** The prompt `generate_answer` builds from the query, the case summary and the
      search results, closed by the output requirements `closing`
      (`OutputRequirements` in the service). */
  function PromptFor(query: string, info: Option<CaseInfo>, hits: seq<Hit>, closing: string): string
  {
    Prompt(CaseContext(info), query, ContextText(hits), CaseLine(SortedCaseNumbers(hits)), closing)
  }
}
