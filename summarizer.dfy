/** The paper summarizer: the inputs it builds from fixed section lists,
    the per-section summaries, the innovation analysis with its JSON and
    text fallbacks, the methodology and findings summaries, and the rules
    that decide when the model is not asked. */
module Summarizer {
  import opened Common
  import opened Text
  import opened Dicts
  import opened LlmClient
  import opened Prompts

  const UnknownTitle := "未知标题"
  const OverallFailed := "摘要生成失败: "
  const MethodologyFailed := "方法论总结失败: "
  const FindingsFailed := "发现提取失败: "
  const NoMethodology := "未找到明确的方法论描述"
  const NoFindings := "未找到明确的研究发现"
  const AnalysisFailed := "分析失败"

  /** Sections used by the overall summary, the per-section summaries, the
      innovation analysis and the findings. */
  const OverallSections: seq<string> := ["abstract", "introduction", "methodology", "results", "conclusion"]
  const SummarySections: seq<string> := ["abstract", "introduction", "methodology", "results", "conclusion", "discussion"]
  const InnovationSections: seq<string> := ["abstract", "introduction", "methodology", "conclusion"]
  const FindingSections: seq<string> := ["results", "conclusion", "discussion", "findings"]

  /** Lines of a findings answer that are headings, not findings. */
  const FindingSkips: seq<string> := ["主要发现", "发现", "结论"]
  const FindingCap := 5

  /** Section names that mark a methodology section. */
  const MethodKeywords: seq<string> := ["method", "approach", "technique"]

  /** Sections shorter than this are their own summary. */
  const ShortSection := 100

  // ----- the overall summary -----

  /** `f"{name.upper()}:\n{value[:800]}"`. */
  function OverallPart(name: string, value: string): string
  {
    Upper(name) + ":\n" + Take(value, 800)
  }

  /** The overall summary input: one part per non-empty section among
      abstract, introduction, methodology, results and conclusion, or else
      the first 2000 characters of the full text; parts are separated by a
      blank line. */
  function OverallContent(sections: Dict): string
  {
    var parts := Rendered(sections, Present(sections, OverallSections), OverallPart);
    Join(if parts == [] then [Take(GetOr(sections, "full_text", ""), 2000)] else parts, "\n\n")
  }

  method BuildOverallContent(sections: Dict) returns (content: string)
    ensures content == OverallContent(sections)
  {
    var contentParts := GatherParts(sections, OverallSections, OverallPart);
    if contentParts == [] {
      var fullText := GetOr(sections, "full_text", "");
      contentParts := [Take(fullText, 2000)];
    }
    content := Join(contentParts, "\n\n");
  }

  /** Without any of the five sections the content is the opening of the
      full text; otherwise every present section's part is in it, and the
      parts come in the fixed section order. */
  lemma OverallContentSpec(sections: Dict)
    ensures Present(sections, OverallSections) == [] ==>
      OverallContent(sections) == Take(GetOr(sections, "full_text", ""), 2000)
    ensures forall n :: n in Present(sections, OverallSections) ==>
      Contains(OverallContent(sections), OverallPart(n, GetOr(sections, n, "")))
    ensures IsSubseq(Present(sections, OverallSections), OverallSections)
  {
    var ns := Present(sections, OverallSections);
    var parts := Rendered(sections, ns, OverallPart);
    PresentSubseq(sections, OverallSections);
    if ns == [] {
      assert parts == [];
    } else {
      forall n | n in ns ensures Contains(OverallContent(sections), OverallPart(n, GetOr(sections, n, ""))) {
        var i :| 0 <= i < |ns| && ns[i] == n;
        JoinContainsPart(parts, "\n\n", i);
      }
    }
  }

  function OverallSummary(sections: Dict, title: string, llm: Llm): string
  {
    match Ask(llm, "summary", PaperSummaryPrompt(title, OverallContent(sections)))
    case Err(m) => OverallFailed + m
    case Ok(s) => s
  }

  method GenerateOverallSummary(sections: Dict, title: string, llm: Llm) returns (summary: string)
    ensures summary == OverallSummary(sections, title, llm)
  {
    var content := BuildOverallContent(sections);
    match Ask(llm, "summary", PaperSummaryPrompt(title, content)) {
      case Err(m) =>
        summary := OverallFailed + m;
      case Ok(s) =>
        summary := s;
    }
  }

  // ----- per-section summaries -----

  /** `_summarize_section`: a short section is its own summary; a longer
      one is summarized from its first 1500 characters, "" when the model
      fails. */
  function SectionSummary(name: string, content: string, llm: Llm): (r: string)
    ensures |content| < ShortSection ==> r == content
  {
    if |content| < ShortSection then content
    else
      match Ask(llm, "summary", SectionSummaryPrompt(name, Take(content, 1500)))
      case Err(_) => ""
      case Ok(s) => s
  }

  /** A short section never reaches the model: its summary is the same
      whatever the model; a failing model gives an empty summary. */
  lemma ShortSectionVerbatim(name: string, content: string, llm: Llm, llm': Llm)
    ensures |content| < ShortSection ==> SectionSummary(name, content, llm) == SectionSummary(name, content, llm')
    ensures |content| >= ShortSection && Ask(llm, "summary", SectionSummaryPrompt(name, Take(content, 1500))).Err? ==>
      SectionSummary(name, content, llm) == ""
  {
  }

  /** The summaries dict after visiting `names`. */
  function SummariesOf(sections: Dict, names: seq<string>, llm: Llm): Dict
    decreases |names|
  {
    if names == [] then []
    else
      var d := SummariesOf(sections, names[..|names| - 1], llm);
      var n := names[|names| - 1];
      var v := GetOr(sections, n, "");
      if v != "" && SectionSummary(n, v, llm) != "" then Set(d, n, SectionSummary(n, v, llm)) else d
  }

  method ExtractSectionSummaries(sections: Dict, llm: Llm) returns (summaries: Dict)
    ensures summaries == SummariesOf(sections, SummarySections, llm)
  {
    summaries := [];
    var i := 0;
    while i < |SummarySections|
      invariant 0 <= i <= |SummarySections|
      invariant summaries == SummariesOf(sections, SummarySections[..i], llm)
    {
      var name := SummarySections[i];
      SummariesOfStep(sections, SummarySections, i, llm);
      var content := GetOr(sections, name, "");
      if content != "" {
        var summary := SectionSummary(name, content, llm);
        if summary != "" {
          summaries := Set(summaries, name, summary);
        }
      }
      i := i + 1;
    }
    assert SummarySections[..i] == SummarySections;
  }

  /** One more name: its summary is stored when its section has text and
      the summary is non-empty. */
  lemma SummariesOfStep(sections: Dict, names: seq<string>, i: nat, llm: Llm)
    requires i < |names|
    ensures var v := GetOr(sections, names[i], "");
      SummariesOf(sections, names[..i + 1], llm) ==
        if v != "" && SectionSummary(names[i], v, llm) != "" then
          Set(SummariesOf(sections, names[..i], llm), names[i], SectionSummary(names[i], v, llm))
        else SummariesOf(sections, names[..i], llm)
  {
    assert names[..i + 1][..i] == names[..i];
  }

  /** A name is a key of the summaries exactly when it is listed, its
      section has text and its summary is non-empty; its value is that
      summary; no key occurs twice. */
  lemma {:induction false} SummariesOfSpec(sections: Dict, names: seq<string>, llm: Llm)
    ensures Valid(SummariesOf(sections, names, llm))
    ensures forall n :: HasKey(SummariesOf(sections, names, llm), n) <==>
      n in names && GetOr(sections, n, "") != "" && SectionSummary(n, GetOr(sections, n, ""), llm) != ""
    ensures forall n :: HasKey(SummariesOf(sections, names, llm), n) ==>
      Get(SummariesOf(sections, names, llm), n) == Some(SectionSummary(n, GetOr(sections, n, ""), llm))
    decreases |names|
  {
    if names != [] {
      var init := names[..|names| - 1];
      var d := SummariesOf(sections, init, llm);
      var n := names[|names| - 1];
      var v := GetOr(sections, n, "");
      SummariesOfSpec(sections, init, llm);
      assert forall m :: m in names <==> m in init || m == n;
      var summary := SectionSummary(n, v, llm);
      if v != "" && summary != "" {
        SetSpec(d, n, summary);
      }
    }
  }

  // ----- innovations -----

  /** The five keys of the innovation record; `practical_value` is the one
      holding a string rather than a list. */
  datatype Category = Technical | Methodological | Theoretical | Practical | Differences

  datatype Innovations = Innovations(
    technical: seq<string>, methodological: seq<string>, theoretical: seq<string>,
    practical: string, differences: seq<string>)

  const NoInnovations := Innovations([], [], [], "", [])

  /** The record returned when the analysis raises. */
  const InnovationsFailed := Innovations([], [], [], AnalysisFailed, [])

  /** What `_analyze_innovations` returns: the model's JSON as parsed, or a
      record in the fixed five-key shape. */
  datatype InnovationAnalysis = FromJson(json: Json) | FromRecord(record: Innovations)

  /** The category a line announces: the first of the five whose Chinese
      marker it contains, or whose English marker its lower-cased text
      contains. */
  function HeaderOf(line: string): Option<Category>
  {
    if Marks(line, "技术创新", "technical") then Some(Technical)
    else if Marks(line, "方法", "methodological") then Some(Methodological)
    else if Marks(line, "理论", "theoretical") then Some(Theoretical)
    else if Marks(line, "实践", "practical") then Some(Practical)
    else if Marks(line, "差异", "differences") then Some(Differences)
    else None
  }

  /** The header markers in the order they are tested: the category, its
      Chinese marker and its English marker. */
  const HeaderMarkers: seq<(Category, string, string)> := [
    (Technical, "技术创新", "technical"),
    (Methodological, "方法", "methodological"),
    (Theoretical, "理论", "theoretical"),
    (Practical, "实践", "practical"),
    (Differences, "差异", "differences")
  ]

  /** The line carries a marker of table entry `k`. */
  predicate MarksEntry(line: string, k: nat)
    requires k < |HeaderMarkers|
  {
    Marks(line, HeaderMarkers[k].1, HeaderMarkers[k].2)
  }

  /** The line announces the category of entry `k` exactly when it carries
      that entry's markers and those of no earlier entry. */
  lemma HeaderOfFirst(line: string, k: nat)
    requires k < |HeaderMarkers|
    ensures HeaderOf(line) == Some(HeaderMarkers[k].0) <==>
      MarksEntry(line, k) && forall j :: 0 <= j < k ==> !MarksEntry(line, j)
  {
    MarksEntries(line);
  }

  /** The line announces no category exactly when it carries no entry's
      markers. */
  lemma HeaderOfNone(line: string)
    ensures HeaderOf(line) == None <==> forall k :: 0 <= k < |HeaderMarkers| ==> !MarksEntry(line, k)
  {
    MarksEntries(line);
  }

  /** Each table entry's test, written out. */
  lemma MarksEntries(line: string)
    ensures MarksEntry(line, 0) == Marks(line, "技术创新", "technical")
    ensures MarksEntry(line, 1) == Marks(line, "方法", "methodological")
    ensures MarksEntry(line, 2) == Marks(line, "理论", "theoretical")
    ensures MarksEntry(line, 3) == Marks(line, "实践", "practical")
    ensures MarksEntry(line, 4) == Marks(line, "差异", "differences")
    ensures HeaderMarkers[0].0 == Technical && HeaderMarkers[1].0 == Methodological
    ensures HeaderMarkers[2].0 == Theoretical && HeaderMarkers[3].0 == Practical
    ensures HeaderMarkers[4].0 == Differences
  {
  }

  /** `zh in line or en in line.lower()`. */
  predicate Marks(line: string, zh: string, en: string)
  {
    Contains(line, zh) || Contains(Lower(line), en)
  }

  /** A list category gains the item at its end; `practical_value` is
      replaced by it. */
  function AddItem(inn: Innovations, c: Category, item: string): Innovations
  {
    match c
    case Technical => inn.(technical := inn.technical + [item])
    case Methodological => inn.(methodological := inn.methodological + [item])
    case Theoretical => inn.(theoretical := inn.theoretical + [item])
    case Practical => inn.(practical := item)
    case Differences => inn.(differences := inn.differences + [item])
  }

  /** The record and the current category of the text parse. */
  datatype ParseState = ParseState(innovations: Innovations, current: Option<Category>)

  /** What a line of the answer is to the text parse, once stripped: blank,
      a header naming a category, a bullet carrying an item, or anything
      else. A header test comes before the bullet test. */
  datatype LineKind = Blank | Header(category: Category) | Bullet(item: string) | Plain

  function Classify(raw: string): LineKind
  {
    var line := Strip(raw);
    if line == "" then Blank
    else
      match HeaderOf(line)
      case Some(c) => Header(c)
      case None => if StartsWithAny(line, Bullets) then Bullet(Strip(line[1..])) else Plain
  }

  /** A blank line is blank, a header names the category `HeaderOf` finds,
      and a bullet line that is no header carries the text after its bullet. */
  lemma ClassifySpec(raw: string)
    ensures Classify(raw).Blank? <==> Strip(raw) == ""
    ensures Classify(raw).Header? <==> Strip(raw) != "" && HeaderOf(Strip(raw)).Some?
    ensures Classify(raw).Header? ==> HeaderOf(Strip(raw)) == Some(Classify(raw).category)
    ensures Classify(raw).Bullet? <==> Strip(raw) != "" && HeaderOf(Strip(raw)).None? && StartsWithAny(Strip(raw), Bullets)
    ensures Classify(raw).Bullet? ==> Classify(raw).item == Strip(Strip(raw)[1..])
  {
  }

  /** What one line does to the text parse: a header switches the
      category, and a bullet under a category adds its item there; a blank
      or plain line changes nothing. */
  function Step(st: ParseState, kind: LineKind): ParseState
  {
    match kind
    case Header(c) => st.(current := Some(c))
    case Bullet(item) =>
      if st.current.Some? then st.(innovations := AddItem(st.innovations, st.current.value, item)) else st
    case _ => st
  }

  /** The parse state after the lines of the given kinds, in order. */
  function ParseFrom(st: ParseState, kinds: seq<LineKind>): ParseState
    decreases |kinds|
  {
    if kinds == [] then st else ParseFrom(Step(st, kinds[0]), kinds[1..])
  }

  /** The kind of every line. */
  function KindsOf(lines: seq<string>): (r: seq<LineKind>)
    ensures |r| == |lines|
    ensures forall i :: 0 <= i < |lines| ==> r[i] == Classify(lines[i])
  {
    seq(|lines|, i requires 0 <= i < |lines| => Classify(lines[i]))
  }

  /** `_parse_innovations_from_text(text)`. */
  function ParsedInnovations(text: string): Innovations
  {
    ParseFrom(ParseState(NoInnovations, None), KindsOf(Split(text, '\n'))).innovations
  }

  /** The header tests of one loop iteration, in their order. */
  method DetectCategory(line: string) returns (category: Option<Category>)
    ensures category == HeaderOf(line)
  {
    if Marks(line, "技术创新", "technical") {
      category := Some(Technical);
    } else if Marks(line, "方法", "methodological") {
      category := Some(Methodological);
    } else if Marks(line, "理论", "theoretical") {
      category := Some(Theoretical);
    } else if Marks(line, "实践", "practical") {
      category := Some(Practical);
    } else if Marks(line, "差异", "differences") {
      category := Some(Differences);
    } else {
      category := None;
    }
  }

  /** One loop iteration: a blank line is skipped, a header switches the
      category, a bullet under a category adds its item. */
  method ScanInnovationLine(innovations: Innovations, current: Option<Category>, raw: string)
    returns (innovations': Innovations, current': Option<Category>)
    ensures ParseState(innovations', current') == Step(ParseState(innovations, current), Classify(raw))
  {
    innovations', current' := innovations, current;
    var line := Strip(raw);
    if line == "" {
      StepOnLine(ParseState(innovations, current), raw, line, None);
      return;
    }
    var header := DetectCategory(line);
    StepOnLine(ParseState(innovations, current), raw, line, header);
    if header.Some? {
      current' := header;
    } else if StartsWithAny(line, Bullets) && current.Some? {
      var item := Strip(line[1..]);
      innovations' := AddItem(innovations, current.value, item);
    }
  }

  /** One step of the text parse in terms of the stripped line and its
      header test. */
  lemma StepOnLine(st: ParseState, raw: string, line: string, header: Option<Category>)
    requires line == Strip(raw)
    requires line != "" ==> header == HeaderOf(line)
    ensures Step(st, Classify(raw)) ==
      if line == "" then st
      else if header.Some? then st.(current := header)
      else if StartsWithAny(line, Bullets) && st.current.Some? then
        st.(innovations := AddItem(st.innovations, st.current.value, Strip(line[1..])))
      else st
  {
    ClassifyOnLine(raw, line, header);
    StepOnKind(st, Classify(raw), line, header);
  }

  /** `Step` on a line kind given in terms of the stripped line and its
      header test. */
  lemma StepOnKind(st: ParseState, kind: LineKind, line: string, header: Option<Category>)
    requires kind ==
      if line == "" then Blank
      else if header.Some? then Header(header.value)
      else if StartsWithAny(line, Bullets) then Bullet(Strip(line[1..]))
      else Plain
    ensures Step(st, kind) ==
      if line == "" then st
      else if header.Some? then st.(current := header)
      else if StartsWithAny(line, Bullets) && st.current.Some? then
        st.(innovations := AddItem(st.innovations, st.current.value, Strip(line[1..])))
      else st
  {
  }

  /** The kind of a line in terms of the stripped line and its header test. */
  lemma ClassifyOnLine(raw: string, line: string, header: Option<Category>)
    requires line == Strip(raw)
    requires line != "" ==> header == HeaderOf(line)
    ensures Classify(raw) ==
      if line == "" then Blank
      else if header.Some? then Header(header.value)
      else if StartsWithAny(line, Bullets) then Bullet(Strip(line[1..]))
      else Plain
  {
  }

  method ParseInnovationLines(lines: seq<string>) returns (innovations: Innovations)
    ensures innovations == ParseFrom(ParseState(NoInnovations, None), KindsOf(lines)).innovations
  {
    innovations := NoInnovations;
    var current: Option<Category> := None;
    var i := 0;
    while i < |lines|
      invariant 0 <= i <= |lines|
      invariant ParseFrom(ParseState(innovations, current), KindsOf(lines)[i..]) == ParseFrom(ParseState(NoInnovations, None), KindsOf(lines))
    {
      assert KindsOf(lines)[i..][0] == Classify(lines[i]);
      assert KindsOf(lines)[i..][1..] == KindsOf(lines)[i + 1..];
      innovations, current := ScanInnovationLine(innovations, current, lines[i]);
      i := i + 1;
    }
  }

  method ParseInnovationsFromText(text: string) returns (innovations: Innovations)
    ensures innovations == ParsedInnovations(text)
  {
    innovations := ParseInnovationLines(Split(text, '\n'));
  }

  /** Bullet lines met while no category is current are dropped: with no
      header line at all the record is left as it was. */
  lemma {:induction false} NoHeaderNoItems(st: ParseState, kinds: seq<LineKind>)
    requires st.current.None?
    requires forall k :: k in kinds ==> !k.Header?
    ensures ParseFrom(st, kinds) == st
    decreases |kinds|
  {
    if kinds != [] {
      assert kinds[0] in kinds;
      assert forall k :: k in kinds[1..] ==> k in kinds;
      NoHeaderNoItems(st, kinds[1..]);
    }
  }

  /** A text with no header line parses to the empty record. */
  lemma NoHeaderText(text: string)
    requires forall k :: k in KindsOf(Split(text, '\n')) ==> !k.Header?
    ensures ParsedInnovations(text) == NoInnovations
  {
    NoHeaderNoItems(ParseState(NoInnovations, None), KindsOf(Split(text, '\n')));
  }

  /** Under `practical_value` each bullet replaces the value: after a run of
      bullet lines it holds the last one's item, and no list changes. */
  lemma {:induction false} PracticalKeepsLast(st: ParseState, kinds: seq<LineKind>)
    requires st.current == Some(Practical) && kinds != []
    requires forall k :: k in kinds ==> k.Bullet?
    ensures ParseFrom(st, kinds).innovations == st.innovations.(practical := kinds[|kinds| - 1].item)
    ensures ParseFrom(st, kinds).current == Some(Practical)
    decreases |kinds|
  {
    assert kinds[0] in kinds;
    var st' := Step(st, kinds[0]);
    assert st'.innovations == st.innovations.(practical := kinds[0].item);
    if |kinds| > 1 {
      assert forall k :: k in kinds[1..] ==> k in kinds;
      PracticalKeepsLast(st', kinds[1..]);
      assert kinds[1..][|kinds| - 2] == kinds[|kinds| - 1];
    }
  }

  /** An item is the text of a bullet line of the input. */
  predicate FromBullet(x: string, kinds: seq<LineKind>)
  {
    Bullet(x) in kinds
  }

  /** The list held under a list category. */
  function ListOf(inn: Innovations, c: Category): seq<string>
    requires c != Practical
  {
    match c
    case Technical => inn.technical
    case Methodological => inn.methodological
    case Theoretical => inn.theoretical
    case Differences => inn.differences
  }

  /** A line either leaves the record alone or adds its own bullet item
      under the current category. */
  lemma StepShape(st: ParseState, kind: LineKind)
    ensures Step(st, kind).innovations == st.innovations
         || (st.current.Some? && kind.Bullet?
             && Step(st, kind).innovations == AddItem(st.innovations, st.current.value, kind.item))
  {
  }

  /** Adding an item extends exactly the list of its category. */
  lemma AddItemList(inn: Innovations, c: Category, d: Category, item: string)
    requires d != Practical
    ensures ListOf(AddItem(inn, c, item), d) == if c == d then ListOf(inn, d) + [item] else ListOf(inn, d)
  {
  }

  /** A list only grows at its end, and every item the parse adds to it is
      the text of one of the bullet lines. */
  lemma {:induction false} ParseFromItems(st: ParseState, kinds: seq<LineKind>, c: Category)
    requires c != Practical
    ensures ListOf(st.innovations, c) <= ListOf(ParseFrom(st, kinds).innovations, c)
    ensures forall i :: |ListOf(st.innovations, c)| <= i < |ListOf(ParseFrom(st, kinds).innovations, c)| ==>
      FromBullet(ListOf(ParseFrom(st, kinds).innovations, c)[i], kinds)
    decreases |kinds|
  {
    if kinds != [] {
      var st' := Step(st, kinds[0]);
      ParseFromItems(st', kinds[1..], c);
      StepShape(st, kinds[0]);
      var a := ListOf(st.innovations, c);
      var b := ListOf(st'.innovations, c);
      var r := ListOf(ParseFrom(st, kinds).innovations, c);
      assert r == ListOf(ParseFrom(st', kinds[1..]).innovations, c);
      if st'.innovations != st.innovations {
        AddItemList(st.innovations, st.current.value, c, kinds[0].item);
      }
      assert a <= b;
      assert |b| <= |a| + 1;
      assert |b| == |a| + 1 ==> kinds[0] == Bullet(b[|a|]);
      forall i | |a| <= i < |r| ensures FromBullet(r[i], kinds) {
        assert kinds[0] in kinds;
        if i < |b| {
          assert r[i] == b[i];
        } else {
          assert Bullet(r[i]) in kinds[1..];
        }
      }
    }
  }

  /** `practical_value` ends as it began or as the text of a bullet line. */
  lemma {:induction false} ParseFromPractical(st: ParseState, kinds: seq<LineKind>)
    ensures var p := ParseFrom(st, kinds).innovations.practical;
      p == st.innovations.practical || FromBullet(p, kinds)
    decreases |kinds|
  {
    if kinds != [] {
      var st' := Step(st, kinds[0]);
      ParseFromPractical(st', kinds[1..]);
      StepShape(st, kinds[0]);
      assert kinds[0] in kinds;
      var p := ParseFrom(st, kinds).innovations.practical;
      assert p == ParseFrom(st', kinds[1..]).innovations.practical;
      if p == st'.innovations.practical {
        if st'.innovations != st.innovations {
          AddItemPractical(st.innovations, st.current.value, kinds[0].item);
        }
      } else {
        assert Bullet(p) in kinds[1..];
      }
    }
  }

  /** Every item of the parsed record is the text of a bullet line of the
      answer: the text parse invents nothing. */
  lemma ParsedItemsFromBullets(text: string)
    ensures forall c :: c != Practical ==> forall x :: x in ListOf(ParsedInnovations(text), c) ==>
      FromBullet(x, KindsOf(Split(text, '\n')))
    ensures ParsedInnovations(text).practical == "" ||
      FromBullet(ParsedInnovations(text).practical, KindsOf(Split(text, '\n')))
  {
    var kinds := KindsOf(Split(text, '\n'));
    var init := ParseState(NoInnovations, None);
    forall c | c != Practical
      ensures forall x :: x in ListOf(ParsedInnovations(text), c) ==> FromBullet(x, kinds)
    {
      ParseFromItems(init, kinds, c);
    }
    ParseFromPractical(init, kinds);
  }

  /** Adding an item replaces `practical_value` only under that category. */
  lemma AddItemPractical(inn: Innovations, c: Category, item: string)
    ensures AddItem(inn, c, item).practical == if c == Practical then item else inn.practical
  {
  }

  /** A header line takes precedence over its bullet: "- 新方法" under
      technical innovations switches to methodological contributions and
      adds nothing. */
  lemma BulletHeaderSwitches(inn: Innovations, line: string)
    requires line == "- 新方法"
    ensures Classify(line) == Header(Methodological)
    ensures Step(ParseState(inn, Some(Technical)), Classify(line)) == ParseState(inn, Some(Methodological))
  {
    SampleHeader(line);
    assert Strip(line) == line by {
      SampleStripped(line);
    }
  }

  /** The sample bullet is already stripped. */
  lemma SampleStripped(line: string)
    requires line == "- 新方法"
    ensures line != "" && Strip(line) == line
  {
    assert IsStripped(line);
    StripStripped(line);
  }

  /** The sample bullet marks methodological contributions, not technical ones. */
  lemma SampleHeader(line: string)
    requires line == "- 新方法"
    ensures HeaderOf(line) == Some(Methodological)
  {
    SampleNotTechnical(line);
    SampleMethodological(line);
  }

  /** The sample bullet names no technical innovation in either language. */
  lemma SampleNotTechnical(line: string)
    requires line == "- 新方法"
    ensures !Marks(line, "技术创新", "technical")
  {
    assert '技' !in line;
    if Contains(line, "技术创新") {
      ContainsChar(line, "技术创新", '技');
    }
    var low := Lower(line);
    assert low == line;
    assert 't' !in low;
    if Contains(low, "technical") {
      ContainsChar(low, "technical", 't');
    }
  }

  /** The sample bullet holds the Chinese word for method. */
  lemma SampleMethodological(line: string)
    requires line == "- 新方法"
    ensures Marks(line, "方法", "methodological")
  {
    ContainsSelf("方法");
    ContainsRight("- 新", "方法", "方法");
    assert "- 新" + "方法" == line;
  }

  /** `"error" in x` on a parsed value: a key of an object, an element of
      an array, a substring of a string; any other value raises. */
  function HasError(j: Json): Option<bool>
  {
    match j
    case JObject(members) => Some(exists i | 0 <= i < |members| :: members[i].0 == "error")
    case JArray(items) => Some(JString("error") in items)
    case JString(s) => Some(Contains(s, "error"))
    case _ => None
  }

  /** The `in` test raises on null, booleans and numbers; otherwise it
      looks for an `"error"` key, an `"error"` element or an `"error"`
      substring. */
  lemma HasErrorCases(j: Json)
    ensures HasError(j) == None <==> j.JNull? || j.JBool? || j.JNumber?
    ensures j.JObject? ==> (HasError(j) == Some(true) <==> exists v :: ("error", v) in j.members)
    ensures j.JArray? ==> (HasError(j) == Some(true) <==> exists i :: 0 <= i < |j.items| && j.items[i] == JString("error"))
    ensures j.JString? ==> (HasError(j) == Some(true) <==> exists a, b :: j.s == a + "error" + b)
  {
    match j
    case JObject(members) =>
      if exists v :: ("error", v) in members {
        var v :| ("error", v) in members;
        var i :| 0 <= i < |members| && members[i] == ("error", v);
      }
    case JString(s) =>
      ContainsSplit(s, "error");
    case _ =>
  }

  /** `f"{name.upper()}:\n{value[:600]}\n\n"`. */
  function InnovationPart(name: string, value: string): string
  {
    Upper(name) + ":\n" + Take(value, 600) + "\n\n"
  }

  /** The analysis input: the parts of abstract, introduction, methodology
      and conclusion run together, or else the opening of the full text. */
  function InnovationContent(sections: Dict): string
  {
    var content := Join(Rendered(sections, Present(sections, InnovationSections), InnovationPart), "");
    if content == "" then Take(GetOr(sections, "full_text", ""), 2000) else content
  }

  method BuildInnovationContent(sections: Dict) returns (content: string)
    ensures content == InnovationContent(sections)
  {
    var parts := GatherParts(sections, InnovationSections, InnovationPart);
    content := Join(parts, "");
    if content == "" {
      content := Take(GetOr(sections, "full_text", ""), 2000);
    }
  }

  /** `_analyze_innovations`. */
  function AnalysisFor(sections: Dict, title: string, parse: JsonParser, llm: Llm): InnovationAnalysis
  {
    AnalysisOfAnswer(Ask(llm, "analysis", InnovationPrompt(title, InnovationContent(sections))), parse)
  }

  /** What the analysis makes of the model's answer. */
  function AnalysisOfAnswer(answer: Result<string>, parse: JsonParser): InnovationAnalysis
  {
    match answer
    case Err(_) => FromRecord(InnovationsFailed)
    case Ok(response) =>
      var parsed := ParseJsonResponse(response, parse);
      match HasError(parsed)
      case None => FromRecord(InnovationsFailed)
      case Some(true) => FromRecord(ParsedInnovations(response))
      case Some(false) => FromJson(parsed)
  }

  method AnalyzeInnovations(sections: Dict, title: string, parse: JsonParser, llm: Llm) returns (r: InnovationAnalysis)
    ensures r == AnalysisFor(sections, title, parse, llm)
  {
    var content := BuildInnovationContent(sections);
    match Ask(llm, "analysis", InnovationPrompt(title, content)) {
      case Err(_) =>
        r := FromRecord(InnovationsFailed);
      case Ok(response) =>
        var innovations := ParseJsonResponse(response, parse);
        match HasError(innovations) {
          case None =>
            r := FromRecord(InnovationsFailed);
          case Some(true) =>
            var record := ParseInnovationsFromText(response);
            r := FromRecord(record);
          case Some(false) =>
            r := FromJson(innovations);
        }
    }
  }

  /** When neither parse of the answer succeeds, the error record sends the
      answer to the text parse; a failing model gives the failure record. */
  lemma AnalysisFallbacks(sections: Dict, title: string, parse: JsonParser, llm: Llm)
    ensures forall response ::
      (Ask(llm, "analysis", InnovationPrompt(title, InnovationContent(sections))) == Ok(response)
       && ParseJsonResponse(response, parse) == ErrorRecord(response)) ==>
        AnalysisFor(sections, title, parse, llm) == FromRecord(ParsedInnovations(response))
    ensures Ask(llm, "analysis", InnovationPrompt(title, InnovationContent(sections))).Err? ==>
      AnalysisFor(sections, title, parse, llm) == FromRecord(InnovationsFailed)
    ensures AnalysisFor(sections, title, parse, llm).FromJson? ==>
      HasError(AnalysisFor(sections, title, parse, llm).json) == Some(false)
  {
    AnswerFallbacks(Ask(llm, "analysis", InnovationPrompt(title, InnovationContent(sections))), parse);
  }

  /** The same, for any answer of the model. */
  lemma AnswerFallbacks(answer: Result<string>, parse: JsonParser)
    ensures answer.Ok? && ParseJsonResponse(answer.value, parse) == ErrorRecord(answer.value) ==>
      AnalysisOfAnswer(answer, parse) == FromRecord(ParsedInnovations(answer.value))
    ensures answer.Err? ==> AnalysisOfAnswer(answer, parse) == FromRecord(InnovationsFailed)
    ensures AnalysisOfAnswer(answer, parse).FromJson? ==>
      HasError(AnalysisOfAnswer(answer, parse).json) == Some(false)
  {
    if answer.Ok? {
      ErrorRecordHasError(answer.value);
    }
  }

  /** The error record has an "error" key. */
  lemma ErrorRecordHasError(response: string)
    ensures HasError(ErrorRecord(response)) == Some(true)
  {
    var members := ErrorRecord(response).members;
    assert members[0].0 == "error";
  }

  // ----- methodology -----

  /** A section name that mentions a method keyword once lower-cased. */
  predicate MethodLike(name: string)
  {
    ContainsAny(Lower(name), MethodKeywords)
  }

  /** The first section, in mapping order, whose name is method-like. */
  function FirstMethodIndex(d: Dict): (r: Option<nat>)
    ensures r.Some? ==> r.value < |d| && MethodLike(d[r.value].key)
    ensures r.Some? ==> forall j :: 0 <= j < r.value ==> !MethodLike(d[j].key)
    ensures r.None? <==> forall j :: 0 <= j < |d| ==> !MethodLike(d[j].key)
    decreases |d|
  {
    if d == [] then None
    else if MethodLike(d[0].key) then Some(0)
    else
      match FirstMethodIndex(d[1..])
      case None =>
        assert forall j :: 1 <= j < |d| ==> d[j] == d[1..][j - 1];
        None
      case Some(i) =>
        assert forall j :: 1 <= j <= i ==> d[j] == d[1..][j - 1];
        Some(i + 1)
  }

  /** The first matching position is what `FirstMethodIndex` finds. */
  lemma {:induction false} FirstMethodAt(d: Dict, i: nat)
    requires i < |d| && MethodLike(d[i].key)
    requires forall j :: 0 <= j < i ==> !MethodLike(d[j].key)
    ensures FirstMethodIndex(d) == Some(i)
    decreases i
  {
    if i > 0 {
      assert !MethodLike(d[0].key);
      assert d[1..][i - 1] == d[i];
      assert forall j :: 0 <= j < i - 1 ==> d[1..][j] == d[j + 1];
      FirstMethodAt(d[1..], i - 1);
    }
  }

  /** No method-like name among the first `i + 1` when none among the first
      `i` and not the next one. */
  lemma NoMethodExtends(d: Dict, i: nat)
    requires i < |d| && !MethodLike(d[i].key)
    requires forall j :: 0 <= j < i ==> !MethodLike(d[j].key)
    ensures forall j :: 0 <= j < i + 1 ==> !MethodLike(d[j].key)
  {
  }

  /** The text `_summarize_methodology` works from: the methodology section,
      or else the first methodology-like section's text (even when empty). */
  function MethodologyContent(sections: Dict): string
  {
    var m := GetOr(sections, "methodology", "");
    if m != "" then m
    else
      match FirstMethodIndex(sections)
      case None => ""
      case Some(i) => sections[i].value
  }

  method MethodologyContentOf(sections: Dict) returns (content: string)
    ensures content == MethodologyContent(sections)
  {
    content := GetOr(sections, "methodology", "");
    if content == "" {
      var i := 0;
      while i < |sections|
        invariant 0 <= i <= |sections|
        invariant forall j :: 0 <= j < i ==> !MethodLike(sections[j].key)
        invariant content == ""
      {
        var like := MethodLike(sections[i].key);
        if like {
          FirstMethodAt(sections, i);
          content := sections[i].value;
          break;
        }
        NoMethodExtends(sections, i);
        i := i + 1;
      }
    }
  }

  function MethodologySummary(sections: Dict, llm: Llm): string
  {
    var content := MethodologyContent(sections);
    if content == "" then NoMethodology
    else
      match Ask(llm, "summary", MethodologyPrompt(Take(content, 1200)))
      case Err(m) => MethodologyFailed + m
      case Ok(s) => s
  }

  method SummarizeMethodology(sections: Dict, llm: Llm) returns (summary: string)
    ensures summary == MethodologySummary(sections, llm)
  {
    var content := MethodologyContentOf(sections);
    if content == "" {
      return NoMethodology;
    }
    match Ask(llm, "summary", MethodologyPrompt(Take(content, 1200))) {
      case Err(m) =>
        summary := MethodologyFailed + m;
      case Ok(s) =>
        summary := s;
    }
  }

  /** A non-empty methodology section is the one used; without it the first
      section whose name mentions a method keyword is; with neither, the
      fixed "not found" text comes back and the model is not asked. */
  lemma MethodologySpec(sections: Dict, llm: Llm, llm': Llm)
    ensures GetOr(sections, "methodology", "") != "" ==> MethodologyContent(sections) == GetOr(sections, "methodology", "")
    ensures GetOr(sections, "methodology", "") == "" && MethodologyContent(sections) != "" ==>
      exists i :: 0 <= i < |sections| && MethodologyContent(sections) == sections[i].value
        && MethodLike(sections[i].key)
        && forall j :: 0 <= j < i ==> !MethodLike(sections[j].key)
    ensures MethodologyContent(sections) == "" ==>
      MethodologySummary(sections, llm) == NoMethodology && MethodologySummary(sections, llm') == NoMethodology
  {
  }

  // ----- findings -----

  /** `value[:800] + "\n\n"`. */
  function FindingPart(name: string, value: string): string
  {
    Take(value, 800) + "\n\n"
  }

  /** The findings input: results, conclusion, discussion and findings run
      together, or else the opening of the abstract. */
  function FindingsContent(sections: Dict): string
  {
    var content := Join(Rendered(sections, Present(sections, FindingSections), FindingPart), "");
    if content == "" then Take(GetOr(sections, "abstract", ""), 500) else content
  }

  function FindingsFor(sections: Dict, llm: Llm): seq<string>
  {
    var content := FindingsContent(sections);
    if content == "" then [NoFindings]
    else
      match Ask(llm, "summary", FindingsPrompt(content))
      case Err(m) => [FindingsFailed + m]
      case Ok(response) => ListItems(response, FindingSkips, FindingCap)
  }

  method ExtractMainFindings(sections: Dict, llm: Llm) returns (findings: seq<string>)
    ensures findings == FindingsFor(sections, llm)
  {
    var parts := GatherParts(sections, FindingSections, FindingPart);
    var findingsContent := Join(parts, "");
    if findingsContent == "" {
      findingsContent := Take(GetOr(sections, "abstract", ""), 500);
    }
    if findingsContent == "" {
      return [NoFindings];
    }
    match Ask(llm, "summary", FindingsPrompt(findingsContent)) {
      case Err(m) =>
        findings := [FindingsFailed + m];
      case Ok(response) =>
        findings := ParseList(response, FindingSkips, FindingCap);
    }
  }

  /** Without results, conclusion, discussion, findings or abstract text the
      fixed "no findings" list comes back and the model is not asked. A
      present findings section always gives some content. An answer yields
      at most 5 findings, each drawn from one of its lines. */
  lemma FindingsSpec(sections: Dict, llm: Llm, llm': Llm)
    ensures Present(sections, FindingSections) == [] && GetOr(sections, "abstract", "") == "" ==>
      FindingsFor(sections, llm) == [NoFindings] && FindingsFor(sections, llm') == [NoFindings]
    ensures Present(sections, FindingSections) != [] ==> FindingsContent(sections) != ""
    ensures |FindingsFor(sections, llm)| <= FindingCap
    ensures forall response :: FindingsContent(sections) != "" && Ask(llm, "summary", FindingsPrompt(FindingsContent(sections))) == Ok(response) ==>
      forall x :: x in FindingsFor(sections, llm) ==>
        exists l :: l in Split(response, '\n') && ListItem(Strip(l), FindingSkips) == Some(x)
  {
    var ns := Present(sections, FindingSections);
    var parts := Rendered(sections, ns, FindingPart);
    if ns != [] {
      assert |parts[0]| >= 2;
      JoinNonEmpty(parts, "");
    } else {
      assert parts == [];
    }
    var content := FindingsContent(sections);
    if content != "" {
      match Ask(llm, "summary", FindingsPrompt(content)) {
        case Err(_) =>
        case Ok(response) =>
          ListItemsSpec(response, FindingSkips, FindingCap);
      }
    }
  }

  // ----- the comprehensive summary -----

  /** The six entries of `generate_comprehensive_summary`'s result. */
  datatype SummaryBundle = SummaryBundle(
    overallSummary: string, sectionSummaries: Dict, innovations: InnovationAnalysis,
    methodology: string, mainFindings: seq<string>, paperTitle: string)

  function ComprehensiveSummary(sections: Dict, parse: JsonParser, llm: Llm): SummaryBundle
  {
    var title := GetOr(sections, "title", UnknownTitle);
    SummaryBundle(OverallSummary(sections, title, llm), SummariesOf(sections, SummarySections, llm),
                  AnalysisFor(sections, title, parse, llm), MethodologySummary(sections, llm),
                  FindingsFor(sections, llm), title)
  }

  method GenerateComprehensiveSummary(sections: Dict, parse: JsonParser, llm: Llm) returns (bundle: SummaryBundle)
    ensures bundle == ComprehensiveSummary(sections, parse, llm)
  {
    var title := GetOr(sections, "title", UnknownTitle);
    var overallSummary := GenerateOverallSummary(sections, title, llm);
    var sectionSummaries := ExtractSectionSummaries(sections, llm);
    var innovations := AnalyzeInnovations(sections, title, parse, llm);
    var methodologySummary := SummarizeMethodology(sections, llm);
    var mainFindings := ExtractMainFindings(sections, llm);
    bundle := SummaryBundle(overallSummary, sectionSummaries, innovations, methodologySummary, mainFindings, title);
  }

  /** The bundle's title is the parsed title, or "未知标题" when the
      sections have no title key; its section summaries are keyed by a
      subset of the six summary sections. */
  lemma ComprehensiveSpec(sections: Dict, parse: JsonParser, llm: Llm)
    ensures !HasKey(sections, "title") ==> ComprehensiveSummary(sections, parse, llm).paperTitle == UnknownTitle
    ensures HasKey(sections, "title") ==> Some(ComprehensiveSummary(sections, parse, llm).paperTitle) == Get(sections, "title")
    ensures forall n :: HasKey(ComprehensiveSummary(sections, parse, llm).sectionSummaries, n) ==> n in SummarySections
  {
    SummariesOfSpec(sections, SummarySections, llm);
  }
}
