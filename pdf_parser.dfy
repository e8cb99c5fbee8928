/** Section segmentation of a paper's extracted text (`PaperParser`).

    The parser walks the text line by line with a "current section" pointer
    that starts at `introduction`. The first stripped line whose length lies
    strictly between 10 and 200 becomes the title, once. Every other
    non-empty line is tested against six keyword patterns in a fixed order;
    a line that matches is a header: it moves the pointer and is dropped.
    Any other line is appended to the current section. */
module PdfParser {
  import opened Common
  import opened Text
  import opened Dicts

  /** The keys of the result, in the order the dict is built. */
  const SectionKeys: seq<string> :=
    ["title", "abstract", "introduction", "methodology", "results", "conclusion", "references", "full_text"]

  /** The sections a header can select, in the order the patterns are tried. */
  const HeaderNames: seq<string> :=
    ["abstract", "introduction", "methodology", "results", "conclusion", "references"]

  /** The keywords each pattern finds, lower-case, aligned with `HeaderNames`.
      `1\.\s*introduction` and `methodology` are left out of the lists: every
      text they match contains `introduction` or `method` already. */
  const HeaderKeywords: seq<seq<string>> := [
    ["abstract", "摘要"],
    ["introduction", "引言"],
    ["method", "approach", "方法"],
    ["result", "experiment", "实验", "结果"],
    ["conclusion", "discussion", "结论", "讨论"],
    ["reference", "bibliography", "参考文献"]
  ]

  /** Pattern `k` finds one of its keywords anywhere in `line`, ignoring case. */
  predicate PatternMatches(line: string, k: nat)
    requires k < |HeaderKeywords|
  {
    ContainsAny(Lower(line), HeaderKeywords[k])
  }

  /** The first pattern from position `k` on that matches `line`. */
  function MatchFrom(line: string, k: nat): (r: Option<string>)
    requires k <= |HeaderNames|
    decreases |HeaderNames| - k
  {
    if k == |HeaderNames| then None
    else if PatternMatches(line, k) then Some(HeaderNames[k])
    else MatchFrom(line, k + 1)
  }

  /** The section a header line selects, or None for an ordinary line. */
  function MatchSection(line: string): (r: Option<string>)
    ensures r.Some? ==> r.value in HeaderNames
  {
    MatchFromIn(line, 0);
    MatchFrom(line, 0)
  }

  /** A header selects one of the six sections. */
  lemma {:induction false} MatchFromIn(line: string, k: nat)
    requires k <= |HeaderNames|
    ensures MatchFrom(line, k).Some? ==> MatchFrom(line, k).value in HeaderNames
    decreases |HeaderNames| - k
  {
    if k < |HeaderNames| && !PatternMatches(line, k) {
      MatchFromIn(line, k + 1);
    }
  }

  lemma {:induction false} MatchFromFirst(line: string, i: nat, k: nat)
    requires i <= k < |HeaderNames| && PatternMatches(line, k)
    requires forall j :: i <= j < k ==> !PatternMatches(line, j)
    ensures MatchFrom(line, i) == Some(HeaderNames[k])
    decreases k - i
  {
    if i < k {
      MatchFromFirst(line, i + 1, k);
    }
  }

  lemma {:induction false} MatchFromNone(line: string, i: nat)
    requires i <= |HeaderNames|
    ensures MatchFrom(line, i) == None <==> forall k :: i <= k < |HeaderNames| ==> !PatternMatches(line, k)
    decreases |HeaderNames| - i
  {
    if i < |HeaderNames| {
      MatchFromNone(line, i + 1);
    }
  }

  /** Patterns are tried in order and the first that matches wins. */
  lemma MatchSectionFirst(line: string, k: nat)
    requires k < |HeaderNames| && PatternMatches(line, k)
    requires forall j :: 0 <= j < k ==> !PatternMatches(line, j)
    ensures MatchSection(line) == Some(HeaderNames[k])
  {
    MatchFromFirst(line, 0, k);
  }

  /** A line is a header exactly when some pattern matches it. */
  lemma MatchSectionNone(line: string)
    ensures MatchSection(line) == None <==> forall k :: 0 <= k < |HeaderNames| ==> !PatternMatches(line, k)
  {
    MatchFromNone(line, 0);
  }

  /** A text lacking a character of every word contains none of the words. */
  lemma MissingChars(lo: string, ws: seq<string>, cs: seq<char>)
    requires |ws| == |cs|
    requires forall i :: 0 <= i < |ws| ==> cs[i] in ws[i] && cs[i] !in lo
    ensures !ContainsAny(lo, ws)
  {
    forall w | w in ws
      ensures !Contains(lo, w)
    {
      var i :| 0 <= i < |ws| && ws[i] == w;
      if Contains(lo, w) {
        ContainsChar(lo, w, cs[i]);
      }
    }
  }

  /** None of the abstract, introduction and methodology keywords occurs in
      "Z is the result.". */
  lemma SampleMissesEarlyPatterns()
    ensures forall k :: 0 <= k < 3 ==> !PatternMatches("Z is the result.", k)
  {
    var lo := "z is the result.";
    assert Lower("Z is the result.") == lo;
    SampleMissesAbstract(lo);
    SampleMissesIntroduction(lo);
    SampleMissesMethod(lo);
    forall k | 0 <= k < 3
      ensures !ContainsAny(lo, HeaderKeywords[k])
    {
    }
  }

  /** The sample lacks the 'b' of "abstract" and the first character of its
      Chinese keyword. */
  lemma SampleMissesAbstract(lo: string)
    requires lo == "z is the result."
    ensures !ContainsAny(lo, HeaderKeywords[0])
  {
    MissingChars(lo, HeaderKeywords[0], ['b', HeaderKeywords[0][1][0]]);
  }

  /** The sample lacks the 'n' of "introduction" and the first character of
      its Chinese keyword. */
  lemma SampleMissesIntroduction(lo: string)
    requires lo == "z is the result."
    ensures !ContainsAny(lo, HeaderKeywords[1])
  {
    MissingChars(lo, HeaderKeywords[1], ['n', HeaderKeywords[1][1][0]]);
  }

  /** The sample lacks the 'm' of "method", the 'a' of "approach" and the
      first character of the Chinese keyword. */
  lemma SampleMissesMethod(lo: string)
    requires lo == "z is the result."
    ensures !ContainsAny(lo, HeaderKeywords[2])
  {
    MissingChars(lo, HeaderKeywords[2], ['m', 'a', HeaderKeywords[2][2][0]]);
  }

  /** A keyword counts anywhere in the line: "Z is the result." is a results
      header, since the earlier patterns find none of their keywords. */
  lemma ResultLineIsHeader()
    ensures MatchSection("Z is the result.") == Some("results")
  {
    var line := "Z is the result.";
    SampleMissesEarlyPatterns();
    assert Lower(line) == "z is the " + "result.";
    assert StartsWith("result.", "result");
    ContainsRight("z is the ", "result.", "result");
    assert HeaderKeywords[3][0] == "result";
    assert PatternMatches(line, 3);
    MatchSectionFirst(line, 3);
  }

  /** The length test a stripped line must pass to become the title. */
  predicate IsTitleCandidate(line: string)
  {
    10 < |line| < 200
  }

  /** The parser's pointer: whether the title is taken, and the current section. */
  datatype Cursor = Cursor(titleTaken: bool, current: string)

  const Start := Cursor(false, "introduction")

  /** What one stripped line is, given the pointer before it. */
  datatype Role = Blank | TitleLine | Header(section: string) | Body(section: string)

  function RoleOf(c: Cursor, line: string): Role
  {
    if line == [] then Blank
    else if !c.titleTaken && IsTitleCandidate(line) then TitleLine
    else
      match MatchSection(line)
      case Some(n) => Header(n)
      case None => Body(c.current)
  }

  function Advance(c: Cursor, line: string): Cursor
  {
    match RoleOf(c, line)
    case TitleLine => c.(titleTaken := true)
    case Header(n) => c.(current := n)
    case _ => c
  }

  /** The pointer after reading `lines` (stripped). */
  function CursorAfter(lines: seq<string>): Cursor
    decreases |lines|
  {
    if lines == [] then Start
    else Advance(CursorAfter(lines[..|lines| - 1]), lines[|lines| - 1])
  }

  /** The role of line `j`. */
  function RoleAt(lines: seq<string>, j: nat): Role
    requires j < |lines|
  {
    RoleOf(CursorAfter(lines[..j]), lines[j])
  }

  /** The lines assigned to section `s`, in input order. */
  function BodyLines(lines: seq<string>, s: string): seq<string>
    decreases |lines|
  {
    if lines == [] then []
    else
      var n := |lines| - 1;
      BodyLines(lines[..n], s) + (if RoleAt(lines, n) == Body(s) then [lines[n]] else [])
  }

  /** The line taken as the title, or "" when there is none. */
  function TitleOf(lines: seq<string>): string
    decreases |lines|
  {
    if lines == [] then ""
    else
      var n := |lines| - 1;
      if RoleAt(lines, n) == TitleLine then lines[n] else TitleOf(lines[..n])
  }

  /** The input split on '\n', each line stripped. */
  function StrippedLines(text: string): (ls: seq<string>)
    ensures forall i :: 0 <= i < |ls| ==> IsStripped(ls[i])
  {
    var raw := Split(text, '\n');
    seq(|raw|, i requires 0 <= i < |raw| => Strip(raw[i]))
  }

  /** What `sections[name] += line + '\n'` accumulates. */
  function Lines(ls: seq<string>): string
    decreases |ls|
  {
    if ls == [] then [] else Lines(ls[..|ls| - 1]) + ls[|ls| - 1] + "\n"
  }

  lemma LinesSnoc(ls: seq<string>, x: string)
    ensures Lines(ls + [x]) == Lines(ls) + x + "\n"
  {
    assert (ls + [x])[..|ls|] == ls;
  }

  /** The value of a header section: its lines joined by '\n'. */
  function SectionText(lines: seq<string>, s: string): string
  {
    Join(BodyLines(lines, s), "\n")
  }

  /** The value the parser gives key `key` of `SectionKeys`. */
  function ValueOf(ls: seq<string>, text: string, key: string): string
  {
    if key == "title" then TitleOf(ls)
    else if key == "full_text" then Strip(text)
    else SectionText(ls, key)
  }

  /** The segmentation of `text`: the eight keys in order with their values. */
  function Segment(text: string): (d: Dict)
  {
    var ls := StrippedLines(text);
    seq(|SectionKeys|, i requires 0 <= i < |SectionKeys| => Entry(SectionKeys[i], ValueOf(ls, text, SectionKeys[i])))
  }

  lemma SectionKeysDistinct()
    ensures forall i, j :: 0 <= i < j < |SectionKeys| ==> SectionKeys[i] != SectionKeys[j]
    ensures HeaderNames == SectionKeys[1..7]
  {
  }

  // ----- facts about the pointer -----

  lemma {:induction false} CursorInHeaders(lines: seq<string>)
    ensures CursorAfter(lines).current in HeaderNames
    decreases |lines|
  {
    if lines != [] {
      CursorInHeaders(lines[..|lines| - 1]);
      MatchFromIn(lines[|lines| - 1], 0);
    }
  }

  /** One more line: the title is taken by it exactly when none was taken
      before and it passes the length test. */
  lemma TitleStep(lines: seq<string>)
    requires lines != []
    ensures var pre := lines[..|lines| - 1];
      var last := lines[|lines| - 1];
      var isTitle := !CursorAfter(pre).titleTaken && IsTitleCandidate(last);
      && CursorAfter(lines).titleTaken == (CursorAfter(pre).titleTaken || isTitle)
      && TitleOf(lines) == if isTitle then last else TitleOf(pre)
  {
    var pre := lines[..|lines| - 1];
    var last := lines[|lines| - 1];
    var c := CursorAfter(pre);
    assert RoleOf(c, last) == TitleLine <==> !c.titleTaken && IsTitleCandidate(last);
  }

  /** No line passes the length test when none of a prefix does and the last
      line does not either. */
  lemma NoCandidateExtends(pre: seq<string>, lines: seq<string>)
    requires lines != [] && pre == lines[..|lines| - 1]
    requires forall k :: 0 <= k < |pre| ==> !IsTitleCandidate(pre[k])
    requires !IsTitleCandidate(lines[|lines| - 1])
    ensures forall j :: 0 <= j < |lines| ==> !IsTitleCandidate(lines[j])
  {
    forall j | 0 <= j < |pre|
      ensures !IsTitleCandidate(lines[j])
    {
      assert lines[j] == pre[j];
    }
  }

  /** The title is taken exactly once some line has passed the length test. */
  lemma {:induction false} TitleTaken(lines: seq<string>)
    ensures CursorAfter(lines).titleTaken <==> exists j :: 0 <= j < |lines| && IsTitleCandidate(lines[j])
    ensures !CursorAfter(lines).titleTaken ==> TitleOf(lines) == ""
    ensures CursorAfter(lines).titleTaken ==> IsTitleCandidate(TitleOf(lines))
    ensures TitleOf(lines) == "" || TitleOf(lines) in lines
    decreases |lines|
  {
    if lines != [] {
      var n := |lines| - 1;
      var pre := lines[..n];
      var last := lines[n];
      TitleTaken(pre);
      var c := CursorAfter(pre);
      TitleStep(lines);
      if c.titleTaken {
        var j :| 0 <= j < n && IsTitleCandidate(pre[j]);
        assert lines[j] == pre[j];
      } else if !IsTitleCandidate(last) {
        NoCandidateExtends(pre, lines);
      }
      if TitleOf(pre) != "" {
        var j :| 0 <= j < n && pre[j] == TitleOf(pre);
        assert lines[j] == pre[j];
      }
    }
  }

  /** The title is the first line that passes the length test, and that line
      is a title line: it is never tested against the patterns. */
  lemma {:induction false} TitleIsFirstCandidate(lines: seq<string>, j: nat)
    requires j < |lines| && IsTitleCandidate(lines[j])
    requires forall k :: 0 <= k < j ==> !IsTitleCandidate(lines[k])
    ensures TitleOf(lines) == lines[j]
    ensures RoleAt(lines, j) == TitleLine
    decreases |lines|
  {
    var n := |lines| - 1;
    var pre := lines[..n];
    if j == n {
      TitleTaken(pre);
    } else {
      assert pre[j] == lines[j];
      TitleIsFirstCandidate(pre, j);
      assert pre[..j] == lines[..j];
      TitleTaken(pre);
    }
  }

  /** No line passes the length test: the title stays empty. */
  lemma NoTitle(lines: seq<string>)
    requires forall k :: 0 <= k < |lines| ==> !IsTitleCandidate(lines[k])
    ensures TitleOf(lines) == ""
  {
    TitleTaken(lines);
  }

  // ----- facts about the section values -----

  lemma {:induction false} BodyLinesStripped(lines: seq<string>, s: string)
    requires forall i :: 0 <= i < |lines| ==> IsStripped(lines[i])
    ensures forall i :: 0 <= i < |BodyLines(lines, s)| ==> BodyLines(lines, s)[i] != [] && IsStripped(BodyLines(lines, s)[i])
    decreases |lines|
  {
    if lines != [] {
      BodyLinesStripped(lines[..|lines| - 1], s);
    }
  }

  /** Joining non-empty stripped pieces gives a non-empty stripped string. */
  lemma {:induction false} JoinStripped(ls: seq<string>, sep: string)
    requires |ls| >= 1
    requires forall i :: 0 <= i < |ls| ==> ls[i] != [] && IsStripped(ls[i])
    ensures Join(ls, sep) != [] && IsStripped(Join(ls, sep))
    decreases |ls|
  {
    if |ls| > 1 {
      JoinStripped(ls[1..], sep);
      var j := ls[0] + sep + Join(ls[1..], sep);
      assert j[0] == ls[0][0];
      assert j[|j| - 1] == Join(ls[1..], sep)[|Join(ls[1..], sep)| - 1];
    }
  }

  lemma {:induction false} LinesIsJoin(ls: seq<string>)
    requires |ls| >= 1
    ensures Lines(ls) == Join(ls, "\n") + "\n"
    decreases |ls|
  {
    var n := |ls| - 1;
    if n == 0 {
      assert Lines(ls[..0]) == [];
    } else {
      LinesIsJoin(ls[..n]);
      JoinSnoc(ls[..n], ls[n], "\n");
      assert ls[..n] + [ls[n]] == ls;
    }
  }

  /** Stripping the accumulated `line + '\n'` pieces leaves the lines joined by '\n'. */
  lemma StripLines(ls: seq<string>)
    requires forall i :: 0 <= i < |ls| ==> ls[i] != [] && IsStripped(ls[i])
    ensures Strip(Lines(ls)) == Join(ls, "\n")
  {
    if ls != [] {
      var j := Join(ls, "\n");
      LinesIsJoin(ls);
      JoinStripped(ls, "\n");
      NewlineIsSpace();
      StripTrailing(j, "\n");
    }
  }

  /** Every value of the result has no whitespace at either end. */
  lemma SegmentStripped(text: string, key: string)
    ensures IsStripped(ValueOf(StrippedLines(text), text, key))
  {
    var ls := StrippedLines(text);
    if key == "title" {
      TitleTaken(ls);
    } else if key != "full_text" {
      BodyLinesStripped(ls, key);
      if BodyLines(ls, key) != [] {
        JoinStripped(BodyLines(ls, key), "\n");
      }
    }
  }

  /** The result has exactly the eight keys, each once, with stripped values. */
  lemma SegmentShape(text: string)
    ensures Valid(Segment(text)) && Keys(Segment(text)) == SectionKeys
    ensures forall k :: 0 <= k < |SectionKeys| ==> IsStripped(Segment(text)[k].value)
  {
    SectionKeysDistinct();
    forall k | 0 <= k < |SectionKeys| ensures IsStripped(Segment(text)[k].value) {
      SegmentStripped(text, SectionKeys[k]);
    }
  }

  /** The non-empty lines other than the title, in order: where the text
      goes when no line is a header. */
  function NonTitleLines(lines: seq<string>): seq<string>
    decreases |lines|
  {
    if lines == [] then []
    else
      var n := |lines| - 1;
      var isTitle := IsTitleCandidate(lines[n]) && forall k :: 0 <= k < n ==> !IsTitleCandidate(lines[k]);
      NonTitleLines(lines[..n]) + (if lines[n] == [] || isTitle then [] else [lines[n]])
  }

  /** With no header anywhere, every non-empty non-title line lands in
      `introduction`, in order, and every other section stays empty. */
  lemma {:induction false} NoHeadersAllIntroduction(lines: seq<string>, s: string)
    requires forall j :: 0 <= j < |lines| ==> MatchSection(lines[j]).None?
    ensures CursorAfter(lines).current == "introduction"
    ensures BodyLines(lines, "introduction") == NonTitleLines(lines)
    ensures s != "introduction" ==> BodyLines(lines, s) == []
    decreases |lines|
  {
    if lines != [] {
      var n := |lines| - 1;
      var pre := lines[..n];
      assert forall j :: 0 <= j < n ==> pre[j] == lines[j];
      NoHeadersAllIntroduction(pre, s);
      TitleTaken(pre);
    }
  }

  // ----- the parser -----

  /** The value key `key` holds once every line is read, before the final strip. */
  function RawValueOf(ls: seq<string>, text: string, key: string): string
  {
    if key == "title" then TitleOf(ls)
    else if key == "full_text" then text
    else Lines(BodyLines(ls, key))
  }

  /** The dictionary after the lines `ls` are read. */
  function RawAfter(ls: seq<string>, text: string): (d: Dict)
    ensures |d| == |SectionKeys| && Keys(d) == SectionKeys
  {
    seq(|SectionKeys|, i requires 0 <= i < |SectionKeys| => Entry(SectionKeys[i], RawValueOf(ls, text, SectionKeys[i])))
  }

  /** `{k: v.strip() for k, v in d.items()}`: same keys, stripped values. */
  function StripValues(d: Dict): (r: Dict)
    ensures Keys(r) == Keys(d)
    ensures forall i :: 0 <= i < |d| ==> r[i].value == Strip(d[i].value)
  {
    MapValues(d, Strip)
  }

  /** Stripping the raw dictionary gives the segmentation. */
  lemma StripRaw(text: string)
    ensures StripValues(RawAfter(StrippedLines(text), text)) == Segment(text)
  {
    var ls := StrippedLines(text);
    var raw := RawAfter(ls, text);
    forall i | 0 <= i < |SectionKeys| ensures StripValues(raw)[i] == Segment(text)[i] {
      var key := SectionKeys[i];
      if key == "title" {
        TitleTaken(ls);
        StripStripped(TitleOf(ls));
      } else if key != "full_text" {
        BodyLinesStripped(ls, key);
        StripLines(BodyLines(ls, key));
      }
    }
  }

  /** Reading one more line: its role decides what the title and each section become. */
  lemma Unfold(ls: seq<string>, line: string, s: string)
    ensures TitleOf(ls + [line]) == if RoleOf(CursorAfter(ls), line) == TitleLine then line else TitleOf(ls)
    ensures BodyLines(ls + [line], s) == BodyLines(ls, s) + if RoleOf(CursorAfter(ls), line) == Body(s) then [line] else []
  {
    var after := ls + [line];
    assert after[..|ls|] == ls;
  }

  /** The raw value of each key after one more line. */
  lemma RawStep(ls: seq<string>, line: string, text: string, key: string)
    ensures var role := RoleOf(CursorAfter(ls), line);
      RawValueOf(ls + [line], text, key) ==
        if key == "title" && role == TitleLine then line
        else if key != "title" && key != "full_text" && role == Body(key) then RawValueOf(ls, text, key) + line + "\n"
        else RawValueOf(ls, text, key)
  {
    var role := RoleOf(CursorAfter(ls), line);
    if key == "title" {
      Unfold(ls, line, key);
    } else if key != "full_text" {
      Unfold(ls, line, key);
      if role == Body(key) {
        LinesSnoc(BodyLines(ls, key), line);
      } else {
        assert BodyLines(ls + [line], key) == BodyLines(ls, key);
      }
    }
  }

  /** The pointer after one more line. */
  lemma CursorStep(ls: seq<string>, line: string)
    ensures CursorAfter(ls + [line]) == Advance(CursorAfter(ls), line)
  {
    assert (ls + [line])[..|ls|] == ls;
  }

  /** A line that leaves the dictionary alone: blank, or a header. */
  lemma RawUnchanged(ls: seq<string>, line: string, text: string)
    requires RoleOf(CursorAfter(ls), line).Blank? || RoleOf(CursorAfter(ls), line).Header?
    ensures RawAfter(ls + [line], text) == RawAfter(ls, text)
  {
    forall i | 0 <= i < |SectionKeys| ensures RawAfter(ls + [line], text)[i] == RawAfter(ls, text)[i] {
      RawStep(ls, line, text, SectionKeys[i]);
    }
  }

  /** The title line fills the "title" entry. */
  lemma RawTitle(ls: seq<string>, line: string, text: string)
    requires RoleOf(CursorAfter(ls), line) == TitleLine
    ensures RawAfter(ls + [line], text) == RawAfter(ls, text)[0 := Entry("title", line)]
  {
    forall i | 0 <= i < |SectionKeys| ensures RawAfter(ls + [line], text)[i] == RawAfter(ls, text)[0 := Entry("title", line)][i] {
      RawTitleAt(ls, line, text, i);
    }
  }

  /** Entry `i` after the title line. */
  lemma RawTitleAt(ls: seq<string>, line: string, text: string, i: nat)
    requires RoleOf(CursorAfter(ls), line) == TitleLine && i < |SectionKeys|
    ensures RawAfter(ls + [line], text)[i] == if i == 0 then Entry("title", line) else RawAfter(ls, text)[i]
  {
    RawStep(ls, line, text, SectionKeys[i]);
    if i != 0 {
      SectionKeysDistinct();
      assert SectionKeys[i] != "title";
    }
  }

  /** A body line is appended to the current section. */
  lemma RawBody(ls: seq<string>, line: string, text: string, m: nat)
    requires 1 <= m <= 6 && RoleOf(CursorAfter(ls), line) == Body(SectionKeys[m])
    ensures RawAfter(ls + [line], text) ==
            RawAfter(ls, text)[m := Entry(SectionKeys[m], RawAfter(ls, text)[m].value + line + "\n")]
  {
    forall i | 0 <= i < |SectionKeys|
      ensures RawAfter(ls + [line], text)[i] == RawAfter(ls, text)[m := Entry(SectionKeys[m], RawAfter(ls, text)[m].value + line + "\n")][i]
    {
      RawBodyAt(ls, line, text, m, i);
    }
  }

  /** Entry `i` after a body line of section `m`. */
  lemma RawBodyAt(ls: seq<string>, line: string, text: string, m: nat, i: nat)
    requires 1 <= m <= 6 && RoleOf(CursorAfter(ls), line) == Body(SectionKeys[m]) && i < |SectionKeys|
    ensures RawAfter(ls + [line], text)[i] ==
            if i == m then Entry(SectionKeys[m], RawAfter(ls, text)[m].value + line + "\n") else RawAfter(ls, text)[i]
  {
    var key := SectionKeys[i];
    assert RawAfter(ls + [line], text)[i] == Entry(key, RawValueOf(ls + [line], text, key));
    assert RawAfter(ls, text)[i] == Entry(key, RawValueOf(ls, text, key));
    RawStep(ls, line, text, key);
    if i == m {
      assert key != "title" && key != "full_text";
    } else {
      SectionKeysDistinct();
      assert key != SectionKeys[m];
    }
  }

  /** One pass of the line loop of `extract_sections` on the stripped line `line`. */
  method ScanLine(ghost before: seq<string>, text: string, sections: Dict, current: string, line: string)
    returns (sections': Dict, current': string)
    requires sections == RawAfter(before, text) && current == CursorAfter(before).current
    ensures sections' == RawAfter(before + [line], text)
    ensures current' == CursorAfter(before + [line]).current
  {
    ghost var c := CursorAfter(before);
    ghost var role := RoleOf(c, line);
    SectionKeysDistinct();
    TitleTaken(before);
    CursorInHeaders(before);
    CursorStep(before, line);
    GetAt(sections, 0);
    sections', current' := sections, current;
    if line == [] {
      assert role == Blank;
      RawUnchanged(before, line, text);
    } else if GetOr(sections, "title", "") == "" && |line| < 200 && |line| > 10 {
      assert role == TitleLine;
      SetAt(sections, "title", line, 0);
      sections' := Set(sections, "title", line);
      RawTitle(before, line, text);
    } else {
      var found := MatchSection(line);
      if found.Some? {
        assert role == Header(found.value);
        current' := found.value;
        RawUnchanged(before, line, text);
      } else {
        assert role == Body(current);
        var m :| 1 <= m <= 6 && SectionKeys[m] == current;
        GetAt(sections, m);
        var acc := GetOr(sections, current, "");
        SetAt(sections, current, acc + line + "\n", m);
        sections' := Set(sections, current, acc + line + "\n");
        RawBody(before, line, text, m);
      }
    }
  }

  /** The line loop of `extract_sections`: the dictionary it leaves is `RawAfter`. */
  method ScanLines(text: string) returns (sections: Dict)
    ensures sections == RawAfter(StrippedLines(text), text)
  {
    sections := [ Entry("title", ""), Entry("abstract", ""), Entry("introduction", ""),
                  Entry("methodology", ""), Entry("results", ""), Entry("conclusion", ""),
                  Entry("references", ""), Entry("full_text", text) ];
    assert sections == RawAfter([], text);
    var lines := Split(text, '\n');
    ghost var ls := StrippedLines(text);
    var current := "introduction";
    var i := 0;
    assert ls[..0] == [];
    while i < |lines|
      invariant 0 <= i <= |lines| == |ls|
      invariant current == CursorAfter(ls[..i]).current
      invariant sections == RawAfter(ls[..i], text)
    {
      var line := Strip(lines[i]);
      PrefixSnoc(ls, i);
      sections, current := ScanLine(ls[..i], text, sections, current, line);
      i := i + 1;
    }
    assert ls[..i] == ls;
  }

  /** `extract_sections` on already-extracted text. */
  method ExtractSections(text: string) returns (sections: Dict)
    ensures sections == Segment(text)
    ensures Keys(sections) == SectionKeys
    ensures Get(sections, "full_text") == Some(Strip(text))
  {
    sections := ScanLines(text);
    SectionKeysDistinct();
    sections := MapEach(sections, Strip);
    StripRaw(text);
    SegmentShape(text);
    GetAt(sections, 7);
  }

  // ----- `clean_text` -----

  predicate IsDigit(c: char)
  {
    '0' <= c <= '9'
  }

  /** The length of the run of digits that `s` starts with. */
  function DigitRun(s: string): (n: nat)
    ensures n <= |s|
    ensures forall i :: 0 <= i < n ==> IsDigit(s[i])
    ensures n == |s| || !IsDigit(s[n])
  {
    if s != [] && IsDigit(s[0]) then 1 + DigitRun(s[1..]) else 0
  }

  /** The length of a `--- Page N ---` marker at the start of `s`, if any. */
  function MarkerAt(s: string): (r: Option<nat>)
    ensures r.Some? ==> 14 <= r.value <= |s|
  {
    if !StartsWith(s, "--- Page ") then None
    else
      var d := DigitRun(s[9..]);
      if d > 0 && StartsWith(s[9 + d..], " ---") then Some(9 + d + 4) else None
  }

  /** `re.sub(r'--- Page \d+ ---', '', s)`: markers removed left to right. */
  function RemovePageMarkers(s: string): (r: string)
    ensures |r| <= |s|
    ensures forall x :: x in r ==> x in s
    decreases |s|
  {
    if s == [] then []
    else
      match MarkerAt(s)
      case Some(n) => RemovePageMarkers(s[n..])
      case None => [s[0]] + RemovePageMarkers(s[1..])
  }

  /** `clean_text`: collapse runs of '\n', then runs of ' ', then delete page
      markers, then strip. */
  function CleanText(text: string): (r: string)
    ensures IsStripped(r)
  {
    Strip(RemovePageMarkers(Squeeze(Squeeze(text, '\n'), ' ')))
  }

  /** No position of `s` starts a page marker. */
  predicate NoMarker(s: string)
  {
    forall i :: 0 <= i < |s| ==> MarkerAt(s[i..]).None?
  }

  /** Text without markers passes the marker step unchanged. */
  lemma {:induction false} NoMarkerUnchanged(s: string)
    requires NoMarker(s)
    ensures RemovePageMarkers(s) == s
    decreases |s|
  {
    if s != [] {
      assert MarkerAt(s[0..]).None? && s[0..] == s;
      assert NoMarker(s[1..]) by {
        forall i | 0 <= i < |s[1..]| ensures MarkerAt(s[1..][i..]).None? {
          assert s[1..][i..] == s[i + 1..];
        }
      }
      NoMarkerUnchanged(s[1..]);
      assert [s[0]] + s[1..] == s;
    }
  }

  /** When the squeezed text holds no marker, `clean_text` leaves no run of
      newlines and no run of spaces. */
  lemma CleanTextNoRuns(text: string)
    requires NoMarker(Squeeze(Squeeze(text, '\n'), ' '))
    ensures NoRun(CleanText(text), '\n') && NoRun(CleanText(text), ' ')
  {
    var t := Squeeze(Squeeze(text, '\n'), ' ');
    NoMarkerUnchanged(t);
    SqueezeKeepsNoRun(Squeeze(text, '\n'), '\n', ' ');
    StripKeepsNoRun(t, '\n');
    StripKeepsNoRun(t, ' ');
  }

  /** The sample page: a marker between "a" and "b", set off on both sides by
      the separator `c`, a newline or a space. */
  predicate IsSample(s: string, c: char)
  {
    (c == '\n' || c == ' ') && s == ['a', c] + "--- Page 1 ---" + [c, 'b']
  }

  /** The sample page has no run of newlines or spaces to collapse. */
  lemma SampleSqueezed(s: string, c: char)
    requires IsSample(s, c)
    ensures NoRun(s, '\n') && NoRun(s, ' ')
    ensures Squeeze(Squeeze(s, '\n'), ' ') == s
  {
    SampleChars(s, c);
    assert NoRun(s, '\n');
    assert NoRun(s, ' ');
    SqueezeFixpoint(s, '\n');
    SqueezeFixpoint(s, ' ');
  }

  /** The characters of the sample page, one by one. */
  lemma SampleChars(s: string, c: char)
    requires IsSample(s, c)
    ensures |s| == 18 && s[0] == 'a' && s[1] == c && s[16] == c && s[17] == 'b'
    ensures s[2..16] == "--- Page 1 ---"
  {
  }

  /** The sample page starts with no marker, nor does it one character in. */
  lemma SampleStartsPlain(s: string, c: char)
    requires IsSample(s, c)
    ensures MarkerAt(s).None? && MarkerAt(s[1..]).None?
  {
    SampleChars(s, c);
    assert s[..9][0] == 'a';
    assert s[1..][..9][0] == c;
  }

  /** Two characters in, the sample page holds a 14-character marker. */
  lemma SampleMarkerAt(s: string, c: char)
    requires IsSample(s, c)
    ensures MarkerAt(s[2..]) == Some(14)
  {
    SampleChars(s, c);
    var m := s[2..];
    assert m[..14] == s[2..16];
    MarkerText(m);
  }

  /** A text opening with "--- Page 1 ---" holds a 14-character marker. */
  lemma MarkerText(m: string)
    requires |m| >= 14 && m[..14] == "--- Page 1 ---"
    ensures MarkerAt(m) == Some(14)
  {
    assert m[..9] == "--- Page ";
    assert m[9..][0] == '1' && m[9..][1] == ' ';
    assert DigitRun(m[9..][1..]) == 0;
    assert m[10..][..4] == " ---";
  }

  /** Text shorter than a marker passes the marker step unchanged. */
  lemma ShortUnchanged(t: string)
    requires |t| < 14
    ensures RemovePageMarkers(t) == t
  {
    forall i | 0 <= i < |t|
      ensures MarkerAt(t[i..]).None?
    {
      assert |t[i..]| < 14;
    }
    NoMarkerUnchanged(t);
  }

  /** Deleting the marker from the sample page leaves the two separators
      around it. */
  lemma SampleMarkerRemoved(s: string, c: char)
    requires IsSample(s, c)
    ensures RemovePageMarkers(s) == s[..2] + s[16..]
  {
    SampleChars(s, c);
    SampleStartsPlain(s, c);
    SampleMarkerAt(s, c);
    MarkerAfterTwo(s);
  }

  /** Two plain characters, a 14-character marker, then a short tail: only
      the marker goes. */
  lemma MarkerAfterTwo(s: string)
    requires 16 <= |s| < 30
    requires MarkerAt(s).None? && MarkerAt(s[1..]).None? && MarkerAt(s[2..]) == Some(14)
    ensures RemovePageMarkers(s) == s[..2] + s[16..]
  {
    var m := s[2..];
    var t := s[16..];
    assert m[14..] == t;
    ShortUnchanged(t);
    RemoveMarkerStep(m, 14);
    var r1 := RemovePageMarkers(m);
    assert r1 == t;
    var u := s[1..];
    assert u[1..] == m;
    RemovePlainStep(u);
    assert RemovePageMarkers(u) == [s[1]] + t;
    RemovePlainStep(s);
    assert RemovePageMarkers(s) == [s[0]] + ([s[1]] + t);
    ConsTwo(s[..2], t);
  }

  /** A two-character prefix is two single characters. */
  lemma ConsTwo(p: string, t: string)
    requires |p| == 2
    ensures p + t == [p[0]] + ([p[1]] + t)
  {
    assert p == [p[0]] + [p[1]];
  }

  /** Where no marker starts, the first character is kept. */
  lemma RemovePlainStep(u: string)
    requires u != [] && MarkerAt(u).None?
    ensures RemovePageMarkers(u) == [u[0]] + RemovePageMarkers(u[1..])
  {
  }

  /** Where a marker of length `n` starts, it is dropped. */
  lemma RemoveMarkerStep(u: string, n: nat)
    requires u != [] && MarkerAt(u) == Some(n)
    ensures RemovePageMarkers(u) == RemovePageMarkers(u[n..])
  {
  }

  /** Markers are deleted after the runs are collapsed, so the separators on
      both sides of a marker end up next to each other: "a\n--- Page 1 ---\nb"
      cleans to "a\n\nb", an empty line, and "a --- Page 1 --- b" to "a  b",
      a doubled space. */
  lemma MarkerLeavesRun(s: string, c: char)
    requires IsSample(s, c)
    ensures CleanText(s) == ['a', c, c, 'b']
  {
    var r := s[..2] + s[16..];
    SampleSqueezed(s, c);
    SampleMarkerRemoved(s, c);
    SampleJoined(s, c);
    StripStripped(r);
  }

  /** So text that had no run of newlines or spaces can come out of
      `clean_text` with one: the guarantee of `CleanTextNoRuns` needs its
      marker-free premise. */
  lemma MarkerBreaksNoRun(s: string, c: char)
    requires IsSample(s, c)
    ensures NoRun(s, c) && !NoRun(CleanText(s), c)
  {
    SampleSqueezed(s, c);
    MarkerLeavesRun(s, c);
    var r := CleanText(s);
    assert r[1] == c && r[2] == c;
  }

  /** The sample page without its marker: stripped, with a doubled separator. */
  lemma SampleJoined(s: string, c: char)
    requires IsSample(s, c)
    ensures IsStripped(s[..2] + s[16..])
    ensures s[..2] + s[16..] == ['a', c, c, 'b']
  {
    SampleChars(s, c);
    var r := s[..2] + s[16..];
    assert r[0] == 'a' && r[3] == 'b';
    assert r[1] == c && r[2] == c;
  }
}
