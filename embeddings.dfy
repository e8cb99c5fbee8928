/** Chunk preparation: sections become documents in a fixed order, short
    sections are skipped, text is cleaned line by line, and long documents
    are split by an external splitter whose pieces are stamped with chunk
    metadata. */
module Embeddings {
  import opened Common
  import opened Text
  import opened Dicts

  /** The chunk fields `chunk.metadata.update` adds. */
  datatype ChunkInfo = ChunkInfo(chunkId: nat, totalChunks: nat, originalSection: string)

  /** A document's metadata; `chunk` is None until the document is split. */
  datatype Metadata = Metadata(section: string, sectionTitle: string, contentLength: nat, chunk: Option<ChunkInfo>)

  datatype Document = Document(content: string, metadata: Metadata)

  /** `text_splitter.split_documents([doc])`, seen through the texts of the
      pieces it returns; each piece carries a copy of the parent metadata. */
  type Splitter = string -> seq<string>

  const PrioritySections: seq<string> := ["abstract", "introduction", "methodology", "results", "conclusion"]

  /** Documents longer than this are split. */
  const ChunkSize := 800

  /** Sections whose stripped text is shorter than this are skipped. */
  const MinSectionLength := 50

  /** Lines whose stripped text is not longer than this are dropped. */
  const MinLineLength := 5

  /** Characters that make `_clean_content` drop a line. The lone surrogate
      U+D835 cannot occur in a string here, so U+FFFD is the only one left. */
  const BadChars: set<char> := {'\U{FFFD}'}

  /** Characters absent from cleaned text. */
  const Removed: set<char> := {'\U{2028}', '\U{2029}', '\U{FFFD}'}

  // ----- section order -----

  /** `[s for s in keys if s not in priority_sections and s != 'full_text']`. */
  function OtherSections(keys: seq<string>): (r: seq<string>)
    ensures forall n :: n in r <==> n in keys && n !in PrioritySections && n != "full_text"
    ensures |r| <= |keys|
    decreases |keys|
  {
    if keys == [] then []
    else
      var n := keys[|keys| - 1];
      OtherSections(keys[..|keys| - 1]) + (if n !in PrioritySections && n != "full_text" then [n] else [])
  }

  /** `priority_sections + other_sections`. */
  function SectionOrder(d: Dict): (r: seq<string>)
    ensures |r| >= 5 && r[..5] == PrioritySections
    ensures forall n :: n in r[5..] <==> HasKey(d, n) && n !in PrioritySections && n != "full_text"
    ensures "full_text" !in r
  {
    var r := PrioritySections + OtherSections(Keys(d));
    assert r[5..] == OtherSections(Keys(d));
    forall n ensures n in Keys(d) <==> HasKey(d, n) {
      if HasKey(d, n) {
        var i :| 0 <= i < |d| && d[i].key == n;
        assert Keys(d)[i] == n;
      }
    }
    r
  }

  /** The keys after the priority ones keep the dict's insertion order. */
  lemma {:induction false} OtherSectionsOrder(keys: seq<string>, i: nat, j: nat)
    requires i < j < |keys| && keys[i] != keys[j]
    requires keys[i] in OtherSections(keys) && keys[j] in OtherSections(keys)
    ensures exists a, b :: 0 <= a < b < |OtherSections(keys)| && OtherSections(keys)[a] == keys[i] && OtherSections(keys)[b] == keys[j]
    decreases |keys|
  {
    var pre := keys[..|keys| - 1];
    var o := OtherSections(pre);
    if j < |keys| - 1 {
      assert keys[i] == pre[i] && keys[j] == pre[j];
      OtherSectionsOrder(pre, i, j);
      var a, b :| 0 <= a < b < |o| && o[a] == keys[i] && o[b] == keys[j];
      assert OtherSections(keys)[a] == o[a] && OtherSections(keys)[b] == o[b];
    } else {
      assert keys[i] == pre[i];
      var a :| 0 <= a < |o| && o[a] == keys[i];
      assert OtherSections(keys)[a] == o[a];
      assert OtherSections(keys)[|o|] == keys[j];
    }
  }

  // ----- `_clean_content` -----

  /** `replace('\u2028', '\n').replace('\u2029', '\n\n')`. */
  function ReplaceSeparators(s: string): (r: string)
    ensures '\U{2028}' !in r && '\U{2029}' !in r
    ensures forall x :: x in r && x != '\n' ==> x in s
    decreases |s|
  {
    if s == [] then []
    else
      var head := if s[0] == '\U{2028}' then "\n" else if s[0] == '\U{2029}' then "\n\n" else [s[0]];
      head + ReplaceSeparators(s[1..])
  }

  /** The test a line must pass to be kept. */
  predicate KeepLine(line: string)
  {
    |Strip(line)| > MinLineLength && Avoids(line, BadChars)
  }

  /** The kept lines, in order. */
  function KeptLines(lines: seq<string>): (r: seq<string>)
    ensures |r| <= |lines|
    ensures forall i :: 0 <= i < |r| ==> KeepLine(r[i])
  {
    Filter(lines, KeepLine)
  }

  /** Every line that passes the test is kept. */
  lemma KeptLinesComplete(lines: seq<string>, j: nat)
    requires j < |lines| && KeepLine(lines[j])
    ensures lines[j] in KeptLines(lines)
  {
    FilterMembers(lines, KeepLine);
    assert lines[j] in lines;
  }

  /** The kept lines keep their relative order. */
  lemma KeptLinesOrder(lines: seq<string>)
    ensures IsSubseq(KeptLines(lines), lines)
  {
    FilterSubseq(lines, KeepLine);
  }

  /** What `_clean_content` returns. */
  function Cleaned(content: string): string
  {
    var kept := KeptLines(Split(ReplaceSeparators(content), '\n'));
    Strip(Squeeze(Squeeze(Join(kept, "\n"), '\n'), ' '))
  }

  /** `_clean_content(content)`. */
  method CleanContent(content: string) returns (r: string)
    ensures r == Cleaned(content)
  {
    var text := ReplaceSeparators(content);
    var lines := Split(text, '\n');
    var cleanedLines := FilterLines(lines);
    r := Strip(Squeeze(Squeeze(Join(cleanedLines, "\n"), '\n'), ' '));
  }

  /** The `cleaned_lines` loop of `_clean_content`. */
  method FilterLines(lines: seq<string>) returns (cleanedLines: seq<string>)
    ensures cleanedLines == KeptLines(lines)
  {
    cleanedLines := [];
    var i := 0;
    while i < |lines|
      invariant 0 <= i <= |lines|
      invariant cleanedLines == KeptLines(lines[..i])
    {
      var line := lines[i];
      FilterStep(lines, i, KeepLine);
      assert KeepLine(line) <==> |Strip(line)| > MinLineLength && '\U{FFFD}' !in line;
      if |Strip(line)| > MinLineLength && '\U{FFFD}' !in line {
        cleanedLines := cleanedLines + [line];
      }
      i := i + 1;
    }
    assert lines[..i] == lines;
  }

  /** Cleaned text has none of U+2028, U+2029, U+FFFD, no whitespace at
      either end, no "\n\n" and no two spaces in a row. */
  lemma CleanedShape(content: string)
    ensures Avoids(Cleaned(content), Removed)
    ensures IsStripped(Cleaned(content))
    ensures NoRun(Cleaned(content), '\n') && NoRun(Cleaned(content), ' ')
  {
    var text := ReplaceSeparators(content);
    var kept := KeptLines(Split(text, '\n'));
    forall i | 0 <= i < |kept| ensures Avoids(kept[i], Removed) {
      SplitPiecesIn(text, kept[i]);
    }
    JoinAvoids(kept, "\n", Removed);
    var j := Join(kept, "\n");
    var s1 := Squeeze(j, '\n');
    SqueezeKeepsNoRun(s1, '\n', ' ');
    StripKeepsNoRun(Squeeze(s1, ' '), '\n');
    StripKeepsNoRun(Squeeze(s1, ' '), ' ');
  }

  /** When no line is longer than five characters once stripped, cleaning
      leaves nothing; since the length test runs before cleaning, such a
      section can still yield a document with empty content. */
  lemma ShortLinesVanish(content: string)
    requires forall l :: l in Split(ReplaceSeparators(content), '\n') ==> |Strip(l)| <= MinLineLength
    ensures Cleaned(content) == ""
  {
    var lines := Split(ReplaceSeparators(content), '\n');
    forall j | 0 <= j < |lines| ensures !KeepLine(lines[j]) {
      assert lines[j] in lines;
    }
    FilterNone(lines, KeepLine);
  }

  /** A piece of the split of separator-free text has no separator; a kept
      piece has no U+FFFD either. */
  lemma SplitPiecesIn(text: string, line: string)
    requires '\U{2028}' !in text && '\U{2029}' !in text
    requires line in KeptLines(Split(text, '\n'))
    ensures Avoids(line, Removed)
  {
    var parts := Split(text, '\n');
    KeptLinesOrder(parts);
    SubseqElements(KeptLines(parts), parts);
    assert line in parts && KeepLine(line);
    var k :| 0 <= k < |parts| && parts[k] == line;
    SplitJoin(parts, '\n');
    JoinContainsPart(parts, "\n", k);
    forall x | x in line ensures x in text {
      ContainsChar(text, line, x);
    }
  }

  // ----- `process_paper_sections` -----

  /** A section produces a document: present, not `full_text`, non-empty,
      and at least 50 characters once stripped (tested before cleaning). */
  predicate Kept(d: Dict, name: string)
  {
    HasKey(d, name) && GetOr(d, name, "") != "" && name != "full_text"
      && |Strip(GetOr(d, name, ""))| >= MinSectionLength
  }

  /** The document built for a kept section. */
  function MakeDoc(d: Dict, name: string): (doc: Document)
    ensures doc.content == Cleaned(Strip(GetOr(d, name, "")))
    ensures doc.metadata == Metadata(name, TitleCase(name), |doc.content|, None)
  {
    var content := Cleaned(Strip(GetOr(d, name, "")));
    Document(content, Metadata(name, TitleCase(name), |content|, None))
  }

  /** The documents the first loop builds from the sections named in `names`. */
  function SectionDocs(d: Dict, names: seq<string>): seq<Document>
  {
    FlatMap(names, DocOf(d))
  }

  /** The document of one name: none unless the section is kept. */
  function DocOf(d: Dict): string -> seq<Document>
  {
    n => if Kept(d, n) then [MakeDoc(d, n)] else []
  }

  /** A section gets a document exactly when it is kept, and that document
      is the one `MakeDoc` builds. */
  lemma {:induction false} SectionDocsSpec(d: Dict, names: seq<string>)
    ensures forall doc :: doc in SectionDocs(d, names) ==>
              Kept(d, doc.metadata.section) && doc.metadata.section in names && doc == MakeDoc(d, doc.metadata.section)
    ensures forall n :: n in names && Kept(d, n) ==> MakeDoc(d, n) in SectionDocs(d, names)
    decreases |names|
  {
    if names != [] {
      var pre := names[..|names| - 1];
      var last := names[|names| - 1];
      SectionDocsSpec(d, pre);
      assert SectionDocs(d, names) == SectionDocs(d, pre) + DocOf(d)(last);
      assert forall n :: n in names ==> n in pre || n == last;
    }
  }

  /** Section documents follow `names`: the documents of earlier names come
      before those of later ones. */
  lemma SectionDocsAppend(d: Dict, a: seq<string>, b: seq<string>)
    ensures SectionDocs(d, a + b) == SectionDocs(d, a) + SectionDocs(d, b)
  {
    FlatMapAppend(a, b, DocOf(d));
  }

  /** `chunk.metadata.update(...)` on every piece: chunk `i` of `n` of the
      parent's section, on top of a copy of the parent's metadata. */
  function Stamp(parent: Document, pieces: seq<string>): (chunks: seq<Document>)
    ensures |chunks| == |pieces|
    ensures forall i :: 0 <= i < |pieces| ==>
      chunks[i] == Document(pieces[i], parent.metadata.(chunk := Some(ChunkInfo(i, |pieces|, parent.metadata.section))))
  {
    seq(|pieces|, i requires 0 <= i < |pieces| =>
      Document(pieces[i], parent.metadata.(chunk := Some(ChunkInfo(i, |pieces|, parent.metadata.section)))))
  }

  /** What one document becomes: itself if short, its stamped pieces if long. */
  function Pieces(doc: Document, split: Splitter): seq<Document>
  {
    if |doc.content| > ChunkSize then Stamp(doc, split(doc.content)) else [doc]
  }

  /** The second loop: every document's pieces, in document order. */
  function SplitAll(docs: seq<Document>, split: Splitter): seq<Document>
  {
    FlatMap(docs, PiecesOf(split))
  }

  function PiecesOf(split: Splitter): Document -> seq<Document>
  {
    doc => Pieces(doc, split)
  }

  /** `process_paper_sections(sections)` as a specification. */
  function ProcessedDocs(d: Dict, split: Splitter): seq<Document>
  {
    SplitAll(SectionDocs(d, SectionOrder(d)), split)
  }

  /** The stamping loop of one long document. */
  method StampChunks(parent: Document, pieces: seq<string>) returns (chunks: seq<Document>)
    ensures chunks == Stamp(parent, pieces)
  {
    chunks := seq(|pieces|, i requires 0 <= i < |pieces| => Document(pieces[i], parent.metadata));
    var i := 0;
    while i < |chunks|
      invariant 0 <= i <= |chunks| == |pieces|
      invariant forall k :: 0 <= k < i ==> chunks[k] == Stamp(parent, pieces)[k]
      invariant forall k :: i <= k < |chunks| ==> chunks[k] == Document(pieces[k], parent.metadata)
    {
      var chunk := chunks[i];
      chunks := chunks[i := chunk.(metadata := chunk.metadata.(chunk := Some(ChunkInfo(i, |pieces|, parent.metadata.section))))];
      i := i + 1;
    }
  }

  /** The first loop of `process_paper_sections`. */
  method BuildSectionDocs(sections: Dict, order: seq<string>) returns (documents: seq<Document>)
    ensures documents == SectionDocs(sections, order)
  {
    documents := [];
    var i := 0;
    while i < |order|
      invariant 0 <= i <= |order|
      invariant documents == SectionDocs(sections, order[..i])
    {
      FlatMapStep(order, i, DocOf(sections));
      var name := order[i];
      if HasKey(sections, name) && GetOr(sections, name, "") != "" && name != "full_text" {
        var content := Strip(GetOr(sections, name, ""));
        if |content| >= MinSectionLength {
          content := CleanContent(content);
          assert DocOf(sections)(name) == [MakeDoc(sections, name)];
          documents := documents + [Document(content, Metadata(name, TitleCase(name), |content|, None))];
        } else {
          assert DocOf(sections)(name) == [];
        }
      } else {
        assert DocOf(sections)(name) == [];
      }
      i := i + 1;
    }
    assert order[..i] == order;
  }

  /** The second loop of `process_paper_sections`. */
  method SplitDocuments(documents: seq<Document>, split: Splitter) returns (splitDocs: seq<Document>)
    ensures splitDocs == SplitAll(documents, split)
  {
    splitDocs := [];
    var j := 0;
    while j < |documents|
      invariant 0 <= j <= |documents|
      invariant splitDocs == SplitAll(documents[..j], split)
    {
      FlatMapStep(documents, j, PiecesOf(split));
      var doc := documents[j];
      if |doc.content| > ChunkSize {
        var chunks := StampChunks(doc, split(doc.content));
        splitDocs := splitDocs + chunks;
      } else {
        splitDocs := splitDocs + [doc];
      }
      j := j + 1;
    }
    assert documents[..j] == documents;
  }

  /** `process_paper_sections(sections)` with the splitter `split`. */
  method ProcessPaperSections(sections: Dict, split: Splitter) returns (splitDocs: seq<Document>)
    ensures splitDocs == ProcessedDocs(sections, split)
  {
    var order := SectionOrder(sections);
    var documents := BuildSectionDocs(sections, order);
    splitDocs := SplitDocuments(documents, split);
  }

  /** A document of at most 800 characters passes through alone and without
      chunk fields; a longer one becomes its stamped pieces. */
  lemma PiecesSpec(doc: Document, split: Splitter)
    ensures |doc.content| <= ChunkSize ==> Pieces(doc, split) == [doc]
    ensures |doc.content| > ChunkSize ==>
      var ps := split(doc.content);
      && |Pieces(doc, split)| == |ps|
      && forall i :: 0 <= i < |ps| ==>
           Pieces(doc, split)[i].content == ps[i]
           && Pieces(doc, split)[i].metadata.chunk == Some(ChunkInfo(i, |ps|, doc.metadata.section))
           && Pieces(doc, split)[i].metadata.section == doc.metadata.section
  {
  }

  /** Splitting keeps document order: the pieces of earlier documents come
      first. */
  lemma SplitAllAppend(a: seq<Document>, b: seq<Document>, split: Splitter)
    ensures SplitAll(a + b, split) == SplitAll(a, split) + SplitAll(b, split)
  {
    FlatMapAppend(a, b, PiecesOf(split));
  }

  /** Output order is section order, then chunk order: the pieces of the
      priority sections come first, and within them abstract precedes
      introduction, and so on. */
  lemma ProcessedOrder(d: Dict, split: Splitter)
    ensures ProcessedDocs(d, split) ==
      SplitAll(SectionDocs(d, PrioritySections), split) + SplitAll(SectionDocs(d, SectionOrder(d)[5..]), split)
  {
    var order := SectionOrder(d);
    assert order == PrioritySections + order[5..];
    SectionDocsAppend(d, PrioritySections, order[5..]);
    SplitAllAppend(SectionDocs(d, PrioritySections), SectionDocs(d, order[5..]), split);
  }

  /** Every output document comes from a kept section other than
      `full_text`; an unsplit one records its own cleaned length, a chunk
      records its parent's. */
  lemma {:induction false} SplitAllOrigin(docs: seq<Document>, split: Splitter, out: Document)
    requires out in SplitAll(docs, split)
    ensures exists doc :: doc in docs && out.metadata.section == doc.metadata.section
                          && out.metadata.sectionTitle == doc.metadata.sectionTitle
                          && out.metadata.contentLength == doc.metadata.contentLength
                          && (out.metadata.chunk.None? ==> out == doc && |doc.content| <= ChunkSize)
    decreases |docs|
  {
    var n := |docs| - 1;
    assert SplitAll(docs, split) == SplitAll(docs[..n], split) + Pieces(docs[n], split);
    if out in SplitAll(docs[..n], split) {
      SplitAllOrigin(docs[..n], split, out);
      var doc :| doc in docs[..n] && out.metadata.section == doc.metadata.section
                 && out.metadata.sectionTitle == doc.metadata.sectionTitle
                 && out.metadata.contentLength == doc.metadata.contentLength
                 && (out.metadata.chunk.None? ==> out == doc && |doc.content| <= ChunkSize);
      assert doc in docs;
    } else {
      assert out in Pieces(docs[n], split);
      assert docs[n] in docs;
    }
  }

  /** What `process_paper_sections` promises about each document it returns. */
  lemma ProcessedShape(d: Dict, split: Splitter, out: Document)
    requires out in ProcessedDocs(d, split)
    ensures Kept(d, out.metadata.section) && out.metadata.section != "full_text"
    ensures out.metadata.sectionTitle == TitleCase(out.metadata.section)
    ensures out.metadata.chunk.None? ==>
      && out.content == Cleaned(Strip(GetOr(d, out.metadata.section, "")))
      && out.metadata.contentLength == |out.content| <= ChunkSize
  {
    var docs := SectionDocs(d, SectionOrder(d));
    SplitAllOrigin(docs, split, out);
    SectionDocsSpec(d, SectionOrder(d));
  }

  /** A section gets an unsplit document or chunks exactly when it is kept. */
  lemma KeptSectionsCovered(d: Dict, name: string)
    ensures Kept(d, name) <==> MakeDoc(d, name) in SectionDocs(d, SectionOrder(d))
  {
    SectionDocsSpec(d, SectionOrder(d));
    if Kept(d, name) && name !in PrioritySections {
      assert name in SectionOrder(d)[5..];
    }
    if Kept(d, name) && name in PrioritySections {
      assert SectionOrder(d)[..5] == PrioritySections;
    }
  }
}
