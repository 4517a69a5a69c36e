/**
 * `DocumentProcessor` of backend/app/services/document_processor.py:
 * cleaning of extracted text, packing of paragraphs into sections of at
 * most `chunk_size` characters, the header decoration of the parts of an
 * over-long section, and the dispatch on the file extension.
 *
 * PDF and DOCX extraction and LangChain's recursive character splitter
 * are library code and enter as function-valued parameters.
 */
module DocumentProcessor {
  import opened Common
  import opened Text

  // ---------------------------------------------------------------------
  // Text cleaning (`_preprocess_text`).
  // ---------------------------------------------------------------------

  /** `s.strip() == s` (see `StripFixed`). */
  predicate Stripped(s: string) {
    s == [] || (!IsSpace(s[0]) && !IsSpace(s[|s| - 1]))
  }

  lemma TidySnoc(lines: seq<string>, c: string)
    requires Tidy(lines) && Stripped(c)
    requires c == [] ==> lines != [] && lines[|lines| - 1] != []
    ensures Tidy(lines + [c])
  {
    var r := lines + [c];
    forall k | 0 <= k < |r| - 1 ensures NotBothEmpty(r, k) {
      if k < |lines| - 1 {
        assert NotBothEmpty(lines, k);
        assert r[k] == lines[k] && r[k + 1] == lines[k + 1];
      }
    }
  }

  /**
   * The shape of cleaned lines: every line is stripped, the first line is
   * not empty, and no two consecutive lines are empty.
   */
  predicate Tidy(lines: seq<string>) {
    && (forall k :: 0 <= k < |lines| ==> Stripped(lines[k]))
    && (lines != [] ==> lines[0] != [])
    && (forall k :: 0 <= k < |lines| - 1 ==> NotBothEmpty(lines, k))
  }

  /** Line `k` or line `k + 1` holds something. */
  predicate NotBothEmpty(lines: seq<string>, k: nat)
    requires k + 1 < |lines|
  {
    lines[k] != [] || lines[k + 1] != []
  }

  /**
   * `cleaned_lines` after the loop over `lines`: each stripped non-empty
   * line is kept, and a blank line becomes one empty line only right
   * after a non-empty one.
   */
  /** One turn of the cleaning loop, given the stripped line `c`. */
  function Step(prev: seq<string>, c: string): seq<string> {
    if c != [] then prev + [c]
    else if prev != [] && prev[|prev| - 1] != [] then prev + [[]]
    else prev
  }

  function CleanLines(lines: seq<string>): (r: seq<string>)
    ensures |r| <= |lines|
    decreases |lines|
  {
    if lines == [] then []
    else Step(CleanLines(lines[..|lines| - 1]), Strip(lines[|lines| - 1]))
  }

  /** One more step of the cleaning loop. */
  lemma CleanLinesSnoc(lines: seq<string>, line: string)
    ensures CleanLines(lines + [line]) == Step(CleanLines(lines), Strip(line))
  {
    assert (lines + [line])[..|lines|] == lines;
  }

  lemma {:induction false} CleanLinesTidy(lines: seq<string>)
    ensures Tidy(CleanLines(lines))
    decreases |lines|
  {
    if lines != [] {
      var init := lines[..|lines| - 1];
      CleanLinesTidy(init);
      var prev := CleanLines(init);
      var c := Strip(lines[|lines| - 1]);
      if c != [] {
        TidySnoc(prev, c);
      } else if prev != [] && prev[|prev| - 1] != [] {
        TidySnoc(prev, []);
      }
    }
  }

  lemma TidyInit(lines: seq<string>)
    requires Tidy(lines) && lines != []
    ensures Tidy(lines[..|lines| - 1])
  {
    var init := lines[..|lines| - 1];
    forall k | 0 <= k < |init| - 1 ensures NotBothEmpty(init, k) {
      assert NotBothEmpty(lines, k);
    }
  }

  /** A stripped line that does not follow an empty line is kept by the loop as it is. */
  lemma StepKeeps(init: seq<string>, last: string)
    requires Stripped(last)
    requires last == [] ==> init != [] && init[|init| - 1] != []
    ensures Step(init, Strip(last)) == init + [last]
  {
    StripFixed(last);
  }

  /** Cleaning leaves tidy lines as they are. */
  lemma {:induction false} CleanLinesFixed(lines: seq<string>)
    requires Tidy(lines)
    ensures CleanLines(lines) == lines
    decreases |lines|
  {
    if lines != [] {
      var init := lines[..|lines| - 1];
      var last := lines[|lines| - 1];
      assert init + [last] == lines;
      TidyInit(lines);
      CleanLinesFixed(init);
      assert Stripped(last);
      if last == [] {
        assert NotBothEmpty(lines, |init| - 1);
      }
      calc {
        CleanLines(lines);
        CleanLines(init + [last]);
        { CleanLinesSnoc(init, last); }
        Step(CleanLines(init), Strip(last));
        Step(init, Strip(last));
        { StepKeeps(init, last); }
        init + [last];
      }
    }
  }

  /** Cleaning keeps lines free of newlines. */
  lemma {:induction false} CleanLinesNoNewline(lines: seq<string>)
    requires forall k :: 0 <= k < |lines| ==> NoOccurrence(lines[k], "\n")
    ensures forall k :: 0 <= k < |CleanLines(lines)| ==> NoOccurrence(CleanLines(lines)[k], "\n")
    decreases |lines|
  {
    if lines != [] {
      var init := lines[..|lines| - 1];
      assert forall k :: 0 <= k < |init| ==> init[k] == lines[k];
      CleanLinesNoNewline(init);
      NoOccurrenceStrip(lines[|lines| - 1], "\n");
      assert NoOccurrence([], "\n");
    }
  }

  /** Cleaning cleaned lines changes nothing. */
  lemma CleanLinesIdempotent(lines: seq<string>)
    ensures CleanLines(CleanLines(lines)) == CleanLines(lines)
  {
    CleanLinesTidy(lines);
    CleanLinesFixed(CleanLines(lines));
  }

  /** `_preprocess_text`: the cleaned lines joined by newlines. */
  function Preprocessed(text: string): string {
    Join(CleanLines(SplitOn(text, "\n")), "\n")
  }

  /** The cleaning loop of `_preprocess_text`. */
  method PreprocessText(text: string) returns (r: string)
    ensures r == Preprocessed(text)
  {
    var lines := SplitOn(text, "\n");
    var cleanedLines: seq<string> := [];
    for i := 0 to |lines|
      invariant cleanedLines == CleanLines(lines[..i])
    {
      assert lines[..i + 1] == lines[..i] + [lines[i]];
      CleanLinesSnoc(lines[..i], lines[i]);
      var cleanedLine := Strip(lines[i]);
      if cleanedLine != [] {
        cleanedLines := cleanedLines + [cleanedLine];
      } else if cleanedLines != [] && cleanedLines[|cleanedLines| - 1] != [] {
        cleanedLines := cleanedLines + [[]];
      }
    }
    assert lines[..|lines|] == lines;
    r := Join(cleanedLines, "\n");
  }

  /** A line without a newline cannot let a newline start early when one follows it. */
  lemma NoNewlineBefore(p: string)
    requires NoOccurrence(p, "\n")
    ensures NoSepBefore(p, "\n")
  {
    forall i: nat | i < |p| ensures !OccursAt(p + "\n", "\n", i) {
      assert !OccursAt(p, "\n", i);
      assert (p + "\n")[i..i + 1] == p[i..i + 1];
    }
  }

  /** The lines of a non-empty cleaned text are its cleaned lines. */
  lemma PreprocessedLines(text: string)
    requires Preprocessed(text) != []
    ensures SplitOn(Preprocessed(text), "\n") == CleanLines(SplitOn(text, "\n"))
  {
    var cleaned := CleanLines(SplitOn(text, "\n"));
    CleanLinesNoNewline(SplitOn(text, "\n"));
    forall k | 0 <= k < |cleaned| ensures NoSepBefore(cleaned[k], "\n") {
      NoNewlineBefore(cleaned[k]);
    }
    SplitJoin(cleaned, "\n");
  }

  /** Every line of a cleaned text is stripped, the first is not empty, and no two consecutive lines are empty. */
  lemma PreprocessedTidy(text: string)
    ensures Preprocessed(text) == [] || Tidy(SplitOn(Preprocessed(text), "\n"))
  {
    if Preprocessed(text) != [] {
      PreprocessedLines(text);
      CleanLinesTidy(SplitOn(text, "\n"));
    }
  }

  /** Cleaning a cleaned text changes nothing. */
  lemma PreprocessIdempotent(text: string)
    ensures Preprocessed(Preprocessed(text)) == Preprocessed(text)
  {
    var once := Preprocessed(text);
    if once == [] {
      var empty: string := [];
      assert SplitOn(once, "\n") == [empty];
      assert CleanLines([empty]) == [] by {
        assert [empty][..0] == [];
        assert Strip(empty) == [];
      }
    } else {
      PreprocessedLines(text);
      CleanLinesIdempotent(SplitOn(text, "\n"));
    }
  }

  // ---------------------------------------------------------------------
  // Packing paragraphs into sections (`_split_by_structure`).
  // ---------------------------------------------------------------------

  /** The separator between paragraphs, and between the paragraphs of a section. */
  const ParagraphBreak: string := "\n\n"

  /**
   * The state of the packing loop: the sections already closed (each as
   * its list of paragraphs), `current_section` and `current_length`.
   */
  datatype Packing = Packing(groups: seq<seq<string>>, current: seq<string>, currentLength: int)

  /**
   * One turn of the packing loop on the stripped paragraph `p`. A blank
   * paragraph is skipped; a paragraph that would overflow a non-empty
   * section closes it and opens the next one, where `current_length`
   * becomes `|p| + carry`; any other paragraph joins the open section and
   * counts its length plus two for the separator.
   */
  function PackStep(st: Packing, p: string, chunkSize: int, carry: int): Packing {
    if p == [] then st
    else if st.currentLength + |p| > chunkSize && st.current != [] then
      Packing(st.groups + [st.current], [p], |p| + carry)
    else
      Packing(st.groups, st.current + [p], st.currentLength + |p| + 2)
  }

  /** The packing state after the loop has seen the stripped paragraphs `ps`. */
  function Packed(ps: seq<string>, chunkSize: int, carry: int): Packing
    decreases |ps|
  {
    if ps == [] then Packing([], [], 0)
    else PackStep(Packed(ps[..|ps| - 1], chunkSize, carry), ps[|ps| - 1], chunkSize, carry)
  }

  /** `paragraph.strip()` for every paragraph. */
  function StripEach(raws: seq<string>): seq<string> {
    seq(|raws|, i requires 0 <= i < |raws| => Strip(raws[i]))
  }

  /** The packing state after the loop has seen the raw paragraphs `raws`. */
  function PackWith(raws: seq<string>, chunkSize: int, carry: int): Packing {
    Packed(StripEach(raws), chunkSize, carry)
  }

  lemma PackedSnoc(ps: seq<string>, p: string, chunkSize: int, carry: int)
    ensures Packed(ps + [p], chunkSize, carry) == PackStep(Packed(ps, chunkSize, carry), p, chunkSize, carry)
  {
    assert (ps + [p])[..|ps|] == ps;
  }

  lemma PackWithSnoc(raws: seq<string>, raw: string, chunkSize: int, carry: int)
    ensures PackWith(raws + [raw], chunkSize, carry) == PackStep(PackWith(raws, chunkSize, carry), Strip(raw), chunkSize, carry)
  {
    assert StripEach(raws + [raw]) == StripEach(raws) + [Strip(raw)];
    PackedSnoc(StripEach(raws), Strip(raw), chunkSize, carry);
  }

  /** The groups after the last section is added. */
  function Close(st: Packing): seq<seq<string>> {
    if st.current != [] then st.groups + [st.current] else st.groups
  }

  /** Each group of paragraphs joined by blank lines. */
  function Sections(groups: seq<seq<string>>): seq<string> {
    seq(|groups|, i requires 0 <= i < |groups| => Join(groups[i], ParagraphBreak))
  }

  lemma SectionsSnoc(groups: seq<seq<string>>, g: seq<string>)
    ensures Sections(groups + [g]) == Sections(groups) + [Join(g, ParagraphBreak)]
  {
  }

  /**
   * What `_split_by_structure` returns when line 124 sets
   * `current_length` to `|p| + carry`: the sections, or `[text]` when
   * there are none.
   */
  function SectionsWith(text: string, chunkSize: int, carry: int): seq<string> {
    var secs := Sections(Close(PackWith(SplitOn(text, ParagraphBreak), chunkSize, carry)));
    if secs == [] then [text] else secs
  }

  /** `_split_by_structure` as written: line 124 leaves out the separator of the paragraph that opens a section. */
  function SplitByStructureAsWritten(text: string): seq<string> {
    SectionsWith(text, ChunkSize, 0)
  }

  /** `_split_by_structure` with `current_length` kept at the joined length plus two. */
  function StructureSections(text: string): seq<string> {
    SectionsWith(text, ChunkSize, 2)
  }

  /**
   * The packing loop of `_split_by_structure`, with `current_length` set
   * to the paragraph's length plus two when a paragraph opens a section
   * (see `AsWrittenOverflow` for the code as written).
   */
  method SplitByStructure(text: string) returns (sections: seq<string>)
    ensures sections == StructureSections(text)
  {
    var paragraphs := SplitOn(text, ParagraphBreak);
    sections := [];
    var currentSection: seq<string> := [];
    var currentLength := 0;
    for i := 0 to |paragraphs|
      invariant sections == Sections(PackWith(paragraphs[..i], ChunkSize, 2).groups)
      invariant currentSection == PackWith(paragraphs[..i], ChunkSize, 2).current
      invariant currentLength == PackWith(paragraphs[..i], ChunkSize, 2).currentLength
    {
      assert paragraphs[..i + 1] == paragraphs[..i] + [paragraphs[i]];
      PackWithSnoc(paragraphs[..i], paragraphs[i], ChunkSize, 2);
      var paragraph := Strip(paragraphs[i]);
      if paragraph != [] {
        if currentLength + |paragraph| > ChunkSize && currentSection != [] {
          SectionsSnoc(PackWith(paragraphs[..i], ChunkSize, 2).groups, currentSection);
          sections := sections + [Join(currentSection, ParagraphBreak)];
          currentSection := [paragraph];
          currentLength := |paragraph| + 2;
        } else {
          currentSection := currentSection + [paragraph];
          currentLength := currentLength + |paragraph| + 2;
        }
      }
    }
    assert paragraphs[..|paragraphs|] == paragraphs;
    if currentSection != [] {
      SectionsSnoc(PackWith(paragraphs, ChunkSize, 2).groups, currentSection);
      sections := sections + [Join(currentSection, ParagraphBreak)];
    }
    if sections == [] {
      sections := [text];
    }
  }

  /** The non-empty stripped paragraphs among `raws`, in order. */
  function Paragraphs(raws: seq<string>): (r: seq<string>)
    ensures forall k :: 0 <= k < |r| ==> r[k] != [] && Stripped(r[k])
    decreases |raws|
  {
    if raws == [] then []
    else
      var prev := Paragraphs(raws[..|raws| - 1]);
      var p := Strip(raws[|raws| - 1]);
      if p == [] then prev else prev + [p]
  }

  lemma ParagraphsSnoc(raws: seq<string>, raw: string)
    ensures Paragraphs(raws + [raw]) ==
      if Strip(raw) == [] then Paragraphs(raws) else Paragraphs(raws) + [Strip(raw)]
  {
    assert (raws + [raw])[..|raws|] == raws;
  }

  /**
   * The loop keeps every paragraph: the closed groups followed by the
   * open section are the paragraphs seen so far, no closed group is
   * empty, and the open section is empty only before the first paragraph.
   */
  predicate PackKeeps(st: Packing, paras: seq<string>) {
    && Flatten(st.groups) + st.current == paras
    && (forall g :: g in st.groups ==> g != [])
    && (st.current == [] ==> st.groups == [] && st.currentLength == 0)
  }

  lemma PackKeepsStep(st: Packing, paras: seq<string>, p: string, chunkSize: int, carry: int)
    requires PackKeeps(st, paras)
    ensures PackKeeps(PackStep(st, p, chunkSize, carry), if p == [] then paras else paras + [p])
  {
    if p != [] {
      if st.currentLength + |p| > chunkSize && st.current != [] {
        calc {
          Flatten(st.groups + [st.current]) + [p];
          { assert (st.groups + [st.current])[..|st.groups|] == st.groups; }
          Flatten(st.groups) + st.current + [p];
        }
      } else {
        assert Flatten(st.groups) + (st.current + [p]) == Flatten(st.groups) + st.current + [p];
      }
    }
  }

  lemma {:induction false} PackWithKeeps(raws: seq<string>, chunkSize: int, carry: int)
    ensures PackKeeps(PackWith(raws, chunkSize, carry), Paragraphs(raws))
    decreases |raws|
  {
    if raws != [] {
      var init := raws[..|raws| - 1];
      var last := raws[|raws| - 1];
      assert init + [last] == raws;
      PackWithKeeps(init, chunkSize, carry);
      PackWithSnoc(init, last, chunkSize, carry);
      ParagraphsSnoc(init, last);
      PackKeepsStep(PackWith(init, chunkSize, carry), Paragraphs(init), Strip(last), chunkSize, carry);
    }
  }

  /**
   * The closed sections hold exactly the non-empty stripped paragraphs, in
   * order, none of them is empty, and there is none only when there is no
   * paragraph.
   */
  lemma GroupsKeepParagraphs(raws: seq<string>, chunkSize: int, carry: int)
    ensures Flatten(Close(PackWith(raws, chunkSize, carry))) == Paragraphs(raws)
    ensures forall g :: g in Close(PackWith(raws, chunkSize, carry)) ==> g != []
    ensures Close(PackWith(raws, chunkSize, carry)) == [] <==> Paragraphs(raws) == []
  {
    var st := PackWith(raws, chunkSize, carry);
    PackWithKeeps(raws, chunkSize, carry);
    if st.current != [] {
      calc {
        Flatten(st.groups + [st.current]);
        { assert (st.groups + [st.current])[..|st.groups|] == st.groups; }
        Flatten(st.groups) + st.current;
      }
    } else {
      assert Flatten(st.groups) + st.current == Flatten(st.groups);
    }
  }

  /** A section of two or more paragraphs has at most `chunkSize` characters. */
  predicate Fits(g: seq<string>, chunkSize: int) {
    |g| >= 2 ==> |Join(g, ParagraphBreak)| <= chunkSize
  }

  /**
   * With line 124 counting the separator, `current_length` is the length
   * of the open section joined, plus two, and every section fits.
   */
  predicate PackFits(st: Packing, chunkSize: int) {
    && (forall g :: g in st.groups ==> Fits(g, chunkSize))
    && Fits(st.current, chunkSize)
    && (st.current != [] ==> st.currentLength == |Join(st.current, ParagraphBreak)| + 2)
  }

  lemma PackFitsStep(st: Packing, p: string, chunkSize: int)
    requires PackFits(st, chunkSize)
    requires st.current == [] ==> st.currentLength == 0
    ensures PackFits(PackStep(st, p, chunkSize, 2), chunkSize)
  {
    if p != [] && !(st.currentLength + |p| > chunkSize && st.current != []) && st.current != [] {
      JoinSnoc(st.current, p, ParagraphBreak);
    }
  }

  lemma {:induction false} PackWithFits(raws: seq<string>, chunkSize: int)
    ensures PackFits(PackWith(raws, chunkSize, 2), chunkSize)
    decreases |raws|
  {
    if raws != [] {
      var init := raws[..|raws| - 1];
      var last := raws[|raws| - 1];
      assert init + [last] == raws;
      PackWithFits(init, chunkSize);
      PackWithKeeps(init, chunkSize, 2);
      PackWithSnoc(init, last, chunkSize, 2);
      PackFitsStep(PackWith(init, chunkSize, 2), Strip(last), chunkSize);
    }
  }

  /** Every closed section of two or more paragraphs fits in `chunkSize`. */
  lemma GroupsFit(raws: seq<string>, chunkSize: int)
    ensures forall g :: g in Close(PackWith(raws, chunkSize, 2)) ==> Fits(g, chunkSize)
  {
    PackWithFits(raws, chunkSize);
  }

  /** A stripped paragraph without a blank line cannot let one start early when a blank line follows it. */
  lemma StrippedNoSepBefore(p: string)
    requires Stripped(p) && NoOccurrence(p, ParagraphBreak)
    ensures NoSepBefore(p, ParagraphBreak)
  {
    forall i: nat | i < |p| ensures !OccursAt(p + ParagraphBreak, ParagraphBreak, i) {
      if i + 2 <= |p| {
        assert !OccursAt(p, ParagraphBreak, i);
        assert (p + ParagraphBreak)[i..i + 2] == p[i..i + 2];
      } else {
        assert (p + ParagraphBreak)[i] == p[|p| - 1];
      }
    }
  }

  /** Stripping the pieces of a split keeps them free of blank lines. */
  lemma {:induction false} ParagraphsNoBreak(raws: seq<string>)
    requires forall k :: 0 <= k < |raws| ==> NoOccurrence(raws[k], ParagraphBreak)
    ensures forall k :: 0 <= k < |Paragraphs(raws)| ==> NoOccurrence(Paragraphs(raws)[k], ParagraphBreak)
    decreases |raws|
  {
    if raws != [] {
      var init := raws[..|raws| - 1];
      assert forall k :: 0 <= k < |init| ==> init[k] == raws[k];
      ParagraphsNoBreak(init);
      NoOccurrenceStrip(raws[|raws| - 1], ParagraphBreak);
    }
  }

  /** Paragraphs that may be joined by blank lines and split back. */
  predicate Separable(g: seq<string>) {
    g != [] && forall k :: 0 <= k < |g| ==> Stripped(g[k]) && NoOccurrence(g[k], ParagraphBreak)
  }

  /** Splitting a section on blank lines gives back its paragraphs. */
  lemma SectionSplits(g: seq<string>)
    requires Separable(g)
    ensures SplitOn(Join(g, ParagraphBreak), ParagraphBreak) == g
  {
    forall k | 0 <= k < |g| ensures NoSepBefore(g[k], ParagraphBreak) {
      StrippedNoSepBefore(g[k]);
    }
    SplitJoin(g, ParagraphBreak);
  }

  /** Each section split on blank lines. */
  function SplitEach(secs: seq<string>): seq<seq<string>> {
    seq(|secs|, i requires 0 <= i < |secs| => SplitOn(secs[i], ParagraphBreak))
  }

  /** The groups of a text with paragraphs can each be split back out of their section. */
  lemma GroupsSeparable(text: string, chunkSize: int, carry: int)
    ensures var groups := Close(PackWith(SplitOn(text, ParagraphBreak), chunkSize, carry));
      forall i :: 0 <= i < |groups| ==> Separable(groups[i])
  {
    var raws := SplitOn(text, ParagraphBreak);
    var groups := Close(PackWith(raws, chunkSize, carry));
    var paras := Paragraphs(raws);
    GroupsKeepParagraphs(raws, chunkSize, carry);
    ParagraphsNoBreak(raws);
    forall i | 0 <= i < |groups| ensures Separable(groups[i]) {
      assert groups[i] in groups;
      forall k | 0 <= k < |groups[i]|
        ensures Stripped(groups[i][k]) && NoOccurrence(groups[i][k], ParagraphBreak)
      {
        FlattenMember(groups, i, k);
      }
    }
  }

  /**
   * Splitting every section on blank lines and concatenating the pieces
   * gives exactly the non-empty stripped paragraphs of the text, in order.
   */
  lemma StructureKeepsParagraphs(text: string, chunkSize: int, carry: int)
    requires Paragraphs(SplitOn(text, ParagraphBreak)) != []
    ensures Flatten(SplitEach(SectionsWith(text, chunkSize, carry))) == Paragraphs(SplitOn(text, ParagraphBreak))
  {
    var raws := SplitOn(text, ParagraphBreak);
    var groups := Close(PackWith(raws, chunkSize, carry));
    GroupsKeepParagraphs(raws, chunkSize, carry);
    GroupsSeparable(text, chunkSize, carry);
    var secs := Sections(groups);
    assert |secs| == |groups| > 0;
    assert SectionsWith(text, chunkSize, carry) == secs;
    forall i | 0 <= i < |groups| ensures SplitEach(secs)[i] == groups[i] {
      SectionSplits(groups[i]);
    }
    assert SplitEach(secs) == groups;
  }

  /** A text without a non-empty paragraph comes back whole. */
  lemma StructureWithoutParagraphs(text: string, chunkSize: int, carry: int)
    requires Paragraphs(SplitOn(text, ParagraphBreak)) == []
    ensures SectionsWith(text, chunkSize, carry) == [text]
  {
    GroupsKeepParagraphs(SplitOn(text, ParagraphBreak), chunkSize, carry);
  }

  /** A section that splits into two or more paragraphs fits; a longer one is a single paragraph. */
  predicate SectionBound(sec: string) {
    && (|SplitOn(sec, ParagraphBreak)| >= 2 ==> |sec| <= ChunkSize)
    && (|sec| > ChunkSize ==> SplitOn(sec, ParagraphBreak) == [sec])
  }

  lemma GroupBound(g: seq<string>)
    requires Separable(g) && Fits(g, ChunkSize)
    ensures SectionBound(Join(g, ParagraphBreak))
  {
    SectionSplits(g);
  }

  /**
   * With line 124 counting the separator, a section of two or more
   * paragraphs has at most `chunk_size` characters, so a longer section
   * is a single paragraph.
   */
  lemma StructureBound(text: string)
    requires Paragraphs(SplitOn(text, ParagraphBreak)) != []
    ensures forall i :: 0 <= i < |StructureSections(text)| ==> SectionBound(StructureSections(text)[i])
  {
    var raws := SplitOn(text, ParagraphBreak);
    var groups := Close(PackWith(raws, ChunkSize, 2));
    GroupsKeepParagraphs(raws, ChunkSize, 2);
    GroupsSeparable(text, ChunkSize, 2);
    GroupsFit(raws, ChunkSize);
    forall i | 0 <= i < |groups| ensures SectionBound(Join(groups[i], ParagraphBreak)) {
      assert groups[i] in groups;
      GroupBound(groups[i]);
    }
  }

  /** A non-empty paragraph without whitespace joins and splits cleanly. */
  lemma SolidSeparable(p: string)
    requires p != [] && NoSpace(p)
    ensures Stripped(p) && NoOccurrence(p, ParagraphBreak)
  {
    forall i: nat | i <= |p| ensures !OccursAt(p, ParagraphBreak, i) {
      if i + 2 <= |p| {
        assert p[i..i + 2][0] == p[i];
      }
    }
  }

  /** The three paragraphs of 300, 250 and 250 letters that show the overflow. */
  function OverflowParagraphs(): (r: seq<string>)
    ensures |r| == 3 && |r[0]| == 300 && |r[1]| == 250 && |r[2]| == 250
    ensures Separable(r)
  {
    var r := [seq(300, _ => 'a'), seq(250, _ => 'b'), seq(250, _ => 'c')];
    SolidSeparable(r[0]);
    SolidSeparable(r[1]);
    SolidSeparable(r[2]);
    r
  }

  lemma OverflowSplits()
    ensures SplitOn(Join(OverflowParagraphs(), ParagraphBreak), ParagraphBreak) == OverflowParagraphs()
  {
    SectionSplits(OverflowParagraphs());
  }

  lemma PackedOne(a: string, carry: int)
    requires |a| == 300
    ensures Packed([a], ChunkSize, carry) == Packing([], [a], 302)
  {
    assert [a][..0] == [];
    assert [] + [a] == [a];
  }

  lemma PackedTwo(a: string, b: string, carry: int)
    requires |a| == 300 && |b| == 250
    ensures Packed([a, b], ChunkSize, carry) == Packing([[a]], [b], 250 + carry)
  {
    calc {
      Packed([a, b], ChunkSize, carry);
      { assert [a, b][..1] == [a]; }
      PackStep(Packed([a], ChunkSize, carry), b, ChunkSize, carry);
      { PackedOne(a, carry); }
      PackStep(Packing([], [a], 302), b, ChunkSize, carry);
    }
  }

  /** As written, the third paragraph joins the second. */
  lemma PackedThreeAsWritten(a: string, b: string, c: string)
    requires |a| == 300 && |b| == 250 && |c| == 250
    ensures Packed([a, b, c], ChunkSize, 0) == Packing([[a]], [b, c], 502)
  {
    calc {
      Packed([a, b, c], ChunkSize, 0);
      { assert [a, b, c][..2] == [a, b]; }
      PackStep(Packed([a, b], ChunkSize, 0), c, ChunkSize, 0);
      { PackedTwo(a, b, 0); }
      PackStep(Packing([[a]], [b], 250), c, ChunkSize, 0);
    }
  }

  /** With the separator counted, the third paragraph opens a section of its own. */
  lemma PackedThreeCorrected(a: string, b: string, c: string)
    requires |a| == 300 && |b| == 250 && |c| == 250
    ensures Packed([a, b, c], ChunkSize, 2) == Packing([[a], [b]], [c], 252)
  {
    calc {
      Packed([a, b, c], ChunkSize, 2);
      { assert [a, b, c][..2] == [a, b]; }
      PackStep(Packed([a, b], ChunkSize, 2), c, ChunkSize, 2);
      { PackedTwo(a, b, 2); }
      PackStep(Packing([[a]], [b], 252), c, ChunkSize, 2);
    }
  }

  /** Stripping stripped paragraphs changes nothing. */
  lemma StripEachFixed(ps: seq<string>)
    requires forall k :: 0 <= k < |ps| ==> Stripped(ps[k])
    ensures StripEach(ps) == ps
  {
    forall k | 0 <= k < |ps| ensures Strip(ps[k]) == ps[k] {
      StripFixed(ps[k]);
    }
  }

  /** The packing states of the overflow paragraphs, as written and corrected. */
  lemma OverflowPacked()
    ensures var ps := OverflowParagraphs();
      && PackWith(ps, ChunkSize, 0) == Packing([[ps[0]]], [ps[1], ps[2]], 502)
      && PackWith(ps, ChunkSize, 2) == Packing([[ps[0]], [ps[1]]], [ps[2]], 252)
  {
    var ps := OverflowParagraphs();
    StripEachFixed(ps);
    assert ps == [ps[0], ps[1], ps[2]];
    PackedThreeAsWritten(ps[0], ps[1], ps[2]);
    PackedThreeCorrected(ps[0], ps[1], ps[2]);
  }

  /**
   * As written, line 124 lets a section of two paragraphs grow to 502
   * characters: after a 300-character paragraph, a 250-character one
   * opens a new section counted as 250 instead of 252, so the next
   * 250-character paragraph still joins it.
   */
  lemma AsWrittenOverflow()
    ensures var secs := SplitByStructureAsWritten(Join(OverflowParagraphs(), ParagraphBreak));
      && |secs| == 2
      && |SplitOn(secs[1], ParagraphBreak)| == 2
      && |secs[1]| == 502 > ChunkSize
  {
    var ps := OverflowParagraphs();
    OverflowSplits();
    OverflowPacked();
    var g := [ps[1], ps[2]];
    assert Separable(g);
    SectionSplits(g);
    JoinSnoc([ps[1]], ps[2], ParagraphBreak);
    assert [ps[1]] + [ps[2]] == g;
  }

  /** With the separator counted, the same text keeps its three paragraphs in three sections. */
  lemma CorrectedNoOverflow()
    ensures StructureSections(Join(OverflowParagraphs(), ParagraphBreak)) == OverflowParagraphs()
  {
    var ps := OverflowParagraphs();
    OverflowSplits();
    OverflowPacked();
    assert [[ps[0]], [ps[1]]] + [[ps[2]]] == [[ps[0]], [ps[1]], [ps[2]]];
  }

  // ---------------------------------------------------------------------
  // Chunks with context headers (`_create_enhanced_chunks`).
  // ---------------------------------------------------------------------

  /**
   * The header put before part `j` of section `i` (both counted from
   * zero); it names the section only when the document has several.
   */
  function PartHeader(filename: string, i: nat, j: nat, multi: bool): string {
    if multi then
      "[Document: " + filename + " - Section " + NatToString(i + 1) + ", Part " + NatToString(j + 1) + "]\n\n"
    else
      "[Document: " + filename + " - Part " + NatToString(j + 1) + "]\n\n"
  }

  /** The first `n` parts of section `i`, each behind its header. */
  function HeadedParts(filename: string, i: nat, multi: bool, parts: seq<string>, n: nat): seq<string>
    requires n <= |parts|
  {
    if n == 0 then []
    else HeadedParts(filename, i, multi, parts, n - 1) + [PartHeader(filename, i, n - 1, multi) + parts[n - 1]]
  }

  /** There is one headed part per part, and part `j` sits behind the header naming section `i` and part `j`. */
  lemma {:induction false} HeadedPartsSpec(filename: string, i: nat, multi: bool, parts: seq<string>, n: nat)
    requires n <= |parts|
    ensures var r := HeadedParts(filename, i, multi, parts, n);
      |r| == n && forall j :: 0 <= j < n ==> r[j] == PartHeader(filename, i, j, multi) + parts[j]
  {
    if n > 0 {
      HeadedPartsSpec(filename, i, multi, parts, n - 1);
      var prev := HeadedParts(filename, i, multi, parts, n - 1);
      var r := HeadedParts(filename, i, multi, parts, n);
      assert r == prev + [PartHeader(filename, i, n - 1, multi) + parts[n - 1]];
      forall j | 0 <= j < n ensures r[j] == PartHeader(filename, i, j, multi) + parts[j] {
        if j < n - 1 {
          assert r[j] == prev[j];
        }
      }
    }
  }

  /** The chunks of section `i`: the section itself when it fits, else the splitter's parts behind headers. */
  function SectionChunks(filename: string, i: nat, section: string, multi: bool, split: string -> seq<string>): seq<string> {
    if |section| <= ChunkSize then [section]
    else HeadedParts(filename, i, multi, split(section), |split(section)|)
  }

  /** The chunks of the first `n` sections, in order. */
  function ChunksUpTo(sections: seq<string>, n: nat, filename: string, split: string -> seq<string>): seq<string>
    requires n <= |sections|
  {
    if n == 0 then []
    else ChunksUpTo(sections, n - 1, filename, split) + SectionChunks(filename, n - 1, sections[n - 1], |sections| > 1, split)
  }

  /** What `_create_enhanced_chunks` returns for `text`. */
  function EnhancedChunks(text: string, filename: string, split: string -> seq<string>): seq<string> {
    ChunksUpTo(StructureSections(text), |StructureSections(text)|, filename, split)
  }

  /** The inner loop of `_create_enhanced_chunks`: the parts of section `i`, each behind its header, appended to `chunks`. */
  method AppendHeadedParts(chunks: seq<string>, filename: string, i: nat, multi: bool, sectionChunks: seq<string>)
    returns (r: seq<string>)
    ensures r == chunks + HeadedParts(filename, i, multi, sectionChunks, |sectionChunks|)
  {
    r := chunks;
    for j := 0 to |sectionChunks|
      invariant r == chunks + HeadedParts(filename, i, multi, sectionChunks, j)
    {
      var enhancedChunk;
      if multi {
        enhancedChunk := "[Document: " + filename + " - Section " + NatToString(i + 1) + ", Part " + NatToString(j + 1) + "]\n\n" + sectionChunks[j];
      } else {
        enhancedChunk := "[Document: " + filename + " - Part " + NatToString(j + 1) + "]\n\n" + sectionChunks[j];
      }
      r := r + [enhancedChunk];
    }
  }

  /** The outer loop of `_create_enhanced_chunks`; `split` is the library's recursive splitter. */
  method CreateEnhancedChunks(text: string, filename: string, split: string -> seq<string>) returns (chunks: seq<string>)
    ensures chunks == EnhancedChunks(text, filename, split)
  {
    var sections := SplitByStructure(text);
    chunks := [];
    for i := 0 to |sections|
      invariant chunks == ChunksUpTo(sections, i, filename, split)
    {
      if |sections[i]| <= ChunkSize {
        chunks := chunks + [sections[i]];
      } else {
        chunks := AppendHeadedParts(chunks, filename, i, |sections| > 1, split(sections[i]));
      }
    }
  }

  /** When every section fits, the chunks are the sections themselves. */
  lemma {:induction false} ShortSectionsUnchanged(sections: seq<string>, n: nat, filename: string, split: string -> seq<string>)
    requires n <= |sections|
    requires forall i :: 0 <= i < |sections| ==> |sections[i]| <= ChunkSize
    ensures ChunksUpTo(sections, n, filename, split) == sections[..n]
  {
    if n > 0 {
      ShortSectionsUnchanged(sections, n - 1, filename, split);
      assert sections[..n] == sections[..n - 1] + [sections[n - 1]];
    }
  }

  /**
   * Every chunk comes from one section: it is that section when the
   * section fits, and otherwise one of the splitter's parts of it behind
   * the header naming its position.
   */
  predicate ChunkFrom(chunk: string, sections: seq<string>, i: nat, filename: string, split: string -> seq<string>)
    requires i < |sections|
  {
    if |sections[i]| <= ChunkSize then chunk == sections[i]
    else exists j :: 0 <= j < |split(sections[i])| && chunk == PartHeader(filename, i, j, |sections| > 1) + split(sections[i])[j]
  }

  /** The section that chunk `k` of the first `n` sections comes from. */
  lemma {:induction false} ChunkOrigin(sections: seq<string>, n: nat, filename: string, split: string -> seq<string>, k: nat)
    returns (i: nat)
    requires n <= |sections| && k < |ChunksUpTo(sections, n, filename, split)|
    ensures i < n && ChunkFrom(ChunksUpTo(sections, n, filename, split)[k], sections, i, filename, split)
  {
    var prev := ChunksUpTo(sections, n - 1, filename, split);
    var last := SectionChunks(filename, n - 1, sections[n - 1], |sections| > 1, split);
    assert ChunksUpTo(sections, n, filename, split) == prev + last;
    if k < |prev| {
      i := ChunkOrigin(sections, n - 1, filename, split, k);
    } else {
      i := n - 1;
      assert (prev + last)[k] == last[k - |prev|];
      if |sections[i]| > ChunkSize {
        var j := k - |prev|;
        HeadedPartsSpec(filename, i, |sections| > 1, split(sections[i]), |split(sections[i])|);
        assert (prev + last)[k] == PartHeader(filename, i, j, |sections| > 1) + split(sections[i])[j];
      }
    }
  }

  // ---------------------------------------------------------------------
  // Extension dispatch (`process_file`).
  // ---------------------------------------------------------------------

  const UnsupportedFileType := "Unsupported file type. Only PDF and DOCX are supported."

  predicate IsPdf(filename: string) { EndsWith(Lower(filename), ".pdf") }

  predicate IsDocx(filename: string) { EndsWith(Lower(filename), ".docx") }

  /**
   * The extracted text of an upload: a `.pdf` name, in any case, goes to
   * the PDF reader, a `.docx` name to the DOCX reader, and any other name
   * is refused.
   */
  function ExtractText(fileContent: seq<bv8>, filename: string,
                       extractPdf: seq<bv8> -> Result<string>, extractDocx: seq<bv8> -> Result<string>): (r: Result<string>)
    ensures r == Err(UnsupportedFileType) <== !IsPdf(filename) && !IsDocx(filename)
    ensures IsPdf(filename) ==> r == extractPdf(fileContent)
    ensures IsDocx(filename) ==> r == extractDocx(fileContent)
  {
    if IsPdf(filename) then
      var low := Lower(filename);
      assert low[|low| - 1] == ".pdf"[3] != ".docx"[4];
      extractPdf(fileContent)
    else if IsDocx(filename) then extractDocx(fileContent)
    else Err(UnsupportedFileType)
  }

  lemma LowerTwice(s: string)
    ensures Lower(Lower(s)) == Lower(s)
  {
  }

  /** The dispatch ignores the case of the file name. */
  lemma DispatchIgnoresCase(fileContent: seq<bv8>, filename: string,
                            extractPdf: seq<bv8> -> Result<string>, extractDocx: seq<bv8> -> Result<string>)
    ensures ExtractText(fileContent, Lower(filename), extractPdf, extractDocx)
         == ExtractText(fileContent, filename, extractPdf, extractDocx)
  {
    LowerTwice(filename);
  }

  /**
   * `process_file`: extract the text by extension, clean it, and cut it
   * into chunks; a failed extraction or an unsupported name is the error.
   */
  method ProcessFile(fileContent: seq<bv8>, filename: string,
                     extractPdf: seq<bv8> -> Result<string>, extractDocx: seq<bv8> -> Result<string>,
                     split: string -> seq<string>)
    returns (r: Result<(string, seq<string>)>)
    ensures !IsPdf(filename) && !IsDocx(filename) ==> r == Err(UnsupportedFileType)
    ensures var extracted := ExtractText(fileContent, filename, extractPdf, extractDocx);
      r == match extracted
        case Err(e) => Err(e)
        case Ok(raw) => Ok((Preprocessed(raw), EnhancedChunks(Preprocessed(raw), filename, split)))
  {
    var extracted := ExtractText(fileContent, filename, extractPdf, extractDocx);
    if extracted.Err? {
      return Err(extracted.error);
    }
    var text := PreprocessText(extracted.value);
    var chunks := CreateEnhancedChunks(text, filename, split);
    r := Ok((text, chunks));
  }
}
