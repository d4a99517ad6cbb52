/** The emitter and the segmenter are inverse to each other: segmenting the
    text the recommendation route streams gives back the three lists it was
    built from, whenever those lists are of the kind the segmenter itself
    produces. */
module LayoutRoundTrip {
  import opened Text
  import opened Lists
  import opened Segmenter

  // ---------------------------------------------------------------------
  // Text made of line-feed terminated lines
  // ---------------------------------------------------------------------

  /** Every line followed by a line feed. */
  function Terminated(lines: seq<string>): string
    decreases |lines|
  {
    if lines == [] then [] else Terminated(lines[..|lines| - 1]) + lines[|lines| - 1] + "\n"
  }

  lemma {:induction false} TerminatedAppend(a: seq<string>, b: seq<string>)
    ensures Terminated(a + b) == Terminated(a) + Terminated(b)
    decreases |b|
  {
    if b == [] {
      assert a + b == a;
    } else {
      var b' := b[..|b| - 1];
      TerminatedAppend(a, b');
      assert (a + b)[..|a + b| - 1] == a + b';
    }
  }

  lemma {:induction false} TerminatedCons(lines: seq<string>)
    requires lines != []
    ensures Terminated(lines) == lines[0] + "\n" + Terminated(lines[1..])
  {
    TerminatedAppend([lines[0]], lines[1..]);
    assert [lines[0]] + lines[1..] == lines;
    assert Terminated([lines[0]]) == Terminated([]) + lines[0] + "\n";
  }

  /** Splitting terminated lines gives the lines and the empty piece after
      the last line feed. */
  lemma {:induction false} SplitTerminated(lines: seq<string>)
    requires forall i :: 0 <= i < |lines| ==> '\n' !in lines[i]
    ensures Split(Terminated(lines), '\n') == lines + [""]
    decreases |lines|
  {
    if lines == [] {
    } else {
      TerminatedCons(lines);
      SplitTerminated(lines[1..]);
      SplitAtSeparator(lines[0], '\n', Terminated(lines[1..]));
      assert lines[0] + "\n" + Terminated(lines[1..]) == lines[0] + ['\n'] + Terminated(lines[1..]);
      assert [lines[0]] + (lines[1..] + [""]) == lines + [""];
    }
  }

  /** The handler's line cleaning of terminated lines is `Tidy` of those lines. */
  lemma CleanTerminated(lines: seq<string>)
    requires forall i :: 0 <= i < |lines| ==> '\n' !in lines[i]
    ensures CleanLines(Terminated(lines)) == Tidy(lines)
  {
    SplitTerminated(lines);
    TidySnoc(lines, "");
    assert TrimJs("") == "";
  }

  // ---------------------------------------------------------------------
  // The writes as lines
  // ---------------------------------------------------------------------

  lemma {:induction false} ConcatAppend(a: seq<string>, b: seq<string>)
    ensures Concat(a + b) == Concat(a) + Concat(b)
    decreases |a|
  {
    if a == [] {
      assert a + b == b;
    } else {
      ConcatAppend(a[1..], b);
      assert (a + b)[1..] == a[1..] + b;
    }
  }

  /** The line a numbered write puts on the stream, before trimming. */
  function NumberedLine(index: nat, entry: string): string {
    NatToString(index + 1) + ". " + entry
  }

  function NumberedLines(entries: seq<string>): (ls: seq<string>)
    ensures |ls| == |entries|
  {
    seq(|entries|, i requires 0 <= i < |entries| => NumberedLine(i, entries[i]))
  }

  lemma ConcatSingle(w: string)
    ensures Concat([w]) == w
  {
    assert Concat([w]) == w + Concat([]);
  }

  lemma {:induction false} NumberedWritesAsLines(entries: seq<string>)
    ensures Concat(NumberedWrites(entries)) == Terminated(NumberedLines(entries))
    decreases |entries|
  {
    if entries != [] {
      var n := |entries| - 1;
      var init := entries[..n];
      NumberedWritesAsLines(init);
      assert NumberedWrites(entries) == NumberedWrites(init) + [NumberedWrite(n, entries[n])];
      assert NumberedLines(entries)[..n] == NumberedLines(init);
      ConcatAppend(NumberedWrites(init), [NumberedWrite(n, entries[n])]);
      ConcatSingle(NumberedWrite(n, entries[n]));
    }
  }

  lemma {:induction false} RawWritesAsLines(entries: seq<string>)
    ensures Concat(RawWrites(entries)) == Terminated(entries)
    decreases |entries|
  {
    if entries != [] {
      var n := |entries| - 1;
      var init := entries[..n];
      RawWritesAsLines(init);
      assert RawWrites(entries) == RawWrites(init) + [entries[n] + "\n"];
      ConcatAppend(RawWrites(init), [entries[n] + "\n"]);
      ConcatSingle(entries[n] + "\n");
    }
  }

  /** The lines of the emitted text, in order. */
  function LayoutLines(disease: string, s: Sections): seq<string> {
    [DiseaseLabel, " " + disease, "", AlternativeTitle, ""] + NumberedLines(s.alternative)
    + ["", ConventionalTitle, ""] + NumberedLines(s.conventional)
    + ["", DisclaimerTitle, ""] + s.disclaimer
  }

  /** A short list of lines, terminated. */
  lemma TerminatedSmall(a: string, b: string, c: string)
    ensures Terminated([a]) == a + "\n"
    ensures Terminated([a, b]) == a + "\n" + b + "\n"
    ensures Terminated([a, b, c]) == a + "\n" + b + "\n" + c + "\n"
  {
    assert [a, b, c][..2] == [a, b];
    assert [a, b][..1] == [a];
    assert [a][..0] == [];
  }

  lemma FixedWritesAsLines(disease: string)
    ensures Concat([DiseaseWrite(disease), AlternativeTitle + "\n\n"])
      == Terminated([DiseaseLabel, " " + disease, "", AlternativeTitle, ""])
    ensures Concat(["\n" + ConventionalTitle + "\n\n"]) == Terminated(["", ConventionalTitle, ""])
    ensures Concat(["\n" + DisclaimerTitle + "\n\n"]) == Terminated(["", DisclaimerTitle, ""])
  {
    ConcatSingle("\n" + ConventionalTitle + "\n\n");
    ConcatSingle("\n" + DisclaimerTitle + "\n\n");
    ConcatAppend([DiseaseWrite(disease)], [AlternativeTitle + "\n\n"]);
    ConcatSingle(DiseaseWrite(disease));
    ConcatSingle(AlternativeTitle + "\n\n");
    TerminatedSmall(DiseaseLabel, " " + disease, "");
    TerminatedSmall(AlternativeTitle, "", "");
    TerminatedSmall("", ConventionalTitle, "");
    TerminatedSmall("", DisclaimerTitle, "");
    TerminatedAppend([DiseaseLabel, " " + disease, ""], [AlternativeTitle, ""]);
    assert [DiseaseLabel, " " + disease, ""] + [AlternativeTitle, ""] == [DiseaseLabel, " " + disease, "", AlternativeTitle, ""];
  }

  lemma LayoutAsLines(disease: string, s: Sections)
    ensures Concat(Layout(disease, s)) == Terminated(LayoutLines(disease, s))
  {
    var w0 := [DiseaseWrite(disease), AlternativeTitle + "\n\n"];
    var g0 := [DiseaseLabel, " " + disease, "", AlternativeTitle, ""];
    var w2 := ["\n" + ConventionalTitle + "\n\n"];
    var g2 := ["", ConventionalTitle, ""];
    var w4 := ["\n" + DisclaimerTitle + "\n\n"];
    var g4 := ["", DisclaimerTitle, ""];
    var na, nc, rd := NumberedWrites(s.alternative), NumberedWrites(s.conventional), RawWrites(s.disclaimer);
    var la, lc := NumberedLines(s.alternative), NumberedLines(s.conventional);

    FixedWritesAsLines(disease);
    NumberedWritesAsLines(s.alternative);
    NumberedWritesAsLines(s.conventional);
    RawWritesAsLines(s.disclaimer);

    ConcatAppend(w0, na);
    ConcatAppend(w0 + na, w2);
    ConcatAppend(w0 + na + w2, nc);
    ConcatAppend(w0 + na + w2 + nc, w4);
    ConcatAppend(w0 + na + w2 + nc + w4, rd);
    TerminatedAppend(g0, la);
    TerminatedAppend(g0 + la, g2);
    TerminatedAppend(g0 + la + g2, lc);
    TerminatedAppend(g0 + la + g2 + lc, g4);
    TerminatedAppend(g0 + la + g2 + lc + g4, s.disclaimer);
  }

  // ---------------------------------------------------------------------
  // How each line is read back
  // ---------------------------------------------------------------------

  /** Characters of an ordinal prefix: digits, the full stop, the blank. */
  predicate OrdinalChars(p: string) {
    forall i :: 0 <= i < |p| ==> IsAsciiDigit(p[i]) || p[i] == '.' || p[i] == ' '
  }

  /** The text after an ordinal prefix holds every keyword the line holds. */
  lemma KeywordFreeAfterOrdinal(p: string, e: string)
    requires OrdinalChars(p) && KeywordFree(e)
    ensures KeywordFree(p + e)
  {
    ToLowerAppend(p, e);
    var lp := ToLower(p);
    assert forall i :: 0 <= i < |lp| ==> lp[i] == p[i];
    assert 'a' !in lp && 'c' !in lp && 'd' !in lp;
    var low := ToLower(p + e);
    if Contains(low, AlternativeKeyword) { ContainsSkipPrefix(lp, ToLower(e), AlternativeKeyword); }
    if Contains(low, ConventionalKeyword) { ContainsSkipPrefix(lp, ToLower(e), ConventionalKeyword); }
    if Contains(low, DisclaimerKeyword) { ContainsSkipPrefix(lp, ToLower(e), DisclaimerKeyword); }
  }

  /** Trimming removes the blank a numbered write leaves after an empty entry. */
  lemma TrimJsTrailingBlank(s: string)
    requires s != [] && IsTrimmedJs(s)
    ensures TrimJs(s + " ") == s
  {
    assert TrimStart(s + " ", IsJsSpace) == s + " ";
    assert (s + " ")[..|s|] == s;
  }

  /** The ordinal in front of an entry once the line is trimmed: the number,
      the full stop and, before a non-empty entry, one blank. */
  function OrdinalPrefix(index: nat, e: string): (p: string)
    ensures OrdinalChars(p)
  {
    NatToString(index + 1) + (if e == [] then "." else ". ")
  }

  /** Trimming a numbered line drops only the blank after an empty entry. */
  lemma NumberedLineTrimmed(index: nat, e: string)
    requires IsTrimmedJs(e)
    ensures TrimJs(NumberedLine(index, e)) == OrdinalPrefix(index, e) + e
  {
    var p := OrdinalPrefix(index, e);
    if e == [] {
      assert NumberedLine(index, e) == p + " ";
      TrimJsTrailingBlank(p);
      assert p + e == p;
    } else {
      assert NumberedLine(index, e) == p + e;
      assert (p + e)[0] == p[0];
      assert (p + e)[|p + e| - 1] == e[|e| - 1];
      TrimJsOfTrimmed(p + e);
    }
  }

  /** Stripping the ordinal of a trimmed numbered line leaves the entry. */
  lemma OrdinalPrefixStripped(index: nat, e: string)
    requires e == [] || !IsJsSpace(e[0])
    ensures StripOrdinal(OrdinalPrefix(index, e) + e) == e
  {
    var digits := NatToString(index + 1);
    if e == [] {
      StripOrdinalNumbered(digits, "", e);
      assert digits + "." + "" + e == OrdinalPrefix(index, e) + e;
    } else {
      assert IsJsSpace(" "[0]);
      StripOrdinalNumbered(digits, " ", e);
      assert digits + "." + " " + e == OrdinalPrefix(index, e) + e;
    }
  }

  /** A numbered line, once trimmed, is read back as its entry. */
  lemma NumberedLineReadBack(index: nat, e: string)
    requires EntryOk(e)
    ensures TrimJs(NumberedLine(index, e)) != []
    ensures Classify(TrimJs(NumberedLine(index, e))) == Content(e)
  {
    var line := OrdinalPrefix(index, e) + e;
    NumberedLineTrimmed(index, e);
    KeywordFreeAfterOrdinal(OrdinalPrefix(index, e), e);
    OrdinalPrefixStripped(index, e);
    assert Classify(line) == Content(StripOrdinal(line));
  }

  /** The numbered lines as the segmenter sees them, once trimmed. */
  function TrimmedNumberedLines(entries: seq<string>): (ls: seq<string>)
    ensures |ls| == |entries|
  {
    seq(|entries|, i requires 0 <= i < |entries| => OrdinalPrefix(i, entries[i]) + entries[i])
  }

  /** Trimming a numbered list keeps one non-blank line per entry. */
  lemma {:induction false} TidyNumbered(entries: seq<string>)
    requires forall i :: 0 <= i < |entries| ==> IsTrimmedJs(entries[i])
    ensures Tidy(NumberedLines(entries)) == TrimmedNumberedLines(entries)
    decreases |entries|
  {
    if entries != [] {
      var n := |entries| - 1;
      TidyNumbered(entries[..n]);
      NumberedLineTrimmed(n, entries[n]);
      NumberedLinesInit(entries);
      TidyKeepsLast(NumberedLines(entries), OrdinalPrefix(n, entries[n]) + entries[n]);
    }
  }

  /** The numbered lines of all entries: those of all but the last, then
      the last one's; and likewise once trimmed. */
  lemma NumberedLinesInit(entries: seq<string>)
    requires entries != []
    ensures var n := |entries| - 1;
      && NumberedLines(entries)[..n] == NumberedLines(entries[..n])
      && NumberedLines(entries)[n] == NumberedLine(n, entries[n])
      && TrimmedNumberedLines(entries) == TrimmedNumberedLines(entries[..n]) + [OrdinalPrefix(n, entries[n]) + entries[n]]
  {
  }

  /** Each trimmed numbered line is read back as its entry. */
  lemma NumberedReadBack(entries: seq<string>)
    requires AllOk(entries)
    ensures forall i :: 0 <= i < |entries| ==>
      Classify(TrimmedNumberedLines(entries)[i]) == Content(entries[i])
  {
    forall i | 0 <= i < |entries|
      ensures Classify(TrimmedNumberedLines(entries)[i]) == Content(entries[i])
    {
      NumberedLineReadBack(i, entries[i]);
      NumberedLineTrimmed(i, entries[i]);
    }
  }

  /** Adds every text, in order, to the list of `section`. */
  function AddAll(lists: Sections, section: Section, texts: seq<string>): Sections
    decreases |texts|
  {
    if texts == [] then lists else Add(AddAll(lists, section, texts[..|texts| - 1]), section, texts[|texts| - 1])
  }

  /** Content lines under a section append their texts to its list and
      leave the current section alone. */
  lemma {:induction false} RunContent(st: ScanState, lines: seq<string>, texts: seq<string>)
    requires |lines| == |texts|
    requires forall i :: 0 <= i < |lines| ==> Classify(lines[i]) == Content(texts[i])
    ensures Run(st, lines) == ScanState(st.current, AddAll(st.lists, st.current, texts))
    decreases |lines|
  {
    if lines != [] {
      var n := |lines| - 1;
      RunContent(st, lines[..n], texts[..n]);
      assert texts[..n] == texts[..|texts| - 1];
    }
  }

  lemma {:induction false} AddAllAppends(lists: Sections, section: Section, texts: seq<string>)
    ensures AddAll(lists, section, texts) == match section
      case Unset => lists
      case Alternative => lists.(alternative := lists.alternative + texts)
      case Conventional => lists.(conventional := lists.conventional + texts)
      case Disclaimer => lists.(disclaimer := lists.disclaimer + texts)
    decreases |texts|
  {
    if texts != [] {
      var n := |texts| - 1;
      AddAllAppends(lists, section, texts[..n]);
      assert texts[..n] + [texts[n]] == texts;
    }
  }

  // ---------------------------------------------------------------------
  // The fixed lines
  // ---------------------------------------------------------------------

  lemma LabelIsContent()
    ensures KeywordFree(DiseaseLabel)
  {
    LowerCaseMissing(DiseaseLabel, 'l');
    var low := ToLower(DiseaseLabel);
    NotContainsMissingChar(low, AlternativeKeyword, 1);
    NotContainsMissingChar(low, ConventionalKeyword, 11);
    NotContainsMissingChar(low, DisclaimerKeyword, 4);
  }

  lemma AlternativeTitleLower()
    ensures ToLower(AlternativeTitle) == "**alternative medicine**"
  {
    ToLowerAppend("**Alternative", " Medicine**");
    assert ToLower("**Alternative") == "**alternative";
    assert ToLower(" Medicine**") == " medicine**";
  }

  lemma AlternativeTitleIsHeading()
    ensures Classify(AlternativeTitle) == Heading(Alternative)
  {
    AlternativeTitleLower();
    var h := "**alternative medicine**";
    assert StartsWith(h[2..], AlternativeKeyword);
    ContainsInSuffix(h, 2, AlternativeKeyword);
  }

  lemma ConventionalTitleLower()
    ensures ToLower(ConventionalTitle) == "**conventional medicine**"
  {
    ToLowerAppend("**Conventional", " Medicine**");
    assert ToLower("**Conventional") == "**conventional";
    assert ToLower(" Medicine**") == " medicine**";
  }

  lemma ConventionalTitleIsHeading()
    ensures Classify(ConventionalTitle) == Heading(Conventional)
  {
    ConventionalTitleLower();
    var h := "**conventional medicine**";
    assert StartsWith(h[2..], ConventionalKeyword);
    ContainsInSuffix(h, 2, ConventionalKeyword);
    ConventionalWithoutR(ConventionalTitle);
  }

  /** A line naming the conventional list and lacking the letter r is its heading. */
  lemma ConventionalWithoutR(line: string)
    requires 'r' !in line && 'R' !in line
    requires Contains(ToLower(line), ConventionalKeyword)
    ensures Classify(line) == Heading(Conventional)
  {
    MissingLetter(line, AlternativeKeyword, 4);
  }

  lemma DisclaimerTitleIsHeading()
    ensures Classify(DisclaimerTitle) == Heading(Disclaimer)
  {
    var h := "**disclaimer**";
    assert ToLower(DisclaimerTitle) == h;
    assert StartsWith(h[2..], DisclaimerKeyword);
    ContainsInSuffix(h, 2, DisclaimerKeyword);
    DisclaimerWithoutTO(DisclaimerTitle);
  }

  /** A line naming the disclaimer and lacking the letters t and o is its heading. */
  lemma DisclaimerWithoutTO(line: string)
    requires 't' !in line && 'T' !in line && 'o' !in line && 'O' !in line
    requires Contains(ToLower(line), DisclaimerKeyword)
    ensures Classify(line) == Heading(Disclaimer)
  {
    MissingLetter(line, AlternativeKeyword, 2);
    MissingLetter(line, ConventionalKeyword, 1);
  }

  /** A keyword with a letter that occurs in neither case in the text does
      not occur in the lower-cased text. */
  lemma MissingLetter(s: string, keyword: string, k: nat)
    requires k < |keyword| && IsAsciiLower(keyword[k])
    requires keyword[k] !in s && (keyword[k] as int - 32) as char !in s
    ensures !Contains(ToLower(s), keyword)
  {
    LowerCaseMissing(s, keyword[k]);
    NotContainsMissingChar(ToLower(s), keyword, k);
  }

  /** One piece, cleaned: kept trimmed unless blank. */
  lemma TidySingle(x: string)
    ensures Tidy([x]) == if TrimJs(x) != [] then [TrimJs(x)] else []
  {
    assert [x][..0] == [];
  }

  /** A trimmed title between blank lines is the only line left. */
  lemma TidyTitleGroup(title: string)
    requires title != [] && IsTrimmedJs(title)
    ensures Tidy([title, ""]) == [title]
    ensures Tidy(["", title, ""]) == [title]
  {
    TrimJsOfTrimmed(title);
    TidySingle("");
    TidySingle(title);
    TidyDropsBlankLast([title, ""]);
    assert [title, ""][..1] == [title];
    TidyDropsBlankLast(["", title, ""]);
    assert ["", title, ""][..2] == ["", title];
    TidyKeepsLast(["", title], title);
    assert ["", title][..1] == [""];
  }

  /** The disease lines, cleaned: the label, then the disease unless blank. */
  lemma TidyDiseaseLines(first: string, disease: string)
    requires first != [] && IsTrimmedJs(first)
    ensures var t := TrimJs(" " + disease);
      Tidy([first, " " + disease, ""]) == [first] + (if t != [] then [t] else [])
  {
    var d := " " + disease;
    TrimJsOfTrimmed(first);
    TidySingle(first);
    TidySingle("");
    assert [first, d, ""] == [first, d] + [""];
    TidySnoc([first, d], "");
    assert [first, d] == [first] + [d];
    TidySnoc([first], d);
  }

  /** A keyword-free first line and one more line fill no list. */
  lemma LabelLinesAddNothing(first: string, t: string)
    requires KeywordFree(first)
    ensures Run(InitialScan, [first]).lists == NoSections
    ensures Run(InitialScan, [first, t]).lists == NoSections
  {
    assert [first][..0] == [];
    assert Run(InitialScan, [first]) == Step(InitialScan, first);
    assert Classify(first).Content?;
    assert [first, t][..1] == [first];
    assert Run(InitialScan, [first, t]) == Step(Step(InitialScan, first), t);
  }

  /** A keyword-free first line and the disease line fill no list. */
  lemma HeadLinesAddNothing(first: string, disease: string)
    requires first != [] && IsTrimmedJs(first) && KeywordFree(first)
    ensures Run(InitialScan, Tidy([first, " " + disease, ""])).lists == NoSections
  {
    TidyDiseaseLines(first, disease);
    var t := TrimJs(" " + disease);
    LabelLinesAddNothing(first, t);
    if t != [] {
      assert [first] + [t] == [first, t];
    } else {
      assert [first] + [] == [first];
    }
  }

  /** The disease lines fill no list, whatever the disease says. */
  lemma DiseaseLinesAddNothing(disease: string)
    ensures Run(InitialScan, Tidy([DiseaseLabel, " " + disease, ""])).lists == NoSections
  {
    LabelIsContent();
    FixedLinesTrimmed();
    HeadLinesAddNothing(DiseaseLabel, disease);
  }

  // ---------------------------------------------------------------------
  // The round trip
  // ---------------------------------------------------------------------

  /** The emitted text, cleaned into lines. */
  function EmittedLines(disease: string, s: Sections): seq<string> {
    Tidy([DiseaseLabel, " " + disease, ""]) + ([AlternativeTitle] + TrimmedNumberedLines(s.alternative))
    + ([ConventionalTitle] + TrimmedNumberedLines(s.conventional))
    + ([DisclaimerTitle] + s.disclaimer)
  }

  /** Every entry is trimmed and a single line. */
  predicate SingleTrimmed(entries: seq<string>) {
    forall i :: 0 <= i < |entries| ==> IsTrimmedJs(entries[i]) && '\n' !in entries[i]
  }

  /** No line of the layout holds a line feed. */
  lemma LayoutLinesSingle(disease: string, s: Sections)
    requires '\n' !in disease
    requires SingleTrimmed(s.alternative) && SingleTrimmed(s.conventional) && SingleTrimmed(s.disclaimer)
    ensures forall i :: 0 <= i < |LayoutLines(disease, s)| ==> '\n' !in LayoutLines(disease, s)[i]
  {
    var la, lc := NumberedLines(s.alternative), NumberedLines(s.conventional);
    forall i | 0 <= i < |la| ensures '\n' !in la[i] {
      assert la[i] == NatToString(i + 1) + ". " + s.alternative[i];
    }
    forall i | 0 <= i < |lc| ensures '\n' !in lc[i] {
      assert lc[i] == NatToString(i + 1) + ". " + s.conventional[i];
    }
    assert '\n' !in " " + disease;
  }

  /** Cleaning distributes over the groups of the layout. */
  lemma TidyGroups(g: seq<string>, a: seq<string>, b: seq<string>, c: seq<string>, d: seq<string>, e: seq<string>, f: seq<string>)
    ensures Tidy(g + (a + b) + (c + d) + (e + f)) == Tidy(g) + (Tidy(a) + Tidy(b)) + (Tidy(c) + Tidy(d)) + (Tidy(e) + Tidy(f))
  {
    TidyAppend(g + (a + b) + (c + d), e + f);
    TidyAppend(g + (a + b), c + d);
    TidyAppend(g, a + b);
    TidyAppend(a, b);
    TidyAppend(c, d);
    TidyAppend(e, f);
  }

  /** The label and the three titles are non-blank and trimmed. */
  lemma FixedLinesTrimmed()
    ensures DiseaseLabel != [] && IsTrimmedJs(DiseaseLabel)
    ensures AlternativeTitle != [] && IsTrimmedJs(AlternativeTitle)
    ensures ConventionalTitle != [] && IsTrimmedJs(ConventionalTitle)
    ensures DisclaimerTitle != [] && IsTrimmedJs(DisclaimerTitle)
  {
    assert DiseaseLabel[0] == '*' && DiseaseLabel[|DiseaseLabel| - 1] == '*';
    assert AlternativeTitle[0] == '*' && AlternativeTitle[|AlternativeTitle| - 1] == '*';
    assert ConventionalTitle[0] == '*' && ConventionalTitle[|ConventionalTitle| - 1] == '*';
    assert DisclaimerTitle[0] == '*' && DisclaimerTitle[|DisclaimerTitle| - 1] == '*';
  }

  /** The layout's lines, grouped as head, then each title group with its list. */
  lemma Regroup<T>(head: seq<T>, x0: seq<T>, la: seq<T>, x1: seq<T>, lc: seq<T>, x2: seq<T>, ld: seq<T>)
    ensures head + x0 + la + x1 + lc + x2 + ld == head + (x0 + la) + (x1 + lc) + (x2 + ld)
  {
  }

  /** Cleaning a frame of trimmed titles, each between blank lines, around
      lists whose cleaning is known. */
  lemma TidyFrame(head: seq<string>, t0: string, t1: string, t2: string,
                  la: seq<string>, lc: seq<string>, ld: seq<string>, ea: seq<string>, ec: seq<string>)
    requires t0 != [] && IsTrimmedJs(t0) && t1 != [] && IsTrimmedJs(t1) && t2 != [] && IsTrimmedJs(t2)
    requires Tidy(la) == ea && Tidy(lc) == ec && Tidy(ld) == ld
    ensures Tidy(head + ([t0, ""] + la) + (["", t1, ""] + lc) + (["", t2, ""] + ld))
      == Tidy(head) + ([t0] + ea) + ([t1] + ec) + ([t2] + ld)
  {
    TidyGroups(head, [t0, ""], la, ["", t1, ""], lc, ["", t2, ""], ld);
    TidyTitleGroup(t0);
    TidyTitleGroup(t1);
    TidyTitleGroup(t2);
  }

  /** Cleaning the emitted text trims the numbered lines and drops the blank ones. */
  lemma CleanedLayout(disease: string, s: Sections)
    requires '\n' !in disease
    requires SingleTrimmed(s.alternative) && SingleTrimmed(s.conventional) && SingleTrimmed(s.disclaimer)
    requires forall i :: 0 <= i < |s.disclaimer| ==> s.disclaimer[i] != []
    ensures CleanLines(Concat(Layout(disease, s))) == EmittedLines(disease, s)
  {
    var lines := LayoutLines(disease, s);
    assert CleanLines(Concat(Layout(disease, s))) == Tidy(lines) by {
      LayoutAsLines(disease, s);
      LayoutLinesSingle(disease, s);
      CleanTerminated(lines);
    }
    TidyLayoutLines(disease, s);
  }

  /** The layout's lines, cleaned. */
  lemma TidyLayoutLines(disease: string, s: Sections)
    requires SingleTrimmed(s.alternative) && SingleTrimmed(s.conventional) && SingleTrimmed(s.disclaimer)
    requires forall i :: 0 <= i < |s.disclaimer| ==> s.disclaimer[i] != []
    ensures Tidy(LayoutLines(disease, s)) == EmittedLines(disease, s)
  {
    var g0 := [DiseaseLabel, " " + disease, ""];
    var la, lc := NumberedLines(s.alternative), NumberedLines(s.conventional);
    assert [DiseaseLabel, " " + disease, "", AlternativeTitle, ""] == g0 + [AlternativeTitle, ""];
    Regroup(g0, [AlternativeTitle, ""], la, ["", ConventionalTitle, ""], lc, ["", DisclaimerTitle, ""], s.disclaimer);
    TidyNumbered(s.alternative);
    TidyNumbered(s.conventional);
    TidyOfTidy(s.disclaimer);
    FixedLinesTrimmed();
    TidyFrame(g0, AlternativeTitle, ConventionalTitle, DisclaimerTitle, la, lc, s.disclaimer,
      TrimmedNumberedLines(s.alternative), TrimmedNumberedLines(s.conventional));
  }

  /** A heading followed by content lines: the section switches, then the
      texts are appended to its list. */
  lemma {:induction false} RunSection(st: ScanState, title: string, section: Section, lines: seq<string>, texts: seq<string>)
    requires Classify(title) == Heading(section)
    requires |lines| == |texts|
    requires forall i :: 0 <= i < |lines| ==> Classify(lines[i]) == Content(texts[i])
    ensures Run(st, [title] + lines) == ScanState(section, AddAll(st.lists, section, texts))
  {
    RunAppend(st, [title], lines);
    assert [title][..0] == [];
    assert Run(st, [title]) == st.(current := section);
    RunContent(st.(current := section), lines, texts);
  }

  /** The scan over a head that fills nothing, then three headings, each
      followed by content lines: each list receives the texts of the lines
      under its heading. */
  lemma RunSections(head: seq<string>, titles: seq<string>, la: seq<string>, lc: seq<string>, ld: seq<string>, s: Sections)
    requires Run(InitialScan, head).lists == NoSections
    requires |titles| == 3
    requires Classify(titles[0]) == Heading(Alternative)
    requires Classify(titles[1]) == Heading(Conventional)
    requires Classify(titles[2]) == Heading(Disclaimer)
    requires |la| == |s.alternative| && |lc| == |s.conventional| && |ld| == |s.disclaimer|
    requires forall i :: 0 <= i < |la| ==> Classify(la[i]) == Content(s.alternative[i])
    requires forall i :: 0 <= i < |lc| ==> Classify(lc[i]) == Content(s.conventional[i])
    requires forall i :: 0 <= i < |ld| ==> Classify(ld[i]) == Content(s.disclaimer[i])
    ensures Run(InitialScan, head + ([titles[0]] + la) + ([titles[1]] + lc) + ([titles[2]] + ld)).lists == s
  {
    var pa, pc, pd := [titles[0]] + la, [titles[1]] + lc, [titles[2]] + ld;
    var st0 := Run(InitialScan, head);
    var st1 := ScanState(Alternative, Sections(s.alternative, [], []));
    var st2 := ScanState(Conventional, Sections(s.alternative, s.conventional, []));
    assert Run(st0, pa) == st1 by {
      RunSection(st0, titles[0], Alternative, la, s.alternative);
      AddAllAppends(NoSections, Alternative, s.alternative);
      assert [] + s.alternative == s.alternative;
    }
    assert Run(st1, pc) == st2 by {
      RunSection(st1, titles[1], Conventional, lc, s.conventional);
      AddAllAppends(st1.lists, Conventional, s.conventional);
      assert [] + s.conventional == s.conventional;
    }
    assert Run(st2, pd).lists == s by {
      RunSection(st2, titles[2], Disclaimer, ld, s.disclaimer);
      AddAllAppends(st2.lists, Disclaimer, s.disclaimer);
      assert [] + s.disclaimer == s.disclaimer;
    }
    RunAppend(InitialScan, head, pa);
    RunAppend(InitialScan, head + pa, pc);
    RunAppend(InitialScan, head + pa + pc, pd);
  }

  /** Three headings, each followed by one content line, fill one entry per
      list (the lines grouped heading by heading). */
  lemma ScanHeadingPairs(h0: string, a: string, h1: string, c: string, h2: string, d: string, ta: string, tc: string, td: string)
    requires Classify(h0) == Heading(Alternative) && Classify(a) == Content(ta)
    requires Classify(h1) == Heading(Conventional) && Classify(c) == Content(tc)
    requires Classify(h2) == Heading(Disclaimer) && Classify(d) == Content(td)
    ensures Run(InitialScan, [] + ([h0] + [a]) + ([h1] + [c]) + ([h2] + [d])).lists == Sections([ta], [tc], [td])
  {
    assert Run(InitialScan, []) == InitialScan;
    RunSections([], [h0, h1, h2], [a], [c], [d], Sections([ta], [tc], [td]));
  }

  /** Segmenting the emitted text gives back the lists, provided every entry
      is one the segmenter could have produced (trimmed, one line, no
      heading keyword) and every disclaimer line is non-blank and does not
      start with an ordinal (the segmenter would strip it). */
  lemma SegmentOfEmitted(disease: string, s: Sections)
    requires '\n' !in disease
    requires AllOk(s.alternative) && AllOk(s.conventional) && AllOk(s.disclaimer)
    requires forall i :: 0 <= i < |s.disclaimer| ==> s.disclaimer[i] != [] && !HasOrdinalPrefix(s.disclaimer[i])
    ensures Scan(CleanLines(Concat(Layout(disease, s)))).lists == s
  {
    var head := Tidy([DiseaseLabel, " " + disease, ""]);
    var titles := [AlternativeTitle, ConventionalTitle, DisclaimerTitle];
    var la, lc := TrimmedNumberedLines(s.alternative), TrimmedNumberedLines(s.conventional);
    assert Run(InitialScan, head).lists == NoSections by {
      DiseaseLinesAddNothing(disease);
    }
    assert Classify(titles[0]) == Heading(Alternative) by {
      AlternativeTitleIsHeading();
    }
    assert Classify(titles[1]) == Heading(Conventional) by {
      ConventionalTitleIsHeading();
    }
    assert Classify(titles[2]) == Heading(Disclaimer) by {
      DisclaimerTitleIsHeading();
    }
    assert forall i :: 0 <= i < |la| ==> Classify(la[i]) == Content(s.alternative[i]) by {
      NumberedReadBack(s.alternative);
    }
    assert forall i :: 0 <= i < |lc| ==> Classify(lc[i]) == Content(s.conventional[i]) by {
      NumberedReadBack(s.conventional);
    }
    forall i | 0 <= i < |s.disclaimer|
      ensures Classify(s.disclaimer[i]) == Content(s.disclaimer[i])
    {
      StripOrdinalUnchangedIff(s.disclaimer[i]);
    }
    RunSections(head, titles, la, lc, s.disclaimer, s);
    assert CleanLines(Concat(Layout(disease, s))) == head + ([titles[0]] + la) + ([titles[1]] + lc) + ([titles[2]] + s.disclaimer) by {
      assert SingleTrimmed(s.alternative) && SingleTrimmed(s.conventional) && SingleTrimmed(s.disclaimer);
      CleanedLayout(disease, s);
    }
  }
}
