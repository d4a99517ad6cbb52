/** The response segmenter and the stream emitter of the recommendation
    route: the generated text is cut into lines, each line either switches
    the current section (a heading) or is added, without its ordinal, to the
    list of the current section; the lists are then written back in a fixed
    layout with fresh numbering. */
module Segmenter {
  import opened Text
  import opened Lists

  /** The section tag the scan is in; `Unset` until the first heading. */
  datatype Section = Unset | Alternative | Conventional | Disclaimer

  /** The three lists the scan fills. */
  datatype Sections = Sections(alternative: seq<string>, conventional: seq<string>, disclaimer: seq<string>)

  /** The scan's variables: the current section and the lists so far. */
  datatype ScanState = ScanState(current: Section, lists: Sections)

  /** What a line is: a heading selecting a section, or content (already
      stripped of its ordinal). */
  datatype LineKind = Heading(section: Section) | Content(text: string)

  const AlternativeKeyword := "alternative medicine"
  const ConventionalKeyword := "conventional medicine"
  const DisclaimerKeyword := "disclaimer"

  const NoSections := Sections([], [], [])
  const InitialScan := ScanState(Unset, NoSections)

  // ---------------------------------------------------------------------
  // Line preparation
  // ---------------------------------------------------------------------

  /** The lines as the handler sees them: each trimmed, blank ones dropped
      (the `map(trim)` and `filter(length > 0)` over the split pieces). */
  function Tidy(pieces: seq<string>): (lines: seq<string>)
    ensures |lines| <= |pieces|
    decreases |pieces|
  {
    if pieces == [] then []
    else
      var rest := Tidy(pieces[..|pieces| - 1]);
      var t := TrimJs(pieces[|pieces| - 1]);
      if |t| > 0 then rest + [t] else rest
  }

  /** Every cleaned line is non-blank and trimmed. */
  lemma {:induction false} TidyTrimmed(pieces: seq<string>)
    ensures forall i :: 0 <= i < |Tidy(pieces)| ==> Tidy(pieces)[i] != [] && IsTrimmedJs(Tidy(pieces)[i])
    decreases |pieces|
  {
    if pieces != [] {
      var init, p := pieces[..|pieces| - 1], pieces[|pieces| - 1];
      TidyTrimmed(init);
      var t := TrimJs(p);
      assert IsTrimmedJs(t);
      if t == [] {
        TidyDropsBlankLast(pieces);
      } else {
        TidyKeepsLast(pieces, t);
      }
    }
  }

  /** `rawText.split("\n").map(trim).filter(nonEmpty)`. */
  function CleanLines(rawText: string): (lines: seq<string>)
    ensures forall i :: 0 <= i < |lines| ==> lines[i] != [] && IsTrimmedJs(lines[i]) && '\n' !in lines[i]
  {
    var pieces := Split(rawText, '\n');
    TidyTrimmed(pieces);
    TidyHasNoNewline(pieces);
    Tidy(pieces)
  }

  /** Trimming keeps a line free of line feeds. */
  lemma {:induction false} TidyHasNoNewline(pieces: seq<string>)
    requires forall i :: 0 <= i < |pieces| ==> '\n' !in pieces[i]
    ensures forall i :: 0 <= i < |Tidy(pieces)| ==> '\n' !in Tidy(pieces)[i]
    decreases |pieces|
  {
    if pieces != [] {
      var init, p := pieces[..|pieces| - 1], pieces[|pieces| - 1];
      TidyHasNoNewline(init);
      TrimChars(p, IsJsSpace);
      var rest, t := Tidy(init), TrimJs(p);
      assert '\n' !in t;
      assert Tidy(pieces) == if |t| > 0 then rest + [t] else rest;
    }
  }

  lemma {:induction false} TidyAppend(a: seq<string>, b: seq<string>)
    ensures Tidy(a + b) == Tidy(a) + Tidy(b)
    decreases |b|
  {
    if b == [] {
      assert a + b == a;
    } else {
      var b', last := b[..|b| - 1], b[|b| - 1];
      TidyAppend(a, b');
      AppendSnoc(a, b);
      TidySnoc(a + b', last);
      TidySnoc(b', last);
    }
  }

  /** Cleaning one more piece appends its trimmed text unless blank. */
  lemma TidySnoc(pieces: seq<string>, p: string)
    ensures Tidy(pieces + [p]) == Tidy(pieces) + (if TrimJs(p) != [] then [TrimJs(p)] else [])
  {
    assert (pieces + [p])[..|pieces|] == pieces;
  }

  /** A last piece that trims to a non-blank `t` adds `t` to the cleaned lines. */
  lemma TidyKeepsLast(pieces: seq<string>, t: string)
    requires pieces != [] && t == TrimJs(pieces[|pieces| - 1]) && t != []
    ensures Tidy(pieces) == Tidy(pieces[..|pieces| - 1]) + [t]
  {
  }

  /** A last piece that trims to nothing adds nothing to the cleaned lines. */
  lemma TidyDropsBlankLast(pieces: seq<string>)
    requires pieces != [] && TrimJs(pieces[|pieces| - 1]) == []
    ensures Tidy(pieces) == Tidy(pieces[..|pieces| - 1])
  {
  }

  /** Lines that are already trimmed and non-blank pass through unchanged:
      for such lines, joining with line feeds and cleaning is the identity. */
  lemma {:induction false} CleanLinesOfJoined(lines: seq<string>)
    requires |lines| >= 1
    requires forall i :: 0 <= i < |lines| ==> lines[i] != [] && IsTrimmedJs(lines[i]) && '\n' !in lines[i]
    ensures CleanLines(Join(lines, "\n")) == lines
  {
    SplitJoin(lines, '\n');
    TidyOfTidy(lines);
  }

  lemma {:induction false} TidyOfTidy(lines: seq<string>)
    requires forall i :: 0 <= i < |lines| ==> lines[i] != [] && IsTrimmedJs(lines[i])
    ensures Tidy(lines) == lines
    decreases |lines|
  {
    if lines != [] {
      TidyOfTidy(lines[..|lines| - 1]);
      TrimJsOfTrimmed(lines[|lines| - 1]);
      assert lines[..|lines| - 1] + [lines[|lines| - 1]] == lines;
    }
  }

  // ---------------------------------------------------------------------
  // Ordinal stripping: `line.replace(/^\d+\.\s*/, "")`
  // ---------------------------------------------------------------------

  /** The length of the run of ASCII digits that starts the line. */
  function LeadingDigits(s: string): (n: nat)
    ensures n <= |s|
    ensures forall i :: 0 <= i < n ==> IsAsciiDigit(s[i])
    ensures n == |s| || !IsAsciiDigit(s[n])
    decreases |s|
  {
    if s != [] && IsAsciiDigit(s[0]) then 1 + LeadingDigits(s[1..]) else 0
  }

  /** The line starts with one or more digits followed by a full stop. */
  predicate HasOrdinalPrefix(line: string) {
    exists n :: 0 < n < |line| && line[n] == '.' && forall i :: 0 <= i < n ==> IsAsciiDigit(line[i])
  }

  /** Removes one leading `<digits>.` and the white space after it. */
  function StripOrdinal(line: string): (r: string)
    ensures |r| <= |line| && r == line[|line| - |r|..]
  {
    var n := LeadingDigits(line);
    if 0 < n < |line| && line[n] == '.' then TrimStart(line[n + 1..], IsJsSpace) else line
  }

  /** The digit run before a full stop is the whole leading digit run. */
  lemma LeadingDigitsBeforeStop(line: string, n: nat)
    requires 0 < n < |line| && line[n] == '.'
    requires forall i :: 0 <= i < n ==> IsAsciiDigit(line[i])
    ensures LeadingDigits(line) == n
  {
  }

  /** A line is left unchanged exactly when it has no ordinal prefix. */
  lemma StripOrdinalUnchangedIff(line: string)
    ensures StripOrdinal(line) == line <==> !HasOrdinalPrefix(line)
  {
    if HasOrdinalPrefix(line) {
      var n :| 0 < n < |line| && line[n] == '.' && forall i :: 0 <= i < n ==> IsAsciiDigit(line[i]);
      LeadingDigitsBeforeStop(line, n);
      assert |StripOrdinal(line)| < |line|;
    } else {
      var n := LeadingDigits(line);
      assert !(0 < n < |line| && line[n] == '.');
    }
  }

  /** Exactly one ordinal and the white space after it are removed; whatever
      follows, another ordinal included, is kept. */
  lemma StripOrdinalNumbered(digits: string, blanks: string, rest: string)
    requires digits != [] && forall i :: 0 <= i < |digits| ==> IsAsciiDigit(digits[i])
    requires forall i :: 0 <= i < |blanks| ==> IsJsSpace(blanks[i])
    requires rest == [] || !IsJsSpace(rest[0])
    ensures StripOrdinal(digits + "." + blanks + rest) == rest
  {
    var tail := blanks + rest;
    var line := digits + ['.'] + tail;
    assert digits + "." + blanks + rest == line;
    assert line[|digits|] == '.';
    assert forall i :: 0 <= i < |digits| ==> line[i] == digits[i];
    LeadingDigitsBeforeStop(line, |digits|);
    assert line[|digits| + 1..] == tail;
    TrimStartPrefix(blanks, rest);
  }

  lemma {:induction false} TrimStartPrefix(blanks: string, rest: string)
    requires forall i :: 0 <= i < |blanks| ==> IsJsSpace(blanks[i])
    requires rest == [] || !IsJsSpace(rest[0])
    ensures TrimStart(blanks + rest, IsJsSpace) == rest
    decreases |blanks|
  {
    if blanks == [] {
      assert blanks + rest == rest;
    } else {
      assert (blanks + rest)[1..] == blanks[1..] + rest;
      TrimStartPrefix(blanks[1..], rest);
    }
  }

  /** A line holding only an ordinal, such as "3.", becomes an empty entry. */
  lemma OrdinalOnlyLine(digits: string)
    requires digits != [] && forall i :: 0 <= i < |digits| ==> IsAsciiDigit(digits[i])
    ensures StripOrdinal(digits + ".") == []
  {
    StripOrdinalNumbered(digits, [], []);
    assert digits + "." + [] + [] == digits + ".";
  }

  // ---------------------------------------------------------------------
  // Classification and the scan
  // ---------------------------------------------------------------------

  /** No heading keyword occurs in the lower-cased line. */
  predicate KeywordFree(line: string) {
    var low := ToLower(line);
    !Contains(low, AlternativeKeyword) && !Contains(low, ConventionalKeyword) && !Contains(low, DisclaimerKeyword)
  }

  /** Heading tests in their fixed order, else the ordinal-stripped content. */
  function Classify(line: string): (k: LineKind)
    ensures k.Heading? ==> k.section != Unset
    ensures k.Content? <==> KeywordFree(line)
  {
    var low := ToLower(line);
    if Contains(low, AlternativeKeyword) then Heading(Alternative)
    else if Contains(low, ConventionalKeyword) then Heading(Conventional)
    else if Contains(low, DisclaimerKeyword) then Heading(Disclaimer)
    else Content(StripOrdinal(line))
  }

  /** The heading tests run in a fixed order, alternative before conventional
      before disclaimer, and a content line keeps its ordinal-stripped text. */
  lemma ClassifyPrecedence(line: string)
    ensures var low, k := ToLower(line), Classify(line);
      && (Contains(low, AlternativeKeyword) ==> k == Heading(Alternative))
      && (!Contains(low, AlternativeKeyword) && Contains(low, ConventionalKeyword) ==>
            k == Heading(Conventional))
      && (!Contains(low, AlternativeKeyword) && !Contains(low, ConventionalKeyword) && Contains(low, DisclaimerKeyword) ==>
            k == Heading(Disclaimer))
      && (k.Content? ==> k.text == StripOrdinal(line))
  {
  }

  /** Adds `text` to the list of `section`; nothing happens while unset. */
  function Add(lists: Sections, section: Section, text: string): Sections {
    match section
    case Unset => lists
    case Alternative => lists.(alternative := lists.alternative + [text])
    case Conventional => lists.(conventional := lists.conventional + [text])
    case Disclaimer => lists.(disclaimer := lists.disclaimer + [text])
  }

  /** The effect of one classified line on the scan's variables. */
  function Apply(st: ScanState, kind: LineKind): ScanState {
    match kind
    case Heading(s) => st.(current := s)
    case Content(text) => st.(lists := Add(st.lists, st.current, text))
  }

  /** One iteration of the `forEach` body. */
  function Step(st: ScanState, line: string): ScanState {
    Apply(st, Classify(line))
  }

  /** The scan from state `st` over `lines`, one `Step` per line. */
  function Run(st: ScanState, lines: seq<string>): ScanState
    decreases |lines|
  {
    if lines == [] then st else Step(Run(st, lines[..|lines| - 1]), lines[|lines| - 1])
  }

  /** The scan from the initial state (no section, empty lists). */
  function Scan(lines: seq<string>): ScanState {
    Run(InitialScan, lines)
  }

  lemma {:induction false} RunAppend(st: ScanState, a: seq<string>, b: seq<string>)
    ensures Run(st, a + b) == Run(Run(st, a), b)
    decreases |b|
  {
    if b == [] {
      assert a + b == a;
    } else {
      RunAppend(st, a, b[..|b| - 1]);
      assert (a + b)[..|a + b| - 1] == a + b[..|b| - 1];
    }
  }

  // ---------------------------------------------------------------------
  // An independent description of the scan's result
  // ---------------------------------------------------------------------

  /** The classification of every line. */
  function Kinds(lines: seq<string>): (kinds: seq<LineKind>)
    ensures |kinds| == |lines|
    ensures forall i :: 0 <= i < |lines| ==> kinds[i] == Classify(lines[i])
  {
    seq(|lines|, i requires 0 <= i < |lines| => Classify(lines[i]))
  }

  /** The section of the most recent heading among the first `n` lines. */
  function ActiveSection(kinds: seq<LineKind>, n: nat): Section
    requires n <= |kinds|
  {
    if n == 0 then Unset
    else match kinds[n - 1]
      case Heading(s) => s
      case Content(_) => ActiveSection(kinds, n - 1)
  }

  /** Line `i` is content and the most recent heading before it selected `section`. */
  predicate BelongsTo(kinds: seq<LineKind>, i: nat, section: Section)
    requires i < |kinds|
  {
    kinds[i].Content? && ActiveSection(kinds, i) == section
  }

  /** The positions, among the first `n`, of the lines that belong to `section`. */
  function Positions(kinds: seq<LineKind>, section: Section, n: nat): (ps: seq<nat>)
    requires n <= |kinds|
    ensures forall k :: 0 <= k < |ps| ==> ps[k] < n && BelongsTo(kinds, ps[k], section)
    ensures forall k, l :: 0 <= k < l < |ps| ==> ps[k] < ps[l]
    ensures forall i :: 0 <= i < n && BelongsTo(kinds, i, section) ==> i in ps
  {
    if n == 0 then []
    else
      var ps := Positions(kinds, section, n - 1);
      if BelongsTo(kinds, n - 1, section) then ps + [n - 1] else ps
  }

  /** The texts of the content lines at positions `ps`, in that order. */
  function TextsAt(kinds: seq<LineKind>, ps: seq<nat>): (r: seq<string>)
    requires forall k :: 0 <= k < |ps| ==> ps[k] < |kinds| && kinds[ps[k]].Content?
    ensures |r| == |ps|
    ensures forall k :: 0 <= k < |ps| ==> kinds[ps[k]] == Content(r[k])
  {
    seq(|ps|, k requires 0 <= k < |ps| => kinds[ps[k]].text)
  }

  /** The entries the scan should have collected for `section`: the content
      lines that follow a heading for it (and no later heading), in order. */
  function Owned(lines: seq<string>, section: Section): seq<string> {
    var kinds := Kinds(lines);
    TextsAt(kinds, Positions(kinds, section, |kinds|))
  }

  /** The scan computes the independent description: the current section is
      that of the most recent heading, and each list holds, in input order,
      exactly the content lines belonging to its section. */
  lemma {:induction false} ScanIsOwnership(lines: seq<string>)
    ensures Scan(lines).current == ActiveSection(Kinds(lines), |lines|)
    ensures Scan(lines).lists == Sections(Owned(lines, Alternative), Owned(lines, Conventional), Owned(lines, Disclaimer))
  {
    ScanPrefix(lines, |lines|);
    assert lines[..|lines|] == lines;
  }

  /** The description restricted to the first `n` lines. */
  function OwnedUpTo(kinds: seq<LineKind>, n: nat): Sections
    requires n <= |kinds|
  {
    Sections(
      TextsAt(kinds, Positions(kinds, Alternative, n)),
      TextsAt(kinds, Positions(kinds, Conventional, n)),
      TextsAt(kinds, Positions(kinds, Disclaimer, n)))
  }

  lemma {:induction false} ScanPrefix(lines: seq<string>, n: nat)
    requires n <= |lines|
    ensures Scan(lines[..n]) == ScanState(ActiveSection(Kinds(lines), n), OwnedUpTo(Kinds(lines), n))
  {
    if n > 0 {
      var kinds := Kinds(lines);
      ScanPrefix(lines, n - 1);
      assert lines[..n][..n - 1] == lines[..n - 1];
      assert Scan(lines[..n]) == Apply(Scan(lines[..n - 1]), kinds[n - 1]);
      OwnedStep(kinds, n);
    }
  }

  /** Extending the description by one line has the effect of `Apply`. */
  lemma OwnedStep(kinds: seq<LineKind>, n: nat)
    requires 0 < n <= |kinds|
    ensures ScanState(ActiveSection(kinds, n), OwnedUpTo(kinds, n))
      == Apply(ScanState(ActiveSection(kinds, n - 1), OwnedUpTo(kinds, n - 1)), kinds[n - 1])
  {
    TextsAtStep(kinds, Alternative, n);
    TextsAtStep(kinds, Conventional, n);
    TextsAtStep(kinds, Disclaimer, n);
  }

  /** One more line adds its text to the list it belongs to, if any. */
  lemma TextsAtStep(kinds: seq<LineKind>, section: Section, n: nat)
    requires 0 < n <= |kinds|
    ensures TextsAt(kinds, Positions(kinds, section, n)) ==
      if BelongsTo(kinds, n - 1, section)
      then TextsAt(kinds, Positions(kinds, section, n - 1)) + [kinds[n - 1].text]
      else TextsAt(kinds, Positions(kinds, section, n - 1))
  {
    if BelongsTo(kinds, n - 1, section) {
      var ps := Positions(kinds, section, n - 1);
      assert Positions(kinds, section, n) == ps + [n - 1];
      TextsAtAppend(kinds, ps, n - 1);
    }
  }

  lemma TextsAtAppend(kinds: seq<LineKind>, ps: seq<nat>, j: nat)
    requires j < |kinds| && kinds[j].Content?
    requires forall k :: 0 <= k < |ps| ==> ps[k] < |kinds| && kinds[ps[k]].Content?
    ensures TextsAt(kinds, ps + [j]) == TextsAt(kinds, ps) + [kinds[j].text]
  {
  }

  /** Content lines seen before the first heading reach no list. */
  lemma {:induction false} NoHeadingNoEntries(lines: seq<string>)
    requires forall i :: 0 <= i < |lines| ==> Classify(lines[i]).Content?
    ensures Scan(lines) == InitialScan
    decreases |lines|
  {
    if lines != [] {
      NoHeadingNoEntries(lines[..|lines| - 1]);
    }
  }

  /** Every entry of a list is the stripped text of a content (never a
      heading) line that the most recent heading assigned to that list. */
  lemma EntryOrigin(lines: seq<string>, section: Section, k: nat)
    requires section != Unset
    requires k < |Owned(lines, section)|
    ensures exists i ::
      && 0 <= i < |lines| && BelongsTo(Kinds(lines), i, section)
      && Classify(lines[i]) == Content(Owned(lines, section)[k])
  {
    var kinds := Kinds(lines);
    var ps := Positions(kinds, section, |kinds|);
    assert BelongsTo(kinds, ps[k], section);
  }

  /** Entries of segmented text are trimmed, free of line feeds and of
      heading keywords. */
  lemma ScanEntriesWellFormed(rawText: string)
    ensures var s := Scan(CleanLines(rawText)).lists;
      AllOk(s.alternative) && AllOk(s.conventional) && AllOk(s.disclaimer)
  {
    var lines := CleanLines(rawText);
    ScanIsOwnership(lines);
    OwnedEntriesOk(lines, Alternative);
    OwnedEntriesOk(lines, Conventional);
    OwnedEntriesOk(lines, Disclaimer);
  }

  /** Every entry satisfies `EntryOk`. */
  predicate AllOk(entries: seq<string>) {
    forall i :: 0 <= i < |entries| ==> EntryOk(entries[i])
  }

  lemma OwnedEntriesOk(lines: seq<string>, section: Section)
    requires section != Unset
    requires forall i :: 0 <= i < |lines| ==> lines[i] != [] && IsTrimmedJs(lines[i]) && '\n' !in lines[i]
    ensures AllOk(Owned(lines, section))
  {
    var owned := Owned(lines, section);
    forall k | 0 <= k < |owned|
      ensures EntryOk(owned[k])
    {
      EntryOrigin(lines, section, k);
      var i :| 0 <= i < |lines| && BelongsTo(Kinds(lines), i, section)
        && Classify(lines[i]) == Content(owned[k]);
      StrippedLineOk(lines[i]);
    }
  }

  /** An entry the emitter can write and the segmenter read back unchanged. */
  predicate EntryOk(e: string) {
    IsTrimmedJs(e) && '\n' !in e && KeywordFree(e)
  }

  /** Stripping the ordinal of a clean content line yields an `EntryOk` text. */
  lemma StrippedLineOk(line: string)
    requires line != [] && IsTrimmedJs(line) && '\n' !in line && KeywordFree(line)
    ensures EntryOk(StripOrdinal(line))
  {
    var r := StripOrdinal(line);
    var k := |line| - |r|;
    assert r == line[k..];
    assert forall j :: 0 <= j < |r| ==> r[j] == line[k + j];
    ToLowerSuffix(line, k);
    var low := ToLower(line);
    if Contains(ToLower(r), AlternativeKeyword) { ContainsInSuffix(low, k, AlternativeKeyword); }
    if Contains(ToLower(r), ConventionalKeyword) { ContainsInSuffix(low, k, ConventionalKeyword); }
    if Contains(ToLower(r), DisclaimerKeyword) { ContainsInSuffix(low, k, DisclaimerKeyword); }
  }

  lemma ToLowerSuffix(s: string, k: nat)
    requires k <= |s|
    ensures ToLower(s[k..]) == ToLower(s)[k..]
  {
  }

  // ---------------------------------------------------------------------
  // The segmenter loop
  // ---------------------------------------------------------------------

  /** The scan of one more line is one more `Step`. */
  lemma ScanOneMore(lines: seq<string>, i: nat)
    requires i < |lines|
    ensures Scan(lines[..i + 1]) == Step(Scan(lines[..i]), lines[i])
  {
    assert lines[..i + 1][..i] == lines[..i];
  }

  /** Lines 124-151: clean the text, then walk its lines with a mutable
      current section, pushing content into the three lists. */
  method SegmentText(rawText: string) returns (sections: Sections)
    ensures sections == Scan(CleanLines(rawText)).lists
  {
    var lines := CleanLines(rawText);
    var alternativeMedicines: seq<string> := [];
    var conventionalMedicines: seq<string> := [];
    var disclaimer: seq<string> := [];
    var currentSection := Unset;
    var i := 0;
    while i < |lines|
      invariant 0 <= i <= |lines|
      invariant Scan(lines[..i]) == ScanState(currentSection, Sections(alternativeMedicines, conventionalMedicines, disclaimer))
    {
      var line := lines[i];
      ScanOneMore(lines, i);
      var low := ToLower(line);
      if Contains(low, AlternativeKeyword) {
        currentSection := Alternative;
      } else if Contains(low, ConventionalKeyword) {
        currentSection := Conventional;
      } else if Contains(low, DisclaimerKeyword) {
        currentSection := Disclaimer;
      } else {
        var cleanLine := StripOrdinal(line);
        if currentSection == Alternative {
          alternativeMedicines := alternativeMedicines + [cleanLine];
        } else if currentSection == Conventional {
          conventionalMedicines := conventionalMedicines + [cleanLine];
        } else if currentSection == Disclaimer {
          disclaimer := disclaimer + [cleanLine];
        }
      }
      i := i + 1;
    }
    assert lines[..i] == lines;
    sections := Sections(alternativeMedicines, conventionalMedicines, disclaimer);
  }

  // ---------------------------------------------------------------------
  // The emitter
  // ---------------------------------------------------------------------

  const DiseaseLabel := "**Predicted Disease:**"
  const AlternativeTitle := "**Alternative Medicine**"
  const ConventionalTitle := "**Conventional Medicine**"
  const DisclaimerTitle := "**Disclaimer**"

  /** The first write: the label, then the disease on its own line. */
  function DiseaseWrite(disease: string): string {
    DiseaseLabel + "\n " + disease + "\n\n"
  }

  /** The write for entry `index` (0-based) of a numbered list. */
  function NumberedWrite(index: nat, entry: string): string {
    NatToString(index + 1) + ". " + entry + "\n"
  }

  /** A numbered list, renumbered 1..N by position. */
  function NumberedWrites(entries: seq<string>): (ws: seq<string>)
    ensures |ws| == |entries|
  {
    seq(|entries|, i requires 0 <= i < |entries| => NumberedWrite(i, entries[i]))
  }

  /** Disclaimer lines are written as they are, one per line. */
  function RawWrites(entries: seq<string>): (ws: seq<string>)
    ensures |ws| == |entries|
  {
    seq(|entries|, i requires 0 <= i < |entries| => entries[i] + "\n")
  }

  /** The writes of lines 154-163, in order. */
  function Layout(disease: string, s: Sections): seq<string> {
    [DiseaseWrite(disease), AlternativeTitle + "\n\n"] + NumberedWrites(s.alternative)
    + ["\n" + ConventionalTitle + "\n\n"] + NumberedWrites(s.conventional)
    + ["\n" + DisclaimerTitle + "\n\n"] + RawWrites(s.disclaimer)
  }

  /** The text the client receives: all writes, in order. */
  function Concat(writes: seq<string>): string
    decreases |writes|
  {
    if writes == [] then [] else writes[0] + Concat(writes[1..])
  }

  /** The layout's fixed frame: the disease first, then the three titles in
      their order whatever the list lengths, each entry at its position. */
  lemma LayoutFrame(disease: string, s: Sections)
    ensures var w := Layout(disease, s);
      var a, c, d := |s.alternative|, |s.conventional|, |s.disclaimer|;
      && |w| == 4 + a + c + d
      && w[0] == DiseaseWrite(disease)
      && w[1] == AlternativeTitle + "\n\n"
      && (forall i :: 0 <= i < a ==> w[2 + i] == NumberedWrite(i, s.alternative[i]))
      && w[2 + a] == "\n" + ConventionalTitle + "\n\n"
      && (forall i :: 0 <= i < c ==> w[3 + a + i] == NumberedWrite(i, s.conventional[i]))
      && w[3 + a + c] == "\n" + DisclaimerTitle + "\n\n"
      && (forall i :: 0 <= i < d ==> w[4 + a + c + i] == s.disclaimer[i] + "\n")
  {
  }

  /** The emitted text begins with the predicted-disease line. */
  lemma {:induction false} OutputStartsWithDisease(disease: string, s: Sections)
    ensures StartsWith(Concat(Layout(disease, s)), DiseaseLabel + "\n " + disease)
  {
    var w := Layout(disease, s);
    assert Concat(w) == w[0] + Concat(w[1..]);
    assert w[0] == (DiseaseLabel + "\n " + disease) + "\n\n";
  }

  /** Lines 153-163: one write per line of the layout, with indexed loops. */
  method Emit(disease: string, s: Sections) returns (writes: seq<string>)
    ensures writes == Layout(disease, s)
  {
    writes := [DiseaseWrite(disease)];
    writes := writes + [AlternativeTitle + "\n\n"];
    var i := 0;
    while i < |s.alternative|
      invariant 0 <= i <= |s.alternative|
      invariant writes == [DiseaseWrite(disease), AlternativeTitle + "\n\n"] + NumberedWrites(s.alternative[..i])
    {
      writes := writes + [NumberedWrite(i, s.alternative[i])];
      i := i + 1;
    }
    assert s.alternative[..i] == s.alternative;
    var head := writes;
    writes := writes + ["\n" + ConventionalTitle + "\n\n"];
    i := 0;
    while i < |s.conventional|
      invariant 0 <= i <= |s.conventional|
      invariant writes == head + ["\n" + ConventionalTitle + "\n\n"] + NumberedWrites(s.conventional[..i])
    {
      writes := writes + [NumberedWrite(i, s.conventional[i])];
      i := i + 1;
    }
    assert s.conventional[..i] == s.conventional;
    head := writes;
    writes := writes + ["\n" + DisclaimerTitle + "\n\n"];
    i := 0;
    while i < |s.disclaimer|
      invariant 0 <= i <= |s.disclaimer|
      invariant writes == head + ["\n" + DisclaimerTitle + "\n\n"] + RawWrites(s.disclaimer[..i])
    {
      writes := writes + [s.disclaimer[i] + "\n"];
      i := i + 1;
    }
    assert s.disclaimer[..i] == s.disclaimer;
  }
}
