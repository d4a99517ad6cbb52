/** Worked examples of the backend: a brand-name lookup, a lookup the
    drug-label service does not know, and the segmentation of a short
    generated text. */
module Examples {
  import opened Text
  import opened Lists
  import opened Segmenter
  import opened LayoutRoundTrip
  import opened Backend

  function BrandLabel(name: string): LabelRecord {
    LabelRecord(Some(OpenFdaFields(Some([name]))))
  }

  /** Labels branded Advil, Advil and Motrin give the alternatives Advil, Motrin. */
  lemma IbuprofenExample()
    ensures LookupAlternatives(Some(Str("ibuprofen")), Answered(Some([BrandLabel("Advil"), BrandLabel("Advil"), BrandLabel("Motrin")])))
      == Handled(JsonReply(200, AlternativesBody(Str("ibuprofen"), ["Advil", "Motrin"])), [DrugLabels])
  {
    var results := [BrandLabel("Advil"), BrandLabel("Advil"), BrandLabel("Motrin")];
    var fields := seq(|results|, i requires 0 <= i < |results| => results[i].openfda.value);
    var all := seq(|fields|, i requires 0 <= i < |fields| => BrandName(fields[i]));
    assert all == ["Advil", "Advil", "Motrin"];
    DedupRepeatedFirst("Advil", "Motrin");
  }

  /** A repeated first brand is listed once, ahead of the next one. */
  lemma DedupRepeatedFirst<T>(a: T, b: T)
    requires a != b
    ensures Dedup([a, a, b]) == [a, b]
  {
    assert [a, a, b][..2] == [a, a];
    assert [a, a][..1] == [a];
    assert [a][..0] == [];
  }

  /** A lookup the drug-label service answers with 404 gets the placeholder. */
  lemma NotFoundExample()
    ensures LookupAlternatives(Some(Str("paracetamol")), HttpError(404, "Request failed with status code 404"))
      == Handled(JsonReply(200, AlternativesBody(Str("paracetamol"), [NoAlternativesFound])), [DrugLabels])
  {
  }

  /** A lookup answered with an empty list of labels succeeds with no
      alternatives at all: only a 404 produces the placeholder. */
  lemma EmptyResultsExample()
    ensures LookupAlternatives(Some(Str("paracetamol")), Answered(Some([])))
      == Handled(JsonReply(200, AlternativesBody(Str("paracetamol"), [])), [DrugLabels])
  {
  }

  /** The generated text of the segmenter example, one line per element. */
  const ExampleLines := ["### Alternative Medicines", "1. Foo", "### Conventional Medicines", "1. Bar", "### Disclaimer", "Consult a doctor"]

  /** The lower-case form of the alternative example heading. */
  lemma AlternativeExampleLower(line: string)
    requires line == "### Alternative Medicines"
    ensures ToLower(line) == "### alternative medicines"
  {
  }

  lemma ExampleAlternativeHeading(line: string)
    requires line == "### Alternative Medicines"
    ensures Classify(line) == Heading(Alternative)
  {
    AlternativeExampleLower(line);
    var low := ToLower(line);
    assert low[4..][..|AlternativeKeyword|] == AlternativeKeyword;
    ContainsInSuffix(low, 4, AlternativeKeyword);
  }

  /** The lower-case form of the conventional example heading; it has no 'r'. */
  lemma ConventionalExampleLower(line: string)
    requires line == "### Conventional Medicines"
    ensures ToLower(line) == "### conventional medicines"
    ensures 'r' !in line && 'R' !in line
  {
  }

  lemma ExampleConventionalHeading(line: string)
    requires line == "### Conventional Medicines"
    ensures Classify(line) == Heading(Conventional)
  {
    ConventionalExampleLower(line);
    var low := ToLower(line);
    assert low[4..][..|ConventionalKeyword|] == ConventionalKeyword;
    ContainsInSuffix(low, 4, ConventionalKeyword);
    ConventionalWithoutR(line);
  }

  /** The lower-case form of the disclaimer example heading; it has no 't' or 'o'. */
  lemma DisclaimerExampleLower(line: string)
    requires line == "### Disclaimer"
    ensures ToLower(line) == "### disclaimer"
    ensures 't' !in line && 'T' !in line && 'o' !in line && 'O' !in line
  {
  }

  lemma ExampleDisclaimerHeading(line: string)
    requires line == "### Disclaimer"
    ensures Classify(line) == Heading(Disclaimer)
  {
    DisclaimerExampleLower(line);
    var low := ToLower(line);
    assert low[4..][..|DisclaimerKeyword|] == DisclaimerKeyword;
    ContainsInSuffix(low, 4, DisclaimerKeyword);
    DisclaimerWithoutTO(line);
  }

  /** `line` lacks, in either case, letter `k` of `keyword`. */
  predicate LacksLetter(line: string, keyword: string, k: nat) {
    k < |keyword| && IsAsciiLower(keyword[k])
    && keyword[k] !in line && (keyword[k] as int - 32) as char !in line
  }

  /** A line lacking one letter of each keyword is content. */
  lemma ContentWithout(line: string, ka: nat, kc: nat, kd: nat)
    requires LacksLetter(line, AlternativeKeyword, ka)
    requires LacksLetter(line, ConventionalKeyword, kc)
    requires LacksLetter(line, DisclaimerKeyword, kd)
    ensures Classify(line) == Content(StripOrdinal(line))
  {
    MissingLetter(line, AlternativeKeyword, ka);
    MissingLetter(line, ConventionalKeyword, kc);
    MissingLetter(line, DisclaimerKeyword, kd);
  }

  /** A one-digit ordinal, a stop and one blank are stripped from a line. */
  lemma NumberedExample(line: string)
    requires |line| >= 3 && IsAsciiDigit(line[0]) && line[1] == '.' && line[2] == ' '
    requires |line| == 3 || !IsJsSpace(line[3])
    ensures StripOrdinal(line) == line[3..]
  {
    assert line == line[..1] + "." + line[2..3] + line[3..];
    StripOrdinalNumbered(line[..1], line[2..3], line[3..]);
  }

  /** "1. Foo" has an ordinal and lacks 'a', 'c' and 'd'. */
  lemma FooLetters(line: string)
    requires line == "1. Foo"
    ensures LacksLetter(line, AlternativeKeyword, 0)
    ensures LacksLetter(line, ConventionalKeyword, 0)
    ensures LacksLetter(line, DisclaimerKeyword, 0)
    ensures IsAsciiDigit(line[0]) && line[1] == '.' && line[2] == ' ' && !IsJsSpace(line[3])
    ensures line[3..] == "Foo"
  {
  }

  lemma ExampleNumberedContent(line: string)
    requires line == "1. Foo"
    ensures Classify(line) == Content("Foo")
  {
    FooLetters(line);
    ContentWithout(line, 0, 0, 0);
    NumberedExample(line);
  }

  /** "1. Bar" has an ordinal and lacks 'l', 'c' and 'd'. */
  lemma BarLetters(line: string)
    requires line == "1. Bar"
    ensures LacksLetter(line, AlternativeKeyword, 1)
    ensures LacksLetter(line, ConventionalKeyword, 0)
    ensures LacksLetter(line, DisclaimerKeyword, 0)
    ensures IsAsciiDigit(line[0]) && line[1] == '.' && line[2] == ' ' && !IsJsSpace(line[3])
    ensures line[3..] == "Bar"
  {
  }

  lemma ExampleNumberedContentBar(line: string)
    requires line == "1. Bar"
    ensures Classify(line) == Content("Bar")
  {
    BarLetters(line);
    ContentWithout(line, 1, 0, 0);
    NumberedExample(line);
  }

  /** "Consult a doctor" starts with a letter and lacks 'e' and 'i'. */
  lemma PlainLetters(line: string)
    requires line == "Consult a doctor"
    ensures LacksLetter(line, AlternativeKeyword, 3)
    ensures LacksLetter(line, ConventionalKeyword, 4)
    ensures LacksLetter(line, DisclaimerKeyword, 1)
    ensures !IsAsciiDigit(line[0])
  {
  }

  /** An unnumbered line lacking 'e' and 'i' is content, unchanged. */
  lemma ExamplePlainContent(line: string)
    requires line == "Consult a doctor"
    ensures Classify(line) == Content(line)
  {
    PlainLetters(line);
    ContentWithout(line, 3, 4, 1);
    StripOrdinalUnchangedIff(line);
  }

  /** Cleaning the joined example text gives the example lines back. */
  lemma ExampleCleaned()
    ensures CleanLines(Join(ExampleLines, "\n")) == ExampleLines
  {
    var ls := ExampleLines;
    forall i | 0 <= i < |ls| ensures ls[i] != [] && IsTrimmedJs(ls[i]) && '\n' !in ls[i] {
    }
    CleanLinesOfJoined(ls);
  }

  /** Segmenting the example text fills each list with its one entry:
      "Foo", "Bar" and "Consult a doctor". */
  lemma ExampleSegmented(lines: seq<string>)
    requires lines == ExampleLines
    ensures Scan(CleanLines(Join(lines, "\n"))).lists == Sections(["Foo"], ["Bar"], ["Consult a doctor"])
  {
    ExampleCleaned();
    var h0, a, h1, c, h2, d := lines[0], lines[1], lines[2], lines[3], lines[4], lines[5];
    ExampleAlternativeHeading(h0);
    ExampleNumberedContent(a);
    ExampleConventionalHeading(h1);
    ExampleNumberedContentBar(c);
    ExampleDisclaimerHeading(h2);
    ExamplePlainContent(d);
    ScanHeadingPairs(h0, a, h1, c, h2, d, "Foo", "Bar", d);
    SixAsPairs(lines);
  }

  /** Six lines, grouped in pairs. */
  lemma SixAsPairs<T>(ls: seq<T>)
    requires |ls| == 6
    ensures [] + ([ls[0]] + [ls[1]]) + ([ls[2]] + [ls[3]]) + ([ls[4]] + [ls[5]]) == ls
  {
  }
}
