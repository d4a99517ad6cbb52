/** The comma-separated token pickers of the recommendation form
    (src/App.js): the option lists built from the dataset rows, the filter by
    the segment after the last comma, and the click handlers that append a
    picked option to the typed text. */
module Picker {
  import opened Text
  import opened Lists

  // ---------------------------------------------------------------------
  // Option lists
  // ---------------------------------------------------------------------

  /** `parts.map(s => s.trim())`. */
  function TrimAll(parts: seq<string>): (r: seq<string>)
    ensures |r| == |parts|
    ensures forall i :: 0 <= i < |r| ==> r[i] == TrimJs(parts[i])
  {
    seq(|parts|, i requires 0 <= i < |parts| => TrimJs(parts[i]))
  }

  /** JavaScript truthiness of a string (`filter(Boolean)`). */
  predicate NonEmpty(s: string) {
    s != []
  }

  /** `row.Field ? row.Field.split(',').map(s => s.trim()) : []` for one
      parsed row; `None` is a row without the field. */
  function RowPieces(field: Option<string>): seq<string> {
    if field.Some? && field.value != "" then TrimAll(Split(field.value, ',')) else []
  }

  /** `rows.flatMap(...)`: the pieces of every row, row by row. */
  function AllPieces(rows: seq<Option<string>>): seq<string>
    decreases |rows|
  {
    if rows == [] then [] else AllPieces(rows[..|rows| - 1]) + RowPieces(rows[|rows| - 1])
  }

  /** `[...new Set(all)].filter(Boolean)`: the option list shown in a dropdown. */
  function ExtractOptions(rows: seq<Option<string>>): seq<string> {
    Filter(NonEmpty, Dedup(AllPieces(rows)))
  }

  /** A piece of a row, trimmed: the only strings an option list can hold. */
  predicate IsPiece(s: string) {
    IsTrimmedJs(s) && ',' !in s
  }

  /** Each trimmed piece of a split is free of separators and of outer blanks. */
  lemma TrimmedPiecesArePieces(parts: seq<string>)
    requires forall i :: 0 <= i < |parts| ==> ',' !in parts[i]
    ensures forall i :: 0 <= i < |parts| ==> IsPiece(TrimAll(parts)[i])
  {
    forall i | 0 <= i < |parts| ensures IsPiece(TrimAll(parts)[i]) {
      TrimChars(parts[i], IsJsSpace);
    }
  }

  /** Every piece of every row is trimmed and free of commas. */
  lemma {:induction false} AllPiecesArePieces(rows: seq<Option<string>>)
    ensures forall i :: 0 <= i < |AllPieces(rows)| ==> IsPiece(AllPieces(rows)[i])
    decreases |rows|
  {
    if rows != [] {
      AllPiecesArePieces(rows[..|rows| - 1]);
      var field := rows[|rows| - 1];
      if field.Some? && field.value != "" {
        TrimmedPiecesArePieces(Split(field.value, ','));
      }
    }
  }

  /** The option list has no duplicates and no empty entries; it holds
      exactly the non-empty pieces of the rows, each trimmed and free of
      commas. */
  lemma OptionsWellFormed(rows: seq<Option<string>>)
    ensures NoDuplicates(ExtractOptions(rows))
    ensures forall i :: 0 <= i < |ExtractOptions(rows)| ==> ExtractOptions(rows)[i] != [] && IsPiece(ExtractOptions(rows)[i])
    ensures forall s :: s in ExtractOptions(rows) <==> s in AllPieces(rows) && s != []
  {
    var d := Dedup(AllPieces(rows));
    AllPiecesArePieces(rows);
    FilterNoDuplicates(NonEmpty, d);
  }

  /** Filtering a list without duplicates leaves none. */
  lemma FilterNoDuplicates<T>(p: T -> bool, xs: seq<T>)
    requires NoDuplicates(xs)
    ensures NoDuplicates(Filter(p, xs))
  {
    FilterAtPositions(p, xs);
  }

  // ---------------------------------------------------------------------
  // The dropdown filter
  // ---------------------------------------------------------------------

  /** `search.split(",").pop().trim()`: the segment being typed. */
  function LastTyped(search: string): string {
    TrimJs(LastPiece(search, ','))
  }

  /** The options whose lower-case form contains the lower-case segment being typed. */
  function FilterOptions(options: seq<string>, search: string): seq<string> {
    var typed := ToLower(LastTyped(search));
    Filter((option: string) => Contains(ToLower(option), typed), options)
  }

  /** An option is shown exactly when it contains the typed segment, case-insensitively. */
  lemma FilterOptionsMembership(options: seq<string>, search: string, option: string)
    ensures option in FilterOptions(options, search) <==>
      option in options && Contains(ToLower(option), ToLower(LastTyped(search)))
  {
  }

  /** The shown options keep the order of the option list. */
  lemma FilterOptionsIsSubsequence(options: seq<string>, search: string)
    ensures IsSubsequence(FilterOptions(options, search), options)
  {
    FilterIsSubsequence((option: string) => Contains(ToLower(option), ToLower(LastTyped(search))), options);
  }

  /** Only the text after the last comma matters. */
  lemma FilterUsesLastSegment(options: seq<string>, before: string, segment: string)
    requires ',' !in segment
    ensures FilterOptions(options, before + "," + segment) == FilterOptions(options, segment)
  {
    assert LastTyped(before + "," + segment) == LastTyped(segment) by {
      assert LastPiece(before + "," + segment, ',') == segment by {
        SplitAtLastSeparator(before, ',', segment);
        assert before + "," + segment == before + [','] + segment;
      }
      assert LastPiece(segment, ',') == segment by {
        SplitNoSeparator(segment, ',');
      }
    }
  }

  /** Every string contains the empty string. */
  lemma ContainsEmpty(hay: string)
    ensures Contains(hay, [])
  {
  }

  /** After a pick the text ends in ", ", and then every option is shown. */
  lemma EmptySegmentShowsAll(options: seq<string>, text: string)
    ensures LastTyped(text + ", ") == []
    ensures FilterOptions(options, text + ", ") == options
  {
    SplitAtLastSeparator(text, ',', " ");
    assert text + ", " == text + [','] + " ";
    var typed := ToLower(LastTyped(text + ", "));
    assert typed == [];
    forall i | 0 <= i < |options| ensures Contains(ToLower(options[i]), typed) {
      ContainsEmpty(ToLower(options[i]));
    }
    FilterAll((option: string) => Contains(ToLower(option), typed), options);
  }

  // ---------------------------------------------------------------------
  // Picking an option
  // ---------------------------------------------------------------------

  /** `search ? search.split(",").map(t => t.trim()).filter(Boolean) : []`. */
  function CurrentTokens(search: string): seq<string> {
    if search != "" then Filter(NonEmpty, TrimAll(Split(search, ','))) else []
  }

  /** Appends `option` unless it is already present. */
  function WithOption(tokens: seq<string>, option: string): (r: seq<string>)
    ensures option in r
    ensures tokens <= r
    ensures |r| == |tokens| + (if option in tokens then 0 else 1)
  {
    if option in tokens then tokens else tokens + [option]
  }

  /** `tokens.length > 0 ? tokens.join(", ") + ", " : ""`. */
  function Render(tokens: seq<string>): string {
    if |tokens| > 0 then Join(tokens, ", ") + ", " else ""
  }

  /** The text after picking `option`. */
  function SearchAfter(search: string, option: string): string {
    Render(WithOption(CurrentTokens(search), option))
  }

  /** The tokens of the current text are trimmed, comma-free and non-empty. */
  lemma CurrentTokensArePieces(search: string)
    ensures forall i :: 0 <= i < |CurrentTokens(search)| ==>
      CurrentTokens(search)[i] != [] && IsPiece(CurrentTokens(search)[i])
  {
    if search != "" {
      TrimmedPiecesArePieces(Split(search, ','));
    }
  }

  /** The pieces `Join(tokens, ", ") + ", "` splits into at the commas. */
  function SpacedPieces(tokens: seq<string>): (r: seq<string>)
    requires tokens != []
    ensures |r| == |tokens| + 1 && r[0] == tokens[0] && r[|tokens|] == " "
    ensures forall i :: 1 <= i < |tokens| ==> r[i] == " " + tokens[i]
  {
    [tokens[0]] + seq(|tokens| - 1, i requires 0 <= i < |tokens| - 1 => " " + tokens[i + 1]) + [" "]
  }

  /** Joining with ", " and appending ", " is joining the spaced pieces with ",". */
  lemma {:induction false} RenderAsPieces(tokens: seq<string>)
    requires tokens != []
    ensures Render(tokens) == Join(SpacedPieces(tokens), ",")
    decreases |tokens|
  {
    var p := SpacedPieces(tokens);
    if |tokens| == 1 {
      assert p == [tokens[0], " "];
      assert Join(p[1..], ",") == " ";
    } else {
      var rest := tokens[1..];
      RenderAsPieces(rest);
      var q := SpacedPieces(rest);
      SpacedPiecesTail(tokens);
      JoinPrependFirst(q, " ", ",");
      assert ", " == "," + " ";
    }
  }

  /** After the first token, the spaced pieces are those of the remaining
      tokens with a blank before the first. */
  lemma SpacedPiecesTail(tokens: seq<string>)
    requires |tokens| >= 2
    ensures var q := SpacedPieces(tokens[1..]);
      SpacedPieces(tokens)[1..] == [" " + q[0]] + q[1..]
  {
    var p, q := SpacedPieces(tokens), SpacedPieces(tokens[1..]);
    assert |p[1..]| == |[" " + q[0]] + q[1..]|;
    forall i | 0 <= i < |p[1..]|
      ensures p[1..][i] == ([" " + q[0]] + q[1..])[i]
    {
      if i == 0 {
      } else if i < |tokens| - 1 {
        assert q[i] == " " + tokens[1..][i];
      } else {
      }
    }
  }

  /** Prefixing the first piece prefixes the join. */
  lemma JoinPrependFirst(q: seq<string>, x: string, sep: string)
    requires q != []
    ensures Join([x + q[0]] + q[1..], sep) == x + Join(q, sep)
  {
    var r := [x + q[0]] + q[1..];
    assert r[1..] == q[1..];
  }

  /** A rendered token list splits at its commas into the spaced pieces. */
  lemma SplitRender(tokens: seq<string>)
    requires tokens != []
    requires forall i :: 0 <= i < |tokens| ==> ',' !in tokens[i]
    ensures Split(Render(tokens), ',') == SpacedPieces(tokens)
  {
    var p := SpacedPieces(tokens);
    RenderAsPieces(tokens);
    assert forall i :: 0 <= i < |p| ==> ',' !in p[i];
    SplitJoin(p, ',');
  }

  /** Trimming the spaced pieces gives the tokens and a last, empty piece. */
  lemma TrimSpacedPieces(tokens: seq<string>)
    requires tokens != []
    requires forall i :: 0 <= i < |tokens| ==> IsTrimmedJs(tokens[i])
    ensures TrimAll(SpacedPieces(tokens)) == tokens + [""]
  {
    var p := SpacedPieces(tokens);
    var trimmed := TrimAll(p);
    forall i | 0 <= i < |tokens| + 1
      ensures trimmed[i] == (tokens + [""])[i]
    {
      if i == 0 {
        TrimJsOfTrimmed(tokens[0]);
      } else if i < |tokens| {
        TrimJsLeadingBlank(tokens[i]);
      } else {
        TrimJsBlank();
      }
    }
  }

  /** A lone blank trims to the empty string. */
  lemma TrimJsBlank()
    ensures TrimJs(" ") == ""
  {
    assert IsJsSpace(' ');
    assert TrimStart(" ", IsJsSpace) == "";
  }

  /** Reading back a rendered token list gives the list. */
  lemma RenderRoundTrip(tokens: seq<string>)
    requires forall i :: 0 <= i < |tokens| ==> tokens[i] != [] && IsPiece(tokens[i])
    ensures CurrentTokens(Render(tokens)) == tokens
  {
    if tokens != [] {
      SplitRender(tokens);
      TrimSpacedPieces(tokens);
      assert Filter(NonEmpty, tokens + [""]) == tokens by {
        FilterAll(NonEmpty, tokens);
        assert (tokens + [""])[..|tokens|] == tokens;
      }
      assert Render(tokens) != "";
    }
  }

  /** Picking keeps the current tokens, in order, and appends the option
      when it was not among them. */
  lemma PickKeepsTokens(search: string, option: string)
    requires option != [] && IsPiece(option)
    ensures CurrentTokens(SearchAfter(search, option)) == WithOption(CurrentTokens(search), option)
  {
    var current := CurrentTokens(search);
    CurrentTokensArePieces(search);
    WithOptionPieces(current, option);
    RenderRoundTrip(WithOption(current, option));
  }

  /** Appending a piece to a list of pieces gives a list of pieces. */
  lemma WithOptionPieces(tokens: seq<string>, option: string)
    requires option != [] && IsPiece(option)
    requires forall i :: 0 <= i < |tokens| ==> tokens[i] != [] && IsPiece(tokens[i])
    ensures var r := WithOption(tokens, option);
      forall i :: 0 <= i < |r| ==> r[i] != [] && IsPiece(r[i])
  {
  }

  /** Picking the same option twice is picking it once. */
  lemma PickIdempotent(search: string, option: string)
    requires option != [] && IsPiece(option)
    ensures SearchAfter(SearchAfter(search, option), option) == SearchAfter(search, option)
  {
    PickKeepsTokens(search, option);
  }

  /** The picked text always ends in the separator ", ". */
  lemma PickEndsWithSeparator(search: string, option: string)
    ensures exists prefix :: SearchAfter(search, option) == prefix + ", "
  {
    assert SearchAfter(search, option) == Join(WithOption(CurrentTokens(search), option), ", ") + ", ";
  }

  // ---------------------------------------------------------------------
  // The form state
  // ---------------------------------------------------------------------

  /** The picker-related state of the recommendation form. */
  class PickerState {
    var symptomsList: seq<string>
    var healthFactorsList: seq<string>
    var searchSymptom: string
    var searchHealthFactor: string
    var selectedHealthFactor: string
    var symptomSelect: bool
    var healthFactorSelect: bool

    /** The initial values of the `useState` hooks. */
    constructor ()
      ensures symptomsList == [] && healthFactorsList == []
      ensures searchSymptom == "" && searchHealthFactor == "" && selectedHealthFactor == ""
      ensures !symptomSelect && !healthFactorSelect
    {
      symptomsList := [];
      healthFactorsList := [];
      searchSymptom := "";
      searchHealthFactor := "";
      selectedHealthFactor := "";
      symptomSelect := false;
      healthFactorSelect := false;
    }

    /** The dataset effect: both option lists from the parsed rows. */
    method LoadOptions(symptomRows: seq<Option<string>>, healthFactorRows: seq<Option<string>>)
      modifies this
      ensures symptomsList == ExtractOptions(symptomRows)
      ensures healthFactorsList == ExtractOptions(healthFactorRows)
      ensures searchSymptom == old(searchSymptom) && searchHealthFactor == old(searchHealthFactor)
      ensures selectedHealthFactor == old(selectedHealthFactor)
      ensures symptomSelect == old(symptomSelect) && healthFactorSelect == old(healthFactorSelect)
    {
      symptomsList := ExtractOptions(symptomRows);
      healthFactorsList := ExtractOptions(healthFactorRows);
    }

    /** Click on a symptom option. */
    method SelectSymptom(option: string)
      modifies this
      ensures searchSymptom == SearchAfter(old(searchSymptom), option)
      ensures symptomSelect
      ensures symptomsList == old(symptomsList) && healthFactorsList == old(healthFactorsList)
      ensures searchHealthFactor == old(searchHealthFactor) && selectedHealthFactor == old(selectedHealthFactor)
      ensures healthFactorSelect == old(healthFactorSelect)
    {
      var current := if searchSymptom != "" then Filter(NonEmpty, TrimAll(Split(searchSymptom, ','))) else [];
      if option !in current {
        current := current + [option];
      }
      searchSymptom := if |current| > 0 then Join(current, ", ") + ", " else "";
      symptomSelect := true;
    }

    /** Click on a health-factor option; also records the list without the
        trailing separator. */
    method SelectHealthFactor(option: string)
      modifies this
      ensures searchHealthFactor == SearchAfter(old(searchHealthFactor), option)
      ensures searchHealthFactor == selectedHealthFactor + ", "
      ensures selectedHealthFactor == Join(WithOption(CurrentTokens(old(searchHealthFactor)), option), ", ")
      ensures healthFactorSelect
      ensures symptomsList == old(symptomsList) && healthFactorsList == old(healthFactorsList)
      ensures searchSymptom == old(searchSymptom) && symptomSelect == old(symptomSelect)
    {
      var current := if searchHealthFactor != "" then Filter(NonEmpty, TrimAll(Split(searchHealthFactor, ','))) else [];
      if option !in current {
        current := current + [option];
      }
      searchHealthFactor := if |current| > 0 then Join(current, ", ") + ", " else "";
      selectedHealthFactor := Join(current, ", ");
      healthFactorSelect := true;
    }
  }
}
