/** The feature-vector builder of the prediction microservice
    (python_microservice/app/preprocess.py): cleaning of user-typed names,
    the first-substring-match search over the model's feature names, and the
    one-hot dictionary built from comma-separated symptoms and health factors
    with the two categorical answers appended at the end. */
module Preprocess {
  import opened Text
  import opened Lists

  // ---------------------------------------------------------------------
  // normalize
  // ---------------------------------------------------------------------

  /** A word character of a regular expression (`\w`), restricted to ASCII. */
  predicate IsWordChar(c: char) {
    IsAsciiLower(c) || IsAsciiUpper(c) || IsAsciiDigit(c) || c == '_'
  }

  /** A character that `[^\w\s]` does not match, so the substitution keeps it. */
  predicate IsKept(c: char) {
    IsWordChar(c) || IsPySpace(c)
  }

  /** `s.replace(" ", "_")`: only the ASCII blank is replaced. */
  function BlanksToUnderscores(s: string): (r: string)
    ensures |r| == |s| && ' ' !in r
    ensures forall i :: 0 <= i < |s| ==> r[i] == (if s[i] == ' ' then '_' else s[i])
  {
    seq(|s|, i requires 0 <= i < |s| => if s[i] == ' ' then '_' else s[i])
  }

  /** A character `Normalize` may leave in its result. */
  predicate IsNormalChar(c: char) {
    IsAsciiLower(c) || IsAsciiDigit(c) || c == '_' || (IsPySpace(c) && c != ' ')
  }

  /** A string `Normalize` may return: normal characters, no white space at either end. */
  predicate IsNormalized(s: string) {
    && (forall i :: 0 <= i < |s| ==> IsNormalChar(s[i]))
    && (s == [] || (!IsPySpace(s[0]) && !IsPySpace(s[|s| - 1])))
  }

  /** `re.sub(r"[^\w\s]", "", text).strip().lower().replace(" ", "_")`:
      punctuation removed, white space stripped from both ends, lower-cased,
      and inner blanks turned into underscores. */
  function Normalize(text: string): (r: string)
    ensures IsNormalized(r)
    ensures ' ' !in r
    ensures |r| <= |text|
  {
    var kept := Filter(IsKept, text);
    var stripped := StripPy(kept);
    TrimChars(kept, IsPySpace);
    CleanedIsNormalized(stripped);
    BlanksToUnderscores(ToLower(stripped))
  }

  /** Lower-casing and replacing blanks in stripped, punctuation-free text
      leaves a normalized string. */
  lemma CleanedIsNormalized(stripped: string)
    requires forall i :: 0 <= i < |stripped| ==> IsKept(stripped[i])
    requires stripped == [] || (!IsPySpace(stripped[0]) && !IsPySpace(stripped[|stripped| - 1]))
    ensures IsNormalized(BlanksToUnderscores(ToLower(stripped)))
  {
    var r := BlanksToUnderscores(ToLower(stripped));
    forall i | 0 <= i < |r| ensures IsNormalChar(r[i]) {
      NormalCharOfKept(stripped[i]);
    }
    if r != [] {
      NormalCharOfKept(stripped[0]);
      NormalCharOfKept(stripped[|r| - 1]);
    }
  }

  /** One kept character after lower-casing and blank replacement. */
  lemma NormalCharOfKept(c: char)
    requires IsKept(c)
    ensures var d := LowerChar(c); IsNormalChar(if d == ' ' then '_' else d)
    ensures !IsPySpace(c) ==> var d := LowerChar(c); !IsPySpace(if d == ' ' then '_' else d)
  {
  }

  /** The strings `Normalize` leaves unchanged are exactly the normalized ones. */
  lemma NormalizeFixedPoints(s: string)
    ensures Normalize(s) == s <==> IsNormalized(s)
  {
    if IsNormalized(s) {
      assert Filter(IsKept, s) == s by {
        FilterAll(IsKept, s);
      }
      assert StripPy(s) == s by {
        TrimOfTrimmed(s, IsPySpace);
      }
      assert ToLower(s) == s;
      assert BlanksToUnderscores(s) == s;
    }
  }

  /** Normalizing twice is normalizing once. */
  lemma NormalizeIdempotent(s: string)
    ensures Normalize(Normalize(s)) == Normalize(s)
  {
    NormalizeFixedPoints(Normalize(s));
  }

  /** Text with no word character normalizes to the empty string. */
  lemma NormalizeWordless(s: string)
    requires forall i :: 0 <= i < |s| ==> !IsWordChar(s[i])
    ensures Normalize(s) == []
  {
    var kept := Filter(IsKept, s);
    assert forall i :: 0 <= i < |kept| ==> IsPySpace(kept[i]);
    TrimChars(kept, IsPySpace);
  }

  // ---------------------------------------------------------------------
  // get_closest_match
  // ---------------------------------------------------------------------

  /** The first feature, in list order, that contains `name`. */
  function FirstContaining(name: string, features: seq<string>): (r: Option<string>)
    ensures r.None? <==> forall i :: 0 <= i < |features| ==> !Contains(features[i], name)
    ensures r.Some? ==>
      exists i :: 0 <= i < |features| && features[i] == r.value && Contains(r.value, name) &&
        forall j :: 0 <= j < i ==> !Contains(features[j], name)
    decreases |features|
  {
    if features == [] then None
    else if Contains(features[0], name) then Some(features[0])
    else
      var r := FirstContaining(name, features[1..]);
      assert forall i :: 1 <= i < |features| ==> features[i] == features[1..][i - 1];
      r
  }

  /** `get_closest_match`: scans the features and returns at the first one
      containing `name`. */
  method ClosestMatch(name: string, features: seq<string>) returns (r: Option<string>)
    ensures r == FirstContaining(name, features)
  {
    var i := 0;
    while i < |features|
      invariant 0 <= i <= |features|
      invariant FirstContaining(name, features) == FirstContaining(name, features[i..])
    {
      assert features[i..][1..] == features[i + 1..];
      if Contains(features[i], name) {
        return Some(features[i]);
      }
      i := i + 1;
    }
    return None;
  }

  // ---------------------------------------------------------------------
  // The feature dictionary
  // ---------------------------------------------------------------------

  /** A dictionary value: a one-hot flag or a normalized categorical answer. */
  datatype Cell = Flag(bit: nat) | Category(text: string)

  /** A Python dict: its keys in insertion order and the value of each key. */
  datatype Dict = Dict(keys: seq<string>, values: map<string, Cell>) {
    ghost predicate Valid() {
      NoDuplicates(keys) && forall k :: k in values <==> k in keys
    }
  }

  const EmptyDict := Dict([], map[])

  /** `d[k] = v`: a new key goes to the end, an existing one keeps its place. */
  function Put(d: Dict, k: string, v: Cell): (e: Dict)
    ensures d.Valid() ==> e.Valid()
    ensures e.values == d.values[k := v]
    ensures k in d.values ==> e.keys == d.keys
    ensures k !in d.values ==> e.keys == d.keys + [k]
  {
    if k in d.values then d.(values := d.values[k := v])
    else Dict(d.keys + [k], d.values[k := v])
  }

  const AgeGroupKey := "ageGroup"
  const SeverityKey := "severity"
  const SymptomPrefix := "symptom_"
  const HealthFactorPrefix := "healthfactor_"

  /** A feature that gets a one-hot column (all but the two categorical ones). */
  predicate IsOneHot(feature: string) {
    feature != AgeGroupKey && feature != SeverityKey
  }

  /** `{feature: 0 for feature in feature_names if feature not in ["ageGroup", "severity"]}`. */
  function ZeroFeatures(features: seq<string>): (d: Dict)
    ensures d.Valid()
    ensures d.keys == Dedup(Filter(IsOneHot, features))
    ensures forall k :: k in d.values <==> k in features && IsOneHot(k)
    ensures forall k :: k in d.values ==> d.values[k] == Flag(0)
    decreases |features|
  {
    if features == [] then EmptyDict
    else
      var init := features[..|features| - 1];
      var f := features[|features| - 1];
      var d := ZeroFeatures(init);
      var kept := Filter(IsOneHot, init);
      assert forall k :: k in features <==> k in init || k == f;
      if IsOneHot(f) then
        assert Filter(IsOneHot, features) == kept + [f];
        assert (kept + [f])[..|kept|] == kept;
        Put(d, f, Flag(0))
      else
        d
  }

  /** One token of `preprocess_input`'s loops: the exact column
      `prefix + token` when it is a key, else the first feature containing
      it (when that is a non-empty name), else nothing. */
  function MarkToken(d: Dict, prefix: string, token: string, features: seq<string>): (e: Dict)
    ensures d.Valid() ==> e.Valid()
  {
    var column := prefix + token;
    if column in d.values then Put(d, column, Flag(1))
    else
      match FirstContaining(column, features)
      case Some(alt) => if alt != "" then Put(d, alt, Flag(1)) else d
      case None => d
  }

  /** The tokens of a loop, one after the other. */
  function MarkAll(d: Dict, prefix: string, tokens: seq<string>, features: seq<string>): (e: Dict)
    ensures d.Valid() ==> e.Valid()
    decreases |tokens|
  {
    if tokens == [] then d
    else MarkToken(MarkAll(d, prefix, tokens[..|tokens| - 1], features), prefix, tokens[|tokens| - 1], features)
  }

  /** `[normalize(s) for s in text.split(",")]`. */
  function Tokens(text: string): (r: seq<string>)
    ensures |r| == |Split(text, ',')|
    ensures forall i :: 0 <= i < |r| ==> r[i] == Normalize(Split(text, ',')[i])
  {
    var parts := Split(text, ',');
    seq(|parts|, i requires 0 <= i < |parts| => Normalize(parts[i]))
  }

  /** The request fields the builder reads; `None` when the key is absent. */
  datatype Request = Request(symptoms: Option<string>, healthFactors: Option<string>, ageGroup: Option<string>, severity: Option<string>)

  /** Python truthiness of `data.get(key)`: present and non-empty. */
  predicate Given(field: Option<string>) {
    field.Some? && field.value != ""
  }

  /** The one-hot part: zeros, then the symptoms, then the health factors. */
  function OneHot(data: Request, features: seq<string>): Dict {
    var zero := ZeroFeatures(features);
    var withSymptoms :=
      if Given(data.symptoms) then MarkAll(zero, SymptomPrefix, Tokens(data.symptoms.value), features) else zero;
    if Given(data.healthFactors) then MarkAll(withSymptoms, HealthFactorPrefix, Tokens(data.healthFactors.value), features)
    else withSymptoms
  }

  /** The dictionary `preprocess_input` wraps in a one-row frame. */
  function FeatureVector(data: Request, features: seq<string>): Dict {
    var oneHot := OneHot(data, features);
    var withAge := Put(oneHot, AgeGroupKey, Category(Normalize(data.ageGroup.GetOr(""))));
    Put(withAge, SeverityKey, Category(Normalize(data.severity.GetOr(""))))
  }

  /** One loop of `preprocess_input`, updating the dictionary token by token. */
  method MarkTokens(d: Dict, prefix: string, tokens: seq<string>, features: seq<string>) returns (e: Dict)
    ensures e == MarkAll(d, prefix, tokens, features)
  {
    e := d;
    for i := 0 to |tokens|
      invariant e == MarkAll(d, prefix, tokens[..i], features)
    {
      assert tokens[..i + 1][..i] == tokens[..i];
      var column := prefix + tokens[i];
      if column in e.values {
        e := Put(e, column, Flag(1));
      } else {
        var alt := ClosestMatch(column, features);
        if alt.Some? && alt.value != "" {
          e := Put(e, alt.value, Flag(1));
        }
      }
    }
    assert tokens[..|tokens|] == tokens;
  }

  /** `preprocess_input`, up to the frame construction. */
  method PreprocessInput(data: Request, features: seq<string>) returns (d: Dict)
    ensures d == FeatureVector(data, features)
    ensures d.Valid()
  {
    d := ZeroFeatures(features);
    if Given(data.symptoms) {
      d := MarkTokens(d, SymptomPrefix, Tokens(data.symptoms.value), features);
    }
    if Given(data.healthFactors) {
      d := MarkTokens(d, HealthFactorPrefix, Tokens(data.healthFactors.value), features);
    }
    d := Put(d, AgeGroupKey, Category(Normalize(data.ageGroup.GetOr(""))));
    d := Put(d, SeverityKey, Category(Normalize(data.severity.GetOr(""))));
  }

  // ---------------------------------------------------------------------
  // Properties
  // ---------------------------------------------------------------------

  /** `e` has the keys of `d`, in the same order, and each value is either
      unchanged or raised to 1. */
  ghost predicate Raised(d: Dict, e: Dict) {
    && e.keys == d.keys
    && forall k :: k in d.values ==> k in e.values && (e.values[k] == d.values[k] || e.values[k] == Flag(1))
  }

  /** Every feature containing `prefix` already has a column. */
  ghost predicate Covers(d: Dict, prefix: string, features: seq<string>) {
    forall f :: f in features && Contains(f, prefix) ==> f in d.values
  }

  /** A token never adds a key and only raises a value to 1. */
  lemma MarkTokenRaises(d: Dict, prefix: string, token: string, features: seq<string>)
    requires d.Valid() && Covers(d, prefix, features)
    ensures Raised(d, MarkToken(d, prefix, token, features))
  {
    var column := prefix + token;
    if column !in d.values {
      var r := FirstContaining(column, features);
      if r.Some? {
        ContainsNeedlePrefix(r.value, prefix, token);
      }
    }
  }

  /** A whole loop never adds a key and only raises values to 1. */
  lemma {:induction false} MarkAllRaises(d: Dict, prefix: string, tokens: seq<string>, features: seq<string>)
    requires d.Valid() && Covers(d, prefix, features)
    ensures Raised(d, MarkAll(d, prefix, tokens, features))
    decreases |tokens|
  {
    if tokens != [] {
      var init := tokens[..|tokens| - 1];
      var mid := MarkAll(d, prefix, init, features);
      MarkAllRaises(d, prefix, init, features);
      MarkTokenRaises(mid, prefix, tokens[|tokens| - 1], features);
    }
  }

  /** Neither categorical key contains a column name built from either prefix. */
  lemma CategoricalKeysUncovered(prefix: string, token: string)
    requires prefix == SymptomPrefix || prefix == HealthFactorPrefix
    ensures !Contains(AgeGroupKey, prefix + token) && !Contains(SeverityKey, prefix + token)
  {
    var column := prefix + token;
    assert column[|prefix| - 1] == '_';
    NotContainsMissingChar(AgeGroupKey, column, |prefix| - 1);
    NotContainsMissingChar(SeverityKey, column, |prefix| - 1);
  }

  /** The zero dictionary has a column for every feature containing either prefix. */
  lemma ZeroFeaturesCover(prefix: string, features: seq<string>)
    requires prefix == SymptomPrefix || prefix == HealthFactorPrefix
    ensures Covers(ZeroFeatures(features), prefix, features)
  {
    CategoricalKeysUncovered(prefix, "");
    assert prefix + "" == prefix;
    CoversUnlessCategorical(prefix, features);
  }

  /** A prefix neither categorical key contains is covered by the zero dictionary. */
  lemma CoversUnlessCategorical(prefix: string, features: seq<string>)
    requires !Contains(AgeGroupKey, prefix) && !Contains(SeverityKey, prefix)
    ensures Covers(ZeroFeatures(features), prefix, features)
  {
  }

  /** The one-hot part raises the zero dictionary. */
  lemma OneHotRaises(data: Request, features: seq<string>)
    ensures Raised(ZeroFeatures(features), OneHot(data, features))
  {
    var zero := ZeroFeatures(features);
    ZeroFeaturesCover(SymptomPrefix, features);
    ZeroFeaturesCover(HealthFactorPrefix, features);
    var withSymptoms :=
      if Given(data.symptoms) then MarkAll(zero, SymptomPrefix, Tokens(data.symptoms.value), features) else zero;
    if Given(data.symptoms) {
      MarkAllRaises(zero, SymptomPrefix, Tokens(data.symptoms.value), features);
    }
    if Given(data.healthFactors) {
      MarkAllRaises(withSymptoms, HealthFactorPrefix, Tokens(data.healthFactors.value), features);
    }
  }

  /** The one-hot part: the zero dictionary's keys, each value 0 or 1. */
  lemma OneHotShape(data: Request, features: seq<string>)
    ensures var d := OneHot(data, features);
      && d.Valid()
      && d.keys == Dedup(Filter(IsOneHot, features))
      && (forall k :: k in d.values <==> k in features && IsOneHot(k))
      && (forall k :: k in d.values ==> d.values[k] == Flag(0) || d.values[k] == Flag(1))
  {
    OneHotRaises(data, features);
  }

  /** Setting the two categorical keys on a dictionary without them appends
      them, in that order, and leaves every other value alone. */
  lemma PutCategories(d: Dict, age: Cell, severity: Cell)
    requires d.Valid() && AgeGroupKey !in d.values && SeverityKey !in d.values
    ensures var e := Put(Put(d, AgeGroupKey, age), SeverityKey, severity);
      && e.Valid()
      && e.keys == d.keys + [AgeGroupKey, SeverityKey]
      && e.values == d.values[AgeGroupKey := age][SeverityKey := severity]
  {
    assert d.keys + [AgeGroupKey] + [SeverityKey] == d.keys + [AgeGroupKey, SeverityKey];
  }

  /** The finished dictionary: one column per distinct one-hot feature, in
      first-occurrence order, each 0 or 1, followed by `ageGroup` and
      `severity` holding the normalized answers ("" when absent). */
  lemma FeatureVectorShape(data: Request, features: seq<string>)
    ensures FeatureVector(data, features).Valid()
    ensures FeatureVector(data, features).keys == Dedup(Filter(IsOneHot, features)) + [AgeGroupKey, SeverityKey]
    ensures forall k :: k in features && IsOneHot(k) ==>
              FeatureVector(data, features).values[k] in {Flag(0), Flag(1)}
    ensures FeatureVector(data, features).values[AgeGroupKey] == Category(Normalize(data.ageGroup.GetOr("")))
    ensures FeatureVector(data, features).values[SeverityKey] == Category(Normalize(data.severity.GetOr("")))
  {
    OneHotShape(data, features);
    PutCategories(OneHot(data, features), Category(Normalize(data.ageGroup.GetOr(""))), Category(Normalize(data.severity.GetOr(""))));
  }

  /** With neither symptoms nor health factors, every one-hot value stays 0. */
  lemma NoSelectionsAllZero(data: Request, features: seq<string>)
    requires !Given(data.symptoms) && !Given(data.healthFactors)
    ensures forall k :: k in features && IsOneHot(k) ==> FeatureVector(data, features).values[k] == Flag(0)
  {
    var zero := ZeroFeatures(features);
    assert OneHot(data, features) == zero;
    PutCategories(zero, Category(Normalize(data.ageGroup.GetOr(""))), Category(Normalize(data.severity.GetOr(""))));
  }

  /** When the exact column exists, the feature list is never consulted and
      only that column is set. */
  lemma ExactMatchWins(d: Dict, prefix: string, token: string, features: seq<string>, others: seq<string>)
    requires prefix + token in d.values
    ensures MarkToken(d, prefix, token, features) == MarkToken(d, prefix, token, others)
    ensures MarkToken(d, prefix, token, features).values == d.values[prefix + token := Flag(1)]
  {
  }

  /** Without an exact column, exactly the first feature containing the
      column name is set, and every other value is unchanged. */
  lemma ApproximateMatch(d: Dict, prefix: string, token: string, features: seq<string>)
    requires d.Valid() && Covers(d, prefix, features)
    requires prefix != [] && prefix + token !in d.values
    ensures forall k :: k in d.values ==>
              MarkToken(d, prefix, token, features).values[k]
                == if FirstContaining(prefix + token, features) == Some(k) then Flag(1) else d.values[k]
  {
    var column := prefix + token;
    var r := FirstContaining(column, features);
    if r.Some? {
      ContainsNeedlePrefix(r.value, prefix, token);
      assert |column| > 0;
      assert r.value != "";
    }
  }

  /** A value is 1 only because some token named its column exactly, or its
      feature was the first to contain the column name of a token. */
  lemma {:induction false} MarkedByToken(d: Dict, prefix: string, tokens: seq<string>, features: seq<string>, k: string)
    requires k in d.values && d.values[k] == Flag(0)
    requires k in MarkAll(d, prefix, tokens, features).values
    requires MarkAll(d, prefix, tokens, features).values[k] == Flag(1)
    ensures exists t :: t in tokens && (prefix + t == k || FirstContaining(prefix + t, features) == Some(k))
    decreases |tokens|
  {
    var init := tokens[..|tokens| - 1];
    var t := tokens[|tokens| - 1];
    var mid := MarkAll(d, prefix, init, features);
    if k in mid.values && mid.values[k] == Flag(1) {
      MarkedByToken(d, prefix, init, features, k);
      var u :| u in init && (prefix + u == k || FirstContaining(prefix + u, features) == Some(k));
      assert u in tokens;
    } else {
      assert t in tokens;
    }
  }

  /** A text ending in ", " (as the symptom picker always produces) splits
      into one more, empty, token. */
  lemma TrailingSeparatorToken(text: string)
    ensures Tokens(text + ", ") == Tokens(text) + [""]
  {
    var parts := Split(text, ',');
    assert Split(text + ", ", ',') == parts + [" "] by {
      SplitAtLastSeparator(text, ',', " ");
      assert text + ", " == text + [','] + " ";
    }
    assert Normalize(" ") == "" by {
      NormalizeWordless(" ");
    }
    var before, after := Tokens(text), Tokens(text + ", ");
    assert |after| == |before| + 1;
    assert after[..|before|] == before;
    assert after[|before|] == "";
    assert after == after[..|before|] + [after[|before|]];
  }

  /** A symptom loop whose last token is empty sets the first feature
      containing "symptom_" when no feature is literally named so. */
  lemma EmptyLastTokenMarks(tokens: seq<string>, features: seq<string>, first: string)
    requires tokens != [] && tokens[|tokens| - 1] == ""
    requires SymptomPrefix !in features
    requires FirstContaining(SymptomPrefix, features) == Some(first)
    ensures Raised(ZeroFeatures(features), MarkAll(ZeroFeatures(features), SymptomPrefix, tokens, features))
    ensures first in ZeroFeatures(features).values
    ensures MarkAll(ZeroFeatures(features), SymptomPrefix, tokens, features).values[first] == Flag(1)
  {
    var zero := ZeroFeatures(features);
    var init := tokens[..|tokens| - 1];
    var mid := MarkAll(zero, SymptomPrefix, init, features);
    ZeroFeaturesCover(SymptomPrefix, features);
    MarkAllRaises(zero, SymptomPrefix, tokens, features);
    assert mid.Valid() && Covers(mid, SymptomPrefix, features) && SymptomPrefix !in mid.values by {
      MarkAllRaises(zero, SymptomPrefix, init, features);
    }
    EmptyTokenMarksFirst(mid, SymptomPrefix, features, first);
    assert MarkAll(zero, SymptomPrefix, tokens, features) == MarkToken(mid, SymptomPrefix, "", features);
  }

  /** An empty token under a prefix that is not itself a column sets the
      first feature containing the prefix. */
  lemma EmptyTokenMarksFirst(d: Dict, prefix: string, features: seq<string>, first: string)
    requires d.Valid() && Covers(d, prefix, features) && prefix != [] && prefix !in d.values
    requires FirstContaining(prefix, features) == Some(first)
    ensures first in d.values && MarkToken(d, prefix, "", features).values[first] == Flag(1)
  {
    assert prefix + "" == prefix;
    ApproximateMatch(d, prefix, "", features);
  }

  /** Symptom text whose last token is empty sets the first feature
      containing "symptom_" in the finished dictionary. */
  lemma EmptyLastSymptomSetsFirst(data: Request, tokens: seq<string>, features: seq<string>, first: string)
    requires Given(data.symptoms) && tokens == Tokens(data.symptoms.value)
    requires tokens != [] && tokens[|tokens| - 1] == ""
    requires SymptomPrefix !in features
    requires FirstContaining(SymptomPrefix, features) == Some(first)
    ensures first in FeatureVector(data, features).values
    ensures FeatureVector(data, features).values[first] == Flag(1)
  {
    var zero := ZeroFeatures(features);
    var oneHot := OneHot(data, features);
    assert first in oneHot.values && oneHot.values[first] == Flag(1) by {
      EmptyLastTokenMarks(tokens, features, first);
      var withSymptoms := MarkAll(zero, SymptomPrefix, tokens, features);
      if Given(data.healthFactors) {
        ZeroFeaturesCover(HealthFactorPrefix, features);
        MarkAllRaises(withSymptoms, HealthFactorPrefix, Tokens(data.healthFactors.value), features);
      }
    }
    OneHotShape(data, features);
    PutCategories(oneHot, Category(Normalize(data.ageGroup.GetOr(""))), Category(Normalize(data.severity.GetOr(""))));
  }

  /** Consequence of the trailing ", ": when no feature is literally named
      "symptom_", the first feature containing "symptom_" is set to 1 whatever
      the user picked. */
  lemma TrailingSeparatorSetsFirstSymptom(data: Request, text: string, features: seq<string>, first: string)
    requires data.symptoms == Some(text + ", ")
    requires SymptomPrefix !in features
    requires FirstContaining(SymptomPrefix, features) == Some(first)
    ensures first in FeatureVector(data, features).values
    ensures FeatureVector(data, features).values[first] == Flag(1)
  {
    var tokens := Tokens(text + ", ");
    assert tokens != [] && tokens[|tokens| - 1] == "" by {
      TrailingSeparatorToken(text);
    }
    assert Given(data.symptoms) by {
      assert |text + ", "| > 0;
    }
    EmptyLastSymptomSetsFirst(data, tokens, features, first);
  }
}
