# NextGen Medicine Recommendation — verified model of the core transforms

This project models, in Dafny, the deterministic parts of the NextGen Medicine
Recommendation system and proves properties about them:

- **The recommendation stream** (`backend/index.js`):
  - the "all four fields" check;
  - the segmenter, which cleans the generated text into lines, switches sections on case-insensitive keyword headings, strips one leading `<digits>.` ordinal and files each content line under the current section;
  - the emitter, which writes the fixed layout and renumbers entries 1..N.

  The segmenter is a method with a loop, proved equal to a left fold (`Scan`). The fold is proved equal to an independent description of which section owns each line. The emitter is a method proved equal to `Layout`. Segmenting the emitted text gives the sections back (`SegmentOfEmitted`).
- **The alternative-medicines lookup** (`backend/index.js`): the brand-name dedup and the 400/404/500 mapping of the route.
- **The feature-vector builder** (`python_microservice/app/preprocess.py`): `normalize`, the first-match search `get_closest_match`, and `preprocess_input`. The last one works on an insertion-ordered dictionary that stands in for the Python `dict`. A consequence is proved: the trailing `", "` the picker always writes yields an empty token. That token makes approximate matching raise the first feature containing `symptom_`.
- **The recommendation filter** (`python_microservice/app/postprocess.py`) over a sequence of table rows.
- **The symptom and health-factor picker** (`src/App.js`): option extraction, the filter on the last typed segment, and the select handlers. The handlers act on a `PickerState` class that holds the React state hooks.
- **The login and registration form** (`src/pages/authPage/authPage.js`): the field rules of `validateForm`, including the two regular expressions written out as predicates, and the form-state transitions.

Modules:
- `Lists`: Option, dedup, filter, subsequences.
- `Text`: JavaScript and Python white space, trim, split, join, substring search, ASCII lower-casing, decimal digits.
- `Segmenter`, `LayoutRoundTrip`, `Backend` and `Examples` model `backend/index.js`.
- `Preprocess`, `Postprocess`, `Picker` and `AuthForm` model the other four files.

Where the written description of the system and the code differ, the model follows the code. The lookup route answers with the placeholder "No alternative medicines found for this query." only when the drug-label service replies with HTTP 404. An empty `results` array gives status 200 with an empty list of alternatives (`Examples.EmptyResultsExample`). A reply without `results` throws, and the route answers 500.

## Model

| member | source | states |
|---|---|---|
| Lists.Dedup | backend/index.js:193 | `[...new Set(xs)]`: no duplicates, exactly the elements of the input, never longer |
| Lists.DedupFirstOccurrenceOrder | src/App.js:65 | deduplicated elements keep the order of their first occurrences |
| Lists.FilterIsSubsequence | src/App.js:117 | a filtered list is an order-preserving subsequence of its input |
| Lists.FilterAtPositions | python_microservice/app/postprocess.py:12 | the k-th kept element is the element at the k-th position satisfying the predicate |
| Text.TrimIsSlice | backend/index.js:124 | `trim()` removes exactly the leading and trailing white space, leaving a slice |
| Text.SplitJoin | src/App.js:346 | splitting a join of separator-free pieces gives the pieces back |
| Text.JoinSplit | backend/index.js:124 | joining a split loses and adds no character |
| Text.SplitAtLastSeparator | src/App.js:116 | the last part of a split is the text after the last separator |
| Text.NatToStringValue | backend/index.js:157 | the decimal rendering of a number reads back as that number |
| Segmenter.CleanLines | backend/index.js:124 | every line kept is non-empty, trimmed and free of newlines |
| Segmenter.TidyTrimmed | backend/index.js:124 | trimming the pieces and dropping the empty ones leaves only non-empty trimmed lines |
| Segmenter.CleanLinesOfJoined | backend/index.js:124 | cleaning already clean lines joined by newlines returns them unchanged |
| Segmenter.TidyAppend | backend/index.js:124 | cleaning distributes over concatenation of the pieces |
| Segmenter.StripOrdinal | backend/index.js:141 | the cleaned line is a suffix of the line |
| Segmenter.StripOrdinalUnchangedIff | backend/index.js:141 | a line is unchanged exactly when it has no leading `<digits>.` |
| Segmenter.StripOrdinalNumbered | backend/index.js:141 | `digits + "." + blanks + rest` becomes `rest`: one ordinal and any following blanks are removed |
| Segmenter.OrdinalOnlyLine | backend/index.js:141 | a line that is only an ordinal becomes empty |
| Segmenter.Classify | backend/index.js:133-141 | a line is content exactly when it holds none of the three keywords, case-insensitively; headings name a section |
| Segmenter.ClassifyPrecedence | backend/index.js:133-141 | the alternative keyword wins over the other two and the conventional one over the disclaimer; a content line carries its ordinal-stripped text |
| Segmenter.RunAppend | backend/index.js:132-151 | scanning a concatenation is scanning the parts in turn |
| Segmenter.ScanIsOwnership | backend/index.js:127-151 | the scan's section is that of the latest heading, and each list holds, in input order, exactly the content lines whose latest heading is its section |
| Segmenter.ScanPrefix | backend/index.js:127-151 | after any prefix the scan's state is the ownership description of that prefix |
| Segmenter.NoHeadingNoEntries | backend/index.js:130-149 | with no heading nothing is appended: lines before the first heading are dropped |
| Segmenter.EntryOrigin | backend/index.js:143-149 | every entry of a list is the cleaned text of a content line belonging to that section |
| Segmenter.ScanEntriesWellFormed | backend/index.js:124-151 | every entry is trimmed, newline-free and holds no heading keyword |
| Segmenter.StrippedLineOk | backend/index.js:141 | stripping the ordinal of a clean content line leaves a trimmed keyword-free text |
| Segmenter.SegmentText | backend/index.js:124-151 | the `forEach` loop with its mutable section and three arrays computes the scan of the cleaned lines |
| Segmenter.LayoutFrame | backend/index.js:154-163 | disease line first, the three titles in fixed order whatever the list lengths, entry i written as `i+1. entry`, disclaimer lines raw |
| Segmenter.OutputStartsWithDisease | backend/index.js:154 | the output begins with `**Predicted Disease:**\n ` and the disease |
| Segmenter.Emit | backend/index.js:153-163 | the sequence of writes with indexed loops is exactly the layout |
| LayoutRoundTrip.LayoutAsLines | backend/index.js:154-163 | the concatenated writes are the layout's lines, each ended by a newline |
| LayoutRoundTrip.NumberedLineReadBack | backend/index.js:141 | a written numbered entry, trimmed, is read back as content holding that entry |
| LayoutRoundTrip.NumberedReadBack | backend/index.js:157-160 | every renumbered entry line is read back as its entry |
| LayoutRoundTrip.AlternativeTitleIsHeading | backend/index.js:133-134 | the emitted alternative title is an alternative heading |
| LayoutRoundTrip.ConventionalTitleIsHeading | backend/index.js:135-136 | the emitted conventional title is a conventional heading |
| LayoutRoundTrip.DisclaimerTitleIsHeading | backend/index.js:137-138 | the emitted disclaimer title is a disclaimer heading |
| LayoutRoundTrip.CleanedLayout | backend/index.js:124 | cleaning the emitted text gives the layout's lines without the blank ones |
| LayoutRoundTrip.RunSections | backend/index.js:132-151 | a heading followed by its content lines fills exactly that section, for the three sections in order |
| LayoutRoundTrip.ScanHeadingPairs | backend/index.js:132-151 | three headings each followed by one content line give one entry per section |
| LayoutRoundTrip.SegmentOfEmitted | backend/index.js:124-163 | segmenting the emitted text of well-formed sections returns those sections |
| Backend.ErrorLineCarriesMessage | backend/index.js:169 | a failure writes one line: the prefix `data: Error occurred: `, the message (recoverable from between prefix and terminator), and a blank line |
| Backend.RecommendationOutcomes | backend/index.js:42-171 | a falsy field gives 400 "All fields are required." with no outbound call; otherwise the predictor is called first, the generator only after a prediction, a throw gives the single error line, and success streams the layout of the segmented text |
| Backend.HandleRecommendation | backend/index.js:40-171 | the handler's steps compute the reply and the calls above |
| Backend.StreamLayout | backend/index.js:124-163 | segmenting the generated text and emitting its layout writes the layout of the scan of the cleaned lines |
| Backend.BrandName | backend/index.js:193 | a missing or empty first brand name becomes "Unknown Alternative"; never empty |
| Backend.BrandNames | backend/index.js:193 | no duplicates, no longer than the results, every result's name present and nothing else |
| Backend.BrandNamesFirstOccurrenceOrder | backend/index.js:193 | the names keep the order of their first occurrences |
| Backend.ExtractBrandNames | backend/index.js:190-193 | a result without `openfda` throws; otherwise the deduplicated brand names |
| Backend.LookupAlternatives | backend/index.js:179-208 | falsy name gives 400 with no call; HTTP 404 gives 200 with the placeholder; success gives 200 with the names; every other failure gives 500 with error and details |
| Backend.LookupAlternativesBrands | backend/index.js:193-198 | a successful lookup answers 200 with distinct names, no more than results, holding "Unknown Alternative" exactly when some result lacks a brand name |
| Examples.IbuprofenExample | backend/index.js:193-198 | labels Advil, Advil, Motrin give the alternatives Advil, Motrin |
| Examples.NotFoundExample | backend/index.js:200-204 | a 404 from the label service gives the placeholder alternative |
| Examples.EmptyResultsExample | backend/index.js:190-198 | an empty result list gives 200 with no alternatives |
| Examples.ExampleAlternativeHeading | backend/index.js:133-134 | "### Alternative Medicines" is an alternative heading |
| Examples.ExampleConventionalHeading | backend/index.js:135-136 | "### Conventional Medicines" is a conventional heading |
| Examples.ExampleDisclaimerHeading | backend/index.js:137-138 | "### Disclaimer" is a disclaimer heading |
| Examples.ExampleNumberedContent | backend/index.js:141 | "1. Foo" is content "Foo" |
| Examples.ExampleNumberedContentBar | backend/index.js:141 | "1. Bar" is content "Bar" |
| Examples.ExamplePlainContent | backend/index.js:139-141 | the unnumbered, keyword-free line "Consult a doctor" is content, unchanged |
| Examples.ExampleCleaned | backend/index.js:124 | the six example lines survive cleaning unchanged |
| Examples.ExampleSegmented | backend/index.js:124-151 | segmenting the six-line example gives the lists ["Foo"], ["Bar"] and ["Consult a doctor"] |
| Preprocess.BlanksToUnderscores | python_microservice/app/preprocess.py:6 | only the blank is replaced, by `_`; the result holds no blank |
| Preprocess.Normalize | python_microservice/app/preprocess.py:4-6 | the result holds only lower-case word characters and inner non-blank white space, no blank, nothing at either end to strip, and is no longer than the input |
| Preprocess.NormalizeFixedPoints | python_microservice/app/preprocess.py:6 | `normalize` leaves a string unchanged exactly when it is already normalized |
| Preprocess.NormalizeIdempotent | python_microservice/app/preprocess.py:6 | normalizing twice is normalizing once |
| Preprocess.NormalizeWordless | python_microservice/app/preprocess.py:6 | text without word characters normalizes to the empty string |
| Preprocess.FirstContaining | python_microservice/app/preprocess.py:8-13 | None exactly when no feature contains the name; otherwise the first feature in list order that contains it |
| Preprocess.ClosestMatch | python_microservice/app/preprocess.py:8-13 | the loop with early return finds that first feature |
| Preprocess.Put | python_microservice/app/preprocess.py:30 | assignment updates the value; a new key goes last, an existing key keeps its place |
| Preprocess.ZeroFeatures | python_microservice/app/preprocess.py:22 | one key per feature other than ageGroup and severity, in first-occurrence order, each 0 |
| Preprocess.Tokens | python_microservice/app/preprocess.py:26 | one normalized token per comma-separated piece |
| Preprocess.MarkTokens | python_microservice/app/preprocess.py:27-36 | the token loop computes the fold of the token rule |
| Preprocess.PreprocessInput | python_microservice/app/preprocess.py:15-56 | the method builds the feature vector, a well-formed dictionary |
| Preprocess.MarkTokenRaises | python_microservice/app/preprocess.py:28-34 | a token adds no key and only raises a value to 1 |
| Preprocess.MarkAllRaises | python_microservice/app/preprocess.py:27-50 | a token loop adds no key and only raises values to 1 |
| Preprocess.CategoricalKeysUncovered | python_microservice/app/preprocess.py:28-32 | no `symptom_`/`healthfactor_` column name is contained in "ageGroup" or "severity" |
| Preprocess.ZeroFeaturesCover | python_microservice/app/preprocess.py:22 | every feature an approximate match can return already has a column |
| Preprocess.OneHotRaises | python_microservice/app/preprocess.py:24-50 | symptom and health-factor processing keeps the keys and only flips 0 to 1 |
| Preprocess.FeatureVectorShape | python_microservice/app/preprocess.py:22-54 | keys are the one-hot features then ageGroup and severity; one-hot values are 0 or 1; the two categorical values are the normalized inputs, "" when absent |
| Preprocess.NoSelectionsAllZero | python_microservice/app/preprocess.py:25-39 | with no symptoms and no health factors every one-hot value stays 0 |
| Preprocess.ExactMatchWins | python_microservice/app/preprocess.py:29-30 | an existing `symptom_<token>` column is set and the feature list is not consulted |
| Preprocess.ApproximateMatch | python_microservice/app/preprocess.py:31-34 | otherwise only the first feature containing the column name is raised |
| Preprocess.MarkedByToken | python_microservice/app/preprocess.py:27-50 | every value raised to 1 was named exactly or approximately by some token |
| Preprocess.TrailingSeparatorToken | python_microservice/app/preprocess.py:26 | text ending in ", " yields a last token "" |
| Preprocess.EmptyLastTokenMarks | python_microservice/app/preprocess.py:27-34 | an empty token raises the first feature containing `symptom_` |
| Preprocess.EmptyLastSymptomSetsFirst | python_microservice/app/preprocess.py:25-34 | symptoms whose last token is empty set the first symptom feature to 1 |
| Preprocess.TrailingSeparatorSetsFirstSymptom | python_microservice/app/preprocess.py:25-34 | symptoms as the picker writes them, ending in ", ", set the first symptom feature to 1 |
| Postprocess.Zip | python_microservice/app/postprocess.py:24 | pairs medicine k with rating k, as long as the shorter list |
| Postprocess.GetMedicineRecommendations | python_microservice/app/postprocess.py:12-15 | the error dictionary exactly when no row's disease equals the input, with its fixed message |
| Postprocess.RecommendationsFromMatchingRows | python_microservice/app/postprocess.py:12-24 | one entry per matching row, in table order; each entry's medicine and rating come from the same row, conventional for "pharmaceutical", alternative otherwise |
| Postprocess.OtherRowsIgnored | python_microservice/app/postprocess.py:12 | a row of another disease inserted at any position, before, between or after the matching rows, does not change the result |
| Picker.TrimAll | src/App.js:63 | each piece trimmed, one result per piece |
| Picker.AllPiecesArePieces | src/App.js:63 | every extracted piece is trimmed and comma-free |
| Picker.OptionsWellFormed | src/App.js:63-65 | the option list has no duplicates and no empty string, and holds exactly the non-empty pieces of the rows |
| Picker.FilterOptionsMembership | src/App.js:116-119 | an option is shown exactly when its lower-case form contains the lower-case last segment |
| Picker.FilterOptionsIsSubsequence | src/App.js:117 | the shown options are a subsequence of the option list |
| Picker.FilterUsesLastSegment | src/App.js:122-126 | only the text after the last comma matters |
| Picker.EmptySegmentShowsAll | src/App.js:116-118 | after ", " the last segment is empty and every option is shown |
| Picker.WithOption | src/App.js:350-352 | the earlier tokens stay, in order, as a prefix; the option is appended exactly when it was absent, so it is present afterwards |
| Picker.CurrentTokensArePieces | src/App.js:345-347 | the current tokens are trimmed, comma-free and non-empty |
| Picker.RenderRoundTrip | src/App.js:346-354 | reading back rendered tokens gives the same tokens |
| Picker.PickKeepsTokens | src/App.js:345-354 | after a pick the tokens are the old ones, partial fragment included, with the option appended once |
| Picker.PickIdempotent | src/App.js:345-354 | picking the same option again leaves the text unchanged |
| Picker.PickEndsWithSeparator | src/App.js:354 | the text after a pick always ends in ", " |
| Picker.PickerState.constructor | src/App.js:16-36 | empty lists and texts, both dropdowns closed |
| Picker.PickerState.LoadOptions | src/App.js:63-80 | both option lists are set from the parsed rows and nothing else changes |
| Picker.PickerState.SelectSymptom | src/App.js:345-355 | the symptom text becomes the rendered tokens with the option; the dropdown stays open; nothing else changes |
| Picker.PickerState.SelectHealthFactor | src/App.js:388-398 | as above for health factors, and the selected text is the same join without the trailing ", " |
| AuthForm.FormData.With | src/pages/authPage/authPage.js:21-24 | only the named field changes |
| AuthForm.Message.Text | src/pages/authPage/authPage.js:41-67 | the shown texts; only a cleared message is empty |
| AuthForm.PasswordPatternOnOneLine | src/pages/authPage/authPage.js:66 | on one line the pattern holds exactly when the password has a lower-case letter, an upper-case letter, a digit and one of `@$!%*?&`, other characters allowed |
| AuthForm.PasswordPatternStopsAtLineEnd | src/pages/authPage/authPage.js:66 | "Aa\n1@" has every kind of character yet fails the pattern |
| AuthForm.EmailPatternOfParts | src/pages/authPage/authPage.js:57 | `local@domain.tld` with blank-free parts matches |
| AuthForm.EmailPatternNeedsAt | src/pages/authPage/authPage.js:57 | without an `@` nothing matches |
| AuthForm.AgeNumber | src/pages/authPage/authPage.js:49 | a blank age is the number 0 |
| AuthForm.AgeOfNumber | src/pages/authPage/authPage.js:47-51 | a decimal age passes exactly when from 10 to 120, else the range message |
| AuthForm.BlankAge | src/pages/authPage/authPage.js:47-51 | an age of blanks only gets the range message, not "Age is required" |
| AuthForm.UsernameError | src/pages/authPage/authPage.js:40-44 | no message exactly when 2 to 50 characters; "required" exactly when empty; the length message exactly when non-empty and out of range |
| AuthForm.AgeError | src/pages/authPage/authPage.js:47-51 | no message exactly when a number from 10 to 120; "required" exactly when empty; the range message exactly when non-empty and not such a number |
| AuthForm.EmailError | src/pages/authPage/authPage.js:55-59 | no message exactly when non-empty and matching the address pattern; "required" exactly when empty; the invalid-address message exactly when non-empty and not matching |
| AuthForm.PasswordError | src/pages/authPage/authPage.js:62-68 | login: only required; registration: at least 8 characters and the pattern; "required" exactly when empty; on registration the too-short message for 1 to 7 characters, checked before the pattern, and the weak message exactly when long enough but not matching |
| AuthForm.Validate | src/pages/authPage/authPage.js:35-69 | a field has a message exactly when its mode checks it and its rule fails, and the message stored is the one its rule gives |
| AuthForm.CheckRegistration | src/pages/authPage/authPage.js:38-52 | the register-only checks fill the username and age messages |
| AuthForm.CheckEmail | src/pages/authPage/authPage.js:55-59 | the e-mail branch records exactly the message of the e-mail rule, if any |
| AuthForm.CheckPassword | src/pages/authPage/authPage.js:62-68 | the password branch records exactly the message of the password rule, if any |
| AuthForm.LoginIgnoresRegistrationFields | src/pages/authPage/authPage.js:38-52 | in login mode username and age are never looked at and never get a message |
| AuthForm.ValidIff | src/pages/authPage/authPage.js:35-71 | the form is valid exactly when every checked field passes its rules |
| AuthForm.ChangeKeepsOtherRules | src/pages/authPage/authPage.js:19-24 | typing into one field does not change whether another field has a message |
| AuthForm.FailureMessage | src/pages/authPage/authPage.js:114-121 | 429 gives the rate-limit text; else a non-empty server message; else "Login failed" or "Registration failed" by mode |
| AuthForm.AuthPage.constructor | src/pages/authPage/authPage.js:8-17 | login mode, empty form, no messages |
| AuthForm.AuthPage.HandleChange | src/pages/authPage/authPage.js:19-33 | sets the named field, clears that field's message only if it had one, clears the server message |
| AuthForm.AuthPage.ValidateForm | src/pages/authPage/authPage.js:35-72 | stores the messages and returns true exactly when there are none |
| AuthForm.AuthPage.ShowFailure | src/pages/authPage/authPage.js:114-121 | the server message shown is the failure message; nothing else changes |
| AuthForm.AuthPage.RegistrationSucceeded | src/pages/authPage/authPage.js:105-111 | back to login mode with an empty form |
| AuthForm.AuthPage.ToggleMode | src/pages/authPage/authPage.js:164-174 | the other mode, an empty form, no messages |

## Left out

- Network and I/O: the Express server, CORS, the database, response headers, and the calls to the predictor, the text generator and the drug-label service. Their results are parameters (`Outcome`, `LabelResponse`), as are the parsed CSV rows of the picker and the medicine table of the recommendation filter.
- The prompt template of the recommendation route is a constant string passed to the generator; it is not modelled.
- Logging (`console.log`, `console.error`, `print` of unrecognized tokens) has no effect on results and is not modelled.
- The DataFrame wrapper of `preprocess_input`, and pandas and Papa CSV parsing, are not modelled. The result is the dictionary, and rows are records.
- Ratings in the medicine table are floating point; they are carried as opaque values.
- Python `\w` and `str.lower()` are modelled on ASCII. A non-ASCII letter is treated as removed by `normalize`, whereas Python keeps it.
- JavaScript `toLowerCase()` in the segmenter and the picker is modelled on ASCII.
- String lengths count Unicode scalar values, not UTF-16 code units. The username limit of 2 to 50 therefore differs from the page's for characters outside the Basic Multilingual Plane.
- AuthForm.AgeNumber: JavaScript's number coercion is modelled only for decimal digits with surrounding white space. Signs, fractions, exponents and hexadecimal literals count as `NaN`, so an age such as "25.5" or "+30" is rejected where the page accepts it.
- AuthForm.FailureMessage: a non-string `message` in the server's reply is not modelled. The network-error message of the `catch` branch is not modelled either.
- Non-string JSON values in the Python service (for example a numeric `symptoms`, which makes `split` fail) are not modelled. The request fields are optional strings.
- The texts of the JavaScript `TypeError` messages (`ResultsMissingMessage`, `OpenFdaMissingMessage`) are fixed constants in V8's wording; other engines word them differently.
- React rendering, the outside-click listeners, fetch and stream reading, local storage and navigation are not part of this model.
