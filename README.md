# Code review backend: response normalisation, complexity metrics, e-mail check

This project models the deterministic core of a small code-review web
backend. The backend forwards a code snippet to a hosted chat-completion model
and relays a structured review. The models' proofs are checked by the Dafny
verifier.

The model covers four parts.

- **LLM-output normalisation** (`llm.py`):
  - `_extract_json_from_text`: parse the whole reply, else the first
    ```` ```json {...} ``` ```` block, else the leftmost `{...}` with at most one
    level of nested braces, else a ValueError that quotes the first 200
    characters. `json.loads` is a parameter `parse: string -> Option<Value>`.
    The two regular-expression searches are scanning functions. Each is proved
    equal to a declarative description of a match with leftmost (and, for the
    lazy `.*?`, shortest) semantics.
  - `_validate_review_response`: a method on a mutable `PyDict` object. It is
    proved against a specification function `Validate` on the dict's entries.
  - The suggestion-structuring loop of `get_code_suggestions`.
  - The response checks and the `except` chains of `get_code_review` and
    `get_code_suggestions`, which turn every failure into a ValueError.
- **The `/review` error mapping** (`main.py`): the first `except` clause whose
  class the exception belongs to decides the status and the detail. The
  exception classes form a small inheritance tree. `/suggest` answers 500
  with `str(e)`.
- **`analyze_complexity`** (`main.py`): line count, function count, maximum
  nesting depth (a loop), the banded score accumulated with `+=` and capped at
  10, and the analysis sentence.
- **`is_valid_email`** (`utils.py`): the anchored regular expression
  `^[a-zA-Z0-9._%+-]+@[a-zA-Z0-9.-]+\.[a-zA-Z]{2,}$` under `re.match`. It is
  decided by a scan: the first `@` and the last `.`. The scan is proved
  equivalent to the pattern. Python's `$` also matches before one final
  newline, and the model includes this.

Python's own behaviour is modelled where the code depends on it. This covers
`str.isspace`, `strip`/`lstrip`, `split`, `count`, truthiness, `int(...)`,
`list(...)`, `str(...)`, dict lookup and assignment with insertion order, and
`issubclass`. These models live in `pytext.dfy`, `pyvalue.dfy` and
`exceptions.dfy`.

Two behaviours of the code worth knowing:
- A score of `0` is falsy, so validation turns it into the default 5, not 1.
- The gateway wraps every SDK error into a plain ValueError. So `/review`
  answers 500 with "An unexpected error occurred: …" for every failure of
  `get_code_review`. Its 401/429/503/502 clauses and its JSON-decoding and
  KeyError clauses are never reached from there. The mapping is still
  modelled and proved as a stand-alone classification
  (`Gateway.ReviewFailuresAre500`, `ReviewErrors.ReviewStatus`).

## Model

| member | source | states |
|---|---|---|
| JsonExtract.SkipSpace | src/backend/app/llm.py:37 | `\s*` consumes a maximal run of whitespace: everything skipped is whitespace and the stop is not |
| JsonExtract.SkipSpaceStopsAt | src/backend/app/llm.py:37 | the whitespace run ends exactly at the first non-whitespace character |
| JsonExtract.LazyClose | src/backend/app/llm.py:37 | the lazy `\{.*?\}` ends at the first `}` followed by whitespace and a closing fence, and no earlier `}` qualifies |
| JsonExtract.ClosesAtIff | src/backend/app/llm.py:37 | the scanning test for whitespace and a closing fence after a `}` agrees with its declarative form |
| JsonExtract.FencedMatchGroupStart | src/backend/app/llm.py:37 | in a fenced match starting at p, the captured `{` position is forced by the fence, the optional `json` tag and `\s*` |
| JsonExtract.FencedMatch | src/backend/app/llm.py:37 | defines, declaratively, a match of the fenced pattern from p with group 1 at q..e; the reference side of FencedAtSound, FencedAtComplete and FencedScanFrom |
| JsonExtract.FencedAt | src/backend/app/llm.py:37 | defines the scan for a fenced match at one start position; characterised by FencedAtSound, FencedAtComplete, FencedAtNone and FencedAtShortest |
| JsonExtract.FencedAtSound | src/backend/app/llm.py:37 | what the scan finds at p is a fenced match |
| JsonExtract.FencedAtComplete | src/backend/app/llm.py:37 | if a fenced match starts at p, the scan finds one there with the same group start and the shortest end |
| JsonExtract.FencedAtNone | src/backend/app/llm.py:37 | when the scan finds nothing at p, no fenced match starts at p |
| JsonExtract.FencedAtShortest | src/backend/app/llm.py:37 | what the scan finds at p ends no later than any fenced match starting at p |
| JsonExtract.FencedScanBounds | src/backend/app/llm.py:37-39 | a found fenced block lies inside the text, so `group(1)` is a proper slice |
| JsonExtract.FencedScanFrom | src/backend/app/llm.py:37 | `re.search` for the fenced block: nothing is found iff no match exists; otherwise the match is leftmost and, at that start, shortest |
| JsonExtract.FencedScan | src/backend/app/llm.py:37 | defines `re.search` for the fenced block from a start position; characterised by FencedScanFrom and FencedScanBounds |
| JsonExtract.FencedGroup | src/backend/app/llm.py:37-39 | defines `json_match.group(1)`: the `{...}` of the first fenced block; characterised by ExtractJsonFenced |
| JsonExtract.SkipNonBrace | src/backend/app/llm.py:42 | `[^{}]*` consumes a maximal run of non-brace characters |
| JsonExtract.BracesAppend | src/backend/app/llm.py:42 | the brace profile of a concatenation is the concatenation of the profiles |
| JsonExtract.BracesOfNonBraces | src/backend/app/llm.py:42 | text without braces has an empty brace profile |
| JsonExtract.BracesFrom | src/backend/app/llm.py:42 | the brace profile of a slice, one character at a time |
| JsonExtract.BracesSplit | src/backend/app/llm.py:42 | the brace profile of a slice splits at any midpoint |
| JsonExtract.BracesSkip | src/backend/app/llm.py:42 | skipping non-brace characters leaves the brace profile unchanged |
| JsonExtract.IsPairsCons | src/backend/app/llm.py:42 | `(\{[^{}]*\}[^{}]*)*` in profile terms: a leading `{}` pair can be dropped |
| JsonExtract.BracesOfPair | src/backend/app/llm.py:42 | one inner `{ … }` with non-brace text around contributes exactly `{}` to the profile |
| JsonExtract.PairThenPairs | src/backend/app/llm.py:42 | an inner pair followed by a run of inner pairs is a run of inner pairs |
| JsonExtract.BraceObjectSpan | src/backend/app/llm.py:42 | defines, declaratively, a substring the bare-object pattern matches; the reference side of BraceObjectAtSound, BraceObjectAtComplete and BraceScanFrom |
| JsonExtract.ClosePairs | src/backend/app/llm.py:42 | defines the scan for the inner pairs and the closing brace; characterised by ClosePairsSound and ClosePairsComplete |
| JsonExtract.BraceObjectAt | src/backend/app/llm.py:42 | defines the scan for a bare-object match at one start position; characterised by BraceObjectAtSound and BraceObjectAtComplete |
| JsonExtract.ClosePairsSound | src/backend/app/llm.py:42 | the scan for the inner pairs ends after a `}` and covers only complete inner pairs |
| JsonExtract.FirstPair | src/backend/app/llm.py:42 | a run of inner pairs starts with a `{` whose `}` is the next brace |
| JsonExtract.ClosePairsComplete | src/backend/app/llm.py:42 | if inner pairs followed by `}` end at e, the scan ends exactly at e |
| JsonExtract.InnerSlice | src/backend/app/llm.py:42 | (helper) the interior of a candidate object is the slice between its outer braces |
| JsonExtract.BraceObjectSpanOf | src/backend/app/llm.py:42 | a `{`, a run of inner pairs and a closing `}` form a one-level object match |
| JsonExtract.BraceObjectAtSound | src/backend/app/llm.py:42 | what the scan finds at p matches `\{[^{}]*(?:\{[^{}]*\}[^{}]*)*\}` |
| JsonExtract.BraceObjectAtComplete | src/backend/app/llm.py:42 | a match at p is unique and the scan finds it |
| JsonExtract.BraceScanFrom | src/backend/app/llm.py:42 | `re.search` for the bare object: nothing is found iff no match exists; otherwise the match is the leftmost one |
| JsonExtract.BraceScan | src/backend/app/llm.py:42 | defines `re.search` for the one-level brace object from a start position; characterised by BraceScanFrom |
| JsonExtract.BraceObject | src/backend/app/llm.py:42-44 | defines `json_match.group(0)`: the first one-level brace object; characterised by ExtractJsonBare |
| JsonExtract.ErrorPrefix | src/backend/app/llm.py:46 | `text[:200]`: the prefix of exactly min(200, length) characters, so the whole text when it is shorter |
| JsonExtract.ParseCandidate | src/backend/app/llm.py:39 | `json.loads` of a candidate succeeds with its value exactly when the parser accepts it, else JSONDecodeError |
| JsonExtract.ExtractJson | src/backend/app/llm.py:28-46 | a failure is either a decode error (only when the direct parse failed) or the "could not extract" error quoting `text[:200]` |
| JsonExtract.ExtractJsonDirect | src/backend/app/llm.py:31-32 | text that parses is returned as parsed; no fallback is consulted |
| JsonExtract.ExtractJsonFenced | src/backend/app/llm.py:37-39 | with the direct parse failing, the result is the parse of the leftmost-shortest fenced block's `{...}`; a decode error there is final |
| JsonExtract.ExtractJsonBare | src/backend/app/llm.py:42-44 | with no fenced block, the result is the parse of the leftmost one-level brace object |
| JsonExtract.ExtractJsonNotFound | src/backend/app/llm.py:30-46 | the "could not extract" error is raised iff the direct parse fails and neither pattern matches anywhere |
| JsonExtract.ExtractJsonWithoutBrace | src/backend/app/llm.py:37-46 | text with no `{` that does not parse gives the error quoting only `text[:200]` |
| ReviewValidation.Clamp | src/backend/app/llm.py:62 | `max(1, min(10, n))` lies in 1..10, keeps values already there, maps below to 1 and above to 10 |
| ReviewValidation.SuggestionsValue | src/backend/app/llm.py:58 | defines `list(v) if v else []`; characterised by SuggestionsCoercionErrors and ValidateNormalises |
| ReviewValidation.ScoreValue | src/backend/app/llm.py:59 | defines `int(v) if v else 5`; characterised by ScoreCoercionErrors, IntegerScore, NonIntegerScore, LongScore, FalsyScoreExamples and PaddedStringScore |
| ReviewValidation.Validate | src/backend/app/llm.py:49-64 | defines the statements of `_validate_review_response` on the dict's entries, an exception leaving earlier assignments in place; characterised by ValidateMissingKeys, ValidateSucceeds, ValidateNormalises, ValidateScoreInRange and ValidateKeepsOtherKeys |
| ReviewValidation.ValidateReviewResponse | src/backend/app/llm.py:49-64 | the dict is updated in place to the entries `Validate` prescribes; it succeeds exactly when `Validate` raises nothing and then returns the same dict object; otherwise it raises `Validate`'s error |
| ReviewValidation.AssignTwice | src/backend/app/llm.py:59-62 | assigning `score` twice leaves only the second value |
| ReviewValidation.ValidateMissingKeys | src/backend/app/llm.py:51-54 | the missing-keys error is raised iff a required key is absent; it names exactly the absent ones, which are non-empty, and the dict is untouched |
| ReviewValidation.SuggestionsCoercionErrors | src/backend/app/llm.py:58 | `list(...)` of a truthy suggestions value can only fail with a TypeError |
| ReviewValidation.ScoreCoercionErrors | src/backend/app/llm.py:59-62 | `int(...)` of a score can only fail with a TypeError or an invalid-literal ValueError |
| ReviewValidation.RaisedAfterKeyCheck | src/backend/app/llm.py:51-62 | once all keys are present, any error raised is a coercion error, never the missing-keys one |
| ReviewValidation.ValidateSucceeds | src/backend/app/llm.py:51-62 | validation succeeds iff all keys are present and both coercions succeed |
| ReviewValidation.ValidateNormalises | src/backend/app/llm.py:57-62 | after success, `review` is the `str` of the input, `suggestions` is the list (or `[]` when falsy) and `score` is the clamped integer (5 when falsy) |
| ReviewValidation.ValidateScoreInRange | src/backend/app/llm.py:57-62 | after success the dict has a string review, a list of suggestions and an integer score in 1..10 |
| ReviewValidation.ValidateKeepsOtherKeys | src/backend/app/llm.py:56-64 | keys other than the three are unchanged, and the key order and count are kept |
| ReviewValidation.FalsyScoreExamples | src/backend/app/llm.py:59 | a score of 0, None, "" or False becomes 5 |
| ReviewValidation.ClampedScoreExamples | src/backend/app/llm.py:59-62 | 11 clamps to 10, -3 to 1, 7 stays, True counts as 1 |
| ReviewValidation.IntegerScore | src/backend/app/llm.py:59 | a truthy string that `int()` accepts converts to the integer it denotes |
| ReviewValidation.PaddedStringScore | src/backend/app/llm.py:59-62 | digits with a space before and a newline after form a truthy string that converts to their value; `" 0\n"` gives 0, which clamps to 1 |
| ReviewValidation.LongScore | src/backend/app/llm.py:59 | a score of more than 4300 digits raises a ValueError although every character is a digit |
| ReviewValidation.NonIntegerScore | src/backend/app/llm.py:59 | a truthy string that `int()` rejects raises a ValueError naming the literal |
| ReviewValidation.BadScoreExamples | src/backend/app/llm.py:59 | a word starting and ending with a lower-case letter, such as `seven`, raises ValueError naming it; a list raises TypeError |
| PyValue.Falsy | src/backend/app/llm.py:58-59 | defines Python truthiness of a JSON value; characterised by FalsyScoreExamples and ValidateNormalises |
| PyValue.PyStr | src/backend/app/llm.py:57 | defines `str(v)`; characterised by PyText.ParseIntRoundTrip (an integer's text reads back), Suggestions.StructureAsValue (a string is itself) and the repr simplification under Left out |
| PyValue.Keys | src/backend/app/llm.py:52-53 | defines `set(d.keys())`; characterised by Lookup's contract and ValidateMissingKeys |
| PyValue.Lookup | src/backend/app/llm.py:52 | a key is found exactly when it is among the dict's keys |
| PyValue.Assign | src/backend/app/llm.py:57-62 | defines `d[k] = v` on the dict's entries; characterised by AssignLookup, AssignKeepsOrder and ReviewValidation.AssignTwice |
| PyValue.AssignLookup | src/backend/app/llm.py:57-62 | after `d[k] = v`, `d[k]` is v and every other key reads as before |
| PyValue.AssignKeepsOrder | src/backend/app/llm.py:57-62 | overwriting an existing key keeps the dict's size and key order |
| PyValue.PyDict.constructor | src/backend/app/llm.py:171 | the dict holds the parsed reply's entries |
| PyValue.PyDict.Get | src/backend/app/llm.py:57-59 | `d[k]` of a present key is its value |
| PyValue.PyDict.Set | src/backend/app/llm.py:57-62 | `d[k] = v` replaces the value in place, or appends the key |
| PyValue.PyInt | src/backend/app/llm.py:59 | `int(v)`: an integer is itself; None, a list or a dict raises TypeError; a ValueError comes only from strings |
| PyValue.PyList | src/backend/app/llm.py:58 | `list(v)`: a list is itself, a string gives its characters, a dict its keys, anything else raises TypeError |
| PyText.ParseInt | src/backend/app/llm.py:59 | defines `int(s)` of a string; characterised by ParseIntRoundTrip, ParseIntOfDigits, ParseIntOfNegated, IntDigitLimit, IntStripsAsciiSpace, IntStripsUnicodeSpace, ParseIntRejects, IntKeepsAsciiSeparator and IntKeepsSeparatorBesideUnicodeSpace |
| PyText.IntStrip | src/backend/app/llm.py:59 | defines the surrounding whitespace `int()` ignores; characterised by DecimalHasNoSpace, AsciiSpacedStrip, SeparatorBesideUnicodeSpaceStrip, IntKeepsAsciiSeparator and IntKeepsSeparatorBesideUnicodeSpace |
| PyText.IsIntSpace | src/backend/app/llm.py:59 | defines the whitespace `int()` skips: C's `isspace` characters and the `str.isspace` characters from U+007F up, never U+001C-U+001F; characterised by IntKeepsAsciiSeparator, IntStripsUnicodeSpace and IntKeepsSeparatorBesideUnicodeSpace |
| PyText.ParseSigned | src/backend/app/llm.py:59 | defines an optional sign followed by at most 4300 decimal digits, CPython's default limit; characterised by ParseSignedOfDigits, ParseSignedOfNegated and IntDigitLimit |
| PyText.ParseIntRoundTrip | src/backend/app/llm.py:59 | `int(str(i)) == i` for every integer of at most 4300 digits, the ones CPython's `str()` converts |
| PyText.IntDigitLimit | src/backend/app/llm.py:59 | a digit string converts to its value iff it has at most 4300 digits; a longer one raises ValueError |
| PyText.NatToDecimalValue | src/backend/app/llm.py:59 | the decimal digits of n read back as n |
| PyText.DecimalHasNoSpace | src/backend/app/llm.py:59 | `int()` finds no surrounding whitespace to strip in a decimal literal |
| PyText.ParseIntOfDigits | src/backend/app/llm.py:59 | a digit string converts to its value |
| PyText.ParseIntOfNegated | src/backend/app/llm.py:59 | `-` followed by digits converts to the negated value |
| PyText.ParseSignedOfDigits | src/backend/app/llm.py:59 | unsigned digits read as their value |
| PyText.NegatedIsDecimal | src/backend/app/llm.py:59 | (helper) `-` followed by digits is made of digits and minus signs |
| PyText.ParseSignedOfNegated | src/backend/app/llm.py:59 | a minus sign before digits reads as the negated value |
| PyText.ParseIntOfStripped | src/backend/app/llm.py:59 | once `int()` has stripped a string down to digits, it reads their value |
| PyText.IntStripsAsciiSpace | src/backend/app/llm.py:59 | `int()` ignores ASCII whitespace around digits: a space before and a newline after |
| PyText.ParseIntRejects | src/backend/app/llm.py:59 | a string without surrounding whitespace for `int()` that starts with neither a digit nor a sign is rejected |
| PyText.ParseSignedRejects | src/backend/app/llm.py:59 | text starting with neither a digit nor a sign is no signed number |
| PyText.IntKeepsAsciiSeparator | src/backend/app/llm.py:59 | U+001C is `str.isspace`, yet `int()` rejects it before digits |
| PyText.IntStripsUnicodeSpace | src/backend/app/llm.py:59 | `int()` skips the non-ASCII space U+00A0 before digits and reads their value |
| PyText.IntKeepsSeparatorBesideUnicodeSpace | src/backend/app/llm.py:59 | U+001C is not whitespace for `int()` even next to U+00A0: `int("\xa0\x1c7")` is rejected |
| PyText.NothingToStrip | src/backend/app/main.py:175 | (helper) text whose ends are not whitespace is left as it is by stripping |
| PyText.DigitsUnstripped | src/backend/app/llm.py:59 | (helper) digits have no whitespace for `int()` to strip |
| PyText.LStripOne | src/backend/app/main.py:191 | (helper) one leading whitespace character is stripped and the rest stripped as before |
| PyText.RStripOne | src/backend/app/main.py:175 | (helper) one trailing whitespace character is stripped and the rest stripped as before |
| PyText.AsciiSpacedStrip | src/backend/app/llm.py:59 | (helper) `int()` strips the space and the newline around digits |
| PyText.IntStripOne | src/backend/app/llm.py:59 | (helper) `int()` drops one leading whitespace character and strips the rest as before |
| PyText.IntStripLast | src/backend/app/llm.py:59 | (helper) `int()` drops one trailing whitespace character after text not starting with whitespace |
| PyText.SeparatorBesideUnicodeSpaceStrip | src/backend/app/llm.py:59 | (helper) `int()` strips U+00A0 before U+001C and digits, and keeps the U+001C |
| PyText.DigitChar | src/backend/app/llm.py:59 | the digit character of d is a digit whose value is d |
| PyText.IntToDecimal | src/backend/app/llm.py:57 | defines `str(i)` of an integer; characterised by ParseIntRoundTrip |
| PyText.NatToDecimal | src/backend/app/llm.py:57 | `str` of a natural number is a string of decimal digits |
| Suggestions.GetOr | src/backend/app/llm.py:253-255 | `d.get(k, default)` is the value under k when present, else the default |
| Suggestions.Structure | src/backend/app/llm.py:250-263 | defines one iteration of the structuring loop; characterised by StructureDict, StructureLegacy, StructureAsValue and StructureTwice |
| Suggestions.SuggestionItems | src/backend/app/llm.py:243-246 | defines `result.get("suggestions", [])` and the list check; characterised by SuggestionItemsCases |
| Suggestions.StructureSuggestions | src/backend/app/llm.py:249-265 | the loop yields one structured suggestion per item, same length, same order |
| Suggestions.StructureDict | src/backend/app/llm.py:251-256 | a dict item keeps its string text, severity and category, and gets `str(item)`, "medium" and "maintainability" for the ones it lacks |
| Suggestions.StructureLegacy | src/backend/app/llm.py:257-263 | a non-dict item becomes its `str` with severity "medium" and category "maintainability" |
| Suggestions.StructureAsValue | src/backend/app/llm.py:252-256 | structuring is idempotent: a structured suggestion, as the returned dict, structures to itself |
| Suggestions.StructureTwice | src/backend/app/llm.py:249-263 | structuring a list twice gives the same list as once |
| Suggestions.SuggestionItemsCases | src/backend/app/llm.py:243-246 | a reply without `suggestions` has none, a non-list raises, a list is taken as it is |
| Gateway.FaultClass | src/backend/app/llm.py:174-181 | defines the class of the exception raised in the `try`; characterised by WrapIsValueError and CallFailures |
| Gateway.ErrorClass | src/backend/app/llm.py:174-181 | defines the class of the exception leaving the function; characterised by WrapIsValueError and ReviewFailuresAre500 |
| Gateway.Content | src/backend/app/llm.py:161-168 | defines the checks on the response; characterised by ResponseChecks |
| Gateway.Wrap | src/backend/app/llm.py:174-181 | defines the `except` chain of both functions; characterised by WrapIsValueError, CallFailures and ExtractionFailures |
| Gateway.ReviewBody | src/backend/app/llm.py:160-172 | defines the `try` body of `get_code_review` after the call; characterised, through CodeReview, by CodeReviewShape, ResponseChecks, ExtractionFailures and NonDictReply |
| Gateway.SuggestionsBody | src/backend/app/llm.py:231-265 | defines the `try` body of `get_code_suggestions` after the call; characterised, through CodeSuggestions, by CodeSuggestionsFromReply, ResponseChecks, ExtractionFailures and NonDictReply |
| Gateway.CodeReview | src/backend/app/llm.py:160-181 | defines `get_code_review` after the call; characterised by CodeReviewShape, ResponseChecks, CallFailures, ExtractionFailures, NonDictReply and ReviewFailuresAre500 |
| Gateway.CodeSuggestions | src/backend/app/llm.py:231-274 | defines `get_code_suggestions` after the call; characterised by CodeSuggestionsFromReply, ResponseChecks, CallFailures, ExtractionFailures and NonDictReply |
| Gateway.GetCodeReview | src/backend/app/llm.py:160-181 | the method follows `CodeReview`: response checks, extraction, validation, exception wrapping |
| Gateway.GetCodeSuggestions | src/backend/app/llm.py:231-274 | the method follows `CodeSuggestions`: response checks, extraction, the list check, structuring, exception wrapping |
| Gateway.WrapIsValueError | src/backend/app/llm.py:174-181 | every exception leaving the gateway is a plain ValueError |
| Gateway.ReviewFailuresAre500 | src/backend/app/llm.py:174-181 | every failure of `get_code_review` reaches `/review` as a 500 with the catch-all detail |
| Gateway.CodeReviewShape | src/backend/app/llm.py:170-172 | a successful review has the top-level shape of the response: a string review, a list of suggestions and a score in 1..10 |
| Gateway.ResponseChecks | src/backend/app/llm.py:161-168 | in both functions (also llm.py:232-239), no choices, or a first choice without content, raise the corresponding ValueError (naming the finish reason), re-raised as it is |
| Gateway.CallFailures | src/backend/app/llm.py:176-181 | in both functions (also llm.py:269-274), an SDK error from the call becomes "Azure OpenAI API error"; a KeyError or TypeError becomes "Unexpected error" |
| Gateway.ExtractionFailures | src/backend/app/llm.py:171-175 | in both functions (also llm.py:242, 267-268), a decode error becomes "Invalid JSON"; a reply with no `{` that does not parse re-raises the "could not extract" error |
| Gateway.NonDictReply | src/backend/app/llm.py:171-181 | in both functions (also llm.py:243, 271-274), a reply that is JSON but not an object fails with a TypeError, wrapped as an unexpected error |
| Gateway.CodeSuggestionsFromReply | src/backend/app/llm.py:242-265 | from a reply dict: one structured suggestion per listed item, in order; none when the key is absent; an error when it is not a list |
| Exceptions.Base | src/backend/app/main.py:95-141 | every class but `Exception` has a direct base class, different from itself |
| Exceptions.IsSubclass | src/backend/app/main.py:95-141 | defines `issubclass` on the class tree, which decides every `except` clause; characterised by SubclassFollowsBase and EveryClassIsException |
| Exceptions.SubclassFollowsBase | src/backend/app/main.py:95-141 | `issubclass(c, d)` holds iff c is d or c's direct base class is a subclass of d |
| Exceptions.EveryClassIsException | src/backend/app/main.py:137 | every class is an `Exception`, so the last clause catches everything |
| ReviewErrors.FirstMatch | src/backend/app/main.py:94-141 | the clause found catches the class and no earlier clause does; none found means no clause catches it |
| ReviewErrors.FirstMatchAt | src/backend/app/main.py:94-141 | the first catching clause is the k-th when the k-th catches and none before does |
| ReviewErrors.CaughtBy | src/backend/app/main.py:95-141 | which classes each `except` clause of `/review` catches, by subclassing |
| ReviewErrors.HandlersCatch | src/backend/app/main.py:95-141 | `/review` has seven clauses, naming authentication, rate limit, connection, API, JSON decoding, KeyError and Exception in that order |
| ReviewErrors.ReviewClause | src/backend/app/main.py:95-141 | defines the `except` chain of `/review` read as an if-chain in source order; characterised by ReviewFirstMatch |
| ReviewErrors.ReviewFirstMatch | src/backend/app/main.py:95-141 | every class is caught, by the clause the class tree selects |
| ReviewErrors.ReviewError | src/backend/app/main.py:94-141 | defines the answer of `/review` as the first matching clause's response; characterised by ReviewStatus, ReviewServerError and ReviewDetail |
| ReviewErrors.ReviewStatus | src/backend/app/main.py:95-141 | first match wins: authentication 401, rate limit 429, connection 503, other API error 502, everything else 500 |
| ReviewErrors.ReviewServerError | src/backend/app/main.py:122-141 | the answer is 500 iff the exception is not an API error; a ValueError gets "An unexpected error occurred: " + `str(e)` |
| ReviewErrors.ReviewDetail | src/backend/app/main.py:95-141 | the 401, 429 and 503 details are fixed; the 502 one appends `str(e)`; a decode error gets its fixed 500 text; a KeyError gets "Invalid response structure from AI: missing field " + `str(e)`; an exception no earlier clause catches gets "An unexpected error occurred: " + `str(e)` |
| ReviewErrors.SuggestError | src/backend/app/main.py:158-159 | `/suggest` answers any exception with 500 and `str(e)` |
| PyText.IsSpace | src/backend/app/main.py:175 | defines `str.isspace` and the `\s` class; characterised by LStrip's and RStrip's contracts, JsonExtract.SkipSpace and IntKeepsAsciiSeparator |
| PyText.LStrip | src/backend/app/main.py:191 | `lstrip` removes exactly a maximal `str.isspace` prefix: the result is a suffix of the text, everything removed is whitespace, and the result does not start with whitespace |
| PyText.LStripBy | src/backend/app/main.py:191 | the same for a chosen whitespace set (`str.isspace`, or C's ASCII whitespace for `int()`) |
| PyText.RStrip | src/backend/app/main.py:175 | removes exactly a maximal `str.isspace` suffix: the result is a prefix of the text, everything removed is whitespace, and the result does not end with whitespace |
| PyText.RStripBy | src/backend/app/main.py:175 | the same for a chosen whitespace set |
| PyText.Strip | src/backend/app/main.py:175 | defines `str.strip()` as the right strip of the left strip; characterised by LStrip's and RStrip's contracts |
| PyText.CountChar | src/backend/app/main.py:202 | a count is at most the length, and zero exactly when the character is absent |
| PyText.Split | src/backend/app/main.py:175 | `split` never returns an empty list |
| PyText.SplitCount | src/backend/app/main.py:175-176 | `split('\n')` gives one more piece than there are separators |
| PyText.SplitNoSeparator | src/backend/app/main.py:175-176 | no piece of `split('\n')` holds a newline |
| PyText.SplitJoin | src/backend/app/main.py:175-176 | joining the pieces with the separator restores the text |
| PyText.JoinCons | src/backend/app/main.py:175-176 | (helper) joining a piece in front of others puts one separator between them |
| PyText.JoinHead | src/backend/app/main.py:175-176 | (helper) extending the first piece by a character extends the joined text by it |
| PyText.SplitPieces | src/backend/app/main.py:175-176 | `split('\n')` gives one more piece than there are separators; no piece holds one; joining restores the text |
| PyText.Contains | src/backend/app/main.py:183 | defines `sub in s`; characterised by ContainsInPrefix, ContainsTransitive and Complexity.AsyncDefCountsOnce |
| PyText.StartsWith | src/backend/app/main.py:194 | defines `s.startswith(prefix)`; characterised by ContainsInPrefix and Complexity.MaxDepthIgnoresSkipped |
| PyText.ContainsInPrefix | src/backend/app/main.py:183 | a substring of a prefix is a substring of the whole |
| PyText.ContainsTransitive | src/backend/app/main.py:183 | a substring of a substring is a substring |
| Complexity.Lines | src/backend/app/main.py:175 | defines `code.strip().split('\n')`; characterised by LineCount |
| Complexity.IsFunctionLine | src/backend/app/main.py:180-183 | defines the keyword test on the stripped line; characterised by FunctionCount and AsyncDefCountsOnce |
| Complexity.IsSkipped | src/backend/app/main.py:191-195 | defines the blank and comment lines the depth loop skips; characterised by MaxDepthIgnoresSkipped |
| Complexity.Indent | src/backend/app/main.py:199 | defines `len(line) - len(line.lstrip())`; characterised by LStrip's contract, TabIndentDepth and SpaceIndentDepth |
| Complexity.LineDepth | src/backend/app/main.py:199-205 | defines a line's depth from its indentation; characterised by TabIndentDepth, SpaceIndentDepth and TabOutsideIndent |
| Complexity.MaxDepth | src/backend/app/main.py:187-208 | defines the maximum depth as a function; characterised by MaxDepthIsMaximum, MaxDepthSnoc, MaxDepthIgnoresSkipped and MaxNestingDepth |
| Complexity.LineCount | src/backend/app/main.py:175-176 | the line count is at least 1 and is one more than the newlines of the stripped code; no line holds a newline |
| Complexity.FunctionCount | src/backend/app/main.py:180-184 | at most one per line, so never more than the line count; zero iff no line holds a keyword |
| Complexity.AsyncDefCountsOnce | src/backend/app/main.py:180-184 | an `async def ` line also holds `def ` yet counts once |
| Complexity.MaxDepthIsMaximum | src/backend/app/main.py:187-208 | the depth is at least every counted line's depth and, unless 0, equal to one of them |
| Complexity.MaxDepthSnoc | src/backend/app/main.py:187-208 | one more line keeps the depth when skipped or no deeper, and otherwise sets it to its own depth |
| Complexity.MaxDepthIgnoresSkipped | src/backend/app/main.py:193-195 | empty, `#` and `//` lines never change the depth, wherever they stand |
| Complexity.MaxNestingDepth | src/backend/app/main.py:187-208 | the loop computes the maximum depth over the lines it does not skip |
| Complexity.LStripPrefix | src/backend/app/main.py:191 | `lstrip` of whitespace followed by text is that text |
| Complexity.Repeat | src/backend/app/main.py:199-205 | (helper) n copies of a character |
| Complexity.CountRepeat | src/backend/app/main.py:202 | n copies of c hold n of c |
| Complexity.TabIndentDepth | src/backend/app/main.py:199-202 | a line indented by n tabs has depth n |
| Complexity.SpaceIndentDepth | src/backend/app/main.py:203-205 | a line indented by n spaces and holding no tab has depth n div 4 |
| Complexity.TabOutsideIndent | src/backend/app/main.py:199-202 | a tab after the indentation alone makes the depth 0, however many spaces indent the line |
| Complexity.LinePoints | src/backend/app/main.py:216-221 | defines the line-count band (0-3 points); characterised by Score, ScoreMonotone and ScoreMinimal |
| Complexity.FunctionPoints | src/backend/app/main.py:225-230 | defines the function-count band (0-3 points); characterised by Score, ScoreMonotone and ScoreMinimal |
| Complexity.DepthPoints | src/backend/app/main.py:234-241 | defines the nesting-depth band (0-4 points); characterised by Score, ScoreMonotone and ScoreMinimal |
| Complexity.RawScore | src/backend/app/main.py:212-241 | the uncapped points lie in 1..11 |
| Complexity.ComplexityScore | src/backend/app/main.py:243-244 | the score lies in 1..10 and is the raw points unless they exceed 10 |
| Complexity.Score | src/backend/app/main.py:212-244 | the `+=` chain followed by the cap computes the score |
| Complexity.ScoreIsCapped | src/backend/app/main.py:243-244 | the points reach 11 for long, function-heavy, deeply nested code, and the cap makes it 10 |
| Complexity.ScoreMonotone | src/backend/app/main.py:216-241 | the score never falls when any metric grows |
| Complexity.ScoreMinimal | src/backend/app/main.py:212-241 | the score is 1 iff at most 50 lines, 2 functions and depth 1 |
| Complexity.Analysis | src/backend/app/main.py:247-254 | defines the band sentence of a score; characterised by AnalysisBands |
| Complexity.AnalysisBands | src/backend/app/main.py:247-254 | scores 1-3 are low, 4-6 moderate, 7-8 high and 9-10 very high complexity |
| Complexity.AnalyzeComplexity | src/backend/app/main.py:171-263 | the metrics are the line count, function count, maximum depth, capped score and band sentence of the code |
| Email.FirstIndex | src/backend/app/utils.py:36-37 | the first occurrence of a character, or none |
| Email.LastIndex | src/backend/app/utils.py:36-37 | the last occurrence of a character, or none |
| Email.ShapeAtIsUnique | src/backend/app/utils.py:36-37 | in any match, the `@` is the first one and the `.` before the top-level part is the last one |
| Email.ShapeIff | src/backend/app/utils.py:36-37 | the scan accepts exactly the strings the unanchored pattern covers |
| Email.ShapeAtChars | src/backend/app/utils.py:36 | in a match with the `@` at a, a is the only `@`, and there is no space and no newline |
| Email.ShapeAt | src/backend/app/utils.py:36 | defines, declaratively, a match of the pattern with the `@` at a and the top-level `.` at d; characterised by ShapeAtIsUnique and ShapeAtChars |
| Email.MatchesPattern | src/backend/app/utils.py:36 | defines the unanchored pattern covering the whole string; the reference side of ShapeIff and IsValidEmailIff |
| Email.Shape | src/backend/app/utils.py:36 | defines the scan for the unanchored pattern: first `@`, last `.`; characterised by ShapeIff, ShapeAtIsUnique, ShapeChars and ShapeHasOneAt |
| Email.MatchesAnchored | src/backend/app/utils.py:36-37 | defines `re.match` with `^…$`, `$` also matching before one final newline; characterised by IsValidEmailIff and TrailingNewline |
| Email.IsValidEmail | src/backend/app/utils.py:24-37 | defines `is_valid_email` for a string argument; characterised by IsValidEmailIff, AcceptedHasOneAt, SpaceRejects, TrailingNewline, LooseDomainAccepted and RejectedInputs |
| Email.IsValidEmailValue | src/backend/app/utils.py:33-37 | defines `is_valid_email` for any argument, rejecting a non-string; characterised by RejectedInputs |
| Email.IsValidEmailIff | src/backend/app/utils.py:33-37 | accepted iff the pattern covers the string, or the string minus one final newline |
| Email.ShapeChars | src/backend/app/utils.py:36 | in a match the `@` is unique, and there is no space and no newline |
| Email.CountAppend | src/backend/app/utils.py:36 | (helper) counts add up over concatenation |
| Email.ShapeHasOneAt | src/backend/app/utils.py:36 | a match holds exactly one `@` |
| Email.AcceptedHasOneAt | src/backend/app/utils.py:36-37 | an accepted address holds exactly one `@` |
| Email.SpaceRejects | src/backend/app/utils.py:36-37 | a space anywhere rejects the address |
| Email.TrailingNewline | src/backend/app/utils.py:37 | an address followed by one newline is accepted; followed by two it is not |
| Email.LooseDomainAccepted | src/backend/app/utils.py:36 | dots may stand anywhere in the domain: `a@..co` is accepted |
| Email.RejectedInputs | src/backend/app/utils.py:33-34 | the empty string and non-strings are rejected |

## Left out

- The Azure OpenAI client, its configuration from the environment, the prompt texts and the `chat.completions.create` call (`llm.py:13-25`, `102-158`, `205-229`). These are network I/O through a foreign SDK. The call's outcome is a parameter: the returned choices, or the class of the exception it raised.
- The constant mock responses returned when no client is configured (`llm.py:83-100`, `198-203`).
- The JSON grammar. `json.loads` is the parameter `parse`, so nothing is claimed about which texts are valid JSON. The parameter either returns a value or fails with JSONDecodeError. The other exceptions `json.loads` can raise are not modelled: RecursionError for deeply nested input, and ValueError for an integer literal over CPython's 4300-digit limit. In the source these escape the direct parse (`llm.py:31-34`) without the two fallbacks being tried, where the model would go on to them.
- Floating-point JSON numbers. The value model has null, booleans, integers, strings, lists and dicts. `int()` of a float and `calculate_average` in `utils.py` are not modelled.
- PyValue.PyStr: `str()` of a list or dict uses a simplified `repr`. Strings are quoted with `'` and nothing is escaped. `str()` of an integer over 4300 digits, which CPython refuses, is not modelled; `json.loads` cannot produce one.
- PyText.ParseInt: `int()` of a string accepts surrounding whitespace, a sign and ASCII digits. It does not accept underscores (`int("1_000")`) or non-ASCII digits, which CPython accepts. The whitespace is CPython's: tab, line feed, vertical tab, form feed, carriage return, space and the non-ASCII `str.isspace` characters, but never the separators U+001C-U+001F (`PyText.IsIntSpace`). The 4300-digit limit is CPython's default since 3.11 (`PyText.MaxStrDigits`); changing it with `sys.set_int_max_str_digits` or `PYTHONINTMAXSTRDIGITS` is not modelled, and the ValueError for too many digits is not told apart from the one for an invalid literal.
- An AttributeError (`.get` on a reply that is not a dict) is modelled as a TypeError. Both reach the same `except Exception` clause.
- `LookupError`, the SDK's base error class and other intermediate classes are not in the class tree. They introduce no `except` clause of their own.
- Exception messages are modelled only where they become a response detail. The texts of the wrapped ValueErrors in `llm.py` are not modelled.
- FastAPI, CORS, `/health`, the response models and `uvicorn` startup (`main.py:7-32`, `267-269`).
- Request validation by pydantic: `code` must have 10 to 10000 characters (`main.py:37`), or FastAPI answers 422 before any handler runs. The complexity model accepts every string, so its results also cover the accepted ones.
- The `except Exception` of `analyze_complexity` (`main.py:264-265`). Nothing in its body can raise for a string argument.
- Concurrency and `async`. Each request is modelled as one sequential computation.
- Email.IsValidEmailValue: a non-string argument is modelled as a JSON value and is rejected. Other Python objects are not modelled.
