# Insurance document field extraction, in Dafny

This project models `extraction_pipeline.py`, a small pipeline that pulls three fields out of a broker
e-mail and a policy document. It models how the pipeline turns each text into clean lines. It then
models which of those lines it keeps and which value each field extractor returns. Last, it models
how each field falls back from one source to the other and the record that reports the result. The
model is written in Dafny and verified.

The modules follow the stages of the program:

- `Wrappers` holds `Option` (Python's `None`) and `Call`, which is either a returned value or a
  raised exception.
- `TextLines` covers `clean_text`. It models ASCII `lower()`, Python's `strip()` and `split("\n")`,
  with `CleanText` as the specification. The lemmas show three things:
  - each output line is non-empty, stripped and lowercase;
  - the output is exactly the input lines, cleaned one by one, in order, so the outer `strip()`
    changes nothing;
  - cleaning twice changes nothing.
- `NoiseFilter` covers the keyword lists and `filter_lines`:
  - `Filtered` is the specification: the lines before the first signature line, minus the noise
    lines;
  - the `FilterLines` method is the loop with its `break` and `continue`, proved equal to
    `Filtered`;
  - lemmas cover membership, truncation at a signature line and idempotence.
- `Patterns` has hand-written matchers for the three regular expressions, with `re.search`'s
  leftmost-match rule:
  - in each pattern, every greedy repetition is followed by something it cannot consume, so there
    is never a backtracking alternative, and the model computes the one match directly;
  - the contracts of the capture-group matchers `TokenAt` and `AmountAt` say which capture they
    take (the longest run of the group's characters) and exactly when they fail;
  - lemmas show that the search returns the leftmost match;
  - at any start in a line, lemmas show both directions. Text of the pattern's shape matches
    there with the expected capture, so `re.search` finds a label in the middle of a line. In
    the other direction, every match lies on text of that shape.
- `Extractors` covers the three extractors:
  - the `CollectMatches` loop builds `matches`;
  - `Deduplicate` applies `set(...)` and the one-value rule;
  - `ParseInt` models `int()`, including the empty string that makes it raise;
  - lemmas cover ambiguity-as-failure, dependence on the set of lines only, and the `005`/`5`
    quirk;
  - one lemma shows that a `$` prefix does not change the value, and one gives the round trip from
    a number to a limit line and back.
- `Pipeline` covers `FIELD_CONFIG`, `safe_extract`, `try_sources`, `process_field`, `wrap_field`
  and `run_pipeline`. The functions state what each step returns. The methods run the steps:
  `RunPipeline`, the `ProcessFields` loop that fills the result dict, `RunProcessField`,
  `RunTrySources`, `RunSafeExtract` and `CallExtractor`, which calls the extractor methods. Each
  method is proved equal to its function.
- `SampleText` and `Sample` work through the program's own sample e-mail and document. They end in
  the dict the program prints for them.

Some behaviour of the code is easy to miss, and the model keeps it as written:

- The confidence is 1.0 when a value is found and 0.0 otherwise. There is no other score.
- The result record has no `reason` field. The code has no required-field validation and no run
  metadata.
- Each line contributes at most one match (`re.search`), not every match in the line.
- The numeric extractors deduplicate the stripped strings before `int()`, so `005` and `5`
  conflict.
- `policy` must be followed by exactly one whitespace character.
- When neither source yields a value, `process_field` still labels the field `"document"` for an
  e-mail-first field, or `"email"` for a document-first one.

## Model

| member | source | states |
|---|---|---|
| TextLines.CleanText | extraction_pipeline.py:36-38 | every line of the result is non-empty, has no leading or trailing whitespace, is lowercase and holds no newline |
| TextLines.CleanTextPerLine | extraction_pipeline.py:36-38 | the result equals the lowered text split on newlines, each piece stripped, empty pieces dropped, in order; the outer `strip()` changes nothing |
| TextLines.CleanTextLineCount | extraction_pipeline.py:36-38 | there are no more result lines than lines in the input |
| TextLines.CleanTextIdempotent | extraction_pipeline.py:36-38 | cleaning the newline-joined result again gives the same lines |
| TextLines.CleanLinesAppend | extraction_pipeline.py:38 | the comprehension over two concatenated line lists is the concatenation of the two results, so order is preserved |
| TextLines.CleanLinesOfClean | extraction_pipeline.py:38 | lines that are already stripped and non-empty pass through unchanged |
| TextLines.CleanAfterTrimLeft | extraction_pipeline.py:37 | removing leading whitespace before the split does not change the cleaned lines |
| TextLines.CleanAfterTrimRight | extraction_pipeline.py:37 | removing trailing whitespace before the split does not change the cleaned lines |
| TextLines.Strip | extraction_pipeline.py:37-38 | `strip()` is empty exactly when the line is all whitespace, and otherwise starts and ends with non-whitespace |
| TextLines.TrimLeftEmpty | extraction_pipeline.py:37-38 | left-trimming gives the empty string exactly when every character is whitespace |
| TextLines.StripOfStripped | extraction_pipeline.py:38 | stripping a stripped line returns it unchanged |
| TextLines.LowerIsLowercase | extraction_pipeline.py:37 | `lower()` leaves no upper-case letter |
| TextLines.LowerOfLowercase | extraction_pipeline.py:37 | `lower()` leaves lowercase text unchanged |
| TextLines.SplitLines | extraction_pipeline.py:37 | `split("\n")` gives at least one piece and no piece holds a newline |
| TextLines.JoinSplit | extraction_pipeline.py:37 | joining the pieces of `split("\n")` with newlines gives back the text |
| TextLines.SplitJoin | extraction_pipeline.py:37 | splitting the newline-join of newline-free lines gives back the lines |
| TextLines.SplitCount | extraction_pipeline.py:37 | `split("\n")` gives one more piece than there are newlines |
| TextLines.ContainsFromOccurs | extraction_pipeline.py:47-51 | the substring test `sub in line` holds exactly when `sub` occurs at some index |
| NoiseFilter.SignatureIndex | extraction_pipeline.py:41-48 | the index where the loop breaks: no earlier line holds a signature keyword, and the line there does |
| NoiseFilter.DropNoise | extraction_pipeline.py:42-52 | no kept line contains `@` or a contact keyword, and the output is no longer than the input (`DropNoiseKeepsLines` states that every kept line comes from the input) |
| NoiseFilter.FilterLines | extraction_pipeline.py:44-54 | the loop with `break` and `continue` returns exactly the noise-free lines before the first signature line |
| NoiseFilter.FilteredMembership | extraction_pipeline.py:44-54 | a line is in the output exactly when it occurs before the first signature line and is not noise |
| NoiseFilter.DropNoiseKeepsLines | extraction_pipeline.py:49-53 | the lines kept are exactly those that are not noise |
| NoiseFilter.DropNoiseAppend | extraction_pipeline.py:46-53 | dropping noise works line by line: on a concatenation it is the concatenation of the results, so order is preserved |
| NoiseFilter.FilteredAppend | extraction_pipeline.py:46-53 | after a prefix without signature lines, the output is the noise-free prefix followed by the output for the rest |
| NoiseFilter.SignatureTruncates | extraction_pipeline.py:47-48 | nothing after a signature line can reach the output |
| NoiseFilter.FilteredIsClean | extraction_pipeline.py:44-54 | no output line holds a signature keyword, a contact keyword or `@`, and the output is no longer than the input |
| NoiseFilter.FilterIdempotent | extraction_pipeline.py:44-54 | filtering the output again changes nothing |
| NoiseFilter.ContainsAnySpec | extraction_pipeline.py:47-51 | `any(k in line for k in keywords)` holds exactly when some keyword of the list occurs in the line |
| NoiseFilter.SignatureIndexIs | extraction_pipeline.py:46-48 | the loop breaks at the first signature line |
| Patterns.RunEnd | extraction_pipeline.py:72 | a greedy run of one character class ends at the first character outside the class (also lines 58 and 87) |
| Patterns.TokenAt | extraction_pipeline.py:58 | `([a-z0-9-]+)` takes the longest run of `[a-z0-9-]` at the index, which is exactly the text there and is followed by the end of the line or a character outside the class; it fails exactly when the index is at the end or on a character outside the class |
| Patterns.AmountAt | extraction_pipeline.py:72 | `([$]?[0-9,]+)` takes a `$` exactly when the line has one there, then the longest run of `[0-9,]`, followed by the end or a character outside the class; it fails exactly when no `[0-9,]` character follows the optional `$` (also line 87) |
| Patterns.MatchAt | extraction_pipeline.py:58 | a match at an index starts with the pattern's leading word and has a capture of the right form; at every index, the `*LineAt` lemmas give the matches and the `*MatchSound` lemmas their converse (also lines 72 and 87) |
| Patterns.FirstMatchFrom | extraction_pipeline.py:62 | the scan for a start returns an index in range at which the pattern matches (also lines 76 and 91) |
| Patterns.NoMatchBeforeFirst | extraction_pipeline.py:62 | no start before the one the scan returns matches (also lines 76 and 91) |
| Patterns.Search | extraction_pipeline.py:62 | a capture `re.search` finds has the form of the pattern's group (also lines 76 and 91) |
| Patterns.SearchFound | extraction_pipeline.py:62 | a successful search comes from a start at which the pattern matches, with no matching start before it (also lines 76 and 91) |
| Patterns.SearchIsLeftmost | extraction_pipeline.py:62 | `re.search` returns the capture of the leftmost matching start (also lines 76 and 91) |
| Patterns.SearchFails | extraction_pipeline.py:62-63 | `re.search` gives `None` exactly when no start matches (also lines 76-77 and 91-92) |
| Patterns.NowhereNoMatch | extraction_pipeline.py:62 | a line without the pattern's leading word never matches (also lines 76 and 91) |
| Patterns.PolicyLineMatches | extraction_pipeline.py:58 | `policy`, one whitespace, `no`/`number`/`#`, optional spaces, `:`, optional spaces, and a token: the search captures that token |
| Patterns.LimitLineMatches | extraction_pipeline.py:72 | `limit`, spaces, `of`, spaces, `liability`, spaces, `:`, spaces and an amount: the search captures that amount |
| Patterns.DeductibleLineMatches | extraction_pipeline.py:87 | `deductible`, spaces, `:`, spaces and an amount: the search captures that amount |
| Patterns.PolicyLineAt | extraction_pipeline.py:58 | wherever in a line a policy label line of that shape starts, the pattern matches there with its token, and the search finds a value |
| Patterns.LimitLineAt | extraction_pipeline.py:72 | wherever in a line a limit label line of that shape starts, the pattern matches there with its amount, and the search finds a value |
| Patterns.DeductibleLineAt | extraction_pipeline.py:87 | wherever in a line a deductible label line of that shape starts, the pattern matches there with its amount, and the search finds a value |
| Patterns.PolicyMatchSound | extraction_pipeline.py:58 | every policy match at an index lies on text of the form `policy`, one whitespace, `no`/`number`/`#`, whitespace, `:`, whitespace, the capture, and then the end or a non-token character |
| Patterns.LimitMatchSound | extraction_pipeline.py:72 | every limit match at an index lies on text of the form `limit`, whitespace, `of`, whitespace, `liability`, whitespace, `:`, whitespace, the capture, and then the end or a character outside `[0-9,]` |
| Patterns.DeductibleMatchSound | extraction_pipeline.py:87 | every deductible match at an index lies on text of the form `deductible`, whitespace, `:`, whitespace, the capture, and then the end or a character outside `[0-9,]` |
| Extractors.Without | extraction_pipeline.py:78 | `replace(c, "")` never makes a string longer (also line 93) |
| Extractors.WithoutChars | extraction_pipeline.py:78 | `replace(c, "")` keeps exactly the characters other than `c` (also line 93) |
| Extractors.WithoutAppend | extraction_pipeline.py:78 | `replace(c, "")` works piece by piece on a concatenation (also line 93) |
| Extractors.Normalize | extraction_pipeline.py:78 | a policy token is kept as it is; an amount keeps exactly its characters other than `,` and `$`, and is no longer than the capture (also line 93) |
| Extractors.NormalizedAmountIsDigits | extraction_pipeline.py:72-78 | an amount capture with `,` and `$` removed consists of digits only (also lines 87-93) |
| Extractors.ParseInt | extraction_pipeline.py:83 | `int()` on digits raises exactly for the empty string or more than 4300 digits, and otherwise returns the decimal value (also line 98) |
| Extractors.CollectMatches | extraction_pipeline.py:73-79 | the loop records the normalized capture of each matching line, in line order (also lines 59-64 and 88-94) |
| Extractors.Deduplicate | extraction_pipeline.py:66-69 | `set(matches)` with exactly one element gives that element, and otherwise `None` (also lines 81-84 and 96-99) |
| Extractors.ExtractPolicyNumber | extraction_pipeline.py:57-69 | returns the unique distinct policy capture, or `None` |
| Extractors.ExtractLimit | extraction_pipeline.py:71-84 | returns `int` of the unique distinct stripped limit capture, `None`, or the exception `int` raises |
| Extractors.ExtractDeductible | extraction_pipeline.py:86-99 | returns `int` of the unique distinct stripped deductible capture, `None`, or the exception `int` raises |
| Extractors.CapturesMembership | extraction_pipeline.py:61-64 | a value is among the matches exactly when some line's capture is that value |
| Extractors.SoleSpec | extraction_pipeline.py:66-68 | there is a value exactly when the matches are non-empty and all equal it |
| Extractors.SoleBySet | extraction_pipeline.py:66-68 | the result depends only on the set of matches |
| Extractors.CapturesByLineSet | extraction_pipeline.py:61-66 | two line lists with the same lines, in any order or multiplicity, give the same set of matches |
| Extractors.ExtractorsSeeLineSet | extraction_pipeline.py:57-99 | permuting or duplicating lines never changes any extractor's result |
| Extractors.ConflictGivesNothing | extraction_pipeline.py:66-69 | two lines with different captures make the extractor return `None` (also lines 81-84 and 96-99) |
| Extractors.AgreementGivesValue | extraction_pipeline.py:66-68 | when every matching line agrees with one of them, that capture is the result |
| Extractors.SingleMatchingLine | extraction_pipeline.py:61-68 | one matching line among non-matching lines gives its normalized capture |
| Extractors.NoMatchGivesNothing | extraction_pipeline.py:66-69 | no matching line gives `None` |
| Extractors.AmountCapturesAreDigits | extraction_pipeline.py:76-79 | every recorded amount consists of digits only, so `int` raises only for the empty string or too many digits (also lines 91-94) |
| Extractors.DigitsRoundTrip | extraction_pipeline.py:83 | `int` of a number's decimal digits gives back the number (also line 98) |
| Extractors.AmountRoundTrip | extraction_pipeline.py:71-99 | a limit or deductible line carrying a number's digits makes the extractor return that number |
| Extractors.LeadingZerosAreAmbiguous | extraction_pipeline.py:78-83 | captures `0d` and `d` denote the same number, yet as two distinct strings they make the extractor return `None` (also lines 93-98) |
| Extractors.SeparatorsOnlyRaise | extraction_pipeline.py:78-83 | a lone capture `$,` strips to the empty string and `int` raises (also lines 93-98) |
| Extractors.DollarSignAgrees | extraction_pipeline.py:78-83 | a line with `$d` and a line with `d` agree and give the same result as the line with `d` alone (also lines 93-98) |
| Pipeline.CallExtractor | extraction_pipeline.py:130-132 | calling the configured extractor gives what the matching extract function returns or raises |
| Pipeline.RunSafeExtract | extraction_pipeline.py:130-134 | calling the extractor inside the `try` gives `SafeExtract` |
| Pipeline.RunTrySources | extraction_pipeline.py:138-147 | the two calls in source order give `TrySources` |
| Pipeline.RunProcessField | extraction_pipeline.py:149-160 | the call for one field gives `ProcessField` |
| Pipeline.SafeExtract | extraction_pipeline.py:130-134 | an exception becomes `None`, and a returned value passes through |
| Pipeline.TrySources | extraction_pipeline.py:138-147 | `primary` exactly when the primary lines give a value, `secondary` exactly when only the secondary lines do, and `(None, None)` exactly when there is no value |
| Pipeline.TrySourcesIgnoresSecondary | extraction_pipeline.py:139-141 | the secondary lines are not consulted once the primary lines give a value |
| Pipeline.WrapField | extraction_pipeline.py:122-127 | keeps value and source; confidence is 1.0 exactly when there is a value, and 0.0 exactly when there is none |
| Pipeline.ProcessField | extraction_pipeline.py:149-160 | the value and label come from the primary source when it gives a value, and otherwise from the secondary source, also when that gives nothing; the confidence is 1.0 exactly when there is a value |
| Pipeline.PrimaryWins | extraction_pipeline.py:149-160 | a value from the preferred source is reported with that source and confidence 1.0 |
| Pipeline.FallbackToSecondary | extraction_pipeline.py:143-160 | when only the other source gives a value, it is reported with the other source and confidence 1.0 |
| Pipeline.BothFailLabel | extraction_pipeline.py:147-158 | when neither source gives a value, the label is still `document` for e-mail priority and `email` for document priority, with confidence 0.0 |
| Pipeline.MissingPriorityIsEmail | extraction_pipeline.py:151 | an entry without `priority` behaves as e-mail first |
| Pipeline.OtherPriorityIsDocumentFirst | extraction_pipeline.py:151-158 | any priority other than `email` reads the document first |
| Pipeline.RaiseIsLikeNothing | extraction_pipeline.py:130-147 | an exception on the preferred source makes the field fall back exactly as `None` does |
| Pipeline.ConfigIsEmailFirst | extraction_pipeline.py:102-119 | every configured field reads the e-mail first |
| Pipeline.ProcessFields | extraction_pipeline.py:167-172 | the loop over the configuration builds the dict binding each name to its processed field |
| Pipeline.FieldsKeys | extraction_pipeline.py:169-172 | the dict's keys are exactly the configured names |
| Pipeline.FieldsEntry | extraction_pipeline.py:169-172 | a name not repeated later in the configuration maps to its own entry's processed field |
| Pipeline.FieldsFrom | extraction_pipeline.py:169-172 | every value in the dict is the processed field of some configuration entry |
| Pipeline.RunPipeline | extraction_pipeline.py:163-174 | cleans and filters each text once; the keys are exactly `policy_number`, `limit_of_liability` and `deductible` |
| Pipeline.PipelineKeys | extraction_pipeline.py:102-174 | for all inputs the result has exactly the three configured keys |
| Pipeline.PipelineEntry | extraction_pipeline.py:163-174 | each configured field maps to `process_field` on the cleaned and filtered e-mail and document lines |
| Pipeline.PipelineConfidence | extraction_pipeline.py:122-174 | in every record of the result, confidence is 1.0 exactly when the value is present |
| Sample.EmailFiltering | extraction_pipeline.py:1-16 | of the cleaned sample e-mail, the filter keeps the greeting, policy, footer, insured and limit lines |
| Sample.DocFiltering | extraction_pipeline.py:17-31 | the cleaned sample document filters to the same five lines |
| Sample.SamplePolicyNumber | extraction_pipeline.py:57-69 | the policy extractor returns `pn-45678` on the sample's kept lines |
| Sample.SampleLimit | extraction_pipeline.py:71-84 | the limit extractor returns 5000000 on the sample's kept lines |
| Sample.SampleDeductible | extraction_pipeline.py:86-99 | the deductible extractor returns `None` on the sample's kept lines |
| Sample.SampleOutput | extraction_pipeline.py:163-174 | on the sample, the result is `pn-45678` from the e-mail, 5000000 from the e-mail, and no deductible, labelled `document`, with confidence 0.0 |

## Left out

- Sample.SampleOutput: starts from the lines `clean_text` produces for the sample texts (`Sample.CleanEmail`, `Sample.CleanDoc`), not from the raw strings. Deriving them from the raw literals character by character costs the verifier far more than the rest of the model.
- `print(output)` and the sample strings themselves: console output and test data.
- `lower()` and `strip()` beyond their ASCII behaviour. `IsSpace` is Python's whitespace set, but `lower()` maps only `A`-`Z`.
- Confidence is the `real` literal 1.0 or 0.0. The code computes no floating-point arithmetic.
- The `required` flag of `FIELD_CONFIG`: nothing reads it.
- The order of the result dict's keys: the model uses a `map`.
- Exceptions other than the one the extractors can raise (`int()` on the empty string, or on more than 4300 digits under CPython 3.11 and later) are not modelled: on lists of strings nothing else can fail.
- Python's general `re` engine: only the three fixed patterns are modelled, each by its own matcher.

