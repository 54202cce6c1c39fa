# cron-parser field expander, modelled in Dafny

This project models the command-line cron parser's core, `cmd/parse.go`.
`parseCron` splits a cron line on whitespace and rejects a line with fewer
than six tokens. It expands the first five tokens (minute, hour, day of month,
month, day of week) into space-separated lists of values, and joins the rest
back together as the command. Each token is expanded by `expandField`, which
tries three forms in a fixed order:

- the exact token `*` is the full range;
- any token containing `*/` is a step form;
- anything else is a comma list whose parts are single values or `a-b` ranges.

The two counting helpers `rangeToString` and `stepRangeToString` produce the
values.

Files:

- `strings.dfy` (module `Strings`) holds the parts of Go's `strings` package
  that the expander uses: `Fields`, `Split`, `Join`, `Contains` and
  `TrimPrefix`, with their round-trip lemmas. `Layout` lays words out
  between whitespace gaps and is the reference that `Fields` is proved
  against.
- `decimal.dfy` (module `Decimal`) holds `fmt.Sprintf("%d", _)` as `Itoa`.
  It also holds `strconv.Atoi` as `ParseDecimal`, which reports failure, and
  `Atoi`, which turns failure into 0 the way the source discards the error.
- `parse.dfy` (module `CronParse`) holds the Go functions.
  - The functions with loops are methods with those loops: `RangeToString`,
    `StepRangeToString` and `ExpandField`. Each is proved equal to a pure
    specification function: `RangeInts`, `StepInts` or `FieldText`.
  - `ParseCron` returns the six lines `parseCron` prints, as `Lines(ReportOf(fields))`.
  - The lemmas state what the specification functions mean.
- `examples.dfy` (module `CronExamples`) holds the rows of the unit test in
  `cmd/parse_test.go`, plus tokens that show the dispatch order and the quirks.

The model follows the code as written:

- A value that does not parse reads as 0. `strconv.Atoi`'s error is dropped.
- Literal list parts are copied verbatim without being parsed.
- Nothing is checked against the field's bounds. The command's help text
  (cmd/parse.go:21-25) lists the ranges Minute (0-59), Hour (0-23), Day of
  month (1-31), Month (1-12) and Day of week (0-6), but only the full range
  and the step form use them; list parts and `a-b` ranges can fall outside.
- An empty range still contributes its empty text, which leaves a stray space
  in the output.
- A step that is 0 or negative makes the step loop run forever over a
  non-empty bound. The model excludes those inputs with a precondition and
  proves when it applies: `StepTerminates`, `CronTerminates`,
  `StepBranchZero`, `StepLoopExits`.

## Model

| member | source | states |
|---|---|---|
| CronParse.RangeToString | cmd/parse.go:92-98 | the loop's result is the renderings of `start..end` joined by single spaces (`SpaceJoined(RangeInts(start, end))`), proved by the loop invariant that the appended values plus those still to come are the whole list |
| CronParse.StepRangeToString | cmd/parse.go:100-106 | for a positive step, or a loop that never starts, the loop ends and returns the renderings of `start, start+step, ...` while `<= end`, joined by single spaces |
| CronParse.ExpandField | cmd/parse.go:69-90 | the result is `FieldText(field, min, max)`: `*` gives the full range, a token containing `*/` gives the step form, anything else gives its comma parts expanded one by one, in order, joined by single spaces |
| CronParse.ParseCron | cmd/parse.go:46-66 | fewer than six whitespace-separated tokens give only the diagnostic line; otherwise six lines: the five fields expanded with bounds (0,59), (0,23), (1,31), (1,12), (0,6) in that order, then the command made of tokens six onward joined by single spaces |
| CronParse.LinesLayout | cmd/parse.go:60-65 | each printed line is its distinct label padded to 14 characters followed by the value |
| CronParse.CronOfWords | cmd/parse.go:47-58 | for a line of words separated by runs of whitespace (and possibly surrounded by whitespace), the tokens are the words, the five fields are the first five words with their bounds, and the command is the remaining words re-joined with single spaces |
| CronParse.CronLayout | cmd/parse.go:47-58 | whitespace tokenising reads such a line back word for word: the first five words, and the rest re-joined with single spaces whatever whitespace separated them |
| CronParse.CronTerminatesIff | cmd/parse.go:60-64 | the precondition `CronTerminates` holds exactly when the line is rejected for arity or none of the five fields is a step form with a non-positive step; and it fails exactly when one of the five step loops never exits, its counter staying at or below the field's maximum for ever (the loop at cmd/parse.go:102) |
| CronParse.StepForever | cmd/parse.go:100-106 | a field's expansion fails `StepTerminates` exactly when it is a step form whose loop counter never passes the maximum |
| CronParse.RangeIntsShape | cmd/parse.go:94-96 | the range loop visits `end-start+1` values (none when `start > end`), the k-th being `start+k` |
| CronParse.RangeTextRoundTrip | cmd/parse.go:92-98 | `rangeToString` is empty when `start > end`; otherwise splitting it on spaces gives the renderings of `start..end` in order, each parsing back to its value |
| CronParse.SpaceJoinedRoundTrip | cmd/parse.go:95-97 | a space-joined rendering is empty iff there are no values, has no space at either end, and splits back into the renderings, each parsing back to its value |
| CronParse.StarExpansion | cmd/parse.go:71-73 | `expandField("*", min, max)` has exactly `max-min+1` pieces `min..max` ascending, single spaces, no space at either end, and is empty for an empty bound |
| CronParse.StepIntsShape | cmd/parse.go:102-104 | the step loop's first value is `start` when `start <= end`, every value lies in `[start, end]`, and neighbouring values differ by `step` |
| CronParse.StepIntsAt | cmd/parse.go:102-104 | the k-th value of the step loop is the counter after k rounds, `start + k*step` |
| CronParse.StepIntsCount | cmd/parse.go:100-106 | a positive step over a non-empty bound visits `(end-start)/step + 1` values |
| CronParse.StepExpansion | cmd/parse.go:74-76 | `*/n` with positive `n` is the step form with step `n`; its pieces are `(max-min)/n + 1` renderings of `min + k*n`, all within the bounds, the first being `min` |
| CronParse.StepLoopExits | cmd/parse.go:102 | the loop `for i := start; i <= end; i += step` ever exits exactly when `step > 0` or `start > end` |
| CronParse.StepBranchZero | cmd/parse.go:74-76 | a token containing `*/` whose text after the prefix does not parse, or parses to 0, gets step 0 and, over a non-empty bound, never terminates |
| CronParse.DispatchOrder | cmd/parse.go:71-79 | the full range iff the token is exactly `*`; the step form iff some other token contains `*/`; every remaining token is a comma list whose parts hold no comma and re-join to the token |
| CronParse.ListExpansion | cmd/parse.go:78-89 | a comma list expands to its parts' expansions, left to right, joined by single spaces, with no sorting |
| CronParse.LiteralList | cmd/parse.go:78-89 | parts without `*` and `-` come out verbatim, separated by spaces instead of commas, whatever the bounds |
| CronParse.ListIgnoresBounds | cmd/parse.go:78-89 | a comma list's expansion does not depend on the field's bounds |
| CronParse.LiteralPart | cmd/parse.go:85-86 | a part without `-` is copied unchanged, without being parsed |
| CronParse.RangePartBounds | cmd/parse.go:80-84 | a part containing `-` splits on `-` into at least two bounds, and its text is the range from `Atoi` of the first to `Atoi` of the second |
| CronParse.PartTextsCons | cmd/parse.go:78-88 | the parts are expanded one by one: the first part's text comes first, followed by the texts of the rest |
| CronParse.RangePart | cmd/parse.go:80-84 | a part `a-b`, optionally followed by `-` and anything, is the range from `Atoi(a)` to `Atoi(b)`; text after a second `-` is ignored |
| CronParse.RangeBounds | cmd/parse.go:81-83 | splitting `a-b`, optionally followed by `-` and anything, on `-` gives `a` and then `b` when neither holds a `-` |
| CronParse.SingleRange | cmd/parse.go:80-84 | a whole token `a-b` is the range from `Atoi(a)` to `Atoi(b)`, whatever the field's bounds |
| CronParse.EmptyRangePart | cmd/parse.go:80-84 | a range part whose lower bound exceeds its upper bound expands to the empty text |
| CronParse.EmptyRangeFirst | cmd/parse.go:78-89 | an empty range at the head of a longer list still takes its place in the join, so the field's text starts with a space |
| Strings.TrimPrefix | cmd/parse.go:75 | with the prefix present, the prefix followed by the result is the input; otherwise the result is the input |
| Strings.Fields | cmd/parse.go:47 | every token is non-empty and free of whitespace |
| Strings.FieldsLayout | cmd/parse.go:47 | tokenising words laid out between whitespace gaps (non-empty between words, possibly empty at either end) gives back exactly the words |
| Strings.FieldsCover | cmd/parse.go:47 | every input is such a layout of its own tokens, so with `FieldsLayout` the tokens are determined: whitespace runs separate them and nothing else is dropped |
| Strings.FieldsEmpty | cmd/parse.go:47-50 | there are no tokens exactly when the input is all whitespace |
| Strings.FieldsSkipSpace | cmd/parse.go:47 | leading whitespace contributes no token |
| Strings.FieldsJoin | cmd/parse.go:47 | tokenising a single-space join of non-empty, space-free words gives back the words |
| Strings.Contains | cmd/parse.go:74-80 | `Contains(s, sub)` holds exactly when `sub` occurs at some index of `s` |
| Strings.OccursShift | cmd/parse.go:74 | an occurrence of `sub` is either at the front or, one position later, an occurrence in the tail |
| Strings.ContainsChar | cmd/parse.go:80 | containing the one-character string `c` is the same as `c` being in the string |
| Strings.ContainsFirst | cmd/parse.go:74 | a string lacking the first character of `sub` does not contain `sub` |
| Strings.Split | cmd/parse.go:79-81 | a split has one more piece than there are separators in the input |
| Strings.SplitShape | cmd/parse.go:79-81 | a split has at least one piece, no piece holds the separator, and there are two or more pieces exactly when the separator occurs |
| Strings.JoinSplit | cmd/parse.go:79 | re-joining the pieces of a split with the separator gives back the input |
| Strings.SplitJoin | cmd/parse.go:79 | splitting a join of separator-free pieces gives back the pieces |
| Strings.SplitAtFirst | cmd/parse.go:81 | splitting `a`, the separator and `b` gives `a` and then the pieces of `b`, when `a` holds no separator |
| Strings.SplitNoSeparator | cmd/parse.go:81 | a string without the separator splits into itself alone |
| Strings.Join | cmd/parse.go:58 | a join of a non-empty list starts with its first element (the same join is used at lines 89, 97 and 105) |
| Strings.JoinLength | cmd/parse.go:89 | a join is as long as its elements together plus one separator fewer than there are elements |
| Strings.JoinAppend | cmd/parse.go:89 | joining two non-empty lists puts exactly one separator between their joins |
| Strings.JoinFront | cmd/parse.go:89 | an empty first element leaves the separator at the front of the join |
| Strings.JoinPrefix | cmd/parse.go:79 | extending the first element extends the join at its front by the same text |
| Strings.JoinEnds | cmd/parse.go:58 | a join starts with its first element and ends with its last |
| Strings.JoinAvoids | cmd/parse.go:89 | a character in neither the elements nor the separator is not in the join |
| Decimal.Itoa | cmd/parse.go:95 | the rendering is non-empty and holds no space and no comma |
| Decimal.Digits | cmd/parse.go:95 | the digits are non-empty, all decimal, without a leading zero |
| Decimal.ParseDecimal | cmd/parse.go:75-83 | parsing succeeds exactly when the text is an optional leading `+` or `-` followed by one or more digits; a leading `-` gives a value at most 0, any other success a value at least 0 |
| Decimal.Atoi | cmd/parse.go:75-83 | the parsed value when parsing succeeds, and 0 when it fails (the dropped error); with `ParseItoa` and `AtoiOfNonDigit` below |
| Decimal.ParseItoa | cmd/parse.go:75 | parsing the rendering of any integer gives the integer back, and so does `Atoi` |
| Decimal.AtoiOfNonDigit | cmd/parse.go:82-83 | a string with a character that is neither a digit nor a leading sign fails to parse, and `Atoi` reads it as 0 |
| Decimal.AtoiOfNoDigits | cmd/parse.go:82-83 | the empty string and a lone sign fail to parse, and `Atoi` reads them as 0 |
| CronExamples.StarMinutes | cmd/parse_test.go:15 | `*` over 0-59 has sixty pieces, the k-th being the rendering of k |
| CronExamples.StepFifteenMinutes | cmd/parse_test.go:16 | `*/15` over 0-59 expands to `0 15 30 45` |
| CronExamples.ListOfMinutes | cmd/parse_test.go:17 | `1,15` over 0-59 expands to `1 15` |
| CronExamples.RangeOneToFive | cmd/parse_test.go:18 | `1-5` over 1-5 expands to `1 2 3 4 5` |
| CronExamples.SingleMinute | cmd/parse_test.go:19 | `5` over 0-59 expands to `5` |
| CronExamples.StepFiveDays | cmd/parse_test.go:20 | `*/5` over 1-31 expands to `1 6 11 16 21 26 31` |
| CronExamples.RangePastBounds | cmd/parse.go:80-84 | `59-61` over 0-59 is not clipped to the bounds and expands to `59 60 61` |
| CronExamples.LeadingDashFromZero | cmd/parse.go:81-84 | `-3` reads its empty lower bound as 0 and expands to `0 1 2 3` |
| CronExamples.StarInList | cmd/parse.go:71-86 | `*,5` is a comma list with a verbatim `*` part, expanding to `* 5` |
| CronExamples.StepAnywhere | cmd/parse.go:74-76 | `a*/5` takes the step branch, `TrimPrefix` removes nothing, the step is 0 and the expansion over 0-59 does not terminate |
| CronExamples.StepThenListIsZero | cmd/parse.go:74-76 | `*/5,10` takes the step branch with the unparsable step `5,10`, read as 0 |

## Left out

- The cobra command, its help text, its argument-count check and `init` (cmd/parse.go:11-43): command-line glue around a library that is not part of this model.
- Writing to standard output (cmd/parse.go:51, cmd/parse.go:60-65): `ParseCron` returns the lines it would print, without their newlines.
- `strconv.Atoi`'s range check: for a digit string whose value does not fit in 64 bits, Go reports an error and returns the clamped value, which the expander keeps because it drops the error. `ParseDecimal` accepts such a string with its exact value. Integers are unbounded throughout, so the loop counters do not wrap around either.
- What actually happens when the step is 0 or negative over a non-empty bound: the loop appends for ever until memory runs out. The model states only that this input does not terminate, and excludes it by precondition.
- Go strings are byte strings that `Fields` decodes as UTF-8. The model works on characters, so invalid UTF-8 is not modelled.
- `Strings.Split`: modelled for a one-character separator only, which is every separator the expander uses.
- CronExamples.StarMinutes: states the sixty pieces of the expected text rather than the 169-character string of the test row, because checking that literal by unfolding is beyond the verifier's budget.
