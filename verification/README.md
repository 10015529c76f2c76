# Express calculator: statistics core in Dafny

This project models the statistics service in `app.js`. The service has
four HTTP routes: `/mean`, `/median`, `/mode` and `/all`. Each route does
the same four things:

- reads the `nums` query parameter;
- splits it on commas and parses each piece as a number (`validateAndParseNums`);
- computes the statistic (`mean`, `median`, `mode`);
- answers with JSON or HTML depending on the `Accept` header. The single
  routes decide through `formatResponse`; `/all` has its own rule.

A parse error becomes status 400 with the error's message.

How the model represents the service:

- Numbers are mathematical reals.
- Parsing one token (`parseFloat` followed by the `isNaN` test) is a
  function parameter `parse: string -> Option<real>`, where `None` stands
  for NaN.
- Printing a number into HTML (JavaScript's Number-to-string conversion) is
  a parameter `render: real -> string`.
- An absent query parameter or header is `None`.
- A thrown error is the `Failure` case of `Result`.

Modules, in dependency order:

| file | module | models |
|---|---|---|
| results.dfy | `Results` | `Option` and `Result` |
| seqs.dfy | `Seqs` | duplicate-freedom, filtering, first occurrences |
| text.dfy | `Text` | `split` on one character, `join`, `includes` |
| ordering.dfy | `Ordering` | `sort((a, b) => a - b)` |
| parser.dfy | `NumberListParser` | `validateAndParseNums` |
| statistics.dfy | `Statistics` | `mean`, `median` |
| frequency.dfy | `Frequency` | `mode`, including `for..in` key order |
| mode.dfy | `ModeProperties` | lemmas relating several calls of `mode` |
| formatter.dfy | `ResponseFormatter` | `formatResponse` and the `Accept` default |
| routes.dfy | `Routes` | the four handlers' logic |
| scenarios.dfy | `Scenarios` | whole-request facts and the worked examples of `app.test.js` |

Three behaviours of the code deserve a note.

- **Order of tied modes.** `mode` collects its result by walking a plain
  object with `for..in`. JavaScript enumerates such keys in a fixed order:
  - keys that are array indices (the integers 0 to 2^32 - 2) come first, in
    ascending numeric order;
  - every other key follows, in the order it was created.

  So tied modes are listed in first-occurrence order only among values that
  are not array indices. For example, `3,3,1,1` gives `[1,3]`, while
  `0.5,-1,0.5,-1` gives `[0.5,-1]`. Tied modes are therefore not in
  first-occurrence order in general (`Frequency.EnumerationOrder`,
  `ModeProperties.ModeIndexKeysAscending`).
- **`median` sorts its argument in place.** `/all` calls `median` before
  `mode` on the same array, so `/all` computes the mode of the sorted array.
  The in-place sort is observable through this. The set of modes and the mean are unaffected, and so is the
  mode whenever every value is an array index. The order of tied non-index
  modes can change: on `0.5,-1,0.5,-1`, `/mode` answers `[0.5,-1]` while
  `/all` answers `[-1,0.5]` (`Scenarios.AllModeFollowsSortedOrder`).
- **The two kinds of route disagree on `Accept`.** A header that mentions
  both `application/json` and `text/html` gets JSON from the single routes
  (`formatResponse` tests for JSON first). `/all` tests only for
  `text/html`, so the same header gets HTML from it
  (`Scenarios.RoutesDisagreeOnBothTypes`).

## Model

| member | source | states |
|---|---|---|
| NumberListParser.Message | app.js:5-19 | A missing list yields the message "nums are required". A bad token yields that token followed by " is not a number." |
| NumberListParser.ParseTokens | app.js:10-16 | Parsing succeeds exactly when every token parses. On success there is one number per token, in order, each equal to its token's parse. On failure the error names the leftmost token that does not parse. |
| NumberListParser.ValidateAndParseNums | app.js:5-19 | The error is "missing" exactly when the parameter is absent or empty. On success there are as many numbers as comma-separated pieces (commas + 1), and each number is its piece's parse. Any other failure names the leftmost piece that does not parse. |
| NumberListParser.ParsedTokensRebuildInput | app.js:10-16 | After a successful parse there are comma-free pieces, one per number, each parsing to that number, that join with "," back into exactly the raw parameter. The parser drops nothing and invents nothing. |
| NumberListParser.LoneCommaIsNotMissing | app.js:5-13 | `nums=,` counts as present: it fails on its first, empty piece rather than as missing. |
| NumberListParser.RejectsFoo | app.test.js:19-23 | `1,foo,3` fails with the error naming `foo`. |
| Text.Split | app.js:10 | Splitting gives one more piece than there are separators. No piece contains the separator. Joining the pieces with the separator rebuilds the input. |
| Text.SplitJoin | app.js:10 | Splitting the join of separator-free pieces gives back exactly those pieces. |
| Text.Includes | app.js:56 | True exactly when the fragment occurs at some position of the string. |
| Ordering.Sort | app.js:27 | The result is in ascending order and is a permutation of the input. |
| Ordering.SortedUnique | app.js:27 | Two ascending arrangements of the same multiset are equal, so the sort's stability cannot be observed. |
| Ordering.SortPermutation | app.js:27 | Inputs with the same multiset sort to the same array. |
| Statistics.SumPermutation | app.js:22 | The total of the reduce does not depend on the order of the numbers. |
| Statistics.Mean | app.js:21-24 | The mean, added once for each element, gives the total: it is the total divided by the count. |
| Statistics.MeanBetweenExtremes | app.js:21-24 | The mean lies between the least and the greatest number. |
| Statistics.MeanPermutation | app.js:21-24 | Reordering the numbers does not change the mean, so sorting before or after `mean` gives the same value. |
| Statistics.SortAndMedian | app.js:26-33 | The array is left sorted ascending, as a permutation of the input. The median is the middle element for an odd count and the average of the two middle elements for an even count. It lies between the least and greatest number. |
| Statistics.MedianOfSortedArrangement | app.js:26-33 | For any ascending arrangement of the input: it is the array `median` leaves behind, and the odd/even middle rule read off it gives the median. |
| Statistics.MedianPermutation | app.js:26-33 | Reordering the numbers does not change the median. |
| Statistics.MedianInPlace | app.js:26-33 | On an array: after the call the array is sorted and a permutation of its old contents, and the result is the median of the old contents. |
| Frequency.Tabulate | app.js:36-39 | The counting object holds each value's number of occurrences. Its keys are exactly the distinct input values, each created once, in order of first occurrence. |
| Frequency.EnumerationOrder | app.js:43 | `for..in` visits each created key once, and any two keys are visited in JavaScript's enumeration order: array indices ascending first, then other keys in creation order. |
| Frequency.Scan | app.js:41-50 | After the loop, `maxFreq` is at least every visited key's count and equal to some key's count (0 when there are no keys). `modes` holds exactly the visited keys with that count, in visiting order. |
| Frequency.MaxFrequency | app.js:41-50 | The greatest number of occurrences of any value: no value occurs more often, some value occurs that often, and it is 0 for an empty list. |
| Frequency.ModeList | app.js:35-50 | The `modes` array holds exactly the values that occur the greatest number of times. There are no duplicates, the order is the `for..in` enumeration order, and it is non-empty for non-empty input. |
| Frequency.Mode | app.js:35-53 | The numbers returned are exactly the most frequent values, without duplicates, in `for..in` order. An array result never has exactly one element. Non-empty input gives a non-empty result; empty input gives `[]`. |
| ModeProperties.ModeIsScalarIff | app.js:52 | `mode` returns a bare number exactly when a single value has the greatest frequency. Otherwise it returns at least two values, or `[]` for empty input. |
| ModeProperties.MaxFrequencyPermutation | app.js:36-46 | The greatest frequency depends only on the multiset of values. |
| ModeProperties.ModeSetPermutation | app.js:35-53 | Reordering the input keeps the set of modes and whether the result is a bare number. A bare-number result stays the same. |
| ModeProperties.ModeOfArrayIndicesAscends | app.js:43-49 | When every value is an array index, the modes come out strictly ascending. |
| ModeProperties.ModeOfArrayIndicesPermutation | app.js:35-53 | When every value is an array index, reordering the input does not change `mode` at all. |
| ModeProperties.EnumeratedUnique | app.js:43 | Two sequences listing the same keys in `for..in` order are equal. |
| ModeProperties.ModeIsScalarOf | app.js:35-53 | A value that occurs strictly more often than every other value is returned as a bare number. |
| ModeProperties.ModeIsListOf | app.js:35-53 | Suppose two or more values share a count, are listed in `for..in` order, and every other value occurs less often. Then `mode` returns exactly that list. |
| ModeProperties.ModeSingleWinner | app.test.js:67-71 | `1,2,2,3,3,3,4` has the single mode 3. |
| ModeProperties.ModeTiedWinners | app.test.js:73-77 | `1,2,2,3,3,4,4` has the modes `[2,3,4]`. |
| ModeProperties.ModeIndexKeysAscending | app.js:43-49 | `3,3,1,1` has the modes `[1,3]`: array-index keys are visited in ascending order, not in first-occurrence order. |
| ModeProperties.ModeOtherKeysFirstOccurrence | app.js:43-49 | `0.5,-1,0.5,-1` has the modes `[0.5,-1]`: keys that are not array indices keep first-occurrence order. |
| ResponseFormatter.AcceptOrDefault | app.js:77 | An absent or empty header becomes `application/json`. Any other header is used as given. |
| ResponseFormatter.FormatResponse | app.js:55-62 | The result is HTML exactly when the header mentions `text/html` and not `application/json`. JSON keeps the operation and the value. The HTML page carries the operation as its heading, right after `<html><body>`, and the value's text in the result line. |
| ResponseFormatter.PageParts | app.js:59 | The page template places the heading at a fixed offset and contains the result line. |
| Routes.StatRoute | app.js:73-134 | The reply is 400 exactly when parsing fails, and carries the parse error's message. Otherwise the input is non-empty and the body is what `formatResponse` makes of the route's name, its statistic and the header (absent or empty meaning `application/json`): JSON `{ operation, value }`, or, exactly when the header asks only for `text/html`, a page whose result line shows the statistic. |
| Routes.Unwrap | app.js:147 | Unwrapping keeps the numbers and never leaves a one-element array. |
| Routes.UnwrapModeIsNoOp | app.js:147 | The unwrap in `/all` never changes what `mode` returned. |
| Routes.AllOutcome | app.js:138-148 | `/all`'s mean, added once per element, gives the total. Its median lies between the extremes. Its modes are exactly the most frequent values, even though they are computed on the array `median` sorted. |
| Routes.AllAgreesWithSingleRoutes | app.js:138-148 | `/all` reports the same mean and median as the single routes. Its mode has the same set of values and the same bare-or-array shape, and is identical when every value is an array index. |
| Routes.AllRoute | app.js:136-173 | The reply is 400 exactly when parsing fails, with that error's message. Otherwise it is the `/all` page of the computed statistics exactly when the header mentions `text/html`, and the JSON object carrying those statistics otherwise. |
| Routes.AllPageLines | app.js:157-166 | The `/all` page contains the lines `<p>Mean: …</p>`, `<p>Median: …</p>` and `<p>Mode: …</p>`, with the modes joined by ", ". |
| Scenarios.MissingNumsRejected | app.test.js:25-29 | Every route answers a missing or empty `nums` with 400 "nums are required". |
| Scenarios.NotANumberReply | app.js:89-91 | Every route answers an unparsable token with 400 "<token> is not a number.". |
| Scenarios.JsonByDefault | app.js:77 | Without an `Accept` header every route answers with JSON. |
| Scenarios.RoutesDisagreeOnBothTypes | app.js:155 | A header that names both types gets JSON from the single routes and HTML from `/all`. |
| Scenarios.MeanOfOneToFive | app.test.js:13-17 | The mean of 1 to 5 is 3. |
| Scenarios.MedianOfOneToFive | app.test.js:43-47 | The median of 1 to 5 is 3. |
| Scenarios.MedianOfOneToFour | app.test.js:49-53 | The median of 1 to 4 is 2.5. |
| Scenarios.ParseOneToFive | app.test.js:92 | `1,2,3,4,5` parses to the numbers 1 to 5. |
| Scenarios.ModeOfOneToFive | app.test.js:91-100 | In 1 to 5 every value occurs once, so all five are modes, in order. |
| Scenarios.AllOfOneToFive | app.test.js:91-100 | `/all` on 1 to 5 gives mean 3, median 3 and the modes `[1,2,3,4,5]`. |
| Scenarios.AllModeFollowsSortedOrder | app.js:138-147 | On `0.5,-1,0.5,-1`, `mode` answers `[0.5,-1]` while `/all` answers `[-1,0.5]`. |
| Scenarios.AllHtmlOfOneToFive | app.test.js:114-122 | When 1 to 5 render as their digits, `/all` asked for `text/html` answers with a page containing `<p>Mean: 3</p>`, `<p>Median: 3</p>` and `<p>Mode: 1, 2, 3, 4, 5</p>`. |

## Left out

- `saveToFile` (app.js:64-71) and the `save=true` branches: they write a
  file stamped with the current time. Filesystem and clock are outside the
  model.
- Express plumbing: route registration, `res.setHeader`, status codes as
  numbers, `res.json` serialisation, unknown routes, `module.exports`.
  A reply is a datatype value instead.
- IEEE-754 arithmetic: rounding in the sum and the division, overflow to
  Infinity, NaN, and `-0` (whose key string `"0"` merges it with `0` in
  `mode`). Numbers are exact reals.
- `parseFloat`'s grammar (leading whitespace, trailing garbage, `Infinity`):
  it is the parameter `parse`.
- JavaScript's Number-to-string conversion: it is the parameter `render`.
  `mode` turns each number into a key string and back with `Number(key)`.
  The model takes this round trip to be the identity on the numbers it
  sees, and distinct numbers to give distinct keys.
- A repeated `nums` parameter, which Express delivers as an array. The
  model treats the parameter as a single string or absent.
- Statistics.Mean: requires a non-empty list. On `[]` the source computes
  `0 / 0` (NaN), but the parser never returns an empty list, since `split`
  yields at least one piece.
- Statistics.SortAndMedian: requires a non-empty list, for the same reason.
- Statistics.MedianInPlace: its contract speaks of the array before and
  after the call. The rest of the model uses the pure `SortAndMedian`,
  which returns the sorted array alongside the median.
- Scenarios.NotANumberReply: takes the parse failure as a premise. The
  whole `1,foo,3` request is covered by combining it with
  `NumberListParser.RejectsFoo`.
- Scenarios.AllHtmlOfOneToFive: takes the parsed list as a premise.
  `Scenarios.ParseOneToFive` shows that `1,2,3,4,5` parses to it.
- The JSON bodies of the `/all` tests are compared on the statistics
  (`AllResponse`); the constant field `operation: "all"` is left implicit.
