# Receipt processor: a Dafny model of the scoring core

The service accepts a receipt as JSON, scores it, stores the points under a
fresh id and answers later lookups of that id. This project models four parts
of it:

- the **points engine**: `calculatePoints`, `calculateItemPoints`,
  `countAlphanumeric` and `isTimeBetween`;
- the **money parser**: `parseCents` and `parseNum`;
- the **receipt intake**: how `processReceiptHandler` normalises a decoded
  request body;
- the **in-memory store**: the map that `processReceiptHandler` fills and
  `getPointsHandler` reads.

The files and modules:

| file | module | contents |
|---|---|---|
| `wrappers.dfy` | `Wrappers` | `Option` and `Result` |
| `text.dfy` | `Text` | text as bytes; `strings.TrimSpace`; the alphanumeric count |
| `money.dfy` | `Money` | `parseNum`; `strings.Split` on '.'; `parseCents` |
| `calendar.dfy` | `Calendar` | the `"2006-01-02"` and `"15:04"` layouts of `time.Parse`; the 2 PM / 4 PM window |
| `points.dfy` | `Points` | the scoring rules, as functions and as the source's two procedures |
| `intake.dfy` | `Intake` | normalisation of a decoded body; the `ReceiptStore` class |
| `examples_scores.dfy` | `ScoreExamples` | every row of the `calculatePoints` test table |
| `examples_intake.dfy` | `IntakeExamples` | the two handler tests, run through the store |

Go strings are byte strings, and `len` counts bytes. So every text the rules
read (retailer, descriptions, amounts, date and time) is `seq<byte>`, and every
length rule counts bytes. The receipt ids, which no rule reads, stay Dafny
`string` keys of the store. Loops over runes
(`countAlphanumeric`, `parseNum`) give the same answer over the bytes of UTF-8
text. A multi-byte character never contains an ASCII letter or digit, and
each of its bytes fails the digit test.

Each procedure that works step by step is a `method`. `CountAlphanumeric`,
`ParseNum`, `CalculateItemPoints` and `BuildReceipt` carry the source's loops.
`ParseAmount` and `CalculatePoints` follow its straight-line code, statement by
statement. Each method is proved equal to a specification function, and the
properties are proved as lemmas about those functions. The store is a class
with a `map<string, int>` field. `ProcessReceipt` updates that map in place;
`GetPoints` only reads it.

Where the service's published scoring rules and the code disagree, the model
follows the code:

- The description-length rule uses the **byte** length of the trimmed
  description (`len(strings.TrimSpace(...))`, main.go:190), not a count of
  characters.
- The rule gives its bonus to **every** length that is a multiple of 3,
  including 0: an empty or all-blank description qualifies.
- When the date does not parse, the time rule is skipped even if the time
  itself parses (main.go:155-165).
- An amount is split at every '.', and only the first two pieces are read
  (main.go:205, 214-215). Text after a second '.' is ignored, so "1.2.3"
  parses to 120 cents.

## Model

| member | source | states |
|---|---|---|
| Text.TrimSpace | main.go:76-78 | the trimmed text is no longer than its input and has no white space at either end |
| Text.TrimSpaceDecomposition | main.go:76-78 | a trimmed text is a slice of its input, and everything dropped before and after it is white space |
| Text.TrimSpaceOfPadded | main.go:91 | trimming a core wrapped in any white space gives back exactly that core |
| Text.TrimSpaceOfTrimmed | main.go:76-78 | a text without white space at either end is left unchanged |
| Text.TrimSpaceIdempotent | main.go:190 | trimming an already trimmed description changes nothing |
| Text.CountAlphanumeric | main.go:174-182 | the loop returns the number of ASCII letters and digits in the text |
| Text.AlnumCount | main.go:174-182 | the count never exceeds the length |
| Text.AlnumCountConcat | main.go:174-182 | the count of a concatenation is the sum of the counts |
| Text.AlnumCountSingle | main.go:177 | one byte counts 1 exactly when it is in a-z, A-Z or 0-9 |
| Text.AlnumCountAll | main.go:174-182 | the count equals the length if and only if every byte is alphanumeric |
| Text.AlnumCountNone | main.go:174-182 | the count is 0 if and only if no byte is alphanumeric; accented letters and punctuation add nothing |
| Money.ParseNum | main.go:227-238 | succeeds if and only if every byte is a decimal digit (the empty text included), and then returns the decimal value of the digits |
| Money.DecimalValue | main.go:235 | the value of k digits is below 10^k |
| Money.DecimalValueAppend | main.go:235 | appending a digit multiplies the value by 10 and adds the digit |
| Money.Split | main.go:205 | splitting always gives at least one piece, and no piece contains a '.' |
| Money.JoinSplit | main.go:205 | joining the pieces with '.' gives back the input |
| Money.SplitJoin | main.go:205 | splitting a join of dot-free pieces gives back the pieces |
| Money.SplitAtFirst | main.go:205-208 | the first piece is everything before the first '.'; there is more than one piece exactly when a '.' follows |
| Money.SplitFraction | main.go:205-215 | "d.c..." with dot-free d and c splits into d first and c second |
| Money.ParseCents | main.go:198-225 | every failure carries the description it was given |
| Money.ParseAmount | main.go:198-225 | the procedure returns what the parseCents specification returns, errors included |
| Money.ParseCentsDollars | main.go:213-224 | on success the dollar piece is all digits and equals the result divided by 100. The remainder is 0 without a point. Otherwise the cents piece is at most two digits, and the remainder is its value scaled to two digits |
| Money.ParseCentsWhole | main.go:205-224 | "d" with no point parses to d·100 |
| Money.ParseCentsFraction | main.go:213-224 | "d.cc" parses to d·100+cc, "d.c" to d·100+10c and "d." to d·100; anything from a second '.' on is ignored |
| Money.ParseCentsDollarsCents | main.go:213-224 | the common "d.cc" form parses to d·100+cc |
| Money.ParseCentsBadDollars | main.go:207-211 | a non-digit before the first '.' is an invalid-dollars error naming the description |
| Money.ParseCentsBadCents | main.go:214-218 | after valid dollars, a non-digit or a third digit in the cents piece is an invalid-cents error naming the description |
| Money.ParseCentsFormat | main.go:198-225 | every cents amount written as "dollars.cc" parses back to itself |
| Calendar.ParseDate | main.go:155 | a date that parses is a real calendar date (month 1-12, day within that month, leap years included), spelled in exactly 10 bytes |
| Calendar.ParseFormatDate | main.go:155 | every valid date written in the layout parses back to itself |
| Calendar.ParseDateCanonical | main.go:155 | any text that parses is exactly the layout's spelling of the date it gives |
| Calendar.ParseTime | main.go:161 | a time that parses is a time of day under 24 hours, in minutes |
| Calendar.ParseFormatTime | main.go:161 | every time of day written HH:MM parses back to itself |
| Calendar.ParseShortHour | main.go:161 | before 10:00 a one-digit hour ("9:05") is also accepted |
| Calendar.ParseTimeCanonical | main.go:161 | any text that parses is HH:MM, or H:MM before 10:00, of the time it gives |
| Calendar.IsTimeBetween | main.go:170-172 | holds only inside a window at least two minutes wide, and never at either bound |
| Calendar.WindowConstants | main.go:45-48 | "14:00" and "16:00" parse to the two window bounds |
| Points.PriceBonus | main.go:192 | the bonus is the least whole number p with 500·p ≥ the price in cents, which is ceil(price·0.2) in dollars |
| Points.CalculateItemPoints | main.go:184-196 | the loop returns 5 per pair of items plus the bonus of every item whose trimmed description is a multiple of 3 bytes long |
| Points.CalculatePoints | main.go:136-168 | the running total is the sum of all the rules, and it is never negative |
| Points.TotalRules | main.go:142-149 | the two total rules fire independently: 75 for a round dollar, 25 for another multiple of 25 cents, otherwise 0 |
| Points.DescriptionPointsConcat | main.go:189-194 | the bonus sum over a concatenation is the sum of the two bonus sums |
| Points.DescriptionPointsRemove | main.go:189-194 | taking an item out of a list takes exactly its bonus out of the sum |
| Points.DescriptionPointsPermutation | main.go:189-194 | the bonus sum does not depend on the order of the items |
| Points.ItemPointsPermutation | main.go:184-196 | item points do not depend on the order of the items |
| Points.DescriptionPointsTrimmed | main.go:190 | trimming the descriptions first leaves the bonus sum unchanged |
| Points.CalendarRules | main.go:154-172 | the calendar rules give 0, 6, 10 or 16 points. There are 6 exactly when the date parses and its day is odd. There are 10 exactly when the date and the time both parse and the time is strictly between 14:00 and 16:00. A date that does not parse gives nothing |
| Points.ScoreWithoutDate | main.go:155-167 | a receipt whose date does not parse scores exactly the retailer, total and item rules |
| Points.ScorePermutation | main.go:136-168 | the score does not depend on the order of the items |
| Intake.ParseItems | main.go:79-94 | the accepted item list has one item per decoded item |
| Intake.ParseItemsSuccess | main.go:83-94 | the items are accepted if and only if every price parses. Item i is then the trimmed i-th description with the i-th price in cents |
| Intake.ParseItemsOfEach | main.go:83-94 | if each item parses on its own, the list parses to those items, in order |
| Intake.ParseItemsFirstFailure | main.go:83-89 | the first item whose price fails decides the error, which carries that item's untrimmed description |
| Intake.PrefixFailure | main.go:83-89 | a failure among the first k items is the failure of the whole list |
| Intake.NormalizeSuccess | main.go:75-103 | intake succeeds if and only if every item price and the total parse. Retailer, date and time are then trimmed, the item count is kept and the total is the parsed total |
| Intake.NormalizeItemsFirst | main.go:83-97 | a bad item price is reported before the total is looked at |
| Intake.NormalizeBadTotal | main.go:97-102 | with all item prices valid, a bad total is an invalid-total error labelled "total" |
| Intake.NormalizeItemPoints | main.go:190 | the trimming at intake does not change the item points |
| Intake.BuildReceipt | main.go:75-103 | filling the item slice in order and stopping at the first bad price gives exactly the normalised receipt or its error |
| Intake.ReceiptStore.constructor | main.go:51 | the store starts empty |
| Intake.ReceiptStore.ProcessReceipt | main.go:75-107 | a receipt that normalises is stored under the given id with its score, and the id is returned. A refused one gives its intake error and leaves the store unchanged |
| Intake.ReceiptStore.GetPoints | main.go:119-126 | finds points exactly when the id is stored, and then returns its stored points |
| ScoreExamples.TargetItemPoints | main_test.go:106-113 | the five items of the example receipt earn 16 |
| ScoreExamples.ScoreTarget | main_test.go:100-116 | the example receipt scores 28 |
| ScoreExamples.ScoreRoundDollar | main_test.go:117-127 | a round-dollar total in the window scores 97 |
| ScoreExamples.ScoreQuarter | main_test.go:128-138 | 75 cents at 10:00 scores 37 |
| ScoreExamples.ScoreOddDay | main_test.go:139-149 | an odd day scores 18 |
| ScoreExamples.ScoreAfternoon | main_test.go:150-182 | 15:00 lies in the window: 22, with or without an empty item list |
| ScoreExamples.ScoreEmptyRetailer | main_test.go:161-171 | an empty retailer counts 0: 85 |
| ScoreExamples.ScoreOneItem | main_test.go:183-195 | one 9-byte item at 1.00 adds 1: 23 |
| ScoreExamples.SixItemPoints | main_test.go:196-213 | six 6-byte items earn 15 for pairs and 7 in bonuses |
| ScoreExamples.ScoreManyItems | main_test.go:196-213 | the six-item receipt scores 44 |
| ScoreExamples.ScoreThreeLetters | main_test.go:214-226 | "ABC" at 1.51 adds ceil(0.302) = 1: 23 |
| ScoreExamples.ScoreFourLetters | main_test.go:227-239 | "ABCD" earns no bonus: 22 |
| ScoreExamples.AccentedRetailerCount | main_test.go:243 | "Tárgét" has 4 alphanumerics |
| ScoreExamples.ScoreAccentedRetailer | main_test.go:240-250 | the accented retailer scores 85 |
| ScoreExamples.ScoreInvalidDate | main_test.go:251-261 | a date that does not parse forfeits both calendar rules: 12 |
| ScoreExamples.ScoreInvalidTime | main_test.go:262-272 | a time that does not parse forfeits only the window rule: 18 |
| ScoreExamples.CornerMarketCount | main_test.go:276 | "M&M Corner Market" has 14 alphanumerics |
| ScoreExamples.GatoradeItemPoints | main_test.go:280-285 | four 8-byte items earn 10 |
| ScoreExamples.ScoreCornerMarket | main_test.go:273-288 | the M&M receipt scores 109 |
| IntakeExamples.TargetItemsParse | main_test.go:19-25 | the five decoded items of the example parse to the items of the score example |
| IntakeExamples.TargetTotal | main_test.go:26 | the total "35.35" is 3535 cents |
| IntakeExamples.NormalizeTarget | main_test.go:15-27 | intake turns the example request body into the receipt that scores 28 |
| IntakeExamples.ProcessThenGetTarget | main_test.go:14-72 | the example posted under an id and then looked up gives 28 points |
| IntakeExamples.GetUnknown | main_test.go:74-92 | an id that was never stored is not found |

## Left out

- HTTP routing, JSON decoding and encoding, the response headers and status codes, logging, `main` and `loggingMiddleware`: these are I/O. A body that fails to decode is never modelled. The model starts from the decoded fields, as text.
- The id: the service draws a fresh UUID (`uuid.NewString`). Here it is a parameter of `ProcessReceipt`, which overwrites any entry already under that id, as a Go map assignment would.
- Concurrent access to the shared map: the handlers run concurrently in the service and the map is unsynchronised. The model is sequential.
- The text of the error messages: an error is modelled by its kind and the description it names, not by its formatted string.
- The non-string branch of `parseCents` (`dollarAmount.(string)` failing): both callers always pass strings.
- Money.ParseNum: does not model the wrap-around of Go's 64-bit `int` once the value passes 2^63 - 1 (nor that of `dollars*100` in `parseCents`). Integers here are unbounded.
- Points.PriceBonus: the source computes `math.Ceil(float64(price) * 0.2 / 100)` in floating point. The model uses the exact value ceil(price / 500) cents. The two agree unless rounding in floating point pushes a whole result above an integer, which does not happen for prices of realistic size.
- Text.TrimSpace: only ASCII white space (space, tab, newline, vertical tab, form feed, carriage return) is trimmed. The Unicode spaces that `strings.TrimSpace` also removes (U+0085, U+00A0 and the other White_Space code points) are not modelled.
- Calendar.ParseDate and Calendar.ParseTime: these model only the two layouts the core uses, not `time.Parse` in general. Years run 0000-9999. The parsed time is kept as minutes since midnight, not as a `time.Time`, which is all the window test needs.
