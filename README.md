# Finance assistant helpers, modelled in Dafny

The chat assistant of a personal-finance application answers questions with a set of helpers:

- `extractAmount` reads a sum of money out of a Vietnamese or English message.
- `parseTimeFilter` turns a phrase such as "tháng trước" or "tháng 3" into a calendar month.
- `parseGeminiResponse` cleans the language model's reply down to the JSON intent payload and checks it.
- `getQuickStats` and `getQuickStatsWithFilter` report on one month's transactions.
- `compareMonths` compares the expense of the last N months.
- `analyzeFinancialHealth` and `generateFinancialInsights` aggregate three months and apply fixed rules that produce warnings, positives, suggestions, habits and advice.

This project models those helpers, and the aggregation loops inside them, as Dafny modules. It proves what each one computes.

The modules:

- `Wrappers`: Option and Result.
- `Text`: the character classes, `toLowerCase`, `includes`, `indexOf`, `lastIndexOf` and `trim` the helpers use.
- `Calendar`: month arithmetic as `new Date(y, m - 1 - i, 1)` performs it, and the month window `[first day 00:00, last day 23:59:59.999]`.
- `Ledger`: transactions, per-kind totals, dictionaries as association lists in insertion order, and the stable descending sort.
- `MonthStats`: the three `forEach` aggregation loops.
- `AmountExtraction`: `extractAmount`. Each of the four regular expressions is a scanner that finds the same leftmost match as the JavaScript engine.
- `TimeFilter`: `parseTimeFilter`, and the month-selection logic of `getQuickStats` and `getQuickStatsWithFilter`.
- `IntentPayload`: `parseGeminiResponse`. The cleaning pipeline is modelled character by character. `JSON.parse` is a parameter.
- `QuickStats`: `getQuickStats` and `getQuickStatsWithFilter`.
- `MonthComparison`: `compareMonths`.
- `FinancialInsights`: `analyzeFinancialHealth` and `generateFinancialInsights`. Loops and pushes are methods, specified by functions.
- `InsightRules`: the rules stated message by message, as "this message appears exactly when …" lemmas.

Database reads become a parameter `all: seq<Transaction>`, filtered by the month window. The clock becomes a parameter `now`. Amounts are exact reals. Division by zero in the insight rules is written out as the language's floating-point results:

- `x / 0` is infinite for `x != 0` and not a number for `x == 0`.
- Every comparison with a value that is not a number is false.

Edge cases of the code that the model keeps:

- **`compareMonths` with fewer than two months.** Reading `lastMonth.totalExpense` throws, and the catch returns only the error message. `MonthComparison.CompareMonths` fails exactly when `months < 2`.
- **The stability check.** The code computes `|cur - last| / last < 0.15`:
  - it holds for every negative previous expense;
  - it fails for a zero one, whether the quotient is infinite or not a number.

  `InsightRules.StableThreshold` states exactly this.
- **The saving rate without income.** The code sets it to 0. A rate of 0 then gives the overspending warning, because it is not above 0.
- **The low-saving suggestion.** The code gives it only for a rate strictly above 0 and below 10.
- **"2 triệu".** The amount is read from the leftmost match. The text "2 triệu" reads as 2000000, which `AmountExtraction.TwoMillionExample` proves. A longer text containing "2 triệu" can read differently: "12 triệu" reads as 12000000.

Behaviour of the code that the model keeps and proves:

- `"1,000,000"` reads as 1 (`AmountExtraction.SeparatedMillionExample`). Commas become dots, and `parseFloat` stops at the second dot.
- "tháng N" always names a month of the current year (`TimeFilter.MonthNumberThird`).
- Only the first two months, and the number of goals, influence the insights. `totalBalance` and the third month are passed through and never read.
- A year of 0 is falsy. `getQuickStats` replaces it with the current year (`TimeFilter.SelectMonth`).

## Model

| member | source | states |
|---|---|---|
| AmountExtraction.ExtractAmount | backend/controllers/aiHandlers/utilsHelper.js:10-47 | the amount is `AmountOf(text)`: none for a missing or empty text, otherwise the rounded, scaled value of the first pattern that matches |
| AmountExtraction.AmountAbsentIffNoDigit | backend/controllers/aiHandlers/utilsHelper.js:11-46 | `extractAmount` returns null exactly when the text is missing or contains no digit |
| AmountExtraction.FirstMatchSomeIffDigit | backend/controllers/aiHandlers/utilsHelper.js:14-23 | some pattern from the i-th on matches exactly when the text has a digit, because the bare-number pattern matches at any digit |
| AmountExtraction.AmountNonNegative | backend/controllers/aiHandlers/utilsHelper.js:24-42 | an extracted amount is never negative |
| AmountExtraction.FirstMatchingFamilyDecides | backend/controllers/aiHandlers/utilsHelper.js:21-43 | the amount is `Math.round` of the matched number times the factor of the first family that matches |
| AmountExtraction.AmountOf | backend/controllers/aiHandlers/utilsHelper.js:10-47 | what `extractAmount` returns; `ExtractAmount`, `AmountAbsentIffNoDigit`, `AmountNonNegative` and `FirstMatchingFamilyDecides` state what it means |
| AmountExtraction.MatchAmount | backend/controllers/aiHandlers/utilsHelper.js:24-42 | the amount a match stands for; `MatchAmountScaled` and `ScaledAmount` prove it is the rounded value times the factor of its family |
| AmountExtraction.RoundHalfUp | backend/controllers/aiHandlers/utilsHelper.js:42 | `Math.round` gives the integer within one half of the value, a value halfway between two integers going to the upper one |
| AmountExtraction.ScaleOf | backend/controllers/aiHandlers/utilsHelper.js:27-40 | the `includes` chain on the lower-cased full match; `UnitWordScale`, `ScaleIgnoresNumber` and `MatchScale` prove which factor each kind of match gets |
| AmountExtraction.FirstMatch | backend/controllers/aiHandlers/utilsHelper.js:21-23 | the family returned is one whose pattern matches, with that pattern's match |
| AmountExtraction.FirstMatchSkips | backend/controllers/aiHandlers/utilsHelper.js:21-23 | patterns that match nowhere are passed over in order |
| AmountExtraction.Search | backend/controllers/aiHandlers/utilsHelper.js:22 | `text.match(pattern)` finds the leftmost position where the pattern matches, and reports no match only when no position matches |
| AmountExtraction.MatchAt | backend/controllers/aiHandlers/utilsHelper.js:15-18 | a match starts at a digit, and its number part ends before its unit |
| AmountExtraction.NumberEnd | backend/controllers/aiHandlers/utilsHelper.js:15-17 | `\d+(?:[.,]\d+)?` spans only digits and separators |
| AmountExtraction.GroupsEnd | backend/controllers/aiHandlers/utilsHelper.js:18 | `(?:[.,]\d+)*` spans only digits and separators |
| AmountExtraction.UnitAt | backend/controllers/aiHandlers/utilsHelper.js:15-17 | a unit found is one of the pattern's alternatives, matched without regard to case |
| AmountExtraction.CommasToDots | backend/controllers/aiHandlers/utilsHelper.js:24 | `replace(/,/g, ".")` keeps the length, turns each comma into a dot and changes nothing else |
| AmountExtraction.ParseFloat | backend/controllers/aiHandlers/utilsHelper.js:24 | `parseFloat` of a text that starts with a digit is not negative |
| AmountExtraction.UnitWordScale | backend/controllers/aiHandlers/utilsHelper.js:27-40 | the `includes` chain gives every unit word its family's factor: "triệu", "tr" and "million" give 10^6; "nghìn", "k" and "thousand" give 10^3; the đồng units give 1 |
| AmountExtraction.ScaleIgnoresNumber | backend/controllers/aiHandlers/utilsHelper.js:27-40 | digits, separators and spaces in front of the unit do not change the factor |
| AmountExtraction.MatchScale | backend/controllers/aiHandlers/utilsHelper.js:27-40 | the lower-cased full match of a family's pattern is scaled by exactly that family's factor |
| AmountExtraction.BareMatchScale | backend/controllers/aiHandlers/utilsHelper.js:18-40 | a bare number is not scaled |
| AmountExtraction.UnitMatchScale | backend/controllers/aiHandlers/utilsHelper.js:15-40 | a match with a unit is scaled by its unit's factor |
| AmountExtraction.UnitSpanScale | backend/controllers/aiHandlers/utilsHelper.js:27-40 | a number followed by a unit word is scaled by that unit's factor |
| AmountExtraction.UnitMatchShape | backend/controllers/aiHandlers/utilsHelper.js:15-17 | a match with a unit is a number, optional spaces, and one of the unit words |
| AmountExtraction.NoUnitAtNumberChar | backend/controllers/aiHandlers/utilsHelper.js:15-17 | no unit word starts at a digit or a separator |
| AmountExtraction.NoUnitInNumber | backend/controllers/aiHandlers/utilsHelper.js:15-17 | in a text of digits and separators, no pattern with a unit matches at any position |
| AmountExtraction.NoUnitSearch | backend/controllers/aiHandlers/utilsHelper.js:15-22 | in a text of digits and separators, no pattern with a unit matches |
| AmountExtraction.DigitsOnlyIsBare | backend/controllers/aiHandlers/utilsHelper.js:14-23 | a text of digits and separators that starts with a digit is read by the bare-number pattern |
| AmountExtraction.MatchAmountScaled | backend/controllers/aiHandlers/utilsHelper.js:24-42 | the amount of a family's match is its rounded value times the family's factor |
| AmountExtraction.ScaledAmount | backend/controllers/aiHandlers/utilsHelper.js:24-42 | a match whose text carries a family's factor is rounded at that factor |
| AmountExtraction.TwoMillionExample | backend/controllers/aiHandlers/utilsHelper.js:15-42 | "2 triệu" gives 2000000 |
| AmountExtraction.TwoMillionMatch | backend/controllers/aiHandlers/utilsHelper.js:15-24 | in "2 triệu" the millions pattern matches the whole text, and the number part reads 2 |
| AmountExtraction.TwelveMillionExample | backend/controllers/aiHandlers/utilsHelper.js:15-42 | "12 triệu" gives 12000000, although it contains "2 triệu": the leftmost match starts at the "1" |
| AmountExtraction.TwelveMillionMatch | backend/controllers/aiHandlers/utilsHelper.js:15-24 | in "12 triệu" the millions pattern matches from the first character, capturing "12" |
| AmountExtraction.FiftyThousandExample | backend/controllers/aiHandlers/utilsHelper.js:16-42 | "50k" gives 50000 |
| AmountExtraction.FiftyThousandMatch | backend/controllers/aiHandlers/utilsHelper.js:15-24 | in "50k" the millions pattern misses, the thousands pattern matches the whole text, and the number part reads 50 |
| AmountExtraction.FifteenThousandDongExample | backend/controllers/aiHandlers/utilsHelper.js:17-42 | "15000đ" gives 15000 |
| AmountExtraction.DongFirstMatch | backend/controllers/aiHandlers/utilsHelper.js:15-23 | in "15000đ" the first pattern that matches is the đồng pattern, over the whole text |
| AmountExtraction.SeparatedMillionExample | backend/controllers/aiHandlers/utilsHelper.js:18-42 | "1,000,000" gives 1: the bare pattern takes it all, and `parseFloat("1.000.000")` is 1 |
| TimeFilter.ParseTimeFilter | backend/controllers/aiHandlers/utilsHelper.js:202-237 | a resolved month is a real month: the current one, the one before, or a month of the current year |
| TimeFilter.MentionsThisMonth | backend/controllers/aiHandlers/utilsHelper.js:211-216 | the lower-cased filter includes "tháng này" or "this month"; `ThisMonthFirst` states the month it gives |
| TimeFilter.MentionsLastMonth | backend/controllers/aiHandlers/utilsHelper.js:218-222 | the lower-cased filter includes "tháng trước" or "last month"; `LastMonthSecond` states the month it gives |
| TimeFilter.ThisMonthFirst | backend/controllers/aiHandlers/utilsHelper.js:209-216 | a phrase with "tháng này" or "this month" (after lower-casing) gives the current month, whatever else it says |
| TimeFilter.LastMonthSecond | backend/controllers/aiHandlers/utilsHelper.js:218-225 | otherwise a phrase with "tháng trước" or "last month" gives the month before, rolling January back to December of the year before |
| TimeFilter.MonthNumberThird | backend/controllers/aiHandlers/utilsHelper.js:227-236 | otherwise the leftmost "tháng N" gives month N of the current year when 1 ≤ N ≤ 12, and nothing for any other N |
| TimeFilter.NoPhraseNoMonth | backend/controllers/aiHandlers/utilsHelper.js:227-236 | a phrase with none of the three forms resolves to nothing |
| TimeFilter.MonthNumberAt | backend/controllers/aiHandlers/utilsHelper.js:228 | `/tháng\s*(\d+)/` can match only where "tháng" stands |
| TimeFilter.MonthNumberSearch | backend/controllers/aiHandlers/utilsHelper.js:228 | the position found is one where `/tháng\s*(\d+)/` matches |
| TimeFilter.MonthNumber | backend/controllers/aiHandlers/utilsHelper.js:228-230 | the number the leftmost "tháng N" carries; `MonthNumberThird`, `SearchFindsLeftmost` and `SearchFindsNothing` state which phrase it is read from |
| TimeFilter.SearchFindsLeftmost | backend/controllers/aiHandlers/utilsHelper.js:228 | the search returns the leftmost position where the pattern matches |
| TimeFilter.SearchFindsNothing | backend/controllers/aiHandlers/utilsHelper.js:228 | the search finds nothing when no position matches |
| TimeFilter.MarchExample | backend/controllers/aiHandlers/utilsHelper.js:209-233 | "Tháng 3" gives March of the current year |
| TimeFilter.ThirteenthMonthExample | backend/controllers/aiHandlers/utilsHelper.js:228-236 | "tháng 13" resolves to nothing |
| TimeFilter.LastMonthInJanuaryExample | backend/controllers/aiHandlers/utilsHelper.js:218-224 | "last month" in January gives December of the year before |
| TimeFilter.SelectMonth | backend/controllers/aiHandlers/utilsHelper.js:372-373 | an absent or zero target month or year falls back to the clock's, field by field |
| TimeFilter.StatsMonthIsParsedOrCurrent | backend/controllers/aiHandlers/utilsHelper.js:181-191 | `getQuickStatsWithFilter` reports on the parsed month, or on the current month when nothing parses; it is always a real month |
| TimeFilter.StatsMonth | backend/controllers/aiHandlers/utilsHelper.js:181-191 | the month `getQuickStatsWithFilter` hands to `getQuickStats`; `StatsMonthIsParsedOrCurrent` proves it is the parsed month, or the current one when the phrase resolves to nothing |
| IntentPayload.ParseGeminiResponse | backend/controllers/aiHandlers/utilsHelper.js:128-173 | the result is the validation of `JSON.parse` applied to the cleaned text |
| IntentPayload.CleanResponse | backend/controllers/aiHandlers/utilsHelper.js:130-145 | the working text, reassigned by the fence passes, the brace cut and the two call rewrites, ends as `CleanPayload` of the response |
| IntentPayload.Validate | backend/controllers/aiHandlers/utilsHelper.js:151-172 | it fails with a syntax error when parsing fails, with a type error on `null`, and with "Missing intent" exactly when `intent` is falsy. On success it keeps every field, and replaces a falsy `entities` with the eight null filters |
| IntentPayload.Get | backend/controllers/aiHandlers/utilsHelper.js:154-159 | a property is present exactly when the value is an object holding that key |
| IntentPayload.Truthy | backend/controllers/aiHandlers/utilsHelper.js:154-159 | JavaScript truthiness of a property: absent, null, false, 0 and the empty string are falsy; `Validate` uses it for `!parsed.intent` and `!parsed.entities` |
| IntentPayload.DefaultEntities | backend/controllers/aiHandlers/utilsHelper.js:159-170 | the default `entities` has exactly the eight filter keys, each null |
| IntentPayload.CleanPayloadHasNoFence | backend/controllers/aiHandlers/utilsHelper.js:130-145 | the text handed to `JSON.parse` never contains "```" |
| IntentPayload.RemoveFencesLeavesNoFence | backend/controllers/aiHandlers/utilsHelper.js:133 | `replace(/```/g, "")` leaves no "```" |
| IntentPayload.StripFencesKeepsPlainText | backend/controllers/aiHandlers/utilsHelper.js:130 | the multiline fence strip leaves a text without backticks unchanged |
| IntentPayload.RewritePayloadKeepsNoFence | backend/controllers/aiHandlers/utilsHelper.js:136-145 | the brace cut and the call rewrites create no "```" |
| IntentPayload.CleanPayloadIsBraceSpan | backend/controllers/aiHandlers/utilsHelper.js:130-145 | when the fenceless text has a `{` before its last `}`, the payload is that span with the calls rewritten, and it starts with `{` and ends with `}` |
| IntentPayload.BraceSpanCuts | backend/controllers/aiHandlers/utilsHelper.js:136-141 | the cut runs from the first `{` to the last `}` |
| IntentPayload.RewritePayloadOfSpan | backend/controllers/aiHandlers/utilsHelper.js:136-145 | the cut span, once rewritten, still starts with `{` and ends with `}` |
| IntentPayload.RewritesKeepBraces | backend/controllers/aiHandlers/utilsHelper.js:144-145 | `ISODate("…")` and `ObjectId("…")` rewrites keep the enclosing braces |
| IntentPayload.RewriteKeepsFirst | backend/controllers/aiHandlers/utilsHelper.js:144-145 | a rewrite keeps the first character when no call starts there |
| IntentPayload.RewriteWithoutCall | backend/controllers/aiHandlers/utilsHelper.js:144-145 | a text without `Name("` is left unchanged |
| IntentPayload.RewriteOneCall | backend/controllers/aiHandlers/utilsHelper.js:144-145 | `Name("x")` becomes `"x"` |
| IntentPayload.CallMatchAt | backend/controllers/aiHandlers/utilsHelper.js:144-145 | a call match is `Name("`, a non-empty quote-free argument, then `")` |
| IntentPayload.CallSearch | backend/controllers/aiHandlers/utilsHelper.js:144-145 | the global replace visits the leftmost call from a position, or finds none |
| IntentPayload.CallSearchFindsNothing | backend/controllers/aiHandlers/utilsHelper.js:144-145 | no call anywhere means the search finds none |
| IntentPayload.QuoteFreeEnd | backend/controllers/aiHandlers/utilsHelper.js:144-145 | `[^"]+` stops at the first quote or at the end |
| IntentPayload.QuoteFreeEndIs | backend/controllers/aiHandlers/utilsHelper.js:144-145 | `[^"]+` stops exactly at the first quote |
| IntentPayload.StripFencesFrom | backend/controllers/aiHandlers/utilsHelper.js:130 | `replace(/^```json\s*|```$/gm, "")` from a position: drops "```json" and the white space after it at a line start, and "```" at a line end; `StripFencesKeepsPlainText` proves a text without backticks is left as it is |
| IntentPayload.AtLineStart | backend/controllers/aiHandlers/utilsHelper.js:130 | `^` under the `m` flag: the start of the text or just after a line terminator |
| IntentPayload.AtLineEnd | backend/controllers/aiHandlers/utilsHelper.js:130 | `$` under the `m` flag: the end of the text or just before a line terminator |
| IntentPayload.RemoveFences | backend/controllers/aiHandlers/utilsHelper.js:133 | `replace(/```/g, "")`; `RemoveFencesLeavesNoFence` proves no "```" is left |
| IntentPayload.Fenceless | backend/controllers/aiHandlers/utilsHelper.js:130-133 | the two fence passes and their `trim()`s; `CleanPayloadHasNoFence` proves the result has no "```" |
| IntentPayload.BraceSpan | backend/controllers/aiHandlers/utilsHelper.js:136-141 | the first `{` through the last `}` when the first comes before the last, the text unchanged otherwise; `BraceSpanCuts` proves the cut |
| IntentPayload.RewriteFrom | backend/controllers/aiHandlers/utilsHelper.js:144-145 | the global call replace resumed at a position: on a text without "```" it creates none, because the quotes it inserts break every run of backticks, and it keeps a last character that is not `)`, because every call ends with `")` |
| IntentPayload.RewriteCalls | backend/controllers/aiHandlers/utilsHelper.js:144-145 | each `Name("x")` becomes `"x"`; `RewriteWithoutCall`, `RewriteOneCall`, `RewriteKeepsFirst` and `RewritesKeepBraces` state what it does |
| IntentPayload.RewritePayload | backend/controllers/aiHandlers/utilsHelper.js:136-145 | the brace cut and the two call rewrites; `RewritePayloadKeepsNoFence` and `RewritePayloadOfSpan` state what they keep |
| IntentPayload.CleanPayload | backend/controllers/aiHandlers/utilsHelper.js:130-145 | the text `JSON.parse` receives; `CleanPayloadHasNoFence` and `CleanPayloadIsBraceSpan` state what it is |
| Text.IndexOf | backend/controllers/aiHandlers/utilsHelper.js:136 | `indexOf` finds the leftmost occurrence, or reports none when there is none |
| Text.IndexOfFinds | backend/controllers/aiHandlers/utilsHelper.js:136 | the leftmost occurrence is the one returned |
| Text.LastIndexOf | backend/controllers/aiHandlers/utilsHelper.js:137 | `lastIndexOf` finds the rightmost occurrence, or reports none when there is none |
| Text.LastIndexOfFinds | backend/controllers/aiHandlers/utilsHelper.js:137 | the rightmost occurrence is the one returned |
| Text.Trim | backend/controllers/aiHandlers/utilsHelper.js:130-133 | `trim()` cuts white space and nothing else, from both ends: the result is a slice of the text with only white space outside it and none at either of its ends, and it is empty only for an all-space text |
| Text.LowerStr | backend/controllers/aiHandlers/utilsHelper.js:209 | `toLowerCase()` keeps the length and lower-cases character by character |
| Text.Lower | backend/controllers/aiHandlers/utilsHelper.js:209 | `toLowerCase()` of one character: digits, white space, `.` and `,` are left as they are, which the amount patterns rely on |
| Calendar.MonthsBack | backend/controllers/aiHandlers/utilsHelper.js:252-254 | `new Date(y, m - 1 - i, 1)` lands on a real month exactly i months back |
| Calendar.MonthOfIndex | backend/controllers/aiHandlers/utilsHelper.js:376 | `Date` normalises an out-of-range month index into a real month of the right year |
| Calendar.PreviousMonth | backend/controllers/aiHandlers/utilsHelper.js:222-223 | one month back is December of the year before for January, else the month before in the same year |
| Calendar.MonthsBackZero | backend/controllers/aiHandlers/utilsHelper.js:252-254 | zero months back is the reference month |
| Calendar.MonthsBackAdd | backend/controllers/aiHandlers/utilsHelper.js:252-254 | stepping back i then j months is stepping back i + j |
| Calendar.MonthIndexInjective | backend/controllers/aiHandlers/utilsHelper.js:310-311 | two real months with the same index are equal, so `month` and `year` together identify an entry |
| Calendar.IndexSplits | backend/controllers/aiHandlers/utilsHelper.js:252-254 | a month's index splits back into its year and month |
| Calendar.DaysInMonth | backend/controllers/aiHandlers/utilsHelper.js:257 | day 0 of the next month is the last day of this one: 30 exactly for April, June, September and November, 29 exactly for February of a leap year, 28 exactly for February of any other year, and 31 for the rest |
| Calendar.YearLength | backend/controllers/aiHandlers/utilsHelper.js:257 | the last days `new Date(y, m, 0)` gives for the twelve months add up to 366 in a leap year and 365 otherwise |
| Calendar.MonthStart | backend/controllers/aiHandlers/utilsHelper.js:256 | `new Date(year, month - 1, 1)`: midnight on the first day of the normalised month; `WindowIsCalendarMonth` states what the window holds |
| Calendar.MonthEnd | backend/controllers/aiHandlers/utilsHelper.js:257 | `new Date(year, month, 0, 23, 59, 59, 999)`: the last millisecond of the last day of the month; `WindowIsCalendarMonth` states what the window holds |
| Calendar.InMonthWindow | backend/controllers/aiHandlers/utilsHelper.js:261 | the `$gte`/`$lte` test; `WindowIsCalendarMonth` proves it holds exactly for the valid dates of that calendar month |
| Calendar.WindowIsCalendarMonth | backend/controllers/aiHandlers/utilsHelper.js:256-262 | the `$gte`/`$lte` window holds exactly the valid dates of that calendar month |
| Ledger.InWindow | backend/controllers/aiHandlers/utilsHelper.js:259-262 | the query returns exactly the user's transactions dated inside the window |
| Ledger.CategoryName | backend/controllers/aiHandlers/utilsHelper.js:404 | the category name used is the populated name when it is non-empty, and the fallback otherwise |
| Ledger.Amount | backend/controllers/aiHandlers/utilsHelper.js:408 | a missing or null amount counts as 0, the fallback written after `t.amount` on line 408; `KindTotal` and the folds add it |
| Ledger.TotalsPartition | backend/controllers/aiHandlers/utilsHelper.js:392-410 | the sum of all amounts is income plus expense plus the amounts of other kinds |
| Ledger.KindTotalAppend | backend/controllers/aiHandlers/utilsHelper.js:264-273 | a per-kind total over two runs of transactions is the sum of their totals |
| Ledger.KindTotalNonNegative | backend/controllers/aiHandlers/utilsHelper.js:264-273 | with non-negative amounts, a per-kind total is non-negative |
| Ledger.KindTotal | backend/controllers/aiHandlers/utilsHelper.js:264-273 | the per-type total the loops accumulate; `KindTotalAppend`, `KindTotalNonNegative`, `TotalsPartition` and `SumIncomeExpense` state its properties |
| Ledger.Find | backend/controllers/aiHandlers/utilsHelper.js:405 | `dict[key]` finds an entry with that key, or reports that none has it |
| Ledger.FindUnique | backend/controllers/aiHandlers/utilsHelper.js:405 | with distinct keys, the entry found is the one holding the key |
| Ledger.AddTo | backend/controllers/aiHandlers/utilsHelper.js:504-507 | creating a missing entry at 0 and adding to it keeps the keys distinct and in insertion order, a new key going at the end with value x; with distinct keys, the entry for the key rises by x and every other entry keeps its value |
| Ledger.AddToLookup | backend/controllers/aiHandlers/utilsHelper.js:504-507 | `dict[k] += x` after the missing-key guard: the value under k becomes its old value plus x, starting from 0 when k was missing, and every other key keeps its value or its absence |
| Ledger.AddToSum | backend/controllers/aiHandlers/utilsHelper.js:504-514 | adding x under any key raises the sum of the values by x |
| Ledger.SumOfUpdate | backend/controllers/aiHandlers/utilsHelper.js:408 | updating one entry changes the sum by the difference |
| Ledger.ValueAtMostSum | backend/controllers/aiHandlers/utilsHelper.js:655-657 | with non-negative values, each value is at most their sum |
| Ledger.SortPermutes | backend/controllers/aiHandlers/utilsHelper.js:290-292 | the descending sort is a permutation |
| Ledger.SortIsSorted | backend/controllers/aiHandlers/utilsHelper.js:290-292 | the descending sort is sorted |
| Ledger.SortIsStable | backend/controllers/aiHandlers/utilsHelper.js:419-421 | the elements sharing any one key come out of the sort in the order they went in, so `slice` keeps the earliest of tied entries |
| Ledger.InsertRun | backend/controllers/aiHandlers/utilsHelper.js:419-421 | inserting an element puts it ahead of every element that has its key |
| Ledger.InsertPermutes | backend/controllers/aiHandlers/utilsHelper.js:290-292 | inserting one element adds exactly it |
| Ledger.InsertSorted | backend/controllers/aiHandlers/utilsHelper.js:290-292 | inserting into a sorted sequence keeps it sorted |
| Ledger.SortDescending | backend/controllers/aiHandlers/utilsHelper.js:290-292 | the descending sort keeps the length; `SortPermutes`, `SortIsSorted` and `SortIsStable` prove it is a descending permutation that keeps tied elements in their input order, and `SortHeadIsFirstMax` and `SortLastIsLastMin` give its first and last elements |
| Ledger.FirstMaxIndex | backend/controllers/aiHandlers/utilsHelper.js:293 | the first of the entries with the largest key |
| Ledger.LastMinIndex | backend/controllers/aiHandlers/utilsHelper.js:294 | the last of the entries with the smallest key |
| Ledger.SortHeadIsFirstMax | backend/controllers/aiHandlers/utilsHelper.js:290-293 | the stable sort puts the first maximum first |
| Ledger.SortLastIsLastMin | backend/controllers/aiHandlers/utilsHelper.js:290-294 | the stable sort puts the last minimum last |
| Ledger.TopSelects | backend/controllers/aiHandlers/utilsHelper.js:419-421 | `sort().slice(0, n)` keeps min(n, size) entries, sorted, drawn from the input, and none left out is larger |
| Ledger.PrefixOfSorted | backend/controllers/aiHandlers/utilsHelper.js:421 | a prefix of a sorted sequence is sorted and at least as large as the rest |
| Ledger.Top | backend/controllers/aiHandlers/utilsHelper.js:419-421 | `sort(...).slice(0, n)`; `TopSelects` proves it keeps min(n, size) entries of the input, sorted, and no entry left out is above one kept |
| MonthStats.SumIncomeExpense | backend/controllers/aiHandlers/utilsHelper.js:264-273 | the loop's totals are the income and expense totals of the month |
| MonthStats.QuickStatsFold | backend/controllers/aiHandlers/utilsHelper.js:392-410 | the loop's totals and `categoryStats` are those of the month's transactions |
| MonthStats.CategoryStatsOf | backend/controllers/aiHandlers/utilsHelper.js:394-410 | `categoryStats` after the loop; `CategoryStatsDistinct`, `CategoryCountsSumToCount`, `CategoryTotalsSumToAmounts` and `CategoryEntryCountsItsTransactions` state what it holds |
| MonthStats.RecordCategory | backend/controllers/aiHandlers/utilsHelper.js:403-409 | one pass of the loop: the entry for the name is created with the transaction's type if missing, then its total rises by the amount and its count by one; `CategoryEntryCountsItsTransactions` states the result over all passes |
| MonthStats.CategoryStatsDistinct | backend/controllers/aiHandlers/utilsHelper.js:394-410 | `categoryStats` has each category once |
| MonthStats.CategoryCountsSumToCount | backend/controllers/aiHandlers/utilsHelper.js:394-410 | the category counts add up to the number of transactions |
| MonthStats.CategoryTotalsSumToAmounts | backend/controllers/aiHandlers/utilsHelper.js:394-410 | the category totals add up to the sum of all amounts |
| MonthStats.CategoryEntryCountsItsTransactions | backend/controllers/aiHandlers/utilsHelper.js:403-409 | a category has an entry exactly when some transaction carries it, with that many transactions and their total |
| MonthStats.UnnamedTotalZero | backend/controllers/aiHandlers/utilsHelper.js:403-409 | a name no transaction carries totals zero |
| MonthStats.TopCategories | backend/controllers/aiHandlers/utilsHelper.js:419-421 | the five largest category totals; `TopSelects` states what the selection keeps |
| MonthStats.HealthFold | backend/controllers/aiHandlers/utilsHelper.js:491-516 | the loop's totals, `categoryBreakdown` and `expenseByDay` are those of the month's transactions |
| MonthStats.BreakdownsOf | backend/controllers/aiHandlers/utilsHelper.js:493-516 | `categoryBreakdown` and `expenseByDay` after the loop; `BreakdownsSumToExpense`, `BreakdownEntryIsCategoryExpense`, `DayEntryIsDayExpense` and `DayKeysAreDays` state what they hold |
| MonthStats.RecordExpense | backend/controllers/aiHandlers/utilsHelper.js:502-514 | one pass of the loop: an expense adds its amount under its category name and under its day, other types change nothing; `BreakdownEntryIsCategoryExpense` and `DayEntryIsDayExpense` state the result over all passes |
| MonthStats.BreakdownsSumToExpense | backend/controllers/aiHandlers/utilsHelper.js:496-516 | both breakdowns have distinct keys and add up to the month's expense |
| MonthStats.BreakdownEntryIsCategoryExpense | backend/controllers/aiHandlers/utilsHelper.js:502-507 | `categoryBreakdown` has an entry for a name exactly when some expense is filed under it ("Khác" for one without a category), and the entry is the total of those expenses |
| MonthStats.DayEntryIsDayExpense | backend/controllers/aiHandlers/utilsHelper.js:509-514 | `expenseByDay` has an entry for a day exactly when some expense is dated on it, and the entry is the total of those expenses |
| MonthStats.DayKeysAreDays | backend/controllers/aiHandlers/utilsHelper.js:510-514 | the keys of `expenseByDay` are days 1 to 31 |
| MonthStats.BreakdownValuesNonNegative | backend/controllers/aiHandlers/utilsHelper.js:502-514 | with non-negative amounts, every breakdown value is non-negative |
| QuickStats.GetQuickStats | backend/controllers/aiHandlers/utilsHelper.js:364-454 | the report is on the selected month's window: totals, balance, count, `categoryStats` with each category once; counts add up to the count, totals add up to income plus expense plus the rest; at most five top categories, sorted |
| QuickStats.Reports | backend/controllers/aiHandlers/utilsHelper.js:391-421 | what a report says about a month: its income and expense totals, the balance, the transaction count, `categoryStats` and the top five; `GetQuickStats` ensures it |
| QuickStats.GetQuickStatsWithFilter | backend/controllers/aiHandlers/utilsHelper.js:176-194 | the report is on the month the phrase resolves to, or on the current month |
| QuickStats.ReportCoversCalendarMonth | backend/controllers/aiHandlers/utilsHelper.js:376-389 | a transaction is reported exactly when it is the user's and dated in that calendar month |
| QuickStats.MarchReportExample | backend/controllers/aiHandlers/utilsHelper.js:376-412 | an expense of 500000 and an income of 2000000 in March 2024 give those totals, a balance of 1500000 and two transactions |
| QuickStats.MarchTotals | backend/controllers/aiHandlers/utilsHelper.js:392-401 | the income and expense totals of those two transactions |
| QuickStats.MarchWindowKeepsBoth | backend/controllers/aiHandlers/utilsHelper.js:376-389 | the March 2024 window keeps both transactions |
| QuickStats.InMarch2024 | backend/controllers/aiHandlers/utilsHelper.js:376-377 | every moment of a March 2024 day lies in the March 2024 window |
| MonthComparison.CompareMonths | backend/controllers/aiHandlers/utilsHelper.js:240-361 | fails exactly when months < 2; otherwise one entry per month going back from the current one, the highest at the first maximum, the lowest at the last minimum, and `expenseChange` from the last month to this one |
| MonthComparison.SummaryOf | backend/controllers/aiHandlers/utilsHelper.js:275-286 | an entry's balance is its income minus its expense |
| MonthComparison.ExpenseChange | backend/controllers/aiHandlers/utilsHelper.js:299-304 | the percentage change: times the previous expense it is 100 times the difference, and it is 0 without a positive previous expense; `ExpenseChangeSign` gives its sign |
| MonthComparison.ExpenseChangeSign | backend/controllers/aiHandlers/utilsHelper.js:299-304 | the change is positive exactly when the expense grew from a positive amount, negative exactly when it shrank from one, and 0 when the previous expense is not positive |
| MonthComparison.ConsecutiveMonths | backend/controllers/aiHandlers/utilsHelper.js:251-254 | each entry's month is the month before the previous entry's |
| MonthComparison.EntriesAreDistinctMonths | backend/controllers/aiHandlers/utilsHelper.js:251-254 | no two entries are for the same month |
| MonthComparison.FirstEntryIsCurrentMonth | backend/controllers/aiHandlers/utilsHelper.js:252-254 | the first entry is the current month |
| MonthComparison.HighestIsMostRecentMaximum | backend/controllers/aiHandlers/utilsHelper.js:290-293 | the highest entry has the largest expense, and no earlier entry ties it |
| MonthComparison.LowestIsOldestMinimum | backend/controllers/aiHandlers/utilsHelper.js:290-294 | the lowest entry has the smallest expense, and no later entry ties it |
| MonthComparison.RedBadgeOnHighestOnly | backend/controllers/aiHandlers/utilsHelper.js:309-312 | exactly the highest entry carries the red badge |
| MonthComparison.GreenBadgeOnLowestOnly | backend/controllers/aiHandlers/utilsHelper.js:309-312 | the green badge goes exactly to the lowest entry, unless that entry is also the highest |
| MonthComparison.BadgeOf | backend/controllers/aiHandlers/utilsHelper.js:309-312 | `isHighest ? " 🔴" : isLowest ? " 🟢" : ""`; `RedBadgeOnHighestOnly` and `GreenBadgeOnLowestOnly` state which entries get which badge |
| FinancialInsights.MaxValue | backend/controllers/aiHandlers/utilsHelper.js:657 | `Math.max(...values)` is at least every value and is one of them |
| FinancialInsights.SavingRate | backend/controllers/aiHandlers/utilsHelper.js:527-530 | with income, the rate times the income is 100 times the income minus the expense, at most 100 when the expense is not negative; 0 without income |
| FinancialInsights.ExpenseChangePercent | backend/controllers/aiHandlers/utilsHelper.js:592-598 | the absolute percentage change against a positive previous expense, 0 otherwise; `SpikeThreshold` states when it exceeds 20 |
| FinancialInsights.HealthOf | backend/controllers/aiHandlers/utilsHelper.js:479-534 | the entry of one month; `MonthHealthAt` proves the loop builds it, and `OverspendRule` and `HabitNeedsFourDays` use it |
| FinancialInsights.BalanceTotal | backend/controllers/aiHandlers/utilsHelper.js:542-545 | the sum of the account balances, a missing balance counting as 0; it is passed through and never read by the rules |
| FinancialInsights.TrendWarnings | backend/controllers/aiHandlers/utilsHelper.js:601-606 | the spike warning; `SpikeThreshold` and `SpikeRule` state when it appears |
| FinancialInsights.TrendPositives | backend/controllers/aiHandlers/utilsHelper.js:607-609 | the "controlled" positive exactly when the expense did not rise; `ControlledRule` states it |
| FinancialInsights.SavingWarnings | backend/controllers/aiHandlers/utilsHelper.js:624-628 | the overspend warning exactly when the saving rate is not positive; `SavingRules` and `OverspendWarningRule` state it |
| FinancialInsights.SavingPositives | backend/controllers/aiHandlers/utilsHelper.js:615-619 | the good-saving positive exactly when the rate is at least 20; `SavingRules` and `GoodSavingRule` state it |
| FinancialInsights.SavingSuggestions | backend/controllers/aiHandlers/utilsHelper.js:620-623 | the low-saving suggestion exactly when the rate is above 0 and below 10; `SavingRules` states it |
| FinancialInsights.ExceedsShare | backend/controllers/aiHandlers/utilsHelper.js:639-642 | the "more than 30%" test; `ShareThreshold` states when it holds, also for a zero total |
| FinancialInsights.ConcentrationWarnings | backend/controllers/aiHandlers/utilsHelper.js:638-648 | one warning per top category above 30% of the expense, in rank order; `ConcentrationWarningsAre`, `ConcentrationMember` and `ConcentrationRule` state it |
| FinancialInsights.DaySpike | backend/controllers/aiHandlers/utilsHelper.js:655-660 | the "a day above three times the average" test; with non-negative daily sums that add up to the total, `DaySpikeNeedsFourDays` proves it needs at least four expense days |
| FinancialInsights.Stable | backend/controllers/aiHandlers/utilsHelper.js:665-669 | the stability test; `StableThreshold` states when it holds |
| FinancialInsights.AdviceOf | backend/controllers/aiHandlers/utilsHelper.js:675-697 | the advice lines; `AdviceRules` and `LargestAdviceOf` state when each appears |
| FinancialInsights.AdviceFor | backend/controllers/aiHandlers/utilsHelper.js:679-686 | the two overspend advices for the overspend warning, the largest-categories advice for a warning mentioning "Chi tiêu quá nhiều", nothing otherwise |
| FinancialInsights.AdviceForAll | backend/controllers/aiHandlers/utilsHelper.js:678-687 | the advice of each warning in order; `AdviceForAllIs` and `LargestAdviceFrom` state which advices appear |
| FinancialInsights.InsightsOf | backend/controllers/aiHandlers/utilsHelper.js:575-703 | everything the insights depend on; `GenerateFinancialInsights` and the `InsightRules` lemmas state what it gives |
| FinancialInsights.TrendSection | backend/controllers/aiHandlers/utilsHelper.js:589-610 | section 1 pushes the spike warning and the controlled positive as `TrendWarnings` and `TrendPositives` say |
| FinancialInsights.SavingSection | backend/controllers/aiHandlers/utilsHelper.js:613-628 | section 2 pushes the saving messages as `SavingWarnings`, `SavingPositives` and `SavingSuggestions` say |
| FinancialInsights.PushConcentrationWarnings | backend/controllers/aiHandlers/utilsHelper.js:632-648 | section 3 appends one warning per top category above a 30% share, in rank order |
| FinancialInsights.AdviceLines | backend/controllers/aiHandlers/utilsHelper.js:675-697 | the advice lines are those of `AdviceOf`, in the order they are printed |
| FinancialInsights.GenerateFinancialInsights | backend/controllers/aiHandlers/utilsHelper.js:575-703 | the insights and advice are `InsightsOf` the first two months and the goal count |
| FinancialInsights.MonthHealthAt | backend/controllers/aiHandlers/utilsHelper.js:479-534 | one pass of the loop builds that month's entry |
| FinancialInsights.AnalyzeFinancialHealth | backend/controllers/aiHandlers/utilsHelper.js:465-563 | three entries, for this month and the two before; the insights of the first two; the goal count; and the sum of account balances, a missing balance counting as 0 |
| InsightRules.SavingRatePositive | backend/controllers/aiHandlers/utilsHelper.js:527-530 | the saving rate is positive exactly when there is income and the expense is below it |
| InsightRules.SpikeThreshold | backend/controllers/aiHandlers/utilsHelper.js:590-606 | "rose and changed by more than 20%" means a positive last expense and a rise of more than a fifth of it |
| InsightRules.SpikeRule | backend/controllers/aiHandlers/utilsHelper.js:590-606 | the spike warning appears exactly when the last expense is positive and the expense rose by more than a fifth of it |
| InsightRules.SpikeExample | backend/controllers/aiHandlers/utilsHelper.js:590-606 | 1000000 last month and 1300000 this month give the spike warning |
| InsightRules.ControlledRule | backend/controllers/aiHandlers/utilsHelper.js:590-610 | the controlled positive appears exactly when the expense did not rise |
| InsightRules.SavingRules | backend/controllers/aiHandlers/utilsHelper.js:615-628 | the overspend warning appears exactly when the rate is not positive; the good-saving positive exactly when it is at least 20; the low-saving suggestion exactly when it is between 0 and 10 |
| InsightRules.OverspendWarningRule | backend/controllers/aiHandlers/utilsHelper.js:615-628 | the overspend warning appears exactly when the rate is not positive |
| InsightRules.GoodSavingRule | backend/controllers/aiHandlers/utilsHelper.js:615-619 | the good-saving positive appears exactly when the rate is at least 20 |
| InsightRules.OverspendRule | backend/controllers/aiHandlers/utilsHelper.js:496-628 | for a month of the ledger, the overspend warning appears exactly when there is no income or the expense reaches it |
| InsightRules.ShareThreshold | backend/controllers/aiHandlers/utilsHelper.js:639-642 | `amount / total * 100 > 30` holds exactly when the amount is over 30% of a positive total, or under 30% of a negative one, or positive against a zero total |
| InsightRules.ConcentrationWarningsAre | backend/controllers/aiHandlers/utilsHelper.js:638-648 | a concentration warning is exactly "Chi tiêu quá nhiều cho" plus a top category above the share |
| InsightRules.ConcentrationCount | backend/controllers/aiHandlers/utilsHelper.js:638-648 | there are at most as many concentration warnings as top categories |
| InsightRules.ConcentrationMember | backend/controllers/aiHandlers/utilsHelper.js:638-648 | the warning for a category is there exactly when that category is a top one above the share |
| InsightRules.ConcentrationRule | backend/controllers/aiHandlers/utilsHelper.js:632-648 | at most three concentration warnings, one for a category exactly when it is among the top three and above a 30% share |
| InsightRules.NotConcentration | backend/controllers/aiHandlers/utilsHelper.js:644 | the spike and overspend messages are never concentration warnings |
| InsightRules.DaySpikeNeedsFourDays | backend/controllers/aiHandlers/utilsHelper.js:655-660 | with non-negative daily sums that add up to the total, a day above three times the average needs at least four days |
| InsightRules.HabitNeedsFourDays | backend/controllers/aiHandlers/utilsHelper.js:496-663 | for a month of the ledger with non-negative amounts, the spike-day habit needs expenses on at least four days |
| InsightRules.StableThreshold | backend/controllers/aiHandlers/utilsHelper.js:665-669 | the stability test holds exactly for a negative last expense, or for a change under 15% of a positive one |
| InsightRules.StableRule | backend/controllers/aiHandlers/utilsHelper.js:665-673 | the stable positive appears exactly then |
| InsightRules.AdviceForAllIs | backend/controllers/aiHandlers/utilsHelper.js:678-687 | per-warning advice is only the three advice lines, and cutting spending is advised exactly when the overspend warning is there |
| InsightRules.LargestAdviceFrom | backend/controllers/aiHandlers/utilsHelper.js:678-687 | "reduce the largest categories" is advised exactly when some warning other than the overspend one mentions "Chi tiêu quá nhiều" |
| InsightRules.AdviceRules | backend/controllers/aiHandlers/utilsHelper.js:678-697 | daily tracking is always the last line. The saving target appears exactly for a rate strictly between 0 and 20, the goal reminder exactly when there is no goal, and the cut-spending advice exactly with the overspend warning |
| InsightRules.LargestAdviceOf | backend/controllers/aiHandlers/utilsHelper.js:678-697 | the largest-categories advice is in the advice exactly when a concentration-style warning is |
| InsightRules.ConcentrationMentions | backend/controllers/aiHandlers/utilsHelper.js:644-683 | every concentration warning mentions "Chi tiêu quá nhiều" and comes from a category above the share |
| InsightRules.TrendAndSavingDoNotMention | backend/controllers/aiHandlers/utilsHelper.js:604-683 | the trend and saving warnings never trigger the largest-categories advice |
| InsightRules.MentionIffAboveShare | backend/controllers/aiHandlers/utilsHelper.js:632-687 | after those warnings, a concentration-style warning exists exactly when some top category is above the share |
| InsightRules.LargestAdviceRule | backend/controllers/aiHandlers/utilsHelper.js:632-687 | the largest-categories advice appears exactly when some top-three category is above a 30% share |

## Left out

- Database access (`Transaction.find`, `Goal.find`, `Account.find`, `populate`, the `userId` to `ObjectId` conversion) is not modelled. The user's transactions are the parameter `all`, the goals are their count, and the accounts are their balances.
- `getUserContext` and its helpers are not part of this model.
- The clock (`new Date()`) is the parameter `now`. Time zones and the epoch encoding of `Date` are not modelled; dates are local calendar fields.
- The narrative texts are not modelled: `response`, `responseText`, `monthName`, `toLocaleString`, `toLocaleDateString` and `toFixed`. Their numeric content is in the data the model returns. In `QuickStats`, `topCategories` stands for the data behind the rendered top-five list, which the source's `data` object does not carry.
- `console.log` and `console.error` are not modelled.
- The `catch` blocks of `getQuickStats`, `getQuickStatsWithFilter` and `analyzeFinancialHealth` are not modelled. They are reached only when the database layer fails, or when a non-string `timeFilter` reaches `toLowerCase`. The database layer fails in two ways: `new mongoose.Types.ObjectId(userId)` throws on a malformed `userId` string without reading anything, or a read fails. The model has no user id: its transactions are already the user's. The only failure the model keeps is the one the code raises on every input: `compareMonths` with fewer than two months.
- `JSON.parse` is the parameter `parse`. A result of `None` stands for its `SyntaxError`.
- Regular expressions are modelled only as the specific scanners the helpers use, not as a general engine.
- Text.LowerStr: `toLowerCase` is modelled for ASCII, Latin-1, Latin Extended-A, Ơ and Ư, and the Vietnamese letters of Latin Extended Additional. İ (U+0130) is the exception in Latin Extended-A: JavaScript lowers it to two characters ("i" and a combining dot), which a length-preserving mapping cannot express, so the model leaves it unchanged. The rest of Unicode (Greek, Cyrillic, the rest of Latin Extended-B, and so on) is left unchanged, and locale-specific mappings are ignored.
- IEEE-754 floating point is not modelled. Amounts and ratios are exact reals, so rounding errors, precision loss on large amounts and `-0` are absent. Division by zero is written out where the source can divide by zero.
- `parseFloat` is modelled for texts the patterns hand it (digits with at most one dot taken into account). It is not modelled for exponents, signs, or the other inputs `parseFloat` accepts.
- Object key order: JavaScript lists integer-like keys such as the day numbers of `expenseByDay` in ascending order. The model keeps insertion order. `expenseByDay` is only read through `Math.max` and the number of keys, which do not depend on order. Special keys such as `__proto__` are not modelled.
- QuickStats.GetQuickStats: `Object.entries(categoryStats)` lists integer-like category names (such as "2024") first, in ascending order, and the other names after them in insertion order. The model keeps insertion order for every name. When an integer-like name ties on total with another name, the stable sort can order the two differently from the code. So the order of `categoryStats`, and which of the tied entries survives `slice(0, 5)`, can differ from the code's.
- Ledger.TopSelects: its input is the dictionary's entries in insertion order. With integer-like keys, the code's input order differs, and so can the choice between entries tied at the cut.
- FinancialInsights.PushConcentrationWarnings: the top three of `categoryBreakdown` are taken from its entries in insertion order. When an integer-like category name ties at the cut, the code can keep a different category, and its warnings follow that choice.
- `generateFinancialInsights` reads `monthsData[2]` into `twoMonthsAgo` and receives `totalBalance`. Neither is used, so neither appears in `FinancialInsights.InsightsOf`. `GenerateFinancialInsights` requires two months, which `analyzeFinancialHealth` always supplies.
- TimeFilter.MonthNumberSearch: its contract states that the position found matches. That it is the leftmost one is proved separately, by `TimeFilter.SearchFindsLeftmost` and `TimeFilter.SearchFindsNothing`.
- AmountExtraction.ParseFloat: its contract states only that the value is non-negative. Specific values are proved for the example texts.
- MonthComparison.CompareMonths: the default `months = 3` is not modelled. `months` is a required argument.
- Calendar.MonthStart: `new Date(y, m, d)` reads a year from 0 to 99 as 1900 + y. The model uses the year as given.
- Calendar.MonthEnd: `new Date(y, m, 0, 23, 59, 59, 999)` reads a year from 0 to 99 as 1900 + y. The model uses the year as given.
- Calendar.MonthsBack: `new Date(y, m - 1 - i, 1)` reads a year from 0 to 99 as 1900 + y. The model uses the year as given.
- IntentPayload.Validate: when `entities` is missing, the code adds it as the last key of the parsed object. The model's object is a map, which keeps no key order, so where `entities` goes is not captured.
